/**
 The three record kinds, the process-wide fallback cache that holds them while the
 persistent store is unreachable, and the shapes of the accessors' results.
 */
module Records {
  import opened Wrappers
  import opened Freshness

  /** A coding-practice profile. The statistics the caller fetched are carried as an
      opaque field map; only `username` and `lastUpdated` matter to this layer. */
  datatype LeetCodeUser = LeetCodeUser(username: string, profile: map<string, string>, lastUpdated: Date)

  /** A code-hosting profile whose every write is one visit. */
  datatype GitHubUser = GitHubUser(
    username: string,
    visitCount: int,
    lastVisited: int,
    lastUpdated: int,
    avatarUrl: Option<string>,
    avatarUpdatedAt: Option<int>)

  /** A blog-site profile, keyed by `userId`. */
  datatype CSDNUser = CSDNUser(
    userId: string,
    username: string,
    articleCount: int,
    followers: int,
    likes: int,
    views: int,
    comments: int,
    points: int,
    visitCount: int,
    lastUpdated: Date)

  /** A partial blog-site profile: `None` is a field the caller did not supply. */
  datatype CSDNPatch = CSDNPatch(
    userId: Option<string>,
    username: Option<string>,
    articleCount: Option<int>,
    followers: Option<int>,
    likes: Option<int>,
    views: Option<int>,
    comments: Option<int>,
    points: Option<int>,
    visitCount: Option<int>,
    lastUpdated: Option<Date>)

  /** The in-process fallback: record kind, then key, then record. */
  datatype MemoryCache = MemoryCache(
    leetcode: map<string, LeetCodeUser>,
    github: map<string, GitHubUser>,
    csdn: map<string, CSDNUser>)

  /** The cache as the process starts with it. */
  const EmptyCache: MemoryCache := MemoryCache(map[], map[], map[])

  /** What the persistent store's find-by-key answered. */
  datatype StoreReply<T> = Found(record: T) | NotFound | QueryFailed(message: string)

  /** What the persistent store's upsert answered. */
  datatype StoreWrite = Acknowledged | WriteFailed(message: string)

  /** The structured result of a read that decides freshness. */
  datatype ReadResult<T> = ReadResult(userData: Option<T>, needsFetch: bool, error: Option<string>)

  /** The structured result of the code-hosting read, which has no freshness decision. */
  datatype GitHubReadResult = GitHubReadResult(userData: Option<GitHubUser>, error: Option<string>)

  /** The fallback cache after a write, and the boolean the write returns. */
  datatype WriteResult = WriteResult(cache: MemoryCache, ok: bool)

  function Lookup<V>(m: map<string, V>, key: string): Option<V> {
    if key in m then Some(m[key]) else None
  }

  /** `m'` is `m` with an entry stored under `key` and every other entry untouched. */
  predicate OnlyKeyWritten<V(==)>(m: map<string, V>, m': map<string, V>, key: string) {
    && m'.Keys == m.Keys + {key}
    && forall k :: k in m && k != key ==> m'[k] == m[k]
  }

  /** An upsert never duplicates: the key set grows by one exactly when the key was new. */
  lemma UpsertSize<V>(m: map<string, V>, m': map<string, V>, key: string)
    requires OnlyKeyWritten(m, m', key)
    ensures |m'| == if key in m then |m| else |m| + 1
  {
    if key in m {
      assert m'.Keys == m.Keys;
    } else {
      assert |m.Keys + {key}| == |m.Keys| + 1;
    }
  }
}
