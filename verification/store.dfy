/**
 The fallback cache as a state machine: the writes the three accessors make to it
 while the store is unreachable, applied in order from an empty cache.
 */
module FallbackStore {
  import opened Wrappers
  import opened Records
  import LeetCodeAccessor
  import GitHubAccessor
  import CSDNAccessor

  /** One write made in fallback mode, with its clock reading where it takes one. */
  datatype Write =
    | LeetCodeWrite(username: string, userData: LeetCodeUser)
    | GitHubWrite(username: string, avatarUrl: Option<string>, now: int)
    | CSDNWrite(userId: string, patch: CSDNPatch, now: int)

  /** The cache after `w`, made while disconnected (the store outcome is then unused). */
  function Apply(cache: MemoryCache, w: Write): MemoryCache {
    match w
    case LeetCodeWrite(username, userData) =>
      LeetCodeAccessor.UpdateUserData(cache, false, username, userData, Acknowledged).cache
    case GitHubWrite(username, avatarUrl, now) =>
      GitHubAccessor.UpdateGitHubUserData(cache, false, username, avatarUrl, Acknowledged, now).cache
    case CSDNWrite(userId, patch, now) =>
      CSDNAccessor.UpdateCSDNUserData(cache, false, userId, patch, Acknowledged, now).cache
  }

  function ApplyAll(cache: MemoryCache, writes: seq<Write>): MemoryCache
    decreases |writes|
  {
    if |writes| == 0 then cache else ApplyAll(Apply(cache, writes[0]), writes[1..])
  }

  /** Every write changes one entry of its own kind, under its own key, and nothing else. */
  lemma WriteTouchesOnlyItsEntry(cache: MemoryCache, w: Write)
    ensures var after := Apply(cache, w);
      match w
      case LeetCodeWrite(k, _) =>
        OnlyKeyWritten(cache.leetcode, after.leetcode, k) && after.github == cache.github && after.csdn == cache.csdn
      case GitHubWrite(k, _, _) =>
        OnlyKeyWritten(cache.github, after.github, k) && after.leetcode == cache.leetcode && after.csdn == cache.csdn
      case CSDNWrite(k, _, _) =>
        OnlyKeyWritten(cache.csdn, after.csdn, k) && after.leetcode == cache.leetcode && after.github == cache.github
  {
  }

  /** Every code-hosting record in the fallback carries an avatar timestamp. */
  predicate AvatarStampsSet(cache: MemoryCache) {
    forall k :: k in cache.github ==> cache.github[k].avatarUpdatedAt.Some?
  }

  lemma {:induction false} WritesKeepAvatarStamps(cache: MemoryCache, writes: seq<Write>)
    requires AvatarStampsSet(cache)
    ensures AvatarStampsSet(ApplyAll(cache, writes))
    decreases |writes|
  {
    if |writes| > 0 {
      var next := Apply(cache, writes[0]);
      WriteTouchesOnlyItsEntry(cache, writes[0]);
      assert AvatarStampsSet(next);
      WritesKeepAvatarStamps(next, writes[1..]);
    }
  }

  /** Because the fallback write always stamps the avatar time, the default the
      fallback read applies never comes into play: a read returns the stored record. */
  lemma FallbackGitHubReadIsExact(
    writes: seq<Write>, reply: StoreReply<GitHubUser>, username: string, now: int)
    ensures var cache := ApplyAll(EmptyCache, writes);
      var r := GitHubAccessor.GetGitHubUserData(cache, false, reply, username, now);
      r.userData == Lookup(cache.github, username) && r.error.None?
  {
    WritesKeepAvatarStamps(EmptyCache, writes);
  }

  /** A fallback write never duplicates a record: the map of its kind grows by one
      entry exactly when the key was new, and the other two maps keep their size. */
  lemma WriteGrowsByOneIffNew(cache: MemoryCache, w: Write)
    ensures var after := Apply(cache, w);
      match w
      case LeetCodeWrite(k, _) =>
        |after.leetcode| == (if k in cache.leetcode then |cache.leetcode| else |cache.leetcode| + 1)
        && |after.github| == |cache.github| && |after.csdn| == |cache.csdn|
      case GitHubWrite(k, _, _) =>
        |after.github| == (if k in cache.github then |cache.github| else |cache.github| + 1)
        && |after.leetcode| == |cache.leetcode| && |after.csdn| == |cache.csdn|
      case CSDNWrite(k, _, _) =>
        |after.csdn| == (if k in cache.csdn then |cache.csdn| else |cache.csdn| + 1)
        && |after.leetcode| == |cache.leetcode| && |after.github| == |cache.github|
  {
    var after := Apply(cache, w);
    WriteTouchesOnlyItsEntry(cache, w);
    match w
    case LeetCodeWrite(k, _) => UpsertSize(cache.leetcode, after.leetcode, k);
    case GitHubWrite(k, _, _) => UpsertSize(cache.github, after.github, k);
    case CSDNWrite(k, _, _) => UpsertSize(cache.csdn, after.csdn, k);
  }
}
