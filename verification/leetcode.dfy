/**
 The coding-practice accessor: a read with a freshness decision and a full-replace write.
 The persistent store's answers are parameters; the fallback cache is threaded through.
 */
module LeetCodeAccessor {
  import opened Wrappers
  import opened Freshness
  import opened Records

  /** `getLeetCodeUserData`. The backend is the one the connection probe found
      (`readyAtProbe`); the reconnect attempt that follows a failed probe does not
      change it. The store branch compares against the caller's TTL in seconds; the
      fallback branch ignores the TTL and uses the fixed 24-hour window. */
  function GetLeetCodeUserData(
    cache: MemoryCache, readyAtProbe: bool, reply: StoreReply<LeetCodeUser>,
    username: string, cacheTimeInSeconds: int, now: int): (r: ReadResult<LeetCodeUser>)
    // fail open: no data or an error always asks for a fetch
    ensures r.userData.None? ==> r.needsFetch
    ensures r.error.Some? ==> r.userData.None? && r.needsFetch
    // store branch
    ensures readyAtProbe ==> (r.error.Some? <==> reply.QueryFailed?)
    ensures readyAtProbe && reply.QueryFailed? ==> r.error == Some(reply.message)
    ensures readyAtProbe ==> (r.userData.Some? <==> reply.Found?)
    ensures readyAtProbe && reply.Found? ==>
      r.userData == Some(reply.record)
      && (r.needsFetch <==> !(reply.record.lastUpdated.At?
                              && (now - reply.record.lastUpdated.ms) as real / 1000.0 < cacheTimeInSeconds as real))
    // fallback branch
    ensures !readyAtProbe ==> r.error.None? && r.userData == Lookup(cache.leetcode, username)
    ensures !readyAtProbe && username in cache.leetcode ==>
      (r.needsFetch <==> !(cache.leetcode[username].lastUpdated.At?
                           && now - cache.leetcode[username].lastUpdated.ms < 86400000))
  {
    if readyAtProbe then
      match reply
      case QueryFailed(message) => ReadResult(None, true, Some(message))
      case NotFound => ReadResult(None, true, None)
      case Found(user) => ReadResult(Some(user), !StoreFresh(user.lastUpdated, cacheTimeInSeconds, now), None)
    else if username in cache.leetcode then
      var user := cache.leetcode[username];
      ReadResult(Some(user), !FallbackFresh(user.lastUpdated, now), None)
    else
      ReadResult(None, true, None)
  }

  /** `updateUserData`. Connected, the upsert goes to the store and the cache is left
      alone; disconnected, the payload is stored verbatim, `lastUpdated` included, and
      the write cannot fail. No reconnect is attempted on this path. */
  function UpdateUserData(
    cache: MemoryCache, connected: bool, username: string, userData: LeetCodeUser,
    store: StoreWrite): (r: WriteResult)
    ensures connected ==> r.cache == cache && (r.ok <==> store.Acknowledged?)
    ensures !connected ==> r.ok
    ensures !connected ==> username in r.cache.leetcode && r.cache.leetcode[username] == userData
    ensures !connected ==> OnlyKeyWritten(cache.leetcode, r.cache.leetcode, username)
    ensures r.cache.github == cache.github && r.cache.csdn == cache.csdn
  {
    if connected then
      WriteResult(cache, store.Acknowledged?)
    else
      WriteResult(cache.(leetcode := cache.leetcode[username := userData]), true)
  }

  /** While connected the fallback cache plays no part in a read. */
  lemma StoreReadIgnoresCache(
    c1: MemoryCache, c2: MemoryCache, reply: StoreReply<LeetCodeUser>,
    username: string, ttl: int, now: int)
    ensures GetLeetCodeUserData(c1, true, reply, username, ttl, now)
         == GetLeetCodeUserData(c2, true, reply, username, ttl, now)
  {
  }

  /** While disconnected at the probe the store's answer plays no part in a read, and
      the caller's TTL is ignored. */
  lemma FallbackReadIgnoresStoreAndTtl(
    cache: MemoryCache, reply1: StoreReply<LeetCodeUser>, reply2: StoreReply<LeetCodeUser>,
    username: string, ttl1: int, ttl2: int, now: int)
    ensures GetLeetCodeUserData(cache, false, reply1, username, ttl1, now)
         == GetLeetCodeUserData(cache, false, reply2, username, ttl2, now)
  {
  }

  /** A fallback write followed by a fallback read returns the payload; whether it is
      fresh depends on the payload's own `lastUpdated`, since the write does not
      refresh it. */
  lemma FallbackWriteThenRead(
    cache: MemoryCache, username: string, userData: LeetCodeUser, store: StoreWrite,
    reply: StoreReply<LeetCodeUser>, ttl: int, now: int)
    ensures var r := GetLeetCodeUserData(UpdateUserData(cache, false, username, userData, store).cache,
                                         false, reply, username, ttl, now);
      r.userData == Some(userData) && r.error.None?
      && (r.needsFetch <==> !FallbackFresh(userData.lastUpdated, now))
  {
  }

  /** The quirk in one instance: a payload stamped 25 hours ago, written to the
      fallback, is already stale when read back at once. */
  lemma StalePayloadStaysStale(cache: MemoryCache, username: string, profile: map<string, string>, now: int)
    ensures var payload := LeetCodeUser(username, profile, At(now - 25 * HourMs));
      GetLeetCodeUserData(UpdateUserData(cache, false, username, payload, Acknowledged).cache,
                          false, NotFound, username, 3600, now).needsFetch
  {
  }

  /** Writing the same payload twice leaves the cache as writing it once. */
  lemma UpdateIdempotent(cache: MemoryCache, connected: bool, username: string, userData: LeetCodeUser, store: StoreWrite)
    ensures var once := UpdateUserData(cache, connected, username, userData, store);
      UpdateUserData(once.cache, connected, username, userData, store) == once
  {
  }
}
