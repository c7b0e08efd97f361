/**
 The code-hosting accessor: a read without a freshness decision, and a write that
 counts one visit and optionally records a new avatar.
 */
module GitHubAccessor {
  import opened Wrappers
  import opened Records

  /** `getGitHubUserData`. The backend is the one the probe found. A fallback hit is
      returned as stored, except that a missing `avatarUpdatedAt` reads as `now`. */
  function GetGitHubUserData(
    cache: MemoryCache, readyAtProbe: bool, reply: StoreReply<GitHubUser>,
    username: string, now: int): (r: GitHubReadResult)
    ensures r.error.Some? ==> r.userData.None?
    ensures readyAtProbe ==> (r.error.Some? <==> reply.QueryFailed?)
    ensures readyAtProbe && reply.QueryFailed? ==> r.error == Some(reply.message)
    ensures readyAtProbe ==> (r.userData.Some? <==> reply.Found?)
    ensures readyAtProbe && reply.Found? ==> r.userData.value == reply.record
    ensures !readyAtProbe ==> r.error.None? && (r.userData.Some? <==> username in cache.github)
    ensures !readyAtProbe && username in cache.github ==>
      var stored := cache.github[username];
      && r.userData.value.avatarUpdatedAt.Some?
      && (stored.avatarUpdatedAt.Some? ==> r.userData.value == stored)
      && (stored.avatarUpdatedAt.None? ==> r.userData.value == stored.(avatarUpdatedAt := Some(now)))
  {
    if readyAtProbe then
      match reply
      case QueryFailed(message) => GitHubReadResult(None, Some(message))
      case NotFound => GitHubReadResult(None, None)
      case Found(user) => GitHubReadResult(Some(user), None)
    else if username in cache.github then
      var cached := cache.github[username];
      GitHubReadResult(Some(cached.(avatarUpdatedAt := Some(Otherwise(cached.avatarUpdatedAt, now)))), None)
    else
      GitHubReadResult(None, None)
  }

  /** The update request the store branch sends: `$inc` of the visit count and
      `$set` of the given fields; the avatar fields are set only for a truthy URL. */
  datatype GitHubUpdate = GitHubUpdate(
    incVisitCount: int,
    setLastVisited: int,
    setLastUpdated: int,
    setAvatarUrl: Option<string>,
    setAvatarUpdatedAt: Option<int>)

  function UpdateRequest(avatarUrl: Option<string>, now: int): (u: GitHubUpdate)
    ensures u.incVisitCount == 1 && u.setLastVisited == now && u.setLastUpdated == now
    ensures u.setAvatarUrl.Some? <==> Truthy(avatarUrl)
    ensures u.setAvatarUrl.Some? ==> u.setAvatarUrl == avatarUrl && u.setAvatarUpdatedAt == Some(now)
    ensures u.setAvatarUrl.None? ==> u.setAvatarUpdatedAt.None?
  {
    if Truthy(avatarUrl) then GitHubUpdate(1, now, now, avatarUrl, Some(now))
    else GitHubUpdate(1, now, now, None, None)
  }

  /** The record the fallback branch keeps for `username` after one visit. */
  function VisitedRecord(prior: Option<GitHubUser>, username: string, avatarUrl: Option<string>, now: int): GitHubUser
  {
    var base := Otherwise(prior, GitHubUser(username, 0, now, now, None, Some(now)));
    var visited := base.(visitCount := base.visitCount + 1, lastVisited := now, lastUpdated := now);
    if Truthy(avatarUrl) then visited.(avatarUrl := avatarUrl, avatarUpdatedAt := Some(now)) else visited
  }

  /** `updateGitHubUserData`. Connected, the request goes to the store and the cache is
      left alone; disconnected, the record is created with no visits if absent, then
      its visit is counted and its timestamps set, and the write cannot fail. */
  function UpdateGitHubUserData(
    cache: MemoryCache, connected: bool, username: string, avatarUrl: Option<string>,
    store: StoreWrite, now: int): (r: WriteResult)
    ensures connected ==> r.cache == cache && (r.ok <==> store.Acknowledged?)
    ensures !connected ==> r.ok && OnlyKeyWritten(cache.github, r.cache.github, username)
    ensures !connected ==>
      var rec := r.cache.github[username];
      && rec.visitCount == (if username in cache.github then cache.github[username].visitCount else 0) + 1
      && rec.lastVisited == now && rec.lastUpdated == now
      && rec.username == (if username in cache.github then cache.github[username].username else username)
    ensures !connected && Truthy(avatarUrl) ==>
      r.cache.github[username].avatarUrl == avatarUrl && r.cache.github[username].avatarUpdatedAt == Some(now)
    ensures !connected && !Truthy(avatarUrl) && username in cache.github ==>
      r.cache.github[username].avatarUrl == cache.github[username].avatarUrl
      && r.cache.github[username].avatarUpdatedAt == cache.github[username].avatarUpdatedAt
    ensures !connected && !Truthy(avatarUrl) && username !in cache.github ==>
      r.cache.github[username].avatarUrl.None? && r.cache.github[username].avatarUpdatedAt == Some(now)
    ensures r.cache.leetcode == cache.leetcode && r.cache.csdn == cache.csdn
  {
    if connected then
      WriteResult(cache, store.Acknowledged?)
    else
      var rec := VisitedRecord(Lookup(cache.github, username), username, avatarUrl, now);
      WriteResult(cache.(github := cache.github[username := rec]), true)
  }

  /** The fallback update does to the cached record what the store request asks of
      the stored document: increment by the request's amount, set the fields it sets,
      keep the avatar fields it does not set. */
  lemma FallbackAgreesWithStoreRequest(
    cache: MemoryCache, username: string, avatarUrl: Option<string>, store: StoreWrite, now: int)
    requires username in cache.github
    ensures var before := cache.github[username];
      var after := UpdateGitHubUserData(cache, false, username, avatarUrl, store, now).cache.github[username];
      var req := UpdateRequest(avatarUrl, now);
      && after.visitCount == before.visitCount + req.incVisitCount
      && after.lastVisited == req.setLastVisited
      && after.lastUpdated == req.setLastUpdated
      && after.avatarUrl == (if req.setAvatarUrl.Some? then req.setAvatarUrl else before.avatarUrl)
      && after.avatarUpdatedAt == (if req.setAvatarUpdatedAt.Some? then req.setAvatarUpdatedAt else before.avatarUpdatedAt)
      && after.username == before.username
  {
  }

  /** One visit in fallback mode: when it happened and which avatar URL came with it. */
  datatype Visit = Visit(now: int, avatarUrl: Option<string>)

  /** The cache after a sequence of fallback-mode visits to one user, in order. */
  function FallbackVisits(cache: MemoryCache, username: string, visits: seq<Visit>): MemoryCache
    decreases |visits|
  {
    if |visits| == 0 then cache
    else
      var next := UpdateGitHubUserData(cache, false, username, visits[0].avatarUrl, Acknowledged, visits[0].now).cache;
      FallbackVisits(next, username, visits[1..])
  }

  /** The visit count the fallback holds for `username`, 0 when it holds no record. */
  function VisitCountOf(cache: MemoryCache, username: string): int {
    if username in cache.github then cache.github[username].visitCount else 0
  }

  /** N sequential fallback visits add exactly N to the count; the last one sets the
      visit time; no other user and no other kind is touched. */
  lemma {:induction false} VisitsAccumulate(cache: MemoryCache, username: string, visits: seq<Visit>)
    ensures var after := FallbackVisits(cache, username, visits);
      && VisitCountOf(after, username) == VisitCountOf(cache, username) + |visits|
      && (|visits| > 0 ==> username in after.github && after.github[username].lastVisited == visits[|visits| - 1].now)
      && after.github.Keys == cache.github.Keys + (if |visits| > 0 then {username} else {})
      && (forall k :: k in cache.github && k != username ==> after.github[k] == cache.github[k])
      && after.leetcode == cache.leetcode && after.csdn == cache.csdn
    decreases |visits|
  {
    if |visits| > 0 {
      var next := UpdateGitHubUserData(cache, false, username, visits[0].avatarUrl, Acknowledged, visits[0].now).cache;
      VisitsAccumulate(next, username, visits[1..]);
      var after := FallbackVisits(cache, username, visits);
      assert after == FallbackVisits(next, username, visits[1..]);
      if |visits| > 1 {
        assert visits[1..][|visits[1..]| - 1] == visits[|visits| - 1];
      }
    }
  }

  /** On a fresh key, N sequential fallback visits give a visit count of N. */
  lemma VisitsOnFreshKey(cache: MemoryCache, username: string, visits: seq<Visit>)
    requires username !in cache.github
    requires |visits| > 0
    ensures username in FallbackVisits(cache, username, visits).github
    ensures FallbackVisits(cache, username, visits).github[username].visitCount == |visits|
  {
    VisitsAccumulate(cache, username, visits);
  }
}
