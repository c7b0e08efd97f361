/**
 The blog-site accessor: a read with a freshness decision that only the store can
 serve, and a partial-merge write.
 */
module CSDNAccessor {
  import opened Wrappers
  import opened Freshness
  import opened Records

  /** `getCSDNUserData`. Only the store branch reads anything: when the probe found the
      store not ready the result is "no data, fetch", whatever the fallback holds. */
  function GetCSDNUserData(
    cache: MemoryCache, readyAtProbe: bool, reply: StoreReply<CSDNUser>,
    userId: string, cacheTimeInSeconds: int, now: int): (r: ReadResult<CSDNUser>)
    ensures r.userData.None? ==> r.needsFetch
    ensures r.error.Some? ==> r.userData.None? && r.needsFetch
    ensures readyAtProbe ==> (r.error.Some? <==> reply.QueryFailed?)
    ensures readyAtProbe && reply.QueryFailed? ==> r.error == Some(reply.message)
    ensures readyAtProbe ==> (r.userData.Some? <==> reply.Found?)
    ensures readyAtProbe && reply.Found? ==>
      r.userData == Some(reply.record)
      && (r.needsFetch <==> !(reply.record.lastUpdated.At?
                              && (now - reply.record.lastUpdated.ms) as real / 1000.0 < cacheTimeInSeconds as real))
    ensures !readyAtProbe ==> r == ReadResult(None, true, None)
  {
    if readyAtProbe then
      match reply
      case QueryFailed(message) => ReadResult(None, true, Some(message))
      case NotFound => ReadResult(None, true, None)
      case Found(user) => ReadResult(Some(user), !StoreFresh(user.lastUpdated, cacheTimeInSeconds, now), None)
    else
      ReadResult(None, true, None)
  }

  /** The partial update with the key forced in as `userId`, as both branches use it. */
  function WithUserId(userData: CSDNPatch, userId: string): (p: CSDNPatch)
    ensures p.userId == Some(userId)
    ensures p.(userId := userData.userId) == userData
  {
    userData.(userId := Some(userId))
  }

  /** The record a new key starts from: every counter zero, and the supplied username
      if truthy, else the key. */
  function NewCSDNUser(userId: string, updatedData: CSDNPatch, now: int): CSDNUser {
    CSDNUser(userId, if Truthy(updatedData.username) then updatedData.username.value else userId,
             0, 0, 0, 0, 0, 0, 0, At(now))
  }

  /** The shallow merge `{...base, ...patch, lastUpdated: now}`: supplied fields win. */
  function Merge(base: CSDNUser, patch: CSDNPatch, now: int): CSDNUser {
    CSDNUser(
      Otherwise(patch.userId, base.userId),
      Otherwise(patch.username, base.username),
      Otherwise(patch.articleCount, base.articleCount),
      Otherwise(patch.followers, base.followers),
      Otherwise(patch.likes, base.likes),
      Otherwise(patch.views, base.views),
      Otherwise(patch.comments, base.comments),
      Otherwise(patch.points, base.points),
      Otherwise(patch.visitCount, base.visitCount),
      At(now))
  }

  /** `updateCSDNUserData`. Connected, the upsert goes to the store and the cache is
      left alone; disconnected, a missing record is first created from zeros, then
      the partial update is merged over it, and the write cannot fail. */
  function UpdateCSDNUserData(
    cache: MemoryCache, connected: bool, userId: string, userData: CSDNPatch,
    store: StoreWrite, now: int): (r: WriteResult)
    ensures connected ==> r.cache == cache && (r.ok <==> store.Acknowledged?)
    ensures !connected ==> r.ok && OnlyKeyWritten(cache.csdn, r.cache.csdn, userId)
    ensures !connected ==>
      var rec := r.cache.csdn[userId];
      var prior := if userId in cache.csdn then Some(cache.csdn[userId]) else None;
      && rec.userId == userId
      && rec.lastUpdated == At(now)
      && rec.username == (if userData.username.Some? then userData.username.value
                          else if prior.Some? then prior.value.username else userId)
      && rec.followers == (if userData.followers.Some? then userData.followers.value
                           else if prior.Some? then prior.value.followers else 0)
      && rec.articleCount == Otherwise(userData.articleCount, if prior.Some? then prior.value.articleCount else 0)
      && rec.likes == Otherwise(userData.likes, if prior.Some? then prior.value.likes else 0)
      && rec.views == Otherwise(userData.views, if prior.Some? then prior.value.views else 0)
      && rec.comments == Otherwise(userData.comments, if prior.Some? then prior.value.comments else 0)
      && rec.points == Otherwise(userData.points, if prior.Some? then prior.value.points else 0)
      && rec.visitCount == Otherwise(userData.visitCount, if prior.Some? then prior.value.visitCount else 0)
    ensures r.cache.leetcode == cache.leetcode && r.cache.github == cache.github
  {
    if connected then
      WriteResult(cache, store.Acknowledged?)
    else
      var updatedData := WithUserId(userData, userId);
      var base := if userId in cache.csdn then cache.csdn[userId] else NewCSDNUser(userId, updatedData, now);
      WriteResult(cache.(csdn := cache.csdn[userId := Merge(base, updatedData, now)]), true)
  }

  /** Two partial updates in sequence: fields of the second win, the first's survive
      where the second is silent. */
  function Overlay(first: CSDNPatch, second: CSDNPatch): CSDNPatch {
    CSDNPatch(
      if second.userId.Some? then second.userId else first.userId,
      if second.username.Some? then second.username else first.username,
      if second.articleCount.Some? then second.articleCount else first.articleCount,
      if second.followers.Some? then second.followers else first.followers,
      if second.likes.Some? then second.likes else first.likes,
      if second.views.Some? then second.views else first.views,
      if second.comments.Some? then second.comments else first.comments,
      if second.points.Some? then second.points else first.points,
      if second.visitCount.Some? then second.visitCount else first.visitCount,
      if second.lastUpdated.Some? then second.lastUpdated else first.lastUpdated)
  }

  /** Two fallback updates of one key equal a single update with the overlaid patch,
      stamped with the second update's time. */
  lemma SequentialMergesCompose(
    cache: MemoryCache, userId: string, first: CSDNPatch, second: CSDNPatch,
    store: StoreWrite, t1: int, t2: int)
    ensures UpdateCSDNUserData(UpdateCSDNUserData(cache, false, userId, first, store, t1).cache,
                               false, userId, second, store, t2)
         == UpdateCSDNUserData(cache, false, userId, Overlay(first, second), store, t2)
  {
  }

  /** Repeating the same partial update at the same time changes nothing more. */
  lemma UpdateIdempotent(cache: MemoryCache, userId: string, userData: CSDNPatch, store: StoreWrite, now: int)
    ensures var once := UpdateCSDNUserData(cache, false, userId, userData, store, now);
      UpdateCSDNUserData(once.cache, false, userId, userData, store, now) == once
  {
  }

  /** The fallback is write-only for this kind: whatever was written, a read while
      disconnected reports no data and asks for a fetch. */
  lemma FallbackWritesAreNeverRead(
    cache: MemoryCache, userId: string, userData: CSDNPatch, store: StoreWrite,
    reply: StoreReply<CSDNUser>, ttl: int, now: int, later: int)
    ensures var written := UpdateCSDNUserData(cache, false, userId, userData, store, now).cache;
      && userId in written.csdn
      && GetCSDNUserData(written, false, reply, userId, ttl, later) == ReadResult(None, true, None)
  {
  }

  /** The read never consults the fallback's blog-site entries, in either branch. */
  lemma ReadIgnoresCache(
    c1: MemoryCache, c2: MemoryCache, readyAtProbe: bool, reply: StoreReply<CSDNUser>,
    userId: string, ttl: int, now: int)
    ensures GetCSDNUserData(c1, readyAtProbe, reply, userId, ttl, now)
         == GetCSDNUserData(c2, readyAtProbe, reply, userId, ttl, now)
  {
  }
}
