/**
 Behaviour across calls: which backend a read uses around a reconnect, and
 worked examples of the three accessors in fallback mode.
 */
module Scenarios {
  import opened Wrappers
  import opened Freshness
  import opened Records
  import Connection
  import LeetCodeAccessor
  import GitHubAccessor
  import CSDNAccessor

  /** A read that finds the store not ready serves the fallback path even when its
      reconnect succeeds; only the next read, which probes a ready store, goes to it. */
  lemma ProbeDecidesBackend(
    cache: MemoryCache, reply: StoreReply<LeetCodeUser>, username: string, ttl: int, now: int,
    mongoURI: Option<string>, handshakeSucceeds: bool)
    requires Connection.ConnectDB(mongoURI, handshakeSucceeds)
    ensures var ready := Connection.ReadyAfterRead(false, mongoURI, handshakeSucceeds);
      var first := LeetCodeAccessor.GetLeetCodeUserData(cache, false, reply, username, ttl, now);
      var second := LeetCodeAccessor.GetLeetCodeUserData(cache, ready, reply, username, ttl, now);
      && ready
      && first.userData == Lookup(cache.leetcode, username)
      && (reply.Found? ==> second.userData == Some(reply.record))
      && (reply.NotFound? ==> second.userData.None?)
  {
  }

  /** The same for the other two kinds: the first read after a failed probe uses the
      fallback (for blog-site users: nothing at all), even though the store is now ready. */
  lemma ProbeDecidesBackendForOtherKinds(
    cache: MemoryCache, ghReply: StoreReply<GitHubUser>, csdnReply: StoreReply<CSDNUser>,
    key: string, ttl: int, now: int, mongoURI: Option<string>, handshakeSucceeds: bool)
    requires Connection.ConnectDB(mongoURI, handshakeSucceeds)
    ensures Connection.ReadyAfterRead(false, mongoURI, handshakeSucceeds)
    ensures GitHubAccessor.GetGitHubUserData(cache, false, ghReply, key, now).userData.Some? <==> key in cache.github
    ensures CSDNAccessor.GetCSDNUserData(cache, false, csdnReply, key, ttl, now) == ReadResult(None, true, None)
  {
  }

  /** Practice user "alice", one-hour TTL, disconnected: no record means a fetch;
      after writing a profile stamped now, an immediate read serves it without one. */
  lemma AliceScenario(profile: map<string, string>, now: int)
    ensures LeetCodeAccessor.GetLeetCodeUserData(EmptyCache, false, NotFound, "alice", 3600, now)
         == ReadResult(None, true, None)
    ensures var payload := LeetCodeUser("alice", profile, At(now));
      var written := LeetCodeAccessor.UpdateUserData(EmptyCache, false, "alice", payload, Acknowledged);
      && written.ok
      && LeetCodeAccessor.GetLeetCodeUserData(written.cache, false, NotFound, "alice", 3600, now)
         == ReadResult(Some(payload), false, None)
  {
  }

  /** Hosting user "bob", disconnected: a visit without an avatar creates the record
      with one visit and no avatar URL; a second visit with avatar "x" gives two visits
      and that avatar. */
  lemma BobScenario(t1: int, t2: int)
    ensures var c1 := GitHubAccessor.UpdateGitHubUserData(EmptyCache, false, "bob", None, Acknowledged, t1).cache;
      var c2 := GitHubAccessor.UpdateGitHubUserData(c1, false, "bob", Some("x"), Acknowledged, t2).cache;
      && "bob" in c1.github && c1.github["bob"].visitCount == 1 && c1.github["bob"].avatarUrl.None?
      && "bob" in c2.github && c2.github["bob"].visitCount == 2 && c2.github["bob"].avatarUrl == Some("x")
      && c2.github["bob"].avatarUpdatedAt == Some(t2)
  {
  }

  /** An empty avatar URL is falsy: it keeps the previous avatar and its timestamp. */
  lemma EmptyAvatarKeepsPrevious(t1: int, t2: int)
    ensures var c1 := GitHubAccessor.UpdateGitHubUserData(EmptyCache, false, "bob", Some("x"), Acknowledged, t1).cache;
      var c2 := GitHubAccessor.UpdateGitHubUserData(c1, false, "bob", Some(""), Acknowledged, t2).cache;
      c2.github["bob"].avatarUrl == Some("x") && c2.github["bob"].avatarUpdatedAt == Some(t1)
      && c2.github["bob"].lastVisited == t2
  {
  }

  const NoFields: CSDNPatch := CSDNPatch(None, None, None, None, None, None, None, None, None, None)

  /** Blog-site partial merge, disconnected: `{followers: 5}` then `{likes: 10}` leaves
      both, with the second write's time and every other counter zero. */
  lemma PartialMergeScenario(userId: string, t1: int, t2: int)
    ensures var c1 := CSDNAccessor.UpdateCSDNUserData(EmptyCache, false, userId, NoFields.(followers := Some(5)), Acknowledged, t1).cache;
      var c2 := CSDNAccessor.UpdateCSDNUserData(c1, false, userId, NoFields.(likes := Some(10)), Acknowledged, t2).cache;
      var rec := c2.csdn[userId];
      && rec.followers == 5 && rec.likes == 10 && rec.lastUpdated == At(t2)
      && rec.userId == userId && rec.username == userId
      && rec.articleCount == 0 && rec.views == 0 && rec.comments == 0 && rec.points == 0 && rec.visitCount == 0
  {
  }

  /** A supplied but empty username is still a supplied field: the merge overwrites
      the key-derived default with it. */
  lemma EmptyUsernameOverwritesDefault(userId: string, now: int)
    ensures var c := CSDNAccessor.UpdateCSDNUserData(EmptyCache, false, userId, NoFields.(username := Some("")), Acknowledged, now).cache;
      c.csdn[userId].username == ""
  {
  }
}
