/**
 The freshness policy of the data-access layer. Timestamps are integer
 milliseconds since the epoch; the clock reading `now` is a parameter.
 */
module Freshness {

  /** A JavaScript `Date` read back from a record: a valid instant, or an
      invalid date whose `getTime()` is NaN (every comparison with NaN is false). */
  datatype Date = At(ms: int) | Invalid

  const SecondMs: int := 1000
  const HourMs: int := 1000 * 60 * 60
  /** The fallback LeetCode window is fixed at 24 hours, whatever TTL the caller passes. */
  const FallbackWindowHours: int := 24
  const FallbackWindowMs: int := FallbackWindowHours * HourMs

  /** Persistent-store rule: fresh iff fewer than `ttlSeconds` seconds have elapsed.
      The source divides the elapsed milliseconds by 1000 and compares with the TTL;
      the integer form used here is the same decision. */
  function StoreFresh(last: Date, ttlSeconds: int, now: int): (isFresh: bool)
    ensures isFresh <==> last.At? && (now - last.ms) as real / 1000.0 < ttlSeconds as real
  {
    last.At? && now - last.ms < SecondMs * ttlSeconds
  }

  /** LeetCode fallback rule: fresh iff fewer than 24 hours have elapsed, counted as
      the source does it, elapsed milliseconds divided by 3 600 000. */
  function FallbackFresh(last: Date, now: int): (isFresh: bool)
    ensures isFresh <==> last.At? && (now - last.ms) as real / 3600000.0 < 24.0
    ensures isFresh <==> last.At? && now - last.ms < 86400000
  {
    last.At? && now - last.ms < FallbackWindowMs
  }

  /** The store rule is strict: exactly at the TTL boundary a record is stale. */
  lemma StoreBoundaryIsStale(last: int, ttlSeconds: int)
    ensures !StoreFresh(At(last), ttlSeconds, last + 1000 * ttlSeconds)
    ensures StoreFresh(At(last), ttlSeconds, last + 1000 * ttlSeconds - 1)
  {
  }

  /** Once stale under the store rule, a record stays stale as time goes on. */
  lemma StoreStalenessPersists(last: Date, ttlSeconds: int, now: int, later: int)
    requires now <= later
    requires !StoreFresh(last, ttlSeconds, now)
    ensures !StoreFresh(last, ttlSeconds, later)
  {
  }

  /** Once stale under the 24-hour rule, a record stays stale as time goes on. */
  lemma FallbackStalenessPersists(last: Date, now: int, later: int)
    requires now <= later
    requires !FallbackFresh(last, now)
    ensures !FallbackFresh(last, later)
  {
  }

  /** The two rules disagree: with a one-hour TTL, a record updated two hours ago is
      stale in the store yet fresh in the fallback; with a two-day TTL, a record
      updated 25 hours ago is fresh in the store yet stale in the fallback. */
  lemma StoreAndFallbackRulesDiverge(last: int)
    ensures !StoreFresh(At(last), 3600, last + 2 * HourMs) && FallbackFresh(At(last), last + 2 * HourMs)
    ensures StoreFresh(At(last), 172800, last + 25 * HourMs) && !FallbackFresh(At(last), last + 25 * HourMs)
  {
  }

  /** The fallback rule equals the store rule with a TTL of 86 400 seconds. */
  lemma FallbackIsStoreRuleForOneDay(last: Date, now: int)
    ensures FallbackFresh(last, now) <==> StoreFresh(last, 86400, now)
  {
  }

  /** An invalid date is never fresh under either rule. */
  lemma InvalidDateNeverFresh(ttlSeconds: int, now: int)
    ensures !StoreFresh(Invalid, ttlSeconds, now) && !FallbackFresh(Invalid, now)
  {
  }
}
