/** Minute buckets. An instant is a count of nanoseconds since the Unix epoch. */
module Clock {

  const MINUTE: int := 60_000_000_000

  predicate Aligned(b: int) {
    b % MINUTE == 0
  }

  /** Rounds down to a whole minute; ClickHouse's toStartOfMinute and Go's Truncate(time.Minute). */
  function StartOfMinute(t: int): (b: int)
    ensures Aligned(b) && b <= t < b + MINUTE
  {
    t - t % MINUTE
  }

  /** The bucket strictly before the minute that contains `t`. */
  function ClosedBucketAt(t: int): (b: int)
    ensures Aligned(b)
    ensures b + MINUTE <= t < b + 2 * MINUTE
  {
    StartOfMinute(t) - MINUTE
  }

  lemma StartOfMinuteUnique(t: int, b: int)
    requires Aligned(b) && b <= t < b + MINUTE
    ensures StartOfMinute(t) == b
  {
  }

  /** Nothing stamped at or after the current instant can fall into a closed bucket. */
  lemma ClosedBucketIsClosed(now: int, ts: int)
    ensures StartOfMinute(ts) <= ClosedBucketAt(now) ==> ts < now
    ensures StartOfMinute(ts) > ClosedBucketAt(now) ==> ts >= StartOfMinute(now)
  {
  }

  lemma Monotone(t: int, u: int)
    requires t <= u
    ensures StartOfMinute(t) <= StartOfMinute(u)
    ensures ClosedBucketAt(t) <= ClosedBucketAt(u)
  {
  }
}
