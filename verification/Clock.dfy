/** Timestamps and the comparisons the code makes on them. */
module Clock {

  /** A timestamp string as `Date.parse` reads it; every comparison with an unreadable one is false. */
  datatype Instant = At(ms: int) | Unreadable

  predicate After(a: Instant, b: Instant) { a.At? && b.At? && a.ms > b.ms }

  const DAY_MS := 86_400_000
  const MINUTE_MS := 60_000
}
