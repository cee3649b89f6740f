/** Time as the sources handle it: instants and durations in ticks, thresholds in whole seconds. */
module Clock {

  /** Ticks per second; instants have nanosecond resolution. */
  const SECOND := 1_000_000_000

  const MAX_I64 := 0x7FFF_FFFF_FFFF_FFFF

  function Seconds(n: int): int { n * SECOND }

  /** Whole seconds of a duration, truncated toward zero. */
  function NumSeconds(d: int): int {
    if d >= 0 then d / SECOND else -((-d) / SECOND)
  }

  /** What "more than `n` whole seconds" means of an exact duration: truncation is toward zero, so from
      n + 1 seconds on, and below zero from just above n. */
  lemma MoreThanSeconds(d: int, n: int)
    ensures NumSeconds(d) > n <==> if n >= 0 then d >= Seconds(n + 1) else d > Seconds(n)
  {
  }

  lemma NumSecondsMonotone(d: int, e: int)
    requires d <= e
    ensures NumSeconds(d) <= NumSeconds(e)
  {
  }
}
