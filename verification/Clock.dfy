/** The unit of the clock readings of every component: nanoseconds. */
module Clock {
  const SECOND := 1_000_000_000
}
