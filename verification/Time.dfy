/** Instants on one clock, and the time between them. */
module Time {

  type Instant = int

  type Duration = nat

  /** `Instant::duration_since`, which is zero when `earlier` is in the future. */
  function Since(now: Instant, earlier: Instant): Duration {
    if now < earlier then 0 else now - earlier
  }
}
