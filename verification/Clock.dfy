/** Time: ticks of a nanosecond, which the database sees cut to whole seconds. */
module Clock {

  const SECOND := 1_000_000_000

  function Sec(t: nat): nat {
    t / SECOND
  }
}
