/** The process's monotonic clock. */
module Clocks {

  /** Readings are arbitrary except that they never decrease. */
  class Clock {
    var now: real

    constructor ()
      ensures now == 0.0
    {
      now := 0.0;
    }

    method Read() returns (t: real)
      modifies this
      ensures t == now
      ensures old(now) <= now
    {
      var elapsed: real := *;
      if elapsed > 0.0 {
        now := now + elapsed;
      }
      t := now;
    }
  }
}
