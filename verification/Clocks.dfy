/** A clock that never runs backwards; how much time passes between readings is left open. */
module Clocks {
  import opened Common

  class Clock {
    var now: Time

    /** Some time passes before every reading. */
    method Now() returns (t: Time)
      modifies this
      ensures t == now >= old(now)
    {
      var later: Time := *;
      now := Max(now, later);
      t := now;
    }

    method SleepUntil(t: Time)
      modifies this
      ensures now >= old(now) && now >= t
    {
      now := Max(now, t);
    }
  }
}
