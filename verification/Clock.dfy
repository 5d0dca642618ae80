/** A clock whose readings never go back. */
module Clocks {
  type Duration = d: real | 0.0 <= d

  /** `lapse` is the environment: how much time passes before each reading. */
  class Clock {
    var now: real
    var readings: nat
    const lapse: nat -> Duration

    constructor (start: real, lapse: nat -> Duration)
      ensures now == start && readings == 0 && this.lapse == lapse
    {
      now, readings, this.lapse := start, 0, lapse;
    }

    method Time() returns (t: real)
      modifies this
      ensures t == now == old(now) + lapse(old(readings))
      ensures old(now) <= now && readings == old(readings) + 1
    {
      now, readings := now + lapse(readings), readings + 1;
      t := now;
    }

    /** An exact sleep: the next reading starts from its end. */
    method Sleep(d: Duration)
      modifies this
      ensures now == old(now) + d
    {
      now := now + d;
    }
  }
}
