/**
 * The system up-time clock, in microseconds since boot.
 *
 * The real clock is an external collaborator. It is modelled as an object
 * whose reading strictly increases on every read by an amount the model does
 * not fix: busy-wait loops that re-read it therefore always terminate.
 */
module Uptime {

  class Clock {
    /** The reading most recently returned (or the boot time before any read). */
    var now: int

    constructor (boot: int)
      ensures now == boot
    {
      now := boot;
    }

    /** Reads the clock: some later instant than any earlier reading. */
    method GetUpTime() returns (t: int)
      modifies this
      ensures t == now
      ensures now > old(now)
    {
      var step: int :| step > 0;
      now := now + step;
      t := now;
    }
  }
}
