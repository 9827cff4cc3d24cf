/** Wall-clock time as a real number of seconds that only `sleep` advances. */
module Time {

  /** The process clock read by `time.time()` and advanced by `time.sleep(d)`. */
  class Clock {
    var now: real

    constructor(start: real)
      ensures now == start
    {
      now := start;
    }

    /** `time.sleep(d)` for a non-negative duration. */
    method Sleep(d: real)
      requires d >= 0.0
      modifies this
      ensures now == old(now) + d
    {
      now := now + d;
    }
  }
}
