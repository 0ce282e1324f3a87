/** A monotonic clock that any amount of time may pass on between two readings. */
module Clocks {
  class Clock {
    var time: real

    constructor (start: real)
      ensures time == start
    {
      time := start;
    }

    method Now() returns (t: real)
      modifies this
      ensures t == time >= old(time)
    {
      var passed: real :| passed >= 0.0;
      time := time + passed;
      t := time;
    }

    /** Wakes no earlier than asked. */
    method Sleep(seconds: real)
      modifies this
      ensures time >= old(time) && time >= old(time) + seconds
    {
      var late: real :| late >= 0.0;
      time := time + late + if seconds > 0.0 then seconds else 0.0;
    }
  }
}
