/**
 * The wall clock driven by the real-time counter: each tick adds the
 * counter ticks elapsed since the previous tick, at 125 ms per counter
 * tick, to the date and time. The date and time is kept as milliseconds
 * since the Unix epoch.
 */
module Clock {
  import opened Bits
  import opened Wrappers

  /** Milliseconds per counter tick. */
  const MsPerTick := 125

  datatype ClockState = ClockState(datetimeMs: int, prevCounter: u32)

  /** `tick` needs a counter that has not gone backwards and a product that fits in 32 bits. */
  predicate CanTick(s: ClockState, counter: u32)
  {
    s.prevCounter <= counter && (counter - s.prevCounter) * MsPerTick <= 0xFFFF_FFFF
  }

  /** The state after `tick` reads `counter`. */
  function Ticked(s: ClockState, counter: u32): (t: ClockState)
    requires CanTick(s, counter)
    ensures t.prevCounter == counter
    ensures t.datetimeMs - s.datetimeMs == MsPerTick * (counter - s.prevCounter)
  {
    ClockState(s.datetimeMs + (counter - s.prevCounter) * MsPerTick, counter)
  }

  /** Ticking twice is ticking once to the later counter, and a tick with an unchanged counter changes nothing. */
  lemma TickTwice(s: ClockState, c1: u32, c2: u32)
    requires CanTick(s, c1) && CanTick(Ticked(s, c1), c2) && CanTick(s, c2)
    ensures Ticked(Ticked(s, c1), c2) == Ticked(s, c2)
    ensures Ticked(Ticked(s, c1), c1) == Ticked(s, c1)
  {
  }

  /** The state after ticking through `counters` in order; `None` where one of the ticks panics. */
  function TickAll(s: ClockState, counters: seq<u32>): (r: Option<ClockState>)
    ensures r.Some? && counters != [] ==> r.value.prevCounter == counters[|counters| - 1]
    decreases |counters|
  {
    if counters == [] then Some(s)
    else
      match TickAll(s, counters[..|counters| - 1])
      case None => None
      case Some(t) =>
        var c := counters[|counters| - 1];
        if CanTick(t, c) then Some(Ticked(t, c)) else None
  }

  /** The state `new` starts from: the epoch, with the counter at zero. */
  const Epoch := ClockState(0, 0)

  /**
   * Any run of ticks that does not panic advances the time by 125 ms per
   * counter tick between the first and the last reading: nothing is lost or
   * counted twice. From a fresh clock the time is 125 ms per tick of the
   * last reading.
   */
  lemma {:induction false} TickAllElapsed(s: ClockState, counters: seq<u32>)
    requires TickAll(s, counters).Some?
    ensures var t := TickAll(s, counters).value;
      s.prevCounter <= t.prevCounter && t.datetimeMs == s.datetimeMs + MsPerTick * (t.prevCounter - s.prevCounter)
    decreases |counters|
  {
    if counters != [] {
      TickAllElapsed(s, counters[..|counters| - 1]);
    }
  }

  lemma TimeFromEpoch(counters: seq<u32>)
    requires TickAll(Epoch, counters).Some?
    ensures TickAll(Epoch, counters).value.datetimeMs == MsPerTick * TickAll(Epoch, counters).value.prevCounter
  {
    TickAllElapsed(Epoch, counters);
  }

  class Clock {
    var datetimeMs: int
    var prevCounter: u32

    function State(): ClockState
      reads this
    {
      ClockState(datetimeMs, prevCounter)
    }

    /** `new`: the Unix epoch, with the previous counter reading at zero. */
    constructor()
      ensures State() == Epoch
    {
      datetimeMs := 0;
      prevCounter := 0;
    }

    /** `tick`, given the counter value the real-time counter reports. */
    method Tick(counter: u32)
      requires CanTick(State(), counter)
      modifies this
      ensures State() == Ticked(old(State()), counter)
    {
      var delta := (counter - prevCounter) * MsPerTick;
      datetimeMs := datetimeMs + delta;
      prevCounter := counter;
    }
  }
}
