/** The endpoint rate limiter: a token bucket refilled on every reading. */
module TokenBucket {
  import opened Rounding
  import opened Clocks

  datatype Reading = Reading(at: real, allowed: bool)

  function Rate(capacity: int): real {
    capacity as real / 60.0
  }

  /** Tokens that flow in between two instants. */
  function Flow(capacity: int, from: real, to: real): real {
    (to - from) * Rate(capacity)
  }

  function Refilled(capacity: int, tokens: real, from: real, to: real): real {
    Min(capacity as real, tokens + Flow(capacity, from, to))
  }

  function Last(created: real, log: seq<Reading>): real {
    if log == [] then created else log[|log| - 1].at
  }

  /** Tokens left after the readings of a log; the bucket starts full. */
  function Level(capacity: int, created: real, log: seq<Reading>): real
    decreases |log|, 0
  {
    if log == [] then capacity as real else
    var front, last := log[..|log| - 1], log[|log| - 1];
    Available(capacity, created, front, last.at) - if last.allowed then 1.0 else 0.0
  }

  /** Tokens a request at `now` finds, after the refill. */
  function Available(capacity: int, created: real, log: seq<Reading>, now: real): real
    decreases |log|, 1
  {
    Refilled(capacity, Level(capacity, created, log), Last(created, log), now)
  }

  /** The clock never goes back, and a reading is allowed exactly when a whole token is there. */
  ghost predicate Faithful(capacity: int, created: real, log: seq<Reading>) {
    log == [] ||
    var front, last := log[..|log| - 1], log[|log| - 1];
    && Faithful(capacity, created, front) && last.at >= Last(created, front)
    && (last.allowed <==> Available(capacity, created, front, last.at) >= 1.0)
  }

  function Grants(log: seq<Reading>): nat {
    if log == [] then 0 else Grants(log[..|log| - 1]) + if log[|log| - 1].allowed then 1 else 0
  }

  class TokenBucket {
    const capacity: int
    var tokens: real
    var lastRefill: real
    ghost const created: real
    ghost var log: seq<Reading>

    ghost predicate Valid()
      reads this
    {
      && Faithful(capacity, created, log)
      && tokens == Level(capacity, created, log) && lastRefill == Last(created, log)
    }

    constructor (ratePerMinute: int, now: real)
      ensures Valid() && log == [] && capacity == ratePerMinute && created == now
    {
      capacity, tokens, lastRefill := ratePerMinute, ratePerMinute as real, now;
      created, log := now, [];
    }

    method Consume(clock: Clock) returns (allowed: bool)
      requires Valid() && lastRefill <= clock.time
      modifies this, clock
      ensures Valid() && lastRefill == clock.time
      ensures log == old(log) + [Reading(clock.time, allowed)]
    {
      hide Flow;
      var now := clock.Now();
      tokens := Refilled(capacity, tokens, lastRefill, now);
      lastRefill := now;
      allowed := tokens >= 1.0;
      if allowed {
        tokens := tokens - 1.0;
      }
      log := log + [Reading(now, allowed)];
      assert log[..|log| - 1] == old(log);
    }
  }

  /** What the window from reading i on still leaves open at `now`. */
  function Room(capacity: int, log: seq<Reading>, i: nat, now: real): real
    requires i < |log|
  {
    capacity as real + Flow(capacity, log[i].at, now) - Grants(log[i..]) as real
  }

  lemma GrantsOfTail(log: seq<Reading>, i: nat)
    requires i < |log|
    ensures Grants(log[i..]) == Grants(log[..|log| - 1][i..]) + if log[|log| - 1].allowed then 1 else 0
  {
    var tail := log[i..];
    assert tail[..|tail| - 1] == log[..|log| - 1][i..];
  }

  /** A window's room at the next reading: what it was at the last one, less what that took, plus what has flowed in. */
  lemma RoomLater(capacity: int, log: seq<Reading>, i: nat, now: real)
    requires i < |log|
    ensures var front, last := log[..|log| - 1], log[|log| - 1];
            Room(capacity, log, i, now)
            == (if i < |front| then Room(capacity, front, i, last.at) else capacity as real)
               - (if last.allowed then 1.0 else 0.0) + Flow(capacity, last.at, now)
  {
    hide Grants, Flow;
    var front, last := log[..|log| - 1], log[|log| - 1];
    GrantsOfTail(log, i);
    if i < |front| {
      FlowAdds(capacity, log[i].at, last.at, now);
    } else {
      assert front[i..] == [];
      NoGrants();
    }
  }

  lemma NoGrants()
    ensures Grants([]) == 0
  {
  }

  lemma FlowAdds(capacity: int, a: real, b: real, c: real)
    ensures Flow(capacity, a, b) + Flow(capacity, b, c) == Flow(capacity, a, c)
  {
  }

  lemma FlowIsForward(capacity: int, from: real, to: real)
    requires capacity >= 0 && from <= to
    ensures Flow(capacity, from, to) >= 0.0 && Flow(capacity, to, to) == 0.0
  {
    ProductNonnegative(to - from, Rate(capacity));
  }

  /** The refilled level never exceeds the room of any window, nor the capacity. */
  lemma {:induction false} LevelWithinRoom(capacity: int, created: real, log: seq<Reading>, i: nat, now: real)
    requires i < |log|
    ensures Available(capacity, created, log, now) <= Room(capacity, log, i, now)
  {
    hide Room, Flow;
    var front, last := log[..|log| - 1], log[|log| - 1];
    RoomLater(capacity, log, i, now);
    AtMostCapacity(capacity, created, front, last.at);
    if i < |front| {
      LevelWithinRoom(capacity, created, front, i, last.at);
    }
  }

  lemma AtMostCapacity(capacity: int, created: real, log: seq<Reading>, now: real)
    ensures Available(capacity, created, log, now) <= capacity as real
  {
    hide Level, Flow;
  }

  /** The refilled level is the capacity or the room of some window. */
  lemma {:induction false} LevelIsSomeRoom(capacity: int, created: real, log: seq<Reading>, now: real) returns (i: nat)
    requires capacity >= 0 && Faithful(capacity, created, log) && now >= Last(created, log)
    ensures i <= |log|
    ensures i == |log| ==> Available(capacity, created, log, now) == capacity as real
    ensures i < |log| ==> Available(capacity, created, log, now) == Room(capacity, log, i, now)
  {
    hide Room, Flow;
    i := |log|;
    if log == [] {
      FlowIsForward(capacity, created, now);
    } else if Available(capacity, created, log, now) != capacity as real {
      var front, last := log[..|log| - 1], log[|log| - 1];
      i := LevelIsSomeRoom(capacity, created, front, last.at);
      RoomLater(capacity, log, i, now);
    }
  }

  /** A request is admitted if and only if no window, ended by it, would hold more than the capacity plus what the rate
      yields over the window. */
  lemma AllowedIffEveryWindowHasRoom(capacity: int, created: real, log: seq<Reading>, now: real)
    requires Faithful(capacity, created, log) && now >= Last(created, log)
    ensures Available(capacity, created, log, now) >= 1.0
            <==> capacity >= 1 && forall i | 0 <= i < |log| :: Room(capacity, log, i, now) >= 1.0
  {
    hide Flow;
    var level := Available(capacity, created, log, now);
    forall i | 0 <= i < |log|
      ensures level <= Room(capacity, log, i, now)
    {
      LevelWithinRoom(capacity, created, log, i, now);
    }
    if capacity >= 1 {
      var i := LevelIsSomeRoom(capacity, created, log, now);
    }
  }

  /** Between any two readings at most the capacity plus rate times elapsed time is admitted. */
  lemma AdmissionsAreBounded(capacity: int, created: real, log: seq<Reading>, i: nat)
    requires Faithful(capacity, created, log) && i < |log| && capacity >= 0
    ensures Grants(log[i..]) as real <= capacity as real + capacity as real / 60.0 * (log[|log| - 1].at - log[i].at)
  {
    RoomStaysOpen(capacity, created, log, i);
  }

  lemma {:induction false} RoomStaysOpen(capacity: int, created: real, log: seq<Reading>, i: nat)
    requires Faithful(capacity, created, log) && i < |log| && capacity >= 0
    ensures Room(capacity, log, i, log[|log| - 1].at) >= 0.0
  {
    hide Room, Flow, Available, Grants;
    var front, last := log[..|log| - 1], log[|log| - 1];
    RoomLater(capacity, log, i, last.at);
    FlowIsForward(capacity, last.at, last.at);
    if last.allowed {
      AllowedHadRoom(capacity, created, log, i);
    } else if i < |front| {
      RoomStaysOpen(capacity, created, front, i);
      RoomGrows(capacity, front, i, front[|front| - 1].at, last.at);
    }
  }

  lemma AllowedHadRoom(capacity: int, created: real, log: seq<Reading>, i: nat)
    requires Faithful(capacity, created, log) && i < |log| && log[|log| - 1].allowed
    ensures capacity >= 1
    ensures i < |log| - 1 ==> Room(capacity, log[..|log| - 1], i, log[|log| - 1].at) >= 1.0
  {
    hide Room, Flow, Available, Grants;
    var front, last := log[..|log| - 1], log[|log| - 1];
    assert Available(capacity, created, front, last.at) >= 1.0;
    AllowedIffEveryWindowHasRoom(capacity, created, front, last.at);
  }

  lemma RoomGrows(capacity: int, log: seq<Reading>, i: nat, now: real, later: real)
    requires i < |log| && capacity >= 0 && now <= later
    ensures Room(capacity, log, i, now) <= Room(capacity, log, i, later)
  {
    hide Grants, Flow;
    FlowIsForward(capacity, now, later);
    FlowAdds(capacity, log[i].at, now, later);
  }
}
