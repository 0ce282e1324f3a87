/** The per-model circuit breaker. */
module CircuitBreaker {
  import opened Clocks

  datatype State = Closed | Open | HalfOpen

  /** The fields every decision depends on. */
  datatype View = View(threshold: int, reset: real, failures: nat, lastFailure: real, state: State)

  datatype Event = Checked(at: real) | Succeeded | Failed(at: real)

  function Fresh(threshold: int, reset: real): View {
    View(threshold, reset, 0, 0.0, Closed)
  }

  /** An open breaker turns half open once `reset` has passed since the last failure. */
  function Probed(v: View, now: real): View {
    if v.state.Open? && v.lastFailure > 0.0 && now - v.lastFailure >= v.reset then v.(state := HalfOpen) else v
  }

  function Allows(v: View): bool {
    !v.state.Open?
  }

  function Step(v: View, e: Event): View {
    match e
    case Checked(at) => Probed(v, at)
    case Succeeded => v.(failures := 0, state := if v.state.HalfOpen? then Closed else v.state)
    case Failed(at) =>
      v.(failures := v.failures + 1, lastFailure := at,
         state := if v.state.HalfOpen? || v.failures + 1 >= v.threshold then Open else v.state)
  }

  function After(v: View, log: seq<Event>): View {
    if log == [] then v else Step(After(v, log[..|log| - 1]), log[|log| - 1])
  }

  /** Failures since the last success. */
  function Trailing(log: seq<Event>): nat {
    if log == [] then 0 else
    var front := Trailing(log[..|log| - 1]);
    match log[|log| - 1]
    case Checked(_) => front
    case Succeeded => 0
    case Failed(_) => front + 1
  }

  // ---- Whole runs ----

  /** The counter is the number of consecutive failures, and reaching the threshold leaves the closed state. */
  lemma {:induction false} CountsConsecutiveFailures(threshold: int, reset: real, log: seq<Event>)
    ensures var v := After(Fresh(threshold, reset), log);
            && v.threshold == threshold && v.reset == reset && v.failures == Trailing(log)
            && (threshold >= 1 && v.state.Closed? ==> v.failures < threshold)
  {
    if log != [] {
      CountsConsecutiveFailures(threshold, reset, log[..|log| - 1]);
    }
  }

  /** Closed implies fewer failures than the threshold over every run, exactly for positive thresholds. */
  lemma ClosedBelowThreshold(threshold: int, reset: real)
    ensures threshold >= 1 <==>
            forall log :: var v := After(Fresh(threshold, reset), log); v.state.Closed? ==> v.failures < threshold
  {
    if threshold >= 1 {
      forall log
        ensures var v := After(Fresh(threshold, reset), log); v.state.Closed? ==> v.failures < threshold
      {
        CountsConsecutiveFailures(threshold, reset, log);
      }
    } else {
      assert After(Fresh(threshold, reset), []) == Fresh(threshold, reset);
    }
  }

  /** Every instant of a log lies in [from, to). */
  ghost predicate Within(log: seq<Event>, from: real, to: real) {
    forall i | 0 <= i < |log| :: match log[i]
                                 case Checked(at) => from <= at < to
                                 case Succeeded => true
                                 case Failed(at) => from <= at < to
  }

  /** From the failure that leaves it open until `reset` later, an open breaker refuses every check, whatever outcomes
      stragglers report meanwhile. */
  lemma {:induction false} OpenRefuses(v: View, log: seq<Event>)
    requires v.state.Open? && Within(log, v.lastFailure, v.lastFailure + v.reset)
    ensures After(v, log).state.Open? && After(v, log).lastFailure >= v.lastFailure && After(v, log).reset == v.reset
  {
    if log != [] {
      var front, last := log[..|log| - 1], log[|log| - 1];
      assert forall i | 0 <= i < |front| :: front[i] == log[i];
      OpenRefuses(v, front);
      assert log[|log| - 1] == last;
    }
  }

  /** Until an outcome arrives, a half-open breaker admits every request, not one: its documented single probe is not
      enforced. */
  lemma {:induction false} HalfOpenAdmitsAll(v: View, log: seq<Event>)
    requires v.state.HalfOpen? && forall i | 0 <= i < |log| :: log[i].Checked?
    ensures After(v, log) == v && Allows(v)
  {
    if log != [] {
      HalfOpenAdmitsAll(v, log[..|log| - 1]);
    }
  }

  lemma {:induction false} AfterInTwo(v: View, log: seq<Event>, more: seq<Event>)
    ensures After(v, log + more) == After(After(v, log), more)
    decreases |more|
  {
    if more == [] {
      assert log + more == log;
    } else {
      var all, front := log + more, more[..|more| - 1];
      assert all[..|all| - 1] == log + front;
      AfterInTwo(v, log, front);
    }
  }

  /** How an open breaker recovers, from any history: a check lets it half open exactly once `reset` has passed since its
      last failure (which must have a positive time); from then on every check is admitted, until the first outcome
      closes it with no failures counted or opens it again from that moment. */
  lemma RecoveryIsDecided(v: View, now: real, checks: seq<Event>, outcome: Event)
    requires v.state.Open? && (forall i | 0 <= i < |checks| :: checks[i].Checked?) && !outcome.Checked?
    ensures var probed := After(v, [Checked(now)]);
            && (Allows(probed) <==> v.lastFailure > 0.0 && now - v.lastFailure >= v.reset)
            && (Allows(probed) ==>
                  var decided := After(v, [Checked(now)] + checks + [outcome]);
                  if outcome.Succeeded? then decided.state.Closed? && decided.failures == 0
                  else decided.state.Open? && decided.lastFailure == outcome.at)
  {
    var first, probed := [Checked(now)], After(v, [Checked(now)]);
    AfterOneMore(v, [], Checked(now));
    assert [] + first == first;
    if Allows(probed) {
      HalfOpenAdmitsAll(probed, checks);
      AfterInTwo(v, first, checks);
      AfterOneMore(v, first + checks, outcome);
    }
  }

  lemma AfterOneMore(v: View, log: seq<Event>, e: Event)
    ensures After(v, log + [e]) == Step(After(v, log), e)
  {
    assert (log + [e])[..|log|] == log;
  }

  // ---- The breaker ----

  /** Who reported an event; calls of one retry loop share an owner. */
  type Owner = nat

  datatype Entry = Entry(who: Owner, event: Event)

  ghost function Events(log: seq<Entry>): seq<Event> {
    if log == [] then [] else Events(log[..|log| - 1]) + [log[|log| - 1].event]
  }

  /** The outcomes one owner reported; true is a success. */
  ghost function OutcomesBy(log: seq<Entry>, owner: Owner): seq<bool> {
    if log == [] then [] else
    var front, last := OutcomesBy(log[..|log| - 1], owner), log[|log| - 1];
    if last.who == owner && !last.event.Checked? then front + [last.event.Succeeded?] else front
  }

  class ModelCircuitBreaker {
    const threshold: int
    const resetSeconds: real
    var failures: nat
    var lastFailure: real
    var state: State
    var totalFailures: nat
    var totalSuccesses: nat
    ghost var log: seq<Entry>

    ghost function Now(): View
      reads this
    {
      View(threshold, resetSeconds, failures, lastFailure, state)
    }

    /** The fields are what the reported events amount to. */
    ghost predicate Valid()
      reads this
    {
      Now() == After(Fresh(threshold, resetSeconds), Events(log))
    }

    constructor (threshold: int, resetSeconds: real)
      ensures Valid() && log == [] && this.threshold == threshold && this.resetSeconds == resetSeconds
    {
      this.threshold, this.resetSeconds := threshold, resetSeconds;
      failures, lastFailure, state := 0, 0.0, Closed;
      totalFailures, totalSuccesses, log := 0, 0, [];
    }

    method Check(clock: Clock, ghost who: Owner) returns (allowed: bool)
      requires Valid()
      modifies this, clock
      ensures Valid() && old(clock.time) <= clock.time
      ensures log == old(log) + [Entry(who, Checked(clock.time))]
      ensures allowed == Allows(Now())
    {
      hide After, Events;
      var now := clock.Now();
      Append(who, Checked(now));
      if state.Open? && lastFailure > 0.0 {
        var elapsed := now - lastFailure;
        if elapsed >= resetSeconds {
          state := HalfOpen;
        }
      }
      log := log + [Entry(who, Checked(now))];
      allowed := !state.Open?;
    }

    method RecordSuccess(ghost who: Owner)
      requires Valid()
      modifies this
      ensures Valid() && log == old(log) + [Entry(who, Succeeded)]
      ensures totalSuccesses == old(totalSuccesses) + 1 && totalFailures == old(totalFailures)
    {
      hide After, Events;
      Append(who, Succeeded);
      failures := 0;
      totalSuccesses := totalSuccesses + 1;
      if state.HalfOpen? {
        state := Closed;
      }
      log := log + [Entry(who, Succeeded)];
    }

    method RecordFailure(clock: Clock, ghost who: Owner)
      requires Valid()
      modifies this, clock
      ensures Valid() && old(clock.time) <= clock.time
      ensures log == old(log) + [Entry(who, Failed(clock.time))]
      ensures totalFailures == old(totalFailures) + 1 && totalSuccesses == old(totalSuccesses)
    {
      hide After, Events;
      var now := clock.Now();
      Append(who, Failed(now));
      failures := failures + 1;
      totalFailures := totalFailures + 1;
      lastFailure := now;
      if state.HalfOpen? {
        state := Open;
      } else if failures >= threshold {
        state := Open;
      }
      log := log + [Entry(who, Failed(now))];
    }

    /** Manual reset: history starts over. */
    method Reset()
      modifies this
      ensures Valid() && log == []
    {
      failures, state, lastFailure := 0, Closed, 0.0;
      log := [];
    }

    lemma Append(who: Owner, e: Event)
      requires Valid()
      ensures After(Fresh(threshold, resetSeconds), Events(log + [Entry(who, e)])) == Step(Now(), e)
    {
      assert (log + [Entry(who, e)])[..|log|] == log;
      AfterOneMore(Fresh(threshold, resetSeconds), Events(log), e);
    }
  }
}
