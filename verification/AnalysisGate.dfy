/** Admission control of the analysis pipeline: permits, a rolling run budget, leases and the bounded state store. */
module AnalysisGate {
  import opened Rounding
  import opened Windows
  import opened Clocks

  datatype Refusal = Busy | BudgetExceeded(retryAfter: int)

  function Ceiling(x: real): (n: int)
    ensures n as real - 1.0 < x <= n as real
  {
    -(-x).Floor
  }

  /** Whole seconds advertised to a refused caller whose oldest counted start is `oldest`. */
  function RetryAfter(oldest: real, window: real, now: real): int {
    var n := Ceiling(oldest + window - now);
    if n > 1 then n else 1
  }

  type Task = nat

  class AnalysisGate {
    const maxConcurrent: nat
    const maxRuns: nat
    const window: real
    /** The semaphore: free permits, callers waiting for one, and callers handed one that have not resumed yet. */
    var free: nat
    var waiting: set<Task>
    var handed: set<Task>
    var inUse: nat
    var runTimes: seq<real>
    /** Every start ever recorded. */
    ghost var starts: seq<real>
    /** What has been pruned from `runTimes` lies at or before this. */
    ghost var cutoff: real
    ghost var leases: set<AnalysisLease>

    /** Every permit is free, on its way to a caller, or in use. */
    ghost predicate Conserved()
      reads this
    {
      maxConcurrent >= 1 && free + |handed| + inUse == maxConcurrent && waiting !! handed
    }

    ghost predicate Budgeted()
      reads this
    {
      && maxRuns >= 1 && window > 0.0
      && runTimes == Recent(starts, cutoff)
      && Sorted(starts) && Spaced(starts, maxRuns, window)
    }

    /** Slots in use are exactly the unreleased leases. */
    ghost predicate Leased()
      reads this, leases
    {
      inUse == |leases| && forall l | l in leases :: l.gate == this && !l.released
    }

    ghost predicate Valid()
      reads this, leases
    {
      Conserved() && Budgeted() && Leased()
    }

    /** The clock has not gone back. */
    ghost predicate NotAfter(now: real)
      reads this
    {
      starts != [] ==> starts[|starts| - 1] <= now && cutoff <= now - window
    }

    /** Nothing the semaphore or the lease count depends on has changed. */
    twostate predicate PermitsUntouched()
      reads this
    {
      free == old(free) && waiting == old(waiting) && handed == old(handed) && inUse == old(inUse)
      && leases == old(leases)
    }

    /** None is a ValueError. */
    static method Create(maxConcurrent: int, maxRuns: int, timeout: real, queueTimeout: real, window: real)
        returns (gate: AnalysisGate?)
      ensures gate != null <==> maxConcurrent >= 1 && timeout > 0.0 && maxRuns >= 1 && queueTimeout > 0.0 && window > 0.0
      ensures gate != null ==> fresh(gate) && gate.Valid() && gate.starts == [] && gate.free == maxConcurrent
                               && gate.maxConcurrent == maxConcurrent && gate.maxRuns == maxRuns && gate.window == window
    {
      if maxConcurrent < 1 || timeout <= 0.0 || maxRuns < 1 || queueTimeout <= 0.0 || window <= 0.0 {
        return null;
      }
      gate := new AnalysisGate(maxConcurrent, maxRuns, window);
    }

    constructor (maxConcurrent: nat, maxRuns: nat, window: real)
      requires maxConcurrent >= 1 && maxRuns >= 1 && window > 0.0
      ensures Valid() && starts == [] && free == maxConcurrent && leases == {}
      ensures this.maxConcurrent == maxConcurrent && this.maxRuns == maxRuns && this.window == window
    {
      this.maxConcurrent, this.maxRuns, this.window := maxConcurrent, maxRuns, window;
      free, waiting, handed, inUse, runTimes := maxConcurrent, {}, {}, 0, [];
      starts, leases := [], {};
    }

    method PruneBudget(now: real)
      requires Budgeted() && NotAfter(now)
      modifies this`runTimes, this`cutoff
      ensures Budgeted() && NotAfter(now)
      ensures runTimes == Recent(starts, now - window) && cutoff == now - window
    {
      hide Recent, Spaced, Sorted;
      ghost var before := runTimes;
      PruningIsFiltering(now);
      var limit := now - window;
      while runTimes != [] && runTimes[0] <= limit
        invariant Pruned(runTimes, limit) == Pruned(before, limit)
        decreases |runTimes|
      {
        runTimes := runTimes[1..];
      }
      cutoff := limit;
    }

    lemma PruningIsFiltering(now: real)
      requires Budgeted() && NotAfter(now)
      ensures Pruned(runTimes, now - window) == Recent(starts, now - window)
    {
      hide Recent, Pruned, Spaced, Sorted;
      RecentIsTail(starts, cutoff);
      PrunedIsRecent(runTimes, now - window);
      if starts != [] {
        RecentTwice(starts, cutoff, now - window);
      }
    }

    /** Refuses exactly when maxRuns starts lie within the window; the hint is the least whole number of seconds (at
        least one) after which the oldest of them is out of it. */
    method CheckBudget(now: real) returns (refusal: Option<Refusal>)
      requires Budgeted() && NotAfter(now)
      modifies this`runTimes, this`cutoff
      ensures Budgeted() && NotAfter(now) && runTimes == Recent(starts, now - window) && cutoff == now - window
      ensures refusal == Verdict(starts, maxRuns, window, now)
    {
      PruneBudget(now);
      refusal := None;
      if |runTimes| >= maxRuns {
        var oldest := runTimes[0];
        refusal := Some(BudgetExceeded(RetryAfter(oldest, window, now)));
      }
    }

    method RecordStart(recorded: real)
      requires Budgeted() && NotAfter(recorded) && |runTimes| < maxRuns && cutoff <= recorded - window
      modifies this`runTimes, this`starts
      ensures Budgeted() && NotAfter(recorded) && starts == old(starts) + [recorded]
    {
      RecentOneMore(starts, recorded, cutoff);
      if starts != [] {
        RecentTwice(starts, cutoff, recorded - window);
      }
      RoomLater(starts, cutoff, recorded - window);
      GrantKeepsSpacing(starts, maxRuns, window, recorded, recorded - window);
      runTimes, starts := runTimes + [recorded], starts + [recorded];
    }

    /** Turns a permit already taken off `free` or `handed` into a lease. */
    method Admit(recorded: real) returns (lease: AnalysisLease)
      requires maxConcurrent >= 1 && free + |handed| + inUse + 1 == maxConcurrent && waiting !! handed
      requires Budgeted() && Leased() && NotAfter(recorded) && |runTimes| < maxRuns && cutoff <= recorded - window
      modifies this`inUse, this`runTimes, this`starts, this`leases
      ensures Valid() && NotAfter(recorded) && starts == old(starts) + [recorded]
      ensures fresh(lease) && leases == old(leases) + {lease}
    {
      hide Recent, Spaced, Sorted;
      inUse := inUse + 1;
      RecordStart(recorded);
      lease := new AnalysisLease(this);
      leases := leases + {lease};
    }

    /** `try_start`, which never suspends. `queued` says whether the semaphore reports itself locked although a permit
        is free, because earlier callers are still in its queue. */
    method TryStart(clock: Clock, queued: bool) returns (lease: AnalysisLease?, refusal: Option<Refusal>, ghost at: real)
      requires Valid() && NotAfter(clock.time)
      modifies this, clock
      ensures Valid() && NotAfter(clock.time) && old(clock.time) <= at <= clock.time
      ensures refusal == (var verdict := Verdict(old(starts), maxRuns, window, at);
                          if verdict.Some? then verdict else if old(free) == 0 || queued then Some(Busy) else None)
      ensures lease == null <==> refusal.Some?
      ensures refusal.Some? ==> starts == old(starts) && PermitsUntouched()
      ensures refusal.None? ==> fresh(lease) && leases == old(leases) + {lease} && starts == old(starts) + [clock.time]
                                && free == old(free) - 1 && waiting == old(waiting) && handed == old(handed)
    {
      hide Recent, Spaced, Sorted;
      var now := clock.Now();
      at := now;
      refusal := CheckBudget(now);
      if refusal.Some? {
        return null, refusal, at;
      }
      if free == 0 || queued {
        return null, Some(Busy), at;
      }
      var recorded := clock.Now();
      free := free - 1;
      lease := Admit(recorded);
    }

    /** `acquire` up to its wait: refused at once, or waiting for a permit. */
    method Ask(task: Task, clock: Clock) returns (refusal: Option<Refusal>, ghost at: real)
      requires Valid() && NotAfter(clock.time) && task !in waiting && task !in handed
      modifies this, clock
      ensures Valid() && NotAfter(clock.time) && old(clock.time) <= at <= clock.time
      ensures refusal == Verdict(old(starts), maxRuns, window, at)
      ensures starts == old(starts) && free == old(free) && handed == old(handed) && leases == old(leases)
      ensures waiting == old(waiting) + if refusal.Some? then {} else {task}
    {
      hide Recent, Spaced, Sorted;
      var now := clock.Now();
      at := now;
      refusal := CheckBudget(now);
      if refusal.None? {
        waiting := waiting + {task};
      }
    }

    /** The semaphore hands a free permit to a waiting caller. */
    method Hand(task: Task)
      requires Valid() && free > 0 && task in waiting
      modifies this`free, this`waiting, this`handed
      ensures Valid() && free == old(free) - 1 && waiting == old(waiting) - {task} && handed == old(handed) + {task}
    {
      free, waiting, handed := free - 1, waiting - {task}, handed + {task};
    }

    /** The queue timeout: a caller that gives up leaves no permit behind, even one already on its way. */
    method TimeOut(task: Task) returns (refusal: Refusal)
      requires Valid() && (task in waiting || task in handed)
      modifies this`free, this`waiting, this`handed
      ensures Valid() && refusal == Busy
      ensures waiting == old(waiting) - {task} && handed == old(handed) - {task}
      ensures free == old(free) + if task in old(handed) then 1 else 0
    {
      if task in handed {
        free, handed := free + 1, handed - {task};
      }
      waiting := waiting - {task};
      refusal := Busy;
    }

    /** `acquire` after its wait: the budget is checked again, and a late refusal gives the permit back. */
    method Resume(task: Task, clock: Clock) returns (lease: AnalysisLease?, refusal: Option<Refusal>, ghost at: real)
      requires Valid() && NotAfter(clock.time) && task in handed
      modifies this, clock
      ensures Valid() && NotAfter(clock.time) && old(clock.time) <= at <= clock.time
      ensures refusal == Verdict(old(starts), maxRuns, window, at) && (lease == null <==> refusal.Some?)
      ensures waiting == old(waiting) && handed == old(handed) - {task}
      ensures refusal.Some? ==> starts == old(starts) && leases == old(leases) && free == old(free) + 1
      ensures refusal.None? ==> fresh(lease) && leases == old(leases) + {lease} && starts == old(starts) + [clock.time]
                                && free == old(free)
    {
      hide Recent, Spaced, Sorted;
      var now := clock.Now();
      at := now;
      refusal := CheckBudget(now);
      handed := handed - {task};
      if refusal.Some? {
        free := free + 1;
        return null, refusal, at;
      }
      var recorded := clock.Now();
      lease := Admit(recorded);
    }

    /** False is the RuntimeError of a release nobody acquired. */
    method Release() returns (ok: bool)
      requires Conserved() && Budgeted()
      modifies this`free, this`inUse
      ensures Conserved() && Budgeted()
      ensures ok <==> old(inUse) > 0
      ensures if ok then inUse == old(inUse) - 1 && free == old(free) + 1 else inUse == old(inUse) && free == old(free)
    {
      if inUse == 0 {
        return false;
      }
      inUse := inUse - 1;
      free := free + 1;
      ok := true;
    }

    method BudgetRemaining(clock: Clock) returns (n: nat)
      requires Valid() && NotAfter(clock.time)
      modifies this`runTimes, this`cutoff, clock
      ensures Valid() && NotAfter(clock.time)
      ensures n + |Recent(starts, clock.time - window)| == maxRuns
    {
      var now := clock.Now();
      PruneBudget(now);
      if starts != [] {
        SpacedIsFull(starts, maxRuns, window, now - window);
      }
      n := if maxRuns > |runTimes| then maxRuns - |runTimes| else 0;
    }
  }

  class AnalysisLease {
    const gate: AnalysisGate
    var released: bool

    constructor (gate: AnalysisGate)
      ensures this.gate == gate && !released
    {
      this.gate, released := gate, false;
    }

    /** The first release frees one slot; any further one changes nothing. */
    method Release()
      requires gate.Valid() && (!released ==> this in gate.leases)
      modifies this, gate`free, gate`inUse, gate`leases
      ensures gate.Valid() && released
      ensures gate.leases == old(gate.leases) - {this}
      ensures gate.free == old(gate.free) + if old(released) then 0 else 1
    {
      if !released {
        released := true;
        var _ := gate.Release();
        gate.leases := gate.leases - {this};
      }
    }
  }

  /** The budget decision as a count over the full history of starts. */
  function Verdict(starts: seq<real>, maxRuns: nat, window: real, now: real): Option<Refusal>
    requires maxRuns >= 1
  {
    var counted := Recent(starts, now - window);
    if |counted| >= maxRuns then Some(BudgetExceeded(RetryAfter(counted[0], window, now))) else None
  }

  lemma RoomLater(starts: seq<real>, early: real, late: real)
    requires early <= late
    ensures |Recent(starts, late)| <= |Recent(starts, early)|
  {
  }

  /** Over the life of a gate no window sees more than maxRuns starts, and slots in use never exceed maxConcurrent. */
  lemma StartsAreLimited(gate: AnalysisGate, from: real)
    requires gate.Valid()
    ensures Count(gate.starts, from, gate.window) <= gate.maxRuns
    ensures |gate.leases| <= gate.maxConcurrent
  {
    AtMostPerWindow(gate.starts, gate.maxRuns, gate.window, from);
  }

  /** Waiting the advertised time with no other start guarantees budget; one second less, when the hint is above one,
      does not. */
  lemma HintIsExact(starts: seq<real>, maxRuns: nat, window: real, now: real, later: real)
    requires maxRuns >= 1 && Sorted(starts) && Spaced(starts, maxRuns, window) && Verdict(starts, maxRuns, window, now).Some?
    requires starts[|starts| - 1] <= now
    ensures var hint := Verdict(starts, maxRuns, window, now).value.retryAfter;
            && hint >= 1
            && (later >= now + hint as real ==> Verdict(starts, maxRuns, window, later).None?)
            && (hint > 1 && now <= later <= now + (hint - 1) as real ==> Verdict(starts, maxRuns, window, later).Some?)
  {
    hide Recent, RetryAfter, Spaced;
    var counted := Recent(starts, now - window);
    SpacedIsFull(starts, maxRuns, window, now - window);
    RecentIsTail(starts, now - window);
    RecentIsTail(starts, later - window);
    HintBounds(counted[0], window, now);
    var recent := Recent(starts, later - window);
    var i := |starts| - maxRuns;
    assert counted[0] == starts[i];
    assert forall j | 0 <= j < |starts| - |recent| :: starts[j] <= later - window;
    assert forall j | |starts| - |recent| <= j < |starts| :: starts[j] == recent[j - (|starts| - |recent|)];
  }

  lemma HintBounds(oldest: real, window: real, now: real)
    ensures var hint := RetryAfter(oldest, window, now);
            && hint >= 1 && oldest + window - now <= hint as real
            && (hint > 1 ==> oldest + window - now > (hint - 1) as real)
  {
  }
}
