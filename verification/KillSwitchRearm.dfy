/** What an arm restores: the flag says exactly whether a trip still stands, and the next check that is answered passes. */
module KillSwitchRearm {
  import opened Rounding
  import opened KillSwitchProtocol

  // ---- The flag ----

  /** A trip that no arm or loss of the flag has followed. */
  ghost predicate Standing(w: World, trip: nat) {
    trip in w.trips && forall r | r in w.arms || r in w.losses :: r <= trip
  }

  ghost predicate FlagExplained(w: World) {
    && (forall r | r in w.arms || r in w.losses :: r < w.clock)
    && (w.store.active ==> exists trip :: Standing(w, trip))
  }

  lemma StepKeepsFlag(w: World, e: Event)
    requires Enabled(w, e) && FlagExplained(w)
    ensures FlagExplained(After(w, e))
  {
    hide NextLocal;
    var w' := After(w, e);
    if w'.store.active {
      if w.store.active {
        var trip :| Standing(w, trip);
        assert Standing(w', trip);
      } else {
        assert Standing(w', w.clock);
      }
    }
  }

  /** On a store whose flag was explained at the start, it is set exactly while some trip stands. */
  lemma {:induction false} FlagIsExact(w: World, events: seq<Event>)
    requires Start(w) && FlagExplained(w) && Legal(w, events)
    ensures FlagExplained(Run(w, events))
    ensures var end := Run(w, events); end.store.active <==> exists trip :: Standing(end, trip)
    decreases |events|
  {
    RunHoldsTrips(w, events);
    if events != [] {
      FlagIsExact(w, events[..|events| - 1]);
      hide FlagExplained, After;
      StepKeepsFlag(Run(w, events[..|events| - 1]), events[|events| - 1]);
    }
  }

  /** Losing the keys clears the flag, or forgets the token; either leaves the other alone. */
  lemma LossesTakeEffect(w: World)
    ensures After(w, LoseFlag).store == Store(false, w.store.epoch) && w.clock in After(w, LoseFlag).losses
    ensures After(w, LoseEpoch).store == Store(w.store.active, None) && After(w, LoseEpoch).losses == w.losses
  {
  }

  /** One transaction clears the flag and publishes the token that every other process will see. */
  lemma ArmTakesEffect(w: World, p: Process)
    requires p in w.locals && w.locals[p].phase.ArmCommit?
    ensures var w' := After(w, Access(p, Answered));
            && !w'.store.active && w'.store.epoch == Some(Arm(w.clock)) == w'.locals[p].observed
            && !w'.locals[p].latched && w'.locals[p].phase == Armed(true)
            && w'.arms == w.arms + {w.clock} && w'.clock == w.clock + 1
  {
  }

  /** What a process remembers when it goes on to read the flag is the token in the store, which it published itself if
      there was none; only a re-read may find none again. */
  lemma BaselineIsStored(w: World, p: Process, outcome: Outcome)
    requires p in w.locals
    requires var phase := w.locals[p].phase; phase.ObserveRead? || phase.ObservePublish? || phase.ObserveReread?
    ensures var w' := After(w, Access(p, outcome));
            w'.locals[p].phase.FlagRead? ==>
              w'.store.epoch == w'.locals[p].observed || (w.locals[p].phase.ObserveReread? && w'.store.epoch.None?)
  {
  }

  // ---- The next check ----

  /** Nothing stands in the way of process `p`: a latch would be lifted by the token in the store, and a check under way
      is not on its way to a refusal. */
  ghost predicate Ready(l: Local, epoch: Option<Token>) {
    && (l.latched ==> LatchOutdated(l, epoch))
    && match l.phase
       case Idle => true
       case ClearRead => l.latched
       case ObserveRead => !l.latched
       case ObservePublish => !l.latched
       case ObserveReread => !l.latched
       case FlagRead => !l.latched
       case Verdict(passed) => passed && !l.latched
       case TripSet => true
       case ArmCommit => true
       case Armed(done) => done
       case _ => false
  }

  /** An arm was published after the last token the latched process read. */
  predicate LatchOutdated(l: Local, epoch: Option<Token>) {
    l.observed.Some? && epoch.Some? && epoch.value.Arm? && epoch.value.at > l.readAt
  }

  ghost predicate Clear(w: World, p: Process) {
    TokensDated(w) && p in w.locals && !w.store.active && Ready(w.locals[p], w.store.epoch)
  }

  /** No trip, no failed access of `p`, and no loss of the token while `p` is latched. */
  ghost predicate Calm(w: World, e: Event, p: Process) {
    && (e.Access? && e.p in w.locals && w.locals[e.p].phase.TripSet? ==> !Reaches(e.outcome))
    && (e.Access? && e.p == p ==> e.outcome.Answered?)
    && (e.LoseEpoch? && p in w.locals ==> !w.locals[p].latched)
  }

  ghost predicate CalmRun(w: World, events: seq<Event>, p: Process)
    requires Legal(w, events)
  {
    events == []
    || (CalmRun(w, events[..|events| - 1], p) && Calm(Run(w, events[..|events| - 1]), events[|events| - 1], p))
  }

  lemma OthersKeepReady(w: World, e: Event, p: Process)
    requires Enabled(w, e) && Clear(w, p) && Calm(w, e, p) && !ActsFor(e, p)
    ensures !After(w, e).store.active && p in After(w, e).locals && After(w, e).locals[p] == w.locals[p]
    ensures Ready(w.locals[p], After(w, e).store.epoch)
  {
    hide NextLocal;
    assert LocalDated(w, w.locals[p]);
  }

  lemma OwnStepKeepsReady(w: World, e: Event, p: Process)
    requires Enabled(w, e) && Clear(w, p) && Calm(w, e, p) && ActsFor(e, p)
    ensures !After(w, e).store.active && Ready(After(w, e).locals[p], After(w, e).store.epoch)
  {
    assert LocalDated(w, w.locals[p]);
  }

  lemma StepKeepsClear(w: World, e: Event, p: Process)
    requires Enabled(w, e) && Clear(w, p) && Calm(w, e, p)
    ensures Clear(After(w, e), p)
  {
    StepKeepsDates(w, e);
    if ActsFor(e, p) {
      OwnStepKeepsReady(w, e, p);
    } else {
      OthersKeepReady(w, e, p);
    }
    hide After, Ready, TokensDated;
  }

  lemma {:induction false} RunKeepsClear(w: World, events: seq<Event>, p: Process)
    requires Legal(w, events) && Clear(w, p) && CalmRun(w, events, p)
    ensures Clear(Run(w, events), p)
    decreases |events|
  {
    if events != [] {
      RunKeepsClear(w, events[..|events| - 1], p);
      hide Clear, Calm, After;
      StepKeepsClear(Run(w, events[..|events| - 1]), events[|events| - 1], p);
    }
  }

  /** Store accesses a check has at most still to make. */
  function Remaining(phase: Phase): nat {
    match phase
    case ClearRead => 5
    case ObserveRead => 4
    case ObservePublish => 3
    case ObserveReread => 2
    case FlagRead => 1
    case _ => 0
  }

  function Accesses(events: seq<Event>, p: Process): nat {
    if events == [] then 0 else
    var last := events[|events| - 1];
    Accesses(events[..|events| - 1], p) + if last.Access? && last.p == p then 1 else 0
  }

  ghost predicate Checking(l: Local, call: Call, since: nat) {
    l.call == call && l.startedAt == since && (Remaining(l.phase) > 0 || l.phase.Verdict?)
  }

  lemma OwnAccessAdvances(w: World, p: Process, call: Call, since: nat)
    requires Clear(w, p) && Checking(w.locals[p], call, since) && Busy(w.locals[p].phase)
    ensures var l := NextLocal(w, w.locals[p], Answered);
            Checking(l, call, since) && Remaining(l.phase) < Remaining(w.locals[p].phase)
  {
    assert LocalDated(w, w.locals[p]);
  }

  /** While its owner only makes accesses, a check comes closer to its verdict with each. */
  lemma {:induction false} CheckAdvances(w: World, events: seq<Event>, p: Process, call: Call, since: nat)
    requires Legal(w, events) && Clear(w, p) && CalmRun(w, events, p) && Checking(w.locals[p], call, since)
    requires forall e | e in events && ActsFor(e, p) :: e.Access?
    ensures var end := Run(w, events);
            && Clear(end, p) && Checking(end.locals[p], call, since)
            && Remaining(end.locals[p].phase) + Accesses(events, p) <= Remaining(w.locals[p].phase)
    decreases |events|
  {
    if events != [] {
      var front, e := events[..|events| - 1], events[|events| - 1];
      assert e in events && forall x | x in front :: x in events;
      hide Clear, Calm, Checking, Remaining;
      CheckAdvances(w, front, p, call, since);
      var mid := Run(w, front);
      StepKeepsClear(mid, e, p);
      AccessAdvances(mid, e, p, call, since);
    }
  }

  lemma AccessAdvances(w: World, e: Event, p: Process, call: Call, since: nat)
    requires Enabled(w, e) && Clear(w, p) && Calm(w, e, p) && Checking(w.locals[p], call, since)
    requires ActsFor(e, p) ==> e.Access?
    ensures p in After(w, e).locals && Checking(After(w, e).locals[p], call, since)
    ensures Remaining(After(w, e).locals[p].phase) + (if ActsFor(e, p) then 1 else 0) <= Remaining(w.locals[p].phase)
  {
    if ActsFor(e, p) {
      OwnAccessAdvances(w, p, call, since);
    } else {
      OthersKeepReady(w, e, p);
    }
    hide NextLocal, NextStore, Clear, Checking, Remaining;
  }

  /** Once the flag is clear and a latch of `p` is older than the token in the store, every check of `p` passes until
      something goes wrong again: whatever the others do, it is never refused, and its fifth access at the latest ends
      it. */
  lemma NextCheckPasses(w: World, before: seq<Event>, call: Call, during: seq<Event>, p: Process)
    requires TokensDated(w) && p in w.locals && w.locals[p].phase.Idle? && !w.store.active
    requires w.locals[p].latched ==> LatchOutdated(w.locals[p], w.store.epoch)
    requires call.CheckCall? || call.OrderCall?
    requires Legal(w, before) && CalmRun(w, before, p) && Enabled(Run(w, before), Begin(p, call))
    requires var begun := After(Run(w, before), Begin(p, call)); Legal(begun, during) && CalmRun(begun, during, p)
    requires forall e | e in during && ActsFor(e, p) :: e.Access?
    ensures var begun := After(Run(w, before), Begin(p, call));
            var end := Run(begun, during);
            && p in end.locals
            && var l := end.locals[p];
            && l.startedAt == Run(w, before).clock && l.call == call
            && (l.phase == Verdict(true) || Busy(l.phase))
            && (Accesses(during, p) >= 5 ==> l.phase == Verdict(true))
            && (Accesses(during, p) >= 4 && !Run(w, before).locals[p].latched ==> l.phase == Verdict(true))
  {
    var mid := Run(w, before);
    assert Clear(w, p);
    hide Clear, Calm, CalmRun, After, TokensDated, Enabled;
    RunKeepsClear(w, before, p);
    BeginsCheck(mid, p, call);
    hide Checking, Remaining;
    CheckAdvances(After(mid, Begin(p, call)), during, p, call, mid.clock);
    HowItStands(Run(After(mid, Begin(p, call)), during), p, call, mid.clock);
  }

  lemma BeginsCheck(w: World, p: Process, call: Call)
    requires Clear(w, p) && Enabled(w, Begin(p, call)) && (call.CheckCall? || call.OrderCall?)
    ensures var begun := After(w, Begin(p, call));
            && Clear(begun, p) && Checking(begun.locals[p], call, w.clock)
            && Remaining(begun.locals[p].phase) == if w.locals[p].latched then 5 else 4
  {
    StepKeepsClear(w, Begin(p, call), p);
    hide TokensDated;
  }

  lemma HowItStands(w: World, p: Process, call: Call, since: nat)
    requires Clear(w, p) && Checking(w.locals[p], call, since)
    ensures var l := w.locals[p];
            && l.call == call && l.startedAt == since
            && (Remaining(l.phase) == 0 <==> l.phase == Verdict(true)) && (Busy(l.phase) <==> Remaining(l.phase) > 0)
  {
    hide TokensDated;
  }

  /** So an arm restores trading: from then on, with no trip, outage or lost token, the next check passes of every
      process that was idle and not latched, or latched after having read some token. */
  lemma ArmRestores(w: World, armer: Process, before: seq<Event>, call: Call, during: seq<Event>, p: Process)
    requires TokensDated(w) && armer in w.locals && w.locals[armer].phase.ArmCommit?
    requires p in w.locals && w.locals[p].phase.Idle? && (w.locals[p].latched ==> w.locals[p].observed.Some?)
    requires call.CheckCall? || call.OrderCall?
    requires var armed := After(w, Access(armer, Answered));
             && Legal(armed, before) && CalmRun(armed, before, p) && Enabled(Run(armed, before), Begin(p, call))
             && var begun := After(Run(armed, before), Begin(p, call)); Legal(begun, during) && CalmRun(begun, during, p)
    requires forall e | e in during && ActsFor(e, p) :: e.Access?
    ensures var armed := After(w, Access(armer, Answered));
            var end := Run(After(Run(armed, before), Begin(p, call)), during);
            && p in end.locals
            && var l := end.locals[p];
            && (l.phase == Verdict(true) || Busy(l.phase))
            && (Accesses(during, p) >= 5 ==> l.phase == Verdict(true))
  {
    ArmTakesEffect(w, armer);
    StepKeepsDates(w, Access(armer, Answered));
    assert LocalDated(w, w.locals[p]);
    hide NextLocal, NextStore, TokensDated, LocalDated;
    NextCheckPasses(After(w, Access(armer, Answered)), before, call, during, p);
  }

  /** And only those: a process whose latch is not older than the token in the store is refused at its first access. */
  lemma StaleLatchIsRefused(w: World, p: Process, call: Call)
    requires TokensDated(w) && p in w.locals && w.locals[p].phase.Idle? && (call.CheckCall? || call.OrderCall?)
    requires w.locals[p].latched && !LatchOutdated(w.locals[p], w.store.epoch)
    ensures var begun := After(w, Begin(p, call));
            Enabled(begun, Access(p, Answered)) && After(begun, Access(p, Answered)).locals[p].phase == Verdict(false)
  {
    assert LocalDated(w, w.locals[p]);
  }
}
