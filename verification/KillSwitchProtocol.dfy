/** The kill switch as a protocol: processes, a shared store whose every call may fail, and losses of its keys. */
module KillSwitchProtocol {
  import opened Rounding

  type Process = nat

  /** Epoch tokens are never reused, so a token is known by the moment it was published. */
  datatype Token = Baseline(at: nat) | Arm(at: nat)

  datatype Store = Store(active: bool, epoch: Option<Token>)

  /** A failed write may or may not have reached the store. */
  datatype Outcome = Answered | Unreachable | AppliedUnanswered

  datatype Call = CheckCall | OrderCall | ActivateCall | AutoTriggerCall | ArmCall

  /** The next store access of a call, or how the call ended. */
  datatype Phase =
    | Idle
    | ClearRead
    | ObserveRead
    | ObservePublish
    | ObserveReread
    | FlagRead
    | ReasonRead
    | Verdict(passed: bool)
    | TripSet
    | TripReason
    | TripTime
    | Tripped(visible: bool)
    | ArmCommit
    | Armed(done: bool)

  /** `readAt` is when the last epoch token was read or written, `startedAt` and `clearedAt` when the current call
      began and when it saw the flag clear. `parked` are this process's order calls that passed the check and now await
      something else, each by its beginning, with the moment it saw the flag clear; other calls run meanwhile. */
  datatype Local = Local(
    latched: bool, observed: Option<Token>, readAt: nat, call: Call, phase: Phase, startedAt: nat, clearedAt: nat,
    parked: map<nat, nat>)

  datatype Order = Order(who: Process, startedAt: nat, clearedAt: nat)

  /** `trips`, `arms`, `losses` and `orders` are history: when the flag was set, cleared by an arm, or lost. */
  datatype World = World(
    clock: nat, store: Store, locals: map<Process, Local>,
    trips: set<nat>, arms: set<nat>, losses: set<nat>, orders: seq<Order>)

  datatype Event =
    | Begin(p: Process, call: Call)
    | Access(p: Process, outcome: Outcome)
    | Park(p: Process)
    | Place(p: Process, order: nat)
    | Drop(p: Process, order: nat)
    | Finish(p: Process)
    | LoseFlag
    | LoseEpoch

  predicate Busy(phase: Phase) {
    !phase.Idle? && !phase.Verdict? && !phase.Tripped? && !phase.Armed?
  }

  predicate Enabled(w: World, e: Event) {
    match e
    case Begin(p, _) => p in w.locals && w.locals[p].phase.Idle?
    case Access(p, _) => p in w.locals && Busy(w.locals[p].phase)
    case Park(p) => p in w.locals && w.locals[p].phase == Verdict(true) && w.locals[p].call.OrderCall?
    case Place(p, order) => p in w.locals && order in w.locals[p].parked
    case Drop(p, order) => p in w.locals && order in w.locals[p].parked
    case Finish(p) => p in w.locals && !w.locals[p].phase.Idle? && !Busy(w.locals[p].phase)
    case LoseFlag => true
    case LoseEpoch => true
  }

  /** A latched process first looks for a re-arm; any other first refreshes its baseline. */
  function FirstPhase(call: Call, latched: bool): Phase {
    match call
    case CheckCall => if latched then ClearRead else ObserveRead
    case OrderCall => if latched then ClearRead else ObserveRead
    case ActivateCall => TripSet
    case AutoTriggerCall => TripSet
    case ArmCall => ArmCommit
  }

  /** The local state after the pending access returns. */
  function NextLocal(w: World, l: Local, outcome: Outcome): Local {
    var ok, failed := outcome.Answered?, l.(latched := true);
    var blocked := Verdict(false);
    match l.phase
    case ClearRead =>
      if !ok then failed.(phase := blocked)
      else if w.store.epoch.None? then l.(phase := blocked)
      else
        var t := w.store.epoch.value;
        var read := l.(observed := Some(t), readAt := w.clock);
        // Only an arm token other than the baseline lifts the latch.
        if l.observed.Some? && t != l.observed.value && t.Arm? then read.(latched := false, phase := ObserveRead)
        else read.(phase := blocked)
    case ObserveRead =>
      if !ok then failed.(phase := blocked)
      else if w.store.epoch.None? then l.(phase := ObservePublish)
      else l.(observed := w.store.epoch, readAt := w.clock, phase := FlagRead)
    case ObservePublish =>
      if !ok then failed.(phase := ObserveReread)
      else if w.store.epoch.Some? then l.(phase := ObserveReread)
      else l.(observed := Some(Baseline(w.clock)), readAt := w.clock, phase := FlagRead)
    case ObserveReread =>
      var next := if l.latched then blocked else FlagRead;
      if !ok then failed.(phase := blocked)
      else if w.store.epoch.None? then l.(phase := next)
      else l.(observed := w.store.epoch, readAt := w.clock, phase := next)
    case FlagRead =>
      if !ok then failed.(phase := blocked)
      else if w.store.active then l.(phase := ReasonRead)
      else l.(phase := Verdict(!l.latched), clearedAt := w.clock)
    case ReasonRead => if ok then l.(phase := blocked) else failed.(phase := blocked)
    case TripSet =>
      var l' := if ok then l else failed;
      if l'.latched then l'.(phase := Tripped(l.call.AutoTriggerCall?))
      else if w.store.active then l'.(phase := Tripped(true))
      else l'.(phase := TripReason)
    case TripReason => (if ok then l else failed).(phase := TripTime)
    case TripTime =>
      var l' := if ok then l else failed;
      l'.(phase := Tripped(!l'.latched || l.call.AutoTriggerCall?))
    case ArmCommit =>
      if ok then l.(latched := false, observed := Some(Arm(w.clock)), readAt := w.clock, phase := Armed(true))
      else failed.(phase := Armed(false))
    case _ => l
  }

  function Reaches(outcome: Outcome): bool {
    !outcome.Unreachable?
  }

  /** The store after the pending access; an arm clears the flag and publishes its token in one step. */
  function NextStore(w: World, phase: Phase, outcome: Outcome): Store {
    if !Reaches(outcome) then w.store else
    match phase
    case ObservePublish => if w.store.epoch.None? then w.store.(epoch := Some(Baseline(w.clock))) else w.store
    case TripSet => w.store.(active := true)
    case ArmCommit => Store(false, Some(Arm(w.clock)))
    case _ => w.store
  }

  function After(w: World, e: Event): World
    requires Enabled(w, e)
  {
    var tick := w.(clock := w.clock + 1);
    match e
    case Begin(p, call) =>
      var l := w.locals[p];
      tick.(locals := w.locals[p := l.(call := call, phase := FirstPhase(call, l.latched), startedAt := w.clock)])
    case Access(p, outcome) =>
      var l := w.locals[p];
      var reached := Reaches(outcome);
      tick.(store := NextStore(w, l.phase, outcome),
            locals := w.locals[p := NextLocal(w, l, outcome)],
            trips := if l.phase.TripSet? && reached then w.trips + {w.clock} else w.trips,
            arms := if l.phase.ArmCommit? && reached then w.arms + {w.clock} else w.arms)
    case Park(p) =>
      var l := w.locals[p];
      tick.(locals := w.locals[p := l.(phase := Idle, parked := l.parked[l.startedAt := l.clearedAt])])
    case Place(p, order) =>
      var l := w.locals[p];
      tick.(orders := w.orders + [Order(p, order, l.parked[order])],
            locals := w.locals[p := l.(parked := l.parked - {order})])
    case Drop(p, order) =>
      tick.(locals := w.locals[p := w.locals[p].(parked := w.locals[p].parked - {order})])
    case Finish(p) => tick.(locals := w.locals[p := w.locals[p].(phase := Idle)])
    case LoseFlag => tick.(store := w.store.(active := false), losses := w.losses + {w.clock})
    case LoseEpoch => tick.(store := w.store.(epoch := None))
  }

  // ---- Runs ----

  predicate Legal(w: World, events: seq<Event>)
    decreases |events|, 0
  {
    events == []
    || (Legal(w, events[..|events| - 1]) && Enabled(Run(w, events[..|events| - 1]), events[|events| - 1]))
  }

  function Run(w: World, events: seq<Event>): World
    requires Legal(w, events)
    decreases |events|, 1
  {
    if events == [] then w else After(Run(w, events[..|events| - 1]), events[|events| - 1])
  }

  /** Every process has just started; the store may hold what an earlier run left, tripped or not, armed or not. */
  ghost predicate Start(w: World) {
    && w.clock >= 1 && w.orders == []
    && TokenDated(w) && TripsReset(w)
    && forall p | p in w.locals :: var l := w.locals[p];
         l.phase.Idle? && !l.latched && l.observed.None? && l.readAt == 0 && l.parked == map[]
  }

  // ---- The invariant ----

  /** Tokens are as old as their publication; a token a process has not seen was published after its last read. */
  ghost predicate TokensDated(w: World) {
    && w.clock >= 1 && TokenDated(w)
    && forall p | p in w.locals :: LocalDated(w, w.locals[p])
  }

  ghost predicate TokenDated(w: World) {
    w.store.epoch.Some? ==> w.store.epoch.value.at < w.clock
                            && (w.store.epoch.value.Arm? ==> w.store.epoch.value.at in w.arms)
  }

  ghost predicate LocalDated(w: World, l: Local) {
    BaselineDated(l, w.store.epoch, w.clock) && PhaseDated(l, w.clock)
  }

  ghost predicate BaselineDated(l: Local, epoch: Option<Token>, clock: nat) {
    && l.readAt < clock
    && (l.observed.Some? ==> l.observed.value.at <= l.readAt)
    && (l.observed.Some? && epoch.Some? && epoch != l.observed ==> epoch.value.at > l.readAt)
  }

  ghost predicate PhaseDated(l: Local, clock: nat) {
    && (l.phase == Verdict(true) ==> !l.latched && l.startedAt <= l.clearedAt < clock)
    && (l.phase.ObserveRead? || l.phase.ObservePublish? || l.phase.FlagRead? ==> !l.latched)
    && (Busy(l.phase) ==> l.startedAt < clock)
    && (forall order | order in l.parked :: order <= l.parked[order] < clock)
  }

  lemma LocalAges(w: World, e: Event, q: Process)
    requires Enabled(w, e) && TokensDated(w) && q in w.locals
    requires !ActsFor(e, q)
    ensures LocalDated(After(w, e), w.locals[q])
  {
    hide NextLocal;
    assert LocalDated(w, w.locals[q]);
  }

  lemma BaselineAfterAccess(w: World, l: Local, outcome: Outcome)
    requires TokensDated(w) && BaselineDated(l, w.store.epoch, w.clock)
    ensures BaselineDated(NextLocal(w, l, outcome), NextStore(w, l.phase, outcome).epoch, w.clock + 1)
  {
  }

  lemma PhaseAfterAccess(w: World, l: Local, outcome: Outcome)
    requires PhaseDated(l, w.clock) && Busy(l.phase)
    ensures PhaseDated(NextLocal(w, l, outcome), w.clock + 1)
  {
  }

  lemma OwnLocalDated(w: World, e: Event)
    requires Enabled(w, e) && TokensDated(w) && !e.LoseFlag? && !e.LoseEpoch?
    ensures LocalDated(After(w, e), After(w, e).locals[e.p])
  {
    hide NextLocal, NextStore;
    assert LocalDated(w, w.locals[e.p]);
    if e.Access? {
      BaselineAfterAccess(w, w.locals[e.p], e.outcome);
      PhaseAfterAccess(w, w.locals[e.p], e.outcome);
      hide BaselineDated, PhaseDated;
    }
  }

  lemma StoreDated(w: World, e: Event)
    requires Enabled(w, e) && TokensDated(w)
    ensures var w' := After(w, e);
            TokenDated(w')
  {
    hide LocalDated, NextLocal;
  }

  lemma StepKeepsDates(w: World, e: Event)
    requires Enabled(w, e) && TokensDated(w)
    ensures TokensDated(After(w, e))
  {
    var w' := After(w, e);
    StoreDated(w, e);
    hide LocalDated, NextLocal, NextStore;
    forall q | q in w'.locals
      ensures LocalDated(w', w'.locals[q])
    {
      if ActsFor(e, q) {
        OwnLocalDated(w, e);
      } else {
        LocalAges(w, e, q);
      }
    }
  }

  lemma {:induction false} RunKeepsDates(w: World, events: seq<Event>)
    requires TokensDated(w) && Legal(w, events)
    ensures TokensDated(Run(w, events))
    decreases |events|
  {
    if events != [] {
      RunKeepsDates(w, events[..|events| - 1]);
      hide TokensDated;
      StepKeepsDates(Run(w, events[..|events| - 1]), events[|events| - 1]);
    }
  }

  // ---- The latch ----

  /** Whatever access fails, whether or not it took effect, latches its process, which then neither passes the check nor
      reports an activation as visible nor an arm as done. */
  lemma EveryFailureLatches(w: World, p: Process, outcome: Outcome)
    requires p in w.locals && Busy(w.locals[p].phase) && !outcome.Answered?
    ensures var l := After(w, Access(p, outcome)).locals[p];
            && l.latched && l.phase != Verdict(true) && l.phase != Armed(true)
            && (l.call.ActivateCall? ==> l.phase != Tripped(true))
  {
  }

  /** On a store that answers, a look for a re-arm lifts the latch exactly when an arm committed after the last read. */
  lemma LatchLiftsOnLaterArm(w: World, p: Process)
    requires TokensDated(w) && p in w.locals && w.locals[p].phase.ClearRead? && w.locals[p].latched
    ensures !After(w, Access(p, Answered)).locals[p].latched
            <==> w.store.epoch.Some? && w.store.epoch.value.Arm? && w.locals[p].observed.Some?
                 && w.store.epoch.value.at > w.locals[p].readAt
  {
    assert LocalDated(w, w.locals[p]);
  }

  /** Whatever step lifts a latch, an arm committed after the last epoch token its process read; when it had read none, it
      is an arm of its own, committing in this step. */
  lemma LatchNeedsArm(w: World, e: Event, p: Process)
    requires TokensDated(w) && Enabled(w, e) && p in w.locals
    requires w.locals[p].latched && !After(w, e).locals[p].latched
    ensures exists a :: a in After(w, e).arms && a > w.locals[p].readAt
                        && (w.locals[p].observed.None? ==> a == w.clock && e == Access(p, Answered))
  {
    assert LocalDated(w, w.locals[p]);
    var a := if w.locals[p].phase.ArmCommit? then w.clock else w.store.epoch.value.at;
    assert a in After(w, e).arms;
  }

  /** Without such an arm a latched process stays latched through the whole run and passes no check, whatever the
      outages, lost keys, republished baselines and moves of other processes. */
  lemma {:induction false} LatchHolds(w: World, events: seq<Event>, p: Process)
    requires TokensDated(w) && Legal(w, events) && p in w.locals && w.locals[p].latched
    requires forall a | a in Run(w, events).arms :: a <= w.locals[p].readAt
    ensures var end := Run(w, events);
            && p in end.locals && end.locals[p].latched && end.locals[p].phase != Verdict(true)
            && end.locals[p].parked.Keys <= w.locals[p].parked.Keys
            && end.locals[p].readAt >= w.locals[p].readAt
    decreases |events|
  {
    hide After, TokensDated, Enabled;
    if events == [] {
      LatchedIsBlocked(w, p);
    } else {
      var front, e := events[..|events| - 1], events[|events| - 1];
      var mid := Run(w, front);
      StepGrows(mid, e);
      LatchHolds(w, front, p);
      RunKeepsDates(w, front);
      StepKeepsLatch(mid, e, p);
    }
  }

  /** History is only ever added to. */
  ghost predicate Grows(w: World, later: World) {
    && w.clock <= later.clock && w.orders <= later.orders
    && w.trips <= later.trips && w.arms <= later.arms && w.losses <= later.losses
  }

  lemma StepGrows(w: World, e: Event)
    requires Enabled(w, e)
    ensures Grows(w, After(w, e)) && After(w, e).clock == w.clock + 1
  {
    hide NextLocal, NextStore;
  }

  lemma {:induction false} RunGrows(w: World, events: seq<Event>)
    requires Legal(w, events)
    ensures Grows(w, Run(w, events)) && Run(w, events).clock == w.clock + |events|
    decreases |events|
  {
    if events != [] {
      var front := events[..|events| - 1];
      StepGrows(Run(w, front), events[|events| - 1]);
      hide After, Enabled;
      RunGrows(w, front);
    }
  }

  lemma LatchedIsBlocked(w: World, p: Process)
    requires TokensDated(w) && p in w.locals && w.locals[p].latched
    ensures w.locals[p].phase != Verdict(true)
  {
    assert LocalDated(w, w.locals[p]);
  }

  lemma StepKeepsLatch(w: World, e: Event, p: Process)
    requires TokensDated(w) && Enabled(w, e) && p in w.locals && w.locals[p].latched
    requires forall a | a in After(w, e).arms :: a <= w.locals[p].readAt
    ensures p in After(w, e).locals
    ensures var l := After(w, e).locals[p];
            && l.latched && l.phase != Verdict(true) && l.parked.Keys <= w.locals[p].parked.Keys
            && l.readAt >= w.locals[p].readAt
  {
    if !After(w, e).locals[p].latched {
      LatchNeedsArm(w, e, p);
    }
    ReadsMoveForward(w, e, p);
    StepKeepsDates(w, e);
    LatchedIsBlocked(w, p);
    LatchedIsBlocked(After(w, e), p);
    if e.Access? {
      SameCall(w, w.locals[e.p], e.outcome);
    }
    hide NextLocal, NextStore, TokensDated;
  }

  /** What holds of a process that latched before its first read, or read its first token since: `since` is when it was
      seen latched without one. */
  ghost predicate UnreadLatch(w: World, p: Process, since: nat) {
    && p in w.locals && since <= w.clock
    && var l := w.locals[p]; l.latched && (l.observed.None? || l.readAt >= since)
  }

  lemma StepKeepsUnreadLatch(w: World, e: Event, p: Process, since: nat)
    requires TokensDated(w) && Enabled(w, e) && UnreadLatch(w, p, since)
    requires forall a | a in After(w, e).arms :: a < since
    ensures UnreadLatch(After(w, e), p, since)
    ensures After(w, e).locals[p].parked.Keys <= w.locals[p].parked.Keys
  {
    assert LocalDated(w, w.locals[p]);
  }

  /** No earlier arm lifts the latch of a process that had read no token: while no new one commits it stays latched and
      passes no check, whatever old token it finds in the store. */
  lemma {:induction false} UnreadLatchHolds(w: World, events: seq<Event>, p: Process)
    requires TokensDated(w) && Legal(w, events) && p in w.locals && w.locals[p].latched && w.locals[p].observed.None?
    requires forall a | a in Run(w, events).arms :: a < w.clock
    ensures var end := Run(w, events);
            && p in end.locals && end.locals[p].latched && end.locals[p].phase != Verdict(true)
            && end.locals[p].parked.Keys <= w.locals[p].parked.Keys
            && (end.locals[p].observed.None? || end.locals[p].readAt >= w.clock)
    decreases |events|
  {
    hide After, TokensDated, Enabled;
    if events == [] {
      LatchedIsBlocked(w, p);
    } else {
      var front, e := events[..|events| - 1], events[|events| - 1];
      var mid := Run(w, front);
      StepGrows(mid, e);
      RunGrows(w, front);
      UnreadLatchHolds(w, front, p);
      RunKeepsDates(w, front);
      StepKeepsUnreadLatch(mid, e, p, w.clock);
      StepKeepsDates(mid, e);
      LatchedIsBlocked(After(mid, e), p);
    }
  }

  lemma ReadsMoveForward(w: World, e: Event, p: Process)
    requires TokensDated(w) && Enabled(w, e) && p in w.locals
    ensures After(w, e).locals[p].readAt >= w.locals[p].readAt
  {
    assert LocalDated(w, w.locals[p]);
  }

  // ---- Trips and orders ----

  /** Some arm or loss of the flag happened after `since` and before `until`. */
  ghost predicate ResetBetween(w: World, since: nat, until: nat) {
    exists r :: (r in w.arms || r in w.losses) && since < r < until
  }

  ghost predicate TripsReset(w: World) {
    && (forall k | k in w.trips :: k < w.clock)
    && (!w.store.active ==> forall k | k in w.trips :: ResetBetween(w, k, w.clock))
  }

  /** A clear flag means every trip was followed by a reset; so does a passed check, pending or parked, and a placed
      order. */
  ghost predicate TripsHeld(w: World) {
    && TripsReset(w)
    && (forall p, order, k | p in w.locals && order in w.locals[p].parked && k in w.trips && k < w.locals[p].parked[order] ::
          ResetBetween(w, k, w.locals[p].parked[order]))
    && (forall p, k | p in w.locals && k in w.trips && w.locals[p].phase == Verdict(true) && k < w.locals[p].clearedAt ::
          ResetBetween(w, k, w.locals[p].clearedAt))
    && (forall i, k | 0 <= i < |w.orders| && k in w.trips && k < w.orders[i].clearedAt ::
          ResetBetween(w, k, w.orders[i].clearedAt))
    && (forall i | 0 <= i < |w.orders| :: w.orders[i].startedAt <= w.orders[i].clearedAt < w.clock)
  }

  lemma ResetStays(w: World, e: Event, since: nat, until: nat, later: nat)
    requires Enabled(w, e) && ResetBetween(w, since, until) && until <= later
    ensures ResetBetween(After(w, e), since, later)
  {
    var r :| (r in w.arms || r in w.losses) && since < r < until;
    assert r in After(w, e).arms || r in After(w, e).losses;
  }

  lemma StepKeepsTrips(w: World, e: Event)
    requires Enabled(w, e) && TokensDated(w) && TripsHeld(w)
    ensures TripsHeld(After(w, e))
  {
    var w' := After(w, e);
    TripsAreOld(w, e);
    forall k | k in w'.trips && !w'.store.active
      ensures ResetBetween(w', k, w'.clock)
    {
      ClearFlagFollowsReset(w, e, k);
    }
    forall p, k | p in w'.locals && k in w'.trips && w'.locals[p].phase == Verdict(true) && k < w'.locals[p].clearedAt
      ensures ResetBetween(w', k, w'.locals[p].clearedAt)
    {
      PassedCheckFollowsReset(w, e, p, k);
    }
    forall p, order, k | p in w'.locals && order in w'.locals[p].parked && k in w'.trips && k < w'.locals[p].parked[order]
      ensures ResetBetween(w', k, w'.locals[p].parked[order])
    {
      ParkedFollowsReset(w, e, p, order, k);
    }
    forall i, k | 0 <= i < |w'.orders| && k in w'.trips && k < w'.orders[i].clearedAt
      ensures ResetBetween(w', k, w'.orders[i].clearedAt)
    {
      OrderFollowsReset(w, e, i, k);
    }
    OrdersStartFirst(w, e);
  }

  lemma TripsAreOld(w: World, e: Event)
    requires Enabled(w, e) && TripsHeld(w)
    ensures forall k | k in After(w, e).trips :: k < After(w, e).clock
  {
    hide NextLocal, NextStore, ResetBetween;
  }

  lemma OrdersStartFirst(w: World, e: Event)
    requires Enabled(w, e) && TokensDated(w) && TripsHeld(w)
    ensures var w' := After(w, e); forall i | 0 <= i < |w'.orders| ::
              w'.orders[i].startedAt <= w'.orders[i].clearedAt < w'.clock
  {
    hide NextLocal, NextStore, ResetBetween;
    if e.Place? {
      assert LocalDated(w, w.locals[e.p]);
    }
  }

  lemma ClearFlagFollowsReset(w: World, e: Event, k: nat)
    requires Enabled(w, e) && TripsHeld(w) && k in After(w, e).trips && !After(w, e).store.active
    ensures ResetBetween(After(w, e), k, After(w, e).clock)
  {
    hide NextLocal;
    var w' := After(w, e);
    if w.store.active {
      assert w.clock in w'.arms || w.clock in w'.losses;
    } else {
      ResetStays(w, e, k, w.clock, w'.clock);
    }
  }

  /** A check passes only by reading the flag clear. */
  lemma PassReadsClearFlag(w: World, l: Local, outcome: Outcome)
    requires Busy(l.phase) && NextLocal(w, l, outcome).phase == Verdict(true)
    ensures !w.store.active && NextLocal(w, l, outcome).clearedAt == w.clock && l.phase.FlagRead?
  {
  }

  lemma PassedCheckFollowsReset(w: World, e: Event, p: Process, k: nat)
    requires Enabled(w, e) && TokensDated(w) && TripsHeld(w) && k in After(w, e).trips && p in After(w, e).locals
    requires var l := After(w, e).locals[p]; l.phase == Verdict(true) && k < l.clearedAt
    ensures ResetBetween(After(w, e), k, After(w, e).locals[p].clearedAt)
  {
    hide NextLocal, NextStore, LocalDated, ResetBetween;
    var l := After(w, e).locals[p];
    if w.locals[p].phase == Verdict(true) && l.clearedAt == w.locals[p].clearedAt {
      assert k in w.trips by {
        PassIsOld(w, p);
      }
      ResetStays(w, e, k, l.clearedAt, l.clearedAt);
    } else {
      PassReadsClearFlag(w, w.locals[p], e.outcome);
      ResetStays(w, e, k, w.clock, l.clearedAt);
    }
  }

  lemma PassIsOld(w: World, p: Process)
    requires TokensDated(w) && p in w.locals && w.locals[p].phase == Verdict(true)
    ensures w.locals[p].clearedAt < w.clock
  {
    assert LocalDated(w, w.locals[p]);
  }

  lemma ParkedFollowsReset(w: World, e: Event, p: Process, order: nat, k: nat)
    requires Enabled(w, e) && TokensDated(w) && TripsHeld(w) && k in After(w, e).trips && p in After(w, e).locals
    requires order in After(w, e).locals[p].parked && k < After(w, e).locals[p].parked[order]
    ensures ResetBetween(After(w, e), k, After(w, e).locals[p].parked[order])
  {
    var l := w.locals[p];
    var at := After(w, e).locals[p].parked[order];
    if e.Access? {
      SameCall(w, w.locals[e.p], e.outcome);
    }
    hide NextLocal, NextStore, ResetBetween;
    assert at < w.clock by {
      assert LocalDated(w, l);
    }
    if order in l.parked && l.parked[order] == at {
      ResetStays(w, e, k, at, at);
    } else {
      assert e == Park(p) && l.clearedAt == at;
      ResetStays(w, e, k, at, at);
    }
  }

  lemma OrderFollowsReset(w: World, e: Event, i: nat, k: nat)
    requires Enabled(w, e) && TokensDated(w) && TripsHeld(w) && k in After(w, e).trips && i < |After(w, e).orders|
    requires k < After(w, e).orders[i].clearedAt
    ensures ResetBetween(After(w, e), k, After(w, e).orders[i].clearedAt)
  {
    hide NextLocal, NextStore;
    var at := After(w, e).orders[i].clearedAt;
    if i < |w.orders| {
      assert k in w.trips;
    } else {
      assert w.locals[e.p].parked[e.order] == at;
    }
    ResetStays(w, e, k, at, at);
  }

  /** Over every run: between a trip and an order whose call began later lies an arm, or a loss of the flag. */
  lemma OrdersFollowArms(w: World, events: seq<Event>, k: nat, i: nat)
    requires Start(w) && Legal(w, events)
    requires k in Run(w, events).trips && i < |Run(w, events).orders|
    requires k < Run(w, events).orders[i].startedAt
    ensures var end := Run(w, events); ResetBetween(end, k, end.orders[i].clearedAt)
  {
    RunHoldsTrips(w, events);
  }

  /** Likewise for every check that passes. */
  lemma PassedChecksFollowArms(w: World, events: seq<Event>, k: nat, p: Process)
    requires Start(w) && Legal(w, events)
    requires var end := Run(w, events);
             k in end.trips && p in end.locals && end.locals[p].phase == Verdict(true) && k < end.locals[p].startedAt
    ensures var end := Run(w, events); ResetBetween(end, k, end.locals[p].clearedAt)
  {
    RunHoldsTrips(w, events);
    assert LocalDated(Run(w, events), Run(w, events).locals[p]);
  }

  lemma {:induction false} RunHoldsTrips(w: World, events: seq<Event>)
    requires Start(w) && Legal(w, events)
    ensures TokensDated(Run(w, events)) && TripsHeld(Run(w, events))
    decreases |events|
  {
    if events != [] {
      var front := events[..|events| - 1];
      RunHoldsTrips(w, front);
      hide TokensDated, TripsHeld;
      StepKeepsDates(Run(w, front), events[|events| - 1]);
      StepKeepsTrips(Run(w, front), events[|events| - 1]);
    }
  }

  // ---- A reported trip is on record ----

  /** `activate()` returned true, or `auto_trigger()` returned on a store that answered. */
  predicate ReportsTrip(l: Local) {
    l.phase.TripReason? || l.phase.TripTime?
    || (l.phase == Tripped(true) && (l.call.ActivateCall? || !l.latched))
  }

  ghost predicate TripsRecorded(w: World) {
    forall p | p in w.locals && ReportsTrip(w.locals[p]) ::
      exists k :: k in w.trips && w.locals[p].startedAt <= k < w.clock
  }

  /** A call starts reporting a trip only when its write of the flag has reached the store. */
  lemma ReportFollowsTrip(w: World, l: Local, outcome: Outcome)
    requires !ReportsTrip(l) && ReportsTrip(NextLocal(w, l, outcome))
    ensures l.phase.TripSet? && Reaches(outcome)
  {
  }

  lemma SameCall(w: World, l: Local, outcome: Outcome)
    ensures NextLocal(w, l, outcome).startedAt == l.startedAt && NextLocal(w, l, outcome).parked == l.parked
  {
  }

  lemma StepRecordsTrips(w: World, e: Event)
    requires Enabled(w, e) && TokensDated(w) && TripsRecorded(w)
    ensures TripsRecorded(After(w, e))
  {
    hide NextLocal, NextStore, LocalDated;
    var w' := After(w, e);
    forall p | p in w'.locals && ReportsTrip(w'.locals[p])
      ensures exists k :: k in w'.trips && w'.locals[p].startedAt <= k < w'.clock
    {
      if e.Access? && e.p == p {
        SameCall(w, w.locals[p], e.outcome);
      }
      if ReportsTrip(w.locals[p]) {
        var k :| k in w.trips && w.locals[p].startedAt <= k < w.clock;
        assert k in w'.trips;
      } else {
        BusyStartedBefore(w, p);
        ReportFollowsTrip(w, w.locals[p], e.outcome);
        assert w.clock in w'.trips;
      }
    }
  }

  lemma BusyStartedBefore(w: World, p: Process)
    requires TokensDated(w) && p in w.locals
    ensures Busy(w.locals[p].phase) ==> w.locals[p].startedAt < w.clock
  {
    assert LocalDated(w, w.locals[p]);
  }

  /** A trip that was reported as visible happened during its call, so `OrdersFollowArms` applies to every later call. */
  lemma {:induction false} ReportedTripHappened(w: World, events: seq<Event>, p: Process)
    requires Start(w) && Legal(w, events) && p in Run(w, events).locals && ReportsTrip(Run(w, events).locals[p])
    ensures var end := Run(w, events);
            exists k :: k in end.trips && end.locals[p].startedAt <= k < end.clock
  {
    RunRecordsTrips(w, events);
  }

  lemma {:induction false} RunRecordsTrips(w: World, events: seq<Event>)
    requires Start(w) && Legal(w, events)
    ensures TripsRecorded(Run(w, events))
    decreases |events|
  {
    if events != [] {
      var front := events[..|events| - 1];
      RunRecordsTrips(w, front);
      RunHoldsTrips(w, front);
      hide TokensDated, TripsRecorded, TripsHeld;
      StepRecordsTrips(Run(w, front), events[|events| - 1]);
    }
  }

  lemma {:induction false} RunInTwo(w: World, events: seq<Event>, more: seq<Event>)
    requires Legal(w, events + more)
    ensures Legal(w, events) && Legal(Run(w, events), more)
    ensures Run(w, events + more) == Run(Run(w, events), more)
    decreases |more|
  {
    hide After, Enabled;
    if more == [] {
      assert events + more == events;
    } else {
      var all, front := events + more, more[..|more| - 1];
      assert all[..|all| - 1] == events + front;
      RunInTwo(w, events, front);
    }
  }

  /** Once a trip has been reported there is a moment at which it set the flag, during the reporting call, such that
      whatever happens after, every check that passes and every order whose call begins later follows an arm, or a loss of
      the flag, after that moment. */
  lemma ReportedTripHolds(w: World, events: seq<Event>, more: seq<Event>, p: Process)
    requires Start(w) && Legal(w, events) && Legal(w, events + more)
    requires p in Run(w, events).locals && ReportsTrip(Run(w, events).locals[p])
    ensures var mid, end := Run(w, events), Run(w, events + more);
            exists k ::
              && k in mid.trips && mid.locals[p].startedAt <= k < mid.clock
              && (forall q | q in end.locals && end.locals[q].phase == Verdict(true) && end.locals[q].startedAt >= mid.clock ::
                    ResetBetween(end, k, end.locals[q].clearedAt))
              && (forall i | 0 <= i < |end.orders| && end.orders[i].startedAt >= mid.clock ::
                    ResetBetween(end, k, end.orders[i].clearedAt))
  {
    var mid, end := Run(w, events), Run(w, events + more);
    ReportedTripHappened(w, events, p);
    var k :| k in mid.trips && mid.locals[p].startedAt <= k < mid.clock;
    RunInTwo(w, events, more);
    RunGrows(mid, more);
    forall q | q in end.locals && end.locals[q].phase == Verdict(true) && end.locals[q].startedAt >= mid.clock
      ensures ResetBetween(end, k, end.locals[q].clearedAt)
    {
      PassedChecksFollowArms(w, events + more, k, q);
    }
    forall i | 0 <= i < |end.orders| && end.orders[i].startedAt >= mid.clock
      ensures ResetBetween(end, k, end.orders[i].clearedAt)
    {
      OrdersFollowArms(w, events + more, k, i);
    }
  }

  // ---- A re-arm reaches every process ----

  predicate ActsFor(e: Event, p: Process) {
    !e.LoseFlag? && !e.LoseEpoch? && e.p == p
  }

  /** An arm token is replaced only by a later arm, or by the loss of the key. */
  lemma {:induction false} ArmStays(w: World, events: seq<Event>, p: Process)
    requires TokensDated(w) && Legal(w, events) && p in w.locals
    requires w.store.epoch.Some? && w.store.epoch.value.Arm?
    requires forall e | e in events :: !e.LoseEpoch? && !ActsFor(e, p)
    ensures var end := Run(w, events);
            && end.store.epoch.Some? && end.store.epoch.value.Arm?
            && end.store.epoch.value.at >= w.store.epoch.value.at
            && p in end.locals && end.locals[p] == w.locals[p] && TokensDated(end)
    decreases |events|
  {
    if events != [] {
      var front, e := events[..|events| - 1], events[|events| - 1];
      assert e in events && forall x | x in front :: x in events;
      ArmStays(w, front, p);
      hide TokensDated, After;
      StepKeepsDates(Run(w, front), e);
      ArmKept(Run(w, front), e, p);
    }
  }

  lemma ArmKept(w: World, e: Event, p: Process)
    requires TokensDated(w) && Enabled(w, e) && p in w.locals && w.store.epoch.Some? && w.store.epoch.value.Arm?
    requires !e.LoseEpoch? && !ActsFor(e, p)
    ensures var epoch := After(w, e).store.epoch;
            epoch.Some? && epoch.value.Arm? && epoch.value.at >= w.store.epoch.value.at
    ensures p in After(w, e).locals && After(w, e).locals[p] == w.locals[p]
  {
    hide NextLocal, LocalDated;
  }

  /** A latched process that had read a token clears at its next check after an arm, unless the key is lost meanwhile. */
  lemma ArmClearsNextCheck(w: World, p: Process, before: seq<Event>, during: seq<Event>)
    requires TokensDated(w) && p in w.locals && w.locals[p].phase.Idle? && w.locals[p].latched
    requires w.store.epoch.Some? && w.store.epoch.value.Arm?
    requires w.locals[p].observed.Some? && w.store.epoch.value.at > w.locals[p].readAt
    requires forall e | e in before + during :: !e.LoseEpoch? && !ActsFor(e, p)
    requires Legal(w, before) && Enabled(Run(w, before), Begin(p, CheckCall))
    requires Legal(After(Run(w, before), Begin(p, CheckCall)), during)
    ensures var mid := Run(After(Run(w, before), Begin(p, CheckCall)), during);
            Enabled(mid, Access(p, Answered)) && !After(mid, Access(p, Answered)).locals[p].latched
  {
    assert forall e | e in before :: e in before + during;
    assert forall e | e in during :: e in before + during;
    ArmStays(w, before, p);
    var begun := After(Run(w, before), Begin(p, CheckCall));
    StepKeepsDates(Run(w, before), Begin(p, CheckCall));
    ArmStays(begun, during, p);
    LatchLiftsOnLaterArm(Run(begun, during), p);
  }

  /** Arms that were not there before are later than everything read before. */
  lemma {:induction false} NewArmsAreLater(w: World, events: seq<Event>, a: nat)
    requires Legal(w, events) && a in Run(w, events).arms && a !in w.arms
    ensures a >= w.clock && Run(w, events).clock >= w.clock
    decreases |events|
  {
    if events != [] {
      var front, e := events[..|events| - 1], events[|events| - 1];
      hide NextLocal, NextStore;
      RunGrows(w, front);
      if a in Run(w, front).arms {
        NewArmsAreLater(w, front, a);
      }
    }
  }

  /** A latched process that had never read a token adopts the first one it reads and stays latched. */
  lemma FirstTokenIsAdopted(w: World, p: Process)
    requires TokensDated(w) && p in w.locals && w.locals[p].phase.ClearRead? && w.locals[p].latched
    requires w.locals[p].observed.None? && w.store.epoch.Some?
    ensures var w' := After(After(w, Access(p, Answered)), Finish(p));
            && TokensDated(w') && w'.arms == w.arms && w'.clock == w.clock + 2
            && var l := w'.locals[p];
               l.latched && l.phase.Idle? && l.observed == w.store.epoch && l.readAt == w.clock
  {
    StepKeepsDates(w, Access(p, Answered));
    StepKeepsDates(After(w, Access(p, Answered)), Finish(p));
    hide TokensDated;
  }

  /** It clears at its next check after any arm that commits later, unless the key is lost meanwhile. */
  lemma NextArmClearsNewcomer(w: World, p: Process, between: seq<Event>, before: seq<Event>, during: seq<Event>)
    requires TokensDated(w) && p in w.locals && w.locals[p].phase.ClearRead? && w.locals[p].latched
    requires w.locals[p].observed.None? && w.store.epoch.Some?
    requires var adopted := After(After(w, Access(p, Answered)), Finish(p));
             && Legal(adopted, between) && (forall e | e in between :: !ActsFor(e, p))
             && var armed := Run(adopted, between);
                && armed.store.epoch.Some? && armed.store.epoch.value.Arm? && armed.store.epoch.value.at !in w.arms
                && (forall e | e in before + during :: !e.LoseEpoch? && !ActsFor(e, p))
                && Legal(armed, before) && Enabled(Run(armed, before), Begin(p, CheckCall))
                && Legal(After(Run(armed, before), Begin(p, CheckCall)), during)
    ensures var armed := Run(After(After(w, Access(p, Answered)), Finish(p)), between);
            var mid := Run(After(Run(armed, before), Begin(p, CheckCall)), during);
            Enabled(mid, Access(p, Answered)) && !After(mid, Access(p, Answered)).locals[p].latched
  {
    var adopted := After(After(w, Access(p, Answered)), Finish(p));
    FirstTokenIsAdopted(w, p);
    var armed := Run(adopted, between);
    RunKeepsDates(adopted, between);
    OthersKeepLocal(adopted, between, p);
    NewArmsAreLater(adopted, between, armed.store.epoch.value.at);
    hide After, NextLocal;
    ArmClearsNextCheck(armed, p, before, during);
  }

  lemma {:induction false} OthersKeepLocal(w: World, events: seq<Event>, p: Process)
    requires Legal(w, events) && p in w.locals && forall e | e in events :: !ActsFor(e, p)
    ensures p in Run(w, events).locals && Run(w, events).locals[p] == w.locals[p]
    decreases |events|
  {
    if events != [] {
      var front, e := events[..|events| - 1], events[|events| - 1];
      assert e in events && forall x | x in front :: x in events;
      OthersKeepLocal(w, front, p);
      hide NextLocal, NextStore;
    }
  }
}
