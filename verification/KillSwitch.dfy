/** One process's kill switch: its fields, and its methods as they call the shared store, under arbitrary interference. */
module KillSwitch {
  import opened Rounding
  import opened KillSwitchProtocol
  import opened KillSwitchRearm

  ghost predicate NotBy(p: Process, events: seq<Event>) {
    forall e | e in events :: !ActsFor(e, p)
  }

  /** Orders placed by `p`. */
  function OrdersBy(orders: seq<Order>, p: Process): nat {
    if orders == [] then 0
    else OrdersBy(orders[..|orders| - 1], p) + if orders[|orders| - 1].who == p then 1 else 0
  }

  /** The store and everything the other processes do to it. Each method lets them run before its own access. */
  class SharedStore {
    var world: World
    ghost const origin: World
    /** All that happened since, in order. */
    ghost var events: seq<Event>

    /** The world is where the protocol's steps have led. */
    ghost predicate Valid()
      reads this
    {
      Legal(origin, events) && world == Run(origin, events)
    }

    constructor (world: World)
      ensures this.world == world && origin == world && events == [] && Valid()
    {
      this.world := world;
      origin := world;
      events := [];
    }

    lemma OneMore(step: Event)
      requires Valid() && Enabled(world, step)
      ensures Legal(origin, events + [step]) && Run(origin, events + [step]) == After(world, step)
    {
      hide After, Enabled;
      assert (events + [step])[..|events + [step]| - 1] == events;
    }

    /** `step` happened at a moment the others chose. */
    twostate predicate Happened(p: Process, step: Event, others: seq<Event>)
      reads this
    {
      && NotBy(p, others) && Legal(old(world), others)
      && Enabled(Run(old(world), others), step)
      && world == After(Run(old(world), others), step)
      && p in old(world).locals && p in Run(old(world), others).locals
      && Run(old(world), others).locals[p] == old(world).locals[p]
      && events == old(events) + others + [step]
    }

    method Start(p: Process, call: Call) returns (ghost others: seq<Event>)
      requires p in world.locals && world.locals[p].phase.Idle?
      requires Valid()
      modifies this
      ensures Valid()
      ensures Happened(p, Begin(p, call), others)
      ensures Grows(old(world), world)
      ensures OrdersBy(world.orders, p) == OrdersBy(old(world).orders, p)
      ensures var l := old(world).locals[p];
              p in world.locals
              && world.locals[p] == l.(call := call, phase := FirstPhase(call, l.latched),
                                       startedAt := Run(old(world), others).clock)
      ensures world.locals[p].startedAt >= old(world).clock
    {
      others := [];
      OneMore(Begin(p, call));
      events := events + [Begin(p, call)];
      StepGrows(world, Begin(p, call));
      world := After(world, Begin(p, call));
    }

    /** One store call. Whether it answers, and whether a failed write got through, is not for the caller to choose. */
    method Perform(p: Process) returns (answered: bool, seen: Store, stamp: nat, ghost outcome: Outcome,
                                        ghost others: seq<Event>)
      requires p in world.locals && Busy(world.locals[p].phase)
      requires Valid()
      modifies this
      ensures Valid()
      ensures Happened(p, Access(p, outcome), others)
      ensures Grows(old(world), world)
      ensures OrdersBy(world.orders, p) == OrdersBy(old(world).orders, p)
      ensures p in world.locals
              && world.locals[p] == NextLocal(Run(old(world), others), old(world).locals[p], outcome)
              && world.locals[p].startedAt == old(world).locals[p].startedAt
      ensures answered == outcome.Answered?
      ensures seen == Run(old(world), others).store && stamp == Run(old(world), others).clock
    {
      var chosen: Outcome := *;
      others, outcome := [], chosen;
      seen, stamp, answered := world.store, world.clock, chosen.Answered?;
      SameCall(world, world.locals[p], chosen);
      OneMore(Access(p, chosen));
      events := events + [Access(p, chosen)];
      StepGrows(world, Access(p, chosen));
      world := After(world, Access(p, chosen));
    }

    method End(p: Process) returns (ghost others: seq<Event>)
      requires p in world.locals && !world.locals[p].phase.Idle? && !Busy(world.locals[p].phase)
      requires Valid()
      modifies this
      ensures Valid()
      ensures Happened(p, Finish(p), others)
      ensures Grows(old(world), world)
      ensures OrdersBy(world.orders, p) == OrdersBy(old(world).orders, p)
    {
      others := [];
      OneMore(Finish(p));
      events := events + [Finish(p)];
      StepGrows(world, Finish(p));
      world := After(world, Finish(p));
    }

    /** The order call has passed the check and goes on to its other gates; `order` names it from here on. */
    method Park(p: Process) returns (order: nat, ghost others: seq<Event>)
      requires p in world.locals && world.locals[p].phase == Verdict(true) && world.locals[p].call.OrderCall?
      requires Valid()
      modifies this
      ensures Valid()
      ensures Happened(p, KillSwitchProtocol.Park(p), others)
      ensures Grows(old(world), world)
      ensures OrdersBy(world.orders, p) == OrdersBy(old(world).orders, p)
      ensures order in world.locals[p].parked && order == old(world).locals[p].startedAt
    {
      others, order := [], world.locals[p].startedAt;
      OneMore(KillSwitchProtocol.Park(p));
      events := events + [KillSwitchProtocol.Park(p)];
      StepGrows(world, KillSwitchProtocol.Park(p));
      world := After(world, KillSwitchProtocol.Park(p));
    }

    method PlaceOrder(p: Process, order: nat) returns (ghost others: seq<Event>)
      requires p in world.locals && order in world.locals[p].parked
      requires Valid()
      modifies this
      ensures Valid()
      ensures Happened(p, Place(p, order), others)
      ensures Grows(old(world), world)
      ensures OrdersBy(world.orders, p) == OrdersBy(old(world).orders, p) + 1
      ensures |world.orders| > |old(world).orders|
              && world.orders[|world.orders| - 1].who == p && world.orders[|world.orders| - 1].startedAt == order
    {
      others := [];
      OneMore(Place(p, order));
      events := events + [Place(p, order)];
      StepGrows(world, Place(p, order));
      world := After(world, Place(p, order));
      assert world.orders[..|world.orders| - 1] == old(world).orders;
    }

    /** The order call ends at another gate. */
    method DropOrder(p: Process, order: nat) returns (ghost others: seq<Event>)
      requires p in world.locals && order in world.locals[p].parked
      requires Valid()
      modifies this
      ensures Valid()
      ensures Happened(p, Drop(p, order), others)
      ensures p in world.locals && order !in world.locals[p].parked
      ensures Grows(old(world), world)
      ensures OrdersBy(world.orders, p) == OrdersBy(old(world).orders, p)
    {
      others := [];
      OneMore(Drop(p, order));
      events := events + [Drop(p, order)];
      StepGrows(world, Drop(p, order));
      world := After(world, Drop(p, order));
    }
  }

  class Switch {
    const me: Process
    const store: SharedStore
    const maxDrawdownPct: real
    var failClosed: bool
    var observedArmEpoch: Option<Token>

    /** The fields are this process's part of the protocol state, at `phase` of a call of kind `call`. */
    ghost predicate At(phase: Phase)
      reads this, store
    {
      && store.Valid() && me in store.world.locals
      && var l := store.world.locals[me];
         l.latched == failClosed && l.observed == observedArmEpoch && l.phase == phase
    }

    function Call(): Call
      requires me in store.world.locals
      reads store
    {
      store.world.locals[me].call
    }

    /** When the current call began. */
    function StartedAt(): nat
      requires me in store.world.locals
      reads store
    {
      store.world.locals[me].startedAt
    }

    ghost function OwnOrders(): nat
      reads store
    {
      OrdersBy(store.world.orders, me)
    }

    /** On a store with a regular start, the flag was set at or after `since`. */
    ghost predicate TrippedSince(since: nat)
      reads store
    {
      KillSwitchProtocol.Start(store.origin) ==>
        exists k :: k in store.world.trips && since <= k < store.world.clock
    }

    /** The flag is clear and the token is that of an arm at or after `since`. */
    ghost predicate JustArmed(since: nat)
      reads this, store
    {
      && !store.world.store.active && store.world.store.epoch == observedArmEpoch
      && exists a :: a in store.world.arms && since <= a < store.world.clock && observedArmEpoch == Some(Arm(a))
    }

    /** A call that reports a trip has set the flag since it began. */
    lemma ReportIsTrip(since: nat)
      requires store.Valid() && me in store.world.locals && ReportsTrip(store.world.locals[me]) && StartedAt() >= since
      ensures TrippedSince(since)
    {
      if KillSwitchProtocol.Start(store.origin) {
        ReportedTripHappened(store.origin, store.events, me);
      }
    }

    constructor (me: Process, store: SharedStore, maxDrawdownPct: real)
      requires store.Valid() && me in store.world.locals
      requires var l := store.world.locals[me]; !l.latched && l.observed.None? && l.phase.Idle?
      ensures this.me == me && this.store == store && this.maxDrawdownPct == maxDrawdownPct && At(Idle)
    {
      this.me := me;
      this.store := store;
      this.maxDrawdownPct := maxDrawdownPct;
      failClosed := false;
      observedArmEpoch := None;
    }

    /** Looks for a re-arm published elsewhere; a missing token, the same token or a baseline never lifts the latch. */
    method MaybeClearLatch()
      requires At(ClearRead) && failClosed
      modifies this, store
      ensures Grows(old(store.world), store.world)
      ensures me in store.world.locals && StartedAt() == old(StartedAt())
      ensures OwnOrders() == old(OwnOrders())
      ensures At(if failClosed then Verdict(false) else ObserveRead) && Call() == old(Call())
    {
      hide After, Run, Legal, Enabled, NextStore, OrdersBy, NotBy;
      var answered, seen, _, outcome, others := store.Perform(me);
      if !answered || seen.epoch.None? {
        return;
      }
      if observedArmEpoch.None? {
        observedArmEpoch := seen.epoch;
        return;
      }
      if seen.epoch == observedArmEpoch {
        return;
      }
      observedArmEpoch := seen.epoch;
      if seen.epoch.value.Arm? {
        failClosed := false;
      }
    }

    /** Remembers the current token while the store answers, publishing a baseline on an empty store. */
    method ObserveArmEpoch()
      requires At(ObserveRead) && !failClosed
      modifies this, store
      ensures Grows(old(store.world), store.world)
      ensures me in store.world.locals && StartedAt() == old(StartedAt())
      ensures OwnOrders() == old(OwnOrders())
      ensures At(if failClosed then Verdict(false) else FlagRead) && Call() == old(Call())
      ensures !failClosed ==> store.world.store.epoch.None? || store.world.store.epoch == observedArmEpoch
    {
      hide After, Run, Legal, Enabled, NextStore, OrdersBy, NotBy;
      ghost var before := store.world;
      var answered, seen, stamp, outcome, others := store.Perform(me);
      BaselineIsStored(Run(before, others), me, outcome);
      if !answered {
        failClosed := true;
        return;
      }
      if seen.epoch.Some? {
        observedArmEpoch := seen.epoch;
        return;
      }
      before := store.world;
      answered, seen, stamp, outcome, others := store.Perform(me);
      BaselineIsStored(Run(before, others), me, outcome);
      if answered && seen.epoch.None? {
        observedArmEpoch := Some(Baseline(stamp));
        return;
      }
      if !answered {
        failClosed := true;
      }
      before := store.world;
      answered, seen, stamp, outcome, others := store.Perform(me);
      BaselineIsStored(Run(before, others), me, outcome);
      if !answered {
        failClosed := true;
      } else if seen.epoch.Some? {
        observedArmEpoch := seen.epoch;
      }
    }

    /** Reports the switch; inactive means the flag was read clear by an unlatched process. */
    method IsActive() returns (active: bool)
      requires me in store.world.locals && (Call().CheckCall? || Call().OrderCall?)
      requires At(FirstPhase(Call(), failClosed))
      modifies this, store
      ensures Grows(old(store.world), store.world)
      ensures me in store.world.locals && StartedAt() == old(StartedAt())
      ensures OwnOrders() == old(OwnOrders())
      ensures At(if failClosed then Verdict(false) else if active then ReasonRead else Verdict(true))
      ensures failClosed ==> active
      ensures Call() == old(Call())
    {
      hide After, Run, Legal, Enabled, NextStore, OrdersBy, NotBy;
      if failClosed {
        MaybeClearLatch();
        if failClosed {
          return true;
        }
      }
      ObserveArmEpoch();
      if failClosed {
        return true;
      }
      var answered, seen, _, outcome, others := store.Perform(me);
      if !answered {
        failClosed := true;
        return true;
      }
      active := seen.active;
    }

    /** The pre-trade check, begun as a call of kind `call`. */
    method Check(call: KillSwitchProtocol.Call) returns (passed: bool)
      requires At(Idle) && (call.CheckCall? || call.OrderCall?)
      modifies this, store
      ensures Grows(old(store.world), store.world)
      ensures me in store.world.locals && StartedAt() >= old(store.world.clock)
      ensures OwnOrders() == old(OwnOrders())
      ensures At(Verdict(passed)) && Call() == call
      ensures passed ==> !failClosed
    {
      hide After, Run, Legal, Enabled, NextStore, OrdersBy, NotBy;
      var _ := store.Start(me, call);
      var active := IsActive();
      if failClosed {
        return false;
      }
      if active {
        var answered, _, _, outcome, others := store.Perform(me);
        if !answered {
          failClosed := true;
        }
        return false;
      }
      return true;
    }

    /** Sets the flag unless it is set, and notes who and when; a failure latches this process. */
    method Trip()
      requires At(TripSet)
      modifies this, store
      ensures Grows(old(store.world), store.world)
      ensures me in store.world.locals && StartedAt() == old(StartedAt())
      ensures OwnOrders() == old(OwnOrders())
      ensures me in store.world.locals && Call() == old(Call())
      ensures At(Tripped(!failClosed || Call().AutoTriggerCall?))
    {
      hide After, Run, Legal, Enabled, NextStore, OrdersBy, NotBy;
      var answered, seen, stamp, outcome, others := store.Perform(me);
      if !answered {
        failClosed := true;
      }
      if failClosed || seen.active {
        return;
      }
      answered, seen, stamp, outcome, others := store.Perform(me);
      if !answered {
        failClosed := true;
      }
      answered, seen, stamp, outcome, others := store.Perform(me);
      if !answered {
        failClosed := true;
      }
    }

    /** True means every process sees the trip: `ReportedTripHappened`. */
    method Activate() returns (visible: bool)
      requires At(Idle)
      modifies this, store
      ensures Grows(old(store.world), store.world)
      ensures me in store.world.locals && StartedAt() >= old(store.world.clock)
      ensures OwnOrders() == old(OwnOrders())
      ensures At(Tripped(visible)) && Call().ActivateCall?
      ensures visible == !failClosed
      ensures visible ==> TrippedSince(old(store.world.clock))
    {
      hide After, Run, Legal, Enabled, NextStore, OrdersBy, NotBy;
      var _ := store.Start(me, ActivateCall);
      Trip();
      visible := !failClosed;
      if visible {
        ReportIsTrip(old(store.world.clock));
      }
    }

    method AutoTrigger(drawdownPct: real) returns (tripped: bool)
      requires At(Idle)
      modifies this, store
      ensures Grows(old(store.world), store.world)
      ensures OwnOrders() == old(OwnOrders())
      ensures tripped == (drawdownPct >= maxDrawdownPct)
      ensures !tripped ==> At(Idle) && store.world == old(store.world)
      ensures tripped ==> At(Tripped(true)) && Call().AutoTriggerCall? && StartedAt() >= old(store.world.clock)
      ensures tripped && !failClosed ==> TrippedSince(old(store.world.clock))
    {
      hide After, Run, Legal, Enabled, NextStore, OrdersBy, NotBy;
      if drawdownPct < maxDrawdownPct {
        return false;
      }
      var _ := store.Start(me, AutoTriggerCall);
      Trip();
      tripped := true;
      if !failClosed {
        ReportIsTrip(old(store.world.clock));
      }
    }

    method Rearm() returns (done: bool)
      requires At(Idle)
      modifies this, store
      ensures Grows(old(store.world), store.world)
      ensures me in store.world.locals && StartedAt() >= old(store.world.clock)
      ensures OwnOrders() == old(OwnOrders())
      ensures At(Armed(done)) && done == !failClosed
      ensures done ==> JustArmed(old(store.world.clock))
    {
      hide After, Run, Legal, Enabled, NextStore, OrdersBy, NotBy;
      var _ := store.Start(me, ArmCall);
      ghost var before := store.world;
      var answered, _, stamp, outcome, others := store.Perform(me);
      if !answered {
        failClosed := true;
        return false;
      }
      observedArmEpoch := Some(Arm(stamp));
      failClosed := false;
      RunGrows(before, others);
      ArmTakesEffect(Run(before, others), me);
      return true;
    }
  }
}
