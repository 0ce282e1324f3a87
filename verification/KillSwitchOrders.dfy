/** One check, one order: a passed order call places at most one order, and reports say what happened. */
module KillSwitchOrders {
  import opened Rounding
  import opened KillSwitchProtocol

  /** A call of `p` begun at `since` has placed an order. */
  ghost predicate HasOrdered(w: World, p: Process, since: nat) {
    exists i | 0 <= i < |w.orders| :: w.orders[i].who == p && w.orders[i].startedAt == since
  }

  /** Beginnings lie in the past; an order call that is parked or still being checked has placed no order, and is not
      both. */
  ghost predicate CallsApart(w: World, p: Process, l: Local) {
    && (!l.phase.Idle? ==> l.startedAt < w.clock && l.startedAt !in l.parked && !HasOrdered(w, p, l.startedAt))
    && forall order | order in l.parked :: order < w.clock && !HasOrdered(w, p, order)
  }

  /** No two orders come from one call. */
  ghost predicate OncePerCall(w: World) {
    && (forall i | 0 <= i < |w.orders| :: w.orders[i].startedAt < w.clock)
    && (forall i, j | 0 <= i < j < |w.orders| ::
          w.orders[i].who != w.orders[j].who || w.orders[i].startedAt != w.orders[j].startedAt)
    && forall p | p in w.locals :: CallsApart(w, p, w.locals[p])
  }

  lemma OrderedBefore(w: World, e: Event, p: Process, since: nat)
    requires Enabled(w, e) && !(e.Place? && e.p == p && e.order == since)
    ensures HasOrdered(After(w, e), p, since) ==> HasOrdered(w, p, since)
  {
    hide NextLocal, NextStore;
    var w' := After(w, e);
    if HasOrdered(w', p, since) {
      var i :| 0 <= i < |w'.orders| && w'.orders[i].who == p && w'.orders[i].startedAt == since;
      assert i < |w.orders| && w.orders[i] == w'.orders[i];
    }
  }

  lemma StillApart(w: World, e: Event, q: Process)
    requires Enabled(w, e) && OncePerCall(w) && q in w.locals && !ActsFor(e, q)
    ensures After(w, e).locals[q] == w.locals[q] && CallsApart(After(w, e), q, w.locals[q])
  {
    hide NextLocal, NextStore, HasOrdered;
    var l := w.locals[q];
    assert CallsApart(w, q, l);
    OrderedBefore(w, e, q, l.startedAt);
    forall order | order in l.parked
      ensures !HasOrdered(After(w, e), q, order)
    {
      OrderedBefore(w, e, q, order);
    }
  }

  lemma NoFutureOrder(w: World, p: Process)
    requires OncePerCall(w)
    ensures !HasOrdered(w, p, w.clock)
  {
  }

  lemma OwnApart(w: World, e: Event)
    requires Enabled(w, e) && OncePerCall(w) && !e.LoseFlag? && !e.LoseEpoch?
    ensures CallsApart(After(w, e), e.p, After(w, e).locals[e.p])
  {
    hide NextLocal, NextStore, HasOrdered;
    var w' := After(w, e);
    var l, l' := w.locals[e.p], w'.locals[e.p];
    assert CallsApart(w, e.p, l);
    if e.Access? {
      SameCall(w, l, e.outcome);
    }
    NoFutureOrder(w, e.p);
    forall order | order in l'.parked || (!l'.phase.Idle? && order == l'.startedAt)
      ensures !HasOrdered(w', e.p, order)
    {
      OrderedBefore(w, e, e.p, order);
    }
  }

  lemma StepOrdersOnce(w: World, e: Event)
    requires Enabled(w, e) && OncePerCall(w)
    ensures OncePerCall(After(w, e))
  {
    hide CallsApart, NextLocal, NextStore;
    var w' := After(w, e);
    forall q | q in w'.locals
      ensures CallsApart(w', q, w'.locals[q])
    {
      if ActsFor(e, q) {
        OwnApart(w, e);
      } else {
        StillApart(w, e, q);
      }
    }
    if e.Place? {
      PlacedOnce(w, e.p, e.order);
    }
  }

  lemma PlacedOnce(w: World, p: Process, order: nat)
    requires OncePerCall(w) && p in w.locals && order in w.locals[p].parked
    ensures order < w.clock
    ensures forall i | 0 <= i < |w.orders| :: w.orders[i].who != p || w.orders[i].startedAt != order
  {
    assert CallsApart(w, p, w.locals[p]);
  }

  /** In every run each order comes from a call of its own. */
  lemma {:induction false} RunOrdersOnce(w: World, events: seq<Event>)
    requires Start(w) && Legal(w, events)
    ensures OncePerCall(Run(w, events))
    decreases |events|
  {
    if events != [] {
      RunOrdersOnce(w, events[..|events| - 1]);
      hide OncePerCall, After, Enabled, Start;
      StepOrdersOnce(Run(w, events[..|events| - 1]), events[|events| - 1]);
    }
  }

  // ---- Reports ----

  /** An activation reports itself visible only from an unlatched process. */
  ghost predicate HonestReports(w: World) {
    forall p | p in w.locals :: w.locals[p].phase == Tripped(true) && w.locals[p].call.ActivateCall? ==> !w.locals[p].latched
  }

  lemma StepKeepsHonest(w: World, e: Event)
    requires Enabled(w, e) && HonestReports(w)
    ensures HonestReports(After(w, e))
  {
  }

  lemma {:induction false} RunReportsHonestly(w: World, events: seq<Event>)
    requires Start(w) && Legal(w, events)
    ensures HonestReports(Run(w, events))
    decreases |events|
  {
    if events != [] {
      RunReportsHonestly(w, events[..|events| - 1]);
      hide HonestReports, After, Enabled, Start;
      StepKeepsHonest(Run(w, events[..|events| - 1]), events[|events| - 1]);
    }
  }

  /** A trip sets the flag as soon as its write reaches the store; while the store answers an unlatched process, it goes on
      to report the trip as visible, in three accesses at most. */
  lemma TripTakesEffect(w: World, p: Process, outcome: Outcome)
    requires p in w.locals && (w.locals[p].phase.TripSet? || w.locals[p].phase.TripReason? || w.locals[p].phase.TripTime?)
    ensures var w' := After(w, Access(p, outcome));
            var l := w'.locals[p];
            && (w.locals[p].phase.TripSet? && Reaches(outcome) ==> w'.store.active && w.clock in w'.trips)
            && (outcome.Answered? && !w.locals[p].latched ==>
                  && !l.latched
                  && match w.locals[p].phase
                     case TripSet => l.phase == Tripped(true) || l.phase == TripReason
                     case TripReason => l.phase == TripTime
                     case _ => l.phase == Tripped(true))
  {
  }
}
