/** The live order path: safety gates in order, one exchange order per passed call, one audit entry per attempt. */
module LiveEngine {
  import opened Rounding
  import opened KillSwitchProtocol
  import opened KillSwitch

  // ---- Audit log ----

  datatype Status = BlockedPaperOnly | PendingApproval | OrderError | OrderDone

  datatype AuditEntry = AuditEntry(intent: string, status: Status)

  /** The last `n` elements; none when `n` is not positive. */
  function Last<T>(s: seq<T>, n: int): seq<T> {
    if n <= 0 then [] else if |s| <= n then s else s[|s| - n..]
  }

  lemma LastIsNewest<T>(s: seq<T>, n: int)
    ensures var r := Last(s, n);
            && |r| == (if n <= 0 then 0 else if n < |s| then n else |s|)
            && forall i | 0 <= i < |r| :: r[i] == s[|s| - |r| + i]
  {
  }

  /** Keeps the newest entries; `history` is everything ever recorded. */
  class OrderAuditor {
    const maxEntries: int
    var entries: seq<AuditEntry>
    ghost var history: seq<AuditEntry>

    ghost predicate Valid()
      reads this
    {
      entries == Last(history, maxEntries)
    }

    constructor (maxEntries: int)
      ensures this.maxEntries == maxEntries && history == [] && Valid()
    {
      this.maxEntries := maxEntries;
      entries, history := [], [];
    }

    method Record(entry: AuditEntry)
      requires Valid()
      modifies this
      ensures Valid() && history == old(history) + [entry]
    {
      history := history + [entry];
      entries := entries + [entry];
      if |entries| > maxEntries {
        entries := entries[1..];
      }
    }

    /** `entries[-limit:]`. */
    method Recent(limit: int) returns (recent: seq<AuditEntry>)
      requires Valid()
      ensures limit > 0 ==> recent == Last(history, if limit < maxEntries then limit else maxEntries)
      ensures limit == 0 ==> recent == Last(history, maxEntries)
      ensures limit < 0 ==> var kept := Last(history, maxEntries);
                            recent == if -limit < |kept| then kept[-limit..] else []
    {
      if limit > 0 {
        recent := if limit < |entries| then entries[|entries| - limit..] else entries;
      } else {
        recent := if -limit < |entries| then entries[-limit..] else [];
      }
    }
  }

  // ---- Gates ----

  datatype TradingMode = HumanApproval | Semi | Auto

  class ModeManager {
    var mode: TradingMode
    /** Every mode so far. */
    ghost var modes: seq<TradingMode>

    ghost predicate Valid()
      reads this
    {
      modes != [] && modes[|modes| - 1] == mode
    }

    constructor ()
      ensures Valid() && mode == HumanApproval
    {
      mode, modes := HumanApproval, [HumanApproval];
    }

    method SetMode(mode: TradingMode)
      modifies this
      ensures Valid() && this.mode == mode && modes == old(modes) + [mode]
    {
      this.mode, modes := mode, modes + [mode];
    }

    /** An await: others may change the mode meanwhile. */
    method Await()
      requires Valid()
      modifies this
      ensures Valid() && old(modes) <= modes
    {
      var chosen: TradingMode := *;
      var changed: bool := *;
      if changed {
        SetMode(chosen);
      }
    }
  }

  datatype PaperRecord = PaperRecord(trades: int, days: int, totalPnl: Option<real>, maxDrawdownPct: Option<real>)

  datatype PromotionGate = PromotionGate(minTrades: int, minDays: int, maxDrawdownPct: real, requireProfit: bool) {
    /** Quality checks without data are skipped. */
    predicate Passes(r: PaperRecord) {
      if r.trades < minTrades || r.days < minDays then false
      else if r.maxDrawdownPct.Some? && r.maxDrawdownPct.value > maxDrawdownPct then false
      else !(requireProfit && r.totalPnl.Some? && r.totalPnl.value < 0.0)
    }
  }

  datatype Code = KillSwitchCode | ModeCode | PromotionCode | ExchangeCode

  datatype CheckResult = CheckResult(passed: bool, code: Code)

  /** The code of the first failed check. */
  method FirstFailure(results: seq<CheckResult>) returns (failure: Option<Code>)
    ensures failure.None? <==> forall i | 0 <= i < |results| :: results[i].passed
    ensures failure.Some? ==> exists i | 0 <= i < |results| ::
              !results[i].passed && results[i].code == failure.value && forall j | 0 <= j < i :: results[j].passed
  {
    for i := 0 to |results|
      invariant forall j | 0 <= j < i :: results[j].passed
    {
      if !results[i].passed {
        return Some(results[i].code);
      }
    }
    return None;
  }

  /** With an approval the mode check, when it failed, does not count; every other check does. */
  method WithoutMode(results: seq<CheckResult>, approved: bool) returns (relevant: seq<CheckResult>)
    requires |results| == 4
    ensures relevant == if approved && !results[1].passed then [results[0], results[2], results[3]] else results
  {
    relevant := results;
    if approved && !results[1].passed {
      relevant := [results[0], results[2], results[3]];
    }
  }

  /** Why the gates hold an order back, if they do. */
  method Refusal(results: seq<CheckResult>, approved: bool) returns (failure: Option<Code>)
    requires |results| == 4
    ensures failure == if !results[0].passed then Some(results[0].code)
                       else if !approved && !results[1].passed then Some(results[1].code)
                       else if !results[2].passed then Some(results[2].code)
                       else if !results[3].passed then Some(results[3].code)
                       else None
  {
    var relevant := WithoutMode(results, approved);
    failure := FirstFailure(relevant);
    assert relevant[0] == results[0] && relevant[|relevant| - 1] == results[3];
    assert relevant[1] == results[if approved && !results[1].passed then 2 else 1];
    assert !(approved && !results[1].passed) ==> relevant[2] == results[2];
  }

  // ---- The engine ----

  datatype Result = PaperOnly | AwaitingApproval | Blocked(code: Code) | Failed | Placed
  {
    predicate Attempted() {
      Failed? || Placed?
    }
  }

  /** How the gates stood for a call: the kill switch's verdict, which the protocol reached after its first `seenAt` events,
      the mode of that moment, and the mode when all was checked. */
  datatype Gates = Gates(passed: bool, seenAt: nat, modeBefore: TradingMode, modeAfter: TradingMode)

  /** What a call comes to: a paper-only refusal, a request for approval, the first gate that blocks it, or an order. */
  ghost predicate Follows(r: Result, g: Gates, liveEnabled: bool, approved: bool, promoted: bool, connected: bool) {
    if !liveEnabled then r.PaperOnly?
    else if g.modeAfter == HumanApproval && !approved then r.AwaitingApproval?
    else if !g.passed then r == Blocked(KillSwitchCode)
    else if g.modeBefore == HumanApproval && !approved then r == Blocked(ModeCode)
    else if !promoted then r == Blocked(PromotionCode)
    else if !connected then r == Blocked(ExchangeCode)
    else r.Attempted()
  }

  /** The paper record is long enough, and not bad where it is known. */
  ghost predicate Promoted(gate: PromotionGate, r: PaperRecord) {
    && r.trades >= gate.minTrades && r.days >= gate.minDays
    && (r.maxDrawdownPct.None? || r.maxDrawdownPct.value <= gate.maxDrawdownPct)
    && (!gate.requireProfit || r.totalPnl.None? || r.totalPnl.value >= 0.0)
  }

  /** What stood at the gate when an order went out. */
  datatype Passage = Passage(approved: bool, mode: TradingMode)

  class LiveTradingEngine {
    const killSwitch: Switch
    const modeManager: ModeManager
    const gate: PromotionGate
    const auditor: OrderAuditor
    /** One passage per order attempted. */
    ghost var passages: seq<Passage>

    ghost predicate Valid()
      reads this, killSwitch, killSwitch.store, modeManager, auditor
    {
      killSwitch.At(Idle) && modeManager.Valid() && auditor.Valid()
    }

    constructor (killSwitch: Switch, modeManager: ModeManager, gate: PromotionGate, auditor: OrderAuditor)
      requires killSwitch.At(Idle) && modeManager.Valid() && auditor.Valid()
      ensures Valid() && this.killSwitch == killSwitch && this.modeManager == modeManager && this.gate == gate
      ensures this.auditor == auditor && passages == []
    {
      this.killSwitch := killSwitch;
      this.modeManager := modeManager;
      this.gate := gate;
      this.auditor := auditor;
      passages := [];
    }

    /** Whether the order call has passed the kill switch and is still under way. */
    ghost predicate UnderWay(order: Option<nat>)
      requires killSwitch.me in killSwitch.store.world.locals
      reads killSwitch.store
    {
      order.Some? ==> order.value in killSwitch.store.world.locals[killSwitch.me].parked
    }

    /** The protocol saw an order call of this process, begun no earlier than `since`, end its check with `passed` after the
        first `n` events. */
    ghost predicate SawVerdict(n: nat, passed: bool, since: nat)
      reads killSwitch.store
    {
      && n <= |killSwitch.store.events| && Legal(killSwitch.store.origin, killSwitch.store.events[..n])
      && var w := Run(killSwitch.store.origin, killSwitch.store.events[..n]);
         killSwitch.me in w.locals
         && var l := w.locals[killSwitch.me]; l.phase == Verdict(passed) && l.call.OrderCall? && l.startedAt >= since
    }

    /** Kill switch, mode, promotion, exchange: in that order, each evaluated whatever the others say. */
    method CheckPreTrade(record: PaperRecord, connected: bool)
        returns (results: seq<CheckResult>, order: Option<nat>, ghost seenAt: nat)
      requires killSwitch.At(Idle) && modeManager.Valid()
      modifies killSwitch, killSwitch.store, modeManager
      ensures killSwitch.At(Idle) && modeManager.Valid() && old(modeManager.modes) <= modeManager.modes
      ensures |results| == 4
      ensures results[0].code == KillSwitchCode && (results[0].passed <==> order.Some?) && UnderWay(order)
      ensures results[1] == CheckResult(old(modeManager.mode) != HumanApproval, ModeCode)
      ensures SawVerdict(seenAt, results[0].passed, old(killSwitch.store.world.clock))
      ensures results[2] == CheckResult(Promoted(gate, record), PromotionCode)
      ensures results[3] == CheckResult(connected, ExchangeCode)
      ensures killSwitch.OwnOrders() == old(killSwitch.OwnOrders())
      ensures Grows(old(killSwitch.store.world), killSwitch.store.world)
      ensures order.Some? ==> order.value >= old(killSwitch.store.world.clock)
    {
      hide After, Run, Legal, Enabled, NextLocal, NextStore, OrdersBy;
      var passed := killSwitch.Check(OrderCall);
      seenAt := |killSwitch.store.events|;
      ghost var seen := killSwitch.store.events;
      assert seen[..seenAt] == seen;
      order := LeaveCheck(passed);
      assert killSwitch.store.events[..seenAt] == seen;
      results := [CheckResult(passed, KillSwitchCode)];
      results := results + [CheckResult(modeManager.mode != HumanApproval, ModeCode)];
      // The paper record comes from the database.
      modeManager.Await();
      results := results + [CheckResult(gate.Passes(record), PromotionCode)];
      results := results + [CheckResult(connected, ExchangeCode)];
    }

    /** Attempts an exchange order only behind every gate, with the mode as it is at that moment; `orderFails` is the
        exchange raising. The order is one this call checked, so every trip on record before the call was followed by an
        arm, or a loss of the flag. */
    method ExecuteSignal(liveEnabled: bool, approved: bool, intent: string, record: PaperRecord, connected: bool,
                         orderFails: bool) returns (result: Result, ghost gates: Gates)
      requires Valid()
      modifies this, killSwitch, killSwitch.store, modeManager, auditor
      ensures Valid()
      ensures old(modeManager.modes) <= modeManager.modes
      ensures Follows(result, gates, liveEnabled, approved, Promoted(gate, record), connected)
      ensures liveEnabled ==>
                && gates.modeBefore == old(modeManager.mode)
                && gates.modeAfter in modeManager.modes[|old(modeManager.modes)| - 1..]
                && SawVerdict(gates.seenAt, gates.passed, old(killSwitch.store.world.clock))
      ensures result.Failed? <==> result.Attempted() && orderFails
      ensures result.Attempted() ==>
                && |passages| == |old(passages)| + 1 && old(passages) <= passages
                && var passage := passages[|old(passages)|];
                   passage.approved == approved && (approved || passage.mode != HumanApproval)
      ensures !result.Attempted() ==> passages == old(passages)
      ensures killSwitch.OwnOrders() == old(killSwitch.OwnOrders()) + if result.Attempted() then 1 else 0
      ensures Grows(old(killSwitch.store.world), killSwitch.store.world)
      ensures result.Attempted() ==>
                exists i | |old(killSwitch.store.world.orders)| <= i < |killSwitch.store.world.orders| ::
                  var order := killSwitch.store.world.orders[i];
                  order.who == killSwitch.me && order.startedAt >= old(killSwitch.store.world.clock)
      ensures result.Attempted() && Start(killSwitch.store.origin) ==>
                forall trip | trip in old(killSwitch.store.world.trips) ::
                  ResetBetween(killSwitch.store.world, trip, killSwitch.store.world.clock)
      ensures auditor.history == match result
                case PaperOnly => old(auditor.history) + [AuditEntry(intent, BlockedPaperOnly)]
                case AwaitingApproval => old(auditor.history) + [AuditEntry(intent, PendingApproval)]
                case Blocked(_) => old(auditor.history)
                case Failed => old(auditor.history) + [AuditEntry(intent, OrderError)]
                case Placed => old(auditor.history) + [AuditEntry(intent, OrderDone)]
    {
      hide After, Run, Legal, Enabled, NextLocal, NextStore, Last, OrdersBy, NotBy, ResetBetween, Promoted;
      gates := Gates(false, 0, modeManager.mode, modeManager.mode);
      if !liveEnabled {
        auditor.Record(AuditEntry(intent, BlockedPaperOnly));
        result := PaperOnly;
        return;
      }
      TripsAreDated(killSwitch.store);
      var results, order, seenAt := CheckPreTrade(record, connected);
      gates := Gates(results[0].passed, seenAt, gates.modeBefore, modeManager.mode);
      ghost var seen := killSwitch.store.events[..seenAt];
      result := Proceed(results, order, approved, intent, orderFails);
      assert killSwitch.store.events[..seenAt] == seen;
      if result.Attempted() {
        OrderFollowsTrips(killSwitch.store, old(killSwitch.store.world), |killSwitch.store.world.orders| - 1);
      }
    }

    /** From the checks to the end of the call, with the mode as it is by then. */
    method Proceed(results: seq<CheckResult>, order: Option<nat>, approved: bool, intent: string, orderFails: bool)
        returns (result: Result)
      requires Valid() && UnderWay(order) && |results| == 4 && (results[0].passed <==> order.Some?)
      modifies this`passages, killSwitch.store, modeManager, auditor
      ensures Valid() && old(modeManager.modes) <= modeManager.modes
      ensures result == if old(modeManager.mode) == HumanApproval && !approved then AwaitingApproval
                        else if !results[0].passed then Blocked(results[0].code)
                        else if !approved && !results[1].passed then Blocked(results[1].code)
                        else if !results[2].passed then Blocked(results[2].code)
                        else if !results[3].passed then Blocked(results[3].code)
                        else if orderFails then Failed else Placed
      ensures Grows(old(killSwitch.store.world), killSwitch.store.world)
      ensures old(killSwitch.store.events) <= killSwitch.store.events
      ensures killSwitch.OwnOrders() == old(killSwitch.OwnOrders()) + if result.Attempted() then 1 else 0
      ensures result.Attempted() ==>
                var orders := killSwitch.store.world.orders;
                && |orders| > |old(killSwitch.store.world.orders)|
                && orders[|orders| - 1].who == killSwitch.me && orders[|orders| - 1].startedAt == order.value
      ensures passages == old(passages)
                          + if result.Attempted() then [Passage(approved, old(modeManager.mode))] else []
      ensures auditor.history == old(auditor.history) + match result
                case AwaitingApproval => [AuditEntry(intent, PendingApproval)]
                case Failed => [AuditEntry(intent, OrderError)]
                case Placed => [AuditEntry(intent, OrderDone)]
                case _ => []
    {
      hide After, Run, Legal, Enabled, NextLocal, NextStore, Last, OrdersBy, NotBy;
      if modeManager.mode == HumanApproval && !approved {
        auditor.Record(AuditEntry(intent, PendingApproval));
        GiveUp(order);
        return AwaitingApproval;
      }
      var failure := Refusal(results, approved);
      if failure.Some? {
        GiveUp(order);
        return Blocked(failure.value);
      }
      PlaceOrder(order.value, approved);
      if orderFails {
        auditor.Record(AuditEntry(intent, OrderError));
        return Failed;
      }
      auditor.Record(AuditEntry(intent, OrderDone));
      return Placed;
    }

    /** A passed order call stays under way while it looks at its other gates; a failed one is over. */
    method LeaveCheck(passed: bool) returns (order: Option<nat>)
      requires killSwitch.At(Verdict(passed)) && killSwitch.Call().OrderCall?
      modifies killSwitch.store
      ensures killSwitch.At(Idle) && killSwitch.OwnOrders() == old(killSwitch.OwnOrders())
      ensures (passed <==> order.Some?) && UnderWay(order)
      ensures Grows(old(killSwitch.store.world), killSwitch.store.world)
      ensures order.Some? ==> order.value == old(killSwitch.StartedAt())
      ensures old(killSwitch.store.events) <= killSwitch.store.events
    {
      hide Run, Legal, OrdersBy;
      if passed {
        var parked, others := killSwitch.store.Park(killSwitch.me);
        order := Some(parked);
      } else {
        var others := killSwitch.store.End(killSwitch.me);
        order := None;
      }
    }

    method GiveUp(order: Option<nat>)
      requires killSwitch.At(Idle) && UnderWay(order)
      modifies killSwitch.store
      ensures killSwitch.At(Idle) && killSwitch.OwnOrders() == old(killSwitch.OwnOrders())
      ensures order.Some? ==> !UnderWay(order)
      ensures Grows(old(killSwitch.store.world), killSwitch.store.world)
      ensures old(killSwitch.store.events) <= killSwitch.store.events
    {
      hide Run, Legal, OrdersBy;
      if order.Some? {
        var others := killSwitch.store.DropOrder(killSwitch.me, order.value);
      }
    }

    /** The exchange call is awaited: the mode that counts is the one when it goes out. */
    method PlaceOrder(order: nat, approved: bool)
      requires killSwitch.At(Idle) && UnderWay(Some(order)) && modeManager.Valid()
      modifies this`passages, killSwitch.store, modeManager
      ensures killSwitch.At(Idle) && killSwitch.OwnOrders() == old(killSwitch.OwnOrders()) + 1
      ensures Grows(old(killSwitch.store.world), killSwitch.store.world)
      ensures old(killSwitch.store.events) <= killSwitch.store.events
      ensures var orders := killSwitch.store.world.orders;
              |orders| > |old(killSwitch.store.world.orders)|
              && orders[|orders| - 1].who == killSwitch.me && orders[|orders| - 1].startedAt == order
      ensures passages == old(passages) + [Passage(approved, old(modeManager.mode))]
      ensures modeManager.Valid() && old(modeManager.modes) <= modeManager.modes
    {
      hide Run, Legal, OrdersBy;
      passages := passages + [Passage(approved, modeManager.mode)];
      var others := killSwitch.store.PlaceOrder(killSwitch.me, order);
      modeManager.Await();
    }

    /** A breach trips the switch, setting the shared flag unless the store failed and latched this process, and then forces
        human approval; the open orders are cancelled afterwards, and others may change the mode again while that is
        awaited. */
    method EvaluateDrawdown(drawdownPct: real) returns (tripped: bool)
      requires Valid()
      modifies killSwitch, killSwitch.store, modeManager
      ensures Valid()
      ensures tripped == (drawdownPct >= killSwitch.maxDrawdownPct)
      ensures Grows(old(killSwitch.store.world), killSwitch.store.world)
      ensures tripped && !killSwitch.failClosed ==> killSwitch.TrippedSince(old(killSwitch.store.world.clock))
      ensures tripped ==> old(modeManager.modes) + [HumanApproval] <= modeManager.modes
      ensures !tripped ==> modeManager.modes == old(modeManager.modes) && killSwitch.store.world == old(killSwitch.store.world)
    {
      hide After, Run, Legal, Enabled, NextLocal, NextStore;
      tripped := killSwitch.AutoTrigger(drawdownPct);
      if tripped {
        modeManager.SetMode(HumanApproval);
        FinishTrip();
        modeManager.Await();
      }
    }

    method FinishTrip()
      requires killSwitch.At(Tripped(true))
      modifies killSwitch.store
      ensures killSwitch.At(Idle) && Grows(old(killSwitch.store.world), killSwitch.store.world)
    {
      var others := killSwitch.store.End(killSwitch.me);
    }

    /** The law across the two calls: a signal taken after a drawdown tripped the switch on an answering store attempts no
        order unless an arm, or a loss of the flag, came after the trip. */
    method DrawdownThenSignal(drawdownPct: real, liveEnabled: bool, approved: bool, intent: string, record: PaperRecord,
                              connected: bool, orderFails: bool)
        returns (tripped: bool, healthy: bool, result: Result, ghost trip: nat)
      requires Valid() && Start(killSwitch.store.origin)
      modifies this, killSwitch, killSwitch.store, modeManager, auditor
      ensures Valid() && tripped == (drawdownPct >= killSwitch.maxDrawdownPct)
      ensures tripped && healthy ==>
                && trip in killSwitch.store.world.trips && trip >= old(killSwitch.store.world.clock)
                && (result.Attempted() ==> ResetBetween(killSwitch.store.world, trip, killSwitch.store.world.clock))
    {
      hide After, Run, Legal, Enabled, NextLocal, NextStore, ResetBetween;
      tripped := EvaluateDrawdown(drawdownPct);
      healthy := !killSwitch.failClosed;
      trip := 0;
      if tripped && healthy {
        trip :| trip in killSwitch.store.world.trips && old(killSwitch.store.world.clock) <= trip;
      }
      ghost var gates: Gates;
      result, gates := ExecuteSignal(liveEnabled, approved, intent, record, connected, orderFails);
    }
  }

  lemma TripsAreDated(store: SharedStore)
    requires store.Valid()
    ensures Start(store.origin) ==> forall trip | trip in store.world.trips :: trip < store.world.clock
  {
    if Start(store.origin) {
      RunHoldsTrips(store.origin, store.events);
    }
  }

  /** An order of a call that began after `before` follows a reset of every trip on record by then. */
  lemma OrderFollowsTrips(store: SharedStore, before: World, i: nat)
    requires store.Valid() && Grows(before, store.world)
    requires i < |store.world.orders| && store.world.orders[i].startedAt >= before.clock
    requires Start(store.origin) ==> forall trip | trip in before.trips :: trip < before.clock
    ensures Start(store.origin) ==>
              forall trip | trip in before.trips :: ResetBetween(store.world, trip, store.world.clock)
  {
    if Start(store.origin) {
      RunHoldsTrips(store.origin, store.events);
      forall trip | trip in before.trips
        ensures ResetBetween(store.world, trip, store.world.clock)
      {
        OrderNeedsArmAfterTrip(store, trip, i);
      }
    }
  }

  /** Whatever the engines and switches on a store have done, an order whose call began after a trip followed a re-arm. */
  lemma OrderNeedsArmAfterTrip(store: SharedStore, trip: nat, i: nat)
    requires store.Valid() && Start(store.origin)
    requires trip in store.world.trips && i < |store.world.orders| && trip < store.world.orders[i].startedAt
    ensures ResetBetween(store.world, trip, store.world.orders[i].clearedAt)
  {
    OrdersFollowArms(store.origin, store.events, trip, i);
  }
}
