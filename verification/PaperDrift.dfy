/** How far stored cash may stand from the exact flows, and what the order table keeps. */
module PaperDrift {
  import opened Rounding
  import opened PaperModel
  import opened PaperTotals
  import opened PaperAccounting
  import opened PaperEngine
  import opened PaperRepository
  import opened PaperLedger
  import opened PaperRoundTrip

  // ---- Cash ----

  /** What the recorded closure did to cash. */
  function ExitFlow(t: ClosedTrade): real {
    var value := t.quantity * t.exitPrice;
    if t.side.Long? then value - t.exitCommission - t.carry else -(value + t.exitCommission + t.carry)
  }

  function ExitFlows(ts: seq<ClosedTrade>): real {
    if ts == [] then 0.0 else ExitFlows(ts[..|ts| - 1]) + ExitFlow(ts[|ts| - 1])
  }

  /** Cash moved by the recorded fill and closures of a change, unrounded. */
  function Flow(change: Change): real
    requires change.Change?
  {
    ExitFlows(change.closed) + if change.filled.Some? then Measured(EntryCash, change.filled.value) else 0.0
  }

  lemma CloseFlow(c: Config, s: Portfolio, id: Id, price: real, reason: ExitReason, when: Time)
    ensures var (s', trade) := Close(c, s, id, price, reason, when);
            s'.cash == s.cash + if trade.Some? then ExitFlow(trade.value) else 0.0
  {
    hide ExitFill, ExitPnl, Equity, CarryCost, Round2, Round4, PercentOf, ExitCommission;
  }

  lemma ExitFlowsOneMore(ts: seq<ClosedTrade>, t: ClosedTrade)
    ensures ExitFlows(ts + [t]) == ExitFlows(ts) + ExitFlow(t)
  {
    assert (ts + [t])[..|ts|] == ts;
  }

  lemma {:induction false} ExitsFlow(c: Config, s: Portfolio, todo: seq<Position>, k: Candle, when: Time)
    ensures var (s', closed) := CheckExits(c, s, todo, k, when); s'.cash == s.cash + ExitFlows(closed)
    decreases |todo|
  {
    hide Close, Exit, ExitFlow;
    if todo != [] {
      var front, p := todo[..|todo| - 1], todo[|todo| - 1];
      ExitsFlow(c, s, front, k, when);
      var (s1, closed) := CheckExits(c, s, front, k, when);
      var exit := if p.symbol == k.symbol then Exit(p, k) else None;
      if exit.Some? {
        CloseFlow(c, s1, p.id, exit.value.0, exit.value.1, when);
        var trade := Close(c, s1, p.id, exit.value.0, exit.value.1, when).1;
        if trade.Some? {
          ExitFlowsOneMore(closed, trade.value);
        }
      }
    }
  }

  /** In the engine, cash moves by exactly the recorded flows. */
  lemma MutateFlows(c: Settings, s: Portfolio, w: Write)
    requires Mutate(c, s, w).Change?
    ensures Mutate(c, s, w).portfolio.cash == s.cash + Flow(Mutate(c, s, w))
  {
    match w
    case CandleClose(k, when) =>
      ExitsFlow(c, s, s.positions, k, when);
      hide CheckExits, Equity;
    case Fill(r, now, newId, _) =>
      FillParts(c, s, r, now, newId);
      hide Execute, Close, ExitFlow, AffordableQuantity, Measured, Open;
      var outcome := Execute(c, s, r, now, newId).1;
      var i := FindSymbol(s.positions, r.symbol);
      OpenCash(BeforeFill(c, s, r, now), outcome.position);
      if i < |s.positions| {
        CloseFlow(c, s, s.positions[i].id, r.price, OnSignal, now);
        ExitFlowsOneMore([], outcome.reversed.value);
        assert [] + [outcome.reversed.value] == [outcome.reversed.value];
      }
  }

  /** One committed write moves stored cash by its flows, give or take half a cent. */
  lemma WriteDrifts(c: Settings, db: Db, w: Write)
    requires db.account.Some? && OneRowPerSymbol(db) && FreshInDb(db, w)
    requires WriteResult(c, db, w).Done?
    ensures var db' := WriteResult(c, db, w).db;
            db'.account.Some? && Abs(db'.account.value.cash - db.account.value.cash - Flow(Mutate(c, Loaded(db), w))) <= 0.005
  {
    hide Mutate, Flow, Loaded, OneRowPerSymbol;
    WriteKeepsDb(c, db, w);
    MutateFlows(c, Loaded(db), w);
    var fields := Restored(db);
  }

  // ---- Client order ids ----

  ghost predicate UniqueClientIds(orders: seq<OrderRow>) {
    forall i, j | 0 <= i < j < |orders| && orders[i].clientOrderId.Some? ::
      orders[i].clientOrderId != orders[j].clientOrderId
  }

  lemma InsertKeepsUnique(orders: Option<seq<OrderRow>>, o: OrderRow)
    requires orders.Some? ==> UniqueClientIds(orders.value)
    ensures InsertOrder(orders, o).Some? ==> UniqueClientIds(InsertOrder(orders, o).value)
  {
  }

  lemma {:induction false} EntriesKeepUnique(orders: Option<seq<OrderRow>>, ps: seq<Position>, entryIds: set<Id>,
                                             clientOrderId: Option<string>)
    requires orders.Some? ==> UniqueClientIds(orders.value)
    ensures var r := EntryOrders(orders, ps, entryIds, clientOrderId); r.Some? ==> UniqueClientIds(r.value)
  {
    hide InsertOrder;
    if ps != [] {
      var front, p := ps[..|ps| - 1], ps[|ps| - 1];
      EntriesKeepUnique(orders, front, entryIds, clientOrderId);
      InsertKeepsUnique(EntryOrders(orders, front, entryIds, clientOrderId), EntryOrder(p, clientOrderId));
    }
  }

  lemma {:induction false} ExitsKeepUnique(orders: Option<seq<OrderRow>>, ts: seq<ClosedTrade>)
    requires orders.Some? ==> UniqueClientIds(orders.value)
    ensures var r := ExitOrders(orders, ts); r.Some? ==> UniqueClientIds(r.value)
  {
    hide InsertOrder;
    if ts != [] {
      ExitsKeepUnique(orders, ts[..|ts| - 1]);
      InsertKeepsUnique(ExitOrders(orders, ts[..|ts| - 1]), ExitOrder(ts[|ts| - 1]));
    }
  }

  /** A committed write never puts a client order id on a second order. */
  lemma WriteKeepsClientIds(c: Settings, db: Db, w: Write)
    requires db.account.Some? && UniqueClientIds(db.orders)
    ensures WriteResult(c, db, w).Done? ==> UniqueClientIds(WriteResult(c, db, w).db.orders)
  {
    hide Mutate, Loaded, EntryOrders, ExitOrders, UpsertAll, CloseRows;
    var change := Mutate(c, Loaded(db), w);
    if change.Change? {
      EntriesKeepUnique(Some(db.orders), change.portfolio.positions, EntryIds(change.filled), ClientOrderId(w));
      ExitsKeepUnique(EntryOrders(Some(db.orders), change.portfolio.positions, EntryIds(change.filled), ClientOrderId(w)),
                      change.closed);
    }
  }
}
