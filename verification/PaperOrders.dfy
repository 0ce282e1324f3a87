/** What a committed write records: its order rows, and client order ids that are spent for good. */
module PaperOrders {
  import opened Rounding
  import opened PaperModel
  import opened PaperAccounting
  import opened PaperEngine
  import opened PaperRepository
  import opened PaperLedger
  import opened PaperRoundTrip
  import opened PaperDrift

  // ---- Order rows of a transaction ----

  lemma {:induction false} NoEntryOrders(orders: Option<seq<OrderRow>>, ps: seq<Position>, entryIds: set<Id>,
                                         clientOrderId: Option<string>)
    requires forall p | p in ps :: p.id !in entryIds
    ensures EntryOrders(orders, ps, entryIds, clientOrderId) == orders
  {
    if ps != [] {
      assert ps[|ps| - 1] in ps;
      NoEntryOrders(orders, ps[..|ps| - 1], entryIds, clientOrderId);
    }
  }

  /** Only the filled position is entered. */
  lemma OneEntryOrder(orders: seq<OrderRow>, ps: seq<Position>, p: Position, clientOrderId: Option<string>)
    requires p.id !in Ids(ps)
    ensures EntryOrders(Some(orders), ps + [p], {p.id}, clientOrderId)
            == InsertOrder(Some(orders), EntryOrder(p, clientOrderId))
  {
    forall q | q in ps
      ensures q.id !in {p.id}
    {
      assert q.id in Ids(ps);
    }
    NoEntryOrders(Some(orders), ps, {p.id}, clientOrderId);
    assert (ps + [p])[..|ps|] == ps;
  }

  /** The order that sells what a closed long held, or buys back a closed short. */
  ghost predicate ExitRecorded(o: OrderRow, t: ClosedTrade) {
    && o.symbol == t.symbol && (o.buy <==> t.side.Short?) && o.quantity == Column(t.quantity)
    && o.price == Column(t.exitPrice) && o.positionId == t.positionId && o.clientOrderId.None?
  }

  ghost predicate EntryRecorded(o: OrderRow, p: Position, clientOrderId: Option<string>) {
    && o.symbol == p.symbol && (o.buy <==> p.side.Long?) && o.quantity == Column(p.quantity)
    && o.price == Column(p.entryPrice) && o.positionId == Some(p.id) && o.clientOrderId == clientOrderId
  }

  lemma {:induction false} ExitsAreRecorded(orders: seq<OrderRow>, ts: seq<ClosedTrade>)
    ensures var r := ExitOrders(Some(orders), ts);
            && r.Some? && |r.value| == |orders| + |ts| && r.value[..|orders|] == orders
            && forall i | 0 <= i < |ts| :: ExitRecorded(r.value[|orders| + i], ts[i])
  {
    if ts != [] {
      ExitsAreRecorded(orders, ts[..|ts| - 1]);
    }
  }

  /** What a committed write adds to the order table: an entry for its fill, carrying its client order id, then one exit
      for each closed trade. */
  ghost predicate Recorded(before: seq<OrderRow>, after: seq<OrderRow>, change: Change, clientOrderId: Option<string>)
    requires change.Change?
  {
    var n := |before| + if change.filled.Some? then 1 else 0;
    && |after| == n + |change.closed| && after[..|before|] == before
    && (change.filled.Some? ==> EntryRecorded(after[|before|], change.filled.value, clientOrderId))
    && forall i | 0 <= i < |change.closed| :: ExitRecorded(after[n + i], change.closed[i])
  }

  lemma FillAddsLast(c: Settings, s: Portfolio, w: Write)
    requires Coherent(s) && w.Fill? && Mutate(c, s, w).Change? && w.newId !in Ids(s.positions)
    ensures var change := Mutate(c, s, w);
            && change.filled.Some? && change.filled.value.id == w.newId && change.portfolio.positions != []
            && var n := |change.portfolio.positions| - 1;
               && change.portfolio.positions[n] == change.filled.value
               && w.newId !in Ids(change.portfolio.positions[..n])
  {
    FillParts(c, s, w.request, w.now, w.newId);
    hide Execute, BeforeFill, Close, EntryFill, AffordableQuantity, Equity, Measured;
    BeforeFillFreesSymbol(c, s, w.request, w.now);
  }

  /** The filled position is the last one, and no other has its id. */
  ghost predicate FillIsLast(change: Change)
    requires change.Change?
  {
    change.filled.Some? ==>
      var ps := change.portfolio.positions;
      && ps != [] && ps[|ps| - 1] == change.filled.value && change.filled.value.id !in Ids(ps[..|ps| - 1])
  }

  lemma TransactionRecords(orders: seq<OrderRow>, change: Change, clientOrderId: Option<string>)
    requires change.Change? && FillIsLast(change)
    ensures var entered := EntryOrders(Some(orders), change.portfolio.positions, EntryIds(change.filled), clientOrderId);
            var r := ExitOrders(entered, change.closed);
            r.Some? ==>
              && Recorded(orders, r.value, change, clientOrderId)
              && (change.filled.Some? && clientOrderId.Some? ==> !UsedClientId(orders, clientOrderId.value))
  {
    hide EntryOrders, ExitOrders, Recorded, UsedClientId, Ids;
    var ps := change.portfolio.positions;
    if change.filled.Some? {
      var p := change.filled.value;
      assert ps == ps[..|ps| - 1] + [p];
      OneEntryOrder(orders, ps[..|ps| - 1], p, clientOrderId);
      if InsertOrder(Some(orders), EntryOrder(p, clientOrderId)).None? {
        NothingAfterConflict(change.closed);
      } else {
        FillRecords(orders, change, clientOrderId);
      }
    } else {
      NoEntryOrders(Some(orders), ps, {}, clientOrderId);
      ClosuresRecord(orders, change, clientOrderId);
    }
  }

  lemma FillRecords(orders: seq<OrderRow>, change: Change, clientOrderId: Option<string>)
    requires change.Change? && change.filled.Some?
    ensures var r := ExitOrders(Some(orders + [EntryOrder(change.filled.value, clientOrderId)]), change.closed);
            r.Some? && Recorded(orders, r.value, change, clientOrderId)
  {
    hide ExitOrders, ExitRecorded;
    var entered := orders + [EntryOrder(change.filled.value, clientOrderId)];
    ExitsAreRecorded(entered, change.closed);
    var after := ExitOrders(Some(entered), change.closed).value;
    assert after[..|entered|][..|orders|] == after[..|orders|];
    assert after[..|entered|][|orders|] == after[|orders|];
  }

  lemma ClosuresRecord(orders: seq<OrderRow>, change: Change, clientOrderId: Option<string>)
    requires change.Change? && change.filled.None?
    ensures var r := ExitOrders(Some(orders), change.closed);
            r.Some? && Recorded(orders, r.value, change, clientOrderId)
  {
    hide ExitOrders, ExitRecorded;
    ExitsAreRecorded(orders, change.closed);
  }

  lemma {:induction false} NothingAfterConflict(ts: seq<ClosedTrade>)
    ensures ExitOrders(None, ts).None?
  {
    if ts != [] {
      NothingAfterConflict(ts[..|ts| - 1]);
    }
  }

  lemma CommitRecords(c: Settings, db: Db, w: Write)
    requires db.account.Some? && WriteResult(c, db, w).Done? && FillIsLast(Mutate(c, Loaded(db), w))
    ensures var change, db' := Mutate(c, Loaded(db), w), WriteResult(c, db, w).db;
            && Recorded(db.orders, db'.orders, change, ClientOrderId(w))
            && (change.filled.Some? && ClientOrderId(w).Some? ==> !UsedClientId(db.orders, ClientOrderId(w).value))
  {
    hide Loaded, Mutate, UpsertAll, CloseRows, EntryOrders, ExitOrders, Recorded, FillIsLast, UsedClientId;
    TransactionRecords(db.orders, Mutate(c, Loaded(db), w), ClientOrderId(w));
  }

  /** A committed write appends exactly the orders of what it did: a fill one entry for the position it opened, with its
      client order id, which no order had before, and every closed trade one exit. */
  lemma WriteRecordsOrders(c: Settings, db: Db, w: Write)
    requires db.account.Some? && OneRowPerSymbol(db) && FreshInDb(db, w)
    requires WriteResult(c, db, w).Done?
    ensures var change := Mutate(c, Loaded(db), w);
            && (change.filled.Some? <==> w.Fill?) && (w.Fill? ==> change.filled.value.id == w.newId)
            && Recorded(db.orders, WriteResult(c, db, w).db.orders, change, ClientOrderId(w))
            && (w.Fill? && w.clientOrderId.Some? ==> !UsedClientId(db.orders, w.clientOrderId.value))
  {
    hide Loaded, Mutate, OneRowPerSymbol, Tracks, Recorded, UsedClientId, WriteResult;
    if w.Fill? {
      LoadedTracks(db);
      TracksCoherent(db, Loaded(db), []);
      hide Coherent;
      assert w.newId !in Ids(Loaded(db).positions);
      FillAddsLast(c, Loaded(db), w);
    } else {
      CandleFillsNothing(c, Loaded(db), w);
    }
    CommitRecords(c, db, w);
  }

  lemma CandleFillsNothing(c: Settings, s: Portfolio, w: Write)
    requires w.CandleClose?
    ensures Mutate(c, s, w).Change? && Mutate(c, s, w).filled.None?
  {
    hide CheckStops, MarkToMarket;
  }
}
