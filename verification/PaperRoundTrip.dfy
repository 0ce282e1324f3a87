/** Writing an engine back and loading it again: what survives, what the columns round, and how far cash drifts. */
module PaperRoundTrip {
  import opened Rounding
  import opened PaperModel
  import opened PaperTotals
  import opened PaperAccounting
  import opened PaperEngine
  import opened PaperRepository
  import opened PaperLedger

  // ---- What the database knows about the engine ----

  /** At most one open row per symbol. */
  ghost predicate OneRowPerSymbol(db: Db) {
    forall a, b | a in OpenRows(db.positions) && b in OpenRows(db.positions) && a != b ::
      db.positions[a].symbol != db.positions[b].symbol
  }

  /** Every open row is an open position of `s` or one of the trades about to be recorded as closed. */
  ghost predicate Tracks(db: Db, s: Portfolio, closed: seq<ClosedTrade>) {
    && Coherent(s)
    && (forall id | id in OpenRows(db.positions) :: id in Ids(s.positions) || id in ClosedIds(closed))
    && (forall t | t in closed :: t.positionId.Some? && t.positionId.value !in Ids(s.positions))
    && (forall p | p in s.positions && p.id in db.positions :: db.positions[p.id].openedAt == p.entryAt)
  }

  ghost function ClosedIds(closed: seq<ClosedTrade>): set<Id> {
    set t | t in closed && t.positionId.Some? :: t.positionId.value
  }

  /** The position as its row keeps it. */
  function StoredPosition(p: Position): Position {
    p.(quantity := Column(p.quantity), entryPrice := Column(p.entryPrice), stopLoss := ColumnOption(p.stopLoss),
       takeProfit := ColumnOption(p.takeProfit), entryCommission := Column(p.entryCommission),
       margin := Column(p.margin), carry := Column(p.carry))
  }

  /** The trade as its row keeps it: an exit price its column loses comes back as the entry price. */
  function StoredTrade(t: ClosedTrade): ClosedTrade {
    ClosedTrade(
      t.symbol, t.side, Column(t.quantity), Column(t.entryPrice),
      if Column(t.exitPrice) == 0.0 then Column(t.entryPrice) else Column(t.exitPrice),
      t.entryAt, t.exitAt, Column(t.pnl), t.pnlPct, t.reason, t.strategy,
      Column(t.entryCommission), Column(t.exitCommission), Column(t.carry), None)
  }

  function StoredTrades(ts: seq<ClosedTrade>): seq<ClosedTrade> {
    seq(|ts|, i requires 0 <= i < |ts| => StoredTrade(ts[i]))
  }

  /** The mark the position is loaded with. */
  function StoredMark(marks: Marks, p: Position): real {
    LoadedMark(RowOf(p, Mark(marks, p)))
  }

  // ---- Rows after a commit ----

  /** What an upsert leaves in the row of `p`: the opening time is kept from an earlier row. */
  function UpsertedRow(rows: map<Id, PositionRow>, p: Position, marks: Marks): PositionRow {
    RowOf(p, Mark(marks, p)).(openedAt := if p.id in rows then rows[p.id].openedAt else p.entryAt)
  }

  lemma UpsertOne(rows: map<Id, PositionRow>, p: Position, marks: Marks)
    ensures Upsert(rows, p, marks) == rows[p.id := UpsertedRow(rows, p, marks)]
  {
  }

  lemma {:induction false} UpsertedKeys(rows: map<Id, PositionRow>, ps: seq<Position>, marks: Marks)
    ensures UpsertAll(rows, ps, marks).Keys == rows.Keys + Ids(ps)
    ensures forall id | id in rows && id !in Ids(ps) :: UpsertAll(rows, ps, marks)[id] == rows[id]
  {
    hide UpsertedRow, Upsert;
    if ps != [] {
      var front, last := ps[..|ps| - 1], ps[|ps| - 1];
      assert ps == front + [last];
      UpsertedKeys(rows, front, marks);
      AppendedMembers(front, last);
      UpsertOne(UpsertAll(rows, front, marks), last, marks);
    }
  }

  lemma {:induction false} UpsertedRows(rows: map<Id, PositionRow>, ps: seq<Position>, marks: Marks)
    requires DistinctIds(ps)
    ensures UpsertAll(rows, ps, marks).Keys == rows.Keys + Ids(ps)
    ensures forall id | id in rows && id !in Ids(ps) :: UpsertAll(rows, ps, marks)[id] == rows[id]
    ensures forall p | p in ps :: UpsertAll(rows, ps, marks)[p.id] == UpsertedRow(rows, p, marks)
  {
    hide UpsertedRow, Upsert, Ids;
    UpsertedKeys(rows, ps, marks);
    if ps != [] {
      var front, last := ps[..|ps| - 1], ps[|ps| - 1];
      UpsertedRows(rows, front, marks);
      LastIdIsNew(ps);
      var before := UpsertAll(rows, front, marks);
      UpsertOne(before, last, marks);
      SameOpening(before, rows, last, marks);
      assert forall p | p in ps :: p == last || p in front;
    }
  }

  lemma LastIdIsNew(ps: seq<Position>)
    requires DistinctIds(ps) && ps != []
    ensures var front, last := ps[..|ps| - 1], ps[|ps| - 1];
            last.id !in Ids(front) && forall p | p in front :: p.id != last.id
  {
    var front, last := ps[..|ps| - 1], ps[|ps| - 1];
    forall p | p in front
      ensures p.id != last.id
    {
      var i :| 0 <= i < |front| && front[i] == p;
      assert ps[i].id != ps[|ps| - 1].id;
    }
  }

  lemma SameOpening(before: map<Id, PositionRow>, rows: map<Id, PositionRow>, p: Position, marks: Marks)
    requires (p.id in before <==> p.id in rows) && (p.id in rows ==> before[p.id] == rows[p.id])
    ensures UpsertedRow(before, p, marks) == UpsertedRow(rows, p, marks)
  {
  }

  lemma RowOpened(p: Position, mark: real)
    ensures RowOf(p, mark).openedAt == p.entryAt && RowOf(p, mark).isOpen && RowOf(p, mark).symbol == p.symbol
  {
  }

  lemma {:induction false} ClosedRows(rows: map<Id, PositionRow>, ts: seq<ClosedTrade>)
    requires forall t | t in ts :: t.positionId.Some?
    ensures CloseRows(rows, ts).Keys == rows.Keys
    ensures forall id | id in rows && id !in ClosedIds(ts) :: CloseRows(rows, ts)[id] == rows[id]
    ensures forall id | id in rows && id in ClosedIds(ts) :: !CloseRows(rows, ts)[id].isOpen
  {
    if ts != [] {
      var front, last := ts[..|ts| - 1], ts[|ts| - 1];
      assert ts == front + [last];
      ClosedRows(rows, front);
      assert last in ts;
      assert forall t | t in front :: t in ts;
      assert ClosedIds(ts) == ClosedIds(front) + {last.positionId.value};
    }
  }

  /** After a commit the open rows are the open positions of the engine, no more and no fewer. */
  lemma CommittedRows(db: Db, s: Portfolio, closed: seq<ClosedTrade>, entryIds: set<Id>, clientOrderId: Option<string>)
    requires Tracks(db, s, closed)
    requires PersistResult(db, s, closed, entryIds, clientOrderId).Committed?
    ensures var rows := OpenRows(PersistResult(db, s, closed, entryIds, clientOrderId).db.positions);
            && rows.Keys == Ids(s.positions)
            && forall p | p in s.positions :: rows[p.id] == RowOf(p, Mark(s.marks, p))
  {
    hide RowOf, Mark, EntryOrders, ExitOrders;
    var upserted := UpsertAll(db.positions, s.positions, s.marks);
    UpsertedRows(db.positions, s.positions, s.marks);
    ClosedRows(upserted, closed);
    var rows := OpenRows(CloseRows(upserted, closed));
    forall p | p in s.positions
      ensures p.id in rows && rows[p.id] == RowOf(p, Mark(s.marks, p))
    {
      RowOpened(p, Mark(s.marks, p));
      assert p.id in Ids(s.positions);
    }
    assert forall id | id in rows :: id in Ids(s.positions);
  }

  /** Each closed row, and no other field of it, shows how its position was closed. */
  ghost predicate ShowsClosure(row: PositionRow, was: PositionRow, t: ClosedTrade) {
    && !row.isOpen && row.currentPrice == Column(t.exitPrice) && row.carry == Column(t.carry) && row.accruedAt == t.exitAt
    && row.(isOpen := was.isOpen, currentPrice := was.currentPrice, carry := was.carry, accruedAt := was.accruedAt) == was
  }

  lemma ShutShows(row: PositionRow, t: ClosedTrade)
    ensures ShowsClosure(Shut(row, t), row, t)
  {
  }

  lemma {:induction false} ClosedRowShows(rows: map<Id, PositionRow>, ts: seq<ClosedTrade>, i: nat)
    requires forall t | t in ts :: t.positionId.Some?
    requires forall j, k | 0 <= j < k < |ts| :: ts[j].positionId != ts[k].positionId
    requires i < |ts| && ts[i].positionId.value in rows
    ensures CloseRows(rows, ts).Keys == rows.Keys
    ensures ShowsClosure(CloseRows(rows, ts)[ts[i].positionId.value], rows[ts[i].positionId.value], ts[i])
  {
    hide ShowsClosure;
    var front := ts[..|ts| - 1];
    assert forall t | t in front :: t in ts;
    ClosedRows(rows, front);
    assert ShowsClosure(Shut(rows[ts[i].positionId.value], ts[i]), rows[ts[i].positionId.value], ts[i]) by {
      ShutShows(rows[ts[i].positionId.value], ts[i]);
    }
    hide Shut;
    if i < |front| {
      ClosedRowShows(rows, front, i);
      assert ts[i].positionId != ts[|front|].positionId;
    } else {
      assert ts[i].positionId.value !in ClosedIds(front);
    }
  }

  /** After a commit every row that was closed shows its trade; it is otherwise as it was. */
  lemma CommittedClosures(db: Db, s: Portfolio, closed: seq<ClosedTrade>, entryIds: set<Id>, clientOrderId: Option<string>,
                          i: nat)
    requires Tracks(db, s, closed) && forall j, k | 0 <= j < k < |closed| :: closed[j].positionId != closed[k].positionId
    requires PersistResult(db, s, closed, entryIds, clientOrderId).Committed?
    requires i < |closed| && closed[i].positionId.Some? && closed[i].positionId.value in db.positions
    ensures var id := closed[i].positionId.value;
            var rows := PersistResult(db, s, closed, entryIds, clientOrderId).db.positions;
            id in rows && ShowsClosure(rows[id], db.positions[id], closed[i])
  {
    hide EntryOrders, ExitOrders, ShowsClosure, CloseRows, UpsertAll;
    var upserted := UpsertAll(db.positions, s.positions, s.marks);
    assert closed[i] in closed;
    UpsertedKeys(db.positions, s.positions, s.marks);
    ClosedRowShows(upserted, closed, i);
  }

  // ---- Loading them again ----

  lemma LoadedPosition(p: Position, mark: real)
    ensures LoadPosition(p.id, RowOf(p, mark)) == StoredPosition(p)
  {
  }

  /** The loaded positions are the stored ones, each once. */
  lemma LoadedPositions(rows: map<Id, PositionRow>, ps: seq<Position>, marks: Marks)
    requires DistinctIds(ps) && rows.Keys == Ids(ps)
    requires forall p | p in ps :: rows[p.id] == RowOf(p, Mark(marks, p))
    ensures DistinctIds(LoadPositions(rows))
    ensures forall q :: q in LoadPositions(rows) <==> exists p :: p in ps && q == StoredPosition(p)
  {
    hide RowOf, Mark, LoadPosition, StoredPosition, LoadOrder;
    var qs, ids := LoadPositions(rows), LoadOrder(OpeningTimes(rows));
    forall i | 0 <= i < |qs|
      ensures exists p :: p in ps && p.id == ids[i] && qs[i] == StoredPosition(p)
    {
      assert ids[i] in OpeningTimes(rows);
      var p :| p in ps && p.id == ids[i];
      LoadedPosition(p, Mark(marks, p));
    }
    forall p | p in ps
      ensures StoredPosition(p) in qs
    {
      assert p.id in OpeningTimes(rows);
      var i :| 0 <= i < |ids| && ids[i] == p.id;
      LoadedPosition(p, Mark(marks, p));
      assert qs[i] == StoredPosition(p);
    }
    forall i, j | 0 <= i < j < |qs|
      ensures qs[i].id != qs[j].id
    {
      LoadedId(ids[i], rows[ids[i]]);
      LoadedId(ids[j], rows[ids[j]]);
    }
  }

  lemma LoadedId(id: Id, row: PositionRow)
    ensures LoadPosition(id, row).id == id
  {
  }

  lemma {:induction false} LoadedMarkKeys(rows: map<Id, PositionRow>, ids: seq<Id>)
    requires forall id | id in ids :: id in rows
    ensures forall k | k in LoadMarks(rows, ids) :: exists i | 0 <= i < |ids| :: rows[ids[i]].symbol == k
  {
    hide LoadedMark;
    if ids != [] {
      var front, last := ids[..|ids| - 1], ids[|ids| - 1];
      LoadedMarkKeys(rows, front);
      assert forall i | 0 <= i < |front| :: ids[i] == front[i];
    }
  }

  /** With one row per symbol each row's mark is loaded, when it is positive, and no other for its symbol. */
  lemma {:induction false} LoadedMarkAt(rows: map<Id, PositionRow>, ids: seq<Id>, i: nat)
    requires i < |ids| && forall id | id in ids :: id in rows
    requires forall i, j | 0 <= i < j < |ids| :: rows[ids[i]].symbol != rows[ids[j]].symbol
    ensures var symbol, mark := rows[ids[i]].symbol, LoadedMark(rows[ids[i]]);
            if mark > 0.0 then symbol in LoadMarks(rows, ids) && LoadMarks(rows, ids)[symbol] == mark
            else symbol !in LoadMarks(rows, ids)
  {
    hide LoadedMark;
    var n := |ids| - 1;
    var front := ids[..n];
    if i < n {
      LoadedMarkAt(rows, front, i);
      assert rows[ids[i]].symbol != rows[ids[n]].symbol;
    } else {
      LoadedMarkKeys(rows, front);
      assert forall j | 0 <= j < n :: front[j] == ids[j] && rows[ids[j]].symbol != rows[ids[n]].symbol;
    }
  }

  lemma {:induction false} AtMostOnce(ps: seq<Position>, x: Position)
    requires DistinctIds(ps)
    ensures multiset(ps)[x] == if x in ps then 1 else 0
  {
    if ps != [] {
      var front, last := ps[..|ps| - 1], ps[|ps| - 1];
      assert ps == front + [last];
      AtMostOnce(front, x);
      if x in front {
        var i :| 0 <= i < |front| && front[i] == x;
        assert ps[i].id != ps[|ps| - 1].id;
      }
    }
  }

  /** Positions with distinct ids and the same members are the same bag. */
  lemma SameMembers(ps: seq<Position>, qs: seq<Position>)
    requires DistinctIds(ps) && DistinctIds(qs)
    requires forall p :: p in ps <==> p in qs
    ensures multiset(ps) == multiset(qs)
  {
    forall x
      ensures multiset(ps)[x] == multiset(qs)[x]
    {
      AtMostOnce(ps, x);
      AtMostOnce(qs, x);
    }
  }

  function StoredPositions(ps: seq<Position>): (qs: seq<Position>)
    ensures |qs| == |ps| && forall i | 0 <= i < |ps| :: qs[i] == StoredPosition(ps[i])
  {
    seq(|ps|, i requires 0 <= i < |ps| => StoredPosition(ps[i]))
  }

  lemma LoadedTrade(t: ClosedTrade)
    ensures LoadTrade(TradeRow(t)) == StoredTrade(t)
  {
  }

  lemma LoadedOneMore(ts: seq<ClosedTrade>, t: ClosedTrade)
    ensures multiset(LoadTrades(ts + [t])) == multiset(LoadTrades(ts)) + multiset{LoadTrade(t)}
  {
    hide LoadTrade;
    assert (ts + [t])[..|ts|] == ts;
  }

  lemma {:induction false} LoadedTradesBag(kept: seq<ClosedTrade>, added: seq<ClosedTrade>)
    ensures multiset(LoadTrades(kept + TradeRows(added))) == multiset(LoadTrades(kept)) + multiset(StoredTrades(added))
    decreases |added|
  {
    hide LoadTrades, LoadTrade, TradeRow, StoredTrade;
    if added == [] {
      assert kept + TradeRows(added) == kept;
    } else {
      var front, last := added[..|added| - 1], added[|added| - 1];
      LoadedTradesBag(kept, front);
      LoadedOneMore(kept + TradeRows(front), TradeRow(last));
      assert kept + TradeRows(front) + [TradeRow(last)] == kept + TradeRows(added);
      assert StoredTrades(added) == StoredTrades(front) + [StoredTrade(last)];
      LoadedTrade(last);
    }
  }

  // ---- Loading order ----

  /** By opening time, those of one moment by id. */
  ghost predicate OldestFirst(openedAt: map<Id, Time>, ids: seq<Id>)
    requires forall i | 0 <= i < |ids| :: ids[i] in openedAt
  {
    forall i, j | 0 <= i < j < |ids| ::
      openedAt[ids[i]] < openedAt[ids[j]] || (openedAt[ids[i]] == openedAt[ids[j]] && ids[i] < ids[j])
  }

  lemma {:induction false} KeysInOrder(openedAt: map<Id, Time>)
    ensures OldestFirst(openedAt, LoadOrder(openedAt))
    decreases |openedAt|
  {
    hide OldestFirst, Earliest;
    var ids := LoadOrder(openedAt);
    if openedAt == map[] {
      NoneInOrder(openedAt);
    } else {
      var rest := openedAt - {ids[0]};
      KeysInOrder(rest);
      FirstIsOldest(openedAt, ids[0], LoadOrder(rest));
    }
  }

  lemma NoneInOrder(openedAt: map<Id, Time>)
    ensures OldestFirst(openedAt, [])
  {
  }

  lemma FirstIsOldest(openedAt: map<Id, Time>, a: Id, tail: seq<Id>)
    requires Earliest(openedAt, a) && forall i | 0 <= i < |tail| :: tail[i] in openedAt - {a}
    requires OldestFirst(openedAt - {a}, tail)
    ensures OldestFirst(openedAt, [a] + tail)
  {
  }

  /** Positions come back by opening time, those of one moment by id. */
  lemma PositionsInOrder(rows: map<Id, PositionRow>)
    ensures var ps := LoadPositions(rows);
            forall i, j | 0 <= i < j < |ps| ::
              ps[i].entryAt < ps[j].entryAt || (ps[i].entryAt == ps[j].entryAt && ps[i].id < ps[j].id)
  {
    hide LoadOrder;
    var ids, ps := LoadOrder(OpeningTimes(rows)), LoadPositions(rows);
    KeysInOrder(OpeningTimes(rows));
    assert forall i | 0 <= i < |ids| :: ids[i] in OpeningTimes(rows) && ps[i].id == ids[i];
  }

  function ExitedAt(ts: seq<ClosedTrade>, at: Time): seq<ClosedTrade> {
    if ts == [] then [] else
    var last := ts[|ts| - 1];
    ExitedAt(ts[..|ts| - 1], at) + if last.exitAt == at then [last] else []
  }

  lemma ExitedOneMore(ts: seq<ClosedTrade>, t: ClosedTrade, at: Time)
    ensures ExitedAt(ts + [t], at) == ExitedAt(ts, at) + if t.exitAt == at then [t] else []
  {
    assert (ts + [t])[..|ts|] == ts;
  }

  ghost predicate InExitOrder(ts: seq<ClosedTrade>) {
    forall i, j | 0 <= i <= j < |ts| :: ts[i].exitAt <= ts[j].exitAt
  }

  lemma {:induction false} InsertInOrder(t: ClosedTrade, sorted: seq<ClosedTrade>, at: Time)
    requires InExitOrder(sorted)
    ensures InExitOrder(InsertByExit(t, sorted))
    ensures ExitedAt(InsertByExit(t, sorted), at) == ExitedAt(sorted, at) + if t.exitAt == at then [t] else []
    decreases |sorted|
  {
    hide ExitedAt;
    if sorted == [] || sorted[|sorted| - 1].exitAt <= t.exitAt {
      ExitedOneMore(sorted, t, at);
    } else {
      var front, last := sorted[..|sorted| - 1], sorted[|sorted| - 1];
      assert sorted == front + [last];
      InsertInOrder(t, front, at);
      ExitedOneMore(InsertByExit(t, front), last, at);
      ExitedOneMore(front, last, at);
      InsertedBefore(t, front, last);
    }
  }

  lemma InsertedBefore(t: ClosedTrade, front: seq<ClosedTrade>, last: ClosedTrade)
    requires InExitOrder(front + [last]) && t.exitAt <= last.exitAt && InExitOrder(InsertByExit(t, front))
    ensures InExitOrder(InsertByExit(t, front) + [last])
  {
    hide InsertByExit;
    var r := InsertByExit(t, front);
    forall i | 0 <= i < |r|
      ensures r[i].exitAt <= last.exitAt
    {
      assert r[i] in multiset(r);
      if r[i] != t {
        assert r[i] in multiset(front);
        var j :| 0 <= j < |front| && front[j] == r[i];
        assert (front + [last])[j] == front[j] && (front + [last])[|front|] == last;
      }
    }
  }

  /** Trades come back by exit time, those of one moment in the order they were recorded. */
  lemma {:induction false} TradesInOrder(ts: seq<ClosedTrade>, at: Time)
    ensures InExitOrder(LoadTrades(ts))
    ensures ExitedAt(LoadTrades(ts), at) == LoadedAll(ExitedAt(ts, at))
  {
    hide InsertByExit, LoadTrade, InExitOrder;
    if ts != [] {
      var front, last := ts[..|ts| - 1], ts[|ts| - 1];
      TradesInOrder(front, at);
      InsertInOrder(LoadTrade(last), LoadTrades(front), at);
      SameExit(last);
      assert ts == front + [last];
    } else {
      NoTrades();
    }
  }

  lemma NoTrades()
    ensures InExitOrder([])
  {
  }

  lemma SameExit(t: ClosedTrade)
    ensures LoadTrade(t).exitAt == t.exitAt
  {
  }

  function LoadedAll(ts: seq<ClosedTrade>): seq<ClosedTrade> {
    seq(|ts|, i requires 0 <= i < |ts| => LoadTrade(ts[i]))
  }

  // ---- The round trip ----

  /** Committing `s` and loading it again gives back `s`, with every column rounded, in loading order. */
  lemma RoundTrip(db: Db, s: Portfolio, closed: seq<ClosedTrade>, entryIds: set<Id>, clientOrderId: Option<string>)
    requires Tracks(db, s, closed)
    requires PersistResult(db, s, closed, entryIds, clientOrderId).Committed?
    ensures var db' := PersistResult(db, s, closed, entryIds, clientOrderId).db;
            var loaded := Loaded(db');
            && multiset(loaded.positions) == multiset(StoredPositions(s.positions))
            && DistinctIds(loaded.positions)
            && multiset(loaded.closed) == multiset(LoadTrades(db.trades)) + multiset(StoredTrades(closed))
            && loaded.cash == Round2(s.cash)
            && loaded.initial == Max(Column(s.initial), MINIMUM_CAPITAL)
            && (s.curve != [] ==> loaded.curve == s.curve || loaded.curve == s.curve + [Equity(loaded)])
            && (forall p | p in s.positions :: Mark(loaded.marks, StoredPosition(p))
                  == if StoredMark(s.marks, p) > 0.0 then StoredMark(s.marks, p) else Column(p.entryPrice))
            && OneRowPerSymbol(db')
  {
    hide RowOf, Mark, StoredPosition, LoadTrades, Equity, EntryOrders, ExitOrders, UpsertAll, CloseRows, LoadedMark;
    CommittedRows(db, s, closed, entryIds, clientOrderId);
    var db' := PersistResult(db, s, closed, entryIds, clientOrderId).db;
    var rows := OpenRows(db'.positions);
    RowSymbols(rows, s);
    LoadedPositions(rows, s.positions, s.marks);
    StoredKeepsShape(s.positions);
    SameMembers(LoadPositions(rows), StoredPositions(s.positions));
    LoadedTradesBag(db.trades, closed);
    ColumnKeepsRounded(s.cash);
    forall p | p in s.positions
      ensures Mark(LoadMarks(rows, LoadOrder(OpeningTimes(rows))), StoredPosition(p))
              == if StoredMark(s.marks, p) > 0.0 then StoredMark(s.marks, p) else Column(p.entryPrice)
    {
      LoadedMarkOf(rows, s, p);
    }
    hide LoadOrder, LoadMarks, LoadPositions, IsClose, StoredMark, StoredPositions, StoredTrades;
    var fields := Restored(db');
  }

  lemma Restored(db: Db) returns (fields: Portfolio)
    requires db.account.Some?
    ensures fields == Loaded(db)
    ensures var a, rows := db.account.value, OpenRows(db.positions);
            && fields.positions == LoadPositions(rows) && fields.closed == LoadTrades(db.trades)
            && fields.marks == LoadMarks(rows, LoadOrder(OpeningTimes(rows)))
            && fields.initial == Max(a.initial, MINIMUM_CAPITAL) && fields.cash == a.cash
            && (a.curve != [] ==> fields.curve == a.curve || fields.curve == a.curve + [Equity(fields)])
  {
    hide LoadPositions, LoadTrades, LoadMarks, IsClose, Total;
    fields := Loaded(db);
  }

  lemma StoredKeepsShape(ps: seq<Position>)
    requires DistinctIds(ps)
    ensures DistinctIds(StoredPositions(ps))
    ensures forall q :: q in StoredPositions(ps) <==> exists p :: p in ps && q == StoredPosition(p)
  {
    var qs := StoredPositions(ps);
    assert forall i | 0 <= i < |ps| :: qs[i].id == ps[i].id;
    hide StoredPosition;
    forall p | p in ps
      ensures StoredPosition(p) in qs
    {
      var i :| 0 <= i < |ps| && ps[i] == p;
      assert qs[i] == StoredPosition(p);
    }
  }

  /** Distinct ids of open rows name distinct symbols. */
  lemma RowSymbols(rows: map<Id, PositionRow>, s: Portfolio)
    requires Coherent(s) && rows.Keys == Ids(s.positions)
    requires forall p | p in s.positions :: rows[p.id] == RowOf(p, Mark(s.marks, p))
    ensures forall a, b | a in rows && b in rows && a != b :: rows[a].symbol != rows[b].symbol
  {
    hide RowOf, Mark;
    forall a, b | a in rows && b in rows && a != b
      ensures rows[a].symbol != rows[b].symbol
    {
      var p :| p in s.positions && p.id == a;
      var q :| q in s.positions && q.id == b;
      RowOpened(p, Mark(s.marks, p));
      RowOpened(q, Mark(s.marks, q));
      var i :| 0 <= i < |s.positions| && s.positions[i] == p;
      var j :| 0 <= j < |s.positions| && s.positions[j] == q;
    }
  }

  lemma LoadedMarkOf(rows: map<Id, PositionRow>, s: Portfolio, p: Position)
    requires Coherent(s) && rows.Keys == Ids(s.positions) && p in s.positions
    requires forall q | q in s.positions :: rows[q.id] == RowOf(q, Mark(s.marks, q))
    ensures Mark(LoadMarks(rows, LoadOrder(OpeningTimes(rows))), StoredPosition(p))
            == if StoredMark(s.marks, p) > 0.0 then StoredMark(s.marks, p) else Column(p.entryPrice)
  {
    hide RowOf, LoadOrder, LoadMarks, LoadedMark;
    var ids := LoadOrder(OpeningTimes(rows));
    RowSymbols(rows, s);
    assert p.id in Ids(s.positions);
    assert p.id in OpeningTimes(rows);
    var i :| 0 <= i < |ids| && ids[i] == p.id;
    LoadedMarkAt(rows, ids, i);
    RowOpened(p, Mark(s.marks, p));
  }

  // ---- Every write keeps the database describable ----

  /** Loaded positions are the open rows, one each. */
  lemma LoadedShape(rows: map<Id, PositionRow>)
    requires forall a, b | a in rows && b in rows && a != b :: rows[a].symbol != rows[b].symbol
    ensures var ps := LoadPositions(rows);
            && DistinctIds(ps) && DistinctSymbols(ps)
            && (forall id | id in rows :: id in Ids(ps))
            && (forall p | p in ps :: p.id in rows && p.entryAt == rows[p.id].openedAt)
  {
    hide LoadOrder;
    var ids, ps := LoadOrder(OpeningTimes(rows)), LoadPositions(rows);
    assert forall i | 0 <= i < |ids| :: ids[i] in rows && ps[i].id == ids[i] && ps[i].symbol == rows[ids[i]].symbol;
    forall id | id in rows
      ensures id in Ids(ps)
    {
      assert id in OpeningTimes(rows);
      var i :| 0 <= i < |ids| && ids[i] == id;
      assert ps[i] in ps;
    }
  }

  lemma LoadedTracks(db: Db)
    requires db.account.Some? && OneRowPerSymbol(db)
    ensures Tracks(db, Loaded(db), [])
    ensures forall p | p in Loaded(db).positions :: p.id in db.positions
  {
    hide LoadPositions, LoadOrder, LoadMarks, LoadTrades, IsClose, Equity, Loaded, DistinctIds, DistinctSymbols, Ids;
    var rows := OpenRows(db.positions);
    LoadedShape(rows);
    var s := Restored(db);
    assert s.curve != [] by {
      LoadedCurve(db);
    }
  }

  lemma LoadedCurve(db: Db)
    requires db.account.Some?
    ensures Loaded(db).curve != []
  {
    hide LoadPositions, LoadTrades, LoadMarks, IsClose, Equity;
  }

  lemma CloseCases(c: Config, s: Portfolio, id: Id, price: real, reason: ExitReason, when: Time)
    ensures var (s', trade) := Close(c, s, id, price, reason, when);
            var i := FindId(s.positions, id);
            if trade.Some? then i < |s.positions| && s'.positions == RemoveAt(s.positions, i)
                                && trade.value.positionId == Some(id)
            else s'.positions == s.positions
                 || (i < |s.positions| && s'.positions == s.positions[i := Accrue(c, s.positions[i], when)])
  {
    hide ExitFill, ExitCash, ExitPnl, Equity, CarryCost, Round2, Round4, PercentOf, ExitCommission;
  }

  lemma CloseTracks(c: Config, db: Db, s: Portfolio, closed: seq<ClosedTrade>, id: Id, price: real,
                    reason: ExitReason, when: Time)
    requires Tracks(db, s, closed)
    ensures var (s', trade) := Close(c, s, id, price, reason, when);
            Tracks(db, s', closed + if trade.Some? then [trade.value] else [])
    ensures Ids(Close(c, s, id, price, reason, when).0.positions) <= Ids(s.positions)
  {
    hide Close, Accrue, Tracks;
    assert Coherent(s) by {
      TracksCoherent(db, s, closed);
    }
    CloseKeepsShape(c, s, id, price, reason, when);
    CloseCases(c, s, id, price, reason, when);
    var (s', trade) := Close(c, s, id, price, reason, when);
    var i := FindId(s.positions, id);
    if trade.Some? {
      RemoveTracks(db, s, s', closed, trade.value, i);
    } else {
      assert closed + [] == closed;
      if s'.positions != s.positions {
        AccruedIdentity(c, s.positions[i], when);
      }
      RenewTracks(db, s, s', closed);
    }
  }

  lemma TracksCoherent(db: Db, s: Portfolio, closed: seq<ClosedTrade>)
    requires Tracks(db, s, closed)
    ensures Coherent(s)
  {
  }

  lemma RemoveTracks(db: Db, s: Portfolio, s': Portfolio, closed: seq<ClosedTrade>, t: ClosedTrade, i: nat)
    requires Tracks(db, s, closed) && Coherent(s') && i < |s.positions|
    requires s'.positions == RemoveAt(s.positions, i) && t.positionId == Some(s.positions[i].id)
    ensures Tracks(db, s', closed + [t])
  {
    RemovedSymbols(s.positions, i);
    ClosedIdsGrow(closed, t);
    assert forall p | p in s'.positions :: p in s.positions;
  }

  /** Positions renewed in place keep the tracking. */
  lemma RenewTracks(db: Db, s: Portfolio, s': Portfolio, closed: seq<ClosedTrade>)
    requires Tracks(db, s, closed) && Coherent(s') && |s'.positions| == |s.positions|
    requires forall i | 0 <= i < |s.positions| ::
               var p, q := s.positions[i], s'.positions[i]; q.id == p.id && q.symbol == p.symbol && q.entryAt == p.entryAt
    ensures Tracks(db, s', closed)
  {
    ReplacedSymbols(s.positions, s'.positions);
    forall q | q in s'.positions
      ensures exists p :: p in s.positions && p.id == q.id && p.entryAt == q.entryAt
    {
      var i :| 0 <= i < |s'.positions| && s'.positions[i] == q;
      assert s.positions[i] in s.positions;
    }
  }

  lemma ClosedIdsGrow(closed: seq<ClosedTrade>, t: ClosedTrade)
    requires t.positionId.Some?
    ensures ClosedIds(closed + [t]) == ClosedIds(closed) + {t.positionId.value}
  {
    assert forall x :: x in closed + [t] <==> x in closed || x == t;
  }

  lemma AccruedIdentity(c: Config, p: Position, when: Time)
    ensures var q := Accrue(c, p, when); q.id == p.id && q.symbol == p.symbol && q.entryAt == p.entryAt
  {
  }

  lemma OpenTracks(db: Db, s: Portfolio, closed: seq<ClosedTrade>, p: Position)
    requires Tracks(db, s, closed) && p.id !in Ids(s.positions) && p.symbol !in Symbols(s.positions)
    requires p.id !in db.positions && p.id !in ClosedIds(closed)
    ensures Tracks(db, Open(s, p), closed)
  {
    hide Measured, Equity;
    OpenKeepsShape(s, p);
    AppendedMembers(s.positions, p);
    assert forall t | t in closed :: t.positionId.value in ClosedIds(closed);
  }

  lemma {:induction false} ExitsTrack(c: Settings, db: Db, s: Portfolio, todo: seq<Position>, k: Candle, when: Time)
    requires Tracks(db, s, [])
    ensures var (s', closed) := CheckExits(c, s, todo, k, when); Tracks(db, s', closed)
    decreases |todo|
  {
    hide Close, Exit, Tracks;
    if todo != [] {
      var front, p := todo[..|todo| - 1], todo[|todo| - 1];
      ExitsTrack(c, db, s, front, k, when);
      var (s1, closed) := CheckExits(c, s, front, k, when);
      var exit := if p.symbol == k.symbol then Exit(p, k) else None;
      if exit.Some? {
        CloseTracks(c, db, s1, closed, p.id, exit.value.0, exit.value.1, when);
        assert closed + [] == closed;
      }
    }
  }

  lemma MarkTracks(c: Settings, db: Db, s: Portfolio, closed: seq<ClosedTrade>, symbol: Symbol, price: real, when: Time)
    requires Tracks(db, s, closed)
    ensures Tracks(db, MarkToMarket(c, s, symbol, price, when), closed)
  {
    hide Tracks;
    TracksCoherent(db, s, closed);
    MarkKeepsShape(c, s, symbol, price, when);
    MarkRenews(c, s, symbol, price, when);
    hide MarkToMarket, Coherent;
    RenewTracks(db, s, MarkToMarket(c, s, symbol, price, when), closed);
  }

  lemma MarkRenews(c: Settings, s: Portfolio, symbol: Symbol, price: real, when: Time)
    ensures var ps := MarkToMarket(c, s, symbol, price, when).positions;
            && |ps| == |s.positions|
            && forall i | 0 <= i < |ps| ::
                 ps[i].id == s.positions[i].id && ps[i].symbol == s.positions[i].symbol && ps[i].entryAt == s.positions[i].entryAt
  {
    hide Equity, CarryCost;
  }

  /** A new position's id is not in the table. */
  ghost predicate FreshInDb(db: Db, w: Write) {
    w.Fill? ==> w.newId !in db.positions
  }

  lemma MutateTracks(c: Settings, db: Db, w: Write)
    requires db.account.Some? && OneRowPerSymbol(db) && FreshInDb(db, w)
    requires Mutate(c, Loaded(db), w).Change?
    ensures var change := Mutate(c, Loaded(db), w); Tracks(db, change.portfolio, change.closed)
  {
    hide Loaded, CheckExits, Open, Close, MarkToMarket, Tracks;
    LoadedTracks(db);
    var s := Loaded(db);
    match w
    case CandleClose(k, when) =>
      ExitsTrack(c, db, s, s.positions, k, when);
      var (s', closed) := CheckStops(c, s, k, when);
      MarkTracks(c, db, s', closed, k.symbol, k.close, when);
    case Fill(r, now, newId, _) =>
      FillTracks(c, db, s, r, now, newId);
  }

  /** What the reversal close before a fill leaves to track. */
  lemma BeforeFillTracks(c: Settings, db: Db, s: Portfolio, r: Request, now: Time)
    requires Tracks(db, s, []) && forall p | p in s.positions :: p.id in db.positions
    requires var i := FindSymbol(s.positions, r.symbol);
             i < |s.positions| ==> Close(c, s, s.positions[i].id, r.price, OnSignal, now).1.Some?
    ensures var i := FindSymbol(s.positions, r.symbol);
            var closed := if i == |s.positions| then []
                          else [Close(c, s, s.positions[i].id, r.price, OnSignal, now).1.value];
            && Tracks(db, BeforeFill(c, s, r, now), closed)
            && forall id | id in Ids(BeforeFill(c, s, r, now).positions) || id in ClosedIds(closed) :: id in db.positions
  {
    hide Close, Tracks;
    var i := FindSymbol(s.positions, r.symbol);
    if i < |s.positions| {
      var id := s.positions[i].id;
      CloseTracks(c, db, s, [], id, r.price, OnSignal, now);
      CloseCases(c, s, id, r.price, OnSignal, now);
      var trade := Close(c, s, id, r.price, OnSignal, now).1.value;
      assert [] + [trade] == [trade];
      ClosedIdsGrow([], trade);
      assert s.positions[i] in s.positions;
    }
  }

  lemma FillTracks(c: Settings, db: Db, s: Portfolio, r: Request, now: Time, newId: Id)
    requires Tracks(db, s, []) && newId !in db.positions
    requires forall p | p in s.positions :: p.id in db.positions
    requires Execute(c, s, r, now, newId).1.Accepted?
    ensures var (s', outcome) := Execute(c, s, r, now, newId);
            Tracks(db, s', if outcome.reversed.Some? then [outcome.reversed.value] else [])
  {
    FillParts(c, s, r, now, newId);
    hide Execute, Open, Close, Tracks, AffordableQuantity, ClosedIds, Ids, Symbols, Coherent, BeforeFill;
    var outcome := Execute(c, s, r, now, newId).1;
    var closed := if outcome.reversed.Some? then [outcome.reversed.value] else [];
    TracksCoherent(db, s, []);
    BeforeFillFreesSymbol(c, s, r, now);
    BeforeFillTracks(c, db, s, r, now);
    OpenTracks(db, BeforeFill(c, s, r, now), closed, outcome.position);
  }

  /** Every committed write leaves one open row per symbol, and reloading it is a round trip of what was written. */
  lemma WriteKeepsDb(c: Settings, db: Db, w: Write)
    requires db.account.Some? && OneRowPerSymbol(db) && FreshInDb(db, w)
    requires WriteResult(c, db, w).Done?
    ensures var db' := WriteResult(c, db, w).db;
            var change := Mutate(c, Loaded(db), w);
            && OneRowPerSymbol(db') && db'.account.Some?
            && multiset(Loaded(db').positions) == multiset(StoredPositions(change.portfolio.positions))
            && multiset(Loaded(db').closed) == multiset(Loaded(db).closed) + multiset(StoredTrades(change.closed))
            && db'.account.value.cash == Round2(change.portfolio.cash)
            && db'.account.value.curve == change.portfolio.curve
  {
    hide Mutate, Execute, Loaded, CheckExits, Tracks, OneRowPerSymbol, StoredPositions, StoredTrades;
    var change := Mutate(c, Loaded(db), w);
    MutateTracks(c, db, w);
    RoundTrip(db, change.portfolio, change.closed, EntryIds(change.filled), ClientOrderId(w));
    ColumnKeepsRounded(change.portfolio.cash);
    var fields := Restored(db);
  }
}
