/** What a reload makes of a committed portfolio, computed before the write: its equity, its curve, and the next write. */
module PaperReload {
  import opened Rounding
  import opened PaperModel
  import opened PaperTotals
  import opened PaperAccounting
  import opened PaperEngine
  import opened PaperRepository
  import opened PaperLedger
  import opened PaperRoundTrip

  // ---- Equity, position by position ----

  /** One position's share of equity. */
  function LegValue(side: Side, quantity: real, mark: real, carry: real): real {
    (if side.Long? then quantity * mark else -(quantity * mark)) - carry
  }

  function Legs(marks: Marks, ps: seq<Position>): real {
    if ps == [] then 0.0 else
    var p := ps[|ps| - 1];
    Legs(marks, ps[..|ps| - 1]) + LegValue(p.side, p.quantity, Mark(marks, p), p.carry)
  }

  /** The mark a position is valued at after a reload. */
  function ReloadMark(marks: Marks, p: Position): real {
    if StoredMark(marks, p) > 0.0 then StoredMark(marks, p) else Column(p.entryPrice)
  }

  /** The same sum over what the columns keep. */
  function StoredLegs(marks: Marks, ps: seq<Position>): real {
    if ps == [] then 0.0 else
    var p := ps[|ps| - 1];
    StoredLegs(marks, ps[..|ps| - 1]) + LegValue(p.side, Column(p.quantity), ReloadMark(marks, p), Column(p.carry))
  }

  /** Equity after writing `s` and loading it again. */
  function EquityOnReload(s: Portfolio): real {
    Round2(s.cash) + StoredLegs(s.marks, s.positions)
  }

  lemma LegNumbers(marks: Marks, p: Position)
    ensures Measured(MarketValue(marks), p) - Measured(Carry, p) == LegValue(p.side, p.quantity, Mark(marks, p), p.carry)
  {
    hide Mark;
  }

  lemma {:induction false} TotalsAreLegs(marks: Marks, ps: seq<Position>)
    ensures Total(MarketValue(marks), ps) - Total(Carry, ps) == Legs(marks, ps)
  {
    hide Measured, LegValue;
    if ps != [] {
      TotalsAreLegs(marks, ps[..|ps| - 1]);
      LegNumbers(marks, ps[|ps| - 1]);
    }
  }

  lemma EquityIsLegs(s: Portfolio)
    ensures Equity(s) == s.cash + Legs(s.marks, s.positions)
  {
    hide Total, Legs;
    TotalsAreLegs(s.marks, s.positions);
  }

  lemma StoredFields(p: Position)
    ensures var q := StoredPosition(p);
            q.side == p.side && q.quantity == Column(p.quantity) && q.carry == Column(p.carry)
  {
    hide Column;
  }

  /** Legs of the stored positions, at marks loaded as `ReloadMark` says. */
  lemma {:induction false} LoadedLegs(marks: Marks, loaded: Marks, ps: seq<Position>)
    requires forall p | p in ps :: Mark(loaded, StoredPosition(p)) == ReloadMark(marks, p)
    ensures Legs(loaded, StoredPositions(ps)) == StoredLegs(marks, ps)
  {
    hide Column, Mark, StoredPosition, ReloadMark, LegValue;
    if ps != [] {
      var front, p := ps[..|ps| - 1], ps[|ps| - 1];
      LoadedLegs(marks, loaded, front);
      StoredFields(p);
      var qs := StoredPositions(ps);
      assert qs[..|qs| - 1] == StoredPositions(front);
    }
  }

  // ---- One commit and one load ----

  /** The reloaded equity, exactly. */
  lemma ReloadedEquityIs(db: Db, s: Portfolio, closed: seq<ClosedTrade>, entryIds: set<Id>, clientOrderId: Option<string>)
    requires Tracks(db, s, closed) && PersistResult(db, s, closed, entryIds, clientOrderId).Committed?
    ensures Equity(Loaded(PersistResult(db, s, closed, entryIds, clientOrderId).db)) == EquityOnReload(s)
  {
    hide Tracks, Loaded, Equity, Mark, StoredMark, StoredPosition, StoredPositions, Legs, StoredLegs, Total, PersistResult,
         OneRowPerSymbol, StoredTrades;
    RoundTrip(db, s, closed, entryIds, clientOrderId);
    PersistedCurve(db, s, closed, entryIds, clientOrderId);
    var loaded, qs := Loaded(PersistResult(db, s, closed, entryIds, clientOrderId).db), StoredPositions(s.positions);
    TotalPermuted(MarketValue(loaded.marks), loaded.positions, qs);
    TotalPermuted(Carry, loaded.positions, qs);
    TotalsAreLegs(loaded.marks, loaded.positions);
    TotalsAreLegs(loaded.marks, qs);
    LoadedLegs(s.marks, loaded.marks, s.positions);
    EquityIsLegs(loaded);
  }

  lemma PersistedCurve(db: Db, s: Portfolio, closed: seq<ClosedTrade>, entryIds: set<Id>, clientOrderId: Option<string>)
    requires PersistResult(db, s, closed, entryIds, clientOrderId).Committed?
    ensures var db' := PersistResult(db, s, closed, entryIds, clientOrderId).db;
            db'.account.Some? && db'.account.value.curve == s.curve
  {
    hide EntryOrders, ExitOrders, UpsertAll, CloseRows, Column, Round2;
  }

  lemma LoadedCurveIs(db: Db)
    requires db.account.Some? && db.account.value.curve != []
    ensures var curve := db.account.value.curve;
            Loaded(db).curve == if IsClose(curve[|curve| - 1], Equity(Loaded(db))) then curve else curve + [Equity(Loaded(db))]
  {
    hide LoadPositions, LoadTrades, LoadMarks, Total, IsClose;
  }

  /** A reload returns the curve point for point if and only if its last point is close to the reloaded equity. */
  lemma ReloadedCurveIff(db: Db, s: Portfolio, closed: seq<ClosedTrade>, entryIds: set<Id>, clientOrderId: Option<string>)
    requires Tracks(db, s, closed) && PersistResult(db, s, closed, entryIds, clientOrderId).Committed?
    requires s.curve != []
    ensures var curve := Loaded(PersistResult(db, s, closed, entryIds, clientOrderId).db).curve;
            && (curve == s.curve <==> IsClose(s.curve[|s.curve| - 1], EquityOnReload(s)))
            && (curve != s.curve ==> curve == s.curve + [EquityOnReload(s)])
  {
    hide Tracks, Loaded, Equity, PersistResult, EquityOnReload, IsClose;
    ReloadedEquityIs(db, s, closed, entryIds, clientOrderId);
    PersistedCurve(db, s, closed, entryIds, clientOrderId);
    LoadedCurveIs(PersistResult(db, s, closed, entryIds, clientOrderId).db);
  }

  // ---- How far the columns move equity ----

  /** Size of the numbers a position stores. */
  function Exposure(marks: Marks, ps: seq<Position>): real {
    if ps == [] then 0.0 else
    Exposure(marks, ps[..|ps| - 1]) + ps[|ps| - 1].quantity + Mark(marks, ps[|ps| - 1]) + 2.0
  }

  lemma ProductDrift(q: real, m: real, q': real, m': real)
    requires q >= 0.0 && m >= 0.0 && Abs(q' - q) <= 0.000000005 && Abs(m' - m) <= 0.000000005
    ensures Abs(q' * m' - q * m) <= 0.000000005 * (q + m + 1.0)
  {
    var dq, dm := q' - q, m' - m;
    assert q' * m' - q * m == q * dm + m * dq + dq * dm;
    BoundedProduct(q, dm);
    BoundedProduct(m, dq);
    BoundedProduct(1.0, dm);
    assert Abs(dq * dm) <= 0.000000005 by {
      assert Abs(dq) <= 1.0 && Abs(dm) <= 0.000000005;
      AbsProduct(dq, dm);
    }
  }

  lemma BoundedProduct(x: real, d: real)
    requires x >= 0.0 && Abs(d) <= 0.000000005
    ensures Abs(x * d) <= 0.000000005 * x
  {
  }

  lemma AbsProduct(a: real, b: real)
    requires Abs(a) <= 1.0
    ensures Abs(a * b) <= Abs(b)
  {
    ProductNonnegative(1.0 - a, Abs(b));
    ProductNonnegative(1.0 + a, Abs(b));
    assert (1.0 - a) * Abs(b) == Abs(b) - a * Abs(b);
    assert (1.0 + a) * Abs(b) == Abs(b) + a * Abs(b);
    assert a * b == if b < 0.0 then -(a * Abs(b)) else a * Abs(b);
  }

  lemma LegValueDrift(side: Side, q: real, m: real, c: real, q': real, m': real, c': real)
    requires q >= 0.0 && m >= 0.0
    requires Abs(q' - q) <= 0.000000005 && Abs(m' - m) <= 0.000000005 && Abs(c' - c) <= 0.000000005
    ensures Abs(LegValue(side, q', m', c') - LegValue(side, q, m, c)) <= 0.000000005 * (q + m + 2.0)
  {
    ProductDrift(q, m, q', m');
    SumDrift(q * m, c, q' * m', c', q + m + 1.0);
  }

  lemma SumDrift(value: real, carry: real, value': real, carry': real, size: real)
    requires Abs(value' - value) <= 0.000000005 * size && Abs(carry' - carry) <= 0.000000005
    ensures Abs((value' - carry') - (value - carry)) <= 0.000000005 * (size + 1.0)
    ensures Abs((-value' - carry') - (-value - carry)) <= 0.000000005 * (size + 1.0)
  {
  }

  /** A mark its column does not lose is reloaded as the column keeps it. */
  lemma KeptMark(marks: Marks, p: Position)
    requires Column(Mark(marks, p)) > 0.0
    ensures ReloadMark(marks, p) == Column(Mark(marks, p)) && Mark(marks, p) > 0.0
  {
    hide Mark;
  }

  lemma {:induction false} LegsDrift(marks: Marks, ps: seq<Position>)
    requires forall p | p in ps :: p.quantity >= 0.0 && Column(Mark(marks, p)) > 0.0
    ensures Abs(StoredLegs(marks, ps) - Legs(marks, ps)) <= 0.000000005 * Exposure(marks, ps)
  {
    hide Column, Mark, ReloadMark, LegValue;
    if ps != [] {
      var p := ps[|ps| - 1];
      LegsDrift(marks, ps[..|ps| - 1]);
      KeptMark(marks, p);
      LegValueDrift(p.side, p.quantity, Mark(marks, p), p.carry, Column(p.quantity), ReloadMark(marks, p), Column(p.carry));
    }
  }

  /** Half a cent for the cash and half a column digit for each unit of quantity and price stored. */
  lemma ReloadDrift(s: Portfolio)
    requires forall p | p in s.positions :: p.quantity >= 0.0 && Column(Mark(s.marks, p)) > 0.0
    ensures Abs(EquityOnReload(s) - Equity(s)) <= 0.005 + 0.000000005 * Exposure(s.marks, s.positions)
  {
    hide Column, Mark, Exposure, Legs, StoredLegs, Equity;
    EquityIsLegs(s);
    LegsDrift(s.marks, s.positions);
  }

  // ---- Ledger writes ----

  /** No open row holds a negative quantity. */
  ghost predicate Nonnegative(db: Db) {
    forall id | id in OpenRows(db.positions) :: db.positions[id].quantity >= 0.0
  }

  ghost predicate NonnegativeQuantities(ps: seq<Position>) {
    forall p | p in ps :: p.quantity >= 0.0
  }

  /** The portfolio a committed write has made. */
  function Written(c: Settings, db: Db, w: Write): Portfolio
    requires db.account.Some? && WriteResult(c, db, w).Done?
  {
    Mutate(c, Loaded(db), w).portfolio
  }

  lemma LoadedQuantities(db: Db)
    requires db.account.Some? && Nonnegative(db)
    ensures NonnegativeQuantities(Loaded(db).positions)
  {
    hide LoadOrder, LoadMarks, LoadTrades, IsClose, Equity;
    var rows := OpenRows(db.positions);
    var ps := LoadPositions(rows);
    var s := Restored(db);
    var ids := LoadOrder(OpeningTimes(rows));
    assert forall i | 0 <= i < |ps| :: ids[i] in rows && ps[i].quantity == rows[ids[i]].quantity;
  }

  lemma CloseQuantities(c: Config, s: Portfolio, id: Id, price: real, reason: ExitReason, when: Time)
    requires ValidConfig(c) && NonnegativeQuantities(s.positions)
    ensures NonnegativeQuantities(Close(c, s, id, price, reason, when).0.positions)
  {
    CloseTouchesOne(c, s, id, price, reason, when);
    hide Close;
  }

  lemma MutateQuantities(c: Settings, s: Portfolio, w: Write)
    requires NonnegativeQuantities(s.positions) && Mutate(c, s, w).Change?
    ensures NonnegativeQuantities(Mutate(c, s, w).portfolio.positions)
  {
    match w
    case Fill(r, now, newId, _) =>
      FillParts(c, s, r, now, newId);
      hide Execute, AffordableQuantity, PositionOf, Close, Measured, Equity;
      var i := FindSymbol(s.positions, r.symbol);
      if i < |s.positions| {
        CloseQuantities(c, s, s.positions[i].id, r.price, OnSignal, now);
      }
    case CandleClose(k, when) =>
      CheckExitsTouchesClosed(c, s, s.positions, k, when);
      MarkQuantities(c, CheckStops(c, s, k, when).0, k.symbol, k.close, when);
      hide CheckExits, PaperModel.MarkToMarket;
  }

  lemma MarkQuantities(c: Config, s: Portfolio, symbol: Symbol, price: real, when: Time)
    requires NonnegativeQuantities(s.positions)
    ensures NonnegativeQuantities(MarkToMarket(c, s, symbol, price, when).positions)
  {
    hide Equity, CarryCost;
    assert forall i | 0 <= i < |s.positions| :: s.positions[i] in s.positions;
  }

  lemma ColumnKeepsSign(x: real)
    requires x >= 0.0
    ensures Column(x) >= 0.0
  {
  }

  lemma RowQuantity(p: Position, mark: real)
    ensures RowOf(p, mark).quantity == Column(p.quantity)
  {
    hide Column;
  }

  lemma CommitQuantities(db: Db, s: Portfolio, closed: seq<ClosedTrade>, entryIds: set<Id>, clientOrderId: Option<string>)
    requires Tracks(db, s, closed) && NonnegativeQuantities(s.positions)
    requires PersistResult(db, s, closed, entryIds, clientOrderId).Committed?
    ensures Nonnegative(PersistResult(db, s, closed, entryIds, clientOrderId).db)
  {
    CommittedRows(db, s, closed, entryIds, clientOrderId);
    hide PersistResult, RowOf, Mark, Tracks, Column;
    var db' := PersistResult(db, s, closed, entryIds, clientOrderId).db;
    forall id | id in OpenRows(db'.positions)
      ensures db'.positions[id].quantity >= 0.0
    {
      var p :| p in s.positions && p.id == id;
      RowQuantity(p, Mark(s.marks, p));
      ColumnKeepsSign(p.quantity);
    }
  }

  /** Every committed write keeps stored quantities non-negative. */
  lemma WriteKeepsQuantities(c: Settings, db: Db, w: Write)
    requires db.account.Some? && OneRowPerSymbol(db) && FreshInDb(db, w) && Nonnegative(db)
    requires WriteResult(c, db, w).Done?
    ensures NonnegativeQuantities(Written(c, db, w).positions)
    ensures Nonnegative(WriteResult(c, db, w).db)
  {
    hide Mutate, Loaded, Tracks, OneRowPerSymbol, Nonnegative, NonnegativeQuantities, PersistResult, KnownClientId;
    var change := Mutate(c, Loaded(db), w);
    LoadedQuantities(db);
    MutateQuantities(c, Loaded(db), w);
    MutateTracks(c, db, w);
    CommitQuantities(db, change.portfolio, change.closed, EntryIds(change.filled), ClientOrderId(w));
  }

  lemma FillEndsAtEquity(c: Settings, s: Portfolio, w: Write)
    requires w.Fill? && Mutate(c, s, w).Change?
    ensures var s' := Mutate(c, s, w).portfolio; s'.curve != [] && s'.curve[|s'.curve| - 1] == Equity(s')
  {
    FillParts(c, s, w.request, w.now, w.newId);
    hide Execute, BeforeFill, Measured, Total;
  }

  /** For every committed ledger write: the reloaded equity, and exactly when the curve comes back point for point. After
      a fill the point compared is the equity of the moment. */
  lemma WriteReloads(c: Settings, db: Db, w: Write)
    requires db.account.Some? && OneRowPerSymbol(db) && FreshInDb(db, w)
    requires WriteResult(c, db, w).Done?
    ensures var s, loaded := Written(c, db, w), Loaded(WriteResult(c, db, w).db);
            && Equity(loaded) == EquityOnReload(s)
            && s.curve != []
            && (loaded.curve == s.curve <==> IsClose(s.curve[|s.curve| - 1], EquityOnReload(s)))
            && (loaded.curve != s.curve ==> loaded.curve == s.curve + [EquityOnReload(s)])
            && (w.Fill? ==> s.curve[|s.curve| - 1] == Equity(s))
  {
    hide Mutate, Loaded, Tracks, OneRowPerSymbol, PersistResult, Equity, EquityOnReload, IsClose, KnownClientId;
    var change := Mutate(c, Loaded(db), w);
    MutateTracks(c, db, w);
    TracksCoherent(db, change.portfolio, change.closed);
    ReloadedEquityIs(db, change.portfolio, change.closed, EntryIds(change.filled), ClientOrderId(w));
    ReloadedCurveIff(db, change.portfolio, change.closed, EntryIds(change.filled), ClientOrderId(w));
    if w.Fill? {
      FillEndsAtEquity(c, Loaded(db), w);
    }
  }

  /** So a fill adds no point on reload while its column loses no mark and quantities and marks stay moderate together:
      `Exposure`, which is quantity plus mark plus two summed over the open positions, is at most a million. */
  lemma SmallFillKeepsCurve(c: Settings, db: Db, w: Write)
    requires db.account.Some? && OneRowPerSymbol(db) && FreshInDb(db, w) && Nonnegative(db)
    requires w.Fill? && WriteResult(c, db, w).Done?
    requires var s := Written(c, db, w);
             (forall p | p in s.positions :: Column(Mark(s.marks, p)) > 0.0) && Exposure(s.marks, s.positions) <= 1000000.0
    ensures Loaded(WriteResult(c, db, w).db).curve == Written(c, db, w).curve
  {
    hide Mutate, Loaded, OneRowPerSymbol, PersistResult, Equity, EquityOnReload, Mark, Column, Exposure, Nonnegative;
    WriteReloads(c, db, w);
    WriteKeepsQuantities(c, db, w);
    var change := Mutate(c, Loaded(db), w);
    ReloadDrift(change.portfolio);
  }

  // ---- Writing a loaded ledger back ----

  /** An open row that loading and writing leave as it is: stored numbers and a positive price. */
  predicate Settled(row: PositionRow) {
    && row.isOpen && row.currentPrice > 0.0
    && Stored(row.quantity) && Stored(row.entryPrice) && Stored(row.currentPrice)
    && Stored(row.entryCommission) && Stored(row.margin) && Stored(row.carry)
    && ColumnOption(row.stopLoss) == row.stopLoss && ColumnOption(row.takeProfit) == row.takeProfit
  }

  ghost predicate SettledDb(db: Db) {
    && db.account.Some? && OneRowPerSymbol(db)
    && (forall id | id in OpenRows(db.positions) :: Settled(db.positions[id]))
    && Stored(db.account.value.initial) && db.account.value.initial >= MINIMUM_CAPITAL
    && Stored(db.account.value.cash) && Round2(db.account.value.cash) == db.account.value.cash
  }

  lemma SettledRowIsKept(id: Id, row: PositionRow, rows: map<Id, PositionRow>, marks: Marks)
    requires Settled(row) && id in rows && rows[id] == row && Mark(marks, LoadPosition(id, row)) == row.currentPrice
    ensures UpsertedRow(rows, LoadPosition(id, row), marks) == row
  {
    hide Mark, Column;
  }

  lemma SettledMark(rows: map<Id, PositionRow>, id: Id)
    requires id in rows && Settled(rows[id])
    requires forall a, b | a in rows && b in rows && a != b :: rows[a].symbol != rows[b].symbol
    ensures Mark(LoadMarks(rows, LoadOrder(OpeningTimes(rows))), LoadPosition(id, rows[id])) == rows[id].currentPrice
  {
    hide LoadOrder, LoadMarks, Stored, Column;
    var ids := LoadOrder(OpeningTimes(rows));
    assert id in OpeningTimes(rows);
    var i :| 0 <= i < |ids| && ids[i] == id;
    LoadedMarkAt(rows, ids, i);
  }

  lemma LoadedFrom(rows: map<Id, PositionRow>, p: Position)
    requires p in LoadPositions(rows)
    ensures p.id in rows && p == LoadPosition(p.id, rows[p.id])
  {
    hide LoadOrder;
    var ids := LoadOrder(OpeningTimes(rows));
    var i :| 0 <= i < |ids| && LoadPositions(rows)[i] == p;
    assert ids[i] in OpeningTimes(rows);
  }

  /** Upserting what was loaded rewrites every row as it was. */
  lemma SettledRowsAreKept(db: Db)
    requires SettledDb(db)
    ensures var rows := OpenRows(db.positions);
            UpsertAll(db.positions, LoadPositions(rows), LoadMarks(rows, LoadOrder(OpeningTimes(rows)))) == db.positions
  {
    hide Settled, Stored, LoadOrder, LoadMarks, UpsertedRow, LoadPosition, LoadPositions, Mark;
    var rows := OpenRows(db.positions);
    var ps, marks := LoadPositions(rows), LoadMarks(rows, LoadOrder(OpeningTimes(rows)));
    LoadedShape(rows);
    UpsertedRows(db.positions, ps, marks);
    forall p | p in ps
      ensures p.id in db.positions && UpsertedRow(db.positions, p, marks) == db.positions[p.id]
    {
      LoadedFrom(rows, p);
      SettledMark(rows, p.id);
      SettledRowIsKept(p.id, rows[p.id], db.positions, marks);
    }
    assert UpsertAll(db.positions, ps, marks).Keys == db.positions.Keys;
  }

  lemma {:induction false} NoEntries(orders: Option<seq<OrderRow>>, ps: seq<Position>)
    ensures EntryOrders(orders, ps, {}, None) == orders
  {
    if ps != [] {
      NoEntries(orders, ps[..|ps| - 1]);
    }
  }

  /** Writing a settled ledger's loaded portfolio back leaves every row, trade, order and amount as it is, and loading
      that gives the same portfolio again. */
  lemma RewriteIsIdle(db: Db)
    requires SettledDb(db)
    ensures var r := PersistResult(db, Loaded(db), [], {}, None);
            && r.Committed?
            && r.db == db.(account := Some(db.account.value.(curve := Loaded(db).curve)))
            && Loaded(r.db) == Loaded(db)
  {
    var s := Restored(db);
    SettledRowsAreKept(db);
    NoEntries(Some(db.orders), s.positions);
    assert TradeRows([]) == [] && db.trades + [] == db.trades;
    hide LoadPositions, LoadTrades, LoadMarks, LoadOrder, UpsertAll, EntryOrders, Loaded, Settled, OneRowPerSymbol;
    var db' := PersistResult(db, s, [], {}, None).db;
    assert db' == db.(account := Some(db.account.value.(curve := s.curve)));
    SameAfterReload(db, db');
  }

  lemma SameAfterReload(db: Db, db': Db)
    requires db.account.Some? && db' == db.(account := Some(db.account.value.(curve := Loaded(db).curve)))
    ensures Loaded(db') == Loaded(db)
  {
    hide LoadPositions, LoadTrades, LoadMarks, LoadOrder, Total;
    LastPointIsCurrent(Loaded(db).initial, Loaded(db).cash, Loaded(db).positions, Loaded(db).closed,
                       db.account.value.curve, Loaded(db).marks);
  }

  lemma RowIsSettled(p: Position, mark: real)
    requires Column(mark) > 0.0
    ensures Settled(RowOf(p, mark))
  {
    ColumnTwice(p.quantity);
    ColumnTwice(p.entryPrice);
    ColumnTwice(mark);
    ColumnTwice(p.entryCommission);
    ColumnTwice(p.margin);
    ColumnTwice(p.carry);
    ColumnOptionTwice(p.stopLoss);
    ColumnOptionTwice(p.takeProfit);
    hide Column;
  }

  lemma ColumnKeepsFloor(x: real)
    requires x >= MINIMUM_CAPITAL
    ensures Column(x) >= MINIMUM_CAPITAL
  {
  }

  /** Every commit whose marks are not below their column is settled: a second write and load change nothing more. */
  lemma SecondReloadIsIdle(db: Db, s: Portfolio, closed: seq<ClosedTrade>, entryIds: set<Id>, clientOrderId: Option<string>)
    requires Tracks(db, s, closed) && s.initial >= MINIMUM_CAPITAL
    requires PersistResult(db, s, closed, entryIds, clientOrderId).Committed?
    requires forall p | p in s.positions :: Column(Mark(s.marks, p)) > 0.0
    ensures var db1 := PersistResult(db, s, closed, entryIds, clientOrderId).db;
            && SettledDb(db1)
            && var second := PersistResult(db1, Loaded(db1), [], {}, None);
               second.Committed? && second.db.positions == db1.positions && second.db.trades == db1.trades
               && second.db.orders == db1.orders && second.db.account.value.cash == db1.account.value.cash
               && Loaded(second.db) == Loaded(db1)
  {
    var db1 := PersistResult(db, s, closed, entryIds, clientOrderId).db;
    CommitIsSettled(db, s, closed, entryIds, clientOrderId);
    hide PersistResult, Loaded, SettledDb, Tracks, Column, Mark;
    RewriteIsIdle(db1);
  }

  lemma CommitIsSettled(db: Db, s: Portfolio, closed: seq<ClosedTrade>, entryIds: set<Id>, clientOrderId: Option<string>)
    requires Tracks(db, s, closed) && s.initial >= MINIMUM_CAPITAL
    requires PersistResult(db, s, closed, entryIds, clientOrderId).Committed?
    requires forall p | p in s.positions :: Column(Mark(s.marks, p)) > 0.0
    ensures SettledDb(PersistResult(db, s, closed, entryIds, clientOrderId).db)
  {
    var db1 := PersistResult(db, s, closed, entryIds, clientOrderId).db;
    hide RowOf, Mark, Settled, UpsertAll, CloseRows, EntryOrders, ExitOrders, Column, OneRowPerSymbol, Loaded, Round2;
    CommittedRows(db, s, closed, entryIds, clientOrderId);
    RoundTrip(db, s, closed, entryIds, clientOrderId);
    ColumnTwice(s.initial);
    ColumnKeepsFloor(s.initial);
    ColumnKeepsRounded(s.cash);
    Round2Twice(s.cash);
    forall id | id in OpenRows(db1.positions)
      ensures Settled(db1.positions[id])
    {
      var p :| p in s.positions && p.id == id;
      RowIsSettled(p, Mark(s.marks, p));
    }
  }

  /** So it is with every ledger write. */
  lemma WriteSettles(c: Settings, db: Db, w: Write)
    requires db.account.Some? && OneRowPerSymbol(db) && FreshInDb(db, w) && WriteResult(c, db, w).Done?
    requires var s := Written(c, db, w); forall p | p in s.positions :: Column(Mark(s.marks, p)) > 0.0
    ensures var db1 := WriteResult(c, db, w).db;
            && SettledDb(db1)
            && PersistResult(db1, Loaded(db1), [], {}, None).Committed?
            && Loaded(PersistResult(db1, Loaded(db1), [], {}, None).db) == Loaded(db1)
  {
    hide Mutate, Loaded, Tracks, OneRowPerSymbol, PersistResult, KnownClientId, SettledDb, Mark, Column;
    var change := Mutate(c, Loaded(db), w);
    MutateTracks(c, db, w);
    MutateKeepsInitial(c, Loaded(db), w);
    LoadedCapital(db);
    assert Written(c, db, w) == change.portfolio;
    SecondReloadIsIdle(db, change.portfolio, change.closed, EntryIds(change.filled), ClientOrderId(w));
  }

  // ---- Beyond that size a fill may add a point ----

  const FREE := Config(0.0, 0.0, 0.0, 0.0, map[], map[], map[])

  /** A new account of ten million, and a third of a unit bought at ten million. */
  const NEW_ACCOUNT := Db(Some(Account(10000000.0, 10000000.0, [10000000.0])), map[], [], [])
  const LARGE_BUY := Request("X", "long", 0.333333333333, 10000000.0, None, None, "")
  const LARGE := Position(1, "X", Long, 0.333333333333, 10000000.0, 0.0, None, None, "", 0.0, 0.0, 0.0, 0.0)

  lemma NothingToLoad(rows: map<Id, PositionRow>)
    requires rows == map[]
    ensures OpenRows(rows) == map[] && LoadPositions(rows) == [] && LoadMarks(rows, LoadOrder(OpeningTimes(rows))) == map[]
    ensures LoadTrades([]) == []
  {
    assert OpeningTimes(rows) == map[];
  }

  lemma NewAccountIsFresh()
    ensures NEW_ACCOUNT.account.Some? && Loaded(NEW_ACCOUNT) == Fresh(10000000.0) && OneRowPerSymbol(NEW_ACCOUNT)
  {
    hide LoadPositions, LoadTrades, LoadMarks, LoadOrder, OpenRows, Loaded, Total;
    NothingToLoad(map[]);
    var s := Restored(NEW_ACCOUNT);
    LoadedCurveIs(NEW_ACCOUNT);
    NoTotals(s.marks);
  }

  lemma NoTotals(marks: Marks)
    ensures Total(Carry, []) == 0.0 && Total(MarketValue(marks), []) == 0.0
  {
  }

  /** The engine accepts it. */
  lemma LargeBuyFills(c: Settings)
    requires c == FREE
    ensures var (s, outcome) := Execute(c, Fresh(10000000.0), LARGE_BUY, 0.0, 1);
            && outcome == Accepted(LARGE, None)
            && s.cash == 6666666.66667 && s.positions == [LARGE] && s.closed == []
            && s.marks == map["X" := 10000000.0]
  {
    var s := Fresh(10000000.0);
    assert Equity(s) == 10000000.0;
    assert SlippageFor(c, "X") == 0.0;
    assert AffordableQuantity(c, s, Long, 10000000.0) == 1.0;
    assert PositionOf(c, Long, LARGE_BUY, 10000000.0, 0.333333333333, 0.0, 1) == LARGE;
    hide Equity;
  }

  lemma LargeColumns(marks: Marks)
    requires marks == map["X" := 10000000.0]
    ensures Column(LARGE.quantity) == 0.33333333 && Column(LARGE.carry) == 0.0
    ensures ReloadMark(marks, LARGE) == 10000000.0
  {
    assert Column(10000000.0) == 10000000.0;
  }

  lemma OneStoredLeg(marks: Marks, p: Position)
    ensures StoredLegs(marks, [p]) == LegValue(p.side, Column(p.quantity), ReloadMark(marks, p), Column(p.carry))
    ensures Legs(marks, [p]) == LegValue(p.side, p.quantity, Mark(marks, p), p.carry)
  {
    hide Column, ReloadMark, Mark;
    assert [p][..0] == [];
  }

  lemma LargeOnReload(s: Portfolio)
    requires s.cash == 6666666.66667 && s.positions == [LARGE] && s.marks == map["X" := 10000000.0]
    ensures Equity(s) == 10000000.0 && EquityOnReload(s) == 9999999.97
  {
    hide Equity, Column, ReloadMark, StoredLegs, Legs;
    EquityIsLegs(s);
    LargeColumns(s.marks);
    OneStoredLeg(s.marks, LARGE);
    assert Round2(6666666.66667) == 6666666.67;
  }

  lemma LargeBuyCommits(c: Settings, db: Db, w: Write)
    requires db == NEW_ACCOUNT && w == Fill(LARGE_BUY, 0.0, 1, None) && Loaded(db) == Fresh(10000000.0)
    requires var (s, outcome) := Execute(c, Loaded(db), w.request, w.now, w.newId);
             outcome == Accepted(LARGE, None) && s.positions == [LARGE]
    ensures FreshInDb(db, w) && WriteResult(c, db, w).Done?
  {
    hide Execute, Loaded, UpsertAll, CloseRows, Column, Round2;
    assert [LARGE][..0] == [];
    assert EntryOrders(Some([]), [], {1}, None) == Some([]);
    assert EntryOrders(Some([]), [LARGE], {1}, None).Some?;
  }

  /** `w` commits, and the next load adds a point three cents below the last one. */
  ghost predicate LosesThreeCents(c: Settings, db: Db, w: Write)
    requires db.account.Some?
  {
    && OneRowPerSymbol(db) && w.Fill? && FreshInDb(db, w) && WriteResult(c, db, w).Done?
    && var s := Execute(c, Loaded(db), w.request, w.now, w.newId).0;
       s.curve != [] && Loaded(WriteResult(c, db, w).db).curve == s.curve + [s.curve[|s.curve| - 1] - 0.03]
  }

  lemma LargeReload(c: Settings, db: Db, w: Write)
    requires db.account.Some? && OneRowPerSymbol(db) && w.Fill? && FreshInDb(db, w) && WriteResult(c, db, w).Done?
    requires var s := Execute(c, Loaded(db), w.request, w.now, w.newId).0;
             Equity(s) == 10000000.0 && EquityOnReload(s) == 9999999.97
    ensures LosesThreeCents(c, db, w)
  {
    hide Execute, Loaded, PersistResult, OneRowPerSymbol, Equity, EquityOnReload;
    WriteReloads(c, db, w);
  }

  /** A third of a unit at ten million, bought by a new account of ten million. */
  lemma ReloadMayAddPoint(c: Settings, db: Db, w: Write)
    requires c == FREE && db == NEW_ACCOUNT && w == Fill(LARGE_BUY, 0.0, 1, None)
    ensures db.account.Some? && Loaded(db) == Fresh(10000000.0)
    ensures LosesThreeCents(c, db, w)
  {
    hide Loaded, OneRowPerSymbol, Equity, EquityOnReload, Execute, LosesThreeCents, WriteResult;
    NewAccountIsFresh();
    LargeBuyFills(c);
    LargeBuyCommits(c, db, w);
    LargeOnReload(Execute(c, Loaded(db), w.request, w.now, w.newId).0);
    LargeReload(c, db, w);
  }
}
