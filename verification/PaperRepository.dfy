/** The durable ledger: its tables, and the repository that loads them into an engine and writes an engine back. */
module PaperRepository {
  import opened Rounding
  import opened PaperModel
  import opened PaperEngine

  // ---- Tables ----

  /** A row of `positions`; its key is the position id. Numeric columns hold what NUMERIC(20, 8) keeps. */
  datatype PositionRow = PositionRow(
    symbol: Symbol, side: Side, quantity: real, entryPrice: real, currentPrice: real,
    stopLoss: Option<real>, takeProfit: Option<real>, strategy: string, openedAt: Time,
    entryCommission: real, margin: real, carry: real, accruedAt: Time, isOpen: bool)

  datatype OrderRow = OrderRow(
    symbol: Symbol, buy: bool, quantity: real, price: real, positionId: Option<Id>, clientOrderId: Option<string>)

  /** The paper account's portfolio row; the curve is a JSON list and keeps every digit. */
  datatype Account = Account(initial: real, cash: real, curve: seq<real>)

  /** `trade_history` keeps closed trades without their position id. */
  datatype Db = Db(account: Option<Account>, positions: map<Id, PositionRow>, trades: seq<ClosedTrade>,
                   orders: seq<OrderRow>)

  // ---- Loading ----

  /** ORDER BY opened_at, id. */
  predicate Earlier(openedAt: map<Id, Time>, a: Id, b: Id)
    requires a in openedAt && b in openedAt
  {
    openedAt[a] < openedAt[b] || (openedAt[a] == openedAt[b] && a < b)
  }

  predicate Earliest(openedAt: map<Id, Time>, a: Id) {
    a in openedAt && forall b | b in openedAt && b != a :: Earlier(openedAt, a, b)
  }

  lemma {:induction false} FindEarliest(openedAt: map<Id, Time>) returns (a: Id)
    requires openedAt != map[]
    ensures Earliest(openedAt, a)
    decreases |openedAt|
  {
    var x :| x in openedAt;
    var rest := openedAt - {x};
    assert forall b | b in openedAt :: b == x || b in rest;
    a := x;
    if rest != map[] {
      var first := FindEarliest(rest);
      assert forall b | b in rest && b != first :: Earlier(rest, first, b);
      if Earlier(openedAt, first, x) {
        a := first;
      }
    }
  }

  lemma EarliestExists(openedAt: map<Id, Time>)
    requires openedAt != map[]
    ensures exists a :: Earliest(openedAt, a)
  {
    var a := FindEarliest(openedAt);
  }

  /** The keys in loading order. */
  function LoadOrder(openedAt: map<Id, Time>): (ids: seq<Id>)
    ensures forall id :: id in ids <==> id in openedAt
    ensures forall i | 0 <= i < |ids| :: ids[i] in openedAt
    ensures forall i, j | 0 <= i < j < |ids| :: ids[i] != ids[j]
    decreases |openedAt|
  {
    if openedAt == map[] then [] else
    EarliestExists(openedAt);
    var a :| Earliest(openedAt, a);
    [a] + LoadOrder(openedAt - {a})
  }

  function OpeningTimes(rows: map<Id, PositionRow>): map<Id, Time> {
    map id | id in rows :: rows[id].openedAt
  }

  function OpenRows(rows: map<Id, PositionRow>): map<Id, PositionRow> {
    map id | id in rows && rows[id].isOpen :: rows[id]
  }

  /** A zero current price falls back to the entry price. */
  function LoadedMark(row: PositionRow): real {
    if row.currentPrice != 0.0 then row.currentPrice else row.entryPrice
  }

  function LoadPosition(id: Id, row: PositionRow): Position {
    Position(id, row.symbol, row.side, row.quantity, row.entryPrice, row.openedAt, row.stopLoss, row.takeProfit,
             row.strategy, row.entryCommission, row.margin, row.carry, row.accruedAt)
  }

  function LoadPositions(rows: map<Id, PositionRow>): (ps: seq<Position>)
    ensures var ids := LoadOrder(OpeningTimes(rows));
            |ps| == |ids| && forall i | 0 <= i < |ids| :: ps[i] == LoadPosition(ids[i], rows[ids[i]])
  {
    var ids := LoadOrder(OpeningTimes(rows));
    seq(|ids|, i requires 0 <= i < |ids| => LoadPosition(ids[i], rows[ids[i]]))
  }

  function LoadMarks(rows: map<Id, PositionRow>, ids: seq<Id>): Marks
    requires forall id | id in ids :: id in rows
  {
    if ids == [] then map[] else
    var front, id := ids[..|ids| - 1], ids[|ids| - 1];
    var marks := LoadMarks(rows, front);
    if LoadedMark(rows[id]) > 0.0 then marks[rows[id].symbol := LoadedMark(rows[id])] else marks
  }

  function LoadTrade(t: ClosedTrade): ClosedTrade {
    t.(exitPrice := if t.exitPrice != 0.0 then t.exitPrice else t.entryPrice, positionId := None)
  }

  function InsertByExit(t: ClosedTrade, sorted: seq<ClosedTrade>): (r: seq<ClosedTrade>)
    ensures multiset(r) == multiset(sorted) + multiset{t}
  {
    if sorted == [] || sorted[|sorted| - 1].exitAt <= t.exitAt then sorted + [t]
    else
      var front, last := sorted[..|sorted| - 1], sorted[|sorted| - 1];
      assert sorted == front + [last];
      InsertByExit(t, front) + [last]
  }

  /** ORDER BY exit_at, then insertion order. */
  function LoadTrades(ts: seq<ClosedTrade>): seq<ClosedTrade> {
    if ts == [] then [] else InsertByExit(LoadTrade(ts[|ts| - 1]), LoadTrades(ts[..|ts| - 1]))
  }

  /** The engine a seeded database describes. */
  function Loaded(db: Db): Portfolio
    requires db.account.Some?
  {
    var a, rows := db.account.value, OpenRows(db.positions);
    Restore(Max(a.initial, MINIMUM_CAPITAL), a.cash, LoadPositions(rows), LoadTrades(db.trades), a.curve,
            LoadMarks(rows, LoadOrder(OpeningTimes(rows))))
  }

  // ---- Writing ----

  function RowOf(p: Position, mark: real): PositionRow {
    PositionRow(p.symbol, p.side, Column(p.quantity), Column(p.entryPrice), Column(mark), ColumnOption(p.stopLoss),
                ColumnOption(p.takeProfit), p.strategy, p.entryAt, Column(p.entryCommission), Column(p.margin),
                Column(p.carry), p.accruedAt, true)
  }

  /** INSERT ... ON CONFLICT (id) DO UPDATE, which never touches `opened_at`. */
  function Upsert(rows: map<Id, PositionRow>, p: Position, marks: Marks): map<Id, PositionRow> {
    var row := RowOf(p, Mark(marks, p));
    rows[p.id := if p.id in rows then row.(openedAt := rows[p.id].openedAt) else row]
  }

  function UpsertAll(rows: map<Id, PositionRow>, ps: seq<Position>, marks: Marks): map<Id, PositionRow> {
    if ps == [] then rows else Upsert(UpsertAll(rows, ps[..|ps| - 1], marks), ps[|ps| - 1], marks)
  }

  function Shut(row: PositionRow, t: ClosedTrade): PositionRow {
    row.(isOpen := false, currentPrice := Column(t.exitPrice), carry := Column(t.carry), accruedAt := t.exitAt)
  }

  /** Without a position id the open row of the trade's symbol and side is closed. */
  predicate Matches(id: Id, row: PositionRow, t: ClosedTrade) {
    if t.positionId.Some? then id == t.positionId.value
    else row.symbol == t.symbol && row.side == t.side && row.isOpen
  }

  function CloseRow(rows: map<Id, PositionRow>, t: ClosedTrade): map<Id, PositionRow> {
    map id | id in rows :: if Matches(id, rows[id], t) then Shut(rows[id], t) else rows[id]
  }

  function CloseRows(rows: map<Id, PositionRow>, ts: seq<ClosedTrade>): map<Id, PositionRow> {
    if ts == [] then rows else CloseRow(CloseRows(rows, ts[..|ts| - 1]), ts[|ts| - 1])
  }

  function TradeRow(t: ClosedTrade): ClosedTrade {
    t.(quantity := Column(t.quantity), entryPrice := Column(t.entryPrice), exitPrice := Column(t.exitPrice),
       pnl := Column(t.pnl), entryCommission := Column(t.entryCommission),
       exitCommission := Column(t.exitCommission), carry := Column(t.carry), positionId := None)
  }

  function TradeRows(ts: seq<ClosedTrade>): seq<ClosedTrade> {
    seq(|ts|, i requires 0 <= i < |ts| => TradeRow(ts[i]))
  }

  function EntryOrder(p: Position, clientOrderId: Option<string>): OrderRow {
    OrderRow(p.symbol, p.side.Long?, Column(p.quantity), Column(p.entryPrice), Some(p.id), clientOrderId)
  }

  function ExitOrder(t: ClosedTrade): OrderRow {
    OrderRow(t.symbol, t.side.Short?, Column(t.quantity), Column(t.exitPrice), t.positionId, None)
  }

  predicate UsedClientId(orders: seq<OrderRow>, clientOrderId: string) {
    exists i | 0 <= i < |orders| :: orders[i].clientOrderId == Some(clientOrderId)
  }

  /** The unique index on client order ids refuses a duplicate, and with it the whole transaction. */
  function InsertOrder(orders: Option<seq<OrderRow>>, o: OrderRow): Option<seq<OrderRow>> {
    if orders.None? || (o.clientOrderId.Some? && UsedClientId(orders.value, o.clientOrderId.value)) then None
    else Some(orders.value + [o])
  }

  function EntryOrders(orders: Option<seq<OrderRow>>, ps: seq<Position>, entryIds: set<Id>,
                       clientOrderId: Option<string>): Option<seq<OrderRow>>
  {
    if ps == [] then orders else
    var front := EntryOrders(orders, ps[..|ps| - 1], entryIds, clientOrderId);
    var p := ps[|ps| - 1];
    if p.id in entryIds then InsertOrder(front, EntryOrder(p, clientOrderId)) else front
  }

  function ExitOrders(orders: Option<seq<OrderRow>>, ts: seq<ClosedTrade>): Option<seq<OrderRow>> {
    if ts == [] then orders else InsertOrder(ExitOrders(orders, ts[..|ts| - 1]), ExitOrder(ts[|ts| - 1]))
  }

  datatype Commit = Committed(db: Db) | Unseeded | Conflict | Failed

  /** One transaction: everything the engine holds and the newly closed trades, or nothing. */
  function PersistResult(db: Db, s: Portfolio, closed: seq<ClosedTrade>, entryIds: set<Id>,
                         clientOrderId: Option<string>): (commit: Commit)
    ensures commit.Committed? ==> db.account.Some? && commit.db.account.Some?
  {
    if db.account.None? then Unseeded else
    var orders := ExitOrders(EntryOrders(Some(db.orders), s.positions, entryIds, clientOrderId), closed);
    if orders.None? then Conflict else
    Committed(Db(
      Some(Account(Column(s.initial), Column(Round2(s.cash)), s.curve)),
      CloseRows(UpsertAll(db.positions, s.positions, s.marks), closed),
      db.trades + TradeRows(closed),
      orders.value))
  }

  class PaperLedgerRepository {
    var db: Db

    constructor (db: Db)
      ensures this.db == db
    {
      this.db := db;
    }

    method ClientOrderIdExists(clientOrderId: string) returns (found: bool)
      ensures found == UsedClientId(db.orders, clientOrderId)
    {
      found := false;
      for i := 0 to |db.orders|
        invariant found == exists j | 0 <= j < i :: db.orders[j].clientOrderId == Some(clientOrderId)
      {
        if db.orders[i].clientOrderId == Some(clientOrderId) {
          found := true;
        }
      }
    }

    /** Reads the rows of `ids` in order, one position and at most one mark from each. */
    method ReadRows(rows: map<Id, PositionRow>, ids: seq<Id>) returns (positions: seq<Position>, marks: Marks)
      requires forall id | id in ids :: id in rows
      ensures |positions| == |ids| && marks == LoadMarks(rows, ids)
      ensures forall j | 0 <= j < |ids| :: positions[j] == LoadPosition(ids[j], rows[ids[j]])
    {
      hide LoadPosition;
      positions, marks := [], map[];
      for i := 0 to |ids|
        invariant |positions| == i
        invariant forall j | 0 <= j < i :: positions[j] == LoadPosition(ids[j], rows[ids[j]])
        invariant marks == LoadMarks(rows, ids[..i])
      {
        assert ids[..i + 1][..i] == ids[..i];
        var row := rows[ids[i]];
        var mark := if row.currentPrice != 0.0 then row.currentPrice else row.entryPrice;
        positions := positions + [LoadPosition(ids[i], row)];
        if mark > 0.0 {
          marks := marks[row.symbol := mark];
        }
      }
      assert ids[..|ids|] == ids;
    }

    /** Loads the ledger into `engine`; without a seeded account the engine stays as it is. */
    method Hydrate(engine: PaperTradingEngine) returns (seeded: bool)
      modifies engine
      ensures seeded == db.account.Some?
      ensures seeded ==> engine.Contents() == Loaded(db)
      ensures !seeded ==> engine.Contents() == old(engine.Contents())
    {
      if db.account.None? {
        return false;
      }
      hide Restore, LoadTrades, LoadOrder, LoadPosition, LoadMarks, OpenRows, OpeningTimes;
      var account, rows := db.account.value, OpenRows(db.positions);
      var ids := LoadOrder(OpeningTimes(rows));
      var positions, marks := ReadRows(rows, ids);
      assert positions == LoadPositions(rows);
      engine.RestoreState(Some(account.initial), account.cash, positions, LoadTrades(db.trades), account.curve, marks);
      return true;
    }

    /** `fault` is any database error before the commit; like a conflict it discards the whole session. */
    method Persist(engine: PaperTradingEngine, closed: seq<ClosedTrade>, entryIds: set<Id>,
                   clientOrderId: Option<string>, fault: bool) returns (result: Commit)
      requires engine.initialCapital >= MINIMUM_CAPITAL
      modifies this
      ensures !fault ==> result == PersistResult(old(db), engine.Contents(), closed, entryIds, clientOrderId)
      ensures fault ==> result.Failed?
      ensures db == if result.Committed? then result.db else old(db)
    {
      if fault {
        return Failed;
      }
      if db.account.None? {
        return Unseeded;
      }
      var session := db;
      var orders := Some(session.orders);
      var positions := engine.positions;
      for i := 0 to |positions|
        invariant session.positions == UpsertAll(db.positions, positions[..i], engine.lastPrices)
        invariant orders == EntryOrders(Some(db.orders), positions[..i], entryIds, clientOrderId)
      {
        assert positions[..i + 1][..i] == positions[..i];
        session := session.(positions := Upsert(session.positions, positions[i], engine.lastPrices));
        if positions[i].id in entryIds {
          orders := InsertOrder(orders, EntryOrder(positions[i], clientOrderId));
        }
      }
      assert positions[..|positions|] == positions;
      ghost var upserted, entered := session.positions, orders;
      var history := db.trades;
      for i := 0 to |closed|
        invariant session.positions == CloseRows(upserted, closed[..i])
        invariant orders == ExitOrders(entered, closed[..i])
        invariant history == db.trades + TradeRows(closed[..i])
      {
        assert closed[..i + 1][..i] == closed[..i];
        assert TradeRows(closed[..i + 1]) == TradeRows(closed[..i]) + [TradeRow(closed[i])];
        session := session.(positions := CloseRow(session.positions, closed[i]));
        history := history + [TradeRow(closed[i])];
        orders := InsertOrder(orders, ExitOrder(closed[i]));
      }
      assert closed[..|closed|] == closed;
      if orders.None? {
        return Conflict;
      }
      var summary := engine.GetSummary();
      db := Db(Some(Account(Column(summary.initial), Column(summary.cash), engine.equityCurve)),
               session.positions, history, orders.value);
      return Committed(db);
    }
  }
}
