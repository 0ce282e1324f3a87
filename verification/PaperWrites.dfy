/** Ledger writes end to end: when one commits, and what a committed fill or candle did to the account. */
module PaperWrites {
  import opened Rounding
  import opened PaperModel
  import opened PaperTotals
  import opened PaperAccounting
  import opened PaperExecution
  import opened PaperEngine
  import opened PaperRepository
  import opened PaperLedger
  import opened PaperRoundTrip
  import opened PaperOrders

  // ---- Fills ----

  /** A fill makes sense on `s`: side, quantity and price do, no position of that side is open in the symbol, and
      something is left to spend once an opposite one is closed. */
  ghost predicate Fillable(c: Settings, s: Portfolio, r: Request, now: Time) {
    && (r.side == "long" || r.side == "short") && r.quantity > 0.0 && r.price > 0.0
    && (forall p | p in s.positions && p.symbol == r.symbol :: p.side.Long? <==> r.side == "short")
    && Budget(BeforeFill(c, s, r, now), if r.side == "long" then Long else Short) > 0.0
  }

  lemma HeldInSymbol(ps: seq<Position>, symbol: Symbol, long: bool)
    requires DistinctSymbols(ps)
    ensures (forall p | p in ps && p.symbol == symbol :: p.side.Long? <==> long)
            <==> (FindSymbol(ps, symbol) < |ps| ==> (ps[FindSymbol(ps, symbol)].side.Long? <==> long))
  {
    var i := FindSymbol(ps, symbol);
    if i < |ps| {
      assert ps[i] in ps;
      forall p | p in ps && p.symbol == symbol
        ensures p == ps[i]
      {
        var j :| 0 <= j < |ps| && ps[j] == p;
        if i < j {
          assert ps[i].symbol != ps[j].symbol;
        }
      }
    }
  }

  lemma FillableIff(c: Settings, s: Portfolio, w: Write)
    requires w.Fill? && Coherent(s)
    ensures Mutate(c, s, w).Change? <==> Fillable(c, s, w.request, w.now)
  {
    hide Execute, Budget, BeforeFill;
    FilledIff(c, s, w.request, w.now, w.newId);
    HeldInSymbol(s.positions, w.request.symbol, w.request.side == "short");
  }

  lemma EntriesAccepted(orders: seq<OrderRow>, ps: seq<Position>, p: Position, clientOrderId: Option<string>)
    requires p.id !in Ids(ps)
    ensures EntryOrders(Some(orders), ps + [p], {p.id}, clientOrderId).Some?
            <==> clientOrderId.None? || !UsedClientId(orders, clientOrderId.value)
  {
    hide UsedClientId, EntryOrders;
    OneEntryOrder(orders, ps, p, clientOrderId);
  }

  lemma ExitsAccepted(orders: Option<seq<OrderRow>>, ts: seq<ClosedTrade>)
    ensures ExitOrders(orders, ts).Some? <==> orders.Some?
  {
    if orders.Some? {
      ExitsAreRecorded(orders.value, ts);
    } else {
      NothingAfterConflict(ts);
    }
  }

  /** Run alone, a fill commits exactly when it makes sense and its client order id, if it has one, is on no order; an id
      that is known is refused as a duplicate, before the request is looked at unless the id is empty. */
  lemma FillOutcome(c: Settings, db: Db, w: Write)
    requires db.account.Some? && OneRowPerSymbol(db) && FreshInDb(db, w) && w.Fill?
    ensures var used := w.clientOrderId.Some? && UsedClientId(db.orders, w.clientOrderId.value);
            var result := WriteResult(c, db, w);
            if used && w.clientOrderId.value != "" then result.Duplicate?
            else if !Fillable(c, Loaded(db), w.request, w.now) then result.Refusing?
            else if used then result.Duplicate?
            else result.Done?
  {
    hide Loaded, Mutate, OneRowPerSymbol, Tracks, UsedClientId, Fillable, EntryOrders, ExitOrders, UpsertAll, CloseRows;
    LoadedTracks(db);
    var s := Loaded(db);
    TracksCoherent(db, s, []);
    FillableIff(c, s, w);
    hide Coherent;
    assert w.newId !in Ids(s.positions);
    var change := Mutate(c, s, w);
    if change.Change? {
      FillAddsLast(c, s, w);
      var ps := change.portfolio.positions;
      assert ps == ps[..|ps| - 1] + [change.filled.value];
      EntriesAccepted(db.orders, ps[..|ps| - 1], change.filled.value, w.clientOrderId);
      ExitsAccepted(EntryOrders(Some(db.orders), ps, EntryIds(change.filled), w.clientOrderId), change.closed);
    }
  }

  /** The new position is the one asked for; an opposite one in the symbol leaves with one trade at the request's price, and
      every other stays. */
  lemma FillIsTaken(c: Settings, s: Portfolio, w: Write)
    requires w.Fill? && Coherent(s) && w.newId !in Ids(s.positions) && Mutate(c, s, w).Change?
    ensures var change, r := Mutate(c, s, w), w.request;
            && change.filled.Some?
            && AsAsked(c, BeforeFill(c, s, r, w.now), change.filled.value, r, w.now, w.newId)
            && (forall q :: q in change.portfolio.positions <==> (q in s.positions && q.symbol != r.symbol) || q == change.filled.value)
            && (change.closed == [] <==> r.symbol !in Symbols(s.positions))
            && (r.symbol in Symbols(s.positions) ==>
                  |change.closed| == 1
                  && exists p :: p in s.positions && p.symbol == r.symbol && Records(c, change.closed[0], p, r.price, OnSignal, w.now))
  {
    hide Open, Close, Records, AsAsked, AffordableQuantity, EntryFill, PositionOf, DistinctIds, DistinctSymbols;
    var r := w.request;
    FillIsAsAsked(c, s, r, w.now, w.newId);
    FillParts(c, s, r, w.now, w.newId);
    OpenAppends(BeforeFill(c, s, r, w.now), Mutate(c, s, w).filled.value);
    var i := FindSymbol(s.positions, r.symbol);
    if i < |s.positions| {
      assert s.positions[i] in s.positions && s.positions[i].symbol in Symbols(s.positions);
      FilledIff(c, s, r, w.now, w.newId);
      CloseSucceeds(c, s, i, r.price, OnSignal, w.now);
      RemovedMembers(s.positions, i);
      SymbolNamesPosition(s.positions, i);
    } else {
      SymbolAbsent(s.positions, r.symbol);
      assert forall q | q in s.positions :: q.symbol in Symbols(s.positions);
    }
    hide Execute, RemoveAt;
  }

  lemma OpenAppends(s: Portfolio, p: Position)
    ensures Open(s, p).positions == s.positions + [p]
  {
    hide Equity, Measured;
  }

  // ---- Candles ----

  /** Run alone on a seeded account, a candle always commits. */
  lemma CandleCommits(c: Settings, db: Db, w: Write)
    requires db.account.Some? && w.CandleClose?
    ensures WriteResult(c, db, w).Done?
  {
    hide Loaded, Mutate, EntryOrders, ExitOrders, UpsertAll, CloseRows;
    CandleFillsNothing(c, Loaded(db), w);
    var change := Mutate(c, Loaded(db), w);
    NoEntryOrders(Some(db.orders), change.portfolio.positions, {}, None);
    ExitsAccepted(Some(db.orders), change.closed);
  }

  /** A position left open is charged carry up to the candle, unless its close is no price. */
  function Charged(c: Settings, p: Position, k: Candle, when: Time): Position {
    if k.close > 0.0 then Accrue(c, p, when) else p
  }

  /** The candle takes every level it reaches, then charges carry to what is left and marks its symbol at the close. */
  lemma CandleIsTaken(c: Settings, s: Portfolio, w: Write)
    requires w.CandleClose? && Coherent(s)
    ensures var change, k := Mutate(c, s, w), w.candle;
            && change.Change? && change.filled.None?
            && (forall p | p in s.positions && Stays(p, k) :: Charged(c, p, k, w.when) in change.portfolio.positions)
            && (forall q | q in change.portfolio.positions ::
                  exists p :: p in s.positions && Stays(p, k) && q == Charged(c, p, k, w.when))
            && (forall p | p in s.positions && !Stays(p, k) :: LeftTraded(c, p, k, w.when, change.closed))
            && (forall i | 0 <= i < |change.closed| :: ClosesOne(c, s.positions, k, w.when, change.closed[i]))
            && (forall i, j | 0 <= i < j < |change.closed| :: change.closed[i].positionId != change.closed[j].positionId)
            && (forall p | p in s.positions && p.symbol == k.symbol && Stays(p, k) && k.close > 0.0 ::
                  k.symbol in change.portfolio.marks && change.portfolio.marks[k.symbol] == k.close)
  {
    hide CheckStops, Accrue, Stays, LeftTraded, TradeLeft, ClosesOne, DistinctIds, DistinctSymbols, Equity;
    CandleTakesLevels(c, s, w.candle, w.when);
    var (s1, trades) := CheckStops(c, s, w.candle, w.when);
    MarkedAtClose(c, s1, w.candle.symbol, w.candle.close, w.when);
    forall i | 0 <= i < |trades|
      ensures ClosesOne(c, s.positions, w.candle, w.when, trades[i])
    {
      TradeCloses(c, trades[i], s.positions, s1.positions, w.candle, w.when);
    }
    hide MarkToMarket;
  }

  /** `t` closes one of `ps` at its level. */
  ghost predicate ClosesOne(c: Settings, ps: seq<Position>, k: Candle, when: Time, t: ClosedTrade) {
    exists i | 0 <= i < |ps| :: !Stays(ps[i], k) && LevelTrade(c, t, ps[i], k, when)
  }

  lemma TradeCloses(c: Settings, t: ClosedTrade, ps: seq<Position>, left: seq<Position>, k: Candle, when: Time)
    requires TradeLeft(c, t, ps, left, k, when) && forall p | p in ps :: p in left <==> Stays(p, k)
    ensures ClosesOne(c, ps, k, when, t)
  {
    hide LevelTrade, Stays;
    var i :| 0 <= i < |ps| && ps[i] !in left && LevelTrade(c, t, ps[i], k, when);
    assert ps[i] in ps;
  }

  lemma MarkedAtClose(c: Settings, s: Portfolio, symbol: Symbol, price: real, when: Time)
    ensures var s' := MarkToMarket(c, s, symbol, price, when);
            if price <= 0.0 then s' == s else
              && (forall p | p in s.positions :: Accrue(c, p, when) in s'.positions)
              && (forall q | q in s'.positions :: exists p :: p in s.positions && q == Accrue(c, p, when))
              && (forall p | p in s.positions && p.symbol == symbol :: symbol in s'.marks && s'.marks[symbol] == price)
  {
    hide Equity;
    var ps := AccrueAll(c, s.positions, when);
    AccruedSymbols(c, s.positions, when);
    hide Accrue;
    forall p | p in s.positions
      ensures Accrue(c, p, when) in ps && (p.symbol == symbol ==> FindSymbol(ps, symbol) < |ps|)
    {
      var i :| 0 <= i < |s.positions| && s.positions[i] == p;
      assert ps[i] == Accrue(c, p, when);
    }
    forall q | q in ps
      ensures exists p :: p in s.positions && q == Accrue(c, p, when)
    {
      var i :| 0 <= i < |ps| && ps[i] == q;
      assert s.positions[i] in s.positions;
    }
  }

  // ---- Carry ----

  /** All carry charged so far: what open positions owe and what closed trades paid. */
  function CarryCharged(s: Portfolio): real {
    Total(Carry, s.positions) + CarryPaid(s.closed)
  }

  /** A close charges its position up to the exit and moves what it owes to the trades: no carry is lost or charged twice. */
  lemma CloseKeepsCarry(c: Settings, s: Portfolio, id: Id, price: real, reason: ExitReason, when: Time)
    ensures var s', i := Close(c, s, id, price, reason, when).0, FindId(s.positions, id);
            CarryCharged(s') == CarryCharged(s)
                                + if price <= 0.0 || i == |s.positions| then 0.0
                                  else Accrue(c, s.positions[i], when).carry - s.positions[i].carry
  {
    hide ExitCash, ExitFill, Equity, Accrue, Total, CarryPaid, ExitPnl, Measured;
    var i := FindId(s.positions, id);
    if price > 0.0 && i < |s.positions| {
      var p := Accrue(c, s.positions[i], when);
      MeasuredFields(p, s.marks);
      MeasuredFields(s.positions[i], s.marks);
      TotalReplace(Carry, s.positions, i, p);
      TotalRemove(Carry, s.positions, i);
      PaidOneMore(s.closed, TradeOf(c, p, ExitFill(c, p, price), reason, when));
    }
  }

  lemma PaidOneMore(ts: seq<ClosedTrade>, t: ClosedTrade)
    ensures CarryPaid(ts + [t]) == CarryPaid(ts) + t.carry
  {
    assert (ts + [t])[..|ts|] == ts;
  }
}
