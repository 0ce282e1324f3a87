/** What a fill, a close and a candle do: prices against the trader, budgets used in full, and every reached level taken. */
module PaperExecution {
  import opened Rounding
  import opened PaperModel
  import opened PaperTotals
  import opened PaperAccounting

  // ---- Prices ----

  /** The slippage override of the symbol in upper case, else the global rate. */
  ghost predicate SlipsBy(c: Config, symbol: Symbol, rate: real) {
    && (Upper(symbol) in c.slippageBySymbol ==> rate == c.slippageBySymbol[Upper(symbol)])
    && (Upper(symbol) !in c.slippageBySymbol ==> rate == c.slippage)
  }

  /** A buyer pays `rate` of the price more. */
  ghost predicate BoughtAt(fill: real, price: real, rate: real) {
    fill - price == price * rate && fill >= price
  }

  /** A seller gets `rate` of the price less. */
  ghost predicate SoldAt(fill: real, price: real, rate: real) {
    price - fill == price * rate && 0.0 < fill <= price
  }

  ghost predicate EntersAt(side: Side, fill: real, price: real, rate: real) {
    if side.Long? then BoughtAt(fill, price, rate) else SoldAt(fill, price, rate)
  }

  ghost predicate ExitsAt(side: Side, fill: real, price: real, rate: real) {
    if side.Long? then SoldAt(fill, price, rate) else BoughtAt(fill, price, rate)
  }

  lemma Dearer(fill: real, price: real, rate: real)
    requires price > 0.0 && Fraction(rate) && fill == price * (1.0 + rate)
    ensures BoughtAt(fill, price, rate) && fill > 0.0
  {
    assert price * rate >= 0.0;
  }

  lemma Cheaper(fill: real, price: real, rate: real)
    requires price > 0.0 && Fraction(rate) && fill == price * (1.0 - rate)
    ensures SoldAt(fill, price, rate)
  {
    ProductPositive(price, 1.0 - rate);
    assert price * rate >= 0.0;
  }

  lemma SlippageIs(c: Config, symbol: Symbol)
    requires ValidConfig(c)
    ensures SlipsBy(c, symbol, SlippageFor(c, symbol)) && Fraction(SlippageFor(c, symbol))
  {
    SlippageIsFraction(c, symbol);
  }

  lemma EntryFillIsAdverse(c: Config, side: Side, r: Request)
    requires ValidConfig(c) && r.price > 0.0
    ensures EntersAt(side, EntryFill(c, side, r), r.price, SlippageFor(c, r.symbol)) && EntryFill(c, side, r) > 0.0
  {
    hide SlippageFor, BoughtAt, SlipsBy;
    SlippageIs(c, r.symbol);
    if side.Long? {
      Dearer(EntryFill(c, side, r), r.price, SlippageFor(c, r.symbol));
    } else {
      Cheaper(EntryFill(c, side, r), r.price, SlippageFor(c, r.symbol));
    }
  }

  lemma ExitFillIsAdverse(c: Config, p: Position, price: real)
    requires ValidConfig(c) && price > 0.0
    ensures ExitsAt(p.side, ExitFill(c, p, price), price, SlippageFor(c, p.symbol)) && ExitFill(c, p, price) > 0.0
  {
    hide SlippageFor, BoughtAt, SlipsBy;
    SlippageIs(c, p.symbol);
    if p.side.Long? {
      Cheaper(ExitFill(c, p, price), price, SlippageFor(c, p.symbol));
    } else {
      Dearer(ExitFill(c, p, price), price, SlippageFor(c, p.symbol));
    }
  }

  // ---- Fills ----

  /** Cash a fill of `p` may use before it: for a long what is left of cash and of free equity, for a short the latter. */
  ghost function Budget(s: Portfolio, side: Side): real {
    var free := Equity(s) - Total(Margin, s.positions);
    if side.Long? && s.cash < free then s.cash else free
  }

  /** A long costs its notional, a short reserves it as margin; both pay commission on it. */
  ghost predicate Charged(c: Config, p: Position) {
    && p.entryCommission == p.quantity * p.entryPrice * c.commission
    && p.margin == (if p.side.Long? then 0.0 else p.quantity * p.entryPrice)
    && p.carry == 0.0 && p.accruedAt == p.entryAt
  }

  /** On the side asked for, as large as asked for or else using the whole budget of `s`, and priced against the trader. */
  ghost predicate AsAsked(c: Config, s: Portfolio, p: Position, r: Request, now: Time, id: Id) {
    && (p.side.Long? <==> r.side == "long") && (p.side.Short? <==> r.side == "short")
    && p.id == id && p.symbol == r.symbol && p.entryAt == now && p.strategy == r.strategy
    && p.stopLoss == r.stopLoss && p.takeProfit == r.takeProfit
    && SlipsBy(c, r.symbol, SlippageFor(c, r.symbol))
    && EntersAt(p.side, p.entryPrice, r.price, SlippageFor(c, r.symbol))
    && Charged(c, p)
    && (p.quantity == r.quantity
        || (p.quantity < r.quantity && p.quantity * p.entryPrice + p.entryCommission == Budget(s, p.side)))
  }

  /** So is every accepted position, with the account as the reversal close left it. */
  lemma FillIsAsAsked(c: Config, s: Portfolio, r: Request, now: Time, id: Id)
    requires ValidConfig(c) && Execute(c, s, r, now, id).1.Accepted?
    ensures var p, s1 := Execute(c, s, r, now, id).1.position, BeforeFill(c, s, r, now);
            AsAsked(c, s1, p, r, now, id)
  {
    hide Close, Open, EntryFill, Measured, EntersAt, SlipsBy, UnitsFor, SlippageFor, Equity, Total;
    FillParts(c, s, r, now, id);
    var p, s1 := Execute(c, s, r, now, id).1.position, BeforeFill(c, s, r, now);
    SlippageIs(c, r.symbol);
    assert p.entryPrice == EntryFill(c, p.side, r);
    EntryFillIsAdverse(c, p.side, r);
    assert p.quantity == Min(r.quantity, UnitsFor(c, BuyingPower(s1, p.side), p.entryPrice));
    hide Execute, BuyingPower;
    if p.quantity < r.quantity {
      UnitsSpendBudget(c, BuyingPower(s1, p.side), p.entryPrice);
      BuyingPowerIsBudget(s1, p.side);
    }
  }

  lemma UnitsSpendBudget(c: Config, budget: real, fill: real)
    requires ValidConfig(c) && fill > 0.0
    ensures var quantity := UnitsFor(c, budget, fill);
            && quantity * fill + quantity * fill * c.commission == Max(budget, 0.0)
            && (quantity > 0.0 ==> budget > 0.0)
  {
    var unit := fill * (1.0 + c.commission);
    assert unit > 0.0 by {
      ProductPositive(fill, 1.0 + c.commission);
    }
    var quantity := Max(budget, 0.0) / unit;
    assert quantity * unit == Max(budget, 0.0);
    assert quantity * unit == quantity * fill + quantity * fill * c.commission;
  }

  lemma BuyingPowerIsBudget(s: Portfolio, side: Side)
    ensures BuyingPower(s, side) > 0.0 ==> BuyingPower(s, side) == Budget(s, side)
    ensures BuyingPower(s, side) > 0.0 <==> Budget(s, side) > 0.0
  {
    hide Equity, Total;
  }

  /** A request is filled exactly when its side, quantity and price make sense, no position of that side is open in its
      symbol, and something is left to spend once an opposite one is closed. */
  lemma FilledIff(c: Config, s: Portfolio, r: Request, now: Time, id: Id)
    requires ValidConfig(c) && DistinctIds(s.positions)
    ensures Execute(c, s, r, now, id).1.Accepted? <==>
              && (r.side == "long" || r.side == "short") && r.quantity > 0.0 && r.price > 0.0
              && (FindSymbol(s.positions, r.symbol) < |s.positions| ==>
                    (s.positions[FindSymbol(s.positions, r.symbol)].side.Long? <==> r.side == "short"))
              && Budget(BeforeFill(c, s, r, now), if r.side == "long" then Long else Short) > 0.0
    ensures Execute(c, s, r, now, id).1.Refused? ==> Execute(c, s, r, now, id).0 == s
  {
    hide Close, Open, EntryFill, EntersAt, ExitFill, UnitsFor, SlippageFor, Equity, Total, PositionOf, BuyingPower;
    var parsed := ParseSide(r.side);
    if parsed.Some? && r.quantity > 0.0 && r.price > 0.0 {
      var side, i := parsed.value, FindSymbol(s.positions, r.symbol);
      EntryFillIsAdverse(c, side, r);
      if i < |s.positions| {
        CloseSucceeds(c, s, i, r.price, OnSignal, now);
      }
      var s1 := BeforeFill(c, s, r, now);
      BuyingPowerIsBudget(s1, side);
      UnitsArePositive(c, BuyingPower(s1, side), EntryFill(c, side, r));
    }
  }

  lemma UnitsArePositive(c: Config, budget: real, fill: real)
    requires ValidConfig(c) && fill > 0.0
    ensures UnitsFor(c, budget, fill) > 0.0 <==> budget > 0.0
  {
    UnitsSpendBudget(c, budget, fill);
    hide UnitsFor;
    var quantity := UnitsFor(c, budget, fill);
    assert quantity <= 0.0 ==> quantity * fill <= 0.0;
    assert quantity * fill <= 0.0 ==> quantity * fill * c.commission <= 0.0;
  }

  // ---- Closes ----

  /** The record of closing `p` at market price `price`: its identity, an exit price against the trader, the commission on
      it, and the profit rounded. */
  ghost predicate Records(c: Config, t: ClosedTrade, p: Position, price: real, reason: ExitReason, when: Time) {
    && t.positionId == Some(p.id) && t.symbol == p.symbol && t.side == p.side && t.quantity == p.quantity
    && t.entryPrice == p.entryPrice && t.entryAt == p.entryAt && t.exitAt == when && t.reason == reason
    && t.strategy == p.strategy && t.entryCommission == p.entryCommission
    && ExitsAt(p.side, t.exitPrice, price, SlippageFor(c, p.symbol))
    && t.exitCommission == p.quantity * t.exitPrice * c.commission
    && t.pnl == Round2(TradePnl(t)) && exists pct :: IsPercent(pct, TradePnl(t), Notional(p)) && t.pnlPct == Round4(pct)
  }

  lemma CloseSucceeds(c: Config, s: Portfolio, i: nat, price: real, reason: ExitReason, when: Time)
    requires ValidConfig(c) && DistinctIds(s.positions) && i < |s.positions| && price > 0.0
    ensures var (s', trade) := Close(c, s, s.positions[i].id, price, reason, when);
            && trade.Some? && Records(c, trade.value, s.positions[i], price, reason, when)
            && s'.positions == RemoveAt(s.positions, i)
            && s'.marks == s.marks - {s.positions[i].symbol}
            && |s'.curve| == |s.curve| + 1 && s'.curve[|s'.curve| - 1] == Equity(s')
  {
    hide ExitCash, Equity, CarryCost, ExitFill, ExitsAt, RemoveAt, Round2, Round4, PercentOf, SlippageFor;
    assert FindId(s.positions, s.positions[i].id) == i;
    var p := Accrue(c, s.positions[i], when);
    ExitFillIsAdverse(c, p, price);
    TradeRecords(c, p, price, ExitFill(c, p, price), reason, when);
    EquityIgnoresCurve(Close(c, s, s.positions[i].id, price, reason, when).0, s.curve);
    hide TradeOf;
  }

  lemma EquityIgnoresCurve(s: Portfolio, curve: seq<real>)
    ensures Equity(s.(curve := curve)) == Equity(s)
  {
  }

  lemma TradeRecords(c: Config, p: Position, price: real, fill: real, reason: ExitReason, when: Time)
    requires ExitsAt(p.side, fill, price, SlippageFor(c, p.symbol))
    ensures Records(c, TradeOf(c, p, fill, reason, when), p, price, reason, when)
  {
    hide ExitsAt, SlippageFor, Round2, Round4, PercentOf, IsPercent, Notional;
    var t := TradeOf(c, p, fill, reason, when);
    assert t.exitCommission == p.quantity * fill * c.commission;
    assert TradePnl(t) == ExitPnl(c, p, fill);
    PercentIs(TradePnl(t), Notional(p));
  }

  // ---- Candles ----

  /** The candle takes `p` out: it is of its symbol and reaches a level at a positive price. */
  ghost predicate TakenOut(p: Position, k: Candle) {
    p.symbol == k.symbol && Exit(p, k).Some? && Exit(p, k).value.0 > 0.0
  }

  ghost predicate RecordsExit(c: Config, t: ClosedTrade, p: Position, k: Candle, when: Time) {
    Exit(p, k).Some? && Records(c, t, p, Exit(p, k).value.0, Exit(p, k).value.1, when)
  }

  /** What is left of `ps` once the positions of `met` have met the candle. */
  ghost predicate Remains(ps: seq<Position>, met: seq<Position>, k: Candle, left: seq<Position>) {
    DistinctIds(left) && forall p :: p in left <==> p in ps && !(p in met && TakenOut(p, k))
  }

  ghost predicate ExitTraded(c: Config, p: Position, k: Candle, when: Time, trades: seq<ClosedTrade>) {
    exists i | 0 <= i < |trades| :: RecordsExit(c, trades[i], p, k, when)
  }

  ghost predicate TradeExits(c: Config, t: ClosedTrade, met: seq<Position>, k: Candle, when: Time) {
    exists i | 0 <= i < |met| :: TakenOut(met[i], k) && RecordsExit(c, t, met[i], k, when)
  }

  /** One trade for each position of `met` that the candle takes out, and no other. */
  ghost predicate Taken(c: Config, met: seq<Position>, k: Candle, when: Time, trades: seq<ClosedTrade>) {
    && (forall i | 0 <= i < |trades| :: TradeExits(c, trades[i], met, k, when))
    && (forall i | 0 <= i < |met| && TakenOut(met[i], k) :: ExitTraded(c, met[i], k, when, trades))
    && (forall i, j | 0 <= i < j < |trades| :: trades[i].positionId != trades[j].positionId)
  }

  lemma ExitNames(c: Config, t: ClosedTrade, p: Position, k: Candle, when: Time)
    requires RecordsExit(c, t, p, k, when)
    ensures t.positionId == Some(p.id)
  {
    hide Exit, ExitsAt, TradePnl, Round2;
  }

  lemma StillTraded(c: Config, p: Position, k: Candle, when: Time, trades: seq<ClosedTrade>, t: ClosedTrade)
    ensures ExitTraded(c, p, k, when, trades) ==> ExitTraded(c, p, k, when, trades + [t])
    ensures RecordsExit(c, t, p, k, when) ==> ExitTraded(c, p, k, when, trades + [t])
  {
    hide RecordsExit;
    var all := trades + [t];
    assert all[|trades|] == t;
    if ExitTraded(c, p, k, when, trades) {
      var i :| 0 <= i < |trades| && RecordsExit(c, trades[i], p, k, when);
      assert all[i] == trades[i];
    }
  }

  lemma StillExits(c: Config, t: ClosedTrade, met: seq<Position>, p: Position, k: Candle, when: Time)
    ensures TradeExits(c, t, met, k, when) ==> TradeExits(c, t, met + [p], k, when)
    ensures TakenOut(p, k) && RecordsExit(c, t, p, k, when) ==> TradeExits(c, t, met + [p], k, when)
  {
    hide RecordsExit, TakenOut;
    var all := met + [p];
    assert all[|met|] == p;
    if TradeExits(c, t, met, k, when) {
      var i :| 0 <= i < |met| && TakenOut(met[i], k) && RecordsExit(c, t, met[i], k, when);
      assert all[i] == met[i];
    }
  }

  lemma ExitIdsDiffer(c: Config, u: ClosedTrade, met: seq<Position>, k: Candle, when: Time, id: Id)
    requires TradeExits(c, u, met, k, when) && forall q | q in met :: q.id != id
    ensures u.positionId != Some(id)
  {
    hide RecordsExit, TakenOut;
    var i :| 0 <= i < |met| && TakenOut(met[i], k) && RecordsExit(c, u, met[i], k, when);
    ExitNames(c, u, met[i], k, when);
    assert met[i] in met;
  }

  lemma OneMoreTaken(c: Config, met: seq<Position>, p: Position, k: Candle, when: Time, trades: seq<ClosedTrade>,
                     t: ClosedTrade)
    requires Taken(c, met, k, when, trades) && TakenOut(p, k) && RecordsExit(c, t, p, k, when)
    requires forall q | q in met :: q.id != p.id
    ensures Taken(c, met + [p], k, when, trades + [t])
  {
    hide RecordsExit, TakenOut, TradeExits, ExitTraded;
    ExitNames(c, t, p, k, when);
    StillTraded(c, p, k, when, trades, t);
    StillExits(c, t, met, p, k, when);
    forall i | 0 <= i < |trades|
      ensures TradeExits(c, trades[i], met + [p], k, when) && trades[i].positionId != t.positionId
    {
      StillExits(c, trades[i], met, p, k, when);
      ExitIdsDiffer(c, trades[i], met, k, when, p.id);
    }
    forall i | 0 <= i < |met| && TakenOut(met[i], k)
      ensures ExitTraded(c, met[i], k, when, trades + [t])
    {
      StillTraded(c, met[i], k, when, trades, t);
    }
  }

  lemma NotTaken(c: Config, met: seq<Position>, p: Position, k: Candle, when: Time, trades: seq<ClosedTrade>)
    requires Taken(c, met, k, when, trades) && !TakenOut(p, k)
    ensures Taken(c, met + [p], k, when, trades)
  {
    hide RecordsExit, TakenOut, TradeExits, ExitTraded;
    forall i | 0 <= i < |trades|
      ensures TradeExits(c, trades[i], met + [p], k, when)
    {
      StillExits(c, trades[i], met, p, k, when);
    }
  }

  lemma OneLessRemains(ps: seq<Position>, met: seq<Position>, p: Position, k: Candle, left: seq<Position>, i: nat)
    requires DistinctIds(ps) && p in ps && TakenOut(p, k) && Remains(ps, met, k, left)
    requires i < |left| && left[i] == p
    ensures Remains(ps, met + [p], k, RemoveAt(left, i))
  {
    hide TakenOut;
    RemovedMembers(left, i);
    IdsTellApart(ps, p);
    hide RemoveAt, DistinctIds;
    assert forall q :: q in met + [p] <==> q in met || q == p;
  }

  lemma SameRemains(ps: seq<Position>, met: seq<Position>, p: Position, k: Candle, left: seq<Position>)
    requires Remains(ps, met, k, left) && !TakenOut(p, k)
    ensures Remains(ps, met + [p], k, left)
  {
    hide TakenOut, DistinctIds;
    assert forall q :: q in met + [p] <==> q in met || q == p;
  }

  lemma IdsTellApart(ps: seq<Position>, p: Position)
    requires DistinctIds(ps) && p in ps
    ensures forall q | q in ps :: q.id == p.id <==> q == p
  {
  }

  lemma NotYetMet(ps: seq<Position>, n: nat)
    requires n < |ps| && DistinctIds(ps)
    ensures ps[n] !in ps[..n] && (forall p | p in ps[..n] :: p.id != ps[n].id) && ps[..n + 1] == ps[..n] + [ps[n]]
  {
  }

  lemma {:induction false} ExitsAreTaken(c: Config, s: Portfolio, n: nat, k: Candle, when: Time)
    requires ValidConfig(c) && DistinctIds(s.positions) && n <= |s.positions|
    ensures var (s', trades) := CheckExits(c, s, s.positions[..n], k, when);
            Remains(s.positions, s.positions[..n], k, s'.positions) && Taken(c, s.positions[..n], k, when, trades)
    decreases n
  {
    hide Close, Exit, Remains, Taken, Records;
    if n == 0 {
      NothingMet(c, s, k, when);
    } else {
      ExitsAreTaken(c, s, n - 1, k, when);
      NotYetMet(s.positions, n - 1);
      hide DistinctIds;
      var met := s.positions[..n - 1];
      assert s.positions[..n][..n - 1] == met;
      var (s1, trades) := CheckExits(c, s, met, k, when);
      var p := s.positions[n - 1];
      if TakenOut(p, k) {
        ExitTaken(c, s, met, p, k, when, s1, trades);
      } else {
        NotTaken(c, met, p, k, when, trades);
        SameRemains(s.positions, met, p, k, s1.positions);
        if p.symbol == k.symbol && Exit(p, k).Some? {
          CloseRefused(c, s1, p.id, Exit(p, k).value.0, Exit(p, k).value.1, when);
        }
      }
    }
  }

  lemma ExitTaken(c: Config, s: Portfolio, met: seq<Position>, p: Position, k: Candle, when: Time, s1: Portfolio,
                  trades: seq<ClosedTrade>)
    requires ValidConfig(c) && DistinctIds(s.positions) && p in s.positions && TakenOut(p, k)
    requires p !in met && forall q | q in met :: q.id != p.id
    requires Remains(s.positions, met, k, s1.positions) && Taken(c, met, k, when, trades)
    ensures var (s2, trade) := Close(c, s1, p.id, Exit(p, k).value.0, Exit(p, k).value.1, when);
            && trade.Some?
            && Remains(s.positions, met + [p], k, s2.positions) && Taken(c, met + [p], k, when, trades + [trade.value])
  {
    hide Close, Exit, Records, Taken, RemoveAt, DistinctIds;
    assert p in s1.positions;
    var i :| 0 <= i < |s1.positions| && s1.positions[i] == p;
    CloseSucceeds(c, s1, i, Exit(p, k).value.0, Exit(p, k).value.1, when);
    OneLessRemains(s.positions, met, p, k, s1.positions, i);
    OneMoreTaken(c, met, p, k, when, trades, Close(c, s1, p.id, Exit(p, k).value.0, Exit(p, k).value.1, when).1.value);
  }

  lemma NothingMet(c: Config, s: Portfolio, k: Candle, when: Time)
    requires DistinctIds(s.positions)
    ensures Remains(s.positions, s.positions[..0], k, s.positions) && Taken(c, s.positions[..0], k, when, [])
    ensures CheckExits(c, s, s.positions[..0], k, when) == (s, [])
  {
  }

  lemma CloseRefused(c: Config, s: Portfolio, id: Id, price: real, reason: ExitReason, when: Time)
    requires price <= 0.0
    ensures Close(c, s, id, price, reason, when) == (s, None)
  {
    hide ExitFill, Equity;
  }

  /** The price at which a reached level is taken: a stop at its level, or at a known open that is worse; a target at its
      level, and only when the stop was not reached. */
  ghost function LevelPrice(p: Position, k: Candle): real {
    if StopReached(p, k) then
      if k.openPrice.Some? && k.openPrice.value > 0.0 && NoBetter(p.side, k.openPrice.value, p.stopLoss.value)
      then k.openPrice.value else p.stopLoss.value
    else if TargetReached(p, k) then p.takeProfit.value
    else 0.0
  }

  lemma ExitIsAtLevel(p: Position, k: Candle)
    ensures Exit(p, k) == if StopReached(p, k) then Some((LevelPrice(p, k), OnStopLoss))
                          else if TargetReached(p, k) then Some((LevelPrice(p, k), OnTakeProfit))
                          else None
  {
  }

  /** The candle leaves `p` open: it is of another symbol, reaches no level of it, or would take one at no positive
      price. */
  ghost predicate Stays(p: Position, k: Candle) {
    p.symbol != k.symbol || (!StopReached(p, k) && !TargetReached(p, k)) || LevelPrice(p, k) <= 0.0
  }

  /** A positive level that is reached is always taken. */
  lemma PositiveLevelsAreTaken(p: Position, k: Candle)
    requires p.stopLoss.Some? ==> p.stopLoss.value > 0.0
    requires p.takeProfit.Some? ==> p.takeProfit.value > 0.0
    ensures Stays(p, k) <==> p.symbol != k.symbol || (!StopReached(p, k) && !TargetReached(p, k))
  {
  }

  lemma TakenOutIff(p: Position, k: Candle)
    ensures TakenOut(p, k) <==> !Stays(p, k)
  {
    ExitIsAtLevel(p, k);
    hide Exit;
  }

  ghost predicate LevelTrade(c: Config, t: ClosedTrade, p: Position, k: Candle, when: Time) {
    Records(c, t, p, LevelPrice(p, k), if StopReached(p, k) then OnStopLoss else OnTakeProfit, when)
  }

  lemma ExitIsLevelTrade(c: Config, t: ClosedTrade, p: Position, k: Candle, when: Time)
    requires RecordsExit(c, t, p, k, when)
    ensures LevelTrade(c, t, p, k, when)
  {
    ExitIsAtLevel(p, k);
    hide Exit, ExitsAt, TradePnl, Round2, LevelPrice, StopReached, TargetReached;
  }

  /** `p` left with a trade at its level. */
  ghost predicate LeftTraded(c: Config, p: Position, k: Candle, when: Time, trades: seq<ClosedTrade>) {
    exists i | 0 <= i < |trades| :: LevelTrade(c, trades[i], p, k, when)
  }

  /** `t` is the trade of a position that left. */
  ghost predicate TradeLeft(c: Config, t: ClosedTrade, ps: seq<Position>, left: seq<Position>, k: Candle, when: Time) {
    exists i | 0 <= i < |ps| :: ps[i] !in left && LevelTrade(c, t, ps[i], k, when)
  }

  /** Every level a candle reaches at a positive price is taken: a position leaves exactly when the candle is of its symbol
      and reaches its stop or its target, with one trade at that level, the stop's when both are reached; every other
      position stays as it was, and no other trade is recorded. */
  lemma CandleTakesLevels(c: Config, s: Portfolio, k: Candle, when: Time)
    requires ValidConfig(c) && DistinctIds(s.positions)
    ensures var (s', trades) := CheckStops(c, s, k, when);
            && (forall p | p in s.positions :: p in s'.positions <==> Stays(p, k))
            && (forall p | p in s'.positions :: p in s.positions)
            && (forall p | p in s.positions && p !in s'.positions :: LeftTraded(c, p, k, when, trades))
            && (forall i | 0 <= i < |trades| :: TradeLeft(c, trades[i], s.positions, s'.positions, k, when))
            && (forall i, j | 0 <= i < j < |trades| :: trades[i].positionId != trades[j].positionId)
  {
    hide CheckExits, ValidConfig, TakenOut, RecordsExit, LevelTrade, Stays, DistinctIds, Taken, Remains, LeftTraded,
         TradeLeft;
    assert s.positions[..|s.positions|] == s.positions;
    ExitsAreTaken(c, s, |s.positions|, k, when);
    var (s', trades) := CheckStops(c, s, k, when);
    LevelsDecide(s.positions, k, s'.positions);
    LevelsAreTraded(c, s.positions, k, when, s'.positions, trades);
  }

  lemma LevelsDecide(ps: seq<Position>, k: Candle, left: seq<Position>)
    requires Remains(ps, ps, k, left)
    ensures forall p | p in ps :: p in left <==> Stays(p, k)
    ensures forall p | p in left :: p in ps
  {
    hide TakenOut, Stays, DistinctIds;
    forall p | p in ps
      ensures p in left <==> Stays(p, k)
    {
      TakenOutIff(p, k);
    }
  }

  lemma LevelsAreTraded(c: Config, ps: seq<Position>, k: Candle, when: Time, left: seq<Position>, trades: seq<ClosedTrade>)
    requires Remains(ps, ps, k, left) && Taken(c, ps, k, when, trades)
    ensures forall p | p in ps && p !in left :: LeftTraded(c, p, k, when, trades)
    ensures forall i | 0 <= i < |trades| :: TradeLeft(c, trades[i], ps, left, k, when)
    ensures forall i, j | 0 <= i < j < |trades| :: trades[i].positionId != trades[j].positionId
  {
    hide TakenOut, ExitTraded, TradeExits, LeftTraded, TradeLeft, DistinctIds;
    forall p | p in ps && p !in left
      ensures LeftTraded(c, p, k, when, trades)
    {
      var i :| 0 <= i < |ps| && ps[i] == p;
      assert TakenOut(ps[i], k);
      TradedAtLevel(c, p, k, when, trades);
    }
    forall i | 0 <= i < |trades|
      ensures TradeLeft(c, trades[i], ps, left, k, when)
    {
      LeftAtLevel(c, trades[i], ps, left, k, when);
    }
  }

  lemma TradedAtLevel(c: Config, p: Position, k: Candle, when: Time, trades: seq<ClosedTrade>)
    requires ExitTraded(c, p, k, when, trades)
    ensures LeftTraded(c, p, k, when, trades)
  {
    hide RecordsExit, LevelTrade;
    var i :| 0 <= i < |trades| && RecordsExit(c, trades[i], p, k, when);
    ExitIsLevelTrade(c, trades[i], p, k, when);
  }

  lemma LeftAtLevel(c: Config, t: ClosedTrade, ps: seq<Position>, left: seq<Position>, k: Candle, when: Time)
    requires TradeExits(c, t, ps, k, when) && Remains(ps, ps, k, left)
    ensures TradeLeft(c, t, ps, left, k, when)
  {
    hide TakenOut, RecordsExit, LevelTrade, DistinctIds;
    var i :| 0 <= i < |ps| && TakenOut(ps[i], k) && RecordsExit(c, t, ps[i], k, when);
    ExitIsLevelTrade(c, t, ps[i], k, when);
    assert ps[i] in ps;
  }

  // ---- Marks ----

  /** A mark revalues the one position of its symbol: equity moves by its quantity times the change of its mark, the other
      way for a short, less the carry charged, and the curve ends at the new equity. */
  lemma MarkMovesEquity(c: Config, s: Portfolio, i: nat, price: real, when: Time)
    requires Coherent(s) && i < |s.positions| && price > 0.0
    ensures var p := s.positions[i];
            var s' := MarkToMarket(c, s, p.symbol, price, when);
            var move := p.quantity * (price - Mark(s.marks, p));
            && Equity(s') == Equity(s) + (if p.side.Long? then move else -move)
                             - (Total(Carry, s'.positions) - Total(Carry, s.positions))
            && s'.curve == s.curve + [Equity(s')] && s'.cash == s.cash
            && s'.marks == s.marks[p.symbol := price]
  {
    hide Total, Measured, Accrue;
    var p := s.positions[i];
    var s1 := AccrueCarry(c, s, when);
    AccruedMarks(c, s.positions, when, s.marks);
    AccruedSymbols(c, s.positions, when);
    var q := s1.positions[i];
    assert FindSymbol(s1.positions, p.symbol) == i;
    var s2 := s1.(marks := s1.marks[p.symbol := price]);
    Revalued(s1.positions, i, s.marks, price);
    MarkMoves(p, q, s.marks, price);
    EquityIgnoresCurve(s2, s.curve + [Equity(s2)]);
  }

  lemma AccruedSymbols(c: Config, ps: seq<Position>, when: Time)
    ensures forall i | 0 <= i < |ps| :: var q := AccrueAll(c, ps, when)[i];
              q.symbol == ps[i].symbol && q.side == ps[i].side && q.quantity == ps[i].quantity
              && q.entryPrice == ps[i].entryPrice
  {
  }

  lemma AccruedMarks(c: Config, ps: seq<Position>, when: Time, marks: Marks)
    ensures Total(MarketValue(marks), AccrueAll(c, ps, when)) == Total(MarketValue(marks), ps)
  {
    AccruedSymbols(c, ps, when);
    hide Accrue;
    var qs := AccrueAll(c, ps, when);
    forall i | 0 <= i < |ps|
      ensures Measured(MarketValue(marks), qs[i]) == Measured(MarketValue(marks), ps[i])
    {
    }
    TotalSame(MarketValue(marks), qs, MarketValue(marks), ps);
  }

  lemma Revalued(ps: seq<Position>, i: nat, marks: Marks, price: real)
    requires DistinctSymbols(ps) && i < |ps|
    ensures var marked := marks[ps[i].symbol := price];
            Total(MarketValue(marked), ps) == Total(MarketValue(marks), ps) - Measured(MarketValue(marks), ps[i])
                                           + Measured(MarketValue(marked), ps[i])
  {
    hide Total, Measured;
    var marked := marks[ps[i].symbol := price];
    TotalSplit(MarketValue(marks), ps, i);
    TotalSplit(MarketValue(marked), ps, i);
    forall j | 0 <= j < |ps| && j != i
      ensures ps[j].symbol != ps[i].symbol
    {
      assert ps[if j < i then j else i].symbol != ps[if j < i then i else j].symbol;
    }
    SymbolAbsent(ps[..i], ps[i].symbol);
    SymbolAbsent(ps[i + 1..], ps[i].symbol);
    OtherMarksIrrelevant(ps[..i], marks, ps[i].symbol, price);
    OtherMarksIrrelevant(ps[i + 1..], marks, ps[i].symbol, price);
  }

  lemma SymbolAbsent(ps: seq<Position>, symbol: Symbol)
    requires forall j | 0 <= j < |ps| :: ps[j].symbol != symbol
    ensures symbol !in Symbols(ps)
  {
  }

  lemma MarkMoves(p: Position, q: Position, marks: Marks, price: real)
    requires q.symbol == p.symbol && q.side == p.side && q.quantity == p.quantity && q.entryPrice == p.entryPrice
    ensures var move := p.quantity * (price - Mark(marks, p));
            Measured(MarketValue(marks[p.symbol := price]), q) - Measured(MarketValue(marks), q)
            == if p.side.Long? then move else -move
  {
    var before, after := Mark(marks, p), price;
    assert Mark(marks, q) == before && Mark(marks[p.symbol := price], q) == after;
    assert p.quantity * after - p.quantity * before == p.quantity * (after - before);
  }

  // ---- Rates ----

  /** A year of `rate`, the borrow rate of a short or the funding rate of a long, costs that share of the entry notional;
      any other time its share of a year. */
  lemma CarryIsPerYear(c: Config, p: Position, seconds: real)
    ensures var key := Upper(p.symbol);
            var rate := if p.side.Short? then (if key in c.borrowBySymbol then c.borrowBySymbol[key] else c.borrow)
                        else (if key in c.fundingBySymbol then c.fundingBySymbol[key] else c.funding);
            CarryCost(c, p, seconds) * (365.0 * 86400.0) == p.quantity * p.entryPrice * rate * seconds
  {
    hide Upper;
    var rate := CarryRateFor(c, p.symbol, p.side);
    var cost := CarryCost(c, p, seconds);
    assert SECONDS_PER_YEAR == 365.0 * 86400.0;
    assert cost * SECONDS_PER_YEAR == Notional(p) * rate * seconds;
  }

  /** The same letter, whatever its case. */
  predicate SameLetter(a: char, b: char) {
    a == b || ('a' <= a <= 'z' && b == a - 'a' + 'A') || ('a' <= b <= 'z' && a == b - 'a' + 'A')
  }

  /** Overrides are found whatever the case a symbol is written in. */
  lemma RatesIgnoreCase(c: Config, a: Symbol, b: Symbol, side: Side)
    requires |a| == |b| && forall i | 0 <= i < |a| :: SameLetter(a[i], b[i])
    ensures SlippageFor(c, a) == SlippageFor(c, b) && CarryRateFor(c, a, side) == CarryRateFor(c, b, side)
  {
    assert Upper(a) == Upper(b);
  }
}
