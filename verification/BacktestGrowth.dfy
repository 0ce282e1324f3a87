/** Long-only runs: capital compounds, one factor per trade, and never reaches zero. */
module BacktestGrowth {
  import opened Rounding
  import opened Backtest

  /** Costs below one. */
  predicate MildCosts(params: Params) {
    0.0 <= params.commission < 1.0 && 0.0 <= params.slippage < 1.0
  }

  predicate PositiveCandle(k: Candle) {
    k.open > 0.0 && k.close > 0.0
  }

  /** A long signal; an entry price of zero counts as absent in the source, so it is admitted. */
  predicate LongSignal(g: Signal) {
    && g.side.Long?
    && (g.entryPrice.Some? ==> g.entryPrice.value >= 0.0)
    && (g.stopLoss.Some? ==> g.stopLoss.value > 0.0)
    && (g.takeProfit.Some? ==> g.takeProfit.value > 0.0)
  }

  ghost predicate LongOnly(inp: Input) {
    && MildCosts(inp.params)
    && (forall k | k in inp.candles :: PositiveCandle(k))
    && (forall g | g in inp.signals :: LongSignal(g))
  }

  /** What one round trip multiplies the capital by: the exit less its commission over the entry plus its commission. */
  function Ratio(entry: real, exit: real, commission: real): real {
    if entry * (1.0 + commission) == 0.0 then 0.0 else exit * (1.0 - commission) / (entry * (1.0 + commission))
  }

  function Factor(t: Trade, commission: real): real {
    Ratio(t.entryPrice, t.exitPrice, commission)
  }

  function Growth(trades: seq<Trade>, commission: real): real {
    if trades == [] then 1.0
    else Growth(trades[..|trades| - 1], commission) * Factor(trades[|trades| - 1], commission)
  }

  predicate GoodPosition(p: Position) {
    && p.side.Long? && p.quantity > 0.0 && p.entryPrice > 0.0
    && (p.stopLoss.Some? ==> p.stopLoss.value > 0.0)
    && (p.takeProfit.Some? ==> p.takeProfit.value > 0.0)
  }

  /** The capital times the growth is held in cash, or was spent on the open position. */
  ghost predicate Grown(s: Sim, params: Params) {
    var worth := Capital(params) * Growth(s.trades, params.commission);
    match s.position
    case None => s.cash == worth && s.cash > 0.0
    case Some(p) => s.cash == 0.0 && GoodPosition(p) && p.quantity * (p.entryPrice * (1.0 + params.commission)) == worth
  }

  lemma GrowthOneMore(trades: seq<Trade>, t: Trade, commission: real)
    ensures Growth(trades + [t], commission) == Growth(trades, commission) * Factor(t, commission)
  {
    assert (trades + [t])[..|trades|] == trades;
  }

  /** What was bought for the capital times its growth sells for that times the ratio of the two prices. */
  lemma Resale(worth: real, q: real, entry: real, exit: real, commission: real)
    requires entry * (1.0 + commission) > 0.0 && q * (entry * (1.0 + commission)) == worth
    ensures q * (exit * (1.0 - commission)) == worth * Ratio(entry, exit, commission)
  {
    var unit, sale := entry * (1.0 + commission), exit * (1.0 - commission);
    var f := sale / unit;
    assert f * unit == sale;
    assert q * sale == (q * unit) * f;
  }

  lemma Regrouped(x: real, y: real, z: real)
    ensures (x * y) * z == x * (y * z)
  {
  }

  lemma LessCost(x: real, cost: real)
    requires x > 0.0 && cost < 1.0
    ensures x * (1.0 - cost) > 0.0
  {
    var kept := 1.0 - cost;
    assert x * kept > 0.0;
  }

  lemma CloseGrows(s: Sim, p: Position, at: Time, exit: real, params: Params, reason: ExitReason)
    requires MildCosts(params) && Grown(s, params) && s.position == Some(p) && exit > 0.0
    ensures Grown(Close(s, p, at, exit, params.commission, reason), params)
  {
    hide Growth, CashAfterClose, TradeOf, Capital, Ratio;
    var c := params.commission;
    var t := TradeOf(p, at, exit, c, reason);
    var sale, growth := exit * (1.0 - c), Growth(s.trades, c);
    GrowthOneMore(s.trades, t, c);
    FactorOfTrade(p, at, exit, c, reason);
    ProductPositive(p.entryPrice, 1.0 + c);
    LessCost(exit, c);
    ProductPositive(p.quantity, sale);
    Resale(Capital(params) * growth, p.quantity, p.entryPrice, exit, c);
    Regrouped(Capital(params), growth, Ratio(p.entryPrice, exit, c));
    Proceeds(p, exit, c);
  }

  lemma Proceeds(p: Position, exit: real, commission: real)
    requires p.side.Long?
    ensures CashAfterClose(p, exit, commission) == p.quantity * (exit * (1.0 - commission))
  {
    var value := p.quantity * exit;
    assert value * (1.0 - commission) == value - value * commission;
  }

  lemma FactorOfTrade(p: Position, at: Time, exit: real, commission: real, reason: ExitReason)
    ensures Factor(TradeOf(p, at, exit, commission, reason), commission) == Ratio(p.entryPrice, exit, commission)
  {
    TradePrices(p, at, exit, commission, reason);
    hide TradeOf, Ratio;
  }

  lemma TradePrices(p: Position, at: Time, exit: real, commission: real, reason: ExitReason)
    ensures var t := TradeOf(p, at, exit, commission, reason); t.entryPrice == p.entryPrice && t.exitPrice == exit
  {
    hide Round2, Round4, RawPnl;
  }

  lemma EnterGrows(s: Sim, g: Signal, i: nat, next: Candle, params: Params)
    requires MildCosts(params) && Grown(s, params) && s.position.None? && LongSignal(g) && PositiveCandle(next)
    ensures var r := Enter(s, g, i, next, params); r.Some? && Grown(r.value, params)
  {
    hide Growth, Capital;
    var price := if g.entryPrice.Some? && g.entryPrice.value != 0.0 then g.entryPrice.value else next.open;
    ProductPositive(price, 1.0 + params.slippage);
    var entry := EntryPrice(g, next, params.slippage);
    ProductPositive(entry, 1.0 + params.commission);
    Spend(s.cash, entry, params.commission);
    hide EntryPrice;
  }

  lemma Spend(cash: real, entry: real, commission: real)
    requires cash > 0.0 && entry * (1.0 + commission) > 0.0
    ensures var q := cash / (entry * (1.0 + commission));
            var cost := q * entry;
            q > 0.0 && q * (entry * (1.0 + commission)) == cash && cash - (cost + cost * commission) == 0.0
  {
    var unit := entry * (1.0 + commission);
    var q := cash / unit;
    assert q * unit == cash;
    assert q * unit == q * entry + q * entry * commission;
  }

  lemma ExitsArePositive(p: Position, k: Candle, slippage: real)
    requires GoodPosition(p) && slippage < 1.0
    ensures Exit(p, k, slippage).Some? ==> Exit(p, k, slippage).value.0 > 0.0
  {
    var exit := Exit(p, k, slippage);
    if exit.Some? {
      if exit.value.1.OnTakeProfit? {
        PositiveLessCost(p.takeProfit.value, slippage, exit.value.0);
      } else {
        PositiveLessCost(p.stopLoss.value, slippage, exit.value.0);
      }
    }
  }

  lemma PositiveLessCost(x: real, cost: real, left: real)
    requires x > 0.0 && cost < 1.0 && left == x * (1.0 - cost)
    ensures left > 0.0
  {
    LessCost(x, cost);
  }

  lemma MarketExitIsPositive(p: Position, k: Candle, slippage: real)
    requires p.side.Long? && PositiveCandle(k) && slippage < 1.0
    ensures MarketExit(p, k, slippage) > 0.0
  {
    assert MarketExit(p, k, slippage) == k.close * (1.0 - slippage);
    LessCost(k.close, slippage);
  }

  lemma CheckGrows(s: Sim, k: Candle, params: Params)
    requires MildCosts(params) && Grown(s, params)
    ensures Grown(CheckExit(s, k, params), params)
  {
    if s.position.Some? {
      var p := s.position.value;
      var exit := Exit(p, k, params.slippage);
      if exit.Some? {
        ExitsArePositive(p, k, params.slippage);
        hide Exit, Grown, Close;
        CloseGrows(s, p, k.at, exit.value.0, params, exit.value.1);
      }
    }
  }

  lemma {:induction false} ConsumeGrows(s: Sim, ms: seq<Mapped>, i: nat, k: Candle, next: Candle, params: Params)
    requires MildCosts(params) && Grown(s, params) && PositiveCandle(next)
    requires forall m | m in ms :: LongSignal(m.signal)
    ensures var r := Consume(s, ms, i, k, next, params); r.Some? && Grown(r.value, params)
    decreases |ms| - s.next
  {
    hide Growth, Capital, Enter, LongSignal;
    if s.next < |ms| && ms[s.next].index == i {
      var s1 := s.(next := s.next + 1);
      var g := ms[s.next].signal;
      assert ms[s.next] in ms;
      LongSignalIsLong(g);
      if s.position.None? {
        EnterGrows(s1, g, i, next, params);
        assert Take(s1, g, i, k, next, params) == Enter(s1, g, i, next, params);
        ConsumeGrows(Enter(s1, g, i, next, params).value, ms, i, k, next, params);
      } else {
        assert Take(s1, g, i, k, next, params) == Some(s1);
        ConsumeGrows(s1, ms, i, k, next, params);
      }
    }
  }

  lemma LongSignalIsLong(g: Signal)
    requires LongSignal(g)
    ensures g.side.Long?
  {
  }

  lemma EquityIsPositive(s: Sim, k: Candle, params: Params)
    requires Grown(s, params) && PositiveCandle(k)
    ensures EquityOf(s.cash, s.position, k) > 0.0
  {
    hide Growth, Capital;
    if s.position.Some? {
      ProductPositive(s.position.value.quantity, k.close);
    }
  }

  ghost predicate AllPositive(curve: seq<real>) {
    forall v | v in curve :: v > 0.0
  }

  lemma {:induction false} InsertKeeps(x: Signal, sorted: seq<Signal>)
    ensures forall g | g in InsertByTime(x, sorted) :: g == x || g in sorted
  {
    if sorted != [] && !NotLater(sorted[|sorted| - 1], x) {
      InsertKeeps(x, sorted[..|sorted| - 1]);
    }
  }

  lemma {:induction false} SortKeeps(signals: seq<Signal>)
    ensures forall g | g in SortByTime(signals) :: g in signals
  {
    if signals != [] {
      SortKeeps(signals[..|signals| - 1]);
      InsertKeeps(signals[|signals| - 1], SortByTime(signals[..|signals| - 1]));
    }
  }

  lemma {:induction false} InsertMappedKeeps(x: Mapped, sorted: seq<Mapped>)
    ensures forall m | m in InsertMapped(x, sorted) :: m == x || m in sorted
  {
    if sorted != [] && !MappedNotLater(sorted[|sorted| - 1], x) {
      InsertMappedKeeps(x, sorted[..|sorted| - 1]);
    }
  }

  lemma {:induction false} SortMappedKeeps(ms: seq<Mapped>)
    ensures forall m | m in SortMapped(ms) :: m in ms
  {
    if ms != [] {
      SortMappedKeeps(ms[..|ms| - 1]);
      InsertMappedKeeps(ms[|ms| - 1], SortMapped(ms[..|ms| - 1]));
    }
  }

  lemma {:induction false} MapKeeps(signals: seq<Signal>, candles: seq<Candle>)
    requires candles != []
    ensures forall m | m in MapSignals(signals, candles) :: m.signal in signals
  {
    if signals != [] {
      MapKeeps(signals[..|signals| - 1], candles);
    }
  }

  /** Every mapped signal is one of the input's. */
  lemma MapIsOfInput(inp: Input)
    requires inp.candles != []
    ensures forall m | m in SignalMap(inp) :: m.signal in inp.signals
  {
    var sorted := SortByTime(inp.signals);
    SortKeeps(inp.signals);
    MapKeeps(sorted, inp.candles);
    SortMappedKeeps(MapSignals(sorted, inp.candles));
  }

  lemma {:induction false} EveryStateGrows(inp: Input, k: nat)
    requires LongOnly(inp) && k < |inp.candles|
    ensures SimAfter(inp, k).Some?
    ensures Grown(SimAfter(inp, k).value, inp.params) && AllPositive(SimAfter(inp, k).value.curve)
  {
    hide CheckExit, Consume, EquityOf, SignalMap, LongSignal;
    if k > 0 {
      hide Grown, MildCosts;
      EveryStateGrows(inp, k - 1);
      MapIsOfInput(inp);
      var s := SimAfter(inp, k - 1).value;
      var c, next := inp.candles[k - 1], inp.candles[k];
      CheckGrows(s, c, inp.params);
      ConsumeGrows(CheckExit(s, c, inp.params), SignalMap(inp), k - 1, c, next, inp.params);
      var r := Consume(CheckExit(s, c, inp.params), SignalMap(inp), k - 1, c, next, inp.params).value;
      CurveKept(s, SignalMap(inp), k - 1, c, next, inp.params);
      EquityIsPositive(r, c, inp.params);
      CurveUnread(r, r.curve + [EquityOf(r.cash, r.position, c)], inp.params);
    }
  }

  lemma CurveUnread(s: Sim, curve: seq<real>, params: Params)
    requires Grown(s, params)
    ensures Grown(s.(curve := curve), params)
  {
    hide Growth;
  }

  lemma CurveKept(s: Sim, ms: seq<Mapped>, i: nat, k: Candle, next: Candle, params: Params)
    ensures var r := Consume(CheckExit(s, k, params), ms, i, k, next, params); r.Some? ==> r.value.curve == s.curve
  {
    hide Exit, CashAfterClose, TradeOf, Take;
  }

  /** A long-only run never divides by zero and never touches zero equity: every point of its curve is positive, and it
      ends with the capital times one factor per trade. */
  lemma LongOnlyCompounds(inp: Input)
    requires LongOnly(inp) && |inp.candles| >= 2
    ensures Backtested(inp).Finished?
    ensures var s := Backtested(inp).sim;
            && AllPositive(s.curve)
            && s.cash == s.curve[|s.curve| - 1] == Capital(inp.params) * Growth(s.trades, inp.params.commission)
  {
    hide LongSignal, MildCosts, SimAfter, Growth, Capital, Settle, Grown;
    var n := |inp.candles|;
    EveryStateGrows(inp, n - 1);
    LastPoint(inp);
    assert inp.candles[n - 1] in inp.candles;
    SettleGrows(SimAfter(inp, n - 1).value, inp.candles[n - 1], inp.params);
  }

  lemma SettleGrows(s: Sim, last: Candle, params: Params)
    requires MildCosts(params) && PositiveCandle(last) && Grown(s, params)
    requires s.curve != [] && AllPositive(s.curve) && (s.position.None? ==> s.curve[|s.curve| - 1] == s.cash)
    ensures var r := Settle(s, last, params);
            && r.curve != [] && AllPositive(r.curve)
            && r.cash == r.curve[|r.curve| - 1] == Capital(params) * Growth(r.trades, params.commission)
  {
    if s.position.Some? {
      var p := s.position.value;
      MarketExitIsPositive(p, last, params.slippage);
      CloseGrows(s, p, last.at, MarketExit(p, last, params.slippage), params, OnSignal);
    }
    hide Growth, Capital, CashAfterClose, TradeOf, MarketExit;
    var r := Settle(s, last, params);
    assert forall v | v in r.curve :: v in s.curve || v == r.cash;
  }

  lemma LastPoint(inp: Input)
    requires |inp.candles| >= 2 && SimAfter(inp, |inp.candles| - 1).Some?
    ensures var s := SimAfter(inp, |inp.candles| - 1).value;
            s.position.None? ==> s.curve[|s.curve| - 1] == s.cash
  {
    hide CheckExit, Consume, SignalMap;
  }
}
