/** Where a backtest's trades come from: no signal is lost, every reached level is taken, and every trade has an entry and
    an exit that the candles explain. */
module BacktestTrades {
  import opened Rounding
  import opened Backtest
  import opened BacktestLaws
  import PaperModel

  // ---- No signal is lost ----

  function AtTime(signals: seq<Signal>, at: Option<Time>): seq<Signal> {
    if signals == [] then [] else
    var last := signals[|signals| - 1];
    AtTime(signals[..|signals| - 1], at) + if last.at == at then [last] else []
  }

  lemma AtTimeOneMore(signals: seq<Signal>, x: Signal, at: Option<Time>)
    ensures AtTime(signals + [x], at) == AtTime(signals, at) + if x.at == at then [x] else []
  {
    assert (signals + [x])[..|signals|] == signals;
  }

  lemma {:induction false} InsertIsStable(x: Signal, sorted: seq<Signal>, at: Option<Time>)
    ensures multiset(InsertByTime(x, sorted)) == multiset(sorted) + multiset{x}
    ensures AtTime(InsertByTime(x, sorted), at) == AtTime(sorted, at) + if x.at == at then [x] else []
    decreases |sorted|
  {
    hide AtTime;
    if sorted == [] || NotLater(sorted[|sorted| - 1], x) {
      AtTimeOneMore(sorted, x, at);
    } else {
      var front, last := sorted[..|sorted| - 1], sorted[|sorted| - 1];
      InsertIsStable(x, front, at);
      AtTimeOneMore(InsertByTime(x, front), last, at);
      AtTimeOneMore(front, last, at);
      assert sorted == front + [last];
    }
  }

  /** Sorting keeps every signal, in time order, and signals of the same time in the order given. */
  lemma {:induction false} SortIsStable(signals: seq<Signal>, at: Option<Time>)
    ensures multiset(SortByTime(signals)) == multiset(signals) && InTimeOrder(SortByTime(signals))
    ensures AtTime(SortByTime(signals), at) == AtTime(signals, at)
  {
    hide InsertByTime, NotLater;
    SortIsOrdered(signals);
    if signals != [] {
      var front, last := signals[..|signals| - 1], signals[|signals| - 1];
      SortIsStable(front, at);
      InsertIsStable(last, SortByTime(front), at);
      assert signals == front + [last];
    }
  }

  /** The signals that have a time. */
  function Timed(signals: seq<Signal>): seq<Signal> {
    if signals == [] then [] else
    var last := signals[|signals| - 1];
    Timed(signals[..|signals| - 1]) + if last.at.Some? then [last] else []
  }

  lemma {:induction false} MappingKeepsSignals(signals: seq<Signal>, candles: seq<Candle>)
    requires candles != []
    ensures var ms := MapSignals(signals, candles);
            && |ms| == |Timed(signals)|
            && forall j | 0 <= j < |ms| ::
                 ms[j].signal == Timed(signals)[j] && ms[j].signal.at.Some?
                 && ms[j].index == IndexAt(candles, ms[j].signal.at.value)
  {
    hide IndexAt;
    if signals != [] {
      MappingKeepsSignals(signals[..|signals| - 1], candles);
    }
  }

  /** The run consumes every timed signal, in time order, each at the first candle not before it. */
  lemma SignalMapIsComplete(inp: Input)
    requires inp.candles != []
    ensures var ms, timed := SignalMap(inp), Timed(SortByTime(inp.signals));
            && |ms| == |timed|
            && forall j | 0 <= j < |ms| ::
                 ms[j].signal == timed[j] && ms[j].signal.at.Some?
                 && ms[j].index == IndexAt(inp.candles, ms[j].signal.at.value)
  {
    SecondSortIsIdle(inp);
    MappingKeepsSignals(SortByTime(inp.signals), inp.candles);
  }

  // ---- Levels ----

  predicate TargetReached(p: Position, k: Candle) {
    p.takeProfit.Some? && if p.side.Long? then k.high >= p.takeProfit.value else k.low <= p.takeProfit.value
  }

  predicate StopReached(p: Position, k: Candle) {
    p.stopLoss.Some? && if p.side.Long? then k.low <= p.stopLoss.value else k.high >= p.stopLoss.value
  }

  predicate LevelReached(p: Position, k: Candle) {
    TargetReached(p, k) || StopReached(p, k)
  }

  /** Out of a long at `slippage` less than `price`, out of a short at that much more. */
  predicate ExitsAt(side: Side, fill: real, price: real, slippage: real) {
    fill - price == if side.Long? then -(price * slippage) else price * slippage
  }

  predicate EntersAt(side: Side, fill: real, price: real, slippage: real) {
    fill - price == if side.Long? then price * slippage else -(price * slippage)
  }

  /** A candle takes a position out exactly when it reaches a level, at the target whenever that is reached. */
  lemma ExitIsTargetFirst(p: Position, k: Candle, slippage: real)
    ensures Exit(p, k, slippage).Some? <==> LevelReached(p, k)
    ensures TargetReached(p, k) ==>
              Exit(p, k, slippage).value.1.OnTakeProfit?
              && ExitsAt(p.side, Exit(p, k, slippage).value.0, p.takeProfit.value, slippage)
    ensures !TargetReached(p, k) && StopReached(p, k) ==>
              Exit(p, k, slippage).value.1.OnStopLoss?
              && ExitsAt(p.side, Exit(p, k, slippage).value.0, p.stopLoss.value, slippage)
  {
  }

  // ---- Trades ----

  /** The trade closes all of `p`, with the rounded profit of its two prices. */
  ghost predicate Closes(t: Trade, p: Position, commission: real) {
    && t.side == p.side && t.entryPrice == p.entryPrice && t.quantity == p.quantity && t.entryAt == p.entryAt
    && t.strategy == p.strategy
    && var gain := Gain(p.side, Value(p.quantity, p.entryPrice), Value(p.quantity, t.exitPrice), commission);
       && t.pnl == Round2(gain)
       && exists pct :: PaperModel.IsPercent(pct, gain, Notional(p)) && t.pnlPct == Round4(pct)
  }

  function Value(quantity: real, price: real): real {
    quantity * price
  }

  /** From what was paid and got for a long, or got and paid for a short, less commission on the closing side. */
  function Gain(side: Side, entered: real, exited: real, commission: real): real {
    (if side.Long? then exited - entered else entered - exited) - exited * commission
  }

  /** The exit is at a level candle `k` reaches, the target's when both are, or at its close. */
  ghost predicate ExitedOn(t: Trade, p: Position, k: Candle, slippage: real) {
    && t.exitAt == k.at
    && match t.reason
       case OnTakeProfit => TargetReached(p, k) && ExitsAt(p.side, t.exitPrice, p.takeProfit.value, slippage)
       case OnStopLoss => !TargetReached(p, k) && StopReached(p, k) && ExitsAt(p.side, t.exitPrice, p.stopLoss.value, slippage)
       case OnSignal => ExitsAt(p.side, t.exitPrice, k.close, slippage)
  }

  ghost predicate TradedOn(t: Trade, p: Position, k: Candle, params: Params) {
    Closes(t, p, params.commission) && ExitedOn(t, p, k, params.slippage)
  }

  lemma CloseIsTrade(p: Position, at: Time, exit: real, commission: real, reason: ExitReason)
    ensures Closes(TradeOf(p, at, exit, commission, reason), p, commission)
  {
    hide Round2, Round4, PaperModel.PercentOf;
    var t := TradeOf(p, at, exit, commission, reason);
    assert RawPnl(p.side, p.quantity, p.entryPrice, exit, commission)
           == Gain(p.side, Value(p.quantity, p.entryPrice), Value(p.quantity, exit), commission);
    var pnl := RawPnl(p.side, p.quantity, p.entryPrice, exit, commission);
    assert t.exitPrice == exit && t.pnlPct == Round4(PaperModel.PercentOf(pnl, Notional(p)));
    PaperModel.PercentIs(pnl, Notional(p));
    hide Gain, RawPnl, Value, Notional, PaperModel.IsPercent;
  }

  lemma LevelTrade(p: Position, k: Candle, params: Params)
    requires LevelReached(p, k)
    ensures Exit(p, k, params.slippage).Some?
    ensures var exit := Exit(p, k, params.slippage).value;
            var t := TradeOf(p, k.at, exit.0, params.commission, exit.1);
            TradedOn(t, p, k, params) && !t.reason.OnSignal?
  {
    ExitIsTargetFirst(p, k, params.slippage);
    hide Exit;
    var exit := Exit(p, k, params.slippage).value;
    CloseIsTrade(p, k.at, exit.0, params.commission, exit.1);
    hide Closes, ExitsAt, RawPnl, TargetReached, StopReached;
  }

  lemma MarketTrade(p: Position, k: Candle, params: Params)
    ensures var t := TradeOf(p, k.at, MarketExit(p, k, params.slippage), params.commission, OnSignal);
            TradedOn(t, p, k, params) && t.reason.OnSignal?
  {
    CloseIsTrade(p, k.at, MarketExit(p, k, params.slippage), params.commission, OnSignal);
    hide Closes, RawPnl;
  }

  // ---- What becomes of a position ----

  /** Trades are only added. */
  lemma {:induction false} ConsumeAppends(s: Sim, ms: seq<Mapped>, i: nat, k: Candle, next: Candle, params: Params)
    ensures var r := Consume(s, ms, i, k, next, params); r.Some? ==> s.trades <= r.value.trades
    decreases |ms| - s.next
  {
    hide CashAfterClose, TradeOf, MarketExit, EntryPrice, UnitCost;
    if s.next < |ms| && ms[s.next].index == i {
      var taken := Take(s.(next := s.next + 1), ms[s.next].signal, i, k, next, params);
      if taken.Some? {
        ConsumeAppends(taken.value, ms, i, k, next, params);
      }
    }
  }

  /** Some signal from the cursor on, at candle `i`, is for the other side. */
  ghost predicate Reversed(s: Sim, ms: seq<Mapped>, i: nat, side: Side) {
    exists j | s.next <= j < |ms| :: ms[j].index == i && ms[j].signal.side != side
  }

  /** The signals of a candle leave a held position alone, unless one is for the other side: then it is closed at the
      candle's close. */
  lemma {:induction false} ConsumeHeld(s: Sim, ms: seq<Mapped>, i: nat, k: Candle, next: Candle, params: Params)
    requires s.position.Some? && InMapOrder(ms) && (s.next < |ms| ==> ms[s.next].index >= i)
    ensures var r, p := Consume(s, ms, i, k, next, params), s.position.value;
            r.Some? ==>
              if Reversed(s, ms, i, p.side) then
                && |r.value.trades| > |s.trades| && r.value.trades[..|s.trades|] == s.trades
                && TradedOn(r.value.trades[|s.trades|], p, k, params) && r.value.trades[|s.trades|].reason.OnSignal?
              else r.value.position == Some(p) && r.value.trades == s.trades
    decreases |ms| - s.next
  {
    hide TradedOn, CashAfterClose, TradeOf, MarketExit, Enter, MappedNotLater, InMapOrder;
    var p := s.position.value;
    if s.next < |ms| && ms[s.next].index == i {
      var s1, g := s.(next := s.next + 1), ms[s.next].signal;
      var taken := Take(s1, g, i, k, next, params);
      if g.side == p.side {
        NextInMap(ms, s.next);
        ConsumeHeld(s1, ms, i, k, next, params);
        assert Reversed(s, ms, i, p.side) <==> Reversed(s1, ms, i, p.side);
      } else if taken.Some? {
        assert Reversed(s, ms, i, p.side);
        MarketTrade(p, k, params);
        EnterKeepsTrades(Close(s1, p, k.at, MarketExit(p, k, params.slippage), params.commission, OnSignal), g, i, next, params);
        ConsumeAppends(taken.value, ms, i, k, next, params);
        var r := Consume(taken.value, ms, i, k, next, params);
        if r.Some? {
          assert taken.value.trades[..|s.trades|] == s.trades;
          assert r.value.trades[..|taken.value.trades|] == taken.value.trades;
        }
      }
    } else {
      NoneLeftAt(s, ms, i, p.side);
    }
  }

  lemma EnterKeepsTrades(s: Sim, g: Signal, i: nat, next: Candle, params: Params)
    ensures var r := Enter(s, g, i, next, params); r.Some? ==> r.value.trades == s.trades
  {
    hide EntryPrice, UnitCost;
  }

  lemma NextInMap(ms: seq<Mapped>, j: nat)
    requires InMapOrder(ms) && j < |ms|
    ensures j + 1 < |ms| ==> ms[j + 1].index >= ms[j].index
  {
    if j + 1 < |ms| {
      assert MappedNotLater(ms[j], ms[j + 1]);
    }
  }

  lemma NoneLeftAt(s: Sim, ms: seq<Mapped>, i: nat, side: Side)
    requires InMapOrder(ms) && (s.next < |ms| ==> ms[s.next].index > i)
    ensures !Reversed(s, ms, i, side)
  {
    forall j | s.next <= j < |ms|
      ensures ms[j].index != i
    {
      assert MappedNotLater(ms[s.next], ms[j]);
    }
  }

  /** Some signal of candle `k` is for the other side. */
  ghost predicate OtherSideAt(inp: Input, k: nat, side: Side)
    requires inp.candles != []
  {
    exists j | 0 <= j < |SignalMap(inp)| :: SignalMap(inp)[j].index == k && SignalMap(inp)[j].signal.side != side
  }

  lemma IterationOf(inp: Input, k: nat)
    requires k + 1 < |inp.candles| && SimAfter(inp, k + 1).Some?
    ensures SimAfter(inp, k).Some?
    ensures var r := Consume(CheckExit(SimAfter(inp, k).value, inp.candles[k], inp.params), SignalMap(inp), k,
                             inp.candles[k], inp.candles[k + 1], inp.params);
            && r.Some? && SimAfter(inp, k + 1).value.trades == r.value.trades
            && SimAfter(inp, k + 1).value.position == r.value.position
  {
    hide SignalMap, CheckExit, EquityOf, Consume;
  }

  lemma CursorNotPast(inp: Input, k: nat)
    requires k < |inp.candles| && SimAfter(inp, k).Some?
    ensures var s, ms := SimAfter(inp, k).value, SignalMap(inp);
            && s.next <= |ms| && (s.next < |ms| ==> ms[s.next].index >= k)
            && (forall side :: OtherSideAt(inp, k, side) <==> Reversed(s, ms, k, side))
  {
    hide SignalMap, SimAfter;
    CursorIsExact(inp, k);
  }

  /** A position that a run holds when candle `k` comes is closed by it at a level, if it reaches one; else at its close, if
      a signal for the other side is due; else it is held on. */
  lemma HeldIsClosedIff(inp: Input, k: nat)
    requires k + 1 < |inp.candles| && SimAfter(inp, k + 1).Some?
    requires SimAfter(inp, k).Some? && SimAfter(inp, k).value.position.Some?
    ensures var s, s', c := SimAfter(inp, k).value, SimAfter(inp, k + 1).value, inp.candles[k];
            var p := s.position.value;
            if LevelReached(p, c) || OtherSideAt(inp, k, p.side) then
              && |s'.trades| > |s.trades| && s'.trades[..|s.trades|] == s.trades
              && TradedOn(s'.trades[|s.trades|], p, c, inp.params)
              && (s'.trades[|s.trades|].reason.OnSignal? <==> !LevelReached(p, c))
            else s'.position == Some(p) && s'.trades == s.trades
  {
    hide SimAfter, SignalMap, Consume, TradedOn, LevelReached, OtherSideAt, Reversed, InMapOrder, Exit;
    var s, c := SimAfter(inp, k).value, inp.candles[k];
    var p, ms := s.position.value, SignalMap(inp);
    IterationOf(inp, k);
    ExitIsTargetFirst(p, c, inp.params.slippage);
    var checked := CheckExit(s, c, inp.params);
    if LevelReached(p, c) {
      LevelTrade(p, c, inp.params);
      ConsumeAppends(checked, ms, k, c, inp.candles[k + 1], inp.params);
      assert SimAfter(inp, k + 1).value.trades[..|checked.trades|] == checked.trades;
      hide CashAfterClose, TradeOf;
    } else {
      CursorNotPast(inp, k);
      SecondSortIsIdle(inp);
      ConsumeHeld(s, ms, k, c, inp.candles[k + 1], inp.params);
    }
  }

  /** The signals of a candle leave a position on the side of the last one, entered at the next candle unless one of that
      side was already held throughout. */
  lemma {:induction false} ConsumeEndsOn(s: Sim, ms: seq<Mapped>, i: nat, k: Candle, next: Candle, params: Params, j: nat)
    requires InMapOrder(ms) && s.next <= j < |ms| && ms[s.next].index >= i && ms[j].index == i
    requires j + 1 < |ms| ==> ms[j + 1].index > i
    ensures var r := Consume(s, ms, i, k, next, params);
            r.Some? ==>
              && r.value.position.Some? && r.value.position.value.side == ms[j].signal.side
              && (r.value.position.value.entryIndex == i + 1 || r.value.position == s.position)
    decreases |ms| - s.next
  {
    hide CashAfterClose, TradeOf, MarketExit, EntryPrice, UnitCost, MappedNotLater, InMapOrder;
    FirstIsAt(ms, s.next, j, i);
    var s1, g := s.(next := s.next + 1), ms[s.next].signal;
    var taken := Take(s1, g, i, k, next, params);
    if taken.Some? {
      assert taken.value.position.Some? && taken.value.position.value.side == g.side;
      if s.next < j {
        NextInMap(ms, s.next);
        ConsumeEndsOn(taken.value, ms, i, k, next, params, j);
      }
    }
  }

  lemma FirstIsAt(ms: seq<Mapped>, a: nat, j: nat, i: nat)
    requires InMapOrder(ms) && a <= j < |ms| && ms[a].index >= i && ms[j].index == i
    ensures ms[a].index == i
  {
    assert MappedNotLater(ms[a], ms[j]);
  }

  /** No signal is ignored: after a candle the run is on the side of that candle's last signal. */
  lemma LastSignalDecides(inp: Input, k: nat, j: nat)
    requires k + 1 < |inp.candles| && SimAfter(inp, k + 1).Some?
    requires j < |SignalMap(inp)| && SignalMap(inp)[j].index == k
    requires j + 1 < |SignalMap(inp)| ==> SignalMap(inp)[j + 1].index > k
    ensures var held := SimAfter(inp, k + 1).value.position;
            && held.Some? && held.value.side == SignalMap(inp)[j].signal.side
            && (held.value.entryIndex == k + 1
                || (SimAfter(inp, k).Some? && held == SimAfter(inp, k).value.position))
  {
    hide SimAfter, SignalMap, Consume, InMapOrder, Exit, CashAfterClose, TradeOf;
    IterationOf(inp, k);
    SecondSortIsIdle(inp);
    CursorNotPast(inp, k);
    CursorIsExact(inp, k);
    var s := SimAfter(inp, k).value;
    ConsumeEndsOn(CheckExit(s, inp.candles[k], inp.params), SignalMap(inp), k, inp.candles[k], inp.candles[k + 1], inp.params, j);
  }

  // ---- The curve ----

  /** What the open position would gain at `price`, less the commission it paid. */
  function OpenGain(p: Position, price: real, commission: real): real {
    (if p.side.Long? then Value(p.quantity, price) - Value(p.quantity, p.entryPrice)
     else Value(p.quantity, p.entryPrice) - Value(p.quantity, price))
    - EntryCommission(p.quantity, p.entryPrice, commission)
  }

  /** Every point of the curve is the capital, plus what the trades netted, plus the open gain at that candle's close. */
  lemma EveryPointIsExplained(inp: Input, k: nat)
    requires 0 < k < |inp.candles| && SimAfter(inp, k).Some?
    ensures var s := SimAfter(inp, k).value;
            s.curve[k] == Capital(inp.params) + Net(s.trades, inp.params.commission)
                          + match s.position
                            case None => 0.0
                            case Some(p) => OpenGain(p, inp.candles[k - 1].close, inp.params.commission)
  {
    hide SimAfter, Net, EntryCommission;
    LastPointIsEquity(inp, k);
    EveryStateBalances(inp, k);
    var s := SimAfter(inp, k).value;
    if s.position.Some? {
      EquityIsGain(s.cash, s.position.value, inp.candles[k - 1], inp.params.commission);
    }
    hide EquityOf, OpenGain;
  }

  lemma EquityIsGain(cash: real, p: Position, k: Candle, commission: real)
    ensures EquityOf(cash, Some(p), k)
            == cash + p.quantity * p.entryPrice + EntryCommission(p.quantity, p.entryPrice, commission)
               + OpenGain(p, k.close, commission)
  {
    hide EntryCommission;
  }

  // ---- Every trade is explained ----

  /** `p` was opened by a signal: on its side, with its levels, at the candle after the one it is mapped to, for its own
      price, or else that candle's open, with slippage on top. */
  ghost predicate OpenedBy(p: Position, m: Mapped, inp: Input) {
    && p.entryIndex == m.index + 1 < |inp.candles|
    && var g, c := m.signal, inp.candles[p.entryIndex];
       && p.side == g.side && p.stopLoss == g.stopLoss && p.takeProfit == g.takeProfit && p.strategy == g.strategy
       && p.entryAt == c.at
       && var price := if g.entryPrice.Some? && g.entryPrice.value != 0.0 then g.entryPrice.value else c.open;
          EntersAt(p.side, p.entryPrice, price, inp.params.slippage)
  }

  ghost predicate Opened(p: Position, inp: Input)
    requires inp.candles != []
  {
    exists j | 0 <= j < |SignalMap(inp)| :: OpenedBy(p, SignalMap(inp)[j], inp)
  }

  /** A trade of candle `x` or earlier: opened by a signal, held at least until the candle of that signal, and closed
      there. */
  ghost predicate Explained(t: Trade, inp: Input, x: nat)
    requires inp.candles != []
  {
    exists p: Position, y: nat ::
      Opened(p, inp) && p.entryIndex <= y + 1 && y <= x && y < |inp.candles| && TradedOn(t, p, inp.candles[y], inp.params)
  }

  /** What is held when candle `x` comes was opened by an earlier signal; what was traded is explained. */
  ghost predicate AllExplained(s: Sim, inp: Input, x: nat)
    requires inp.candles != []
  {
    && (s.position.Some? ==> Opened(s.position.value, inp) && s.position.value.entryIndex <= x + 1)
    && forall i | 0 <= i < |s.trades| :: Explained(s.trades[i], inp, x)
  }

  lemma ClosedIsExplained(s: Sim, inp: Input, x: nat, t: Trade)
    requires inp.candles != [] && x < |inp.candles| && AllExplained(s, inp, x) && s.position.Some?
    requires TradedOn(t, s.position.value, inp.candles[x], inp.params)
    ensures forall i | 0 <= i < |s.trades + [t]| :: Explained((s.trades + [t])[i], inp, x)
  {
    hide TradedOn, Opened;
    assert Explained(t, inp, x);
  }

  lemma CheckExplained(s: Sim, inp: Input, x: nat)
    requires x < |inp.candles| && AllExplained(s, inp, x)
    ensures AllExplained(CheckExit(s, inp.candles[x], inp.params), inp, x)
  {
    hide Explained, Opened, Exit, LevelReached, TradedOn, CashAfterClose, TradeOf;
    if s.position.Some? {
      var p, c := s.position.value, inp.candles[x];
      ExitIsTargetFirst(p, c, inp.params.slippage);
      if LevelReached(p, c) {
        LevelTrade(p, c, inp.params);
        var exit := Exit(p, c, inp.params.slippage).value;
        ClosedIsExplained(s, inp, x, TradeOf(p, c.at, exit.0, inp.params.commission, exit.1));
      }
    }
  }

  lemma EntryIsOpened(s: Sim, m: Mapped, inp: Input)
    requires m.index + 1 < |inp.candles|
    ensures var r := Enter(s, m.signal, m.index, inp.candles[m.index + 1], inp.params);
            r.Some? ==> r.value.position.Some? && OpenedBy(r.value.position.value, m, inp) && r.value.trades == s.trades
  {
    hide UnitCost;
  }

  lemma TakeExplained(s: Sim, inp: Input, j: nat)
    requires inp.candles != [] && j < |SignalMap(inp)|
    requires var x := SignalMap(inp)[j].index; x + 1 < |inp.candles| && AllExplained(s, inp, x)
    ensures var m := SignalMap(inp)[j];
            var r := Take(s, m.signal, m.index, inp.candles[m.index], inp.candles[m.index + 1], inp.params);
            r.Some? ==> AllExplained(r.value, inp, m.index)
  {
    hide Explained, OpenedBy, TradedOn, Enter, MarketExit, CashAfterClose, TradeOf, SignalMap;
    var m := SignalMap(inp)[j];
    var c := inp.candles[m.index];
    var open := s;
    if s.position.Some? && m.signal.side != s.position.value.side {
      var p := s.position.value;
      MarketTrade(p, c, inp.params);
      var exit := MarketExit(p, c, inp.params.slippage);
      ClosedIsExplained(s, inp, m.index, TradeOf(p, c.at, exit, inp.params.commission, OnSignal));
      open := Close(s, p, c.at, exit, inp.params.commission, OnSignal);
    }
    EntryIsOpened(open, m, inp);
    OpenedAfter(open, m, inp);
  }

  lemma OpenedAfter(s: Sim, m: Mapped, inp: Input)
    requires m.index + 1 < |inp.candles|
    ensures var r := Enter(s, m.signal, m.index, inp.candles[m.index + 1], inp.params);
            r.Some? ==> r.value.position.value.entryIndex == m.index + 1
  {
    hide UnitCost, EntryPrice;
  }

  lemma {:induction false} ConsumeExplained(s: Sim, inp: Input, x: nat)
    requires x + 1 < |inp.candles| && AllExplained(s, inp, x)
    ensures var r := Consume(s, SignalMap(inp), x, inp.candles[x], inp.candles[x + 1], inp.params);
            r.Some? ==> AllExplained(r.value, inp, x)
    decreases |SignalMap(inp)| - s.next
  {
    hide Take, SignalMap, Opened, Explained;
    var ms := SignalMap(inp);
    if s.next < |ms| && ms[s.next].index == x {
      var s1 := s.(next := s.next + 1);
      TakeExplained(s1, inp, s.next);
      var taken := Take(s1, ms[s.next].signal, x, inp.candles[x], inp.candles[x + 1], inp.params);
      if taken.Some? {
        ConsumeExplained(taken.value, inp, x);
      }
    }
  }

  lemma ExplainedLater(s: Sim, inp: Input, x: nat)
    requires inp.candles != [] && AllExplained(s, inp, x)
    ensures AllExplained(s, inp, x + 1)
  {
    hide Opened, TradedOn;
    forall i | 0 <= i < |s.trades|
      ensures Explained(s.trades[i], inp, x + 1)
    {
      var p: Position, y: nat :|
        Opened(p, inp) && p.entryIndex <= y + 1 && y <= x && y < |inp.candles| && TradedOn(s.trades[i], p, inp.candles[y], inp.params);
      assert y <= x + 1;
    }
  }

  lemma {:induction false} StatesAreExplained(inp: Input, k: nat)
    requires k < |inp.candles| && SimAfter(inp, k).Some?
    ensures AllExplained(SimAfter(inp, k).value, inp, k)
  {
    hide Consume, CheckExit, SignalMap, Opened, Explained, EquityOf;
    if k > 0 {
      IterationOf(inp, k - 1);
      StatesAreExplained(inp, k - 1);
      var s := SimAfter(inp, k - 1).value;
      CheckExplained(s, inp, k - 1);
      var checked := CheckExit(s, inp.candles[k - 1], inp.params);
      ConsumeExplained(checked, inp, k - 1);
      hide SimAfter;
      ExplainedLater(SimAfter(inp, k).value, inp, k - 1);
    }
  }

  /** Every trade a finished run reports was opened by one of its signals and closed by one of its candles, at prices slipped
      against the trader, at a level only when the candle reached it. */
  lemma EveryTradeIsExplained(inp: Input)
    requires Backtested(inp).Finished?
    ensures var trades := Backtested(inp).sim.trades;
            forall i | 0 <= i < |trades| :: Explained(trades[i], inp, |inp.candles| - 1)
  {
    var x := |inp.candles| - 1;
    var s := SimAfter(inp, x).value;
    StatesAreExplained(inp, x);
    hide SimAfter, Explained, Opened, TradedOn, MarketExit, CashAfterClose, TradeOf;
    if s.position.Some? {
      var p, c := s.position.value, inp.candles[x];
      MarketTrade(p, c, inp.params);
      ClosedIsExplained(s, inp, x, TradeOf(p, c.at, MarketExit(p, c, inp.params.slippage), inp.params.commission, OnSignal));
    }
  }
}
