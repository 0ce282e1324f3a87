/** What every backtest keeps: no look-ahead, books that balance, and compounding of long-only runs. */
module BacktestLaws {
  import opened Rounding
  import opened Drawdown
  import opened Backtest
  import PaperModel

  // ---- Signals map in order ----

  ghost predicate InTimeOrder(signals: seq<Signal>) {
    forall i, j | 0 <= i <= j < |signals| :: NotLater(signals[i], signals[j])
  }

  lemma {:induction false} InsertKeepsOrder(x: Signal, sorted: seq<Signal>)
    requires InTimeOrder(sorted)
    ensures InTimeOrder(InsertByTime(x, sorted))
    ensures forall y | y in InsertByTime(x, sorted) :: y in sorted || y == x
    decreases |sorted|
  {
    if sorted != [] && !NotLater(sorted[|sorted| - 1], x) {
      var front := sorted[..|sorted| - 1];
      InsertKeepsOrder(x, front);
      var r := InsertByTime(x, front);
      forall i | 0 <= i < |r|
        ensures NotLater(r[i], sorted[|sorted| - 1])
      {
        assert r[i] in r;
        if r[i] != x {
          var j :| 0 <= j < |front| && front[j] == r[i];
          assert NotLater(sorted[j], sorted[|sorted| - 1]);
        }
      }
    }
  }

  lemma {:induction false} SortIsOrdered(signals: seq<Signal>)
    ensures InTimeOrder(SortByTime(signals))
  {
    if signals != [] {
      SortIsOrdered(signals[..|signals| - 1]);
      InsertKeepsOrder(signals[|signals| - 1], SortByTime(signals[..|signals| - 1]));
    }
  }

  lemma IndexIsMonotone(candles: seq<Candle>, t: Time, u: Time)
    requires candles != [] && t <= u
    ensures IndexAt(candles, t) <= IndexAt(candles, u)
  {
  }

  ghost predicate InMapOrder(ms: seq<Mapped>) {
    forall i, j | 0 <= i <= j < |ms| :: MappedNotLater(ms[i], ms[j])
  }

  /** Where mapped signals come from. */
  ghost predicate MappedFrom(m: Mapped, signals: seq<Signal>, candles: seq<Candle>)
    requires candles != []
  {
    m.signal in signals && m.signal.at.Some? && m.index == IndexAt(candles, m.signal.at.value)
  }

  lemma LastMappedIsLast(signals: seq<Signal>, candles: seq<Candle>, m: Mapped)
    requires candles != [] && signals != [] && InTimeOrder(signals)
    requires MappedFrom(m, signals[..|signals| - 1], candles) && signals[|signals| - 1].at.Some?
    ensures var last := signals[|signals| - 1]; MappedNotLater(m, Mapped(IndexAt(candles, last.at.value), last))
  {
    hide IndexAt;
    var front, last := signals[..|signals| - 1], signals[|signals| - 1];
    var j :| 0 <= j < |front| && front[j] == m.signal;
    assert NotLater(signals[j], signals[|signals| - 1]);
    IndexIsMonotone(candles, m.signal.at.value, last.at.value);
  }

  lemma {:induction false} MappingKeepsOrder(signals: seq<Signal>, candles: seq<Candle>)
    requires candles != [] && InTimeOrder(signals)
    ensures var ms := MapSignals(signals, candles);
            InMapOrder(ms) && forall i | 0 <= i < |ms| :: MappedFrom(ms[i], signals, candles)
  {
    if signals != [] {
      hide IndexAt, MappedNotLater, NotLater, MappedFrom, InMapOrder;
      var front, last := signals[..|signals| - 1], signals[|signals| - 1];
      MappingKeepsOrder(front, candles);
      var ms := MapSignals(front, candles);
      forall i | 0 <= i < |ms|
        ensures MappedFrom(ms[i], signals, candles)
        ensures last.at.Some? ==> MappedNotLater(ms[i], Mapped(IndexAt(candles, last.at.value), last))
      {
        FromMoreSignals(ms[i], front, last, candles);
        assert front + [last] == signals;
        if last.at.Some? {
          LastMappedIsLast(signals, candles, ms[i]);
        }
      }
      if last.at.Some? {
        AppendKeepsMapOrder(ms, Mapped(IndexAt(candles, last.at.value), last));
        LastIsMappedFrom(signals, candles);
      }
    } else {
      assert MapSignals(signals, candles) == [];
    }
  }

  lemma FromMoreSignals(m: Mapped, front: seq<Signal>, last: Signal, candles: seq<Candle>)
    requires candles != [] && MappedFrom(m, front, candles)
    ensures MappedFrom(m, front + [last], candles)
  {
  }

  lemma LastIsMappedFrom(signals: seq<Signal>, candles: seq<Candle>)
    requires candles != [] && signals != [] && signals[|signals| - 1].at.Some?
    ensures var last := signals[|signals| - 1]; MappedFrom(Mapped(IndexAt(candles, last.at.value), last), signals, candles)
  {
    hide IndexAt;
  }

  lemma AppendKeepsMapOrder(ms: seq<Mapped>, m: Mapped)
    requires InMapOrder(ms) && forall i | 0 <= i < |ms| :: MappedNotLater(ms[i], m)
    ensures InMapOrder(ms + [m])
  {
  }

  lemma {:induction false} SortingSortedIsIdentity(ms: seq<Mapped>)
    requires InMapOrder(ms)
    ensures SortMapped(ms) == ms
  {
    if ms != [] {
      SortingSortedIsIdentity(ms[..|ms| - 1]);
      assert ms == ms[..|ms| - 1] + [ms[|ms| - 1]];
    }
  }

  /** The second sort never moves anything: mapping time-ordered signals already orders them by candle. */
  lemma SecondSortIsIdle(inp: Input)
    requires inp.candles != []
    ensures SignalMap(inp) == MapSignals(SortByTime(inp.signals), inp.candles)
    ensures InMapOrder(SignalMap(inp))
  {
    SortIsOrdered(inp.signals);
    MappingKeepsOrder(SortByTime(inp.signals), inp.candles);
    SortingSortedIsIdentity(MapSignals(SortByTime(inp.signals), inp.candles));
  }

  // ---- No look-ahead ----

  /** The maps place the same signals on the same candles below `k`. */
  ghost predicate AgreeBelow(ms: seq<Mapped>, ns: seq<Mapped>, k: nat) {
    |ms| == |ns|
    && forall j | 0 <= j < |ms| ::
         ms[j].signal == ns[j].signal && (ms[j].index == ns[j].index || (ms[j].index >= k && ns[j].index >= k))
  }

  lemma IndexesAgree(a: seq<Candle>, b: seq<Candle>, t: Time, k: nat)
    requires k < |a| && k < |b| && a[..k + 1] == b[..k + 1]
    ensures var i, j := IndexAt(a, t), IndexAt(b, t); i == j || (i >= k && j >= k)
  {
    var i, j := IndexAt(a, t), IndexAt(b, t);
    assert forall x | 0 <= x <= k :: a[x] == a[..k + 1][x] == b[x];
  }

  lemma {:induction false} MapsAgree(signals: seq<Signal>, a: seq<Candle>, b: seq<Candle>, k: nat)
    requires k < |a| && k < |b| && a[..k + 1] == b[..k + 1]
    ensures AgreeBelow(MapSignals(signals, a), MapSignals(signals, b), k)
  {
    if signals != [] {
      var last := signals[|signals| - 1];
      MapsAgree(signals[..|signals| - 1], a, b, k);
      if last.at.Some? {
        IndexesAgree(a, b, last.at.value, k);
      }
    }
  }

  lemma {:induction false} ConsumeAgrees(s: Sim, ms: seq<Mapped>, ns: seq<Mapped>, i: nat, k: nat, c: Candle, next: Candle,
                                         params: Params)
    requires AgreeBelow(ms, ns, k) && i < k
    ensures Consume(s, ms, i, c, next, params) == Consume(s, ns, i, c, next, params)
    decreases |ms| - s.next
  {
    hide Take;
    if s.next < |ms| && ms[s.next].index == i {
      var taken := Take(s.(next := s.next + 1), ms[s.next].signal, i, c, next, params);
      if taken.Some? {
        ConsumeAgrees(taken.value, ms, ns, i, k, c, next, params);
      }
    }
  }

  /** Two inputs that share signals, parameters and candles 0 .. k are in the same state after iterations 0 .. k - 1:
      cash, position, trades, curve and cursor, or the same crash. */
  lemma NoLookAhead(a: Input, b: Input, k: nat)
    requires a.signals == b.signals && a.params == b.params
    requires k < |a.candles| && k < |b.candles| && a.candles[..k + 1] == b.candles[..k + 1]
    ensures SimAfter(a, k) == SimAfter(b, k)
  {
    SecondSortIsIdle(a);
    SecondSortIsIdle(b);
    MapsAgree(SortByTime(a.signals), a.candles, b.candles, k);
    StatesAgree(a, b, k, k);
  }

  lemma {:induction false} StatesAgree(a: Input, b: Input, i: nat, k: nat)
    requires i <= k < |a.candles| && k < |b.candles| && a.candles[..k + 1] == b.candles[..k + 1]
    requires a.params == b.params && AgreeBelow(SignalMap(a), SignalMap(b), k)
    ensures SimAfter(a, i) == SimAfter(b, i)
    decreases i
  {
    hide SignalMap, Consume, CheckExit, EquityOf, AgreeBelow;
    if i > 0 {
      StatesAgree(a, b, i - 1, k);
      assert forall x | 0 <= x <= k :: a.candles[x] == a.candles[..k + 1][x] == b.candles[x];
      var s := SimAfter(a, i - 1);
      if s.Some? {
        ConsumeAgrees(CheckExit(s.value, a.candles[i - 1], a.params), SignalMap(a), SignalMap(b), i - 1, k,
                      a.candles[i - 1], a.candles[i], a.params);
      }
    }
  }

  // ---- The cursor ----

  lemma {:induction false} ConsumeStops(s: Sim, ms: seq<Mapped>, i: nat, k: Candle, next: Candle, params: Params)
    requires InMapOrder(ms) && s.next <= |ms| && (s.next < |ms| ==> ms[s.next].index >= i)
    ensures var r := Consume(s, ms, i, k, next, params);
            r.Some? ==>
              && s.next <= r.value.next <= |ms|
              && (forall j | s.next <= j < r.value.next :: ms[j].index == i)
              && (r.value.next < |ms| ==> ms[r.value.next].index > i)
    decreases |ms| - s.next
  {
    hide Take;
    if s.next < |ms| && ms[s.next].index == i {
      var taken := Take(s.(next := s.next + 1), ms[s.next].signal, i, k, next, params);
      if taken.Some? {
        if s.next + 1 < |ms| {
          assert MappedNotLater(ms[s.next], ms[s.next + 1]);
        }
        ConsumeStops(taken.value, ms, i, k, next, params);
      }
    }
  }

  /** The cursor has passed exactly the signals mapped below candle `k`. */
  ghost predicate CursorAt(next: nat, ms: seq<Mapped>, k: nat) {
    next <= |ms| && forall j | 0 <= j < |ms| :: j < next <==> ms[j].index < k
  }

  lemma ConsumeMovesCursor(s: Sim, ms: seq<Mapped>, i: nat, k: Candle, next: Candle, params: Params)
    requires InMapOrder(ms) && CursorAt(s.next, ms, i)
    ensures var r := Consume(s, ms, i, k, next, params); r.Some? ==> CursorAt(r.value.next, ms, i + 1)
  {
    ConsumeStops(s, ms, i, k, next, params);
    hide Consume;
    var r := Consume(s, ms, i, k, next, params);
    if r.Some? {
      forall j | 0 <= j < |ms|
        ensures j < r.value.next <==> ms[j].index < i + 1
      {
        if j >= r.value.next {
          assert MappedNotLater(ms[r.value.next], ms[j]);
        }
      }
    }
  }

  /** A state that was reached came from an iteration that did not crash. */
  lemma LastIteration(inp: Input, k: nat)
    requires 0 < k < |inp.candles| && SimAfter(inp, k).Some?
    ensures SimAfter(inp, k - 1).Some?
    ensures var consumed := Consume(CheckExit(SimAfter(inp, k - 1).value, inp.candles[k - 1], inp.params), SignalMap(inp),
                                    k - 1, inp.candles[k - 1], inp.candles[k], inp.params);
            consumed.Some? && SimAfter(inp, k).value.next == consumed.value.next
  {
    hide SignalMap, CheckExit, EquityOf, Consume;
  }

  /** Each signal is taken up at its own candle: after k iterations exactly those mapped before candle k are consumed,
      so a signal mapped to the last candle never is. */
  lemma {:induction false} CursorIsExact(inp: Input, k: nat)
    requires k < |inp.candles| && SimAfter(inp, k).Some?
    ensures CursorAt(SimAfter(inp, k).value.next, SignalMap(inp), k)
  {
    hide SignalMap, CheckExit, EquityOf, Consume, InMapOrder, CursorAt, SimAfter;
    if k == 0 {
      CursorStarts(inp);
    } else {
      LastIteration(inp, k);
      SecondSortIsIdle(inp);
      CursorIsExact(inp, k - 1);
      var s := SimAfter(inp, k - 1).value;
      CheckKeepsCursor(s, inp.candles[k - 1], inp.params);
      ConsumeMovesCursor(CheckExit(s, inp.candles[k - 1], inp.params), SignalMap(inp), k - 1,
                         inp.candles[k - 1], inp.candles[k], inp.params);
    }
  }

  lemma CursorStarts(inp: Input)
    requires inp.candles != []
    ensures SimAfter(inp, 0).Some? && CursorAt(SimAfter(inp, 0).value.next, SignalMap(inp), 0)
  {
    hide SignalMap;
  }

  lemma CheckKeepsCursor(s: Sim, k: Candle, params: Params)
    ensures CheckExit(s, k, params).next == s.next && CheckExit(s, k, params).curve == s.curve
  {
    hide Exit, CashAfterClose, Backtest.TradeOf;
  }

  // ---- Self-financing ----

  function EntryCommission(quantity: real, entry: real, commission: real): real {
    quantity * entry * commission
  }

  /** Unrounded profits less entry commissions. */
  function Net(trades: seq<Trade>, commission: real): real {
    if trades == [] then 0.0 else
    var t := trades[|trades| - 1];
    Net(trades[..|trades| - 1], commission)
    + RawPnl(t.side, t.quantity, t.entryPrice, t.exitPrice, commission)
    - EntryCommission(t.quantity, t.entryPrice, commission)
  }

  /** Flat: cash is the capital plus what the trades netted. Open: cash is zero and the position cost all of that. */
  ghost predicate Balanced(s: Sim, params: Params) {
    var worth := Capital(params) + Net(s.trades, params.commission);
    match s.position
    case None => s.cash == worth
    case Some(p) => s.cash == 0.0 && p.quantity * p.entryPrice + EntryCommission(p.quantity, p.entryPrice, params.commission) == worth
  }

  lemma CloseFigures(p: Position, exit: real, commission: real)
    ensures CashAfterClose(p, exit, commission)
            == p.quantity * p.entryPrice + RawPnl(p.side, p.quantity, p.entryPrice, exit, commission)
  {
  }

  lemma NetOneMore(trades: seq<Trade>, p: Position, at: Time, exit: real, commission: real, reason: ExitReason)
    ensures Net(trades + [TradeOf(p, at, exit, commission, reason)], commission)
            == Net(trades, commission) + RawPnl(p.side, p.quantity, p.entryPrice, exit, commission)
               - EntryCommission(p.quantity, p.entryPrice, commission)
  {
    hide RawPnl, EntryCommission;
    var t := TradeOf(p, at, exit, commission, reason);
    assert (trades + [t])[..|trades|] == trades;
  }

  lemma CloseBalances(s: Sim, p: Position, at: Time, exit: real, params: Params, reason: ExitReason)
    requires Balanced(s, params) && s.position == Some(p)
    ensures Balanced(Close(s, p, at, exit, params.commission, reason), params)
  {
    NetOneMore(s.trades, p, at, exit, params.commission, reason);
    CloseFigures(p, exit, params.commission);
    hide Net, RawPnl, EntryCommission, CashAfterClose, TradeOf;
  }

  lemma AllIn(cash: real, entry: real, params: Params)
    requires UnitCost(entry, params) != 0.0
    ensures var quantity := cash / UnitCost(entry, params);
            quantity * entry + EntryCommission(quantity, entry, params.commission) == cash
  {
    var unit := UnitCost(entry, params);
    var quantity := cash / unit;
    assert quantity * unit == cash;
    assert quantity * unit == quantity * entry + quantity * entry * params.commission;
  }

  lemma EnterBalances(s: Sim, g: Signal, i: nat, next: Candle, params: Params)
    requires Balanced(s, params) && s.position.None?
    ensures var r := Enter(s, g, i, next, params); r.Some? ==> Balanced(r.value, params)
  {
    hide Net, EntryPrice, UnitCost;
    var entry := EntryPrice(g, next, params.slippage);
    if UnitCost(entry, params) != 0.0 {
      AllIn(s.cash, entry, params);
    }
  }

  lemma TakeBalances(s: Sim, g: Signal, i: nat, k: Candle, next: Candle, params: Params)
    requires Balanced(s, params)
    ensures var r := Take(s, g, i, k, next, params); r.Some? ==> Balanced(r.value, params)
  {
    hide Balanced, Enter, Close, MarketExit;
    if s.position.Some? && g.side != s.position.value.side {
      var p := s.position.value;
      var exit := MarketExit(p, k, params.slippage);
      CloseBalances(s, p, k.at, exit, params, OnSignal);
      var s1 := Close(s, p, k.at, exit, params.commission, OnSignal);
      ClosedIsFlat(s, p, k.at, exit, params.commission, OnSignal);
      EnterBalances(s1, g, i, next, params);
    } else if s.position.None? {
      EnterBalances(s, g, i, next, params);
    }
  }

  lemma ClosedIsFlat(s: Sim, p: Position, at: Time, exit: real, commission: real, reason: ExitReason)
    ensures Close(s, p, at, exit, commission, reason).position.None?
  {
  }

  lemma {:induction false} ConsumeBalances(s: Sim, ms: seq<Mapped>, i: nat, k: Candle, next: Candle, params: Params)
    requires Balanced(s, params)
    ensures var r := Consume(s, ms, i, k, next, params); r.Some? ==> Balanced(r.value, params)
    decreases |ms| - s.next
  {
    hide Take, Net, EntryCommission;
    if s.next < |ms| && ms[s.next].index == i {
      var s1 := s.(next := s.next + 1);
      TakeBalances(s1, ms[s.next].signal, i, k, next, params);
      var taken := Take(s1, ms[s.next].signal, i, k, next, params);
      if taken.Some? {
        ConsumeBalances(taken.value, ms, i, k, next, params);
      }
    }
  }

  lemma CheckBalances(s: Sim, k: Candle, params: Params)
    requires Balanced(s, params)
    ensures Balanced(CheckExit(s, k, params), params)
  {
    hide Balanced, Exit, Close;
    if s.position.Some? && Exit(s.position.value, k, params.slippage).Some? {
      var exit := Exit(s.position.value, k, params.slippage).value;
      CloseBalances(s, s.position.value, k.at, exit.0, params, exit.1);
    }
  }

  /** Cash is zero whenever a position is open, so overwriting it on a close loses nothing. */
  lemma {:induction false} EveryStateBalances(inp: Input, k: nat)
    requires k < |inp.candles| && SimAfter(inp, k).Some?
    ensures Balanced(SimAfter(inp, k).value, inp.params)
  {
    hide CheckExit, Consume, EquityOf, SignalMap;
    if k > 0 {
      EveryStateBalances(inp, k - 1);
      var s := SimAfter(inp, k - 1).value;
      CheckBalances(s, inp.candles[k - 1], inp.params);
      ConsumeBalances(CheckExit(s, inp.candles[k - 1], inp.params), SignalMap(inp), k - 1,
                      inp.candles[k - 1], inp.candles[k], inp.params);
      hide Net, EntryCommission;
    }
  }

  /** A finished run has one curve point per candle, ends flat, and its last point is the capital plus every unrounded
      profit less every entry commission. */
  lemma FinalEquity(inp: Input)
    requires Backtested(inp).Finished?
    ensures var s := Backtested(inp).sim;
            && s.position.None?
            && |s.curve| == |inp.candles|
            && s.curve[|s.curve| - 1] == s.cash
            && s.cash == (if inp.params.initial < 1000.0 then 1000.0 else inp.params.initial) + Net(s.trades, inp.params.commission)
            && Backtested(inp).maxDrawdown == MaxDrawdown(s.curve)
  {
    var n := |inp.candles|;
    var s := SimAfter(inp, n - 1).value;
    EveryStateBalances(inp, n - 1);
    LastPointIsEquity(inp, n - 1);
    hide SimAfter, MarketExit, Net, MaxDrawdown;
    if s.position.Some? {
      CloseBalances(s, s.position.value, inp.candles[n - 1].at,
                    MarketExit(s.position.value, inp.candles[n - 1], inp.params.slippage), inp.params, OnSignal);
    }
  }

  lemma LastPointIsEquity(inp: Input, k: nat)
    requires 0 < k < |inp.candles| && SimAfter(inp, k).Some?
    ensures var s := SimAfter(inp, k).value; s.curve[k] == EquityOf(s.cash, s.position, inp.candles[k - 1])
  {
    hide CheckExit, Consume, EquityOf, SignalMap;
  }

  // ---- Division by zero ----

  /** An entry divides by zero exactly when its price is zero, or when it is a short whose slippage takes all of it. */
  lemma EntryCrashes(s: Sim, g: Signal, i: nat, next: Candle, params: Params)
    requires params.commission >= 0.0 && params.slippage >= 0.0
    ensures Enter(s, g, i, next, params).None?
            <==> ((g.entryPrice.None? || g.entryPrice.value == 0.0) && next.open == 0.0)
                 || (g.side.Short? && params.slippage == 1.0)
  {
    var price := if g.entryPrice.Some? && g.entryPrice.value != 0.0 then g.entryPrice.value else next.open;
    var factor := if g.side.Long? then 1.0 + params.slippage else 1.0 - params.slippage;
    assert EntryPrice(g, next, params.slippage) == price * factor;
    ZeroProduct(price, factor);
    ZeroProduct(price * factor, 1.0 + params.commission);
  }

  lemma ZeroProduct(x: real, y: real)
    ensures x * y == 0.0 <==> x == 0.0 || y == 0.0
  {
    if y != 0.0 {
      assert x * y / y == x;
    }
  }

  lemma {:induction false} ConsumeFinishes(s: Sim, ms: seq<Mapped>, i: nat, k: Candle, next: Candle, params: Params)
    requires params.commission >= 0.0 && 0.0 <= params.slippage < 1.0 && next.open != 0.0
    ensures Consume(s, ms, i, k, next, params).Some?
    decreases |ms| - s.next
  {
    hide Enter, Close, MarketExit;
    if s.next < |ms| && ms[s.next].index == i {
      var s1, g := s.(next := s.next + 1), ms[s.next].signal;
      EntryCrashes(s1, g, i, next, params);
      if s1.position.Some? {
        var p := s1.position.value;
        EntryCrashes(Close(s1, p, k.at, MarketExit(p, k, params.slippage), params.commission, OnSignal), g, i, next, params);
      }
      ConsumeFinishes(Take(s1, g, i, k, next, params).value, ms, i, k, next, params);
    }
  }

  /** With slippage below one, only a zero open price can make a run divide by zero, for longs and shorts. */
  lemma {:induction false} NonzeroOpensFinish(inp: Input, k: nat)
    requires inp.params.commission >= 0.0 && 0.0 <= inp.params.slippage < 1.0 && k < |inp.candles|
    requires forall c | c in inp.candles :: c.open != 0.0
    ensures SimAfter(inp, k).Some?
    ensures |inp.candles| >= 2 && k == |inp.candles| - 1 ==> Backtested(inp).Finished?
  {
    hide CheckExit, Consume, EquityOf, SignalMap, Settle;
    if k > 0 {
      NonzeroOpensFinish(inp, k - 1);
      var s := SimAfter(inp, k - 1).value;
      ConsumeFinishes(CheckExit(s, inp.candles[k - 1], inp.params), SignalMap(inp), k - 1,
                      inp.candles[k - 1], inp.candles[k], inp.params);
    }
  }
}
