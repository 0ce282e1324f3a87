/** The backtest engine: one pass over candles with a cursor into the signals, one position at a time. */
module Backtest {
  import opened Rounding
  import opened Drawdown
  import PaperModel

  type Side = PaperModel.Side
  type Time = real

  const MIN_CAPITAL := 1000.0

  datatype Candle = Candle(at: Time, open: real, high: real, low: real, close: real)

  datatype Signal = Signal(side: Side, at: Option<Time>, entryPrice: Option<real>, stopLoss: Option<real>,
                           takeProfit: Option<real>, strategy: string)

  datatype Params = Params(initial: real, commission: real, slippage: real)

  datatype Input = Input(candles: seq<Candle>, params: Params, signals: seq<Signal>)

  datatype Position = Position(side: Side, entryPrice: real, quantity: real, entryIndex: nat, entryAt: Time,
                               stopLoss: Option<real>, takeProfit: Option<real>, strategy: string)

  datatype ExitReason = OnSignal | OnTakeProfit | OnStopLoss

  datatype Trade = Trade(side: Side, entryPrice: real, exitPrice: real, quantity: real, entryAt: Time, exitAt: Time,
                         pnl: real, pnlPct: real, reason: ExitReason, strategy: string)

  /** The simulation state; `next` is the cursor into the mapped signals. */
  datatype Sim = Sim(cash: real, position: Option<Position>, trades: seq<Trade>, curve: seq<real>, next: nat)

  datatype Outcome = TooFewCandles(curve: seq<real>) | DivisionByZero | Finished(sim: Sim, maxDrawdown: real)

  // ---- Signals to candles ----

  /** A signal without a timestamp sorts before every other. */
  predicate NotLater(a: Signal, b: Signal) {
    a.at.None? || (b.at.Some? && a.at.value <= b.at.value)
  }

  function InsertByTime(x: Signal, sorted: seq<Signal>): seq<Signal> {
    if sorted == [] || NotLater(sorted[|sorted| - 1], x) then sorted + [x]
    else InsertByTime(x, sorted[..|sorted| - 1]) + [sorted[|sorted| - 1]]
  }

  function SortByTime(signals: seq<Signal>): seq<Signal> {
    if signals == [] then [] else InsertByTime(signals[|signals| - 1], SortByTime(signals[..|signals| - 1]))
  }

  /** The first candle at or after `t`, or the last candle. */
  function IndexAt(candles: seq<Candle>, t: Time): (i: nat)
    requires candles != []
    ensures i < |candles|
    ensures forall j | 0 <= j < i :: candles[j].at < t
    ensures candles[i].at >= t || i == |candles| - 1
  {
    if |candles| == 1 || candles[0].at >= t then 0 else IndexAt(candles[1..], t) + 1
  }

  datatype Mapped = Mapped(index: nat, signal: Signal)

  function MapSignals(signals: seq<Signal>, candles: seq<Candle>): seq<Mapped>
    requires candles != []
  {
    if signals == [] then [] else
    var front, last := MapSignals(signals[..|signals| - 1], candles), signals[|signals| - 1];
    if last.at.None? then front else front + [Mapped(IndexAt(candles, last.at.value), last)]
  }

  predicate MappedNotLater(a: Mapped, b: Mapped) {
    a.index < b.index || (a.index == b.index && NotLater(a.signal, b.signal))
  }

  function InsertMapped(x: Mapped, sorted: seq<Mapped>): seq<Mapped> {
    if sorted == [] || MappedNotLater(sorted[|sorted| - 1], x) then sorted + [x]
    else InsertMapped(x, sorted[..|sorted| - 1]) + [sorted[|sorted| - 1]]
  }

  function SortMapped(ms: seq<Mapped>): seq<Mapped> {
    if ms == [] then [] else InsertMapped(ms[|ms| - 1], SortMapped(ms[..|ms| - 1]))
  }

  function SignalMap(inp: Input): seq<Mapped>
    requires inp.candles != []
  {
    SortMapped(MapSignals(SortByTime(inp.signals), inp.candles))
  }

  // ---- Positions ----

  /** Target first, then stop. */
  function Exit(p: Position, k: Candle, slippage: real): Option<(real, ExitReason)> {
    if p.side.Long? then
      if p.takeProfit.Some? && k.high >= p.takeProfit.value then Some((p.takeProfit.value * (1.0 - slippage), OnTakeProfit))
      else if p.stopLoss.Some? && k.low <= p.stopLoss.value then Some((p.stopLoss.value * (1.0 - slippage), OnStopLoss))
      else None
    else
      if p.takeProfit.Some? && k.low <= p.takeProfit.value then Some((p.takeProfit.value * (1.0 + slippage), OnTakeProfit))
      else if p.stopLoss.Some? && k.high >= p.stopLoss.value then Some((p.stopLoss.value * (1.0 + slippage), OnStopLoss))
      else None
  }

  function MarketExit(p: Position, k: Candle, slippage: real): real {
    if p.side.Long? then k.close * (1.0 - slippage) else k.close * (1.0 + slippage)
  }

  /** Profit of a closed trade before rounding; only the exit commission is charged to it. */
  function RawPnl(side: Side, quantity: real, entry: real, exit: real, commission: real): real {
    (if side.Long? then quantity * (exit - entry) else quantity * (entry - exit)) - quantity * exit * commission
  }

  function Notional(p: Position): real {
    p.quantity * p.entryPrice
  }

  function TradeOf(p: Position, at: Time, exit: real, commission: real, reason: ExitReason): Trade {
    var pnl := RawPnl(p.side, p.quantity, p.entryPrice, exit, commission);
    Trade(p.side, p.entryPrice, exit, p.quantity, p.entryAt, at, Round2(pnl),
          Round4(PaperModel.PercentOf(pnl, Notional(p))), reason, p.strategy)
  }

  function CashAfterClose(p: Position, exit: real, commission: real): real {
    var value := p.quantity * exit;
    if p.side.Long? then value - value * commission
    else p.quantity * p.entryPrice + p.quantity * (p.entryPrice - exit) - value * commission
  }

  function EquityOf(cash: real, position: Option<Position>, k: Candle): real {
    match position
    case None => cash
    case Some(p) =>
      if p.side.Long? then cash + p.quantity * k.close
      else cash + p.quantity * p.entryPrice + p.quantity * (p.entryPrice - k.close)
  }

  /** Closing overwrites cash. */
  function Close(s: Sim, p: Position, at: Time, exit: real, commission: real, reason: ExitReason): Sim {
    s.(cash := CashAfterClose(p, exit, commission), position := None,
       trades := s.trades + [TradeOf(p, at, exit, commission, reason)])
  }

  function EntryPrice(g: Signal, next: Candle, slippage: real): real {
    var price := if g.entryPrice.Some? && g.entryPrice.value != 0.0 then g.entryPrice.value else next.open;
    if g.side.Long? then price * (1.0 + slippage) else price * (1.0 - slippage)
  }

  /** Cash one unit costs, commission included. */
  function UnitCost(entry: real, params: Params): real {
    entry * (1.0 + params.commission)
  }

  /** All cash goes in; None is the ZeroDivisionError of a zero entry price. */
  function Enter(s: Sim, g: Signal, i: nat, next: Candle, params: Params): Option<Sim> {
    var entry := EntryPrice(g, next, params.slippage);
    if UnitCost(entry, params) == 0.0 then None else
    var quantity := s.cash / UnitCost(entry, params);
    var cost := quantity * entry;
    Some(s.(cash := s.cash - (cost + cost * params.commission),
            position := Some(Position(g.side, entry, quantity, i + 1, next.at, g.stopLoss, g.takeProfit, g.strategy))))
  }

  // ---- One candle ----

  function CheckExit(s: Sim, k: Candle, params: Params): Sim {
    if s.position.None? then s else
    var exit := Exit(s.position.value, k, params.slippage);
    if exit.None? then s else Close(s, s.position.value, k.at, exit.value.0, params.commission, exit.value.1)
  }

  /** One signal: ignored in an open position of its own side; otherwise closes what is open and enters. */
  function Take(s: Sim, g: Signal, i: nat, k: Candle, next: Candle, params: Params): (r: Option<Sim>)
    ensures r.Some? ==> r.value.next == s.next && r.value.curve == s.curve
  {
    if s.position.Some? && g.side == s.position.value.side then Some(s) else
    var s1 := if s.position.None? then s
              else Close(s, s.position.value, k.at, MarketExit(s.position.value, k, params.slippage),
                         params.commission, OnSignal);
    Enter(s1, g, i, next, params)
  }

  function Consume(s: Sim, ms: seq<Mapped>, i: nat, k: Candle, next: Candle, params: Params): (r: Option<Sim>)
    ensures r.Some? ==> r.value.curve == s.curve
    decreases |ms| - s.next
  {
    if s.next >= |ms| || ms[s.next].index != i then Some(s) else
    match Take(s.(next := s.next + 1), ms[s.next].signal, i, k, next, params)
    case None => None
    case Some(s') => Consume(s', ms, i, k, next, params)
  }

  function Iterate(s: Sim, ms: seq<Mapped>, i: nat, k: Candle, next: Candle, params: Params): Option<Sim> {
    match Consume(CheckExit(s, k, params), ms, i, k, next, params)
    case None => None
    case Some(s') => Some(s'.(curve := s'.curve + [EquityOf(s'.cash, s'.position, k)]))
  }

  function Capital(params: Params): real {
    Max(params.initial, MIN_CAPITAL)
  }

  function Initial(params: Params): Sim {
    Sim(Capital(params), None, [], [Capital(params)], 0)
  }

  /** The state after iterations 0 .. k - 1. */
  function SimAfter(inp: Input, k: nat): (r: Option<Sim>)
    requires k < |inp.candles|
    ensures r.Some? ==> |r.value.curve| == k + 1
  {
    if k == 0 then Some(Initial(inp.params)) else
    match SimAfter(inp, k - 1)
    case None => None
    case Some(s) => Iterate(s, SignalMap(inp), k - 1, inp.candles[k - 1], inp.candles[k], inp.params)
  }

  /** The forced close at the last candle replaces the last point of the curve. */
  function Settle(s: Sim, last: Candle, params: Params): Sim
    requires s.curve != []
  {
    if s.position.None? then s else
    var s1 := Close(s, s.position.value, last.at, MarketExit(s.position.value, last, params.slippage),
                    params.commission, OnSignal);
    s1.(curve := s1.curve[..|s1.curve| - 1] + [s1.cash])
  }

  function Backtested(inp: Input): Outcome {
    var n := |inp.candles|;
    if n < 2 then TooFewCandles([Capital(inp.params)]) else
    match SimAfter(inp, n - 1)
    case None => DivisionByZero
    case Some(s) =>
      var settled := Settle(s, inp.candles[n - 1], inp.params);
      Finished(settled, MaxDrawdown(settled.curve))
  }

  // ---- The engine ----

  method ComputeMaxDrawdown(curve: seq<real>) returns (maxDd: real)
    ensures maxDd == MaxDrawdown(curve)
  {
    if |curve| < 2 {
      return 0.0;
    }
    var peak := curve[0];
    maxDd := 0.0;
    for i := 0 to |curve|
      invariant i == 0 ==> peak == curve[0] && maxDd == 0.0
      invariant i > 0 ==> peak == Peak(curve[..i]) && maxDd == MaxDrawdown(curve[..i])
    {
      assert curve[..i + 1][..i] == curve[..i];
      if i == 0 {
        FallFromSelf(curve[0]);
      }
      if curve[i] > peak {
        peak := curve[i];
      }
      var dd := if peak > 0.0 then (peak - curve[i]) / peak * 100.0 else 0.0;
      if dd > maxDd {
        maxDd := dd;
      }
    }
    assert curve[..|curve|] == curve;
  }

  /** `_map_signals_to_indices`, before its final sort. */
  method MapToIndices(signals: seq<Signal>, candles: seq<Candle>) returns (mapped: seq<Mapped>)
    requires candles != []
    ensures mapped == MapSignals(signals, candles)
  {
    mapped := [];
    for i := 0 to |signals|
      invariant mapped == MapSignals(signals[..i], candles)
    {
      assert signals[..i + 1][..i] == signals[..i];
      if signals[i].at.None? {
        continue;
      }
      var idx := 0;
      while idx < |candles| && candles[idx].at < signals[i].at.value
        invariant idx <= |candles|
        invariant forall j | 0 <= j < idx :: candles[j].at < signals[i].at.value
      {
        idx := idx + 1;
      }
      if idx == |candles| {
        idx := idx - 1;
      }
      mapped := mapped + [Mapped(idx, signals[i])];
    }
    assert signals[..|signals|] == signals;
  }

  /** One pass of the main loop. */
  method RunCandle(before: Sim, ms: seq<Mapped>, i: nat, k: Candle, next: Candle, params: Params)
      returns (after: Option<Sim>)
    ensures after == Iterate(before, ms, i, k, next, params)
  {
    hide Exit, Take, CashAfterClose, TradeOf, EquityOf;
    var s := before;
    if s.position.Some? {
      var exit := Exit(s.position.value, k, params.slippage);
      if exit.Some? {
        s := Close(s, s.position.value, k.at, exit.value.0, params.commission, exit.value.1);
      }
    }
    ghost var checked := s;
    while s.next < |ms| && ms[s.next].index == i
      invariant Consume(s, ms, i, k, next, params) == Consume(checked, ms, i, k, next, params)
      decreases |ms| - s.next
    {
      var g := ms[s.next].signal;
      s := s.(next := s.next + 1);
      if s.position.Some? && g.side == s.position.value.side {
        AlreadyHeld(s, g, i, k, next, params);
        continue;
      }
      var taken := TakeSignal(s, g, i, k, next, params);
      if taken.None? {
        return None;
      }
      s := taken.value;
    }
    after := Some(s.(curve := s.curve + [EquityOf(s.cash, s.position, k)]));
  }

  lemma AlreadyHeld(s: Sim, g: Signal, i: nat, k: Candle, next: Candle, params: Params)
    requires s.position.Some? && g.side == s.position.value.side
    ensures Take(s, g, i, k, next, params) == Some(s)
  {
  }

  /** Closes an opposite position at this candle's close, then puts all cash into the signal's side. */
  method TakeSignal(s: Sim, g: Signal, i: nat, k: Candle, next: Candle, params: Params) returns (taken: Option<Sim>)
    requires s.position.Some? ==> g.side != s.position.value.side
    ensures taken == Take(s, g, i, k, next, params)
  {
    hide CashAfterClose, TradeOf, EntryPrice, MarketExit, UnitCost;
    var open := s;
    if s.position.Some? {
      var p := s.position.value;
      open := Close(s, p, k.at, MarketExit(p, k, params.slippage), params.commission, OnSignal);
    }
    var entry := EntryPrice(g, next, params.slippage);
    var unit := UnitCost(entry, params);
    if unit == 0.0 {
      return None;
    }
    var quantity := open.cash / unit;
    var cost := quantity * entry;
    var commissionCost := cost * params.commission;
    var position := Position(g.side, entry, quantity, i + 1, next.at, g.stopLoss, g.takeProfit, g.strategy);
    taken := Some(open.(cash := open.cash - (cost + commissionCost), position := Some(position)));
    assert Enter(open, g, i, next, params).value.cash == open.cash - (cost + commissionCost);
  }

  method Run(inp: Input) returns (outcome: Outcome)
    ensures outcome == Backtested(inp)
  {
    hide Iterate, SortMapped, MapSignals, SortByTime, Settle;
    var n := |inp.candles|;
    if n < 2 {
      return TooFewCandles([Capital(inp.params)]);
    }
    var mapped := MapToIndices(SortByTime(inp.signals), inp.candles);
    var ms := SortMapped(mapped);
    var s := Initial(inp.params);
    for i := 0 to n - 1
      invariant SimAfter(inp, i) == Some(s)
    {
      var after := RunCandle(s, ms, i, inp.candles[i], inp.candles[i + 1], inp.params);
      if after.None? {
        CrashStays(inp, i + 1, n - 1);
        return DivisionByZero;
      }
      s := after.value;
    }
    s := Settle(s, inp.candles[n - 1], inp.params);
    var maxDd := ComputeMaxDrawdown(s.curve);
    outcome := Finished(s, maxDd);
  }

  /** A division by zero ends the run. */
  lemma CrashStays(inp: Input, i: nat, k: nat)
    requires i <= k < |inp.candles| && SimAfter(inp, i).None?
    ensures SimAfter(inp, k).None?
    decreases k - i
  {
    hide Iterate, SignalMap;
    if i < k {
      assert SimAfter(inp, i + 1).None?;
      CrashStays(inp, i + 1, k);
    }
  }
}
