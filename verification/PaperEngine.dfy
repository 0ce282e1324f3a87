/** The in-memory paper engine: methods that update its fields step by step, each tied to the portfolio functions. */
module PaperEngine {
  import opened Rounding
  import opened PaperModel
  import opened PaperTotals
  import opened Drawdown

  type Settings = c: Config | ValidConfig(c)
    witness Config(0.0, 0.0, 0.0, 0.0, map[], map[], map[])

  datatype Summary = Summary(
    initial: real, cash: real, totalPnl: real, totalReturnPct: real, winRate: real,
    trades: nat, wins: nat, losses: nat, openPositions: nat,
    maxDrawdownPct: real, equity: real, marginUsed: real, carry: real)

  function Wins(ts: seq<ClosedTrade>): nat {
    if ts == [] then 0 else Wins(ts[..|ts| - 1]) + if ts[|ts| - 1].pnl > 0.0 then 1 else 0
  }

  function Losses(ts: seq<ClosedTrade>): nat {
    if ts == [] then 0 else Losses(ts[..|ts| - 1]) + if ts[|ts| - 1].pnl < 0.0 then 1 else 0
  }

  function CarryPaid(ts: seq<ClosedTrade>): real {
    if ts == [] then 0.0 else CarryPaid(ts[..|ts| - 1]) + ts[|ts| - 1].carry
  }

  function SummaryOf(s: Portfolio): Summary
    requires s.initial != 0.0
  {
    var n := |s.closed|;
    Summary(
      s.initial, Round2(s.cash), Round2(Equity(s) - s.initial), Round4((Equity(s) / s.initial - 1.0) * 100.0),
      Round2(if n > 0 then Wins(s.closed) as real / n as real * 100.0 else 0.0),
      n, Wins(s.closed), Losses(s.closed), |s.positions|,
      Round4(MaxDrawdown(s.curve)), Round2(Equity(s)), Round2(Total(Margin, s.positions)),
      Round2(Total(Carry, s.positions) + CarryPaid(s.closed)))
  }

  /** The reported figures fit together: equity is the initial capital and the total profit, to the cent; the return and the
      win rate are percentages of the initial capital and of the trades. */
  lemma SummaryAddsUp(s: Portfolio)
    requires s.initial > 0.0
    ensures var r := SummaryOf(s);
            && Abs(r.equity - Equity(s)) <= 0.005 && Abs(r.equity - s.initial - r.totalPnl) <= 0.01
            && Abs(r.totalReturnPct * s.initial - 100.0 * (Equity(s) - s.initial)) <= 0.00005 * s.initial
            && r.wins + r.losses <= r.trades == |s.closed| && r.openPositions == |s.positions|
            && r.wins == |Winning(s.closed)| && r.losses == |Losing(s.closed)|
            && (if s.closed == [] then r.winRate == 0.0
                else Abs(r.winRate * |s.closed| as real - 100.0 * Wins(s.closed) as real) <= 0.005 * |s.closed| as real)
            && r.wins == Wins(s.closed)
            && Abs(r.maxDrawdownPct - MaxDrawdown(s.curve)) <= 0.00005
            && Abs(r.marginUsed - Total(Margin, s.positions)) <= 0.005
            && Abs(r.carry - Total(Carry, s.positions) - CarryPaid(s.closed)) <= 0.005
  {
    hide Round2, Round4, Equity, MaxDrawdown, Total, Wins, Losses, CarryPaid;
    ReturnIsShare(s);
    WinRateIsShare(s);
    hide SummaryOf;
    WinsAreCounted(s.closed);
    FiguresAreRounded(s);
  }

  lemma FiguresAreRounded(s: Portfolio)
    requires s.initial > 0.0
    ensures var r := SummaryOf(s);
            && Abs(r.equity - Equity(s)) <= 0.005 && Abs(r.equity - s.initial - r.totalPnl) <= 0.01
            && r.wins + r.losses <= r.trades == |s.closed| && r.openPositions == |s.positions|
            && r.wins == Wins(s.closed) && r.losses == Losses(s.closed)
            && Abs(r.maxDrawdownPct - MaxDrawdown(s.curve)) <= 0.00005
            && Abs(r.marginUsed - Total(Margin, s.positions)) <= 0.005
            && Abs(r.carry - Total(Carry, s.positions) - CarryPaid(s.closed)) <= 0.005
  {
    hide Round2, Round4, Equity, MaxDrawdown, Total, Wins, Losses, CarryPaid;
    WinsAndLosses(s.closed);
  }

  lemma ReturnIsShare(s: Portfolio)
    requires s.initial > 0.0
    ensures Abs(SummaryOf(s).totalReturnPct * s.initial - 100.0 * (Equity(s) - s.initial)) <= 0.00005 * s.initial
  {
    hide Round2, Round4, Equity, MaxDrawdown, Total, Wins, Losses, CarryPaid;
    var ratio := Equity(s) / s.initial;
    assert ratio * s.initial == Equity(s);
    Scaled(SummaryOf(s).totalReturnPct, (ratio - 1.0) * 100.0, 0.00005, s.initial, 100.0 * (Equity(s) - s.initial));
    hide SummaryOf;
  }

  lemma WinRateIsShare(s: Portfolio)
    requires s.initial > 0.0
    ensures var r, n := SummaryOf(s), |s.closed| as real;
            if s.closed == [] then r.winRate == 0.0 else Abs(r.winRate * n - 100.0 * Wins(s.closed) as real) <= 0.005 * n
  {
    hide Round2, Round4, Equity, MaxDrawdown, Total, Wins, Losses, CarryPaid;
    RoundsToZero();
    if s.closed != [] {
      var n, wins := |s.closed| as real, Wins(s.closed) as real;
      var share := wins / n;
      assert share * n == wins;
      Scaled(SummaryOf(s).winRate, share * 100.0, 0.005, n, 100.0 * wins);
    }
    hide SummaryOf;
  }

  ghost function Winning(ts: seq<ClosedTrade>): set<int> {
    set i | 0 <= i < |ts| && ts[i].pnl > 0.0
  }

  ghost function Losing(ts: seq<ClosedTrade>): set<int> {
    set i | 0 <= i < |ts| && ts[i].pnl < 0.0
  }

  lemma {:induction false} WinsAreCounted(ts: seq<ClosedTrade>)
    ensures Wins(ts) == |Winning(ts)| && Losses(ts) == |Losing(ts)|
  {
    if ts != [] {
      var front, n := ts[..|ts| - 1], |ts| - 1;
      WinsAreCounted(front);
      assert Winning(ts) == Winning(front) + if ts[n].pnl > 0.0 then {n} else {};
      assert Losing(ts) == Losing(front) + if ts[n].pnl < 0.0 then {n} else {};
    }
  }

  lemma RoundsToZero()
    ensures Round2(0.0) == 0.0
  {
  }

  lemma {:induction false} WinsAndLosses(ts: seq<ClosedTrade>)
    ensures Wins(ts) + Losses(ts) <= |ts|
  {
    if ts != [] {
      WinsAndLosses(ts[..|ts| - 1]);
    }
  }

  lemma Scaled(x: real, y: real, bound: real, scale: real, target: real)
    requires -bound <= x - y <= bound && scale > 0.0 && y * scale == target
    ensures Abs(x * scale - target) <= bound * scale
  {
    ProductNonnegative(bound - (x - y), scale);
    ProductNonnegative(bound + (x - y), scale);
    assert x * scale - y * scale == (x - y) * scale;
  }

  class PaperTradingEngine {
    const config: Settings
    var initialCapital: real
    var cash: real
    var positions: seq<Position>
    var closedTrades: seq<ClosedTrade>
    var equityCurve: seq<real>
    var lastPrices: Marks

    /** The portfolio these fields hold. */
    function Contents(): Portfolio
      reads this
    {
      Portfolio(initialCapital, cash, positions, closedTrades, equityCurve, lastPrices)
    }

    constructor (capital: real, config: Settings)
      ensures this.config == config && Contents() == Fresh(capital)
      ensures initialCapital == if capital < 1000.0 then 1000.0 else capital
    {
      this.config := config;
      initialCapital := if capital < MINIMUM_CAPITAL then MINIMUM_CAPITAL else capital;
      cash := if capital < MINIMUM_CAPITAL then MINIMUM_CAPITAL else capital;
      positions, closedTrades := [], [];
      equityCurve := [if capital < MINIMUM_CAPITAL then MINIMUM_CAPITAL else capital];
      lastPrices := map[];
    }

    method ComputeEquity() returns (equity: real)
      ensures equity == Equity(Contents())
    {
      hide Measured;
      var owed := 0.0;
      for i := 0 to |positions|
        invariant owed == Total(Carry, positions[..i])
      {
        assert positions[..i + 1][..i] == positions[..i];
        MeasuredFields(positions[i], lastPrices);
        owed := owed + positions[i].carry;
      }
      equity := cash - owed;
      for i := 0 to |positions|
        invariant equity == cash - owed + Total(MarketValue(lastPrices), positions[..i])
      {
        assert positions[..i + 1][..i] == positions[..i];
        var p := positions[i];
        MeasuredFields(p, lastPrices);
        var mark := if p.symbol in lastPrices then lastPrices[p.symbol] else p.entryPrice;
        if p.side.Long? {
          equity := equity + p.quantity * mark;
        } else {
          equity := equity - p.quantity * mark;
        }
      }
      assert positions[..|positions|] == positions;
    }

    method MarginUsed() returns (margin: real)
      ensures margin == Total(Margin, positions)
    {
      margin := 0.0;
      for i := 0 to |positions|
        invariant margin == Total(Margin, positions[..i])
      {
        assert positions[..i + 1][..i] == positions[..i];
        margin := margin + positions[i].margin;
      }
      assert positions[..|positions|] == positions;
    }

    /** The scan of `Drawdown`, over this engine's own curve. */
    method ComputeMaxDrawdown() returns (maxDd: real)
      ensures maxDd == MaxDrawdown(equityCurve)
    {
      if |equityCurve| < 2 {
        return 0.0;
      }
      var peak := equityCurve[0];
      maxDd := 0.0;
      for i := 0 to |equityCurve|
        invariant i == 0 ==> peak == equityCurve[0] && maxDd == 0.0
        invariant i > 0 ==> peak == Peak(equityCurve[..i]) && maxDd == MaxDrawdown(equityCurve[..i])
      {
        var value := equityCurve[i];
        assert equityCurve[..i + 1][..i] == equityCurve[..i];
        if value > peak {
          peak := value;
        }
        if i == 0 {
          FallFromSelf(value);
        }
        var dd := if peak > 0.0 then (peak - value) / peak * 100.0 else 0.0;
        if dd > maxDd {
          maxDd := dd;
        }
      }
      assert equityCurve[..|equityCurve|] == equityCurve;
    }

    method FindPosition(symbol: Symbol) returns (i: nat)
      ensures i == FindSymbol(positions, symbol)
    {
      i := 0;
      while i < |positions| && positions[i].symbol != symbol
        invariant i <= |positions|
        invariant forall j | 0 <= j < i :: positions[j].symbol != symbol
      {
        i := i + 1;
      }
    }

    /** Accrues position `i` in place and returns the charge. */
    method AccruePosition(i: nat, when: Time) returns (cost: real)
      requires i < |positions|
      modifies this`positions
      ensures positions == old(positions)[i := Accrue(config, old(positions)[i], when)]
      ensures cost == positions[i].carry - old(positions)[i].carry
    {
      var p := positions[i];
      if when <= p.accruedAt {
        return 0.0;
      }
      cost := CarryCost(config, p, when - p.accruedAt);
      positions := positions[i := p.(carry := p.carry + cost, accruedAt := when)];
    }

    /** Accrues every open position and returns the total charge. */
    method AccrueCarry(when: Time) returns (charged: real)
      modifies this`positions
      ensures Contents() == PaperModel.AccrueCarry(config, old(Contents()), when)
      ensures charged == Total(Carry, positions) - Total(Carry, old(positions))
    {
      charged := 0.0;
      ghost var before := positions;
      for i := 0 to |positions|
        invariant |positions| == |before|
        invariant forall j | 0 <= j < i :: positions[j] == Accrue(config, before[j], when)
        invariant forall j | i <= j < |before| :: positions[j] == before[j]
        invariant charged == Total(Carry, positions) - Total(Carry, before)
      {
        ghost var prior := positions;
        var cost := AccruePosition(i, when);
        TotalReplace(Carry, prior, i, positions[i]);
        charged := charged + cost;
      }
      assert positions == AccrueAll(config, before, when);
    }

    /** Pays the exit of `p` at `fill` into cash, carry and commission deducted. */
    method SettleExit(p: Position, fill: real) returns (pnl: real, exitCommission: real)
      modifies this`cash
      ensures cash == old(cash) + ExitCash(config, p, fill)
      ensures pnl == ExitPnl(config, p, fill) && exitCommission == ExitCommission(config, p, fill)
    {
      var exitValue := p.quantity * fill;
      exitCommission := exitValue * config.commission;
      var pricePnl: real;
      if p.side.Long? {
        pricePnl := p.quantity * (fill - p.entryPrice);
        cash := cash + (exitValue - exitCommission - p.carry);
      } else {
        pricePnl := p.quantity * (p.entryPrice - fill);
        cash := cash - (exitValue + exitCommission + p.carry);
      }
      pnl := pricePnl - p.entryCommission - exitCommission - p.carry;
    }

    method ClosePosition(id: Id, exitPrice: real, reason: ExitReason, when: Time) returns (closed: Option<ClosedTrade>)
      modifies this
      ensures initialCapital == old(initialCapital)
      ensures (Contents(), closed) == Close(config, old(Contents()), id, exitPrice, reason, when)
    {
      hide ExitFill, ExitPnl, ExitCommission, PercentOf, Round2, Round4, ExitCash, Equity, CarryCost, Notional;
      if exitPrice <= 0.0 {
        return None;
      }
      for i := 0 to |positions|
        invariant Contents() == old(Contents())
        invariant forall j | 0 <= j < i :: positions[j].id != id
      {
        if positions[i].id == id {
          assert FindId(old(positions), id) == i;
          var _ := AccruePosition(i, when);
          var p := positions[i];
          var fill := ExitFill(config, p, exitPrice);
          if fill <= 0.0 {
            return None;
          }
          positions := positions[..i] + positions[i + 1..];
          var pnl, exitCommission := SettleExit(p, fill);
          var trade := ClosedTrade(p.symbol, p.side, p.quantity, p.entryPrice, fill, p.entryAt, when,
                                   Round2(pnl), Round4(PercentOf(pnl, Notional(p))), reason, p.strategy,
                                   p.entryCommission, exitCommission, p.carry, Some(p.id));
          closedTrades := closedTrades + [trade];
          lastPrices := lastPrices - {p.symbol};
          var equity := ComputeEquity();
          equityCurve := equityCurve + [equity];
          assert positions == RemoveAt(old(positions), i);
          return Some(trade);
        }
      }
      closed := None;
    }

    /** Undoes a provisional reversal close after the new fill is rejected. */
    method RestoreReversalState(savedCash: real, savedPositions: seq<Position>, closedCount: nat, curveCount: nat,
                                savedPrices: Marks)
      requires closedCount <= |closedTrades| && curveCount <= |equityCurve|
      modifies this
      ensures initialCapital == old(initialCapital)
      ensures Contents() == Portfolio(initialCapital, savedCash, savedPositions, old(closedTrades)[..closedCount],
                                      old(equityCurve)[..curveCount], savedPrices)
    {
      cash := savedCash;
      positions := savedPositions;
      closedTrades := closedTrades[..closedCount];
      equityCurve := equityCurve[..curveCount];
      lastPrices := savedPrices;
    }

    /** A refusal leaves no trace, even after a provisional close of the opposite position. */
    method ExecuteSignal(r: Request, now: Time, newId: Id) returns (outcome: Outcome)
      modifies this
      ensures (Contents(), outcome) == Execute(config, old(Contents()), r, now, newId)
      ensures outcome.Refused? ==> Contents() == old(Contents())
    {
      hide Close, Open, EntryFill, AffordableQuantity, PositionOf;
      if r.side != "long" && r.side != "short" {
        return Refused(BadSide);
      }
      var side := if r.side == "long" then Long else Short;
      if r.quantity <= 0.0 {
        return Refused(BadQuantity);
      }
      if r.price <= 0.0 {
        return Refused(BadPrice);
      }
      var existing := FindPosition(r.symbol);
      var reversing := existing < |positions|;
      if reversing && positions[existing].side == side {
        return Refused(AlreadyOpen);
      }
      var fill := EntryFill(config, side, r);
      if fill <= 0.0 {
        return Refused(BadFill);
      }
      var savedCash, savedPositions, savedPrices := cash, positions, lastPrices;
      var closedCount, curveCount := |closedTrades|, |equityCurve|;
      var reversed: Option<ClosedTrade> := None;
      if reversing {
        reversed := ClosePosition(positions[existing].id, r.price, OnSignal, now);
        if reversed.None? {
          CloseOnlyAppends(config, old(Contents()), savedPositions[existing].id, r.price, OnSignal, now);
          RestoreReversalState(savedCash, savedPositions, closedCount, curveCount, savedPrices);
          assert Contents() == old(Contents());
          return Refused(CannotClose);
        }
      }
      CloseOnlyAppends(config, old(Contents()), (if reversing then savedPositions[existing].id else 0),
                       r.price, OnSignal, now);
      var affordable := Affordable(side, fill);
      var quantity := Min(r.quantity, affordable);
      if quantity <= 0.0 {
        if reversing {
          RestoreReversalState(savedCash, savedPositions, closedCount, curveCount, savedPrices);
          assert Contents() == old(Contents());
        }
        return Refused(NoBuyingPower);
      }
      var p := OpenPosition(side, r, fill, quantity, now, newId);
      outcome := Accepted(p, reversed);
    }

    /** Units the free cash and the free margin can pay for, commission included. */
    method Affordable(side: Side, fill: real) returns (quantity: real)
      requires fill > 0.0
      ensures quantity == AffordableQuantity(config, Contents(), side, fill)
    {
      hide Equity;
      var equity := ComputeEquity();
      var marginUsed := MarginUsed();
      var freeMargin := if equity - marginUsed < 0.0 then 0.0 else equity - marginUsed;
      var buyingPower := if side.Long? then Min(cash, freeMargin) else freeMargin;
      assert buyingPower == BuyingPower(Contents(), side);
      var unit := UnitCost(config, fill);
      quantity := (if buyingPower < 0.0 then 0.0 else buyingPower) / unit;
    }

    method OpenPosition(side: Side, r: Request, fill: real, quantity: real, now: Time, newId: Id) returns (p: Position)
      modifies this
      ensures p == PositionOf(config, side, r, fill, quantity, now, newId)
      ensures Contents() == Open(old(Contents()), p)
    {
      hide Equity, Measured;
      var notional := quantity * fill;
      var entryCommission := notional * config.commission;
      var margin: real;
      if side.Long? {
        cash := cash - (notional + entryCommission);
        margin := 0.0;
      } else {
        // Short proceeds stay in cash; the notional is reserved.
        cash := cash + (notional - entryCommission);
        margin := notional;
      }
      p := Position(newId, r.symbol, side, quantity, fill, now, r.stopLoss, r.takeProfit, r.strategy,
                    entryCommission, margin, 0.0, now);
      EntryCashOf(p);
      assert p.quantity * p.entryPrice == notional;
      positions := positions + [p];
      lastPrices := lastPrices[r.symbol := fill];
      var equity := ComputeEquity();
      equityCurve := equityCurve + [equity];
    }

    /** The level a candle reaches first, if any, with the gap fill of a stop. */
    method LevelHit(p: Position, k: Candle, gap: Option<real>) returns (exit: Option<(real, ExitReason)>)
      requires gap == GapOpen(k)
      ensures exit == Exit(p, k)
    {
      exit := None;
      if p.side.Long? {
        if p.stopLoss.Some? && k.low <= p.stopLoss.value {
          exit := Some((p.stopLoss.value, OnStopLoss));
          if gap.Some? && gap.value <= p.stopLoss.value {
            exit := Some((gap.value, OnStopLoss));
          }
        } else if p.takeProfit.Some? && k.high >= p.takeProfit.value {
          exit := Some((p.takeProfit.value, OnTakeProfit));
        }
      } else {
        if p.stopLoss.Some? && k.high >= p.stopLoss.value {
          exit := Some((p.stopLoss.value, OnStopLoss));
          if gap.Some? && gap.value >= p.stopLoss.value {
            exit := Some((gap.value, OnStopLoss));
          }
        } else if p.takeProfit.Some? && k.low <= p.takeProfit.value {
          exit := Some((p.takeProfit.value, OnTakeProfit));
        }
      }
    }

    method CheckSlTp(k: Candle, when: Time) returns (closed: seq<ClosedTrade>)
      modifies this
      ensures (Contents(), closed) == CheckStops(config, old(Contents()), k, when)
    {
      hide Exit, Close;
      closed := [];
      var gap := if k.openPrice.Some? && k.openPrice.value > 0.0 then k.openPrice else None;
      var todo := positions;
      for i := 0 to |todo|
        invariant (Contents(), closed) == CheckExits(config, old(Contents()), todo[..i], k, when)
      {
        assert todo[..i + 1][..i] == todo[..i];
        var p := todo[i];
        if p.symbol != k.symbol {
          continue;
        }
        var exit := LevelHit(p, k, gap);
        if exit.Some? {
          var trade := ClosePosition(p.id, exit.value.0, exit.value.1, when);
          if trade.Some? {
            closed := closed + [trade.value];
          }
        }
      }
      assert todo[..|todo|] == todo;
    }

    method MarkToMarket(symbol: Symbol, price: real, when: Time)
      modifies this
      ensures Contents() == PaperModel.MarkToMarket(config, old(Contents()), symbol, price, when)
    {
      if price <= 0.0 {
        return;
      }
      var _ := AccrueCarry(when);
      var i := FindPosition(symbol);
      if i == |positions| {
        return;
      }
      lastPrices := lastPrices[symbol := price];
      var equity := ComputeEquity();
      equityCurve := equityCurve + [equity];
    }

    method RestoreState(initial: Option<real>, newCash: real, newPositions: seq<Position>, newClosed: seq<ClosedTrade>,
                        curve: seq<real>, prices: Marks)
      modifies this
      ensures Contents() == Restore(if initial.Some? then Max(initial.value, MINIMUM_CAPITAL) else old(initialCapital),
                                    newCash, newPositions, newClosed, curve, prices)
    {
      if initial.Some? {
        initialCapital := if initial.value < MINIMUM_CAPITAL then MINIMUM_CAPITAL else initial.value;
      }
      cash := newCash;
      positions := newPositions;
      closedTrades := newClosed;
      lastPrices := prices;
      equityCurve := if curve == [] then [initialCapital] else curve;
      var equity := ComputeEquity();
      if !IsClose(equityCurve[|equityCurve| - 1], equity) {
        equityCurve := equityCurve + [equity];
      }
    }

    method RestoreSnapshot(snapshot: Portfolio)
      modifies this
      ensures Contents() == PaperModel.RestoreSnapshot(old(Contents()), snapshot) && initialCapital == old(initialCapital)
    {
      RestoreState(None, snapshot.cash, snapshot.positions, snapshot.closed, snapshot.curve, snapshot.marks);
    }

    method GetSummary() returns (summary: Summary)
      requires initialCapital >= MINIMUM_CAPITAL
      ensures summary == SummaryOf(Contents())
    {
      hide Round2, Round4, Equity, MaxDrawdown;
      var equity := ComputeEquity();
      var wins, losses, paid := 0, 0, 0.0;
      for i := 0 to |closedTrades|
        invariant wins == Wins(closedTrades[..i]) && losses == Losses(closedTrades[..i])
        invariant paid == CarryPaid(closedTrades[..i])
      {
        assert closedTrades[..i + 1][..i] == closedTrades[..i];
        if closedTrades[i].pnl > 0.0 {
          wins := wins + 1;
        }
        if closedTrades[i].pnl < 0.0 {
          losses := losses + 1;
        }
        paid := paid + closedTrades[i].carry;
      }
      assert closedTrades[..|closedTrades|] == closedTrades;
      var n := |closedTrades|;
      var winRate := if n > 0 then wins as real / n as real * 100.0 else 0.0;
      var maxDd := ComputeMaxDrawdown();
      var marginUsed := MarginUsed();
      var carry := 0.0;
      for i := 0 to |positions|
        invariant carry == Total(Carry, positions[..i])
      {
        assert positions[..i + 1][..i] == positions[..i];
        carry := carry + positions[i].carry;
      }
      assert positions[..|positions|] == positions;
      summary := Summary(
        initialCapital, Round2(cash), Round2(equity - initialCapital),
        Round4((equity / initialCapital - 1.0) * 100.0), Round2(winRate), n, wins, losses, |positions|,
        Round4(maxDd), Round2(equity), Round2(marginUsed), Round2(carry + paid));
    }
  }

  /** Cash one unit costs, commission included. */
  function UnitCost(c: Settings, fill: real): (unit: real)
    requires fill > 0.0
    ensures unit > 0.0
  {
    fill * (1.0 + c.commission)
  }

  lemma EntryCashOf(p: Position)
    ensures Measured(EntryCash, p)
            == (if p.side.Long? then -(p.quantity * p.entryPrice) else p.quantity * p.entryPrice) - p.entryCommission
  {
  }

  /** A close adds to the closed trades and to the curve, and touches nothing recorded before. */
  lemma CloseOnlyAppends(c: Config, s: Portfolio, id: Id, price: real, reason: ExitReason, when: Time)
    ensures var s' := Close(c, s, id, price, reason, when).0;
            && s.closed <= s'.closed && s.curve <= s'.curve && s'.initial == s.initial
  {
    hide TradeOf, ExitCash, Equity, ExitFill;
  }

  /** Taking a snapshot back is exact precisely when the curve already ends at the current equity. */
  lemma SnapshotRoundTrip(s: Portfolio)
    ensures PaperModel.RestoreSnapshot(s, s) == s
            <==> s.curve != [] && IsClose(s.curve[|s.curve| - 1], Equity(s))
  {
    hide IsClose, Equity;
    var r := PaperModel.RestoreSnapshot(s, s);
    if s.curve != [] && !IsClose(s.curve[|s.curve| - 1], Equity(s)) {
      assert |r.curve| == |s.curve| + 1;
    }
  }
}
