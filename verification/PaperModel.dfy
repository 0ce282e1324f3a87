/** Values of the paper portfolio and, as functions on them, what each engine operation does. */
module PaperModel {
  import opened Rounding

  datatype Side = Long | Short
  type Symbol = string
  /** A uuid. */
  type Id = nat
  /** Seconds since some origin; every timestamp is normalised to UTC. */
  type Time = real
  type Marks = map<Symbol, real>

  const SECONDS_PER_YEAR := 365.0 * 24.0 * 60.0 * 60.0
  const MINIMUM_CAPITAL := 1000.0

  datatype Position = Position(
    id: Id, symbol: Symbol, side: Side, quantity: real, entryPrice: real, entryAt: Time,
    stopLoss: Option<real>, takeProfit: Option<real>, strategy: string,
    entryCommission: real, margin: real, carry: real, accruedAt: Time)

  datatype ExitReason = OnSignal | OnStopLoss | OnTakeProfit

  /** `positionId` is lost when a trade goes through the database. */
  datatype ClosedTrade = ClosedTrade(
    symbol: Symbol, side: Side, quantity: real, entryPrice: real, exitPrice: real, entryAt: Time, exitAt: Time,
    pnl: real, pnlPct: real, reason: ExitReason, strategy: string,
    entryCommission: real, exitCommission: real, carry: real, positionId: Option<Id>)

  datatype Portfolio = Portfolio(
    initial: real, cash: real, positions: seq<Position>, closed: seq<ClosedTrade>, curve: seq<real>, marks: Marks)

  // ---- Configuration ----

  /** Symbol overrides are keyed by upper-case symbol. */
  datatype Config = Config(
    commission: real, slippage: real, borrow: real, funding: real,
    slippageBySymbol: map<Symbol, real>, borrowBySymbol: map<Symbol, real>, fundingBySymbol: map<Symbol, real>)

  predicate Fraction(x: real) { 0.0 <= x < 1.0 }
  predicate AnnualRate(x: real) { 0.0 <= x < 10.0 }

  /** The constructor refuses every other configuration. */
  predicate ValidConfig(c: Config) {
    && Fraction(c.commission) && Fraction(c.slippage) && AnnualRate(c.borrow) && AnnualRate(c.funding)
    && (forall k | k in c.slippageBySymbol :: Fraction(c.slippageBySymbol[k]))
    && (forall k | k in c.borrowBySymbol :: AnnualRate(c.borrowBySymbol[k]))
    && (forall k | k in c.fundingBySymbol :: AnnualRate(c.fundingBySymbol[k]))
  }

  function Upper(s: Symbol): Symbol {
    seq(|s|, i requires 0 <= i < |s| => if 'a' <= s[i] <= 'z' then s[i] - 'a' + 'A' else s[i])
  }

  function Lookup(m: map<Symbol, real>, key: Symbol, otherwise: real): real {
    if key in m then m[key] else otherwise
  }

  function SlippageFor(c: Config, symbol: Symbol): real {
    Lookup(c.slippageBySymbol, Upper(symbol), c.slippage)
  }

  function CarryRateFor(c: Config, symbol: Symbol, side: Side): real {
    if side.Short? then Lookup(c.borrowBySymbol, Upper(symbol), c.borrow)
    else Lookup(c.fundingBySymbol, Upper(symbol), c.funding)
  }

  // ---- Sums over open positions ----

  /** One summand of a portfolio total. */
  datatype Measure = Carry | Margin | MarketValue(marks: Marks) | EntryCash | OpenPnl(marks: Marks)

  function Mark(marks: Marks, p: Position): real {
    Lookup(marks, p.symbol, p.entryPrice)
  }

  function Notional(p: Position): real {
    p.quantity * p.entryPrice
  }

  function Measured(m: Measure, p: Position): real {
    match m
    case Carry => p.carry
    case Margin => p.margin
    case MarketValue(marks) => var v := p.quantity * Mark(marks, p); if p.side.Long? then v else -v
    // What opening the position did to cash.
    case EntryCash => (if p.side.Long? then -Notional(p) else Notional(p)) - p.entryCommission
    // Mark-to-market profit, net of the entry commission and of the carry owed so far.
    case OpenPnl(marks) =>
      (if p.side.Long? then p.quantity * (Mark(marks, p) - p.entryPrice)
       else p.quantity * (p.entryPrice - Mark(marks, p))) - p.entryCommission - p.carry
  }

  function Total(m: Measure, ps: seq<Position>): real {
    if ps == [] then 0.0 else Total(m, ps[..|ps| - 1]) + Measured(m, ps[|ps| - 1])
  }

  function Equity(s: Portfolio): real {
    s.cash - Total(Carry, s.positions) + Total(MarketValue(s.marks), s.positions)
  }

  // ---- Lookup ----

  /** Index of the first position in `symbol`, or the length when there is none. */
  function FindSymbol(ps: seq<Position>, symbol: Symbol): (i: nat)
    ensures i <= |ps|
    ensures i < |ps| ==> ps[i].symbol == symbol
    ensures forall j | 0 <= j < i :: ps[j].symbol != symbol
  {
    if ps == [] || ps[0].symbol == symbol then 0 else FindSymbol(ps[1..], symbol) + 1
  }

  function FindId(ps: seq<Position>, id: Id): (i: nat)
    ensures i <= |ps|
    ensures i < |ps| ==> ps[i].id == id
    ensures forall j | 0 <= j < i :: ps[j].id != id
  {
    if ps == [] || ps[0].id == id then 0 else FindId(ps[1..], id) + 1
  }

  // ---- Carry ----

  function CarryCost(c: Config, p: Position, seconds: real): real {
    Notional(p) * CarryRateFor(c, p.symbol, p.side) * seconds / SECONDS_PER_YEAR
  }

  function Accrue(c: Config, p: Position, when: Time): Position {
    if when <= p.accruedAt then p
    else p.(carry := p.carry + CarryCost(c, p, when - p.accruedAt), accruedAt := when)
  }

  function AccrueAll(c: Config, ps: seq<Position>, when: Time): (r: seq<Position>)
    ensures |r| == |ps|
    ensures forall i | 0 <= i < |ps| :: r[i] == Accrue(c, ps[i], when)
  {
    seq(|ps|, i requires 0 <= i < |ps| => Accrue(c, ps[i], when))
  }

  // ---- Closing ----

  function ExitFill(c: Config, p: Position, price: real): real {
    if p.side.Long? then price * (1.0 - SlippageFor(c, p.symbol)) else price * (1.0 + SlippageFor(c, p.symbol))
  }

  /** Profit of a trade before it is rounded for the record. */
  function TradePnl(t: ClosedTrade): real {
    (if t.side.Long? then t.quantity * (t.exitPrice - t.entryPrice) else t.quantity * (t.entryPrice - t.exitPrice))
    - t.entryCommission - t.exitCommission - t.carry
  }

  function PnlTotal(ts: seq<ClosedTrade>): real {
    if ts == [] then 0.0 else PnlTotal(ts[..|ts| - 1]) + TradePnl(ts[|ts| - 1])
  }

  function PercentOf(pnl: real, value: real): real {
    if value > 0.0 then pnl / value * 100.0 else 0.0
  }

  /** `pct` hundredths of `value` make `part`; of nothing they are none. */
  ghost predicate IsPercent(pct: real, part: real, value: real) {
    if value > 0.0 then pct * value == 100.0 * part else pct == 0.0
  }

  lemma PercentIs(part: real, value: real)
    ensures IsPercent(PercentOf(part, value), part, value)
  {
    if value > 0.0 {
      var share := part / value;
      assert share * value == part;
    }
  }

  function ExitCommission(c: Config, p: Position, fill: real): real {
    p.quantity * fill * c.commission
  }

  /** Profit of closing `p`, already accrued, at fill price `fill`. */
  function ExitPnl(c: Config, p: Position, fill: real): real {
    (if p.side.Long? then p.quantity * (fill - p.entryPrice) else p.quantity * (p.entryPrice - fill))
    - p.entryCommission - ExitCommission(c, p, fill) - p.carry
  }

  /** The record of that close. */
  function TradeOf(c: Config, p: Position, fill: real, reason: ExitReason, when: Time): ClosedTrade {
    var pnl := ExitPnl(c, p, fill);
    ClosedTrade(p.symbol, p.side, p.quantity, p.entryPrice, fill, p.entryAt, when,
                Round2(pnl), Round4(PercentOf(pnl, Notional(p))), reason, p.strategy,
                p.entryCommission, ExitCommission(c, p, fill), p.carry, Some(p.id))
  }

  /** What closing `p`, already accrued, at fill price `fill` does to cash. */
  function ExitCash(c: Config, p: Position, fill: real): real {
    var value, commission := p.quantity * fill, ExitCommission(c, p, fill);
    if p.side.Long? then value - commission - p.carry else -(value + commission + p.carry)
  }

  function RemoveAt<T>(ps: seq<T>, i: nat): seq<T>
    requires i < |ps|
  {
    ps[..i] + ps[i + 1..]
  }

  /** A refused exit fill leaves the final accrual in place. */
  function Close(c: Config, s: Portfolio, id: Id, price: real, reason: ExitReason, when: Time):
      (Portfolio, Option<ClosedTrade>)
  {
    var i := FindId(s.positions, id);
    if price <= 0.0 || i == |s.positions| then (s, None) else
    var p := Accrue(c, s.positions[i], when);
    var fill := ExitFill(c, p, price);
    if fill <= 0.0 then (s.(positions := s.positions[i := p]), None) else
    var trade := TradeOf(c, p, fill, reason, when);
    var rest := s.(cash := s.cash + ExitCash(c, p, fill), positions := RemoveAt(s.positions, i),
                   closed := s.closed + [trade], marks := s.marks - {p.symbol});
    (rest.(curve := s.curve + [Equity(rest)]), Some(trade))
  }

  // ---- Opening ----

  datatype Request = Request(
    symbol: Symbol, side: string, quantity: real, price: real,
    stopLoss: Option<real>, takeProfit: Option<real>, strategy: string)

  datatype Refusal = BadSide | BadQuantity | BadPrice | AlreadyOpen | BadFill | CannotClose | NoBuyingPower

  datatype Outcome = Accepted(position: Position, reversed: Option<ClosedTrade>) | Refused(why: Refusal)

  function ParseSide(s: string): Option<Side> {
    if s == "long" then Some(Long) else if s == "short" then Some(Short) else None
  }

  function EntryFill(c: Config, side: Side, r: Request): real {
    if side.Long? then r.price * (1.0 + SlippageFor(c, r.symbol)) else r.price * (1.0 - SlippageFor(c, r.symbol))
  }

  /** Cash a new position may use: both budgets leave the margin of open shorts reserved. */
  function BuyingPower(s: Portfolio, side: Side): real {
    var free := Max(Equity(s) - Total(Margin, s.positions), 0.0);
    if side.Long? then Min(s.cash, free) else free
  }

  /** Units a budget pays for, commission included. */
  function UnitsFor(c: Config, budget: real, fill: real): real
    requires fill > 0.0 && c.commission >= 0.0
  {
    Max(budget, 0.0) / (fill * (1.0 + c.commission))
  }

  function AffordableQuantity(c: Config, s: Portfolio, side: Side, fill: real): real
    requires fill > 0.0 && c.commission >= 0.0
  {
    UnitsFor(c, BuyingPower(s, side), fill)
  }

  function PositionOf(c: Config, side: Side, r: Request, fill: real, quantity: real, now: Time, id: Id): Position {
    var notional := quantity * fill;
    Position(id, r.symbol, side, quantity, fill, now, r.stopLoss, r.takeProfit, r.strategy,
             notional * c.commission, if side.Long? then 0.0 else notional, 0.0, now)
  }

  /** Adds `p` with its entry cash and marks its symbol at the fill. */
  function Open(s: Portfolio, p: Position): Portfolio {
    var after := s.(cash := s.cash + Measured(EntryCash, p), positions := s.positions + [p],
                     marks := s.marks[p.symbol := p.entryPrice]);
    after.(curve := s.curve + [Equity(after)])
  }

  function Execute(c: Config, s: Portfolio, r: Request, now: Time, id: Id): (Portfolio, Outcome)
    requires ValidConfig(c)
  {
    var parsed := ParseSide(r.side);
    if parsed.None? then (s, Refused(BadSide)) else
    var side := parsed.value;
    if r.quantity <= 0.0 then (s, Refused(BadQuantity)) else
    if r.price <= 0.0 then (s, Refused(BadPrice)) else
    var i := FindSymbol(s.positions, r.symbol);
    var held := i < |s.positions|;
    if held && s.positions[i].side == side then (s, Refused(AlreadyOpen)) else
    var fill := EntryFill(c, side, r);
    if fill <= 0.0 then (s, Refused(BadFill)) else
    var (s1, reversed) := if held then Close(c, s, s.positions[i].id, r.price, OnSignal, now) else (s, None);
    if held && reversed.None? then (s, Refused(CannotClose)) else
    var quantity := Min(r.quantity, AffordableQuantity(c, s1, side, fill));
    if quantity <= 0.0 then (s, Refused(NoBuyingPower)) else
    var p := PositionOf(c, side, r, fill, quantity, now, id);
    (Open(s1, p), Accepted(p, reversed))
  }

  // ---- Candles and marks ----

  /** `openPrice` is optional: callers may know only the high and the low. */
  datatype Candle = Candle(symbol: Symbol, high: real, low: real, close: real, openPrice: Option<real>)

  function GapOpen(k: Candle): Option<real> {
    if k.openPrice.Some? && k.openPrice.value > 0.0 then k.openPrice else None
  }

  /** Stop first, then target; only a stop fills at a gap open. */
  function Exit(p: Position, k: Candle): Option<(real, ExitReason)> {
    var gap := GapOpen(k);
    if p.side.Long? then
      if p.stopLoss.Some? && k.low <= p.stopLoss.value then
        Some((if gap.Some? && gap.value <= p.stopLoss.value then gap.value else p.stopLoss.value, OnStopLoss))
      else if p.takeProfit.Some? && k.high >= p.takeProfit.value then Some((p.takeProfit.value, OnTakeProfit))
      else None
    else
      if p.stopLoss.Some? && k.high >= p.stopLoss.value then
        Some((if gap.Some? && gap.value >= p.stopLoss.value then gap.value else p.stopLoss.value, OnStopLoss))
      else if p.takeProfit.Some? && k.low <= p.takeProfit.value then Some((p.takeProfit.value, OnTakeProfit))
      else None
  }

  /** Exits for the positions of `todo`, oldest first. */
  function CheckExits(c: Config, s: Portfolio, todo: seq<Position>, k: Candle, when: Time):
      (Portfolio, seq<ClosedTrade>)
    decreases |todo|
  {
    if todo == [] then (s, []) else
    var (s1, trades) := CheckExits(c, s, todo[..|todo| - 1], k, when);
    var p := todo[|todo| - 1];
    var exit := if p.symbol == k.symbol then Exit(p, k) else None;
    if exit.None? then (s1, trades) else
    var (s2, trade) := Close(c, s1, p.id, exit.value.0, exit.value.1, when);
    (s2, if trade.Some? then trades + [trade.value] else trades)
  }

  function CheckStops(c: Config, s: Portfolio, k: Candle, when: Time): (Portfolio, seq<ClosedTrade>) {
    CheckExits(c, s, s.positions, k, when)
  }

  function AccrueCarry(c: Config, s: Portfolio, when: Time): Portfolio {
    s.(positions := AccrueAll(c, s.positions, when))
  }

  function MarkToMarket(c: Config, s: Portfolio, symbol: Symbol, price: real, when: Time): Portfolio {
    if price <= 0.0 then s else
    var s1 := AccrueCarry(c, s, when);
    if FindSymbol(s1.positions, symbol) == |s1.positions| then s1 else
    var s2 := s1.(marks := s1.marks[symbol := price]);
    s2.(curve := s2.curve + [Equity(s2)])
  }

  // ---- Snapshots ----

  /** Replaces the cache; a curve point is added only when the last one is not the current equity. */
  function Restore(initial: real, cash: real, positions: seq<Position>, closed: seq<ClosedTrade>,
                   curve: seq<real>, marks: Marks): (s: Portfolio)
    ensures s.curve != []
  {
    var s := Portfolio(initial, cash, positions, closed, if curve == [] then [initial] else curve, marks);
    if IsClose(s.curve[|s.curve| - 1], Equity(s)) then s else s.(curve := s.curve + [Equity(s)])
  }

  /** `restore_snapshot(snapshot)`: the snapshot holds every field but the initial capital. */
  function RestoreSnapshot(current: Portfolio, snapshot: Portfolio): Portfolio {
    Restore(current.initial, snapshot.cash, snapshot.positions, snapshot.closed, snapshot.curve, snapshot.marks)
  }

  function Fresh(initialCapital: real): Portfolio {
    var initial := Max(initialCapital, MINIMUM_CAPITAL);
    Portfolio(initial, initial, [], [], [initial], map[])
  }
}
