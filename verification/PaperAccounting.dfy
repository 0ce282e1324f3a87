/** What every run of the paper engine keeps: the books balance, fills are covered, carry is charged once. */
module PaperAccounting {
  import opened Rounding
  import opened PaperModel
  import opened PaperTotals
  import opened Drawdown

  // ---- Conservation ----

  /** Cash that no recorded fill or closure explains. */
  function Unexplained(s: Portfolio): real {
    s.cash - s.initial - PnlTotal(s.closed) - Total(EntryCash, s.positions)
  }

  /** Equity is initial capital, plus realised profit, plus open profit, plus whatever is unexplained. */
  lemma EquityIdentity(s: Portfolio)
    ensures Equity(s) == s.initial + PnlTotal(s.closed) + Total(OpenPnl(s.marks), s.positions) + Unexplained(s)
  {
    OpenPnlSplits(s.marks, s.positions);
  }

  lemma {:induction false} OpenPnlSplits(marks: Marks, ps: seq<Position>)
    ensures Total(OpenPnl(marks), ps) == Total(MarketValue(marks), ps) + Total(EntryCash, ps) - Total(Carry, ps)
  {
    if ps != [] {
      OpenPnlSplits(marks, ps[..|ps| - 1]);
    }
  }

  lemma AccrualKeepsMeasures(c: Config, p: Position, when: Time)
    ensures Measured(EntryCash, Accrue(c, p, when)) == Measured(EntryCash, p)
  {
  }

  lemma AccrualKeepsEntryCash(c: Config, ps: seq<Position>, when: Time)
    ensures Total(EntryCash, AccrueAll(c, ps, when)) == Total(EntryCash, ps)
  {
    forall i | 0 <= i < |ps|
      ensures Measured(EntryCash, AccrueAll(c, ps, when)[i]) == Measured(EntryCash, ps[i])
    {
      AccrualKeepsMeasures(c, ps[i], when);
    }
    TotalSame(EntryCash, AccrueAll(c, ps, when), EntryCash, ps);
  }

  /** Cash moves on a close by exactly the trade's profit less what the entry already did. */
  lemma CloseSettles(c: Config, p: Position, fill: real, reason: ExitReason, when: Time)
    ensures ExitCash(c, p, fill) == TradePnl(TradeOf(c, p, fill, reason, when)) - Measured(EntryCash, p)
  {
  }

  lemma CloseConserves(c: Config, s: Portfolio, id: Id, price: real, reason: ExitReason, when: Time)
    ensures Unexplained(Close(c, s, id, price, reason, when).0) == Unexplained(s)
    ensures Close(c, s, id, price, reason, when).0.initial == s.initial
  {
    hide ExitCash, TradeOf, TradePnl, Measured, ExitFill, Equity, Accrue, Total, PnlTotal;
    var i := FindId(s.positions, id);
    if price > 0.0 && i < |s.positions| {
      var p := Accrue(c, s.positions[i], when);
      var fill := ExitFill(c, p, price);
      if fill <= 0.0 {
        TotalReplace(EntryCash, s.positions, i, p);
        AccrualKeepsMeasures(c, s.positions[i], when);
      } else {
        TotalRemove(EntryCash, s.positions, i);
        AccrualKeepsMeasures(c, s.positions[i], when);
        CloseSettles(c, p, fill, reason, when);
        PnlOfOneMore(s.closed, TradeOf(c, p, fill, reason, when));
      }
    }
  }

  lemma OpenConserves(s: Portfolio, p: Position)
    ensures Unexplained(Open(s, p)) == Unexplained(s)
    ensures Open(s, p).initial == s.initial
  {
    hide Measured, Equity;
    TotalOfOneMore(EntryCash, s.positions, p);
  }

  lemma {:induction false} CheckExitsConserves(c: Config, s: Portfolio, todo: seq<Position>, k: Candle, when: Time)
    ensures Unexplained(CheckExits(c, s, todo, k, when).0) == Unexplained(s)
    decreases |todo|
  {
    if todo != [] {
      var front := todo[..|todo| - 1];
      CheckExitsConserves(c, s, front, k, when);
      var p := todo[|todo| - 1];
      var exit := if p.symbol == k.symbol then Exit(p, k) else None;
      if exit.Some? {
        CloseConserves(c, CheckExits(c, s, front, k, when).0, p.id, exit.value.0, exit.value.1, when);
      }
    }
  }

  // ---- Runs ----

  datatype Operation =
    | DoExecute(request: Request, now: Time, newId: Id)
    | DoClose(id: Id, price: real, reason: ExitReason, when: Time)
    | DoCheckStops(candle: Candle, when: Time)
    | DoMark(symbol: Symbol, price: real, when: Time)
    | DoAccrue(when: Time)

  function Apply(c: Config, s: Portfolio, op: Operation): Portfolio
    requires ValidConfig(c)
  {
    match op
    case DoExecute(r, now, id) => Execute(c, s, r, now, id).0
    case DoClose(id, price, reason, when) => Close(c, s, id, price, reason, when).0
    case DoCheckStops(k, when) => CheckStops(c, s, k, when).0
    case DoMark(symbol, price, when) => MarkToMarket(c, s, symbol, price, when)
    case DoAccrue(when) => AccrueCarry(c, s, when)
  }

  function Run(c: Config, s: Portfolio, ops: seq<Operation>): Portfolio
    requires ValidConfig(c)
  {
    if ops == [] then s else Apply(c, Run(c, s, ops[..|ops| - 1]), ops[|ops| - 1])
  }

  lemma ApplyConserves(c: Config, s: Portfolio, op: Operation)
    requires ValidConfig(c)
    ensures Unexplained(Apply(c, s, op)) == Unexplained(s)
    ensures Apply(c, s, op).initial == s.initial
  {
    match op
    case DoExecute(r, now, id) =>
      ExecuteConserves(c, s, r, now, id);
    case DoClose(id, price, reason, when) =>
      CloseConserves(c, s, id, price, reason, when);
    case DoCheckStops(k, when) =>
      CheckExitsConserves(c, s, s.positions, k, when);
      CheckExitsKeepsInitial(c, s, s.positions, k, when);
    case DoMark(symbol, price, when) =>
      AccrualKeepsEntryCash(c, s.positions, when);
    case DoAccrue(when) =>
      AccrualKeepsEntryCash(c, s.positions, when);
  }

  lemma ExecuteConserves(c: Config, s: Portfolio, r: Request, now: Time, id: Id)
    requires ValidConfig(c)
    ensures Unexplained(Execute(c, s, r, now, id).0) == Unexplained(s)
    ensures Execute(c, s, r, now, id).0.initial == s.initial
  {
    var outcome := Execute(c, s, r, now, id).1;
    if outcome.Accepted? {
      FillParts(c, s, r, now, id);
      hide Execute, Close, Unexplained, AffordableQuantity, PositionOf;
      var s1, i := BeforeFill(c, s, r, now), FindSymbol(s.positions, r.symbol);
      if i < |s.positions| {
        CloseConserves(c, s, s.positions[i].id, r.price, OnSignal, now);
      }
      OpenConserves(s1, outcome.position);
    }
  }

  lemma {:induction false} CheckExitsKeepsInitial(c: Config, s: Portfolio, todo: seq<Position>, k: Candle, when: Time)
    ensures CheckExits(c, s, todo, k, when).0.initial == s.initial
    decreases |todo|
  {
    if todo != [] {
      CheckExitsKeepsInitial(c, s, todo[..|todo| - 1], k, when);
    }
  }

  lemma {:induction false} RunConserves(c: Config, s: Portfolio, ops: seq<Operation>)
    requires ValidConfig(c)
    ensures Unexplained(Run(c, s, ops)) == Unexplained(s)
    ensures Run(c, s, ops).initial == s.initial
  {
    if ops != [] {
      var front := ops[..|ops| - 1];
      RunConserves(c, s, front);
      ApplyConserves(c, Run(c, s, front), ops[|ops| - 1]);
    }
  }

  /** From a fresh engine, every run of any operations keeps the books balanced to the cent and beyond. */
  lemma EquityIsExplained(c: Config, capital: real, ops: seq<Operation>)
    requires ValidConfig(c)
    ensures var s := Run(c, Fresh(capital), ops);
            Equity(s) == Max(capital, MINIMUM_CAPITAL) + PnlTotal(s.closed) + Total(OpenPnl(s.marks), s.positions)
  {
    RunConserves(c, Fresh(capital), ops);
    EquityIdentity(Run(c, Fresh(capital), ops));
  }

  // ---- Shape of a reachable portfolio ----

  ghost predicate DistinctIds(ps: seq<Position>) {
    forall i, j | 0 <= i < j < |ps| :: ps[i].id != ps[j].id
  }

  ghost predicate DistinctSymbols(ps: seq<Position>) {
    forall i, j | 0 <= i < j < |ps| :: ps[i].symbol != ps[j].symbol
  }

  ghost function Symbols(ps: seq<Position>): set<Symbol> {
    set p | p in ps :: p.symbol
  }

  ghost function Ids(ps: seq<Position>): set<Id> {
    set p | p in ps :: p.id
  }

  /** One open position per symbol. */
  ghost predicate Coherent(s: Portfolio) {
    DistinctIds(s.positions) && DistinctSymbols(s.positions) && s.curve != []
  }

  /** One mark per open symbol, and no other. */
  ghost predicate Marked(s: Portfolio) {
    s.marks.Keys == Symbols(s.positions)
  }

  lemma RemovedElement<T>(ps: seq<T>, i: nat, j: nat)
    requires i < |ps| && j < |ps| - 1
    ensures RemoveAt(ps, i)[j] == ps[if j < i then j else j + 1]
  {
  }

  lemma RemovedAreOthers(ps: seq<Position>, i: nat)
    requires i < |ps| && DistinctIds(ps)
    ensures forall q | q in RemoveAt(ps, i) :: q in ps && q.id != ps[i].id
  {
    hide RemoveAt;
    assert |RemoveAt(ps, i)| == |ps| - 1 by {
      RemovedLength(ps, i);
    }
    forall q | q in RemoveAt(ps, i)
      ensures q in ps && q.id != ps[i].id
    {
      var j :| 0 <= j < |ps| - 1 && RemoveAt(ps, i)[j] == q;
      RemovedElement(ps, i, j);
    }
  }

  lemma RemovedLength<T>(ps: seq<T>, i: nat)
    requires i < |ps|
    ensures |RemoveAt(ps, i)| == |ps| - 1
  {
  }

  lemma OthersRemain(ps: seq<Position>, i: nat, p: Position)
    requires i < |ps| && p in ps && p.id != ps[i].id
    ensures p in RemoveAt(ps, i)
  {
    var j :| 0 <= j < |ps| && ps[j] == p;
    RemovedElement(ps, i, if j < i then j else j - 1);
    assert RemoveAt(ps, i)[if j < i then j else j - 1] == p;
  }

  lemma RemovedMembers(ps: seq<Position>, i: nat)
    requires i < |ps| && DistinctIds(ps)
    ensures DistinctIds(RemoveAt(ps, i))
    ensures forall p :: p in RemoveAt(ps, i) <==> p in ps && p.id != ps[i].id
  {
    RemovedKeepDistinctIds(ps, i);
    hide RemoveAt, DistinctIds;
    RemovedAreOthers(ps, i);
    forall p | p in ps && p.id != ps[i].id
      ensures p in RemoveAt(ps, i)
    {
      OthersRemain(ps, i, p);
    }
  }

  lemma RemovedKeepDistinctIds(ps: seq<Position>, i: nat)
    requires i < |ps| && DistinctIds(ps)
    ensures DistinctIds(RemoveAt(ps, i))
  {
  }

  lemma RemovedIds(ps: seq<Position>, i: nat)
    requires i < |ps| && DistinctIds(ps)
    ensures Ids(RemoveAt(ps, i)) == Ids(ps) - {ps[i].id}
  {
    RemovedMembers(ps, i);
    hide RemoveAt, DistinctIds;
  }

  lemma RemovedSymbols(ps: seq<Position>, i: nat)
    requires i < |ps| && DistinctSymbols(ps) && DistinctIds(ps)
    ensures Symbols(RemoveAt(ps, i)) == Symbols(ps) - {ps[i].symbol}
    ensures Ids(RemoveAt(ps, i)) == Ids(ps) - {ps[i].id}
    ensures DistinctSymbols(RemoveAt(ps, i)) && DistinctIds(RemoveAt(ps, i))
  {
    hide Ids;
    RemovedIds(ps, i);
    RemovedMembers(ps, i);
    SymbolNamesPosition(ps, i);
    DropKeepsDistinct(ps, i);
    hide RemoveAt, DistinctIds, DistinctSymbols;
  }

  lemma DropKeepsDistinct(ps: seq<Position>, i: nat)
    requires i < |ps| && DistinctSymbols(ps)
    ensures DistinctSymbols(RemoveAt(ps, i))
  {
  }

  lemma SymbolNamesPosition(ps: seq<Position>, i: nat)
    requires i < |ps| && DistinctSymbols(ps) && DistinctIds(ps)
    ensures forall p | p in ps :: p.symbol == ps[i].symbol <==> p.id == ps[i].id
  {
    forall p | p in ps
      ensures p.symbol == ps[i].symbol <==> p.id == ps[i].id
    {
      var j :| 0 <= j < |ps| && ps[j] == p;
      if j < i {
        assert ps[j].id != ps[i].id && ps[j].symbol != ps[i].symbol;
      } else if i < j {
        assert ps[i].id != ps[j].id && ps[i].symbol != ps[j].symbol;
      }
    }
  }

  lemma CloseKeepsShape(c: Config, s: Portfolio, id: Id, price: real, reason: ExitReason, when: Time)
    requires Coherent(s)
    ensures Coherent(Close(c, s, id, price, reason, when).0)
    ensures Marked(s) ==> Marked(Close(c, s, id, price, reason, when).0)
    ensures Ids(Close(c, s, id, price, reason, when).0.positions) <= Ids(s.positions)
    ensures Symbols(Close(c, s, id, price, reason, when).0.positions) <= Symbols(s.positions)
  {
    var i := FindId(s.positions, id);
    if price > 0.0 && i < |s.positions| {
      RemovedSymbols(s.positions, i);
      var p := Accrue(c, s.positions[i], when);
      if ExitFill(c, p, price) <= 0.0 {
        ReplacedSymbols(s.positions, s.positions[i := p]);
      }
    }
  }

  lemma ReplacedSymbols(ps: seq<Position>, qs: seq<Position>)
    requires |ps| == |qs|
    requires forall i | 0 <= i < |ps| :: qs[i].id == ps[i].id && qs[i].symbol == ps[i].symbol
    ensures Symbols(qs) == Symbols(ps) && Ids(qs) == Ids(ps)
  {
    forall i | 0 <= i < |ps|
      ensures ps[i].symbol in Symbols(qs) && qs[i].symbol in Symbols(ps)
      ensures ps[i].id in Ids(qs) && qs[i].id in Ids(ps)
    {
      assert ps[i] in ps && qs[i] in qs;
    }
  }

  /** The portfolio a fill is sized against: any opposite position in the symbol is closed first. */
  function BeforeFill(c: Config, s: Portfolio, r: Request, now: Time): Portfolio {
    var i := FindSymbol(s.positions, r.symbol);
    if i == |s.positions| then s else Close(c, s, s.positions[i].id, r.price, OnSignal, now).0
  }

  /** Closing the one position in a symbol frees the symbol. */
  lemma BeforeFillFreesSymbol(c: Config, s: Portfolio, r: Request, now: Time)
    requires Coherent(s)
    requires var i := FindSymbol(s.positions, r.symbol);
             i < |s.positions| ==> Close(c, s, s.positions[i].id, r.price, OnSignal, now).1.Some?
    ensures Coherent(BeforeFill(c, s, r, now))
    ensures Marked(s) ==> Marked(BeforeFill(c, s, r, now))
    ensures r.symbol !in Symbols(BeforeFill(c, s, r, now).positions)
    ensures Ids(BeforeFill(c, s, r, now).positions) <= Ids(s.positions)
  {
    var i := FindSymbol(s.positions, r.symbol);
    if i < |s.positions| {
      assert FindId(s.positions, s.positions[i].id) == i;
      RemovedSymbols(s.positions, i);
      CloseKeepsShape(c, s, s.positions[i].id, r.price, OnSignal, now);
    }
  }

  lemma ExecuteKeepsShape(c: Config, s: Portfolio, r: Request, now: Time, id: Id)
    requires ValidConfig(c) && Coherent(s) && id !in Ids(s.positions)
    ensures Coherent(Execute(c, s, r, now, id).0)
    ensures Marked(s) ==> Marked(Execute(c, s, r, now, id).0)
  {
    hide Close, EntryFill, AffordableQuantity;
    var (s', outcome) := Execute(c, s, r, now, id);
    if outcome.Accepted? {
      BeforeFillFreesSymbol(c, s, r, now);
      OpenKeepsShape(BeforeFill(c, s, r, now), outcome.position);
    }
  }

  lemma OpenKeepsShape(s: Portfolio, p: Position)
    requires Coherent(s) && p.id !in Ids(s.positions) && p.symbol !in Symbols(s.positions)
    ensures Coherent(Open(s, p))
    ensures Marked(s) ==> Marked(Open(s, p))
  {
    hide Measured, Equity;
    AppendKeepsDistinct(s.positions, p);
  }

  lemma AppendKeepsDistinct(ps: seq<Position>, p: Position)
    requires DistinctIds(ps) && DistinctSymbols(ps) && p.id !in Ids(ps) && p.symbol !in Symbols(ps)
    ensures DistinctIds(ps + [p]) && DistinctSymbols(ps + [p])
    ensures Symbols(ps + [p]) == Symbols(ps) + {p.symbol}
    ensures Ids(ps + [p]) == Ids(ps) + {p.id}
  {
    var qs := ps + [p];
    AppendedMembers(ps, p);
    forall i, j | 0 <= i < j < |qs|
      ensures qs[i].id != qs[j].id && qs[i].symbol != qs[j].symbol
    {
      assert ps[i] in ps;
      assert ps[i].id in Ids(ps) && ps[i].symbol in Symbols(ps);
    }
  }

  lemma AppendedMembers(ps: seq<Position>, p: Position)
    ensures Symbols(ps + [p]) == Symbols(ps) + {p.symbol}
    ensures Ids(ps + [p]) == Ids(ps) + {p.id}
  {
    assert forall q :: q in ps + [p] <==> q in ps || q == p;
  }

  lemma {:induction false} CheckExitsKeepsShape(c: Config, s: Portfolio, todo: seq<Position>, k: Candle, when: Time)
    requires Coherent(s)
    ensures Coherent(CheckExits(c, s, todo, k, when).0)
    ensures Marked(s) ==> Marked(CheckExits(c, s, todo, k, when).0)
    ensures Ids(CheckExits(c, s, todo, k, when).0.positions) <= Ids(s.positions)
    decreases |todo|
  {
    if todo != [] {
      var front := todo[..|todo| - 1];
      CheckExitsKeepsShape(c, s, front, k, when);
      var p := todo[|todo| - 1];
      var exit := if p.symbol == k.symbol then Exit(p, k) else None;
      if exit.Some? {
        CloseKeepsShape(c, CheckExits(c, s, front, k, when).0, p.id, exit.value.0, exit.value.1, when);
      }
    }
  }

  /** New positions carry an id that no open position has. */
  ghost predicate FreshId(s: Portfolio, op: Operation) {
    op.DoExecute? ==> op.newId !in Ids(s.positions)
  }

  lemma ApplyKeepsShape(c: Config, s: Portfolio, op: Operation)
    requires ValidConfig(c) && Coherent(s) && FreshId(s, op)
    ensures Coherent(Apply(c, s, op))
    ensures Marked(s) ==> Marked(Apply(c, s, op))
  {
    match op
    case DoExecute(r, now, id) => ExecuteKeepsShape(c, s, r, now, id);
    case DoClose(id, price, reason, when) => CloseKeepsShape(c, s, id, price, reason, when);
    case DoCheckStops(k, when) => CheckExitsKeepsShape(c, s, s.positions, k, when);
    case DoMark(symbol, price, when) => MarkKeepsShape(c, s, symbol, price, when);
    case DoAccrue(when) => ReplacedSymbols(s.positions, AccrueAll(c, s.positions, when));
  }

  lemma MarkKeepsShape(c: Config, s: Portfolio, symbol: Symbol, price: real, when: Time)
    requires Coherent(s)
    ensures Coherent(MarkToMarket(c, s, symbol, price, when))
    ensures Marked(s) ==> Marked(MarkToMarket(c, s, symbol, price, when))
    ensures Ids(MarkToMarket(c, s, symbol, price, when).positions) == Ids(s.positions)
  {
    if price > 0.0 {
      var s1 := AccrueCarry(c, s, when);
      ReplacedSymbols(s.positions, s1.positions);
      var i := FindSymbol(s1.positions, symbol);
      if i < |s1.positions| {
        assert s1.positions[i] in s1.positions;
        assert s1.marks[symbol := price].Keys == s1.marks.Keys + {symbol};
      }
    }
  }

  ghost predicate FreshIds(c: Config, s: Portfolio, ops: seq<Operation>)
    requires ValidConfig(c)
  {
    ops == [] || (FreshIds(c, s, ops[..|ops| - 1]) && FreshId(Run(c, s, ops[..|ops| - 1]), ops[|ops| - 1]))
  }

  lemma {:induction false} RunKeepsShape(c: Config, s: Portfolio, ops: seq<Operation>)
    requires ValidConfig(c) && Coherent(s) && FreshIds(c, s, ops)
    ensures Coherent(Run(c, s, ops))
    ensures Marked(s) ==> Marked(Run(c, s, ops))
  {
    if ops != [] {
      var front := ops[..|ops| - 1];
      RunKeepsShape(c, s, front);
      ApplyKeepsShape(c, Run(c, s, front), ops[|ops| - 1]);
    }
  }

  // ---- Fills are covered ----

  lemma QuotientBound(budget: real, unit: real, quantity: real)
    requires unit > 0.0 && quantity <= budget / unit
    ensures quantity * unit <= budget
  {
    var most := budget / unit;
    assert most * unit == budget;
    ProductNonnegative(most - quantity, unit);
    assert (most - quantity) * unit == most * unit - quantity * unit;
  }

  lemma OpenEquity(s: Portfolio, p: Position)
    requires p.symbol !in Symbols(s.positions) && p.carry == 0.0
    ensures Equity(Open(s, p)) == Equity(s) - p.entryCommission
    ensures Total(Margin, Open(s, p).positions) == Total(Margin, s.positions) + p.margin
  {
    var marks := s.marks[p.symbol := p.entryPrice];
    TotalOfOneMore(MarketValue(marks), s.positions, p);
    TotalOfOneMore(Carry, s.positions, p);
    TotalOfOneMore(Margin, s.positions, p);
    EntryIsFlat(p, marks);
    OtherMarksIrrelevant(s.positions, s.marks, p.symbol, p.entryPrice);
    hide Measured;
    assert Measured(Margin, p) == p.margin && Measured(Carry, p) == p.carry by {
      MeasuredFields(p, marks);
    }
  }

  /** At its own fill price a new position is worth what it cost, less the commission. */
  lemma EntryIsFlat(p: Position, marks: Marks)
    requires p.symbol in marks && marks[p.symbol] == p.entryPrice
    ensures Measured(EntryCash, p) + Measured(MarketValue(marks), p) == -p.entryCommission
  {
  }

  lemma OtherMarksIrrelevant(ps: seq<Position>, marks: Marks, symbol: Symbol, price: real)
    requires symbol !in Symbols(ps)
    ensures Total(MarketValue(marks[symbol := price]), ps) == Total(MarketValue(marks), ps)
  {
    forall i | 0 <= i < |ps|
      ensures Measured(MarketValue(marks[symbol := price]), ps[i]) == Measured(MarketValue(marks), ps[i])
    {
      assert ps[i] in ps;
      assert ps[i].symbol in Symbols(ps);
      assert Mark(marks[symbol := price], ps[i]) == Mark(marks, ps[i]);
    }
    TotalSame(MarketValue(marks[symbol := price]), ps, MarketValue(marks), ps);
  }

  /** An accepted fill never spends more than the account has, and costs exactly its commission. */
  lemma FillIsCovered(c: Config, s: Portfolio, r: Request, now: Time, id: Id)
    requires ValidConfig(c) && Coherent(s)
    requires Execute(c, s, r, now, id).1.Accepted?
    ensures var (s', outcome) := Execute(c, s, r, now, id);
            var p := outcome.position;
            && 0.0 < p.quantity <= r.quantity
            && 0.0 <= Total(Margin, s'.positions) - Total(Margin, BeforeFill(c, s, r, now).positions)
            && Total(Margin, s'.positions) <= Equity(s')
            && (p.side.Long? ==> s'.cash >= 0.0)
            && Equity(s') == Equity(BeforeFill(c, s, r, now)) - p.entryCommission
  {
    hide Execute, Open, Measured, Equity, Total, Close, AffordableQuantity, BeforeFill;
    var p := Execute(c, s, r, now, id).1.position;
    var s1 := BeforeFill(c, s, r, now);
    FillParts(c, s, r, now, id);
    BeforeFillFreesSymbol(c, s, r, now);
    OpenIsCovered(c, s1, p, r, now);
  }

  lemma OpenIsCovered(c: Config, s: Portfolio, p: Position, r: Request, now: Time)
    requires ValidConfig(c) && p.symbol !in Symbols(s.positions) && p.entryPrice > 0.0 && p.quantity > 0.0
    requires p == PositionOf(c, p.side, r, p.entryPrice, p.quantity, now, p.id)
    requires p.quantity <= AffordableQuantity(c, s, p.side, p.entryPrice)
    ensures Total(Margin, s.positions) <= Total(Margin, Open(s, p).positions) <= Equity(Open(s, p))
    ensures p.side.Long? ==> Open(s, p).cash >= 0.0
    ensures Equity(Open(s, p)) == Equity(s) - p.entryCommission
  {
    hide Open, Equity, Total, Measured, PositionOf, Symbols, UnitsFor;
    var notional := p.quantity * p.entryPrice;
    FillFigures(c, p, r, now, notional);
    FillCost(c, BuyingPower(s, p.side), p.entryPrice, p.quantity);
    OpenEquity(s, p);
    OpenCash(s, p);
    BudgetCovers(p.side.Long?, s.cash, Equity(s), Total(Margin, s.positions), notional, p.entryCommission);
  }

  lemma FillFigures(c: Config, p: Position, r: Request, now: Time, notional: real)
    requires p == PositionOf(c, p.side, r, p.entryPrice, p.quantity, now, p.id) && notional == p.quantity * p.entryPrice
    ensures p.entryCommission == notional * c.commission && p.carry == 0.0
    ensures p.margin == if p.side.Long? then 0.0 else notional
    ensures Measured(EntryCash, p) == (if p.side.Long? then -notional else notional) - p.entryCommission
  {
  }

  lemma BudgetCovers(long: bool, cash: real, equity: real, margin: real, notional: real, fee: real)
    requires notional > 0.0 && fee >= 0.0
    requires notional + fee <= if long then Min(cash, Max(equity - margin, 0.0)) else Max(equity - margin, 0.0)
    ensures margin + (if long then 0.0 else notional) <= equity - fee
    ensures long ==> cash - notional - fee >= 0.0
  {
  }

  /** An accepted request opens the position described by `PositionOf` on the portfolio before the fill. */
  lemma FillParts(c: Config, s: Portfolio, r: Request, now: Time, id: Id)
    requires ValidConfig(c) && Execute(c, s, r, now, id).1.Accepted?
    ensures var (s', outcome) := Execute(c, s, r, now, id);
            var p, s1 := outcome.position, BeforeFill(c, s, r, now);
            && s' == Open(s1, p)
            && p.entryPrice > 0.0 && p.symbol == r.symbol
            && p == PositionOf(c, p.side, r, p.entryPrice, p.quantity, now, id)
            && 0.0 < p.quantity <= r.quantity
            && p.quantity <= AffordableQuantity(c, s1, p.side, p.entryPrice)
            && outcome.reversed == (var i := FindSymbol(s.positions, r.symbol);
                 if i == |s.positions| then None else Close(c, s, s.positions[i].id, r.price, OnSignal, now).1)
            && (FindSymbol(s.positions, r.symbol) < |s.positions| ==> outcome.reversed.Some?)
  {
    hide Close, Open, EntryFill, AffordableQuantity, Measured;
  }

  lemma OpenCash(s: Portfolio, p: Position)
    ensures Open(s, p).cash == s.cash + Measured(EntryCash, p)
  {
  }

  lemma FillCost(c: Config, budget: real, fill: real, quantity: real)
    requires ValidConfig(c) && fill > 0.0 && quantity > 0.0
    requires quantity <= UnitsFor(c, budget, fill)
    ensures var notional := quantity * fill;
            notional > 0.0 && notional * c.commission >= 0.0 && notional + notional * c.commission <= budget
  {
    var unit := fill * (1.0 + c.commission);
    QuotientBound(Max(budget, 0.0), unit, quantity);
    var notional := quantity * fill;
    ProductPositive(quantity, fill);
    assert quantity * unit == notional * (1.0 + c.commission);
    assert notional * (1.0 + c.commission) == notional + notional * c.commission;
    assert notional * c.commission >= 0.0;
  }

  // ---- Carry ----

  function Latest(t: Time, ts: seq<Time>): Time {
    if ts == [] then t else Max(Latest(t, ts[..|ts| - 1]), ts[|ts| - 1])
  }

  function AccruedTo(c: Config, p: Position, when: Time): Position {
    p.(carry := p.carry + CarryCost(c, p, when - p.accruedAt), accruedAt := when)
  }

  lemma AccrueTwice(c: Config, p: Position, q: Position, t: Time, when: Time)
    requires q == AccruedTo(c, p, t)
    ensures Accrue(c, q, when) == AccruedTo(c, p, Max(t, when))
  {
    var rate := Notional(p) * CarryRateFor(c, p.symbol, p.side);
    assert CarryCost(c, p, t - p.accruedAt) == rate * (t - p.accruedAt) / SECONDS_PER_YEAR;
    if when > t {
      assert CarryCost(c, q, when - t) == rate * (when - t) / SECONDS_PER_YEAR;
      assert rate * (t - p.accruedAt) + rate * (when - t) == rate * (when - p.accruedAt);
    }
  }

  lemma AccrueOnce(c: Config, p: Position, when: Time)
    ensures Accrue(c, p, when) == AccruedTo(c, p, Max(p.accruedAt, when))
  {
  }

  /** The moments at which an operation accrues a position it leaves open. */
  function Accruals(op: Operation): seq<Time> {
    match op
    case DoMark(_, price, when) => if price > 0.0 then [when] else []
    case DoAccrue(when) => [when]
    case _ => []
  }

  function AllAccruals(ops: seq<Operation>): seq<Time> {
    if ops == [] then [] else AllAccruals(ops[..|ops| - 1]) + Accruals(ops[|ops| - 1])
  }

  lemma ExitFillPositive(c: Config, p: Position, price: real)
    requires ValidConfig(c) && price > 0.0
    ensures ExitFill(c, p, price) > 0.0
  {
    var slip := SlippageFor(c, p.symbol);
    SlippageIsFraction(c, p.symbol);
    ProductPositive(price, 1.0 - slip);
    ProductPositive(price, 1.0 + slip);
  }

  lemma SlippageIsFraction(c: Config, symbol: Symbol)
    requires ValidConfig(c)
    ensures Fraction(SlippageFor(c, symbol))
  {
    var key := Upper(symbol);
    if key in c.slippageBySymbol {
      assert Fraction(c.slippageBySymbol[key]);
    }
  }

  /** A position that survives a close is untouched by it. */
  lemma CloseTouchesOne(c: Config, s: Portfolio, id: Id, price: real, reason: ExitReason, when: Time)
    requires ValidConfig(c)
    ensures forall q | q in Close(c, s, id, price, reason, when).0.positions :: q in s.positions
  {
    var i := FindId(s.positions, id);
    if price > 0.0 && i < |s.positions| {
      ExitFillPositive(c, Accrue(c, s.positions[i], when), price);
    }
  }

  lemma {:induction false} CheckExitsTouchesClosed(c: Config, s: Portfolio, todo: seq<Position>, k: Candle, when: Time)
    requires ValidConfig(c)
    ensures forall q | q in CheckExits(c, s, todo, k, when).0.positions :: q in s.positions
    decreases |todo|
  {
    if todo != [] {
      var front := todo[..|todo| - 1];
      CheckExitsTouchesClosed(c, s, front, k, when);
      var p := todo[|todo| - 1];
      var exit := if p.symbol == k.symbol then Exit(p, k) else None;
      if exit.Some? {
        CloseTouchesOne(c, CheckExits(c, s, front, k, when).0, p.id, exit.value.0, exit.value.1, when);
      }
    }
  }

  /** Every position open after an operation is new, or was open before and accrued at the operation's moments. */
  lemma ApplyAccrues(c: Config, s: Portfolio, op: Operation, q: Position)
    requires ValidConfig(c) && q in Apply(c, s, op).positions
    requires op.DoExecute? ==> op.newId != q.id
    ensures exists p :: p in s.positions && q == if Accruals(op) == [] then p else Accrue(c, p, Accruals(op)[0])
  {
    match op
    case DoExecute(r, now, id) =>
      var i := FindSymbol(s.positions, r.symbol);
      if i < |s.positions| {
        CloseTouchesOne(c, s, s.positions[i].id, r.price, OnSignal, now);
      }
      assert q in s.positions;
    case DoClose(id, price, reason, when) =>
      CloseTouchesOne(c, s, id, price, reason, when);
      assert q in s.positions;
    case DoCheckStops(k, when) =>
      CheckExitsTouchesClosed(c, s, s.positions, k, when);
      assert q in s.positions;
    case DoMark(symbol, price, when) =>
      if price > 0.0 {
        AccruedFrom(c, s.positions, when, q);
      }
    case DoAccrue(when) =>
      AccruedFrom(c, s.positions, when, q);
  }

  lemma AccruedFrom(c: Config, ps: seq<Position>, when: Time, q: Position)
    requires q in AccrueAll(c, ps, when)
    ensures exists p :: p in ps && q == Accrue(c, p, when)
  {
    var i :| 0 <= i < |ps| && AccrueAll(c, ps, when)[i] == q;
    assert ps[i] in ps;
  }

  lemma LatestExtended(t: Time, ts: seq<Time>, op: Operation)
    ensures Latest(t, ts + Accruals(op))
            == if Accruals(op) == [] then Latest(t, ts) else Max(Latest(t, ts), Accruals(op)[0])
  {
    if Accruals(op) == [] {
      assert ts + Accruals(op) == ts;
    } else {
      assert (ts + Accruals(op))[..|ts|] == ts;
    }
  }

  /** Carry is path independent: it depends on the latest accepted moment only, whatever the order or repetition. */
  lemma {:induction false} CarryIsPathIndependent(c: Config, s: Portfolio, ops: seq<Operation>, p: Position, q: Position)
    requires ValidConfig(c) && DistinctIds(s.positions)
    requires p in s.positions && q in Run(c, s, ops).positions && q.id == p.id
    requires forall op | op in ops && op.DoExecute? :: op.newId != p.id
    ensures q == AccruedTo(c, p, Latest(p.accruedAt, AllAccruals(ops)))
  {
    if ops == [] {
    } else {
      var front, op := ops[..|ops| - 1], ops[|ops| - 1];
      assert op in ops;
      ApplyAccrues(c, Run(c, s, front), op, q);
      var mid :| mid in Run(c, s, front).positions
                 && q == if Accruals(op) == [] then mid else Accrue(c, mid, Accruals(op)[0]);
      CarryIsPathIndependent(c, s, front, p, mid);
      var t := Latest(p.accruedAt, AllAccruals(front));
      LatestExtended(p.accruedAt, AllAccruals(front), op);
      if Accruals(op) != [] {
        AccrueTwice(c, p, mid, t, Accruals(op)[0]);
      }
    }
  }

  /** On close, the carry up to the exit (or up to a later accrual) leaves cash, once, and the position is gone. */
  lemma CarrySettledOnce(c: Config, s: Portfolio, id: Id, price: real, reason: ExitReason, when: Time)
    requires ValidConfig(c) && Coherent(s) && price > 0.0 && FindId(s.positions, id) < |s.positions|
    ensures var (s', trade) := Close(c, s, id, price, reason, when);
            var p := s.positions[FindId(s.positions, id)];
            && trade.Some?
            && trade.value.carry == AccruedTo(c, p, Max(p.accruedAt, when)).carry
            && s'.cash == s.cash + TradePnl(trade.value) - Measured(EntryCash, p)
            && id !in Ids(s'.positions)
  {
    hide ExitCash, TradePnl, Measured, ExitFill, CarryCost;
    var i := FindId(s.positions, id);
    var p := s.positions[i];
    AccrualKeepsMeasures(c, p, when);
    var q := Accrue(c, p, when);
    AccrueOnce(c, p, when);
    ExitFillPositive(c, q, price);
    CloseSettles(c, q, ExitFill(c, q, price), reason, when);
    RemovedSymbols(s.positions, i);
  }

  /** Carry is never remembered from anywhere else: from a fresh engine, after any operations, an open position owes
      exactly the charge for the time from its entry to its latest accrual. */
  lemma {:induction false} OpenCarryIsExact(c: Config, capital: real, ops: seq<Operation>, q: Position)
    requires ValidConfig(c) && q in Run(c, Fresh(capital), ops).positions
    ensures q.accruedAt >= q.entryAt && q.carry == CarryCost(c, q, q.accruedAt - q.entryAt)
  {
    hide CarryCost, Apply, Execute, Accruals;
    if ops != [] {
      var s, op := Run(c, Fresh(capital), ops[..|ops| - 1]), ops[|ops| - 1];
      if op.DoExecute? && Execute(c, s, op.request, op.now, op.newId).1.Accepted?
         && q == Execute(c, s, op.request, op.now, op.newId).1.position {
        EntryOwesNothing(c, s, op.request, op.now, op.newId);
      } else {
        var p := OpenedEarlier(c, s, op, q);
        OpenCarryIsExact(c, capital, ops[..|ops| - 1], p);
        if Accruals(op) != [] {
          AccrualAddsUp(c, p, Accruals(op)[0]);
        }
      }
    }
  }

  lemma EntryOwesNothing(c: Config, s: Portfolio, r: Request, now: Time, id: Id)
    requires ValidConfig(c) && Execute(c, s, r, now, id).1.Accepted?
    ensures var p := Execute(c, s, r, now, id).1.position;
            p.accruedAt == p.entryAt && p.carry == CarryCost(c, p, p.accruedAt - p.entryAt)
  {
    FillParts(c, s, r, now, id);
    hide Execute;
    var p := Execute(c, s, r, now, id).1.position;
    assert CarryCost(c, p, 0.0) == 0.0;
  }

  /** Every open position but a new fill was open before, and accrued at the operation's moment, if it has one. */
  lemma OpenedEarlier(c: Config, s: Portfolio, op: Operation, q: Position) returns (p: Position)
    requires ValidConfig(c) && q in Apply(c, s, op).positions
    requires op.DoExecute? ==>
               var outcome := Execute(c, s, op.request, op.now, op.newId).1; outcome.Accepted? ==> q != outcome.position
    ensures p in s.positions && q == if Accruals(op) == [] then p else Accrue(c, p, Accruals(op)[0])
  {
    if op.DoExecute? {
      p := q;
      hide AffordableQuantity, PositionOf, EntryFill;
      var i := FindSymbol(s.positions, op.request.symbol);
      if i < |s.positions| {
        CloseTouchesOne(c, s, s.positions[i].id, op.request.price, OnSignal, op.now);
      }
      hide Close;
      if Execute(c, s, op.request, op.now, op.newId).1.Accepted? {
        FillParts(c, s, op.request, op.now, op.newId);
      }
    } else {
      ApplyAccrues(c, s, op, q);
      p :| p in s.positions && q == if Accruals(op) == [] then p else Accrue(c, p, Accruals(op)[0]);
    }
  }

  lemma AccrualAddsUp(c: Config, p: Position, when: Time)
    requires p.accruedAt >= p.entryAt && p.carry == CarryCost(c, p, p.accruedAt - p.entryAt)
    ensures var q := Accrue(c, p, when);
            q.accruedAt >= q.entryAt && q.carry == CarryCost(c, q, q.accruedAt - q.entryAt)
  {
    var entered := p.(carry := 0.0, accruedAt := p.entryAt);
    assert p == AccruedTo(c, entered, p.accruedAt);
    AccrueTwice(c, entered, p, p.accruedAt, when);
  }

  // ---- Exits ----

  predicate StopReached(p: Position, k: Candle) {
    p.stopLoss.Some? && if p.side.Long? then k.low <= p.stopLoss.value else k.high >= p.stopLoss.value
  }

  predicate TargetReached(p: Position, k: Candle) {
    p.takeProfit.Some? && if p.side.Long? then k.high >= p.takeProfit.value else k.low <= p.takeProfit.value
  }

  /** Exiting at `price` brings the holder no more than exiting at `level`. */
  predicate NoBetter(side: Side, price: real, level: real) {
    if side.Long? then price <= level else price >= level
  }

  /** A candle exits a position exactly when it reaches one of its levels, by the target only when the stop was not
      reached. A stop is filled no better than its level, at its level unless the candle opened beyond it; with a known
      open inside the candle's range it is filled at a price the candle traded. A target is filled at its level. */
  lemma ExitIsAdverseFirst(p: Position, k: Candle)
    ensures Exit(p, k).None? <==> !StopReached(p, k) && !TargetReached(p, k)
    ensures Exit(p, k).Some? && Exit(p, k).value.1.OnStopLoss? <==> StopReached(p, k)
    ensures Exit(p, k).Some? && Exit(p, k).value.1.OnTakeProfit? <==> !StopReached(p, k) && TargetReached(p, k)
    ensures Exit(p, k).Some? && Exit(p, k).value.1.OnTakeProfit? ==> Exit(p, k).value.0 == p.takeProfit.value
    ensures StopReached(p, k) ==>
              var price := Exit(p, k).value.0;
              && NoBetter(p.side, price, p.stopLoss.value)
              && (price == p.stopLoss.value || Some(price) == k.openPrice)
              && (k.openPrice.None? || k.openPrice.value <= 0.0 ==> price == p.stopLoss.value)
              && (k.openPrice.Some? && k.openPrice.value > 0.0 ==> NoBetter(p.side, price, k.openPrice.value))
              && (k.openPrice.Some? && 0.0 < k.openPrice.value && k.low <= k.openPrice.value <= k.high ==>
                    k.low <= price <= k.high)
  {
  }

  // ---- A curve that goes negative ----

  /** No commission, slippage, borrow or funding. */
  ghost predicate Costless(c: Config) {
    && ValidConfig(c) && c.commission == c.slippage == c.borrow == c.funding == 0.0
    && c.slippageBySymbol == c.borrowBySymbol == c.fundingBySymbol == map[]
  }

  function ShortRequest(symbol: Symbol, price: real): Request {
    Request(symbol, "short", 1.0, price, None, None, "")
  }

  /** A fresh position short one unit. */
  ghost predicate OneShort(ps: seq<Position>, symbol: Symbol) {
    && |ps| == 1 && ps[0].symbol == symbol && ps[0].side.Short? && ps[0].quantity == 1.0
    && ps[0].carry == ps[0].accruedAt == 0.0
  }

  lemma OneShortEquity(s: Portfolio, symbol: Symbol)
    requires OneShort(s.positions, symbol)
    ensures Equity(s) == s.cash - Mark(s.marks, s.positions[0])
  {
    hide Mark, Measured;
    var p := s.positions[0];
    assert s.positions == [] + [p];
    TotalOfOneMore(Carry, [], p);
    TotalOfOneMore(MarketValue(s.marks), [], p);
    MeasuredFields(p, s.marks);
  }

  lemma ShortAffordable(c: Config, s: Portfolio, price: real)
    requires Costless(c) && price > 0.0 && s.positions == [] && s.cash == price
    ensures AffordableQuantity(c, s, Short, price) == 1.0
  {
    hide Total;
    assert Total(Carry, []) == Total(MarketValue(s.marks), []) == Total(Margin, []) == 0.0 by {
      NoPositions(Carry);
      NoPositions(MarketValue(s.marks));
      NoPositions(Margin);
    }
    assert BuyingPower(s, Short) == price;
    assert price * (1.0 + c.commission) == price;
    QuotientOfSelf(price);
  }

  lemma NoPositions(m: Measure)
    ensures Total(m, []) == 0.0
  {
  }

  lemma QuotientOfSelf(x: real)
    requires x != 0.0
    ensures x / x == 1.0
  {
    var q := x / x;
    assert (q - 1.0) * x == 0.0;
  }

  lemma OneShortOpened(c: Config, s: Portfolio, symbol: Symbol, price: real, p: Position)
    requires Costless(c) && s.positions == [] && p == PositionOf(c, Short, ShortRequest(symbol, price), price, 1.0, 0.0, 1)
    ensures OneShort(Open(s, p).positions, symbol)
    ensures Open(s, p).cash == s.cash + price && Open(s, p).curve == s.curve + [s.cash]
  {
    var after := s.(cash := s.cash + price, positions := [p], marks := s.marks[symbol := price]);
    OneShortEquity(after, symbol);
    hide Equity;
  }

  lemma ShortFills(c: Config, symbol: Symbol, price: real)
    requires Costless(c) && price >= MINIMUM_CAPITAL
    ensures var s := Execute(c, Fresh(price), ShortRequest(symbol, price), 0.0, 1).0;
            OneShort(s.positions, symbol) && s.cash == price + price && s.curve == [price, price]
  {
    var s, r := Fresh(price), ShortRequest(symbol, price);
    assert EntryFill(c, Short, r) == price;
    ShortAffordable(c, s, price);
    OneShortOpened(c, s, symbol, price, PositionOf(c, Short, r, price, 1.0, 0.0, 1));
    hide Open, OneShort, EntryFill, AffordableQuantity, PositionOf, Close;
  }

  lemma ShortMarked(c: Config, s: Portfolio, symbol: Symbol, price: real)
    requires OneShort(s.positions, symbol) && price > 0.0
    ensures var after := MarkToMarket(c, s, symbol, price, 0.0);
            OneShort(after.positions, symbol) && after.cash == s.cash && after.curve == s.curve + [s.cash - price]
  {
    var s1 := AccrueCarry(c, s, 0.0);
    assert s1.positions == s.positions;
    OneShortEquity(s1.(marks := s1.marks[symbol := price]), symbol);
    hide Equity;
  }

  lemma RunOneMore(c: Config, s: Portfolio, ops: seq<Operation>, op: Operation)
    requires ValidConfig(c)
    ensures Run(c, s, ops + [op]) == Apply(c, Run(c, s, ops), op)
  {
    hide Apply;
    assert (ops + [op])[..|ops|] == ops;
  }

  /** A squeezed short takes the engine's own curve below zero, where the scan records less than the fall between two of
      its points: capital that is all short at `price` peaks when the mark drops to `low` and is gone, and more, when it
      rises to `high`. */
  lemma SqueezeBreaksPairs(c: Config, symbol: Symbol, price: real, low: real, high: real) returns (ops: seq<Operation>)
    requires Costless(c) && price >= MINIMUM_CAPITAL && 0.0 < low < price && price + price < high
    ensures var curve := Run(c, Fresh(price), ops).curve;
            && curve == [price, price, price + price - low, price + price - high]
            && MaxDrawdown(curve) < Fall(curve[0], curve[3])
  {
    hide Execute, MarkToMarket, OneShort;
    var open := DoExecute(ShortRequest(symbol, price), 0.0, 1);
    var calm, squeeze := DoMark(symbol, low, 0.0), DoMark(symbol, high, 0.0);
    ops := [] + [open] + [calm] + [squeeze];
    RunOneMore(c, Fresh(price), [], open);
    RunOneMore(c, Fresh(price), [] + [open], calm);
    RunOneMore(c, Fresh(price), [] + [open] + [calm], squeeze);
    hide Run;
    ShortFills(c, symbol, price);
    var s := Execute(c, Fresh(price), open.request, 0.0, 1).0;
    ShortMarked(c, s, symbol, low);
    ShortMarked(c, MarkToMarket(c, s, symbol, low, 0.0), symbol, high);
    SqueezedCurve(price, price + price - low, price + price - high);
  }
}
