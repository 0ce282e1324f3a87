/** The ledger service: load the latest durable state, change the engine, write one transaction, or take it all back. */
module PaperLedger {
  import opened Rounding
  import opened PaperModel
  import opened PaperEngine
  import opened PaperRepository

  datatype Write =
    | Fill(request: Request, now: Time, newId: Id, clientOrderId: Option<string>)
    | CandleClose(candle: Candle, when: Time)

  /** What a write did to the engine, and what the repository is told about it. */
  datatype Change =
    | Change(portfolio: Portfolio, closed: seq<ClosedTrade>, filled: Option<Position>)
    | Rejected(why: Refusal)

  function EntryIds(filled: Option<Position>): set<Id> {
    if filled.Some? then {filled.value.id} else {}
  }

  function ClientOrderId(w: Write): Option<string> {
    if w.Fill? then w.clientOrderId else None
  }

  function Mutate(c: Settings, s: Portfolio, w: Write): Change {
    match w
    case Fill(r, now, newId, _) =>
      var (s', outcome) := Execute(c, s, r, now, newId);
      if outcome.Refused? then Rejected(outcome.why)
      else Change(s', if outcome.reversed.Some? then [outcome.reversed.value] else [], Some(outcome.position))
    case CandleClose(k, when) =>
      var (s', closed) := CheckStops(c, s, k, when);
      Change(MarkToMarket(c, s', k.symbol, k.close, when), closed, None)
  }

  datatype Result = Done(db: Db) | Refusing(why: Refusal) | Duplicate | NotSeeded | DatabaseError

  /** The client order id is checked before anything changes; an empty id is not checked here. */
  predicate KnownClientId(db: Db, w: Write) {
    var id := ClientOrderId(w);
    id.Some? && id.value != "" && UsedClientId(db.orders, id.value)
  }

  function CommitResult(commit: Commit): Result {
    match commit
    case Committed(db) => Done(db)
    case Unseeded => NotSeeded
    case Conflict => Duplicate
    case Failed => DatabaseError
  }

  /** One write, run alone on a seeded database. */
  function WriteResult(c: Settings, db: Db, w: Write): (result: Result)
    requires db.account.Some?
    ensures result.Done? ==> result.db.account.Some? && Mutate(c, Loaded(db), w).Change?
  {
    if KnownClientId(db, w) then Duplicate else
    match Mutate(c, Loaded(db), w)
    case Rejected(why) => Refusing(why)
    case Change(s, closed, filled) => CommitResult(PersistResult(db, s, closed, EntryIds(filled), ClientOrderId(w)))
  }

  /** Reloading leaves the curve at the current equity, so a rollback to a loaded portfolio is exact. */
  lemma RollbackIsExact(db: Db, changed: Portfolio)
    requires db.account.Some? && changed.initial == Loaded(db).initial
    ensures PaperModel.RestoreSnapshot(changed, Loaded(db)) == Loaded(db)
  {
    hide LoadPositions, LoadTrades, LoadMarks, Equity;
    var s := Loaded(db);
    SnapshotRoundTrip(s);
    LastPointIsCurrent(s.initial, s.cash, s.positions, s.closed, db.account.value.curve, s.marks);
  }

  lemma LastPointIsCurrent(initial: real, cash: real, positions: seq<Position>, closed: seq<ClosedTrade>,
                           curve: seq<real>, marks: Marks)
    ensures var s := Restore(initial, cash, positions, closed, curve, marks);
            IsClose(s.curve[|s.curve| - 1], Equity(s))
  {
    hide Total;
  }

  lemma MutateKeepsInitial(c: Settings, s: Portfolio, w: Write)
    requires Mutate(c, s, w).Change?
    ensures Mutate(c, s, w).portfolio.initial == s.initial
  {
    match w
    case Fill(r, now, newId, _) =>
      ExecuteAppends(c, s, r, now, newId);
    case CandleClose(k, when) =>
      CheckExitsAppends(c, s, s.positions, k, when);
  }

  /** A fill adds at most the reversed trade to the closed trades. */
  lemma ExecuteAppends(c: Settings, s: Portfolio, r: Request, now: Time, newId: Id)
    ensures var (s', outcome) := Execute(c, s, r, now, newId);
            && s'.initial == s.initial
            && s'.closed == s.closed + (if outcome.Accepted? && outcome.reversed.Some? then [outcome.reversed.value] else [])
  {
    hide TradeOf, ExitCash, Equity, ExitFill, EntryFill, AffordableQuantity, PositionOf, Measured;
  }

  lemma {:induction false} CheckExitsAppends(c: Settings, s: Portfolio, todo: seq<Position>, k: Candle, when: Time)
    ensures var (s', closed) := CheckExits(c, s, todo, k, when);
            s'.initial == s.initial && s'.closed == s.closed + closed
    decreases |todo|
  {
    hide TradeOf, ExitCash, Equity, ExitFill, Exit;
    if todo != [] {
      CheckExitsAppends(c, s, todo[..|todo| - 1], k, when);
    }
  }

  class PaperTradingLedger {
    const engine: PaperTradingEngine
    const repository: PaperLedgerRepository

    constructor (engine: PaperTradingEngine, repository: PaperLedgerRepository)
      ensures this.engine == engine && this.repository == repository
    {
      this.engine := engine;
      this.repository := repository;
    }

    /** `fault` is a database error while persisting. Whatever fails, the engine is back at the durable state; without a
        seeded account nothing is durable, and it is back at its own snapshot. */
    method ExecuteSignal(r: Request, now: Time, newId: Id, clientOrderId: Option<string>, fault: bool)
        returns (result: Result)
      requires engine.initialCapital >= MINIMUM_CAPITAL
      modifies engine, repository
      ensures var was := old(repository.db);
              was.account.Some? ==>
                && (result == WriteResult(engine.config, was, Fill(r, now, newId, clientOrderId))
                    || (fault && result.DatabaseError?))
                && (result.Done? ==> repository.db == result.db)
                && (!result.Done? ==> engine.Contents() == Loaded(was))
      ensures !result.Done? ==> repository.db == old(repository.db)
      ensures old(repository.db).account.None? ==>
                !result.Done? && (result.DatabaseError? <==> fault && !result.Duplicate? && !result.Refusing?)
                && engine.Contents() == if result.Duplicate? then old(engine.Contents())
                                                      else PaperModel.RestoreSnapshot(old(engine.Contents()), old(engine.Contents()))
    {
      hide Execute, Loaded, UpsertAll, CloseRows, ExitOrders, EntryOrders;
      ghost var was := repository.db;
      ghost var w := Fill(r, now, newId, clientOrderId);
      var _ := repository.Hydrate(engine);
      LoadedCapital(was);
      if clientOrderId.Some? && clientOrderId.value != "" {
        var known := repository.ClientOrderIdExists(clientOrderId.value);
        if known {
          return Duplicate;
        }
      }
      var snapshot := engine.Contents();
      var closedBefore := |engine.closedTrades|;
      ExecuteAppends(engine.config, snapshot, r, now, newId);
      if was.account.Some? {
        RollbackIsExact(was, Execute(engine.config, snapshot, r, now, newId).0);
      }
      var outcome := engine.ExecuteSignal(r, now, newId);
      if outcome.Refused? {
        engine.RestoreSnapshot(snapshot);
        return Refusing(outcome.why);
      }
      var newClosed := engine.closedTrades[closedBefore..];
      var commit := repository.Persist(engine, newClosed, {outcome.position.id}, clientOrderId, fault);
      if !commit.Committed? {
        engine.RestoreSnapshot(snapshot);
      }
      result := CommitResult(commit);
    }

    method ProcessCandle(k: Candle, when: Time, fault: bool) returns (result: Result)
      requires engine.initialCapital >= MINIMUM_CAPITAL
      modifies engine, repository
      ensures var was := old(repository.db);
              was.account.Some? ==>
                && (result == WriteResult(engine.config, was, CandleClose(k, when)) || (fault && result.DatabaseError?))
                && (result.Done? ==> repository.db == result.db)
                && (!result.Done? ==> engine.Contents() == Loaded(was))
      ensures !result.Done? ==> repository.db == old(repository.db)
      ensures old(repository.db).account.None? ==>
                result == (if fault then DatabaseError else NotSeeded)
                && engine.Contents() == PaperModel.RestoreSnapshot(old(engine.Contents()), old(engine.Contents()))
    {
      hide CheckStops, PaperModel.MarkToMarket, Loaded, UpsertAll, CloseRows, ExitOrders, EntryOrders;
      ghost var was := repository.db;
      var _ := repository.Hydrate(engine);
      LoadedCapital(was);
      var snapshot := engine.Contents();
      MutateKeepsInitial(engine.config, snapshot, CandleClose(k, when));
      if was.account.Some? {
        RollbackIsExact(was, Mutate(engine.config, snapshot, CandleClose(k, when)).portfolio);
      }
      var closed := engine.CheckSlTp(k, when);
      engine.MarkToMarket(k.symbol, k.close, when);
      var commit := repository.Persist(engine, closed, {}, None, fault);
      if !commit.Committed? {
        engine.RestoreSnapshot(snapshot);
      }
      result := CommitResult(commit);
    }
  }

  lemma LoadedCapital(db: Db)
    ensures db.account.Some? ==> Loaded(db).initial >= MINIMUM_CAPITAL
  {
    hide LoadPositions, LoadTrades, LoadMarks, Equity;
  }
}
