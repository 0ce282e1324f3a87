/** Any number of processes, each with any number of tasks, sharing one paper ledger under its two locks. */
module PaperConcurrency {
  import opened Rounding
  import opened PaperModel
  import opened PaperEngine
  import opened PaperRepository
  import opened PaperLedger
  import opened PaperRoundTrip
  import opened PaperDrift
  import opened PaperOrders
  import opened PaperReload

  type Task = nat
  type Process = nat

  /** Where a task stands in a ledger operation; every arrow between phases is an await. */
  datatype Phase =
    | Idle
    | Queued(write: Write)
    | Polling(write: Write)
    | Locked(write: Write)
    | Hydrated(write: Write)
    | Checked(write: Write)
    | Changed(write: Write, snapshot: Portfolio, closed: seq<ClosedTrade>, filled: Option<Position>)
    | Unlocking
    | Releasing
    | ReadQueued
    | Reading
  {
    /** The in-process lock around the shared engine. */
    predicate HoldsCache() {
      !Idle? && !Queued? && !ReadQueued?
    }

    /** The advisory lock shared by every process. */
    predicate HoldsWriter() {
      Locked? || Hydrated? || Checked? || Changed? || Unlocking?
    }
  }

  datatype TaskState = TaskState(process: Process, config: Settings, phase: Phase)

  datatype Logged = Logged(config: Settings, write: Write)

  /** `log` is history: the committed writes in commit order. */
  datatype World = World(
    db: Db, engines: map<Process, Portfolio>, cache: map<Process, Task>, writer: Option<Task>,
    tasks: map<Task, TaskState>, log: seq<Logged>)

  datatype Event =
    | Begin(t: Task, write: Write)
    | TakeCache(t: Task)
    | GrantWriter(t: Task)
    | WriterBusy(t: Task)
    | Hydrate(t: Task)
    | CheckId(t: Task)
    | ChangeEngine(t: Task)
    | Commit(t: Task)
    | CommitUnanswered(t: Task)
    | PersistRefused(t: Task)
    | Fail(t: Task)
    | Cancel(t: Task)
    | Unlock(t: Task)
    | Release(t: Task)
    | BeginRead(t: Task)
    | ReadEngine(t: Task, seen: Portfolio)

  function Phases(w: World, t: Task): Phase
    requires t in w.tasks
  {
    w.tasks[t].phase
  }

  function Engine(w: World, t: Task): Portfolio
    requires t in w.tasks && w.tasks[t].process in w.engines
  {
    w.engines[w.tasks[t].process]
  }

  /** The transaction `t` would commit: it writes the shared engine as it stands now. */
  function Transaction(w: World, t: Task): PaperRepository.Commit
    requires t in w.tasks && w.tasks[t].process in w.engines && Phases(w, t).Changed?
  {
    var p := Phases(w, t);
    PersistResult(w.db, Engine(w, t), p.closed, EntryIds(p.filled), ClientOrderId(p.write))
  }

  ghost predicate Enabled(w: World, e: Event) {
    && e.t in w.tasks && w.tasks[e.t].process in w.engines
    && var p := Phases(w, e.t);
       match e
       case Begin(_, _) => p.Idle?
       case TakeCache(t) => (p.Queued? || p.ReadQueued?) && w.tasks[t].process !in w.cache
       case GrantWriter(_) => p.Polling? && w.writer.None?
       case WriterBusy(_) => p.Polling?
       case Hydrate(_) => p.Locked?
       case CheckId(_) => p.Hydrated?
       case ChangeEngine(_) => p.Checked? && FreshInDb(w.db, p.write)
       case Commit(t) => p.Changed? && Transaction(w, t).Committed?
       case CommitUnanswered(t) => p.Changed? && Transaction(w, t).Committed?
       case PersistRefused(t) => p.Changed? && !Transaction(w, t).Committed?
       case Fail(_) => p.Locked? || p.Hydrated? || p.Changed? || p.Reading?
       case Cancel(_) => p.HoldsCache() && !p.Releasing?
       case Unlock(_) => p.Unlocking?
       case Release(_) => p.Releasing?
       case BeginRead(_) => p.Idle?
       case ReadEngine(_, _) => p.Reading?
  }

  /** Ends the operation: the writer lock, when held, is released before the cache lock. */
  function Left(p: Phase): Phase {
    if p.HoldsWriter() then Unlocking else Releasing
  }

  function NextPhase(w: World, e: Event): Phase
    requires Enabled(w, e)
  {
    var t := e.t;
    var p := Phases(w, t);
    match e
    case Begin(_, write) => Queued(write)
    case TakeCache(_) => if p.Queued? then Polling(p.write) else Reading
    case GrantWriter(_) => Locked(p.write)
    case Hydrate(_) => Hydrated(p.write)
    case CheckId(_) => if KnownClientId(w.db, p.write) then Left(p) else Checked(p.write)
    case ChangeEngine(_) =>
      (match Mutate(w.tasks[t].config, Engine(w, t), p.write)
       case Rejected(_) => Left(p)
       case Change(_, closed, filled) => Changed(p.write, Engine(w, t), closed, filled))
    case Unlock(_) => Releasing
    case Release(_) => Idle
    case BeginRead(_) => ReadQueued
    case _ => Left(p)
  }

  /** The engine of the acting process after the step. */
  function NextEngine(w: World, e: Event): Portfolio
    requires Enabled(w, e)
  {
    var t := e.t;
    var p, s := Phases(w, t), Engine(w, t);
    match e
    case Hydrate(_) => if w.db.account.Some? then Loaded(w.db) else s
    case ChangeEngine(_) =>
      (match Mutate(w.tasks[t].config, s, p.write)
       // A refused request left the engine as it was; the ledger still puts its snapshot back.
       case Rejected(_) => PaperModel.RestoreSnapshot(s, s)
       case Change(s', _, _) => s')
    // A failed or refused write puts the snapshot back; so does one whose commit went unanswered.
    case CommitUnanswered(_) => PaperModel.RestoreSnapshot(s, p.snapshot)
    case PersistRefused(_) => PaperModel.RestoreSnapshot(s, p.snapshot)
    case Fail(_) => if p.Changed? then PaperModel.RestoreSnapshot(s, p.snapshot) else s
    // A read holds no writer lock: what it sees may mix two commits.
    case ReadEngine(_, seen) => seen
    case _ => s
  }

  predicate Commits(e: Event) {
    e.Commit? || e.CommitUnanswered?
  }

  function After(w: World, e: Event): World
    requires Enabled(w, e)
  {
    var t := e.t;
    var task := w.tasks[t];
    World(
      if Commits(e) then Transaction(w, t).db else w.db,
      w.engines[task.process := NextEngine(w, e)],
      if e.TakeCache? then w.cache[task.process := t] else if e.Release? then w.cache - {task.process} else w.cache,
      if e.GrantWriter? then Some(t) else if e.Unlock? then None else w.writer,
      w.tasks[t := task.(phase := NextPhase(w, e))],
      if Commits(e) then w.log + [Logged(task.config, task.phase.write)] else w.log)
  }

  // ---- Runs ----

  function Run(w: World, events: seq<Event>): World
    requires Legal(w, events)
    decreases |events|, 1
  {
    if events == [] then w else After(Run(w, events[..|events| - 1]), events[|events| - 1])
  }

  ghost predicate Legal(w: World, events: seq<Event>)
    decreases |events|, 0
  {
    events == []
    || (Legal(w, events[..|events| - 1]) && Enabled(Run(w, events[..|events| - 1]), events[|events| - 1]))
  }

  /** No task has started and no lock is held. */
  ghost predicate Start(w: World) {
    && w.log == [] && w.writer.None? && w.cache == map[]
    && forall t | t in w.tasks :: Phases(w, t).Idle? && w.tasks[t].process in w.engines
  }

  /** The committed writes applied one at a time to `db`; None when one of them would not have committed. */
  function Replay(db: Db, log: seq<Logged>): Option<Db> {
    if log == [] then Some(db) else
    var before, last := Replay(db, log[..|log| - 1]), log[|log| - 1];
    if before.None? || before.value.account.None? then None else
    match WriteResult(last.config, before.value, last.write)
    case Done(db') => Some(db')
    case _ => None
  }

  // ---- The invariant ----

  /** Each lock has one owner, and the owner's phase says so. */
  ghost predicate LocksOwned(w: World) {
    && (forall t | t in w.tasks :: w.tasks[t].process in w.engines)
    && (forall t | t in w.tasks :: CacheOwned(w, t) && WriterOwned(w, t))
  }

  ghost predicate WriterOwned(w: World, t: Task)
    requires t in w.tasks
  {
    Phases(w, t).HoldsWriter() <==> w.writer == Some(t)
  }

  ghost predicate CacheOwned(w: World, t: Task)
    requires t in w.tasks
  {
    Phases(w, t).HoldsCache() <==> w.tasks[t].process in w.cache && w.cache[w.tasks[t].process] == t
  }

  /** Between hydrate and persist, the base a task works from is still the database. */
  ghost predicate BaseIsCurrent(w: World) {
    forall t | t in w.tasks && w.db.account.Some? && w.tasks[t].process in w.engines :: TaskIsCurrent(w, t)
  }

  ghost predicate TaskIsCurrent(w: World, t: Task)
    requires t in w.tasks && w.db.account.Some? && w.tasks[t].process in w.engines
  {
    var p := Phases(w, t);
    && (p.Hydrated? || p.Checked? ==> Engine(w, t) == Loaded(w.db))
    && (p.Checked? || p.Changed? ==> !KnownClientId(w.db, p.write))
    && (p.Changed? ==> p.snapshot == Loaded(w.db) && FreshInDb(w.db, p.write)
                       && Mutate(w.tasks[t].config, Loaded(w.db), p.write) == Change(Engine(w, t), p.closed, p.filled))
  }

  /** What a step does to its own task's locks. */
  lemma StepLocks(w: World, e: Event)
    requires Enabled(w, e)
    ensures NextPhase(w, e).HoldsCache() <==> !e.Release? && (e.TakeCache? || Phases(w, e.t).HoldsCache())
    ensures NextPhase(w, e).HoldsWriter() <==> !e.Unlock? && (e.GrantWriter? || Phases(w, e.t).HoldsWriter())
  {
    hide Mutate, Loaded, PersistResult, KnownClientId, FreshInDb;
  }

  lemma StepKeepsOwner(w: World, e: Event, t: Task)
    requires Enabled(w, e) && LocksOwned(w) && t in w.tasks
    ensures CacheOwned(After(w, e), t) && WriterOwned(After(w, e), t)
  {
    hide NextPhase, NextEngine, PersistResult, FreshInDb, Mutate, Loaded;
    assert CacheOwned(w, t) && CacheOwned(w, e.t) && WriterOwned(w, t) && WriterOwned(w, e.t);
    StepLocks(w, e);
  }

  lemma StepKeepsLocks(w: World, e: Event)
    requires Enabled(w, e) && LocksOwned(w)
    ensures LocksOwned(After(w, e))
  {
    hide NextPhase, NextEngine, PersistResult, FreshInDb, Mutate, Loaded, CacheOwned, WriterOwned;
    forall t | t in After(w, e).tasks
      ensures CacheOwned(After(w, e), t) && WriterOwned(After(w, e), t)
    {
      StepKeepsOwner(w, e, t);
    }
  }

  lemma OutsiderKeepsEngine(w: World, e: Event)
    requires Enabled(w, e) && !Phases(w, e.t).HoldsCache()
    ensures NextEngine(w, e) == Engine(w, e.t)
  {
    hide Mutate, Loaded, PersistResult, PaperModel.RestoreSnapshot, FreshInDb, KnownClientId;
  }

  /** A task holding neither lock's critical section cannot touch the engine of one that does. */
  lemma OthersKeepBase(w: World, e: Event, t: Task)
    requires Enabled(w, e) && LocksOwned(w) && BaseIsCurrent(w) && w.db.account.Some?
    requires t in w.tasks && t != e.t && w.db == After(w, e).db
    ensures TaskIsCurrent(After(w, e), t)
  {
    hide Mutate, Loaded, PersistResult, PaperModel.RestoreSnapshot, FreshInDb, KnownClientId, NextPhase, NextEngine;
    var p := Phases(w, t);
    assert TaskIsCurrent(w, t);
    if p.Hydrated? || p.Checked? || p.Changed? {
      if w.tasks[e.t].process == w.tasks[t].process {
        OneOwnerPerCache(w, e.t, t);
        OutsiderKeepsEngine(w, e);
      }
    }
  }

  lemma OneOwnerPerCache(w: World, t: Task, u: Task)
    requires LocksOwned(w) && t in w.tasks && u in w.tasks && t != u && w.tasks[t].process == w.tasks[u].process
    requires Phases(w, u).HoldsCache()
    ensures !Phases(w, t).HoldsCache()
  {
    assert CacheOwned(w, t) && CacheOwned(w, u);
  }

  lemma OwnStepKeepsBase(w: World, e: Event)
    requires Enabled(w, e) && LocksOwned(w) && BaseIsCurrent(w) && w.db.account.Some?
    ensures After(w, e).db.account.Some? ==> TaskIsCurrent(After(w, e), e.t)
  {
    hide Mutate, Loaded, PersistResult, PaperModel.RestoreSnapshot, FreshInDb, KnownClientId;
    assert TaskIsCurrent(w, e.t);
  }

  /** A commit finds no other task between hydrate and persist. */
  lemma CommitIsAlone(w: World, e: Event, t: Task)
    requires Enabled(w, e) && LocksOwned(w) && (Commits(e))
    requires t in w.tasks && t != e.t
    ensures !Phases(w, t).HoldsWriter()
  {
  }

  lemma UnseededNeverCommits(w: World, e: Event)
    requires Enabled(w, e)
    ensures w.db.account.None? ==> !Commits(e)
  {
    hide UpsertAll, CloseRows, EntryOrders, ExitOrders;
  }

  lemma OutsideIsCurrent(w: World, t: Task)
    requires t in w.tasks && w.db.account.Some? && w.tasks[t].process in w.engines && !Phases(w, t).HoldsWriter()
    ensures TaskIsCurrent(w, t)
  {
    hide Loaded, Mutate, KnownClientId, FreshInDb;
  }

  lemma StepKeepsBase(w: World, e: Event)
    requires Enabled(w, e) && LocksOwned(w) && BaseIsCurrent(w)
    ensures BaseIsCurrent(After(w, e))
  {
    hide NextPhase, NextEngine, PersistResult, FreshInDb, Mutate, Loaded, TaskIsCurrent, CacheOwned, KnownClientId;
    UnseededNeverCommits(w, e);
    forall t | t in After(w, e).tasks && After(w, e).db.account.Some? && After(w, e).tasks[t].process in After(w, e).engines
      ensures TaskIsCurrent(After(w, e), t)
    {
      if t == e.t {
        OwnStepKeepsBase(w, e);
      } else if Commits(e) {
        CommitIsAlone(w, e, t);
        OutsideIsCurrent(After(w, e), t);
      } else {
        OthersKeepBase(w, e, t);
      }
    }
  }

  // ---- No committed write is lost ----

  /** What a task commits is its write applied alone to the current database. */
  lemma CommitIsOneWrite(w: World, e: Event)
    requires Enabled(w, e) && Commits(e) && BaseIsCurrent(w)
    ensures w.db.account.Some? && After(w, e).db.account.Some?
    ensures var p := Phases(w, e.t);
            && WriteResult(w.tasks[e.t].config, w.db, p.write) == Done(After(w, e).db)
            && FreshInDb(w.db, p.write)
  {
    hide Loaded, Mutate, UpsertAll, CloseRows, EntryOrders, ExitOrders, NextEngine, NextPhase;
    assert TaskIsCurrent(w, e.t);
  }

  lemma ReplayOneMore(db: Db, log: seq<Logged>, last: Logged)
    requires Replay(db, log).Some? && Replay(db, log).value.account.Some?
    ensures Replay(db, log + [last])
            == match WriteResult(last.config, Replay(db, log).value, last.write) case Done(db') => Some(db') case _ => None
  {
    hide WriteResult;
    assert (log + [last])[..|log|] == log;
  }

  /** In every interleaving the durable state is the committed writes applied one at a time, in commit order. */
  lemma {:induction false} RunIsSerial(w: World, events: seq<Event>)
    requires Start(w) && Legal(w, events)
    ensures LocksOwned(Run(w, events)) && BaseIsCurrent(Run(w, events))
    ensures Replay(w.db, Run(w, events).log) == Some(Run(w, events).db)
    decreases |events|
  {
    if events == [] {
      hide TaskIsCurrent, Replay;
      StartIsCurrent(w);
      assert Replay(w.db, []) == Some(w.db) by {
        EmptyReplay(w.db);
      }
    } else {
      var front, e := events[..|events| - 1], events[|events| - 1];
      RunIsSerial(w, front);
      var mid := Run(w, front);
      hide After, Enabled, LocksOwned, BaseIsCurrent, Replay, WriteResult, Start;
      StepIsSerial(w.db, mid, e);
    }
  }

  lemma EmptyReplay(db: Db)
    ensures Replay(db, []) == Some(db)
  {
  }

  lemma StartIsCurrent(w: World)
    requires Start(w)
    ensures LocksOwned(w) && BaseIsCurrent(w)
  {
    hide Loaded, Mutate, KnownClientId, FreshInDb;
  }

  lemma StepIsSerial(db: Db, w: World, e: Event)
    requires Enabled(w, e) && LocksOwned(w) && BaseIsCurrent(w) && Replay(db, w.log) == Some(w.db)
    ensures LocksOwned(After(w, e)) && BaseIsCurrent(After(w, e))
    ensures Replay(db, After(w, e).log) == Some(After(w, e).db)
  {
    hide LocksOwned, BaseIsCurrent, Replay, WriteResult, NextEngine, NextPhase, PersistResult, FreshInDb;
    StepKeepsLocks(w, e);
    StepKeepsBase(w, e);
    if Commits(e) {
      CommitIsOneWrite(w, e);
      ReplayOneMore(db, w.log, Logged(w.tasks[e.t].config, Phases(w, e.t).write));
    }
  }

  /** Two tasks are never both between taking and giving back the writer lock. */
  lemma WritersExclude(w: World, events: seq<Event>, t: Task, u: Task)
    requires Start(w) && Legal(w, events)
    requires var end := Run(w, events);
             t in end.tasks && u in end.tasks && Phases(end, t).HoldsWriter() && Phases(end, u).HoldsWriter()
    ensures t == u
  {
    RunIsSerial(w, events);
  }

  /** A write that times out, is refused or fails leaves the database as it was and the engine at the durable state. */
  lemma FailureLeavesNoTrace(w: World, e: Event)
    requires Enabled(w, e) && BaseIsCurrent(w) && w.db.account.Some?
    requires e.WriterBusy? || e.PersistRefused? || (e.Fail? && Phases(w, e.t).Changed?)
             || (e.ChangeEngine? && !NextPhase(w, e).Changed?)
    ensures After(w, e).db == w.db && After(w, e).log == w.log
    ensures if e.WriterBusy? then After(w, e).engines == w.engines else Engine(After(w, e), e.t) == Loaded(w.db)
  {
    hide Loaded, Mutate, PersistResult, FreshInDb, KnownClientId;
    assert TaskIsCurrent(w, e.t);
    if Phases(w, e.t).Changed? {
      MutateKeepsInitial(w.tasks[e.t].config, Loaded(w.db), Phases(w, e.t).write);
      RollbackIsExact(w.db, Engine(w, e.t));
    } else if e.ChangeEngine? {
      RollbackIsExact(w.db, Loaded(w.db));
    }
  }

  /** A commit whose answer is lost still counts: the write is in the database and the log, and only the cache of its process
      goes back to what was durable before, until the next write loads it. */
  lemma LostAnswerIsCommitted(w: World, e: Event)
    requires Enabled(w, e) && BaseIsCurrent(w) && e.CommitUnanswered?
    ensures w.db.account.Some? && WriteResult(w.tasks[e.t].config, w.db, Phases(w, e.t).write) == Done(After(w, e).db)
    ensures After(w, e).log == w.log + [Logged(w.tasks[e.t].config, Phases(w, e.t).write)]
    ensures Engine(After(w, e), e.t) == Loaded(w.db)
  {
    CommitIsOneWrite(w, e);
    hide Loaded, Mutate, PersistResult, FreshInDb, KnownClientId, WriteResult;
    assert TaskIsCurrent(w, e.t);
    MutateKeepsInitial(w.tasks[e.t].config, Loaded(w.db), Phases(w, e.t).write);
    RollbackIsExact(w.db, Engine(w, e.t));
  }

  // ---- What every run keeps ----

  /** Cash moved by the recorded fills and closures of the committed writes. */
  function Flows(db: Db, log: seq<Logged>): real
    requires Replay(db, log).Some?
  {
    if log == [] then 0.0 else
    var front, last := log[..|log| - 1], log[|log| - 1];
    Flows(db, front) + Flow(Mutate(last.config, Loaded(Replay(db, front).value), last.write))
  }

  /** The durable ledger of a run that started from `db` and committed `log`. */
  ghost predicate Sound(db: Db, log: seq<Logged>, now: Db) {
    && db.account.Some? && now.account.Some? && Replay(db, log) == Some(now)
    && OneRowPerSymbol(now)
    && UniqueClientIds(now.orders)
    && (Nonnegative(db) ==> Nonnegative(now))
    && Abs(now.account.value.cash - db.account.value.cash - Flows(db, log)) <= 0.005 * |log| as real
  }

  lemma CommitStaysSound(db: Db, log: seq<Logged>, now: Db, last: Logged)
    requires Sound(db, log, now) && FreshInDb(now, last.write)
    requires WriteResult(last.config, now, last.write).Done?
    ensures Sound(db, log + [last], WriteResult(last.config, now, last.write).db)
  {
    hide WriteResult, Mutate, Loaded, OneRowPerSymbol, UniqueClientIds, FreshInDb, Flow, Nonnegative;
    ReplayOneMore(db, log, last);
    WriteKeepsDb(last.config, now, last.write);
    WriteKeepsClientIds(last.config, now, last.write);
    if Nonnegative(now) {
      WriteKeepsQuantities(last.config, now, last.write);
    }
    WriteDrifts(last.config, now, last.write);
    FlowsOneMore(db, log, last);
    assert 0.005 * |log + [last]| as real == 0.005 * |log| as real + 0.005;
  }

  lemma FlowsOneMore(db: Db, log: seq<Logged>, last: Logged)
    requires Replay(db, log).Some? && Replay(db, log + [last]).Some?
    ensures Replay(db, log).value.account.Some?
            && WriteResult(last.config, Replay(db, log).value, last.write).Done?
            && Flows(db, log + [last])
               == Flows(db, log) + Flow(Mutate(last.config, Loaded(Replay(db, log).value), last.write))
  {
    hide WriteResult, Mutate, Loaded, Flow;
    assert (log + [last])[..|log|] == log;
  }

  /** Over every run: one open row per symbol, no client order id on two orders, no negative quantity, half a cent of
      drift per write. */
  lemma {:induction false} RunStaysSound(w: World, events: seq<Event>)
    requires Start(w) && Legal(w, events)
    requires w.db.account.Some? && OneRowPerSymbol(w.db) && UniqueClientIds(w.db.orders)
    ensures Sound(w.db, Run(w, events).log, Run(w, events).db)
    decreases |events|
  {
    if events == [] {
      hide OneRowPerSymbol, UniqueClientIds, Nonnegative;
      EmptyReplay(w.db);
    } else {
      var front, e := events[..|events| - 1], events[|events| - 1];
      RunStaysSound(w, front);
      RunIsSerial(w, front);
      var mid := Run(w, front);
      hide Enabled, LocksOwned, BaseIsCurrent, Replay, WriteResult, Sound, NextEngine, NextPhase, PersistResult;
      if Commits(e) {
        CommitIsOneWrite(mid, e);
        CommitStaysSound(w.db, mid.log, mid.db, Logged(mid.tasks[e.t].config, Phases(mid, e.t).write));
      }
    }
  }

  // ---- Client order ids over a run ----

  /** Every id a committed fill carried is on an order for good, was on none at the start, and was never carried before. */
  ghost predicate IdsSpent(db: Db, log: seq<Logged>, now: Db) {
    && (forall id | UsedClientId(db.orders, id) :: UsedClientId(now.orders, id))
    && (forall i | 0 <= i < |log| && ClientOrderId(log[i].write).Some? ::
          var id := ClientOrderId(log[i].write).value; UsedClientId(now.orders, id) && !UsedClientId(db.orders, id))
    && (forall i, j | 0 <= i < j < |log| && ClientOrderId(log[i].write).Some? ::
          ClientOrderId(log[i].write) != ClientOrderId(log[j].write))
  }

  lemma StillUsed(before: seq<OrderRow>, after: seq<OrderRow>, id: string)
    requires |before| <= |after| && after[..|before|] == before && UsedClientId(before, id)
    ensures UsedClientId(after, id)
  {
    var i :| 0 <= i < |before| && before[i].clientOrderId == Some(id);
    assert after[..|before|][i] == after[i];
  }

  /** A committed write keeps every used id used, and uses its own, which was not. */
  lemma WriteSpendsItsId(c: Settings, db: Db, w: Write)
    requires db.account.Some? && OneRowPerSymbol(db) && FreshInDb(db, w) && WriteResult(c, db, w).Done?
    ensures var after := WriteResult(c, db, w).db.orders;
            && (forall id | UsedClientId(db.orders, id) :: UsedClientId(after, id))
            && (ClientOrderId(w).Some? ==>
                  !UsedClientId(db.orders, ClientOrderId(w).value) && UsedClientId(after, ClientOrderId(w).value))
  {
    hide WriteResult, Mutate, Loaded, OneRowPerSymbol, UsedClientId;
    WriteRecordsOrders(c, db, w);
    var after := WriteResult(c, db, w).db.orders;
    forall id | UsedClientId(db.orders, id)
      ensures UsedClientId(after, id)
    {
      StillUsed(db.orders, after, id);
    }
    if ClientOrderId(w).Some? {
      UsedAt(after, |db.orders|);
    }
  }

  lemma UsedAt(orders: seq<OrderRow>, i: nat)
    requires i < |orders| && orders[i].clientOrderId.Some?
    ensures UsedClientId(orders, orders[i].clientOrderId.value)
  {
  }

  lemma CommitSpendsId(db: Db, log: seq<Logged>, now: Db, last: Logged)
    requires now.account.Some? && OneRowPerSymbol(now) && FreshInDb(now, last.write) && IdsSpent(db, log, now)
    requires WriteResult(last.config, now, last.write).Done?
    ensures IdsSpent(db, log + [last], WriteResult(last.config, now, last.write).db)
  {
    hide WriteResult, OneRowPerSymbol, FreshInDb, UsedClientId, ClientOrderId;
    WriteSpendsItsId(last.config, now, last.write);
  }

  /** In every interleaving each client order id commits at most one fill, and never one that was used before the run. */
  lemma {:induction false} NoIdCommitsTwice(w: World, events: seq<Event>)
    requires Start(w) && Legal(w, events)
    requires w.db.account.Some? && OneRowPerSymbol(w.db) && UniqueClientIds(w.db.orders)
    ensures IdsSpent(w.db, Run(w, events).log, Run(w, events).db)
    decreases |events|
  {
    if events != [] {
      var front, e := events[..|events| - 1], events[|events| - 1];
      NoIdCommitsTwice(w, front);
      RunStaysSound(w, front);
      RunIsSerial(w, front);
      var mid := Run(w, front);
      hide Enabled, LocksOwned, BaseIsCurrent, Replay, WriteResult, IdsSpent, NextEngine, NextPhase, PersistResult;
      if Commits(e) {
        CommitIsOneWrite(mid, e);
        CommitSpendsId(w.db, mid.log, mid.db, Logged(mid.tasks[e.t].config, Phases(mid, e.t).write));
      }
    }
  }

  // ---- Progress ----

  lemma OneMoreEvent(w: World, events: seq<Event>, e: Event)
    requires Legal(w, events) && Enabled(Run(w, events), e)
    ensures Legal(w, events + [e]) && Run(w, events + [e]) == After(Run(w, events), e)
  {
    hide After, Enabled;
    assert (events + [e])[..|events|] == events;
  }

  lemma NothingRun(w: World)
    ensures Legal(w, []) && Run(w, []) == w
  {
  }

  /** Nothing stands in the way of `t`: it is idle, and the locks it needs are free. */
  ghost predicate CanStart(w: World, t: Task) {
    && t in w.tasks && w.tasks[t].process in w.engines && Phases(w, t).Idle?
    && w.tasks[t].process !in w.cache && w.writer.None? && w.db.account.Some?
  }

  /** Only the progress of `t` tells `now` from `w`: it holds both locks, and its process has `engine`. */
  ghost predicate Busy(w: World, now: World, t: Task, phase: Phase, engine: Portfolio) {
    && t in w.tasks && w.tasks[t].process in w.engines
    && now == w.(engines := w.engines[w.tasks[t].process := engine], cache := w.cache[w.tasks[t].process := t],
                 writer := Some(t), tasks := w.tasks[t := w.tasks[t].(phase := phase)])
  }

  lemma Acquires(w: World, t: Task, write: Write) returns (events: seq<Event>)
    requires CanStart(w, t)
    ensures Legal(w, events) && Busy(w, Run(w, events), t, Locked(write), Engine(w, t))
    ensures events == [Begin(t, write)] + [TakeCache(t)] + [GrantWriter(t)]
  {
    hide Run, Legal, Mutate, Loaded, PersistResult, FreshInDb;
    NothingRun(w);
    assert [] + [Begin(t, write)] == [Begin(t, write)];
    OneMoreEvent(w, [], Begin(t, write));
    OneMoreEvent(w, [Begin(t, write)], TakeCache(t));
    events := [Begin(t, write)] + [TakeCache(t)];
    OneMoreEvent(w, events, GrantWriter(t));
    events := events + [GrantWriter(t)];
  }

  lemma Prepares(w: World, t: Task, write: Write, events: seq<Event>) returns (more: seq<Event>)
    requires CanStart(w, t) && Legal(w, events) && Busy(w, Run(w, events), t, Locked(write), Engine(w, t))
    requires !KnownClientId(w.db, write)
    ensures more == events + [Hydrate(t)] + [CheckId(t)]
    ensures Legal(w, more) && Busy(w, Run(w, more), t, Checked(write), Loaded(w.db))
  {
    hide Run, Legal, Mutate, Loaded, PersistResult, FreshInDb, KnownClientId;
    OneMoreEvent(w, events, Hydrate(t));
    more := events + [Hydrate(t)];
    OneMoreEvent(w, more, CheckId(t));
    more := more + [CheckId(t)];
  }

  lemma Changes(w: World, t: Task, write: Write, events: seq<Event>) returns (more: seq<Event>)
    requires CanStart(w, t) && Legal(w, events) && Busy(w, Run(w, events), t, Checked(write), Loaded(w.db))
    requires FreshInDb(w.db, write) && Mutate(w.tasks[t].config, Loaded(w.db), write).Change?
    ensures more == events + [ChangeEngine(t)]
    ensures var change := Mutate(w.tasks[t].config, Loaded(w.db), write);
            Legal(w, more)
            && Busy(w, Run(w, more), t, Changed(write, Loaded(w.db), change.closed, change.filled), change.portfolio)
  {
    hide Run, Legal, Mutate, Loaded, PersistResult, FreshInDb, KnownClientId;
    OneMoreEvent(w, events, ChangeEngine(t));
    more := events + [ChangeEngine(t)];
  }

  lemma Writes(w: World, t: Task, write: Write, change: Change, db': Db, events: seq<Event>) returns (more: seq<Event>)
    requires CanStart(w, t) && Legal(w, events) && change.Change?
    requires Busy(w, Run(w, events), t, Changed(write, Loaded(w.db), change.closed, change.filled), change.portfolio)
    requires PersistResult(w.db, change.portfolio, change.closed, EntryIds(change.filled), ClientOrderId(write)) == Committed(db')
    ensures more == events + [Commit(t)] && Legal(w, more)
    ensures var after := w.(db := db', log := w.log + [Logged(w.tasks[t].config, write)]);
            Busy(after, Run(w, more), t, Unlocking, change.portfolio)
  {
    hide Run, Legal, Mutate, Loaded, PersistResult, FreshInDb, KnownClientId;
    OneMoreEvent(w, events, Commit(t));
    more := events + [Commit(t)];
  }

  lemma GivesBack(w: World, after: World, t: Task, engine: Portfolio, events: seq<Event>) returns (more: seq<Event>)
    requires CanStart(after, t) && Legal(w, events) && Busy(after, Run(w, events), t, Unlocking, engine)
    ensures more == events + [Unlock(t)] + [Release(t)] && Legal(w, more)
    ensures Run(w, more) == after.(engines := after.engines[after.tasks[t].process := engine])
  {
    hide Run, Legal, Mutate, Loaded, PersistResult, FreshInDb, KnownClientId;
    OneMoreEvent(w, events, Unlock(t));
    more := events + [Unlock(t)];
    OneMoreEvent(w, more, Release(t));
    more := more + [Release(t)];
    assert after.tasks[t := after.tasks[t].(phase := Idle)] == after.tasks;
    assert after.cache[after.tasks[t].process := t] - {after.tasks[t].process} == after.cache;
  }

  /** Nothing keeps a write that would commit alone from committing: undisturbed, its steps lead to its result, and leave both
      locks free. */
  lemma UndisturbedWriteCommits(w: World, t: Task, write: Write) returns (events: seq<Event>)
    requires CanStart(w, t) && FreshInDb(w.db, write) && WriteResult(w.tasks[t].config, w.db, write).Done?
    ensures events == [Begin(t, write)] + [TakeCache(t)] + [GrantWriter(t)] + [Hydrate(t)] + [CheckId(t)]
                      + [ChangeEngine(t)] + [Commit(t)] + [Unlock(t)] + [Release(t)]
    ensures Legal(w, events)
    ensures var end := Run(w, events);
            && Done(end.db) == WriteResult(w.tasks[t].config, w.db, write)
            && end.log == w.log + [Logged(w.tasks[t].config, write)]
            && end.tasks == w.tasks && end.cache == w.cache && end.writer.None?
  {
    hide Run, Legal, Mutate, Loaded, PersistResult, FreshInDb, KnownClientId, Busy, CanStart;
    assert t in w.tasks && w.db.account.Some? && w.writer.None? by {
      StartFields(w, t);
    }
    events := Acquires(w, t, write);
    events := Prepares(w, t, write, events);
    events := Changes(w, t, write, events);
    var change, db' := Mutate(w.tasks[t].config, Loaded(w.db), write), WriteResult(w.tasks[t].config, w.db, write).db;
    events := Writes(w, t, write, change, db', events);
    var after := w.(db := db', log := w.log + [Logged(w.tasks[t].config, write)]);
    assert CanStart(after, t) by {
      StillStarts(w, after, t);
    }
    events := GivesBack(w, after, t, change.portfolio, events);
  }

  lemma StillStarts(w: World, after: World, t: Task)
    requires CanStart(w, t) && after.db.account.Some? && after == w.(db := after.db, log := after.log)
    ensures CanStart(after, t)
  {
  }

  lemma StartFields(w: World, t: Task)
    requires CanStart(w, t)
    ensures t in w.tasks && w.db.account.Some? && w.writer.None?
  {
  }
}
