/** The fallback chain over models. */
module Router {
  import opened Rounding
  import opened Clocks
  import opened CircuitBreaker
  import opened Retry

  datatype ErrorKind = BreakerWasOpen | QueueFull | LocalModelBusy | ErrorResponse | RetryFailed(error: Error)
                     | OpenedWhileRetrying | NoAttempt | SchemaError | Unhandled

  datatype ErrorEntry = ErrorEntry(model: string, fallback: bool, kind: ErrorKind)

  datatype Payload = NoPayload | Answer(response: Response) | Exhausted(model: string)

  datatype RouterResult = RouterResult(success: bool, payload: Payload, parsed: Option<string>, modelUsed: string,
                                       attempts: nat, fallbackUsed: bool, degraded: bool, errors: seq<ErrorEntry>,
                                       schemaCorrections: nat)

  /** Validation of JSON text against the requested schema, when there is one. */
  type Schema = Option<string -> bool>

  function Validated(schema: string -> bool, response: Response): Option<string> {
    match response.content
    case None => None
    case Some(text) => if text != "" && schema(text) then Some(text) else None
  }

  const LOCAL_MODEL_PREFIX := "local/"

  predicate IsLocal(model: string) {
    LOCAL_MODEL_PREFIX <= model
  }

  lemma LocalByPrefix(model: string)
    ensures IsLocal(model) <==> |model| >= 6 && model[..6] == "local/"
  {
  }

  datatype Admission = Granted | Refused | Crashed

  /** What the rate-limit queue and the local-model gate answer; any answer is possible. */
  class Controls {
    /** Local slots this execution holds. */
    var held: nat
    /** Every answer of the queue and of the gate. */
    ghost var queue: seq<Admission>
    ghost var local: seq<Admission>

    constructor ()
      ensures held == 0 && queue == [] && local == []
    {
      held, queue, local := 0, [], [];
    }

    /** Refused is the queue-full RuntimeError, Crashed any other exception. */
    method AcquireQueue(clock: Clock) returns (a: Admission)
      modifies this`queue, clock
      ensures clock.time >= old(clock.time) && queue == old(queue) + [a]
    {
      a := *;
      queue := queue + [a];
      var wait: real := *;
      clock.Sleep(wait);
    }

    method AcquireLocal(clock: Clock) returns (a: Admission)
      modifies this`held, this`local, clock
      ensures clock.time >= old(clock.time) && local == old(local) + [a]
      ensures held == old(held) + if a.Granted? then 1 else 0
    {
      a := *;
      local := local + [a];
      var wait: real := *;
      clock.Sleep(wait);
      if a.Granted? {
        held := held + 1;
      }
    }

    method ReleaseLocal()
      requires held > 0
      modifies this`held
      ensures held == old(held) - 1
    {
      held := held - 1;
    }
  }

  class CircuitBreakerRegistry {
    var breakers: map<string, ModelCircuitBreaker>

    ghost predicate Valid()
      reads this, breakers.Values
    {
      forall m | m in breakers :: breakers[m].Valid()
    }

    constructor ()
      ensures Valid() && breakers == map[]
    {
      breakers := map[];
    }

    /** Limits apply on creation only; a live breaker keeps its state. */
    method GetOrRegister(model: string, threshold: int, reset: real) returns (b: ModelCircuitBreaker)
      requires Valid()
      modifies this
      ensures Valid() && model in breakers && b == breakers[model]
      ensures if model in old(breakers) then breakers == old(breakers)
              else fresh(b) && breakers == old(breakers)[model := b] && b.threshold == threshold && b.resetSeconds == reset
    {
      if model !in breakers {
        b := new ModelCircuitBreaker(threshold, reset);
        breakers := breakers[model := b];
      } else {
        b := breakers[model];
      }
    }
  }

  /** What one model's turn came to. */
  datatype Verdict = Answered(response: Response, parsed: Option<string>, attempts: nat) | Rejected(kind: ErrorKind)

  /** The trace of one model's turn: whether the breaker was open, what the queue and the local gate answered, the retried
      calls, the corrective call if one went out, and whether one was due. */
  datatype Turn = Turn(open: bool, queue: seq<Admission>, local: seq<Admission>, retried: seq<CallResult>,
                       corrective: seq<CallResult>, corrected: bool)

  /** The content is there, not empty, and fits the schema. */
  ghost predicate Meets(schema: string -> bool, response: Response) {
    response.content.Some? && response.content.value != "" && schema(response.content.value)
  }

  ghost predicate Unanswered(schema: Schema, retried: seq<CallResult>) {
    schema.Some? && retried != [] && retried[|retried| - 1].Returned?
    && !Meets(schema.value, retried[|retried| - 1].response)
  }

  /** Where an answer's parsed result comes from. */
  ghost predicate ParsedFrom(parsed: Option<string>, response: Response, t: Turn, schema: Schema) {
    match schema
    case None => parsed.None?
    case Some(valid) =>
      if !t.corrected then Meets(valid, response) && parsed == response.content
      else t.corrective != [] && t.corrective[0].Returned?
           && Meets(valid, t.corrective[0].response) && parsed == t.corrective[0].response.content
  }

  ghost predicate Warranted(kind: ErrorKind, t: Turn, maxRetries: int) {
    match kind
    case SchemaError => t.corrected
    case RetryFailed(e) => t.retried != [] && t.retried[|t.retried| - 1] == Raised(e) && !e.EnvelopeError?
    case ErrorResponse =>
      t.retried != [] && t.retried[|t.retried| - 1].Raised? && t.retried[|t.retried| - 1].error.EnvelopeError?
    case OpenedWhileRetrying => AllTransient(t.retried)
    case NoAttempt => maxRetries < 0
    case _ => false
  }

  /** A correction is due exactly when a schema was asked for and the retried call's answer misses it; the corrective call
      goes out exactly when the queue then grants a slot, and its answer is the only other source of a parsed result. */
  ghost predicate Called(v: Verdict, t: Turn, schema: Schema, maxRetries: int) {
    && |t.retried| <= Max0(maxRetries + 1) && |t.corrective| <= 1
    && t.corrected == Unanswered(schema, t.retried)
    && t.local == [] && !t.open && |t.queue| == (if t.corrected then 1 else 0)
    && (t.corrective != [] <==> t.corrected && t.queue[0].Granted?)
    && match v
       case Answered(response, parsed, attempts) =>
         t.retried != [] && t.retried[|t.retried| - 1] == Returned(response) && attempts == |t.retried|
         && ParsedFrom(parsed, response, t, schema)
       case Rejected(kind) => Warranted(kind, t, maxRetries)
  }

  /** Nothing was sent. */
  ghost predicate Silent(t: Turn) {
    t.retried == [] && t.corrective == [] && !t.corrected
  }

  /** A turn goes through its controls in order, the breaker, the queue, and the gate of a local model; each that refuses
      ends it with its own error and nothing sent, and otherwise the model is called. */
  ghost predicate Accounted(v: Verdict, t: Turn, model: string, schema: Schema, maxRetries: int) {
    if t.open then
      Silent(t) && t.queue == [] && t.local == [] && v == Rejected(BreakerWasOpen)
    else
      && t.queue != []
      && if !t.queue[0].Granted? then
           Silent(t) && |t.queue| == 1 && t.local == [] && v == Rejected(if t.queue[0].Refused? then QueueFull else Unhandled)
         else
           && |t.local| == (if IsLocal(model) then 1 else 0)
           && if IsLocal(model) && !t.local[0].Granted? then
                Silent(t) && |t.queue| == 1 && v == Rejected(if t.local[0].Refused? then LocalModelBusy else Unhandled)
              else Called(v, t.(queue := t.queue[1..], local := []), schema, maxRetries)
  }

  /** Everything sent to the provider, turn by turn. */
  function Transcript(chain: seq<string>, turns: seq<Turn>): seq<Sent>
    requires |turns| <= |chain|
  {
    if turns == [] then [] else
    var last := turns[|turns| - 1];
    Transcript(chain, turns[..|turns| - 1]) + Labelled(chain[|turns| - 1], last.retried + last.corrective)
  }

  /** The answers of the queue, then of the gate, turn by turn. */
  function Answers(turns: seq<Turn>): (seq<Admission>, seq<Admission>) {
    if turns == [] then ([], []) else
    var front, last := Answers(turns[..|turns| - 1]), turns[|turns| - 1];
    (front.0 + last.queue, front.1 + last.local)
  }

  function Corrections(turns: seq<Turn>): nat {
    if turns == [] then 0 else Corrections(turns[..|turns| - 1]) + if turns[|turns| - 1].corrected then 1 else 0
  }

  ghost predicate Justified(e: ErrorEntry, t: Turn, model: string, fallback: bool, schema: Schema, maxRetries: int) {
    e.model == model && e.fallback == fallback && Accounted(Rejected(e.kind), t, model, schema, maxRetries)
  }

  /** One error per rejected model, in chain order. */
  ghost predicate Rejections(errors: seq<ErrorEntry>, turns: seq<Turn>, chain: seq<string>, schema: Schema, maxRetries: int) {
    |errors| <= |turns| && |errors| <= |chain|
    && forall j | 0 <= j < |errors| :: Justified(errors[j], turns[j], chain[j], j > 0, schema, maxRetries)
  }

  /** Success at model i follows exactly the errors of models 0 .. i - 1; exhaustion follows one error per model. */
  ghost predicate Traced(r: RouterResult, turns: seq<Turn>, chain: seq<string>, schema: Schema, maxRetries: int) {
    && Rejections(r.errors, turns, chain, schema, maxRetries)
    && r.schemaCorrections == Corrections(turns)
    && if r.success then
         && |turns| == |r.errors| + 1 <= |chain|
         && r.modelUsed == chain[|r.errors|] && (r.fallbackUsed <==> r.errors != []) && !r.degraded
         && r.payload.Answer?
         && Accounted(Answered(r.payload.response, r.parsed, r.attempts), turns[|r.errors|], chain[|r.errors|], schema, maxRetries)
       else
         && |turns| == |r.errors| == |chain| && r.degraded
         && r.payload == Exhausted(if chain == [] then "none" else chain[|chain| - 1])
         && r.modelUsed == "" && r.parsed.None? && r.attempts == 0 && !r.fallbackUsed
  }

  lemma {:induction false} TurnsAreBounded(chain: seq<string>, turns: seq<Turn>, perModel: nat)
    requires |turns| <= |chain| && forall j | 0 <= j < |turns| :: |turns[j].retried| + |turns[j].corrective| <= perModel
    ensures |Transcript(chain, turns)| <= |turns| * perModel
  {
    hide Labelled;
    if turns != [] {
      TurnsAreBounded(chain, turns[..|turns| - 1], perModel);
      assert (|turns| - 1) * perModel + perModel == |turns| * perModel;
    }
  }

  /** What `Execute` sends: at most every retry and one correction for each model it tried. */
  lemma CallsAreBounded(r: RouterResult, turns: seq<Turn>, chain: seq<string>, schema: Schema, maxRetries: int)
    requires Traced(r, turns, chain, schema, maxRetries)
    ensures |turns| <= |chain| && |Transcript(chain, turns)| <= |turns| * (Max0(maxRetries + 1) + 1)
  {
    forall j | 0 <= j < |turns|
      ensures |turns[j].retried| + |turns[j].corrective| <= Max0(maxRetries + 1) + 1
    {
      assert j < |r.errors| ==> Justified(r.errors[j], turns[j], chain[j], j > 0, schema, maxRetries);
    }
    hide Traced;
    TurnsAreBounded(chain, turns, Max0(maxRetries + 1) + 1);
  }

  class ModelRouter {
    const client: Provider
    const registry: CircuitBreakerRegistry
    const controls: Controls
    const maxRetries: int

    constructor (client: Provider, registry: CircuitBreakerRegistry, controls: Controls, maxRetries: int)
      ensures this.client == client && this.registry == registry && this.controls == controls
      ensures this.maxRetries == maxRetries
    {
      this.client, this.registry, this.controls, this.maxRetries := client, registry, controls, maxRetries;
    }

    /** The retried call and, inside the same gate scope, the schema check with its one corrective call. */
    method CallModel(model: string, schema: Schema, breaker: ModelCircuitBreaker, clock: Clock, ghost me: Owner)
        returns (v: Verdict, corrected: bool, ghost t: Turn)
      requires breaker.Valid()
      modifies client, controls`queue, breaker, clock
      ensures breaker.Valid() && clock.time >= old(clock.time)
      ensures controls.queue == old(controls.queue) + t.queue
      ensures client.sent == old(client.sent) + Labelled(model, t.retried + t.corrective)
      ensures OutcomesBy(breaker.log, me) == OutcomesBy(old(breaker.log), me) + Owed(t.retried)
      ensures Called(v, t, schema, maxRetries) && corrected == t.corrected
    {
      hide After, Events, OutcomesBy, IsRetryable;
      var result, retried := WithRetry(client, model, maxRetries, breaker, clock, me);
      t, corrected := Turn(false, [], [], retried, [], false), false;
      assert retried + [] == retried;
      match result.outcome
      case Success(response) =>
        if schema.None? {
          return Answered(response, None, result.attempts), false, t;
        }
        var parsed := Validated(schema.value, response);
        if parsed.Some? {
          return Answered(response, parsed, result.attempts), false, t;
        }
        corrected := true;
        var slot := controls.AcquireQueue(clock);
        t := Turn(false, [slot], [], retried, [], true);
        if !slot.Granted? {
          return Rejected(SchemaError), true, t;
        }
        var second := client.CallUnguarded(model, breaker, clock, me);
        t := Turn(false, [slot], [], retried, [second], true);
        assert Labelled(model, retried + [second]) == Labelled(model, retried) + [Sent(model, second)];
        if second.Returned? {
          parsed := Validated(schema.value, second.response);
        }
        v := if parsed.Some? then Answered(response, parsed, result.attempts) else Rejected(SchemaError);
      case Failure(error) =>
        v := Rejected(if error.EnvelopeError? then ErrorResponse else RetryFailed(error));
      case BreakerOpen =>
        v := Rejected(OpenedWhileRetrying);
      case NothingTried =>
        v := Rejected(NoAttempt);
    }

    /** One model's turn; the local gate is back where it was on every path. */
    method TryModel(model: string, schema: Schema, breaker: ModelCircuitBreaker, clock: Clock, ghost me: Owner)
        returns (v: Verdict, corrected: bool, ghost t: Turn)
      requires breaker.Valid()
      modifies client, controls, breaker, clock
      ensures breaker.Valid() && clock.time >= old(clock.time)
      ensures controls.held == old(controls.held)
      ensures controls.queue == old(controls.queue) + t.queue && controls.local == old(controls.local) + t.local
      ensures t.open ==> !Allows(breaker.Now())
      ensures client.sent == old(client.sent) + Labelled(model, t.retried + t.corrective)
      ensures OutcomesBy(breaker.log, me) == OutcomesBy(old(breaker.log), me) + Owed(t.retried)
      ensures Accounted(v, t, model, schema, maxRetries) && corrected == t.corrected
    {
      hide After, Events, OutcomesBy, Called;
      t, corrected := Turn(true, [], [], [], [], false), false;
      ghost var log := breaker.log;
      var allowed := breaker.Check(clock, me);
      OutcomesOneMore(log, breaker.log[|log|], me);
      NothingSent(model);
      if !allowed {
        return Rejected(BreakerWasOpen), false, t;
      }
      var slot := controls.AcquireQueue(clock);
      t := Turn(false, [slot], [], [], [], false);
      client.peers.Interleave(breaker, clock, me);
      if !slot.Granted? {
        return Rejected(if slot.Refused? then QueueFull else Unhandled), false, t;
      }
      var gateAcquired := false;
      ghost var local: seq<Admission> := [];
      if IsLocal(model) {
        var gate := controls.AcquireLocal(clock);
        local := [gate];
        t := Turn(false, [slot], [gate], [], [], false);
        client.peers.Interleave(breaker, clock, me);
        if !gate.Granted? {
          return Rejected(if gate.Refused? then LocalModelBusy else Unhandled), false, t;
        }
        gateAcquired := true;
      }
      v, corrected, t := CallModel(model, schema, breaker, clock, me);
      WithControls(v, t, model, schema, slot, local);
      t := t.(queue := [slot] + t.queue, local := local);
      if gateAcquired {
        controls.ReleaseLocal();
      }
    }

    lemma NothingSent(model: string)
      ensures Labelled(model, []) == [] && Owed([]) == []
    {
    }

    lemma WithControls(v: Verdict, t: Turn, model: string, schema: Schema, slot: Admission, local: seq<Admission>)
      requires Called(v, t, schema, maxRetries) && slot.Granted?
      requires if IsLocal(model) then |local| == 1 && local[0].Granted? else local == []
      ensures Accounted(v, t.(queue := [slot] + t.queue, local := local), model, schema, maxRetries)
      ensures !t.open
    {
      assert ([slot] + t.queue)[1..] == t.queue;
      assert t.local == [];
    }

    /** Finds or makes the model's breaker, lets peers at it, and takes the model's turn. */
    method Visit(model: string, schema: Schema, threshold: int, reset: real, clock: Clock, ghost me: Owner)
        returns (v: Verdict, corrected: bool, ghost t: Turn)
      requires registry.Valid()
      modifies client, controls, registry, registry.breakers.Values, clock
      ensures registry.Valid() && clock.time >= old(clock.time)
      ensures fresh(registry.breakers.Values - old(registry.breakers.Values))
      ensures controls.held == old(controls.held)
      ensures controls.queue == old(controls.queue) + t.queue && controls.local == old(controls.local) + t.local
      ensures t.open ==> model in registry.breakers && !Allows(registry.breakers[model].Now())
      ensures client.sent == old(client.sent) + Labelled(model, t.retried + t.corrective)
      ensures Accounted(v, t, model, schema, maxRetries) && corrected == t.corrected
    {
      hide After, Events, OutcomesBy, Accounted, Labelled;
      var breaker := registry.GetOrRegister(model, threshold, reset);
      client.peers.Interleave(breaker, clock, me);
      v, corrected, t := TryModel(model, schema, breaker, clock, me);
    }

    /** Success, or degradation once every model was tried; the trace of both is what `Traced` says, everything sent to
        the provider is in it, and the local gate is back where it was. */
    method Execute(chain: seq<string>, schema: Schema, threshold: int, reset: real, clock: Clock, ghost me: Owner)
        returns (r: RouterResult, ghost turns: seq<Turn>)
      requires registry.Valid()
      modifies client, controls, registry, registry.breakers.Values, clock
      ensures registry.Valid() && clock.time >= old(clock.time)
      ensures Traced(r, turns, chain, schema, maxRetries)
      ensures client.sent == old(client.sent) + Transcript(chain, turns)
      ensures controls.held == old(controls.held)
      ensures controls.queue == old(controls.queue) + Answers(turns).0
      ensures controls.local == old(controls.local) + Answers(turns).1
    {
      hide Accounted, Labelled, Rejections, Transcript, Corrections, Answers;
      var errors: seq<ErrorEntry> := [];
      var corrections := 0;
      turns := [];
      NothingYet(chain, schema);
      for i := 0 to |chain|
        invariant registry.Valid() && clock.time >= old(clock.time)
        invariant fresh(registry.breakers.Values - old(registry.breakers.Values))
        invariant |turns| == |errors| == i && Rejections(errors, turns, chain, schema, maxRetries)
        invariant corrections == Corrections(turns)
        invariant client.sent == old(client.sent) + Transcript(chain, turns)
        invariant controls.held == old(controls.held)
        invariant controls.queue == old(controls.queue) + Answers(turns).0
        invariant controls.local == old(controls.local) + Answers(turns).1
      {
        var v, corrected, t := Visit(chain[i], schema, threshold, reset, clock, me);
        OneMore(errors, turns, t, v, chain, schema);
        turns := turns + [t];
        if corrected {
          corrections := corrections + 1;
        }
        match v
        case Answered(response, parsed, attempts) =>
          r := RouterResult(true, Answer(response), parsed, chain[i], attempts, i > 0, false, errors, corrections);
          return;
        case Rejected(kind) =>
          errors := errors + [ErrorEntry(chain[i], i > 0, kind)];
      }
      var last := if chain == [] then "none" else chain[|chain| - 1];
      r := RouterResult(false, Exhausted(last), None, "", 0, false, true, errors, corrections);
    }

    lemma NothingYet(chain: seq<string>, schema: Schema)
      ensures Rejections([], [], chain, schema, maxRetries) && Corrections([]) == 0 && Transcript(chain, []) == []
      ensures Answers([]) == ([], [])
    {
    }

    lemma OneMore(errors: seq<ErrorEntry>, turns: seq<Turn>, t: Turn, v: Verdict, chain: seq<string>, schema: Schema)
      requires |turns| == |errors| < |chain| && Rejections(errors, turns, chain, schema, maxRetries)
      requires Accounted(v, t, chain[|turns|], schema, maxRetries)
      ensures Rejections(errors, turns + [t], chain, schema, maxRetries)
      ensures v.Rejected? ==> Rejections(errors + [ErrorEntry(chain[|turns|], |turns| > 0, v.kind)], turns + [t], chain,
                                         schema, maxRetries)
      ensures Corrections(turns + [t]) == Corrections(turns) + if t.corrected then 1 else 0
      ensures Transcript(chain, turns + [t])
              == Transcript(chain, turns) + Labelled(chain[|turns|], t.retried + t.corrective)
      ensures Answers(turns + [t]) == (Answers(turns).0 + t.queue, Answers(turns).1 + t.local)
    {
      hide Accounted, Transcript, Labelled, Corrections, Rejections, Answers;
      TallyOneMore(turns, t, chain);
      RejectionsWider(errors, turns, t, chain, schema, maxRetries);
      if v.Rejected? {
        var e := ErrorEntry(chain[|turns|], |turns| > 0, v.kind);
        RejectionsLonger(errors, turns, e, t, chain, schema, maxRetries);
      }
    }
  }

  lemma RejectionsWider(errors: seq<ErrorEntry>, turns: seq<Turn>, t: Turn, chain: seq<string>, schema: Schema,
                        maxRetries: int)
    requires Rejections(errors, turns, chain, schema, maxRetries)
    ensures Rejections(errors, turns + [t], chain, schema, maxRetries)
  {
    hide Justified;
  }

  lemma RejectionsLonger(errors: seq<ErrorEntry>, turns: seq<Turn>, e: ErrorEntry, t: Turn, chain: seq<string>,
                         schema: Schema, maxRetries: int)
    requires |turns| == |errors| < |chain| && Rejections(errors, turns, chain, schema, maxRetries)
    requires Justified(e, t, chain[|turns|], |turns| > 0, schema, maxRetries)
    ensures Rejections(errors + [e], turns + [t], chain, schema, maxRetries)
  {
    hide Justified;
  }

  lemma TallyOneMore(turns: seq<Turn>, t: Turn, chain: seq<string>)
    requires |turns| < |chain|
    ensures Corrections(turns + [t]) == Corrections(turns) + if t.corrected then 1 else 0
    ensures Transcript(chain, turns + [t])
            == Transcript(chain, turns) + Labelled(chain[|turns|], t.retried + t.corrective)
    ensures Answers(turns + [t]) == (Answers(turns).0 + t.queue, Answers(turns).1 + t.local)
  {
    hide Labelled;
    assert (turns + [t])[..|turns|] == turns;
  }
}
