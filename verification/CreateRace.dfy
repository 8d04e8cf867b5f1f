/**
 Concurrent `CreateOrder` calls: lookup by key, insert, and re-read after a lost race are separate
 steps, and any other call's steps and any status transition may fall between them.
 */
module CreateRace {
  import opened Wrappers
  import opened Text
  import opened Enums
  import opened Domain
  import opened OrderStore
  import opened OrderLifecycle
  import opened OrderPlacement
  import opened OrderCreation

  datatype Stage =
    | Looking
    | Inserting
    | Rereading
    | Returned(result: Result<string, OrderError>)

  /** One call; `request` is normalized and valid. */
  datatype Call = Call(request: Order, stage: Stage)

  datatype State = State(store: Store, calls: map<nat, Call>)

  datatype Step =
    | Arrive(call: nat, request: Order)
    | Lookup(call: nat)
    | Insert(call: nat, id: string, now: Clock, at: Time)
    | Reread(call: nat)
    | Transition(orderID: string, command: Command, now: Clock)

  /** Outcome of the two reads: `existing` is the id found, if any. */
  ghost predicate ReadOutcome(s: Store, c: Call, whenAbsent: Stage, stage: Stage) {
    if exists id :: Found(s, c.request.idempotencyKey, id)
    then exists id :: Found(s, c.request.idempotencyKey, id) && stage == Returned(Answer(s.orders[id], c.request))
    else stage == whenAbsent
  }

  ghost predicate Next(s: State, step: Step, s': State) {
    match step
    case Arrive(k, request) =>
      && k !in s.calls && Normalized(request) == request && !Rejected(request)
      && s' == s.(calls := s.calls[k := Call(request, if request.idempotencyKey == "" then Inserting else Looking)])
    case Lookup(k) =>
      && k in s.calls && s.calls[k].stage == Looking
      && exists stage ::
         ReadOutcome(s.store, s.calls[k], Inserting, stage)
         && s' == s.(calls := s.calls[k := s.calls[k].(stage := stage)])
    case Insert(k, id, now, at) =>
      && k in s.calls && s.calls[k].stage == Inserting && Trim(id) == id
      && var placed := Place(s.calls[k].request.(id := ""), id, now);
         if placed.Err? then s' == s.(calls := s.calls[k := s.calls[k].(stage := Returned(Err(placed.error)))])
         else
           (match CreateTx(s.store, placed.value, at)
           case Ok(store) => s' == State(store, s.calls[k := s.calls[k].(stage := Returned(Ok(placed.value.id)))])
           case Err(e) =>
             s' == s.(calls := s.calls[k := s.calls[k].(stage :=
               if e == IdempotencyKeyAlreadyExists && s.calls[k].request.idempotencyKey != ""
               then Rereading else Returned(Err(e)))]))
    case Reread(k) =>
      && k in s.calls && s.calls[k].stage == Rereading
      && exists stage :: ReadOutcome(s.store, s.calls[k], Returned(Err(OrderNotFound)), stage)
                         && s' == s.(calls := s.calls[k := s.calls[k].(stage := stage)])
    case Transition(id, c, now) => s' == s.(store := Handle(s.store, id, c, now))
  }

  /** An answered call told the truth about the order of its key. */
  ghost predicate CallOK(s: Store, c: Call) {
    && Normalized(c.request) == c.request
    && (c.stage.Returned? && c.stage.result.Ok? ==>
          && Found(s, c.request.idempotencyKey, c.stage.result.value)
          && Matches(s.orders[c.stage.result.value], c.request))
    && (c.stage == Returned(Err(IdempotencyKeyConflict)) ==>
          exists id :: Found(s, c.request.idempotencyKey, id) && !Matches(s.orders[id], c.request))
    && (c.stage == Rereading ==> exists id :: Found(s, c.request.idempotencyKey, id))
    && c.stage != Returned(Err(OrderNotFound))
  }

  ghost predicate Inv(s: State) {
    Consistent(s.store) && forall k | k in s.calls :: CallOK(s.store, s.calls[k])
  }

  /** Orders stay under their key and keep what is compared. */
  ghost predicate KeepsOrders(s: Store, s': Store) {
    forall id | id in s.orders ::
      id in s'.orders && s'.orders[id].idempotencyKey == s.orders[id].idempotencyKey
      && forall request :: Matches(s'.orders[id], request) == Matches(s.orders[id], request)
  }

  lemma CallStaysOK(s: Store, s': Store, c: Call)
    requires CallOK(s, c) && KeepsOrders(s, s')
    ensures CallOK(s', c)
  {
    hide Matches, Normalized;
    if c.stage == Returned(Err(IdempotencyKeyConflict)) {
      var id :| Found(s, c.request.idempotencyKey, id) && !Matches(s.orders[id], c.request);
      assert Found(s', c.request.idempotencyKey, id);
    }
    if c.stage == Rereading {
      var id :| Found(s, c.request.idempotencyKey, id);
      assert Found(s', c.request.idempotencyKey, id);
    }
  }

  lemma ContentMatches(a: Order, b: Order, request: Order)
    requires AsCreated(a) == AsCreated(b)
    ensures Matches(a, request) == Matches(b, request)
  {
  }

  lemma TransitionKeepsOrders(s: Store, id: string, c: Command, now: Clock)
    requires Consistent(s)
    ensures KeepsOrders(s, Handle(s, id, c, now))
  {
    hide Consistent, Handle, Matches;
    HandleKeepsContent(s, id, c, now);
    var s' := Handle(s, id, c, now);
    forall j, request | j in s.orders ensures Matches(s'.orders[j], request) == Matches(s.orders[j], request) {
      ContentMatches(s'.orders[j], s.orders[j], request);
    }
  }

  /** The order a call inserts matches its own request once stored. */
  lemma InsertedMatches(request: Order, id: string, now: Clock)
    requires Normalized(request) == request && Place(request.(id := ""), id, now).Ok?
    ensures var o := Place(request.(id := ""), id, now).value;
            Matches(Persisted(o), request) && Persisted(o).idempotencyKey == request.idempotencyKey
            && o.status == Pending && o.createdAt == now && o.updatedAt == now && o.id == id
  {
    hide Trim, WrappedTotal, LineTotal, TrimAddress, TrimItem, Stored;
    EmptyIsBlank();
    TrimIsTrimmed(request.idempotencyKey);
    assert Trim(request.idempotencyKey) == request.idempotencyKey;
  }

  lemma InsertKeepsOrders(s: Store, o: Order, at: Time)
    requires CreateTx(s, o, at).Ok?
    ensures KeepsOrders(s, CreateTx(s, o, at).value)
    ensures CreateTx(s, o, at).value.orders == s.orders[o.id := Persisted(o)]
  {
    hide Matches, Incomplete, BadContent, KeyTaken, Trim, CreatedRow;
  }

  lemma InsertKeepsInv(s: State, k: nat, id: string, now: Clock, at: Time, s': State)
    requires Inv(s) && Next(s, Insert(k, id, now, at), s')
    ensures Inv(s')
  {
    hide Consistent, CreateTx, Place, Matches, Normalized, Persisted, KeepsOrders;
    var placed := Place(s.calls[k].request.(id := ""), id, now);
    if placed.Ok? {
      InsertedMatches(s.calls[k].request, id, now);
      if CreateTx(s.store, placed.value, at).Ok? {
        CreateKeepsConsistent(s.store, placed.value, at);
        InsertKeepsOrders(s.store, placed.value, at);
        forall j | j in s.calls && j != k ensures CallOK(s'.store, s'.calls[j]) {
          CallStaysOK(s.store, s'.store, s.calls[j]);
        }
      } else {
        InsertNeverConflicts(s.store, placed.value, at);
        assert CallOK(s.store, s.calls[k]);
      }
    } else {
      PlaceNeverConflicts(s.calls[k].request.(id := ""), id, now);
    }
  }

  lemma InsertNeverConflicts(s: Store, o: Order, at: Time)
    ensures CreateTx(s, o, at).Err? ==> CreateTx(s, o, at).error !in {IdempotencyKeyConflict, OrderNotFound}
    ensures CreateTx(s, o, at) == Err(IdempotencyKeyAlreadyExists) ==>
            exists id :: Found(s, Persisted(o).idempotencyKey, id)
  {
    hide Incomplete, Unstorable, RowRejected, Trim, Stored, CreatedRow;
    if CreateTx(s, o, at) == Err(IdempotencyKeyAlreadyExists) {
      var id :| id in s.orders && id != o.id && s.orders[id].idempotencyKey == Trim(o.idempotencyKey);
      assert Found(s, Persisted(o).idempotencyKey, id);
    }
  }

  lemma PlaceNeverConflicts(o: Order, id: string, now: Clock)
    ensures Place(o, id, now).Err? ==> Place(o, id, now).error == InvalidOrder
  {
  }

  lemma ReadTellsTruth(s: Store, c: Call, whenAbsent: Stage, stage: Stage)
    requires Consistent(s) && CallOK(s, c) && ReadOutcome(s, c, whenAbsent, stage)
    requires whenAbsent == Inserting || (whenAbsent == Returned(Err(OrderNotFound)) && c.stage == Rereading)
    ensures CallOK(s, c.(stage := stage))
    ensures c.stage == Rereading ==>
            stage.Returned? && (stage.result.Ok? || stage.result.error == IdempotencyKeyConflict)
  {
    hide Consistent, Matches, Normalized;
    if stage != whenAbsent {
      var id :| Found(s, c.request.idempotencyKey, id) && stage == Returned(Answer(s.orders[id], c.request));
      StoredAsIs(s, id);
    }
  }

  lemma ReadKeepsInv(s: State, k: nat, whenAbsent: Stage, stage: Stage)
    requires Inv(s) && k in s.calls && ReadOutcome(s.store, s.calls[k], whenAbsent, stage)
    requires whenAbsent == Inserting || (whenAbsent == Returned(Err(OrderNotFound)) && s.calls[k].stage == Rereading)
    ensures Inv(s.(calls := s.calls[k := s.calls[k].(stage := stage)]))
  {
    hide Consistent, CallOK, ReadOutcome;
    ReadTellsTruth(s.store, s.calls[k], whenAbsent, stage);
  }

  lemma StepKeepsInv(s: State, step: Step, s': State)
    requires Inv(s) && Next(s, step, s')
    ensures Inv(s')
  {
    hide Consistent, Matches, Normalized, Rejected, ReadOutcome, Handle, KeepsOrders, CreateTx, Place;
    match step
    case Arrive(k, request) =>
    case Lookup(k) =>
      var stage :| ReadOutcome(s.store, s.calls[k], Inserting, stage)
                   && s' == s.(calls := s.calls[k := s.calls[k].(stage := stage)]);
      ReadKeepsInv(s, k, Inserting, stage);
    case Insert(k, id, now, at) => InsertKeepsInv(s, k, id, now, at, s');
    case Reread(k) =>
      var stage :| ReadOutcome(s.store, s.calls[k], Returned(Err(OrderNotFound)), stage)
                   && s' == s.(calls := s.calls[k := s.calls[k].(stage := stage)]);
      ReadKeepsInv(s, k, Returned(Err(OrderNotFound)), stage);
    case Transition(id, c, now) =>
      HandleKeepsConsistent(s.store, id, c, now);
      TransitionKeepsOrders(s.store, id, c, now);
      forall j | j in s.calls ensures CallOK(s'.store, s'.calls[j]) {
        CallStaysOK(s.store, s'.store, s.calls[j]);
      }
  }

  /** A behaviour from the empty database. */
  ghost predicate Behaviour(states: seq<State>, steps: seq<Step>) {
    && |states| == |steps| + 1
    && states[0] == State(Store(map[], map[]), map[])
    && forall i | 0 <= i < |steps| :: Next(states[i], steps[i], states[i + 1])
  }

  lemma {:induction false} BehaviourInv(states: seq<State>, steps: seq<Step>, n: nat)
    requires Behaviour(states, steps) && n <= |steps|
    ensures Inv(states[n])
    decreases n
  {
    hide Inv, Next;
    if n == 0 {
      StartInv();
    } else {
      BehaviourInv(states, steps, n - 1);
      StepKeepsInv(states[n - 1], steps[n - 1], states[n]);
    }
  }

  lemma StartInv()
    ensures Inv(State(Store(map[], map[]), map[]))
  {
    EmptyConsistent();
  }

  /** The order.created rows of an order. */
  function CreatedRows(s: Store, id: string): set<RowID> {
    set r | r in s.outbox && r.CreatedID? && r.order == id
  }

  /** In every reachable state a non-empty key belongs to at most one order, and an order has exactly one order.created
      row. */
  lemma OneOrderPerKey(states: seq<State>, steps: seq<Step>, n: nat)
    requires Behaviour(states, steps) && n <= |steps|
    ensures var s := states[n].store;
            && (forall a, b, key | Found(s, key, a) && Found(s, key, b) && key != "" :: a == b)
            && (forall id | id in s.orders ::
                CreatedRows(s, id) == {CreatedID(id)} && s.outbox[CreatedID(id)].payload.OrderCreated?)
  {
    hide Next, Consistent;
    BehaviourInv(states, steps, n);
    KeysAreUnique(states[n].store);
    OneCreatedRow(states[n].store);
  }

  /**
   In every reachable state two calls with the same key that succeeded returned the same id, and a call was told of a
   conflict only if its payload is not that of the order the successful ones got.
   */
  lemma CreationIsIdempotent(states: seq<State>, steps: seq<Step>, n: nat, a: nat, b: nat)
    requires Behaviour(states, steps) && n <= |steps|
    requires a in states[n].calls && b in states[n].calls
    requires states[n].calls[a].request.idempotencyKey == states[n].calls[b].request.idempotencyKey != ""
    ensures var s, ca, cb := states[n].store, states[n].calls[a], states[n].calls[b];
            && (ca.stage.Returned? && ca.stage.result.Ok? && cb.stage.Returned? && cb.stage.result.Ok? ==>
                  ca.stage.result == cb.stage.result)
            && (ca.stage.Returned? && ca.stage.result.Ok? ==>
                  ca.stage.result.value in s.orders && Matches(s.orders[ca.stage.result.value], ca.request))
            && (ca.stage.Returned? && ca.stage.result.Ok? && cb.stage == Returned(Err(IdempotencyKeyConflict)) ==>
                  !Matches(s.orders[ca.stage.result.value], cb.request))
  {
    hide Next, Matches, Normalized;
    BehaviourInv(states, steps, n);
    KeysAreUnique(states[n].store);
    assert CallOK(states[n].store, states[n].calls[a]) && CallOK(states[n].store, states[n].calls[b]);
  }

  /** A call that lost the race for its key always finds the order of the key when it reads again: it succeeds or is
      told of a conflict. No call is ever answered that there is no order. */
  lemma LostRaceIsAnswered(states: seq<State>, steps: seq<Step>, n: nat, k: nat)
    requires Behaviour(states, steps) && n < |steps| && k in states[n].calls
    ensures states[n].calls[k].stage != Returned(Err(OrderNotFound))
    ensures steps[n] == Reread(k) ==>
              k in states[n + 1].calls && states[n + 1].calls[k].stage.Returned?
              && var r := states[n + 1].calls[k].stage.result;
                 r.Ok? || r.error == IdempotencyKeyConflict
  {
    hide Consistent, Matches, Normalized, Rejected, ReadOutcome, Handle, CreateTx, Place;
    BehaviourInv(states, steps, n);
    var s, s' := states[n], states[n + 1];
    if steps[n] == Reread(k) {
      var stage :| ReadOutcome(s.store, s.calls[k], Returned(Err(OrderNotFound)), stage)
                   && s' == s.(calls := s.calls[k := s.calls[k].(stage := stage)]);
      ReadTellsTruth(s.store, s.calls[k], Returned(Err(OrderNotFound)), stage);
    }
  }

  lemma KeysAreUnique(s: Store)
    requires Consistent(s)
    ensures forall a, b, key | Found(s, key, a) && Found(s, key, b) && key != "" :: a == b
  {
    hide OrderConsistent;
  }

  lemma OneCreatedRow(s: Store)
    requires Consistent(s)
    ensures forall id | id in s.orders ::
            CreatedRows(s, id) == {CreatedID(id)} && s.outbox[CreatedID(id)].payload.OrderCreated?
  {
    hide CreatedEvent, CancelledEvent, Incomplete, Unstorable, Trim, Persisted;
    forall id | id in s.orders
      ensures CreatedRows(s, id) == {CreatedID(id)} && s.outbox[CreatedID(id)].payload.OrderCreated?
    {
      assert OrderConsistent(s, id);
      hide OrderConsistent;
      CreatedEventKind(AsCreated(s.orders[id]));
    }
  }

  lemma CreatedEventKind(o: Order)
    ensures CreatedEvent(o).OrderCreated?
  {
    hide CurrencyName, MethodName, StatusName;
  }

  // ----- a call that nothing disturbs -----

  /** What `CreateOrder` answers, as a call's result. */
  function ResultOf(r: Result<Order, OrderError>): Result<string, OrderError> {
    match r
    case Ok(o) => Ok(o.id)
    case Err(e) => Err(e)
  }

  lemma FoundIsOwned(s: Store, request: Order)
    requires Normalized(request) == request
    ensures (request.idempotencyKey != "" && exists id :: Found(s, request.idempotencyKey, id)) <==>
            KeyOwned(s, Trim(request.idempotencyKey))
  {
    NormalizedKey(request);
    hide Normalized, Trim;
    if KeyOwned(s, Trim(request.idempotencyKey)) {
      var id :| id in s.orders && s.orders[id].idempotencyKey == Trim(request.idempotencyKey);
      assert Found(s, request.idempotencyKey, id);
    }
  }

  /** The lookup of a known key, in the words of the request. */
  lemma LookupAnswers(s: Store, request: Order, id: string, newID: string, now: Clock, at: Time)
      returns (r: Result<Order, OrderError>)
    requires Consistent(s) && Normalized(request) == request && !Rejected(request)
    requires request.idempotencyKey != "" && Found(s, request.idempotencyKey, id)
    ensures ResultOf(r) == Answer(s.orders[id], request)
    ensures Creates(s, s, request, newID, now, at, s, r)
  {
    hide Normalized, Trim, Matches, Repeats, Rejected, WellAddressed, WellPriced, OrderOf, Commits, Consistent;
    AcceptedIff(request);
    NormalizedKey(request);
    FoundIsOwned(s, request);
    RepeatsIff(s.orders[id], request);
    r := if Matches(s.orders[id], request) then Ok(s.orders[id]) else Err(IdempotencyKeyConflict);
  }

  /** The insert of a call whose key is unknown, in the words of the request. */
  lemma InsertAnswers(s: Store, request: Order, newID: string, now: Clock, at: Time)
      returns (r: Result<Order, OrderError>)
    requires Normalized(request) == request && !Rejected(request) && request.id == ""
    requires request.idempotencyKey != "" ==> forall id :: !Found(s, request.idempotencyKey, id)
    ensures Creates(s, s, request, newID, now, at,
                    match Place(request, newID, now) {
                      case Err(_) => s
                      case Ok(o) => (match CreateTx(s, o, at) case Ok(store) => store case Err(_) => s)
                    }, r)
    ensures match Place(request, newID, now)
            case Err(e) => r == Err(e)
            case Ok(o) =>
              (match CreateTx(s, o, at)
               case Ok(_) => ResultOf(r) == Ok(o.id)
               case Err(e) => r == Err(e) && e != IdempotencyKeyAlreadyExists)
  {
    hide Normalized, Trim, Rejected, WellAddressed, WellPriced, OrderOf, CreateTx, Place, AnswersRepeat, Stores,
         Acceptable, Persisted;
    AcceptedIff(request);
    FoundIsOwned(s, request);
    PlacedIsOrderOf(request, newID, now);
    match Place(request, newID, now)
    case Err(e) => r := Err(e);
    case Ok(o) =>
      StoresOrder(request, newID, now, o, s, at);
      OrderKey(request, newID, now, o);
      PersistedID(o);
      r := match CreateTx(s, o, at) case Ok(_) => Ok(Persisted(o)) case Err(e) => Err(e);
      assert Commits(s, request, o, at, match CreateTx(s, o, at) { case Ok(store) => store case Err(_) => s }, r);
  }

  lemma OrderKey(request: Order, newID: string, now: Clock, o: Order)
    requires OrderOf(request, newID, now, o)
    ensures o.idempotencyKey == Trim(request.idempotencyKey)
  {
    hide Trim, LineOf, ExactTotal;
  }

  lemma PersistedID(o: Order)
    ensures Persisted(o).id == o.id
  {
    hide Trim, Stored;
  }

  /** Lookup and insert right after each other are one call of `CreateOrder`, with its result and its effect. */
  lemma UndisturbedCall(s: State, k: nat, request: Order, id: string, now: Clock, at: Time, s1: State, s2: State,
                        s3: State)
      returns (r: Result<Order, OrderError>)
    requires Consistent(s.store) && request.id == "" && Next(s, Arrive(k, request), s1)
    requires if request.idempotencyKey == "" then s2 == s1 else Next(s1, Lookup(k), s2)
    requires if s2.calls[k].stage == Inserting then Next(s2, Insert(k, id, now, at), s3) else s3 == s2
    ensures Creates(s.store, s.store, request, id, now, at, s3.store, r)
    ensures k in s3.calls && s3.calls[k].stage == Returned(ResultOf(r))
  {
    hide Consistent, Normalized, Rejected, Creates, CreateTx, Place, Matches, Trim;
    assert request.(id := "") == request;
    if s2.calls[k].stage == Inserting {
      r := InsertAnswers(s.store, request, id, now, at);
    } else {
      var found :| Found(s.store, request.idempotencyKey, found)
                   && s2.calls[k].stage == Returned(Answer(s.store.orders[found], request));
      r := LookupAnswers(s.store, request, found, id, now, at);
    }
  }

  /** Repeating a request after any later transitions finds the existing order and never a conflict. */
  lemma RepeatNeverConflicts(s: Store, id: string, request: Order, stream: seq<Delivery>)
    requires Consistent(s) && Found(s, request.idempotencyKey, id) && Matches(s.orders[id], request)
    ensures var s' := RunStream(s, stream);
            Found(s', request.idempotencyKey, id) && Answer(s'.orders[id], request) == Ok(id)
    decreases |stream|
  {
    hide Consistent, Matches, Handle;
    if stream == [] {
      StoredAsIs(s, id);
    } else {
      var d := stream[0];
      HandleKeepsConsistent(s, d.orderID, d.command, d.at);
      TransitionKeepsOrders(s, d.orderID, d.command, d.at);
      RepeatNeverConflicts(Handle(s, d.orderID, d.command, d.at), id, request, stream[1..]);
    }
  }
}
