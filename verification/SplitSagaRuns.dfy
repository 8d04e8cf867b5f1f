/**
 Runs of the split saga, step by step, up to the point where an order waits for payment and its capture is published.
 Any placed order that the tables accept and the stock covers gets there.
 */
module SplitSagaRuns {
  import opened Wrappers
  import opened Text
  import opened Enums
  import opened Domain
  import opened OrderStore
  import opened OrderLifecycle
  import opened OrderPlacement
  import opened OrderPayability
  import opened InventoryLedger
  import opened InventoryConsumers
  import opened SplitSaga
  import opened SplitSagaSafety
  import Payments
  import Saga
  import UpdateRace

  // ----- reachable states -----

  ghost predicate RunTo(states: seq<State>, steps: seq<Step>, s: State) {
    SplitSaga.Behaviour(states, steps) && states[|steps|] == s
  }

  ghost predicate Reachable(s: State) {
    exists states, steps :: RunTo(states, steps, s)
  }

  lemma ReachableStart(s: State)
    requires SplitSaga.Init(s)
    ensures Reachable(s)
  {
    hide SplitSaga.Init, Do, Allowed;
    assert RunTo([s], [], s);
  }

  lemma ReachableStep(s: State, step: Step)
    requires Reachable(s) && Allowed(step)
    ensures Reachable(Do(s, step))
  {
    hide SplitSaga.Init, Do, Allowed;
    var states, steps :| RunTo(states, steps, s);
    var (states', steps') := (states + [Do(s, step)], steps + [step]);
    forall i | 0 <= i < |steps'| ensures Allowed(steps'[i]) && states'[i + 1] == Do(states'[i], steps'[i]) {
      if i < |steps| {
        assert Allowed(steps[i]) && states[i + 1] == Do(states[i], steps[i]);
      }
    }
    assert RunTo(states', steps', Do(s, step));
  }

  lemma ReachableInv(s: State)
    requires Reachable(s)
    ensures SplitInv(s)
  {
    hide SplitInv, SplitSaga.Behaviour;
    var states, steps :| RunTo(states, steps, s);
    BehaviourSplitInv(states, steps, |steps|);
  }

  // ----- what the steps of a transition do -----

  lemma LoadIs(s: State, t: nat, source: Source, at: Clock, w: Order)
    requires t !in s.txns && Comes(s.saga, source) && CommandFrom(source).Some?
             && TargetOf(source) in s.saga.store.orders
    requires Decide(s.saga.store.orders[TargetOf(source)], CommandFrom(source).value, at) == Write(w)
    ensures Do(s, Load(t, source, at)) == State(s.saga, s.txns[t := Txn(w, None)])
  {
    hide Comes, CommandFrom, Decide;
  }

  lemma SeeIs(s: State, t: nat)
    requires t in s.txns && s.txns[t].order.id in s.saga.store.orders
    ensures var seen := Some(s.saga.store.orders[s.txns[t].order.id].status);
            Do(s, See(t)) == State(s.saga, s.txns[t := Txn(s.txns[t].order, seen)])
  {
  }

  lemma CommitIs(s: State, t: nat, at: Clock)
    requires t in s.txns && s.txns[t].seen.Some?
    requires UpdateTx(s.saga.store, s.txns[t].order, s.txns[t].seen.value, at).Ok?
    ensures var store := UpdateTx(s.saga.store, s.txns[t].order, s.txns[t].seen.value, at).value;
            Do(s, Commit(t, at)) == State(s.saga.(store := store), s.txns - {t})
  {
    hide UpdateTx;
  }

  /** A commit that the tables accept, as a step of a run. */
  lemma CommitStep(s: State, t: nat, at: Clock) returns (s': State)
    requires Reachable(s) && t in s.txns && s.txns[t].seen.Some?
    requires s.txns[t].order.status != Cancelled || s.txns[t].seen == Some(Cancelled) || !RowOut(s, s.txns[t].order.id)
    ensures UpdateTx(s.saga.store, s.txns[t].order, s.txns[t].seen.value, at).Ok?
    ensures s' == State(s.saga.(store := UpdateTx(s.saga.store, s.txns[t].order, s.txns[t].seen.value, at).value),
                        s.txns - {t})
    ensures Reachable(s')
  {
    hide SplitInv, Reachable, UpdateTx, Do;
    ReachableInv(s);
    CommitSucceedsIff(s, t, at);
    ReachableStep(s, Commit(t, at));
    CommitIs(s, t, at);
    s' := Do(s, Commit(t, at));
  }

  /** A transition under way sees the stored status. */
  lemma SeeStep(s: State, t: nat) returns (s': State)
    requires Reachable(s) && t in s.txns && s.txns[t].order.id in s.saga.store.orders
    ensures s' == State(s.saga, s.txns[t := Txn(s.txns[t].order, Some(s.saga.store.orders[s.txns[t].order.id].status))])
    ensures Reachable(s')
  {
    hide Reachable, Do;
    ReachableStep(s, See(t));
    SeeIs(s, t);
    s' := Do(s, See(t));
  }

  /** A handler reads an order and decides. */
  lemma LoadStep(s: State, t: nat, source: Source, at: Clock, w: Order) returns (s': State)
    requires Reachable(s)
    requires t !in s.txns && Comes(s.saga, source) && CommandFrom(source).Some?
             && TargetOf(source) in s.saga.store.orders
    requires Decide(s.saga.store.orders[TargetOf(source)], CommandFrom(source).value, at) == Write(w)
    ensures s' == State(s.saga, s.txns[t := Txn(w, None)])
    ensures Reachable(s')
  {
    hide Reachable, Do, Comes, CommandFrom, Decide;
    ReachableStep(s, Load(t, source, at));
    LoadIs(s, t, source, at, w);
    s' := Do(s, Load(t, source, at));
  }

  /** A step of the saga outside the transitions. */
  lemma OtherStep(s: State, st: Saga.Step) returns (s': State)
    requires Reachable(s) && Saga.Allowed(st) && !st.Cancel? && !st.Consume?
    ensures s' == State(Saga.Do(s.saga, st), s.txns)
    ensures Reachable(s')
  {
    hide Reachable, Saga.Do, Saga.Allowed;
    ReachableStep(s, Other(st));
    s' := Do(s, Other(st));
  }

  lemma PublishRowIs(s: Saga.State, r: RowID)
    requires r in s.store.outbox && s.store.outbox[r].publishedAt.None?
    ensures Saga.Do(s, Saga.PublishRow(r)) == s.(topic := s.topic + {s.store.outbox[r].payload})
  {
  }

  lemma StoredID(s: State, id: string)
    requires Reachable(s) && id in s.saga.store.orders
    ensures s.saga.store.orders[id].id == id
  {
    hide SplitInv, Reachable, Persisted;
    ReachableInv(s);
    StoredOrder(s, id);
  }

  // ----- an undisturbed transition -----

  function AtomicStep(source: Source, at: Clock): Saga.Step {
    match source
    case Customer(id, reason) => Saga.Cancel(id, reason, at)
    case Message(e) => Saga.Consume(e, at)
  }

  lemma AtomicIs(s: Saga.State, source: Source, at: Clock)
    ensures var id := TargetOf(source);
            Saga.Do(s, AtomicStep(source, at)) ==
            if Comes(s, source) && CommandFrom(source).Some? && id in s.store.orders
            then s.(store := Handle(s.store, id, CommandFrom(source).value, at))
            else s
  {
    hide Saga.Deliverable, CommandOf, Decide, UpdateAtomic;
  }

  lemma HandleIs(s: Store, id: string, c: Command, at: Clock)
    requires id in s.orders && s.orders[id].id == id
    ensures Handle(s, id, c, at) ==
            match Decide(s.orders[id], c, at) {
              case Write(o) =>
                (match UpdateTx(s, o, s.orders[id].status, at) case Ok(s') => s' case Err(_) => s)
              case _ => s
            }
  {
    hide UpdateTx, Decide;
    if Decide(s.orders[id], c, at).Write? {
      DecisionIsActive(s.orders[id], c, at);
    }
  }

  /** The three parts of a transition, one right after the other, are the one step of the atomic saga. */
  lemma UndisturbedIsAtomic(s: State, t: nat, source: Source, at: Clock)
    requires Reachable(s) && t !in s.txns
    ensures Do(Do(Do(s, Load(t, source, at)), See(t)), Commit(t, at)) ==
            State(Saga.Do(s.saga, AtomicStep(source, at)), s.txns)
  {
    hide Reachable, Saga.Do, Decide, Handle, UpdateTx, Comes, CommandFrom;
    var id := TargetOf(source);
    AtomicIs(s.saga, source, at);
    if Comes(s.saga, source) && CommandFrom(source).Some? && id in s.saga.store.orders {
      var (o, c) := (s.saga.store.orders[id], CommandFrom(source).value);
      StoredID(s, id);
      HandleIs(s.saga.store, id, c, at);
      if Decide(o, c, at).Write? {
        DecisionIsActive(o, c, at);
        assert s.txns[t := Txn(Decide(o, c, at).order, Some(o.status))] - {t} == s.txns;
      }
    }
  }

  // ----- placed, reserved, announced -----

  /** The order is in the tables and its order.created message is out. */
  lemma PlaceAndPublish(s: State, o: Order, at: Clock) returns (s': State)
    requires SplitSaga.Init(s) && Placed(o) && CreateTx(s.saga.store, o, at).Ok?
    ensures Reachable(s')
    ensures s' == State(s.saga.(store := CreateTx(s.saga.store, o, at).value, topic := {CreatedEvent(o)}), map[])
    ensures o.id in s'.saga.store.orders && s'.saga.store.orders[o.id] == Persisted(o)
    ensures CancelledID(o.id) !in s'.saga.store.outbox
  {
    hide Reachable, CreateTx, Placed, Persisted, CreatedEvent, Balanced;
    ReachableStart(s);
    CreateIs(s.saga.store, o, at);
    s' := OtherStep(s, Saga.Place(o, at));
    PublishRowIs(s'.saga, CreatedID(o.id));
    s' := OtherStep(s', Saga.PublishRow(CreatedID(o.id)));
  }

  /** The first handling of an order.created message goes through its remaining lines. */
  lemma {:induction false} ReserveLines(s: State, e: Event, h: nat) returns (s': State)
    requires Reachable(s) && e.OrderCreated? && h <= |e.lines|
             && s.saga.attempts == [Saga.Attempt(e, h, Saga.Reserving)]
    requires ReserveItems(s.saga.ledger, e.orderID, Reservations(e.lines)[h..]).Ok?
    ensures Reachable(s')
    ensures s' == State(s.saga.(ledger := s'.saga.ledger, attempts := [Saga.Attempt(e, |e.lines|, Saga.Reserving)]),
                        s.txns)
    decreases |e.lines| - h
  {
    hide Reachable, Reserve, ReserveItems;
    if h == |e.lines| {
      s' := s;
    } else {
      ReserveItemsStep(s.saga.ledger, e.orderID, Reservations(e.lines), h);
      s' := OtherStep(s, Saga.ReserveNext(0));
      s' := ReserveLines(s', e, h + 1);
    }
  }

  /** One handling of an order.created message succeeds and announces it. */
  lemma ReserveAndAnnounce(s: State, e: Event) returns (s': State)
    requires Reachable(s) && e.OrderCreated? && e in s.saga.topic && s.saga.attempts == [] && s.saga.marks == {}
    requires ReserveItems(s.saga.ledger, e.orderID, Reservations(e.lines)).Ok?
    ensures Reachable(s')
    ensures s' == State(s.saga.(ledger := s'.saga.ledger, attempts := s'.saga.attempts,
                                topic := s.saga.topic + {ReservedEvent(e)}), s.txns)
  {
    hide Reachable, ReserveItems, ReservedEvent;
    s' := OtherStep(s, Saga.Begin(e));
    assert Reservations(e.lines)[0..] == Reservations(e.lines);
    s' := ReserveLines(s', e, 0);
    s' := OtherStep(s', Saga.Announce(0, None, ""));
  }

  lemma ReserveStep(s: State, e: Event, h: nat) returns (s': State)
    requires Reachable(s) && e.OrderCreated? && h < |e.lines| && s.saga.attempts == [Saga.Attempt(e, h, Saga.Reserving)]
    ensures Reachable(s')
    ensures var item := Reservations(e.lines)[h];
            var r := Reserve(s.saga.ledger, item.productID, e.orderID, item.quantity);
            s' == if r.Ok?
                  then State(s.saga.(ledger := r.value, attempts := [Saga.Attempt(e, h + 1, Saga.Reserving)]), s.txns)
                  else State(s.saga.(attempts := [Saga.Attempt(e, h, Saga.RollingBack)]), s.txns)
  {
    hide Reachable, Reserve;
    s' := OtherStep(s, Saga.ReserveNext(0));
  }

  lemma UndoStep(s: State, e: Event, h: nat, l: Ledger) returns (s': State)
    requires Reachable(s) && e.OrderCreated? && h < |e.lines|
             && s.saga.attempts == [Saga.Attempt(e, h + 1, Saga.RollingBack)]
    requires var item := Reservations(e.lines)[h];
             Release(s.saga.ledger, item.productID, e.orderID, item.quantity) == Ok(l)
    ensures Reachable(s')
    ensures s' == State(s.saga.(ledger := l, attempts := [Saga.Attempt(e, h, Saga.RollingBack)]), s.txns)
  {
    hide Reachable, Release;
    s' := OtherStep(s, Saga.UndoNext(0));
  }

  /** The first handling of a message that asks for too much takes back all it has reserved. */
  lemma {:induction false} RejectLines(s: State, e: Event, h: nat) returns (s': State)
    requires Reachable(s) && e.OrderCreated? && h <= |e.lines|
             && s.saga.attempts == [Saga.Attempt(e, h, Saga.Reserving)]
    requires ReserveItems(s.saga.ledger, e.orderID, Reservations(e.lines)[h..]).Err? && Balanced(s.saga.ledger)
    ensures Reachable(s')
    ensures s' == State(s.saga.(attempts := [Saga.Attempt(e, h, Saga.RollingBack)]), s.txns)
    decreases |e.lines| - h
  {
    hide Reachable, Reserve, Release, ReserveItems, Balanced;
    NothingToReserve(s.saga.ledger, e.orderID);
    assert Reservations(e.lines)[|e.lines|..] == [];
    var item := Reservations(e.lines)[h];
    ReserveItemsStep(s.saga.ledger, e.orderID, Reservations(e.lines), h);
    s' := ReserveStep(s, e, h);
    if Reserve(s.saga.ledger, item.productID, e.orderID, item.quantity).Ok? {
      ReserveOutcome(s.saga.ledger, item.productID, e.orderID, item.quantity);
      ReleaseUndoesReserve(s.saga.ledger, item.productID, e.orderID, item.quantity);
      s' := RejectLines(s', e, h + 1);
      s' := UndoStep(s', e, h, s.saga.ledger);
    }
  }

  lemma NothingToReserve(l: Ledger, o: string)
    ensures ReserveItems(l, o, []).Ok?
  {
  }

  /** An undisturbed handling of an order that the stock does not cover leaves the ledger as it was and says so. */
  lemma RejectAndAnnounce(s: State, e: Event, failedItem: Option<ReservationItem>, reason: string) returns (s': State)
    requires Reachable(s) && e.OrderCreated? && e in s.saga.topic && s.saga.attempts == [] && s.saga.marks == {}
    requires Balanced(s.saga.ledger) && !Affordable(s.saga.ledger, e.orderID, Reservations(e.lines))
    ensures Reachable(s')
    ensures s' == State(s.saga.(attempts := s'.saga.attempts,
                                topic := s.saga.topic + {ReservationFailed(e.orderID, e.customerID, failedItem,
                                                                           reason)}),
                        s.txns)
  {
    hide Reachable, ReserveItems, Affordable, Balanced;
    ReserveItemsOutcome(s.saga.ledger, e.orderID, Reservations(e.lines));
    s' := OtherStep(s, Saga.Begin(e));
    assert Reservations(e.lines)[0..] == Reservations(e.lines);
    s' := RejectLines(s', e, 0);
    s' := OtherStep(s', Saga.Announce(0, failedItem, reason));
  }

  // ----- waiting for payment -----

  /** The order service takes the message in, undisturbed. */
  lemma MarkReserved(s: State, id: string, e: Event, at: Clock) returns (s': State)
    requires Reachable(s) && s.txns == map[] && s.saga.marks == {} && id in s.saga.store.orders
    requires s.saga.store.orders[id].status == Pending
    requires e.InventoryReserved? && e.orderID == id && e in s.saga.topic
    ensures Reachable(s') && s'.txns == map[] && s'.saga == s.saga.(store := s'.saga.store)
    ensures id in s'.saga.store.orders && s'.saga.store.orders[id].status == AwaitingPayment
    ensures s'.saga.store.outbox == s.saga.store.outbox
  {
    hide Reachable, UpdateTx, Persisted;
    StoredID(s, id);
    var w := s.saga.store.orders[id].(status := AwaitingPayment, cancelReason := "", updatedAt := at);
    s' := LoadStep(s, 0, Message(e), at, w);
    s' := SeeStep(s', 0);
    UpdateRace.WriteIs(s.saga.store, w, Pending, at);
    s' := CommitStep(s', 0, at);
  }

  // ----- paid -----

  function FirstPayment(o: Order, pid: string, at: Clock): Payments.Payment {
    Payments.Payment(pid, o.id, o.customerID, o.total, o.payment.payMethod, o.payment.details,
                     Trim(Payments.PaymentKey(o.id)), Payments.PayPending, "", Stored(at), Stored(at))
  }

  lemma FirstIsCreated(o: Order, pid: string, at: Clock)
    requires Placed(o) && !Blank(pid)
    ensures var r := Payments.Requested(ReservedEvent(CreatedEvent(o)));
            r.Ok? && Payments.Create(map[], r.value, pid, at, false, false) == Ok(map[pid := FirstPayment(o, pid, at)])
  {
    hide Trim, Blank, Placed, Stored, Payments.PaymentKey, Payments.ParseCurrency, Payments.ParseMethod;
    PlacedOrdersArePayable(o);
  }

  lemma PayIs(s: Saga.State, o: Order, pid: string, at: Clock)
    requires Placed(o) && !Blank(pid) && s.marks == {} && ReservedEvent(CreatedEvent(o)) in s.topic
             && s.payments.table == map[]
    ensures var step := Saga.Pay(ReservedEvent(CreatedEvent(o)), pid, at, false, false, Saga.NoFault, false, "");
            Saga.Do(s, step) == s.(payments := s.payments.(table := map[pid := FirstPayment(o, pid, at)]))
  {
    hide Blank, Placed, FirstPayment, Payments.Requested, Payments.Create;
    FirstIsCreated(o, pid, at);
  }

  function CaptureOf(o: Order, pid: string): Event {
    PaymentCaptured(o.id, o.customerID, pid, Payments.PayStatusName(Payments.Captured))
  }

  lemma CaptureOwed(s: Payments.State, o: Order, pid: string, at: Clock)
    requires Placed(o) && !Blank(pid) && s.table == map[pid := FirstPayment(o, pid, at)]
    ensures CaptureOf(o, pid) in Payments.ActOn(s, pid, Payments.CaptureIt, at).owed
  {
    hide Trim, Stored, Payments.PaymentKey, Payments.PayStatusName;
    StoredClock(at);
  }

  lemma PayAndCapture(s: State, o: Order, pid: string, at: Clock) returns (s': State)
    requires Reachable(s) && Placed(o) && !Blank(pid)
    requires s.saga.marks == {} && ReservedEvent(CreatedEvent(o)) in s.saga.topic && s.saga.payments.table == map[]
    ensures Reachable(s') && s'.txns == s.txns && s'.saga.store == s.saga.store && s'.saga.marks == {}
    ensures CaptureOf(o, pid) in s'.saga.topic
  {
    hide Reachable, Placed, Blank, FirstPayment, CaptureOf, Saga.DoPay, ReservedEvent, Payments.ActOn;
    PayIs(s.saga, o, pid, at);
    var pay := Saga.Pay(ReservedEvent(CreatedEvent(o)), pid, at, false, false, Saga.NoFault, false, "");
    s' := OtherStep(s, pay);
    CaptureOwed(s'.saga.payments, o, pid, at);
    s' := OtherStep(s', Saga.Settle(pid, Payments.CaptureIt, at));
    s' := OtherStep(s', Saga.PublishOutcome(CaptureOf(o, pid)));
  }

  /** From a start with enough stock, an accepted order comes to wait for payment with its capture published. */
  lemma RunToCapture(s: State, o: Order, pid: string, at: Clock) returns (s': State)
    requires SplitSaga.Init(s) && Placed(o) && CreateTx(s.saga.store, o, at).Ok? && !Blank(pid)
    requires Affordable(s.saga.ledger, o.id, Reservations(CreatedEvent(o).lines))
    ensures Reachable(s') && s'.txns == map[] && s'.saga.marks == {}
    ensures o.id in s'.saga.store.orders && s'.saga.store.orders[o.id].status == AwaitingPayment && !RowOut(s', o.id)
    ensures CaptureOf(o, pid) in s'.saga.topic
  {
    hide Reachable, CreateTx, Placed, Blank, Affordable, ReserveItems, Persisted, CaptureOf, StatusName, Balanced;
    var e := CreatedEvent(o);
    ReserveItemsOutcome(s.saga.ledger, o.id, Reservations(e.lines));
    CreateIs(s.saga.store, o, at);
    s' := PlaceAndPublish(s, o, at);
    s' := ReserveAndAnnounce(s', e);
    s' := MarkReserved(s', o.id, ReservedEvent(e), at);
    s' := PayAndCapture(s', o, pid, at);
  }
}
