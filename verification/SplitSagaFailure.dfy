/**
 A run of the split saga that oversells: a capture is published and read, the order is cancelled and its stock released,
 and the capture is written.
 */
module SplitSagaFailure {
  import opened Sums
  import opened Text
  import opened Enums
  import opened Domain
  import opened OrderStore
  import opened OrderLifecycle
  import opened OrderPlacement
  import opened InventoryLedger
  import opened InventoryConsumers
  import opened SagaInvariant
  import opened SplitSaga
  import opened SplitSagaSafety
  import opened SplitSagaRuns
  import Payments
  import Saga
  import SagaRelease
  import UpdateRace

  // ----- from a published capture to an oversold state -----

  /** An order waits for payment, its capture is published, and nobody has begun on either. */
  ghost predicate CapturePublished(s: State, id: string, e: Event) {
    && id in s.saga.store.orders && s.saga.store.orders[id].status == AwaitingPayment && !RowOut(s, id)
    && e.PaymentCaptured? && e.orderID == id && Saga.Deliverable(s.saga, Saga.OrderGroup, e)
    && s.txns == map[] && s.saga.marks == {}
  }

  lemma CancelDecided(o: Order, reason: string, at: Clock)
    requires o.status == AwaitingPayment && !Blank(reason)
    ensures Decide(o, CancelOrder(reason), at) == Write(Cancelling(o, reason, at))
    ensures Decide(o, MarkPaymentCaptured, at).Write? && Decide(o, MarkPaymentCaptured, at).order.status == Confirmed
    ensures Cancelling(o, reason, at).status == Cancelled && Cancelling(o, reason, at).id == o.id
  {
    hide Trim, Blank;
  }

  // ----- the failing run -----

  /** The capture is read and decided; then the order is cancelled in full. */
  lemma ReadThenCancel(s: State, id: string, e: Event, reason: string, at: Clock) returns (s': State)
    requires Reachable(s) && CapturePublished(s, id, e) && !Blank(reason)
    ensures Reachable(s') && s'.saga == s.saga.(store := s'.saga.store)
    ensures id in s'.saga.store.orders && s'.saga.store.orders[id].status == Cancelled && RowOut(s', id)
    ensures s'.saga.store.outbox[CancelledID(id)].publishedAt.None?
    ensures 0 in s'.txns && s'.txns[0].order.id == id && s'.txns[0].order.status == Confirmed
  {
    hide Reachable, Decide, Cancelling, UpdateTx, Blank;
    StoredID(s, id);
    var o := s.saga.store.orders[id];
    CancelDecided(o, reason, at);
    DecisionIsActive(o, MarkPaymentCaptured, at);
    s' := LoadStep(s, 0, Message(e), at, Decide(o, MarkPaymentCaptured, at).order);
    s' := LoadStep(s', 1, Customer(id, reason), at, Cancelling(o, reason, at));
    s' := SeeStep(s', 1);
    CancelWritten(s.saga.store, Cancelling(o, reason, at), AwaitingPayment, at);
    s' := CommitStep(s', 1, at);
  }

  lemma CancelWritten(s: Store, o: Order, seen: OrderStatus, at: Time)
    requires o.status == Cancelled && seen != Cancelled
    ensures UpdateTx(s, o, seen, at).Ok? ==>
            var s' := UpdateTx(s, o, seen, at).value;
            && o.id in s'.orders && s'.orders[o.id].status == Cancelled
            && CancelledID(o.id) in s'.outbox && s'.outbox[CancelledID(o.id)].publishedAt.None?
  {
    hide Incomplete, Unstorable, KeyTaken, Trim, Stored, CancelledEvent;
  }

  /** The cancelled order's stock is released everywhere. */
  lemma PublishAndRelease(s: State, id: string) returns (s': State)
    requires Reachable(s) && id in s.saga.store.orders && s.saga.store.orders[id].status == Cancelled
    requires RowOut(s, id) && s.saga.store.outbox[CancelledID(id)].publishedAt.None? && s.saga.marks == {}
    ensures Reachable(s') && s'.txns == s.txns && s'.saga.store == s.saga.store
    ensures forall p :: Get(s'.saga.ledger.reservations, Key(p, id)) == 0
  {
    hide SplitInv, Reachable, Saga.Do, Trim, Blank;
    ReachableInv(s);
    RowNamesOrder(s, id);
    var e := s.saga.store.outbox[CancelledID(id)].payload;
    PublishRowIs(s.saga, CancelledID(id));
    var s1 := OtherStep(s, Saga.PublishRow(CancelledID(id)));
    ReleaseOrderIs(s1.saga, e);
    s' := OtherStep(s1, Saga.ReleaseOrder(e));
  }

  lemma ReleaseOrderIs(s: Saga.State, e: Event)
    requires e.OrderCancelled? && e in s.topic && s.marks == {} && !Blank(e.orderID) && Trim(e.orderID) == e.orderID
    ensures Saga.Do(s, Saga.ReleaseOrder(e)) == s.(ledger := Perform(s.ledger, FreeOp(e.orderID)))
    ensures forall p :: Get(Perform(s.ledger, FreeOp(e.orderID)).reservations, Key(p, e.orderID)) == 0
  {
    hide Trim, Blank, Perform;
    SagaRelease.FreeLeavesNothing(s.ledger, e.orderID);
  }

  lemma RowNamesOrder(s: State, id: string)
    requires SplitInv(s) && id in s.saga.store.orders && RowOut(s, id)
    ensures var e := s.saga.store.outbox[CancelledID(id)].payload; e.OrderCancelled? && e.orderID == id
    ensures !Blank(id) && Trim(id) == id
  {
    hide Inv, StatusOK, TxnsOK, View;
    ViewConsistent(s);
    ViewKeys(s.saga.store, "", "");
    hide Consistent, Placed, Trim;
    NonBlankID(View(s.saga.store), id);
    StoredAsIs(View(s.saga.store), id);
  }

  /** The capture read before is written now. */
  lemma StaleCapture(s: State, id: string, at: Clock) returns (s': State)
    requires Reachable(s) && id in s.saga.store.orders && s.saga.store.orders[id].status == Cancelled && RowOut(s, id)
    requires 0 in s.txns && s.txns[0].order.id == id && s.txns[0].order.status == Confirmed
    requires forall p :: Get(s.saga.ledger.reservations, Key(p, id)) == 0
    ensures Reachable(s') && s'.saga == s.saga.(store := s'.saga.store)
    ensures id in s'.saga.store.orders && s'.saga.store.orders[id].status == Confirmed && RowOut(s', id)
  {
    hide Reachable, UpdateTx, Persisted;
    var s1 := SeeStep(s, 0);
    UpdateRace.WriteIs(s1.saga.store, s1.txns[0].order, Cancelled, at);
    s' := CommitStep(s1, 0, at);
  }

  /** A placed order demands something. */
  lemma SomethingDemanded(o: Order)
    requires Placed(AsCreated(o))
    ensures exists p :: Demand(o, p) > 0
  {
    hide Blank, Trim, CurrencyName, MethodName, StatusName;
    var items := Reservations(CreatedEvent(o).lines);
    var n := |items| - 1;
    assert |items| == |o.items|;
    forall i | 0 <= i <= n ensures items[i].quantity > 0 && !Blank(items[i].productID) {
      assert AsCreated(o).items[i].quantity > 0;
    }
    QuantityNonNegative(items[..n], items[n].productID);
    ReservedIsDemanded(o, items[n].productID);
    assert Demand(o, items[n].productID) >= items[n].quantity;
  }

  lemma StoredIsPlaced(s: State, id: string)
    requires SplitInv(s) && id in s.saga.store.orders
    ensures Placed(AsCreated(s.saga.store.orders[id]))
  {
    ViewConsistent(s);
    ViewedContent(s.saga.store, id);
    hide SplitInv, Consistent, Placed, AsCreated, CancelledEvent;
    assert Placed(Original(View(s.saga.store), id));
  }

  /** From any reachable state in which an order waits for payment and its capture is published the split saga can run
      into one that is oversold: the order is confirmed and paid, and holds nothing of what it demands. */
  lemma CaptureAfterCancelOversells(s: State, id: string, e: Event, reason: string, at: Clock) returns (s': State)
    requires Reachable(s) && CapturePublished(s, id, e) && !Blank(reason)
    ensures Reachable(s') && id in s'.saga.store.orders && s'.saga.store.orders[id].status == Confirmed
    ensures forall p :: Get(s'.saga.ledger.reservations, Key(p, id)) == 0
    ensures !Saga.NotOversold(s'.saga)
  {
    hide Reachable, SplitInv, Demand, AsCreated, Placed;
    var s1 := ReadThenCancel(s, id, e, reason, at);
    var s2 := PublishAndRelease(s1, id);
    s' := StaleCapture(s2, id, at);
    ReachableInv(s');
    StoredIsPlaced(s', id);
    SomethingDemanded(s'.saga.store.orders[id]);
    var p :| Demand(s'.saga.store.orders[id], p) > 0;
    assert Demand(s'.saga.store.orders[id], p) > Get(s'.saga.ledger.reservations, Key(p, id));
  }

  /** So any accepted order that the stock covers can end confirmed, paid and holding nothing. */
  lemma AnyOrderCanBeOversold(start: State, o: Order, pid: string, reason: string, at: Clock) returns (s: State)
    requires SplitSaga.Init(start) && Placed(o) && CreateTx(start.saga.store, o, at).Ok?
    requires Affordable(start.saga.ledger, o.id, Reservations(CreatedEvent(o).lines))
    requires !Blank(pid) && !Blank(reason)
    ensures Reachable(s) && o.id in s.saga.store.orders && s.saga.store.orders[o.id].status == Confirmed
    ensures forall p :: Get(s.saga.ledger.reservations, Key(p, o.id)) == 0
    ensures !Saga.NotOversold(s.saga)
  {
    hide Reachable, Placed, Blank, Affordable, CreateTx, SplitSaga.Init, Saga.NotOversold;
    s := RunToCapture(start, o, pid, at);
    s := CaptureAfterCancelOversells(s, o.id, CaptureOf(o, pid), reason, at);
  }

  /** One unit of stock and one order for it. */
  lemma SplitSagaOversells()
    ensures exists states: seq<State>, steps ::
            SplitSaga.Behaviour(states, steps) && !Saga.NotOversold(states[|steps|].saga)
  {
    var price := Money(CURRENCY_USD, 1);
    var o := Order("o", "c", "k", [OrderItem("p", "s", "n", 1, price, price)], price, Pending,
                   Address("x", "x", "x", "x", "x", ""), PaymentDetails(METHOD_CARD, ""), "", 1000, 1000);
    var ledger := Ledger(map["p" := Stock(1, 0, 1)], map[]);
    var saga := Saga.State(Store(map[], map[]), ledger, map[], Payments.State(map[], multiset{}, []), {}, [], {});
    SampleIsAccepted(o, price);
    SampleIsCovered(o, ledger);
    TrimIsTrimmed("x");
    hide Reachable, Placed, Blank, Trim, Affordable, CreateTx, Saga.NotOversold, SplitSaga.Behaviour;
    var s := AnyOrderCanBeOversold(State(saga, map[]), o, "x", "x", 1000);
    OversoldRun(s);
  }

  lemma OversoldRun(s: State)
    requires Reachable(s) && !Saga.NotOversold(s.saga)
    ensures exists states: seq<State>, steps ::
            SplitSaga.Behaviour(states, steps) && !Saga.NotOversold(states[|steps|].saga)
  {
    hide Saga.NotOversold, SplitSaga.Init, Do, Allowed;
    var states: seq<State>, steps :| RunTo(states, steps, s);
    assert SplitSaga.Behaviour(states, steps) && !Saga.NotOversold(states[|steps|].saga);
  }

  lemma SampleIsAccepted(o: Order, price: Money)
    requires price == Money(CURRENCY_USD, 1)
    requires o == Order("o", "c", "k", [OrderItem("p", "s", "n", 1, price, price)], price, Pending,
                        Address("x", "x", "x", "x", "x", ""), PaymentDetails(METHOD_CARD, ""), "", 1000, 1000)
    ensures Placed(o) && CreateTx(Store(map[], map[]), o, 1000).Ok?
  {
    hide Trim, Persisted, CreatedRow;
    TrimIsTrimmed("o");
    TrimIsTrimmed("c");
    TrimIsTrimmed("p");
    TrimIsTrimmed("x");
  }

  lemma SampleIsCovered(o: Order, l: Ledger)
    requires l == Ledger(map["p" := Stock(1, 0, 1)], map[]) && o.id == "o"
    requires |o.items| == 1 && o.items[0].productID == "p" && o.items[0].quantity == 1
    ensures Affordable(l, "o", Reservations(CreatedEvent(o).lines)) && Balanced(l)
  {
    hide Trim;
    TrimIsTrimmed("o");
    TrimIsTrimmed("p");
    var items := Reservations(CreatedEvent(o).lines);
    assert items == [ReservationItem("p", 1)];
    assert items[..0] == [];
    assert forall p :: Quantity(items[..0], p) == 0;
    assert Quantity(items, "p") == 1;
    assert AllPositive(items);
    assert l.stocks["p"] == Stock(1, 0, 1);
    assert Sum(OfProduct(l.reservations, "p")) == 0;
  }
}
