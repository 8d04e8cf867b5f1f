/** The saga's safety theorems: no overselling, and confirmed means paid. */
module SagaSafety {
  import opened Wrappers
  import opened Sums
  import opened Text
  import opened Enums
  import opened Domain
  import opened OrderStore
  import opened OrderLifecycle
  import opened OrderPlacement
  import opened OrderPayability
  import opened InventoryLedger
  import opened Saga
  import opened SagaInvariant
  import Payments

  // ----- steps of the order service -----

  /** Replacing the store. */
  lemma StoreStep(s: State, store: Store)
    requires Inv(s) && OrdersOK(store) && Evolves(s.store, store) && StatusOK(store, s.topic)
    ensures Inv(s.(store := store))
  {
    hide OrdersOK, Evolves, LedgerOK, AttemptsOK, TopicOK, StatusOK, PayOK;
    LedgerKeptByOrders(s.ledger, s.lost, s.store, store, s.attempts);
    TopicStays(s.topic, s.store, store, s.attempts, s.attempts, s.payments.table, s.payments.table);
    PayStays(s.payments, s.store, store, s.topic, s.topic);
  }

  lemma PlaceKeepsInv(s: State, o: Order, at: Clock)
    requires Inv(s) && Placed(o)
    ensures Inv(Do(s, Place(o, at)))
  {
    hide OrdersOK, Evolves, LedgerOK, AttemptsOK, TopicOK, PayOK, CreateTx, Placed, Persisted;
    if CreateTx(s.store, o, at).Ok? {
      PlaceEvolves(s.store, o, at);
      CreateAdds(s.store, o, at);
      StoredOriginal(o);
      StoreStep(s, CreateTx(s.store, o, at).value);
    }
  }

  /** A command writes only the status it stands for, or cancels. */
  lemma HandleStatus(s: Store, id: string, c: Command, now: Clock)
    requires Consistent(s) && id in s.orders
    ensures id in Handle(s, id, c, now).orders
    ensures var st, st' := s.orders[id].status, Handle(s, id, c, now).orders[id].status;
            || st' == st || st' == Cancelled
            || (c == MarkInventoryReserved && st' == AwaitingPayment)
            || (c == MarkPaymentCaptured && st' == Confirmed)
  {
    hide Consistent, Handle, CancelledRow, Trim, Stored, ReasonOf;
    HandleEffect(s, id, c, now);
  }

  ghost predicate Reported(topic: set<Event>, id: string) {
    exists e :: e in topic && e.InventoryReserved? && e.orderID == id
  }

  ghost predicate CaptureReported(topic: set<Event>, id: string) {
    exists e :: e in topic && e.PaymentCaptured? && e.orderID == id
  }

  lemma HandleKeepsInv(s: State, id: string, c: Command, at: Clock)
    requires Inv(s)
    requires c == MarkInventoryReserved || c == MarkPaymentCaptured ==> Reported(s.topic, id)
    requires c == MarkPaymentCaptured ==> CaptureReported(s.topic, id)
    ensures Inv(s.(store := Handle(s.store, id, c, at)))
  {
    hide Consistent, Evolves, LedgerOK, AttemptsOK, TopicOK, PayOK, Handle, Placed, Original;
    var store := Handle(s.store, id, c, at);
    HandleEvolves(s.store, id, c, at);
    HandleKeepsContent(s.store, id, c, at);
    if id in s.store.orders {
      HandleStatus(s.store, id, c, at);
    }
    StoreStep(s, store);
  }

  /** A capture that was published is of a payment made after the stock was announced. */
  lemma CaptureFollowsReservation(s: State, e: Event)
    requires Inv(s) && e in s.topic && e.PaymentCaptured?
    ensures Reported(s.topic, e.orderID)
  {
    hide OrdersOK, AttemptsOK, LedgerOK, StatusOK, Payments.OK;
    assert MessageOK(e, s.store, s.attempts, s.payments.table);
  }

  lemma ConsumeKeepsInv(s: State, e: Event, at: Clock)
    requires Inv(s)
    ensures Inv(Do(s, Consume(e, at)))
  {
    hide Inv, Handle;
    if Deliverable(s, OrderGroup, e) && CommandOf(e).Some? {
      if e.PaymentCaptured? {
        CaptureFollowsReservation(s, e);
      }
      HandleKeepsInv(s, e.orderID, CommandOf(e).value, at);
    }
  }

  /** An outbox row carries a true message. */
  lemma RowIsTrue(s: State, r: RowID)
    requires Inv(s) && r in s.store.outbox
    ensures MessageOK(s.store.outbox[r].payload, s.store, s.attempts, s.payments.table)
  {
    hide AttemptsOK, LedgerOK, StatusOK, PayOK, TopicOK, Incomplete, Unstorable, Persisted, Trim, Placed;
    hide CurrencyName, MethodName, StatusName, AsCreated;
    assert OrderConsistent(s.store, r.order);
    match r
    case CreatedID(o) => CreatedOfID(s.store, o);
    case CancelledID(o) =>
  }

  lemma TopicGrows(s: State, e: Event)
    requires Inv(s) && MessageOK(e, s.store, s.attempts, s.payments.table)
    ensures Inv(s.(topic := s.topic + {e}))
  {
    hide OrdersOK, LedgerOK, Evolves, PayOK, MessageOK;
    SelfEvolves(s.store);
    PayStays(s.payments, s.store, s.store, s.topic, s.topic + {e});
  }

  lemma SelfEvolves(s: Store)
    ensures Evolves(s, s)
  {
  }

  lemma PublishRowKeepsInv(s: State, r: RowID)
    requires Inv(s)
    ensures Inv(Do(s, PublishRow(r)))
  {
    hide Inv, MessageOK;
    if r in s.store.outbox {
      RowIsTrue(s, r);
      TopicGrows(s, s.store.outbox[r].payload);
    }
  }

  lemma MarkRowKeepsInv(s: State, r: RowID, at: Clock)
    requires Inv(s)
    ensures Inv(Do(s, MarkRow(r, at)))
  {
    hide OrdersOK, Evolves, LedgerOK, AttemptsOK, TopicOK, PayOK;
    if r in s.store.outbox && s.store.outbox[r].payload in s.topic {
      MarkRowEvolves(s.store, r, at);
      StoreStep(s, s.store.(outbox := s.store.outbox[r := s.store.outbox[r].(publishedAt := Some(at))]));
    }
  }

  // ----- steps of the inventory service -----

  /** Replacing the attempts, and the ledger with them. */
  lemma AttemptsStep(s: State, l: Ledger, attempts: seq<Attempt>)
    requires Inv(s) && AttemptsEvolve(s.attempts, attempts)
    requires AttemptsOK(attempts, s.topic) && LedgerOK(l, s.lost, s.store, attempts)
    ensures Inv(s.(ledger := l, attempts := attempts))
  {
    hide OrdersOK, LedgerOK, AttemptsOK, AttemptsEvolve, StatusOK, PayOK, TopicOK, Evolves;
    SelfEvolves(s.store);
    TopicStays(s.topic, s.store, s.store, s.attempts, attempts, s.payments.table, s.payments.table);
  }

  lemma BeginKeepsInv(s: State, e: Event)
    requires Inv(s)
    ensures Inv(Do(s, Begin(e)))
  {
    hide OrdersOK, LedgerOK, StatusOK, PayOK, TopicOK;
    if Deliverable(s, InventoryGroup, e) && e.OrderCreated? {
      LedgerKeptByBegin(s.ledger, s.lost, s.store, s.attempts, e);
      AttemptsStep(s, s.ledger, s.attempts + [Attempt(e, 0, Reserving)]);
    }
  }

  lemma ReserveMoves(l: Ledger, p: string, o: string, q: int)
    requires Reserve(l, p, o, q).Ok?
    ensures forall k ::
            Get(Reserve(l, p, o, q).value.reservations, k) == Get(l.reservations, k) + if k == Key(p, o) then q else 0
  {
  }

  lemma ReleaseMoves(l: Ledger, p: string, o: string, q: int)
    requires Release(l, p, o, q).Ok?
    ensures forall k ::
            Get(Release(l, p, o, q).value.reservations, k) == Get(l.reservations, k) + if k == Key(p, o) then -q else 0
  {
  }

  lemma ShareGrows(a: Attempt, p: string)
    requires a.event.OrderCreated? && a.held < |Items(a)|
    ensures var item := Items(a)[a.held];
            Share(a.(held := a.held + 1), a.event.orderID, p) ==
            Share(a, a.event.orderID, p) + if p == item.productID then item.quantity else 0
  {
    assert Items(a)[..a.held + 1][..a.held] == Items(a)[..a.held];
  }

  /** Changing only the phase of an attempt that has not secured its order. */
  lemma PhaseStep(s: State, i: nat, phase: Phase)
    requires Inv(s) && i < |s.attempts|
    requires s.attempts[i].phase == Finished ==> phase == Finished || phase == Crashed
    requires s.attempts[i].phase == Crashed ==> phase == Crashed
    ensures Inv(s.(attempts := s.attempts[i := s.attempts[i].(phase := phase)]))
  {
    hide OrdersOK, StatusOK, PayOK, TopicOK;
    var a := s.attempts[i].(phase := phase);
    assert forall p :: Share(a, a.event.orderID, p) == Share(s.attempts[i], a.event.orderID, p);
    LedgerKeptByMove(s.ledger, s.lost, s.store, s.attempts, i, a, s.ledger, "", 0);
    hide LedgerOK;
    AttemptsStep(s, s.ledger, s.attempts[i := a]);
  }

  lemma AttemptMoves(attempts: seq<Attempt>, topic: set<Event>, i: nat, a: Attempt)
    requires AttemptsOK(attempts, topic) && i < |attempts|
    requires a.event == attempts[i].event && a.held <= |Items(a)| && attempts[i].phase != Finished
             && attempts[i].phase != Crashed
    ensures AttemptsOK(attempts[i := a], topic) && AttemptsEvolve(attempts, attempts[i := a])
    ensures a.event.OrderCreated?
  {
    hide Items;
  }

  lemma InvBalanced(s: State)
    requires Inv(s)
    ensures Balanced(s.ledger)
  {
    hide OrdersOK, StatusOK, PayOK, TopicOK, AttemptsOK, Balanced;
  }

  lemma ReserveKeepsInv(s: State, i: nat)
    requires Inv(s)
    ensures Inv(DoReserve(s, i))
  {
    hide OrdersOK, StatusOK, PayOK, TopicOK, LedgerOK, AttemptsOK, AttemptsEvolve, Reserve, Balanced, Contribution,
         Share;
    InvBalanced(s);
    if i < |s.attempts| && s.attempts[i].phase == Reserving && s.attempts[i].held < |Items(s.attempts[i])| {
      var a := s.attempts[i];
      var item := Items(a)[a.held];
      var r := Reserve(s.ledger, item.productID, a.event.orderID, item.quantity);
      if r.Ok? {
        var a' := a.(held := a.held + 1);
        AttemptMoves(s.attempts, s.topic, i, a');
        ReserveOutcome(s.ledger, item.productID, a.event.orderID, item.quantity);
        ReserveMoves(s.ledger, item.productID, a.event.orderID, item.quantity);
        forall p
          ensures Share(a', a.event.orderID, p) ==
                  Share(a, a.event.orderID, p) + if p == item.productID then item.quantity else 0
        {
          ShareGrows(a, p);
        }
        LedgerKeptByMove(s.ledger, s.lost, s.store, s.attempts, i, a', r.value, item.productID, item.quantity);
        AttemptsStep(s, r.value, s.attempts[i := a']);
      } else {
        PhaseStep(s, i, RollingBack);
      }
    }
  }

  lemma UnheardKeepsInv(s: State, i: nat)
    requires Inv(s)
    ensures Inv(DoReserveUnheard(s, i))
  {
    hide OrdersOK, StatusOK, PayOK, TopicOK, LedgerOK, AttemptsOK, Reserve, Balanced, Contribution, Share;
    InvBalanced(s);
    if i < |s.attempts| && s.attempts[i].phase == Reserving && s.attempts[i].held < |Items(s.attempts[i])| {
      var a := s.attempts[i];
      var item := Items(a)[a.held];
      var (p, o, q) := (item.productID, a.event.orderID, item.quantity);
      var r := Reserve(s.ledger, p, o, q);
      if r.Ok? {
        ReserveOutcome(s.ledger, p, o, q);
        ReserveMoves(s.ledger, p, o, q);
        LedgerKeptByLoss(s.ledger, s.lost, s.store, s.attempts, r.value, Key(p, o), q);
        hide LedgerOK;
        PhaseStep(s.(ledger := r.value, lost := s.lost[Key(p, o) := Get(s.lost, Key(p, o)) + q]), i, RollingBack);
      } else {
        PhaseStep(s, i, RollingBack);
      }
    }
  }

  lemma UndoKeepsInv(s: State, i: nat)
    requires Inv(s)
    ensures Inv(DoUndo(s, i))
  {
    hide OrdersOK, StatusOK, PayOK, TopicOK, LedgerOK, AttemptsOK, AttemptsEvolve, Release, Balanced, Contribution,
         Share;
    InvBalanced(s);
    if i < |s.attempts| && s.attempts[i].phase == RollingBack && 0 < s.attempts[i].held <= |Items(s.attempts[i])| {
      var a := s.attempts[i];
      var item := Items(a)[a.held - 1];
      var r := Release(s.ledger, item.productID, a.event.orderID, item.quantity);
      if r.Ok? {
        var a' := a.(held := a.held - 1);
        AttemptMoves(s.attempts, s.topic, i, a');
        ReleaseOutcome(s.ledger, item.productID, a.event.orderID, item.quantity);
        ReleaseMoves(s.ledger, item.productID, a.event.orderID, item.quantity);
        forall p
          ensures Share(a', a.event.orderID, p) ==
                  Share(a, a.event.orderID, p) + if p == item.productID then -item.quantity else 0
        {
          ShareGrows(a', p);
        }
        LedgerKeptByMove(s.ledger, s.lost, s.store, s.attempts, i, a', r.value, item.productID, -item.quantity);
        AttemptsStep(s, r.value, s.attempts[i := a']);
      } else {
        PhaseStep(s, i, Crashed);
      }
    }
  }

  lemma AnnounceKeepsInv(s: State, i: nat, failedItem: Option<ReservationItem>, reason: string)
    requires Inv(s)
    ensures Inv(DoAnnounce(s, i, failedItem, reason))
  {
    hide OrdersOK, StatusOK, PayOK, LedgerOK;
    if i < |s.attempts| && s.attempts[i].event.OrderCreated? {
      var a := s.attempts[i];
      assert MessageOK(a.event, s.store, s.attempts, s.payments.table);
      if a.phase == Reserving && a.held == |Items(a)| {
        PhaseStep(s, i, Finished);
        var s' := s.(attempts := s.attempts[i := a.(phase := Finished)]);
        assert s'.attempts[i].event == a.event && s'.attempts[i].held == |Items(s'.attempts[i])|;
        TopicGrows(s', ReservedEvent(a.event));
      } else if a.phase == RollingBack && a.held == 0 {
        PhaseStep(s, i, Finished);
        TopicGrows(s.(attempts := s.attempts[i := a.(phase := Finished)]),
                   ReservationFailed(a.event.orderID, a.event.customerID, failedItem, reason));
      }
    }
  }

  lemma ReleaseOrderKeepsInv(s: State, e: Event)
    requires Inv(s)
    ensures Inv(Do(s, ReleaseOrder(e)))
  {
    hide StatusOK, PayOK, LedgerOK, AttemptsOK, Perform, Consistent, Trim, Placed;
    if Deliverable(s, InventoryGroup, e) && e.OrderCancelled? {
      assert MessageOK(e, s.store, s.attempts, s.payments.table);
      StoredAsIs(s.store, e.orderID);
      LedgerKeptByRelease(s.ledger, s.lost, s.store, s.attempts, e.orderID);
    }
  }

  // ----- steps of the payment service -----

  /** Replacing the payment state. */
  lemma PaymentsStep(s: State, pay: Payments.State)
    requires Inv(s) && TableEvolves(s.payments.table, pay.table) && PayOK(pay, s.store, s.topic)
    ensures Inv(s.(payments := pay))
  {
    hide OrdersOK, LedgerOK, AttemptsOK, StatusOK, PayOK, TopicOK, Evolves;
    SelfEvolves(s.store);
    TopicStays(s.topic, s.store, s.store, s.attempts, s.attempts, s.payments.table, pay.table);
  }

  /** The request made from an announced reservation names the order's own customer and total. */
  lemma RequestMatchesOrder(s: State, e: Event)
    requires Inv(s) && e in s.topic && e.InventoryReserved?
    ensures Payments.Requested(e).Ok? && e.orderID in s.store.orders
    ensures var p, o := Payments.Requested(e).value, s.store.orders[e.orderID];
            p.orderID == e.orderID && p.amount == o.total && p.customerID == o.customerID
  {
    hide AttemptsOK, LedgerOK, StatusOK, PayOK, Consistent, Placed, Secured, CreatedEvent, Payments.Requested;
    assert MessageOK(e, s.store, s.attempts, s.payments.table);
    StoredAsIs(s.store, e.orderID);
    CreatedOfID(s.store, e.orderID);
    PlacedOrdersArePayable(Original(s.store, e.orderID));
  }

  lemma PayKeepsInv(s: State, e: Event, id: string, at: Clock, missed: bool, keyFirst: bool, fault: Fault,
                      published: bool, reason: string)
    requires Inv(s)
    ensures Inv(DoPay(s, e, id, at, missed, keyFirst, fault, published, reason))
  {
    hide OrdersOK, LedgerOK, AttemptsOK, StatusOK, TopicOK, Payments.OK, Payments.Do, Payments.Create,
         Payments.Requested;
    if Deliverable(s, PaymentGroup, e) && e.InventoryReserved? && !Blank(id) {
      RequestMatchesOrder(s, e);
      var step := Payments.CreateStep(e, id, at, missed, keyFirst);
      Payments.CreateRows(s.payments, e, id, at, missed, keyFirst);
      Payments.StepKeepsOK(s.payments, step);
      var s' := s.(payments := Payments.Do(s.payments, step));
      PaymentsStep(s, s'.payments);
      TopicGrows(s', PaymentCreationFailed(e.orderID, e.customerID, reason));
      TopicGrows(s, PaymentCreationFailed(e.orderID, e.customerID, reason));
    }
  }

  lemma SettleKeepsInv(s: State, id: string, a: Payments.Action, at: Clock)
    requires Inv(s)
    ensures Inv(Do(s, Settle(id, a, at)))
  {
    hide OrdersOK, LedgerOK, AttemptsOK, StatusOK, TopicOK, Payments.OK, Payments.ActOn;
    Payments.ActKeepsOK(s.payments, id, a, at);
    Payments.ActRows(s.payments, id, a, at);
    PaymentsStep(s, Payments.ActOn(s.payments, id, a, at));
  }

  /** An outcome still owed is the truth about its payment. */
  lemma OwedIsTrue(s: State, e: Event)
    requires Inv(s) && e in s.payments.owed
    ensures MessageOK(e, s.store, s.attempts, s.payments.table)
  {
    hide OrdersOK, LedgerOK, AttemptsOK, StatusOK, TopicOK, Payments.TableOK, Payments.PayStatusName, CreatedEvent,
         Secured;
    assert e in Payments.Announced(s.payments);
  }

  lemma PublishOutcomeKeepsInv(s: State, e: Event)
    requires Inv(s)
    ensures Inv(Do(s, PublishOutcome(e)))
  {
    hide OrdersOK, LedgerOK, AttemptsOK, StatusOK, TopicOK, Payments.OK, MessageOK;
    if e in s.payments.owed {
      OwedIsTrue(s, e);
      Payments.StepKeepsOK(s.payments, Payments.PublishStep(e));
      PaymentsStep(s, Payments.Do(s.payments, Payments.PublishStep(e)));
      TopicGrows(s.(payments := Payments.Do(s.payments, Payments.PublishStep(e))), e);
    }
  }

  lemma LoseOutcomeKeepsInv(s: State, e: Event)
    requires Inv(s)
    ensures Inv(Do(s, LoseOutcome(e)))
  {
    hide OrdersOK, LedgerOK, AttemptsOK, StatusOK, TopicOK, Payments.OK;
    Payments.StepKeepsOK(s.payments, Payments.LoseStep(e));
    PaymentsStep(s, Payments.Do(s.payments, Payments.LoseStep(e)));
  }

  // ----- every run -----

  lemma MarksKeepInv(s: State, marks: set<Mark>)
    requires Inv(s)
    ensures Inv(s.(marks := marks))
  {
    hide OrdersOK, LedgerOK, AttemptsOK, StatusOK, TopicOK, PayOK;
  }

  lemma StepKeepsInv(s: State, step: Step)
    requires Inv(s) && Allowed(step)
    ensures Inv(Do(s, step))
  {
    hide Inv, Placed, Handle, DoReserve, DoReserveUnheard, DoUndo, DoAnnounce, DoPay;
    match step
    case Place(o, at) => PlaceKeepsInv(s, o, at);
    case Cancel(id, r, at) => HandleKeepsInv(s, id, CancelOrder(r), at);
    case Consume(e, at) => ConsumeKeepsInv(s, e, at);
    case PublishRow(r) => PublishRowKeepsInv(s, r);
    case MarkRow(r, at) => MarkRowKeepsInv(s, r, at);
    case Begin(e) => BeginKeepsInv(s, e);
    case ReserveNext(i) => ReserveKeepsInv(s, i);
    case GiveUp(i) => if i < |s.attempts| && s.attempts[i].phase == Reserving { PhaseStep(s, i, RollingBack); }
    case UndoNext(i) => UndoKeepsInv(s, i);
    case Announce(i, f, r) => AnnounceKeepsInv(s, i, f, r);
    case Crash(i) => if i < |s.attempts| { PhaseStep(s, i, Crashed); }
    case ReleaseOrder(e) => ReleaseOrderKeepsInv(s, e);
    case ReserveUnheard(i) => UnheardKeepsInv(s, i);
    case Pay(e, id, at, missed, keyFirst, fault, published, r) =>
      PayKeepsInv(s, e, id, at, missed, keyFirst, fault, published, r);
    case Settle(id, a, at) => SettleKeepsInv(s, id, a, at);
    case PublishOutcome(e) => PublishOutcomeKeepsInv(s, e);
    case LoseOutcome(e) => LoseOutcomeKeepsInv(s, e);
    case SetMark(m) => MarksKeepInv(s, s.marks + {m});
    case ExpireMark(m) => MarksKeepInv(s, s.marks - {m});
  }

  lemma InitInv(s: State)
    requires Init(s)
    ensures Inv(s)
  {
    hide Balanced;
    forall o, p
      ensures Get(s.ledger.reservations, Key(p, o)) == Contribution(s.attempts, o, p) + Get(s.lost, Key(p, o))
    {}
  }

  lemma {:induction false} BehaviourInv(states: seq<State>, steps: seq<Step>, n: nat)
    requires Behaviour(states, steps) && n <= |steps|
    ensures Inv(states[n])
    decreases n
  {
    hide Inv, Do, Allowed;
    if n == 0 {
      InitInv(states[0]);
    } else {
      BehaviourInv(states, steps, n - 1);
      StepKeepsInv(states[n - 1], steps[n - 1]);
    }
  }

  // ----- no overselling -----

  /** No attempt of a placed order holds a negative amount. */
  lemma SharesNonNegative(s: State, j: nat, o: string, p: string)
    requires Inv(s) && j < |s.attempts|
    ensures Share(s.attempts[j], o, p) >= 0
  {
    hide LedgerOK, StatusOK, PayOK, Consistent, CurrencyName, MethodName, StatusName, Trim, Quantity;
    var a := s.attempts[j];
    assert MessageOK(a.event, s.store, s.attempts, s.payments.table);
    var order := Original(s.store, a.event.orderID);
    assert Placed(order);
    assert AllPositive(Items(a)[..a.held]) by {
      forall i | 0 <= i < a.held ensures Items(a)[i].quantity > 0 && !Blank(Items(a)[i].productID) {
        assert order.items[i].quantity > 0;
      }
    }
    QuantityNonNegative(Items(a)[..a.held], p);
  }

  lemma DemandIsOriginal(s: Store, id: string, p: string)
    requires id in s.orders
    ensures Demand(s.orders[id], p) == Demand(Original(s, id), p)
  {
    hide Ordered;
  }

  /** An order that waits for payment or is confirmed holds all it demands. */
  lemma ActiveOrderHolds(s: State, id: string, p: string)
    requires Inv(s) && id in s.store.orders && Active(s.store.orders[id])
    ensures Demand(s.store.orders[id], p) <= Get(s.ledger.reservations, Key(p, id))
  {
    hide OrdersOK, PayOK, Balanced, CreatedEvent, Contribution, Share, AsCreated;
    var e :| e in s.topic && e.InventoryReserved? && e.orderID == id;
    assert MessageOK(e, s.store, s.attempts, s.payments.table);
    var c := CreatedOf(s.store, id);
    var i :| 0 <= i < |s.attempts| && s.attempts[i].event == c && s.attempts[i].held == |Items(s.attempts[i])|;
    forall j | 0 <= j < |s.attempts| ensures Share(s.attempts[j], id, p) >= 0 {
      SharesNonNegative(s, j, id, p);
    }
    ShareWithinContribution(s.attempts, i, id, p);
    FullShare(s.attempts[i], p);
    DemandIsOriginal(s.store, id, p);
    ReservedIsDemanded(Original(s.store, id), p);
    assert Get(s.ledger.reservations, Key(p, id)) == Contribution(s.attempts, id, p) + Get(s.lost, Key(p, id));
    assert s.attempts[i].event.orderID == id;
  }

  lemma FullShare(a: Attempt, p: string)
    requires a.event.OrderCreated? && a.held == |Items(a)|
    ensures Share(a, a.event.orderID, p) == Quantity(Reservations(a.event.lines), p)
  {
    assert Items(a)[..a.held] == Items(a);
  }

  /** Demands that are covered one by one are covered in sum. */
  lemma {:induction false} SumCovered(demand: map<string, int>, held: map<Key, int>, p: string)
    requires forall id | id in demand :: demand[id] <= Get(held, Key(p, id))
    requires forall k | k in held :: held[k] >= 0
    ensures Sum(demand) <= Sum(held)
    decreases |demand|
  {
    if demand == map[] {
      if held != map[] {
        var k :| k in held;
        SumBounds(held, k);
      }
    } else {
      var id :| id in demand;
      SumRemove(demand, id);
      SumUpdate(held, Key(p, id), 0);
      SumCovered(demand - {id}, held - {Key(p, id)}, p);
    }
  }

  /** The order holds what it demands, of every product. */
  ghost predicate Covered(s: State, id: string)
    requires id in s.store.orders
  {
    forall p :: Demand(s.store.orders[id], p) <= Get(s.ledger.reservations, Key(p, id))
  }

  /** Orders that are covered one by one do not oversell the stock together. */
  lemma CoveredNotOversold(s: State)
    requires Balanced(s.ledger) && forall id | id in s.store.orders && Active(s.store.orders[id]) :: Covered(s, id)
    ensures NotOversold(s)
  {
    hide Demand;
    assert forall id, p | id in s.store.orders && Active(s.store.orders[id]) ::
        Demand(s.store.orders[id], p) <= Get(s.ledger.reservations, Key(p, id)) by {
      forall id | id in s.store.orders && Active(s.store.orders[id]) ensures Covered(s, id) {}
    }
    forall p | p in s.ledger.stocks ensures Sum(ActiveDemand(s.store, p)) <= s.ledger.stocks[p].total {
      assert StockBalanced(s.ledger, p);
      SumCovered(ActiveDemand(s.store, p), OfProduct(s.ledger.reservations, p), p);
    }
  }

  lemma ActiveIsCovered(s: State, id: string)
    requires Inv(s) && id in s.store.orders && Active(s.store.orders[id])
    ensures Covered(s, id)
  {
    hide Inv, Demand, Active;
    forall p ensures Demand(s.store.orders[id], p) <= Get(s.ledger.reservations, Key(p, id)) {
      ActiveOrderHolds(s, id, p);
    }
  }

  lemma InvNotOversold(s: State)
    requires Inv(s)
    ensures NotOversold(s)
  {
    hide Inv, Covered, Active, NotOversold, Balanced;
    InvBalanced(s);
    forall id | id in s.store.orders && Active(s.store.orders[id]) ensures Covered(s, id) {
      ActiveIsCovered(s, id);
    }
    CoveredNotOversold(s);
  }

  // ----- confirmed means paid -----

  /** An order whose capture was published is paid. */
  lemma CaptureIsPaid(s: State, id: string)
    requires Inv(s) && id in s.store.orders && CaptureReported(s.topic, id)
    ensures exists pid :: PaidBy(s, id, pid)
  {
    hide OrdersOK, AttemptsOK, LedgerOK, StatusOK, Payments.OutcomesOK, Payments.PaymentKey, Payments.AsStored, Trim;
    hide CreatedEvent, Secured, CreatedOf;
    var e :| e in s.topic && e.PaymentCaptured? && e.orderID == id;
    assert MessageOK(e, s.store, s.attempts, s.payments.table);
    assert PaidBy(s, id, e.paymentID);
  }

  lemma InvConfirmedIsPaid(s: State)
    requires Inv(s)
    ensures ConfirmedIsPaid(s)
  {
    forall id | id in s.store.orders && s.store.orders[id].status == Confirmed
      ensures exists pid :: PaidBy(s, id, pid)
    {
      assert CaptureReported(s.topic, id) by {
        hide OrdersOK, AttemptsOK, LedgerOK, TopicOK, PayOK;
      }
      hide Inv, PaidBy;
      CaptureIsPaid(s, id);
    }
  }

  // ----- what the runs range over -----

  /** A handling under way can crash, or give up although the stock is there. */
  lemma HandlingsFail(s: State, i: nat)
    requires i < |s.attempts|
    ensures Do(s, Crash(i)) == s.(attempts := s.attempts[i := s.attempts[i].(phase := Crashed)])
    ensures s.attempts[i].phase == Reserving ==>
              Do(s, GiveUp(i)) == s.(attempts := s.attempts[i := s.attempts[i].(phase := RollingBack)])
  {
  }

  /** A reservation can take effect unheard: the order holds more, and the handling rolls back without knowing of it. */
  lemma RepliesGetLost(s: State, i: nat)
    requires i < |s.attempts| && s.attempts[i].phase == Reserving && s.attempts[i].held < |Items(s.attempts[i])|
    requires var item := Items(s.attempts[i])[s.attempts[i].held];
             Reserve(s.ledger, item.productID, s.attempts[i].event.orderID, item.quantity).Ok?
    ensures var (s', a) := (Do(s, ReserveUnheard(i)), s.attempts[i]);
            var (item, o) := (Items(a)[a.held], a.event.orderID);
            && Get(s'.ledger.reservations, Key(item.productID, o)) ==
               Get(s.ledger.reservations, Key(item.productID, o)) + item.quantity
            && Get(s'.lost, Key(item.productID, o)) == Get(s.lost, Key(item.productID, o)) + item.quantity
            && s'.attempts == s.attempts[i := a.(phase := RollingBack)]
  {
    hide Items;
  }

  /** A published message can be handled whenever its mark has expired, and a mark can be set and expire at any time; a
      row of the outbox is sent again until it is marked; an outcome can be lost before it is sent. */
  lemma MessagesRepeat(s: State, g: Group, e: Event, r: RowID)
    ensures e in s.topic ==>
              && Deliverable(Do(s, ExpireMark(Mark(g, e))), g, e) && !Deliverable(Do(s, SetMark(Mark(g, e))), g, e)
              && Do(s, ExpireMark(Mark(g, e))) == s.(marks := s.marks - {Mark(g, e)})
              && Do(s, SetMark(Mark(g, e))) == s.(marks := s.marks + {Mark(g, e)})
    ensures r in s.store.outbox && s.store.outbox[r].publishedAt.None? ==>
              Do(s, PublishRow(r)) == s.(topic := s.topic + {s.store.outbox[r].payload})
    ensures r in s.store.outbox && s.store.outbox[r].payload in s.topic ==> forall at: Clock ::
              && r in Do(s, MarkRow(r, at)).store.outbox
              && Do(s, MarkRow(r, at)).store.outbox[r] == s.store.outbox[r].(publishedAt := Some(at))
    ensures e in s.payments.owed ==>
              Do(s, LoseOutcome(e)) == s.(payments := s.payments.(owed := s.payments.owed - multiset{e}))
  {
    hide Payments.Create, Payments.Requested, Payments.ActOn;
  }

  /**
   In every state of every run from the empty saga, through crashes, redeliveries, concurrent handlings of one message
   and expired deduplication marks: stock is never promised twice, and a confirmed order is paid for exactly once, in
   full, by its own customer.
   */
  lemma SagaIsSafe(states: seq<State>, steps: seq<Step>, n: nat)
    requires Behaviour(states, steps) && n <= |steps|
    ensures NotOversold(states[n]) && ConfirmedIsPaid(states[n])
  {
    hide Inv, Do, NotOversold, ConfirmedIsPaid;
    BehaviourInv(states, steps, n);
    InvNotOversold(states[n]);
    InvConfirmedIsPaid(states[n]);
  }
}
