/**
 What stays of the saga's safety when reads and writes are apart, and exactly when. The atomic saga's invariant holds of
 the view in which every order with an order.cancelled row counts as cancelled; the real store may differ by revived
 orders only.
 */
module SplitSagaSafety {
  import opened Wrappers
  import opened Text
  import opened Enums
  import opened Domain
  import opened OrderStore
  import opened OrderLifecycle
  import opened OrderPlacement
  import opened InventoryLedger
  import opened SagaInvariant
  import opened SagaSafety
  import opened SplitSaga
  import Payments
  import Saga
  import UpdateRace

  // ----- the invariant -----

  /** The order about to be written has the stored content, was decided on a published message, and saw CANCELLED only
      after the row was out. */
  ghost predicate TxnOK(x: Txn, s: Saga.State) {
    var o := x.order;
    && o.id in s.store.orders
    && AsCreated(o) == AsCreated(Persisted(o)) == AsCreated(s.store.orders[o.id]) && o.updatedAt >= 1000
    && (o.status == Cancelled || Saga.Active(o))
    && (Saga.Active(o) ==> Reported(s.topic, o.id))
    && (o.status == Confirmed ==> CaptureReported(s.topic, o.id))
    && (x.seen == Some(Cancelled) ==> CancelledID(o.id) in s.store.outbox)
  }

  ghost predicate TxnsOK(txns: map<nat, Txn>, s: Saga.State) {
    forall t | t in txns :: TxnOK(txns[t], s)
  }

  /** Cancelled orders have their row, and the row speaks of its order. */
  ghost predicate RowsOK(s: Store) {
    && (forall id | id in s.orders && s.orders[id].status == Cancelled :: CancelledID(id) in s.outbox)
    && (forall r | r in s.outbox && r.CancelledID? ::
        s.outbox[r].payload.OrderCancelled? && s.outbox[r].payload.orderID == r.order)
  }

  ghost predicate SplitInv(s: State) {
    && Inv(Seen(s.saga))
    && StatusOK(s.saga.store, s.saga.topic)
    && RowsOK(s.saga.store)
    && TxnsOK(s.txns, s.saga)
  }

  /** What open transactions rely on only grows. */
  ghost predicate Grows(s: Saga.State, s': Saga.State) {
    && s.topic <= s'.topic
    && s.store.outbox.Keys <= s'.store.outbox.Keys
    && forall id | id in s.store.orders ::
       id in s'.store.orders && AsCreated(s'.store.orders[id]) == AsCreated(s.store.orders[id])
  }

  lemma TxnsStay(txns: map<nat, Txn>, s: Saga.State, s': Saga.State)
    requires TxnsOK(txns, s) && Grows(s, s')
    ensures TxnsOK(txns, s')
  {
    hide AsCreated, Persisted;
    forall t | t in txns ensures TxnOK(txns[t], s') {
      assert TxnOK(txns[t], s);
    }
  }

  lemma StatusStays(store: Store, topic: set<Event>, topic': set<Event>)
    requires StatusOK(store, topic) && topic <= topic'
    ensures StatusOK(store, topic')
  {
  }

  // ----- steps outside the transitions -----

  /** These steps neither read nor write the store. */
  predicate StoreFree(step: Saga.Step) {
    !step.Place? && !step.Cancel? && !step.Consume? && !step.PublishRow? && !step.MarkRow?
  }

  lemma AttemptStepsCommute(s: Saga.State, i: nat, store: Store)
    ensures Saga.DoReserve(s.(store := store), i) == Saga.DoReserve(s, i).(store := store)
            && Saga.DoReserve(s, i).store == s.store
    ensures Saga.DoReserveUnheard(s.(store := store), i) == Saga.DoReserveUnheard(s, i).(store := store)
    ensures Saga.DoReserveUnheard(s, i).store == s.store
    ensures Saga.DoUndo(s.(store := store), i) == Saga.DoUndo(s, i).(store := store)
            && Saga.DoUndo(s, i).store == s.store
    ensures s.topic == Saga.DoReserve(s, i).topic == Saga.DoReserveUnheard(s, i).topic == Saga.DoUndo(s, i).topic
  {
    hide Reserve, Release, Saga.Items;
  }

  lemma AnnounceCommutes(s: Saga.State, i: nat, f: Option<ReservationItem>, r: string, store: Store)
    ensures Saga.DoAnnounce(s.(store := store), i, f, r) == Saga.DoAnnounce(s, i, f, r).(store := store)
    ensures Saga.DoAnnounce(s, i, f, r).store == s.store && s.topic <= Saga.DoAnnounce(s, i, f, r).topic
  {
    hide Saga.Items, ReservedEvent;
  }

  lemma StoreFreeCommutes(s: Saga.State, step: Saga.Step, store: Store)
    requires StoreFree(step)
    ensures Saga.Do(s.(store := store), step) == Saga.Do(s, step).(store := store)
    ensures Saga.Do(s, step).store == s.store && s.topic <= Saga.Do(s, step).topic
  {
    hide Saga.DoReserve, Saga.DoReserveUnheard, Saga.DoUndo, Saga.DoAnnounce;
    hide Perform, Payments.Do, Payments.ActOn, Payments.Requested, Payments.Create, Blank;
    match step
    case ReserveNext(i) => AttemptStepsCommute(s, i, store);
    case ReserveUnheard(i) => AttemptStepsCommute(s, i, store);
    case UndoNext(i) => AttemptStepsCommute(s, i, store);
    case Announce(i, f, r) => AnnounceCommutes(s, i, f, r, store);
    case _ =>
  }

  lemma StoreFreeKeepsInv(s: State, step: Saga.Step)
    requires SplitInv(s) && StoreFree(step)
    ensures SplitInv(Do(s, Other(step)))
  {
    hide Inv, StatusOK, RowsOK, TxnsOK, View, Saga.Do, AsCreated;
    StoreFreeCommutes(s.saga, step, View(s.saga.store));
    StepKeepsInv(Seen(s.saga), step);
    StatusStays(s.saga.store, s.saga.topic, Saga.Do(s.saga, step).topic);
    TxnsStay(s.txns, s.saga, Saga.Do(s.saga, step));
  }

  lemma PlaceKeepsSplitInv(s: State, o: Order, at: Clock)
    requires SplitInv(s) && Placed(o)
    ensures SplitInv(Do(s, Other(Saga.Place(o, at))))
  {
    hide Inv, TxnsOK, View, AsCreated, Placed, CreateTx, RowsOK, StatusOK;
    if CreateTx(s.saga.store, o, at).Ok? {
      var store := CreateTx(s.saga.store, o, at).value;
      ViewConsistent(s);
      ViewOfCreate(s.saga.store, o, at);
      PlaceKeepsInv(Seen(s.saga), o, at);
      NewOrderFits(s, o, at);
      TxnsStay(s.txns, s.saga, s.saga.(store := store));
    }
  }

  lemma NewOrderFits(s: State, o: Order, at: Clock)
    requires SplitInv(s) && Placed(o) && CreateTx(s.saga.store, o, at).Ok?
    ensures var store := CreateTx(s.saga.store, o, at).value;
            StatusOK(store, s.saga.topic) && RowsOK(store) && Grows(s.saga, s.saga.(store := store))
  {
    hide Inv, TxnsOK, View, AsCreated, Placed, CreateTx, Persisted, CreatedRow;
    CreateIs(s.saga.store, o, at);
  }

  lemma ViewConsistent(s: State)
    requires SplitInv(s)
    ensures OrdersOK(View(s.saga.store))
  {
    hide OrdersOK, AttemptsOK, LedgerOK, TopicOK, StatusOK, PayOK, RowsOK, TxnsOK, View;
  }

  lemma CreateIs(s: Store, o: Order, at: Time)
    requires CreateTx(s, o, at).Ok? && Placed(o)
    ensures o.id !in s.orders && Persisted(o).status == Pending
    ensures CreateTx(s, o, at).value ==
            Store(s.orders[o.id := Persisted(o)], s.outbox[CreatedID(o.id) := CreatedRow(o, at)])
  {
    hide Incomplete, Unstorable, RowRejected, Trim, Stored, CreatedRow, KeyTaken, Blank;
  }

  lemma PublishRowKeepsSplitInv(s: State, r: RowID)
    requires SplitInv(s)
    ensures SplitInv(Do(s, Other(Saga.PublishRow(r))))
  {
    hide Inv, MessageOK, AsCreated, StatusOK, TxnsOK;
    if r in s.saga.store.outbox {
      var e := s.saga.store.outbox[r].payload;
      RealRowIsTrue(s, r);
      TopicGrows(Seen(s.saga), e);
      StatusStays(s.saga.store, s.saga.topic, s.saga.topic + {e});
      TxnsStay(s.txns, s.saga, s.saga.(topic := s.saga.topic + {e}));
    }
  }

  lemma RealRowIsTrue(s: State, r: RowID)
    requires SplitInv(s) && r in s.saga.store.outbox
    ensures MessageOK(s.saga.store.outbox[r].payload, View(s.saga.store), s.saga.attempts, s.saga.payments.table)
  {
    hide Inv, StatusOK, TxnsOK, Secured, CreatedOf, CancelledEvent;
    if r.CreatedID? {
      RowIsTrue(Seen(s.saga), r);
      assert View(s.saga.store).outbox[r] == s.saga.store.outbox[r];
    } else {
      ViewConsistent(s);
      RowHasOrder(s.saga.store, r);
    }
  }

  function MarkedAt(s: Store, r: RowID, at: Clock): Store
    requires r in s.outbox
  {
    s.(outbox := s.outbox[r := s.outbox[r].(publishedAt := Some(at))])
  }

  lemma ViewOfMarked(s: Store, r: RowID, at: Clock)
    requires r in s.outbox
    ensures View(MarkedAt(s, r, at)) == MarkedAt(View(s), r, at)
  {
    hide CancelledEvent;
    assert View(MarkedAt(s, r, at)).orders == View(s).orders;
    assert View(MarkedAt(s, r, at)).outbox == MarkedAt(View(s), r, at).outbox;
  }

  lemma MarkedFits(s: State, r: RowID, at: Clock)
    requires SplitInv(s) && r in s.saga.store.outbox
    ensures var store := MarkedAt(s.saga.store, r, at);
            StatusOK(store, s.saga.topic) && RowsOK(store) && Grows(s.saga, s.saga.(store := store))
  {
    hide Inv, TxnsOK, AsCreated, View, Saga.Active;
  }

  lemma MarkRowKeepsSplitInv(s: State, r: RowID, at: Clock)
    requires SplitInv(s)
    ensures SplitInv(Do(s, Other(Saga.MarkRow(r, at))))
  {
    hide Inv, TxnsOK, RowsOK, Grows, OrdersOK, Evolves, View, Saga.Active;
    if r in s.saga.store.outbox && s.saga.store.outbox[r].payload in s.saga.topic {
      var store := MarkedAt(s.saga.store, r, at);
      ViewKeys(s.saga.store, "", "");
      ViewConsistent(s);
      ViewOfMarked(s.saga.store, r, at);
      MarkRowEvolves(View(s.saga.store), r, at);
      ViewStatus(s);
      StoreStep(Seen(s.saga), View(store));
      MarkedFits(s, r, at);
      TxnsStay(s.txns, s.saga, s.saga.(store := store));
    }
  }

  lemma ViewStatus(s: State)
    requires SplitInv(s)
    ensures StatusOK(View(s.saga.store), s.saga.topic)
  {
    hide OrdersOK, AttemptsOK, LedgerOK, TopicOK, StatusOK, PayOK, RowsOK, TxnsOK, View;
  }

  // ----- the parts of a transition -----

  lemma StoredOrder(s: State, id: string)
    requires SplitInv(s) && id in s.saga.store.orders
    ensures Persisted(s.saga.store.orders[id]) == s.saga.store.orders[id] && s.saga.store.orders[id].id == id
  {
    ViewConsistent(s);
    hide SplitInv, Consistent, Placed, Persisted, AsCreated;
    StoredAsIs(View(s.saga.store), id);
    ViewedContent(s.saga.store, id);
  }

  lemma LoadKeepsSplitInv(s: State, t: nat, source: Source, at: Clock)
    requires SplitInv(s)
    ensures SplitInv(Do(s, Load(t, source, at)))
  {
    hide Inv, StatusOK, RowsOK, AsCreated, Persisted, Decide, Saga.Deliverable;
    var id := TargetOf(source);
    if t !in s.txns && Comes(s.saga, source) && CommandFrom(source).Some? && id in s.saga.store.orders {
      var (o, c) := (s.saga.store.orders[id], CommandFrom(source).value);
      if Decide(o, c, at).Write? {
        StoredOrder(s, id);
        DecisionKeepsContent(o, c, at);
        UpdateRace.DecisionContent(o, c, at);
        DecisionIsActive(o, c, at);
        Evidence(s, source);
        assert TxnOK(Txn(Decide(o, c, at).order, None), s.saga);
      }
    }
  }

  lemma DecisionIsActive(o: Order, c: Command, now: Clock)
    requires Decide(o, c, now).Write?
    ensures var w := Decide(o, c, now).order;
            && w.id == o.id && w.updatedAt == now
            && (w.status == Cancelled || Saga.Active(w))
            && (Saga.Active(w) <==> c == MarkInventoryReserved || c == MarkPaymentCaptured)
            && (w.status == Confirmed <==> c == MarkPaymentCaptured)
  {
    hide Trim, Blank, ReasonOf;
  }

  /** A decision to wait for payment or to confirm rests on a published message. */
  lemma Evidence(s: State, source: Source)
    requires SplitInv(s) && Comes(s.saga, source) && CommandFrom(source).Some?
    ensures var (id, c) := (TargetOf(source), CommandFrom(source).value);
            && (c == MarkInventoryReserved || c == MarkPaymentCaptured ==> Reported(s.saga.topic, id))
            && (c == MarkPaymentCaptured ==> CaptureReported(s.saga.topic, id))
  {
    hide Inv, StatusOK, RowsOK, TxnsOK, View;
    if source.Message? && source.event.PaymentCaptured? {
      CaptureFollowsReservation(Seen(s.saga), source.event);
    }
  }

  lemma SeeKeepsSplitInv(s: State, t: nat)
    requires SplitInv(s)
    ensures SplitInv(Do(s, See(t)))
  {
    hide Inv, StatusOK, AsCreated, Persisted;
    if t in s.txns {
      assert TxnOK(s.txns[t], s.saga);
    }
  }

  /** A commit of an open transaction, as a write to the tables. */
  lemma CommitWrites(s: State, t: nat, at: Clock)
    requires SplitInv(s) && t in s.txns && s.txns[t].seen.Some?
    requires UpdateTx(s.saga.store, s.txns[t].order, s.txns[t].seen.value, at).Ok?
    ensures var (o, store) := (s.txns[t].order,
                               UpdateTx(s.saga.store, s.txns[t].order, s.txns[t].seen.value, at).value);
            && o.id == Persisted(o).id && Persisted(o).status == o.status
            && Writes(s.saga.store, Persisted(o), store)
            && (forall r | r in store.outbox && r !in s.saga.store.outbox ::
                  r == CancelledID(o.id) && store.outbox[r].payload.OrderCancelled?
                  && store.outbox[r].payload.orderID == o.id)
            && (forall r | r in s.saga.store.outbox && r in store.outbox :: store.outbox[r] == s.saga.store.outbox[r])
            && (CancelledID(o.id) in store.outbox && o.status != Cancelled ==> CancelledID(o.id) in s.saga.store.outbox)
  {
    hide Inv, StatusOK, RowsOK, Incomplete, Unstorable, KeyTaken, Trim, Stored, AsCreated;
    assert TxnOK(s.txns[t], s.saga);
  }

  /** In the view exactly the orders with a row are cancelled. */
  lemma ViewCancelled(s: State, id: string)
    requires SplitInv(s) && id in s.saga.store.orders
    ensures var v := View(s.saga.store);
            && id in v.orders && AsCreated(v.orders[id]) == AsCreated(s.saga.store.orders[id])
            && (v.orders[id].status == Cancelled <==> CancelledID(id) in s.saga.store.outbox)
  {
    hide Inv, StatusOK, TxnsOK, AsCreated, CancelledEvent;
    ViewedContent(s.saga.store, id);
  }

  lemma PutEvolves(s: Store, v: Order, row: OutboxRow)
    requires OrdersOK(s) && v.id in s.orders && (s.orders[v.id].status == Cancelled ==> v.status == Cancelled)
    requires AsCreated(v) == AsCreated(s.orders[v.id]) && Persisted(v) == v && v.updatedAt != 0
    requires row.payload == CancelledEvent(v)
    ensures OrdersOK(Put(s, v, row)) && Evolves(s, Put(s, v, row))
  {
    hide Consistent, Placed, AsCreated, Persisted, CancelledEvent;
    PutConsistent(s, v, row);
  }

  /** Seen through the view a commit never takes an order out of CANCELLED. */
  lemma CommitEvolves(s: State, o: Order, store: Store)
    requires SplitInv(s) && Writes(s.saga.store, o, store) && Persisted(o) == o && o.updatedAt != 0
    requires AsCreated(o) == AsCreated(s.saga.store.orders[o.id])
    ensures OrdersOK(View(store)) && Evolves(View(s.saga.store), View(store))
  {
    hide SplitInv, OrdersOK, Evolves, AsCreated, Persisted, View, Viewed, RowAfter, CancelledEvent, Put;
    ViewConsistent(s);
    ViewCancelled(s, o.id);
    ViewOfPut(s.saga.store, o, store);
    PutEvolves(View(s.saga.store), Viewed(store, o.id), RowAfter(store, Viewed(store, o.id)));
  }

  lemma KeysGrow(s: Store, o: Order, s': Store)
    requires Writes(s, o, s')
    ensures s.outbox.Keys <= s'.outbox.Keys
  {
  }

  lemma CommitKeepsSplitInv(s: State, t: nat, at: Clock)
    requires SplitInv(s)
    ensures SplitInv(Do(s, Commit(t, at)))
  {
    hide Inv, AsCreated, Persisted, UpdateTx, OrdersOK, Evolves, View;
    if t in s.txns && s.txns[t].seen.Some? && UpdateTx(s.saga.store, s.txns[t].order, s.txns[t].seen.value, at).Ok? {
      var o := s.txns[t].order;
      var store := UpdateTx(s.saga.store, o, s.txns[t].seen.value, at).value;
      assert TxnOK(s.txns[t], s.saga);
      CommitWrites(s, t, at);
      WrittenOrder(o);
      CommitEvolves(s, Persisted(o), store);
      CommitStatus(s, Persisted(o), store);
      StoreStep(Seen(s.saga), View(store));
      KeysGrow(s.saga.store, Persisted(o), store);
      CommitRows(s.saga.store, Persisted(o), store);
      TxnsStay(s.txns, s.saga, s.saga.(store := store));
    }
  }

  lemma WrittenOrder(o: Order)
    requires o.updatedAt >= 1000
    ensures Persisted(Persisted(o)) == Persisted(o) && Persisted(o).updatedAt != 0
  {
    PersistedTwice(o);
    StoredClock(o.updatedAt);
    hide Trim, Stored;
  }

  lemma CommitRows(s: Store, o: Order, s': Store)
    requires RowsOK(s) && Writes(s, o, s')
    requires forall r | r in s'.outbox && r !in s.outbox ::
               r == CancelledID(o.id) && s'.outbox[r].payload.OrderCancelled? && s'.outbox[r].payload.orderID == o.id
    requires forall r | r in s.outbox && r in s'.outbox :: s'.outbox[r] == s.outbox[r]
    ensures RowsOK(s')
  {
  }

  lemma CommitStatus(s: State, o: Order, store: Store)
    requires SplitInv(s) && Writes(s.saga.store, o, store)
    requires Saga.Active(o) ==> Reported(s.saga.topic, o.id)
    requires o.status == Confirmed ==> CaptureReported(s.saga.topic, o.id)
    ensures StatusOK(store, s.saga.topic) && StatusOK(View(store), s.saga.topic)
  {
    hide Inv, RowsOK, TxnsOK, CancelledEvent;
  }

  // ----- every run -----

  lemma SplitStepKeepsInv(s: State, step: Step)
    requires SplitInv(s) && Allowed(step)
    ensures SplitInv(Do(s, step))
  {
    hide SplitInv, DoLoad, DoSee, DoCommit, Saga.Do, Placed;
    match step
    case Other(st) =>
      match st {
        case Place(o, at) => PlaceKeepsSplitInv(s, o, at);
        case Cancel(_, _, _) =>
        case Consume(_, _) =>
        case PublishRow(r) => PublishRowKeepsSplitInv(s, r);
        case MarkRow(r, at) => MarkRowKeepsSplitInv(s, r, at);
        case _ => StoreFreeKeepsInv(s, st);
      }
    case Load(t, source, at) => LoadKeepsSplitInv(s, t, source, at);
    case See(t) => SeeKeepsSplitInv(s, t);
    case Commit(t, at) => CommitKeepsSplitInv(s, t, at);
    case Drop(t) => DropKeepsSplitInv(s, t);
  }

  lemma DropKeepsSplitInv(s: State, t: nat)
    requires SplitInv(s)
    ensures SplitInv(s.(txns := s.txns - {t}))
  {
    hide Inv, StatusOK, RowsOK, TxnOK;
  }

  lemma StartSplitInv(s: State)
    requires SplitSaga.Init(s)
    ensures SplitInv(s)
  {
    assert View(s.saga.store) == s.saga.store;
    InitInv(s.saga);
    hide Inv;
  }

  lemma {:induction false} BehaviourSplitInv(states: seq<State>, steps: seq<Step>, n: nat)
    requires SplitSaga.Behaviour(states, steps) && n <= |steps|
    ensures SplitInv(states[n])
    decreases n
  {
    hide SplitInv, Do, Allowed, SplitSaga.Init;
    if n == 0 {
      StartSplitInv(states[0]);
    } else {
      BehaviourSplitInv(states, steps, n - 1);
      SplitStepKeepsInv(states[n - 1], steps[n - 1]);
    }
  }

  // ----- overselling -----

  lemma SameDemand(a: Order, b: Order, p: string)
    requires a.items == b.items
    ensures Demand(a, p) == Demand(b, p)
  {
    hide Ordered;
  }

  /** An order whose row is not out is as safe as in the atomic saga. */
  lemma RowlessIsCovered(s: State, id: string)
    requires SplitInv(s) && id in s.saga.store.orders && Saga.Active(s.saga.store.orders[id]) && !RowOut(s, id)
    ensures Covered(s.saga, id)
  {
    hide Inv, StatusOK, RowsOK, TxnsOK, Demand, CancelledEvent;
    ActiveIsCovered(Seen(s.saga), id);
    assert Seen(s.saga).store.orders[id] == s.saga.store.orders[id];
  }

  lemma NotOversoldIff(s: State)
    requires SplitInv(s)
    ensures Saga.NotOversold(s.saga) <==>
            forall id | id in s.saga.store.orders && Saga.Active(s.saga.store.orders[id]) && RowOut(s, id) ::
              Covered(s.saga, id)
  {
    hide Demand, Saga.Active, Balanced;
    if forall id | id in s.saga.store.orders && Saga.Active(s.saga.store.orders[id]) && RowOut(s, id) ::
       Covered(s.saga, id) {
      assert Balanced(s.saga.ledger) by { InvBalanced(Seen(s.saga)); }
      forall id | id in s.saga.store.orders && Saga.Active(s.saga.store.orders[id]) ensures Covered(s.saga, id) {
        if !RowOut(s, id) {
          RowlessIsCovered(s, id);
        }
      }
      hide SplitInv, Covered;
      CoveredNotOversold(s.saga);
    }
  }

  /** In every state of every run with split reads and writes, stock is not oversold exactly when every active order
      whose order.cancelled row is out still holds what it demands. */
  lemma SplitNotOversoldIff(states: seq<State>, steps: seq<Step>, n: nat)
    requires SplitSaga.Behaviour(states, steps) && n <= |steps|
    ensures var s := states[n];
            Saga.NotOversold(s.saga) <==>
            forall id | id in s.saga.store.orders && Saga.Active(s.saga.store.orders[id]) && RowOut(s, id) ::
              Covered(s.saga, id)
  {
    hide SplitInv, Do, Saga.NotOversold, Covered;
    BehaviourSplitInv(states, steps, n);
    NotOversoldIff(states[n]);
  }

  // ----- confirmed means paid, all the same -----

  /** In every state of every run with split reads and writes a confirmed order is paid for exactly once, in full, by
      its own customer. */
  lemma SplitConfirmedIsPaid(states: seq<State>, steps: seq<Step>, n: nat)
    requires SplitSaga.Behaviour(states, steps) && n <= |steps|
    ensures Saga.ConfirmedIsPaid(states[n].saga)
  {
    hide SplitInv, Do;
    BehaviourSplitInv(states, steps, n);
    var s := states[n].saga;
    forall id | id in s.store.orders && s.store.orders[id].status == Confirmed
      ensures exists pid :: Saga.PaidBy(s, id, pid)
    {
      ConfirmedSplitIsPaid(states[n], id);
    }
  }

  lemma ConfirmedSplitIsPaid(s: State, id: string)
    requires SplitInv(s) && id in s.saga.store.orders && s.saga.store.orders[id].status == Confirmed
    ensures exists pid :: Saga.PaidBy(s.saga, id, pid)
  {
    hide Inv, RowsOK, TxnsOK, CancelledEvent;
    assert CaptureReported(s.saga.topic, id);
    CaptureIsPaid(Seen(s.saga), id);
    var pid :| Saga.PaidBy(Seen(s.saga), id, pid);
    assert Saga.PaidBy(s.saga, id, pid);
  }

  // ----- safe without revivals -----

  /** Every order whose row is out is cancelled. */
  ghost predicate NoneRevived(s: State) {
    forall id | id in s.saga.store.orders && RowOut(s, id) :: s.saga.store.orders[id].status == Cancelled
  }

  lemma CommitRevivesNone(s: State, t: nat, at: Clock)
    requires SplitInv(s) && NoneRevived(s) && !Revives(s, Commit(t, at))
    ensures NoneRevived(Do(s, Commit(t, at)))
  {
    hide Inv, StatusOK, RowsOK, AsCreated, Persisted, UpdateTx;
    if t in s.txns && s.txns[t].seen.Some? && UpdateTx(s.saga.store, s.txns[t].order, s.txns[t].seen.value, at).Ok? {
      assert TxnOK(s.txns[t], s.saga);
      CommitWrites(s, t, at);
    }
  }

  lemma StepRevivesNone(s: State, step: Step)
    requires SplitInv(s) && Allowed(step) && NoneRevived(s) && !Revives(s, step)
    ensures NoneRevived(Do(s, step))
  {
    hide SplitInv, DoCommit, Saga.Do, Placed, Revives;
    match step
    case Other(st) => if !st.Cancel? && !st.Consume? { OtherRevivesNone(s, st); }
    case Commit(t, at) => CommitRevivesNone(s, t, at);
    case _ =>
  }

  lemma OtherRevivesNone(s: State, st: Saga.Step)
    requires SplitInv(s) && Saga.Allowed(st) && NoneRevived(s) && !st.Cancel? && !st.Consume?
    ensures NoneRevived(s.(saga := Saga.Do(s.saga, st)))
  {
    if StoreFree(st) {
      hide SplitInv, Saga.Do;
      StoreFreeCommutes(s.saga, st, s.saga.store);
    } else if st.Place? {
      hide Inv, StatusOK, RowsOK, TxnsOK, View, CreateTx, Placed, Persisted;
      if CreateTx(s.saga.store, st.order, st.at).Ok? {
        CreateIs(s.saga.store, st.order, st.at);
        ViewConsistent(s);
        if CancelledID(st.order.id) in s.saga.store.outbox {
          RowHasOrder(s.saga.store, CancelledID(st.order.id));
        }
      }
    }
  }

  lemma {:induction false} BehaviourRevivesNone(states: seq<State>, steps: seq<Step>, n: nat)
    requires SplitSaga.Behaviour(states, steps) && n <= |steps|
    requires forall i | 0 <= i < n :: !Revives(states[i], steps[i])
    ensures NoneRevived(states[n])
    decreases n
  {
    hide SplitInv, Do, Allowed, Revives;
    if n > 0 {
      BehaviourRevivesNone(states, steps, n - 1);
      BehaviourSplitInv(states, steps, n - 1);
      hide NoneRevived;
      StepRevivesNone(states[n - 1], steps[n - 1]);
    }
  }

  /** Over every run with split reads and writes in which no commit puts another status onto a cancelled order, both
      promises of the atomic saga hold: the guard that would have to be checked before the write. */
  lemma SplitSagaIsSafe(states: seq<State>, steps: seq<Step>, n: nat)
    requires SplitSaga.Behaviour(states, steps) && n <= |steps|
    requires forall i | 0 <= i < n :: !Revives(states[i], steps[i])
    ensures Saga.NotOversold(states[n].saga) && Saga.ConfirmedIsPaid(states[n].saga)
  {
    hide SplitInv, Do, Saga.NotOversold, Saga.ConfirmedIsPaid, Revives;
    BehaviourSplitInv(states, steps, n);
    BehaviourRevivesNone(states, steps, n);
    NotOversoldIff(states[n]);
    SplitConfirmedIsPaid(states, steps, n);
  }

  // ----- what a revival costs -----

  /** The tables refuse a commit only for a second order.cancelled row. */
  lemma CommitSucceedsIff(s: State, t: nat, at: Clock)
    requires SplitInv(s) && t in s.txns && s.txns[t].seen.Some?
    ensures UpdateTx(s.saga.store, s.txns[t].order, s.txns[t].seen.value, at).Ok? <==>
            s.txns[t].order.status != Cancelled || s.txns[t].seen == Some(Cancelled) || !RowOut(s, s.txns[t].order.id)
  {
    hide Inv, StatusOK, RowsOK, AsCreated, Persisted, UpdateTx, View;
    var o := s.txns[t].order;
    assert TxnOK(s.txns[t], s.saga);
    ViewConsistent(s);
    ViewCancelled(s, o.id);
    ViewKeys(s.saga.store, Trim(o.idempotencyKey), o.id);
    UpdateRace.ContentIsWritable(View(s.saga.store), o.id, o);
    UpdateRace.WriteIs(s.saga.store, o, s.txns[t].seen.value, at);
  }

  /** A reviving commit out of a state that is not oversold keeps it so exactly when the order still holds what it
      demands. */
  lemma RevivalOversellsIff(states: seq<State>, steps: seq<Step>, n: nat)
    requires SplitSaga.Behaviour(states, steps) && n < |steps|
    requires Saga.NotOversold(states[n].saga) && Revives(states[n], steps[n])
    ensures Saga.NotOversold(states[n + 1].saga) <==> Covered(states[n].saga, states[n].txns[steps[n].txn].order.id)
  {
    hide SplitInv, Do, Saga.NotOversold, Covered;
    BehaviourSplitInv(states, steps, n);
    BehaviourSplitInv(states, steps, n + 1);
    NotOversoldIff(states[n]);
    NotOversoldIff(states[n + 1]);
    RevivedOrder(states[n], steps[n].txn, steps[n].at);
  }

  /** What a reviving commit leaves. */
  lemma RevivedOrder(s: State, t: nat, at: Clock)
    requires SplitInv(s) && Revives(s, Commit(t, at))
    ensures var s' := Do(s, Commit(t, at));
            var id := s.txns[t].order.id;
            && id in s'.saga.store.orders && Saga.Active(s'.saga.store.orders[id]) && RowOut(s', id)
            && (Covered(s'.saga, id) <==> Covered(s.saga, id))
            && (forall j | j != id :: j in s'.saga.store.orders <==> j in s.saga.store.orders)
            && (forall j | j != id && j in s.saga.store.orders ::
                  && s'.saga.store.orders[j] == s.saga.store.orders[j] && (RowOut(s', j) <==> RowOut(s, j))
                  && (Covered(s'.saga, j) <==> Covered(s.saga, j)))
  {
    hide Inv, StatusOK, Persisted, UpdateTx, Demand;
    var o := s.txns[t].order;
    assert TxnOK(s.txns[t], s.saga);
    CommitSucceedsIff(s, t, at);
    CommitWrites(s, t, at);
    forall p ensures Demand(Persisted(o), p) == Demand(s.saga.store.orders[o.id], p) {
      SameDemand(Persisted(o), s.saga.store.orders[o.id], p);
    }
  }
}
