/** What becomes of reserved stock: rollbacks that find their stock, and cancelled orders that keep none. */
module SagaRelease {
  import opened Sums
  import opened Text
  import opened Enums
  import opened Domain
  import opened OrderStore
  import opened OrderLifecycle
  import opened OrderPlacement
  import opened InventoryLedger
  import opened Saga
  import opened SagaInvariant
  import opened SagaSafety
  import Payments

  // ----- rollback -----

  /** The items of an attempt are well-formed lines of a placed order. */
  lemma ItemsAreGood(s: State, i: nat)
    requires Inv(s) && i < |s.attempts|
    ensures AllPositive(Items(s.attempts[i])) && !Blank(s.attempts[i].event.orderID)
            && s.attempts[i].event.OrderCreated?
  {
    hide LedgerOK, StatusOK, PayOK, Consistent, Trim, SentMoney, StatusName, SentPayment;
    var a := s.attempts[i];
    assert MessageOK(a.event, s.store, s.attempts, s.payments.table);
    var order := Original(s.store, a.event.orderID);
    assert Placed(order);
    StoredAsIs(s.store, a.event.orderID);
    forall j | 0 <= j < |Items(a)| ensures Items(a)[j].quantity > 0 && !Blank(Items(a)[j].productID) {
      assert order.items[j].quantity > 0;
    }
  }

  lemma LastItemWithinShare(a: Attempt, p: string)
    requires a.event.OrderCreated? && 0 < a.held <= |Items(a)| && AllPositive(Items(a))
             && p == Items(a)[a.held - 1].productID
    ensures Share(a, a.event.orderID, p) >= Items(a)[a.held - 1].quantity
  {
    var before := Items(a)[..a.held - 1];
    assert Items(a)[..a.held][..a.held - 1] == before;
    forall j | 0 <= j < |before| ensures before[j].quantity > 0 && !Blank(before[j].productID) {
      assert before[j] == Items(a)[j];
    }
    QuantityNonNegative(before, p);
  }

  lemma InvRollbackSucceeds(s: State, i: nat)
    requires Inv(s) && i < |s.attempts| && 0 < s.attempts[i].held <= |Items(s.attempts[i])|
    requires Open(s.store, s.attempts[i].event.orderID)
    ensures var a := s.attempts[i];
            var item := Items(a)[a.held - 1];
            Release(s.ledger, item.productID, a.event.orderID, item.quantity).Ok?
  {
    hide OrdersOK, AttemptsOK, TopicOK, StatusOK, PayOK, Share, Contribution, Balanced, Items;
    var a := s.attempts[i];
    var item := Items(a)[a.held - 1];
    var (o, p) := (a.event.orderID, item.productID);
    ItemsAreGood(s, i);
    forall j | 0 <= j < |s.attempts| ensures Share(s.attempts[j], o, p) >= 0 {
      SharesNonNegative(s, j, o, p);
    }
    ShareWithinContribution(s.attempts, i, o, p);
    LastItemWithinShare(a, p);
    assert Get(s.ledger.reservations, Key(p, o)) == Contribution(s.attempts, o, p) + Get(s.lost, Key(p, o));
    ReleaseOutcome(s.ledger, p, o, item.quantity);
  }

  /** In every reachable state a handler that rolls back finds what it reserved, whatever other handlers of the same
      message and of other orders have done in between; only a cancelled order's stock may already be gone. */
  lemma RollbackSucceeds(states: seq<State>, steps: seq<Step>, n: nat, i: nat)
    requires Behaviour(states, steps) && n <= |steps|
    requires i < |states[n].attempts| && 0 < states[n].attempts[i].held <= |Items(states[n].attempts[i])|
    requires states[n].attempts[i].phase == RollingBack && Open(states[n].store, states[n].attempts[i].event.orderID)
    ensures DoUndo(states[n], i).attempts[i] == states[n].attempts[i].(held := states[n].attempts[i].held - 1)
  {
    hide Inv, Do, Open, Release;
    BehaviourInv(states, steps, n);
    InvRollbackSucceeds(states[n], i);
  }

  // ----- cancelled orders -----

  /** No handling of the order's creation is under way. */
  ghost predicate CreationHandled(s: State, id: string) {
    forall i | 0 <= i < |s.attempts| && s.attempts[i].event.OrderCreated? && s.attempts[i].event.orderID == id ::
      s.attempts[i].phase == Finished || s.attempts[i].phase == Crashed
  }

  /** The order holds nothing and no handler is reserving or rolling back for it. */
  ghost predicate Released(s: State, id: string) {
    CreationHandled(s, id) && forall p :: Get(s.ledger.reservations, Key(p, id)) == 0
  }

  predicate Begins(step: Step, id: string) {
    step.Begin? && step.event.OrderCreated? && step.event.orderID == id
  }

  lemma OtherOpKeeps(l: Ledger, op: Op, id: string)
    requires OrderOf(op) != id
    ensures forall p :: Get(Perform(l, op).reservations, Key(p, id)) == Get(l.reservations, Key(p, id))
  {
    forall p ensures Get(Perform(l, op).reservations, Key(p, id)) == Get(l.reservations, Key(p, id)) {
      OtherOrdersUntouched(l, op, Key(p, id));
    }
  }

  lemma FreeLeavesNothing(l: Ledger, o: string)
    requires !Blank(o)
    ensures forall p :: Get(Perform(l, FreeOp(o)).reservations, Key(p, Trim(o))) == 0
  {
  }

  lemma ReserveKeepsReleased(s: State, i: nat, id: string)
    requires Released(s, id)
    ensures Released(DoReserve(s, i), id)
  {
    hide Reserve;
    if i < |s.attempts| && s.attempts[i].phase == Reserving && s.attempts[i].held < |Items(s.attempts[i])| {
      var item := Items(s.attempts[i])[s.attempts[i].held];
      OtherOpKeeps(s.ledger, ReserveOp(item.productID, s.attempts[i].event.orderID, item.quantity), id);
    }
  }

  lemma UnheardKeepsReleased(s: State, i: nat, id: string)
    requires Released(s, id)
    ensures Released(DoReserveUnheard(s, i), id)
  {
    hide Reserve;
    if i < |s.attempts| && s.attempts[i].phase == Reserving && s.attempts[i].held < |Items(s.attempts[i])| {
      var item := Items(s.attempts[i])[s.attempts[i].held];
      OtherOpKeeps(s.ledger, ReserveOp(item.productID, s.attempts[i].event.orderID, item.quantity), id);
    }
  }

  lemma UndoKeepsReleased(s: State, i: nat, id: string)
    requires Released(s, id)
    ensures Released(DoUndo(s, i), id)
  {
    hide Release;
    if i < |s.attempts| && s.attempts[i].phase == RollingBack && 0 < s.attempts[i].held <= |Items(s.attempts[i])| {
      var item := Items(s.attempts[i])[s.attempts[i].held - 1];
      OtherOpKeeps(s.ledger, ReleaseOp(item.productID, s.attempts[i].event.orderID, item.quantity), id);
    }
  }

  lemma FreeKeepsReleased(s: State, e: Event, id: string)
    requires Released(s, id)
    ensures Released(Do(s, ReleaseOrder(e)), id)
  {
    hide Trim, Perform;
    if Deliverable(s, InventoryGroup, e) && e.OrderCancelled? {
      if Trim(e.orderID) != id {
        OtherOpKeeps(s.ledger, FreeOp(e.orderID), id);
      } else if !Blank(e.orderID) {
        FreeLeavesNothing(s.ledger, e.orderID);
      } else {
        BlankFreesNothing(s.ledger, e.orderID);
      }
    }
  }

  lemma BlankFreesNothing(l: Ledger, o: string)
    requires Blank(o)
    ensures Perform(l, FreeOp(o)) == l
  {
    hide Trim;
  }

  lemma StepKeepsReleased(s: State, step: Step, id: string)
    requires Released(s, id) && !Begins(step, id)
    ensures Released(Do(s, step), id)
  {
    hide Trim, Handle, CreateTx, DoReserve, DoReserveUnheard, DoUndo, DoPay, Payments.ActOn, Payments.Do;
    match step
    case ReserveNext(i) => ReserveKeepsReleased(s, i, id);
    case UndoNext(i) => UndoKeepsReleased(s, i, id);
    case ReleaseOrder(e) => FreeKeepsReleased(s, e, id);
    case ReserveUnheard(i) => UnheardKeepsReleased(s, i, id);
    case Pay(e, pid, at, missed, keyFirst, fault, published, r) =>
      PayLeavesLedger(s, e, pid, at, missed, keyFirst, fault, published, r);
    case _ =>
  }

  lemma PayLeavesLedger(s: State, e: Event, pid: string, at: Clock, missed: bool, keyFirst: bool, fault: Fault,
                        published: bool, r: string)
    ensures DoPay(s, e, pid, at, missed, keyFirst, fault, published, r).ledger == s.ledger
    ensures DoPay(s, e, pid, at, missed, keyFirst, fault, published, r).attempts == s.attempts
  {
    hide Payments.Requested, Payments.Create, Payments.Do, Trim;
  }

  lemma {:induction false} BehaviourKeepsReleased(states: seq<State>, steps: seq<Step>, m: nat, n: nat, id: string)
    requires Behaviour(states, steps) && m <= n <= |steps| && Released(states[m], id)
    requires forall i | m <= i < n :: !Begins(steps[i], id)
    ensures Released(states[n], id)
    decreases n
  {
    hide Released, Begins, Do, Allowed, Init;
    if m < n {
      BehaviourKeepsReleased(states, steps, m, n - 1, id);
      StepKeepsReleased(states[n - 1], steps[n - 1], id);
    }
  }

  lemma ReleaseFrees(s: State, e: Event)
    requires Inv(s) && e.OrderCancelled? && Deliverable(s, InventoryGroup, e) && CreationHandled(s, e.orderID)
    ensures Released(Do(s, ReleaseOrder(e)), e.orderID)
  {
    hide Trim, Consistent, Placed, LedgerOK, AttemptsOK, StatusOK, PayOK, Handle;
    assert MessageOK(e, s.store, s.attempts, s.payments.table);
    StoredAsIs(s.store, e.orderID);
    NonBlankID(s.store, e.orderID);
    FreeLeavesNothing(s.ledger, e.orderID);
  }

  /** Once its creation has been handled, handling a cancelled order's order.cancelled message gives back everything it
      holds, however often it was reserved, and it never holds anything again unless order.created is handled again. */
  lemma CancelledOrderHoldsNothing(states: seq<State>, steps: seq<Step>, m: nat, n: nat, e: Event, p: string)
    requires Behaviour(states, steps) && m < n <= |steps|
    requires steps[m] == ReleaseOrder(e) && e.OrderCancelled? && Deliverable(states[m], InventoryGroup, e)
    requires CreationHandled(states[m], e.orderID) && forall i | m < i < n :: !Begins(steps[i], e.orderID)
    ensures Get(states[n].ledger.reservations, Key(p, e.orderID)) == 0
  {
    BehaviourInv(states, steps, m);
    hide Inv, Do, Begins, Init;
    ReleaseFrees(states[m], e);
    BehaviourKeepsReleased(states, steps, m + 1, n, e.orderID);
  }
}
