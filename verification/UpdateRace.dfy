/**
 Order updates whose statements interleave. The service reads an order, then `UpdateOrder` reads the
 stored status without a lock, then writes; other transactions may commit in between. The write takes
 the row lock, so write, items, outbox insert and commit are one step.
 */
module UpdateRace {
  import opened Wrappers
  import opened Text
  import opened Enums
  import opened Domain
  import opened OrderStore
  import opened OrderLifecycle

  /** A transaction between its two statements: the order it is about to write, and the status it saw. */
  datatype Txn = Txn(order: Order, seen: OrderStatus)

  datatype State = State(store: Store, txns: map<nat, Txn>)

  datatype Step =
    | Create(order: Order, at: Time)
    | Read(txn: nat, order: Order)
    | Commit(txn: nat, at: Time)
    | Abort(txn: nat)

  /** Any order value may be written: whatever stale read it was computed from. */
  function Do(s: State, step: Step): State {
    match step
    case Create(o, at) =>
      if o.status == Cancelled then s
      else (match CreateTx(s.store, o, at) case Ok(store) => s.(store := store) case Err(_) => s)
    case Read(t, o) =>
      if t in s.txns || o.id !in s.store.orders then s
      else s.(txns := s.txns[t := Txn(o, s.store.orders[o.id].status)])
    case Commit(t, at) =>
      if t !in s.txns then s
      else
        var rest := s.txns - {t};
        (match UpdateTx(s.store, s.txns[t].order, s.txns[t].seen, at)
         case Ok(store) => State(store, rest)
         case Err(_) => s.(txns := rest))
    case Abort(t) => s.(txns := s.txns - {t})
  }

  /** A creation is the repository's, and a read with its commit right after it is the update in one step. */
  lemma UndisturbedIsAtomic(s: State, t: nat, o: Order, at: Time)
    requires t !in s.txns && o.id in s.store.orders
    ensures Do(Do(s, Read(t, o)), Commit(t, at)) ==
            State(match UpdateAtomic(s.store, o, at) { case Ok(store) => store case Err(_) => s.store }, s.txns)
    ensures Do(Do(s, Read(t, o)), Abort(t)) == s
  {
    hide UpdateTx;
    assert s.txns[t := Txn(o, s.store.orders[o.id].status)] - {t} == s.txns;
  }

  lemma CreationIs(s: State, o: Order, at: Time)
    requires o.status != Cancelled
    ensures Do(s, Create(o, at)) ==
            s.(store := match CreateTx(s.store, o, at) { case Ok(store) => store case Err(_) => s.store })
  {
    hide CreateTx;
  }

  /** A run from the empty database. */
  ghost predicate Behaviour(states: seq<State>, steps: seq<Step>) {
    && |states| == |steps| + 1
    && states[0] == State(Store(map[], map[]), map[])
    && forall i | 0 <= i < |steps| :: states[i + 1] == Do(states[i], steps[i])
  }

  /** The order.cancelled rows of an order. */
  function CancelledRows(s: Store, id: string): set<RowID> {
    set r | r in s.outbox && s.outbox[r].payload.OrderCancelled? && s.outbox[r].payload.orderID == id
  }

  /** Whoever is, or was seen as, cancelled has its row. */
  ghost predicate Inv(s: State) {
    && (forall id | id in s.store.orders && s.store.orders[id].status == Cancelled :: CancelledID(id) in s.store.outbox)
    && (forall t | t in s.txns && s.txns[t].seen == Cancelled :: CancelledID(s.txns[t].order.id) in s.store.outbox)
    && (forall r | r in s.store.outbox ::
          if r.CancelledID?
          then s.store.outbox[r].payload.OrderCancelled? && s.store.outbox[r].payload.orderID == r.order
          else s.store.outbox[r].payload.OrderCreated?)
  }

  lemma StepKeepsInv(s: State, step: Step)
    requires Inv(s)
    ensures Inv(Do(s, step))
  {
    hide Incomplete, BadContent, OrderStore.KeyTaken, Trim, Stored;
  }

  lemma {:induction false} BehaviourInv(states: seq<State>, steps: seq<Step>, n: nat)
    requires Behaviour(states, steps) && n <= |steps|
    ensures Inv(states[n])
    decreases n
  {
    hide Do;
    if n > 0 {
      BehaviourInv(states, steps, n - 1);
      hide Inv;
      StepKeepsInv(states[n - 1], steps[n - 1]);
    }
  }

  /** In every committed state, however reads and writes interleave, a cancelled order has exactly one order.cancelled
      row, and no order has two. */
  lemma ExactlyOneCancelledRow(states: seq<State>, steps: seq<Step>, n: nat, id: string)
    requires Behaviour(states, steps) && n <= |steps|
    ensures var store := states[n].store;
            && CancelledRows(store, id) <= {CancelledID(id)}
            && (id in store.orders && store.orders[id].status == Cancelled ==>
                CancelledRows(store, id) == {CancelledID(id)})
  {
    hide Do;
    BehaviourInv(states, steps, n);
  }

  // ----- what the unlocked read does cost -----

  /** An update to CANCELLED commits exactly when it saw CANCELLED or the row is not there yet (and the order is
      storable at all). */
  lemma CancelCommitsIff(s: Store, o: Order, seen: OrderStatus, at: Time)
    requires o.status == Cancelled && UpdateTx(s, o.(status := Pending), seen, at).Ok?
    ensures UpdateTx(s, o, seen, at).Ok? <==> seen == Cancelled || CancelledID(o.id) !in s.outbox
  {
    hide Incomplete, BadContent, OrderStore.KeyTaken, Trim, Stored;
  }

  /** What the tables ask of a write, whatever it does to the status. */
  predicate Writable(s: Store, o: Order) {
    && !Incomplete(o.id, o.customerID, o.address, o.payment)
    && o.id in s.orders && !Unstorable(o) && !OrderStore.KeyTaken(s, Trim(o.idempotencyKey), o.id)
  }

  /** A write in closed form. */
  lemma WriteIs(s: Store, o: Order, seen: OrderStatus, at: Time)
    ensures UpdateTx(s, o, seen, at).Ok? <==>
            Writable(s, o) && (o.status == Cancelled && seen != Cancelled ==> CancelledID(o.id) !in s.outbox)
    ensures UpdateTx(s, o, seen, at).Ok? ==>
              var s' := UpdateTx(s, o, seen, at).value;
              && s'.orders == s.orders[o.id := Persisted(o)] && Persisted(o).status == o.status
              && s'.outbox.Keys ==
                 s.outbox.Keys + (if o.status == Cancelled && seen != Cancelled then {CancelledID(o.id)} else {})
              && (o.status != Cancelled ==> s'.outbox == s.outbox)
  {
    hide Incomplete, Unstorable, OrderStore.KeyTaken, Trim, Stored, CancelledRow;
  }

  /** This step takes the order out of CANCELLED. */
  predicate Revives(s: State, step: Step, id: string) {
    step.Commit? && step.txn in s.txns
    && s.txns[step.txn].order.id == id && s.txns[step.txn].order.status != Cancelled
    && Writable(s.store, s.txns[step.txn].order)
  }

  /** Which steps take a cancelled order out of CANCELLED: exactly the commits of a writable order that is not
      cancelled. */
  lemma StepRevivesIff(s: State, step: Step, id: string)
    requires id in s.store.orders && s.store.orders[id].status == Cancelled
    ensures id in Do(s, step).store.orders
    ensures Do(s, step).store.orders[id].status != Cancelled <==> Revives(s, step, id)
  {
    hide UpdateTx, Writable, Persisted, Incomplete, Unstorable, RowRejected, OrderStore.KeyTaken, Trim, CreatedRow;
    if step.Commit? && step.txn in s.txns {
      WriteIs(s.store, s.txns[step.txn].order, s.txns[step.txn].seen, step.at);
    }
  }

  /** Which steps cancel a live order: the commits of a writable cancelled one that either saw it cancelled already or
      find no order.cancelled row. */
  lemma StepCancelsIff(s: State, step: Step, id: string)
    requires id in s.store.orders && s.store.orders[id].status != Cancelled
    ensures id in Do(s, step).store.orders
    ensures Do(s, step).store.orders[id].status == Cancelled <==>
            && step.Commit? && step.txn in s.txns
            && s.txns[step.txn].order.id == id && s.txns[step.txn].order.status == Cancelled
            && Writable(s.store, s.txns[step.txn].order)
            && (s.txns[step.txn].seen == Cancelled || CancelledID(id) !in s.store.outbox)
  {
    hide UpdateTx, Writable, Persisted, Incomplete, Unstorable, RowRejected, OrderStore.KeyTaken, Trim, CreatedRow;
    if step.Commit? && step.txn in s.txns {
      WriteIs(s.store, s.txns[step.txn].order, s.txns[step.txn].seen, step.at);
    }
  }

  ghost predicate CancelledAt(s: State, id: string) {
    id in s.store.orders && s.store.orders[id].status == Cancelled
  }

  /** Over any stretch of any run a cancelled order stays cancelled exactly when no such commit falls into it. */
  lemma {:induction false} StaysCancelledIff(states: seq<State>, steps: seq<Step>, m: nat, n: nat, id: string)
    requires Behaviour(states, steps) && m <= n <= |steps| && CancelledAt(states[m], id)
    ensures (forall k | m <= k <= n :: CancelledAt(states[k], id)) <==>
            (forall i | m <= i < n :: !Revives(states[i], steps[i], id))
    decreases n
  {
    hide Do, Revives;
    if m < n {
      StaysCancelledIff(states, steps, m, n - 1, id);
      if k :| m <= k <= n - 1 && !CancelledAt(states[k], id) {
        var i :| m <= i < n - 1 && Revives(states[i], steps[i], id);
      } else {
        StepRevivesIff(states[n - 1], steps[n - 1], id);
        assert CancelledAt(states[n], id) <==> !Revives(states[n - 1], steps[n - 1], id);
      }
    }
  }

  /**
   The service's own writes: a decision made before a customer's cancel and written after it, whatever status its first
   statement saw. The order stays cancelled exactly when the decision was itself to cancel; an order that was reserved
   or captured comes back, with its order.cancelled row out.
   */
  lemma StaleDecisionRevivesIff(s: Store, id: string, c: Command, now: Clock, stale: Order, reason: string,
                                between: Clock, seen: OrderStatus, at: Clock)
    requires Consistent(s) && id in s.orders && Decide(s.orders[id], c, now) == Write(stale) && !Blank(reason)
    ensures var s1 := Handle(s, id, CancelOrder(reason), between);
            && id in s1.orders && s1.orders[id].status == Cancelled && CancelledID(id) in s1.outbox
            && var r := UpdateTx(s1, stale, seen, at);
               var s2 := if r.Ok? then r.value else s1;
               && id in s2.orders && CancelledID(id) in s2.outbox
               && (s2.orders[id].status == Cancelled <==> c != MarkInventoryReserved && c != MarkPaymentCaptured)
               && (r.Ok? <==> stale.status != Cancelled || seen == Cancelled)
               && (stale.status != Cancelled ==> r == Ok(s1.(orders := s1.orders[id := Persisted(stale)])))
  {
    hide Handle, UpdateTx, Persisted, Consistent, Decide, Spent, Trim, Stored, CancelledRow, CreatedEvent, AsCreated;
    StoredAsIs(s, id);
    WritesMoveForward(s.orders[id], c, now);
    OpenCancel(s.orders[id], c, now, reason, between);
    HandleEffect(s, id, CancelOrder(reason), between);
    HandleKeepsConsistent(s, id, CancelOrder(reason), between);
    HandleKeepsContent(s, id, CancelOrder(reason), between);
    var s1 := Handle(s, id, CancelOrder(reason), between);
    WriteIs(s1, stale, seen, at);
    DecisionContent(s.orders[id], c, now);
    ContentIsWritable(s1, id, stale);
  }

  /** An order that some command can still write can be cancelled. */
  lemma OpenCancel(o: Order, c: Command, now: Clock, reason: string, between: Clock)
    requires Decide(o, c, now).Write? && !Blank(reason)
    ensures Decide(o, CancelOrder(reason), between) == Write(Cancelling(o, reason, between))
    ensures Persisted(Cancelling(o, reason, between)).status == Cancelled && Decide(o, c, now).order.id == o.id
  {
    hide Trim, Stored, Blank;
  }

  lemma DecisionContent(o: Order, c: Command, now: Clock)
    requires Decide(o, c, now).Write?
    ensures AsCreated(Decide(o, c, now).order) == AsCreated(o) && Decide(o, c, now).order.updatedAt == now
  {
    hide Trim, Blank, ReasonOf;
  }

  /** An order with the content of a stored one is writable. */
  lemma ContentIsWritable(s: Store, id: string, o: Order)
    requires Consistent(s) && id in s.orders && AsCreated(o) == AsCreated(s.orders[id]) && o.updatedAt != 0
    ensures Writable(s, o)
  {
    hide CreatedEvent, CancelledEvent, Incomplete, BadContent, Trim, Stored;
    assert OrderConsistent(s, id);
    hide OrderConsistent;
    assert Trim(o.idempotencyKey) == o.idempotencyKey == s.orders[id].idempotencyKey;
  }

  /** When a customer's cancel of a cancellable order works: exactly when the order is writable and its order.cancelled
      row is not out yet. Otherwise it changes nothing, so a revived order cannot be cancelled by any later call. */
  lemma CancelWorksIff(s: Store, id: string, reason: string, now: Clock)
    requires id in s.orders && s.orders[id].id == id && CanCancel(s.orders[id].status) && !Blank(reason)
    ensures var s' := Handle(s, id, CancelOrder(reason), now);
            && id in s'.orders
            && (s'.orders[id].status == Cancelled <==>
                  Writable(s, Cancelling(s.orders[id], reason, now)) && CancelledID(id) !in s.outbox)
            && (s'.orders[id].status != Cancelled ==> s' == s)
  {
    hide UpdateTx, Writable, Persisted, Trim, Blank;
    WriteIs(s, Cancelling(s.orders[id], reason, now), s.orders[id].status, now);
  }

  // ----- going back -----

  /** This step writes the order with a status before the stored one. */
  predicate Lowers(s: State, step: Step, id: string) {
    step.Commit? && step.txn in s.txns && s.txns[step.txn].order.id == id
    && var o := s.txns[step.txn].order;
       && Writable(s.store, o) && Rank(o.status) < Rank(s.store.orders[id].status)
       && (o.status == Cancelled && s.txns[step.txn].seen != Cancelled ==> CancelledID(id) !in s.store.outbox)
  }

  function RankAt(s: State, id: string): int {
    if id in s.store.orders then Rank(s.store.orders[id].status) else -1
  }

  lemma StepLowersIff(s: State, step: Step, id: string)
    ensures RankAt(Do(s, step), id) < RankAt(s, id) <==> Lowers(s, step, id)
  {
    hide UpdateTx, Writable, Persisted, Incomplete, Unstorable, RowRejected, OrderStore.KeyTaken, Trim, CreatedRow;
    if step.Commit? && step.txn in s.txns {
      WriteIs(s.store, s.txns[step.txn].order, s.txns[step.txn].seen, step.at);
      WritableIsStored(s.store, s.txns[step.txn].order);
    }
  }

  lemma WritableIsStored(s: Store, o: Order)
    ensures Writable(s, o) ==> o.id in s.orders
  {
  }

  /** Over any stretch of any run an order only ever moves forward exactly when no commit writes an earlier status over
      a later one. */
  lemma {:induction false} OnlyForwardIff(states: seq<State>, steps: seq<Step>, m: nat, n: nat, id: string)
    requires Behaviour(states, steps) && m <= n <= |steps|
    ensures (forall i, j | m <= i <= j <= n :: RankAt(states[i], id) <= RankAt(states[j], id)) <==>
            (forall k | m <= k < n :: !Lowers(states[k], steps[k], id))
    decreases n
  {
    hide Do, Lowers, RankAt;
    if m < n {
      OnlyForwardIff(states, steps, m, n - 1, id);
      StepLowersIff(states[n - 1], steps[n - 1], id);
      assert Lowers(states[n - 1], steps[n - 1], id) <==> RankAt(states[n], id) < RankAt(states[n - 1], id);
    }
  }

  predicate ReportsFailure(c: Command) {
    c.MarkInventoryReservationFailed? || c.MarkPaymentFailed? || c.MarkPaymentCreationFailed?
  }

  /**
   The service's own writes, however old the order they were decided on: the stored order moves forward exactly when the
   command is still unspent on it, or is a failure that meets a confirmed order; it moves back exactly when a
   reservation meets an order past waiting for payment or a capture one past confirmation.
   */
  lemma StaleDecisionMoves(s: Store, o: Order, c: Command, now: Clock, w: Order, seen: OrderStatus, at: Time)
    requires Decide(o, c, now) == Write(w) && UpdateTx(s, w, seen, at).Ok?
    ensures w.id in s.orders && w.id in UpdateTx(s, w, seen, at).value.orders
    ensures var (was, becomes) := (s.orders[w.id].status, UpdateTx(s, w, seen, at).value.orders[w.id].status);
            && (Rank(was) < Rank(becomes) <==> !Spent(was, c) || (ReportsFailure(c) && was == Confirmed))
            && (CanCancel(was) || was == Cancelled ==>
                  (Rank(becomes) < Rank(was) <==>
                    || (c == MarkInventoryReserved && was != Pending && was != AwaitingPayment)
                    || (c == MarkPaymentCaptured && was == Cancelled)))
  {
    hide UpdateTx, Writable, Persisted, Trim, Blank, ReasonOf;
    WriteIs(s, w, seen, at);
    WritableIsStored(s, w);
  }

  // ----- the reason -----

  /** A cancelled order's row tells of the order as it is stored, with its reason. */
  predicate RowAgrees(s: State, id: string) {
    id in s.store.orders && s.store.orders[id].status == Cancelled ==>
      CancelledID(id) in s.store.outbox && s.store.outbox[CancelledID(id)].payload == CancelledEvent(s.store.orders[id])
  }

  /** This step cancels a cancelled order again, with other content than its row. */
  predicate Overwrites(s: State, step: Step, id: string) {
    step.Commit? && step.txn in s.txns && s.txns[step.txn].order.id == id && s.txns[step.txn].seen == Cancelled
    && var o := s.txns[step.txn].order;
       && o.status == Cancelled && Writable(s.store, o) && CancelledID(id) in s.store.outbox
       && s.store.outbox[CancelledID(id)].payload != CancelledEvent(Persisted(o))
  }

  lemma StepOverwritesIff(s: State, step: Step, id: string)
    requires Inv(s) && RowAgrees(s, id)
    ensures RowAgrees(Do(s, step), id) <==> !Overwrites(s, step, id)
  {
    hide UpdateTx, Writable, Persisted, CancelledEvent, Incomplete, Unstorable, RowRejected, OrderStore.KeyTaken, Trim,
         CreatedRow;
    if step.Commit? && step.txn in s.txns {
      var x := s.txns[step.txn];
      WriteIs(s.store, x.order, x.seen, step.at);
      WriteRow(s.store, x.order, x.seen, step.at);
      WritableIsStored(s.store, x.order);
    } else if step.Create? {
      PersistedStatus(step.order);
    }
  }

  lemma PersistedStatus(o: Order)
    ensures Persisted(o).status == o.status
  {
    hide Trim, Stored;
  }

  /** A write leaves the rows that are there, and a new one tells of the order written. */
  lemma WriteRow(s: Store, o: Order, seen: OrderStatus, at: Time)
    ensures UpdateTx(s, o, seen, at).Ok? ==>
            var s' := UpdateTx(s, o, seen, at).value;
            && (forall r | r in s.outbox :: r in s'.outbox && s'.outbox[r] == s.outbox[r])
            && (o.status == Cancelled && seen != Cancelled ==>
                s'.outbox[CancelledID(o.id)].payload == CancelledEvent(Persisted(o)))
  {
    hide Incomplete, Unstorable, OrderStore.KeyTaken, Trim, Stored, CancelledEvent, Persisted;
  }

  /** Over any run a cancelled order and its order.cancelled row tell the same, reason included, exactly when no commit
      that saw the order cancelled writes another cancellation over it. */
  lemma {:induction false} RowAgreesIff(states: seq<State>, steps: seq<Step>, n: nat, id: string)
    requires Behaviour(states, steps) && n <= |steps|
    ensures (forall k | 0 <= k <= n :: RowAgrees(states[k], id)) <==>
            (forall k | 0 <= k < n :: !Overwrites(states[k], steps[k], id))
    decreases n
  {
    hide Do, Overwrites, Inv, CancelledEvent;
    if n > 0 {
      RowAgreesIff(states, steps, n - 1, id);
      BehaviourInv(states, steps, n - 1);
      if RowAgrees(states[n - 1], id) {
        StepOverwritesIff(states[n - 1], steps[n - 1], id);
        assert RowAgrees(states[n], id) <==> !Overwrites(states[n - 1], steps[n - 1], id);
      }
    }
  }

  /**
   The service's own writes: a decision to cancel made before a customer's cancel and written after it. The order's row
   and its stored reason stay the same exactly when the write did not see the cancel, and so was refused, or gives the
   same reason.
   */
  lemma StaleCancelKeepsReasonIff(s: Store, id: string, c: Command, now: Clock, stale: Order, reason: string,
                                  between: Clock, seen: OrderStatus, at: Clock)
    requires Consistent(s) && id in s.orders && Decide(s.orders[id], c, now) == Write(stale)
             && stale.status == Cancelled
    requires !Blank(reason)
    ensures var s1 := Handle(s, id, CancelOrder(reason), between);
            var r := UpdateTx(s1, stale, seen, at);
            var s2 := if r.Ok? then r.value else s1;
            && id in s2.orders && CancelledID(id) in s2.outbox
            && s2.outbox[CancelledID(id)].payload == OrderCancelled(id, s.orders[id].customerID, Trim(reason))
            && (s2.orders[id].cancelReason == Trim(reason) <==> seen != Cancelled || Trim(ReasonOf(c)) == Trim(reason))
  {
    hide Handle, UpdateTx, Consistent, Decide, Spent, Trim, Stored, CreatedEvent, AsCreated, ReasonOf;
    StoredAsIs(s, id);
    WritesMoveForward(s.orders[id], c, now);
    OpenCancel(s.orders[id], c, now, reason, between);
    HandleEffect(s, id, CancelOrder(reason), between);
    StaleDecisionRevivesIff(s, id, c, now, stale, reason, between, seen, at);
    var s1 := Handle(s, id, CancelOrder(reason), between);
    TrimIsTrimmed(reason);
    TrimIsTrimmed(ReasonOf(c));
    CancelWritesReason(s.orders[id], c, now);
    WriteIs(s1, stale, seen, at);
    WriteRow(s1, stale, seen, at);
  }

  lemma CancelWritesReason(o: Order, c: Command, now: Clock)
    requires Decide(o, c, now).Write? && Decide(o, c, now).order.status == Cancelled
    ensures Decide(o, c, now).order.cancelReason == Trim(ReasonOf(c))
  {
    hide Trim, ReasonOf, Blank;
  }
}
