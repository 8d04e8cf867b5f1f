/** The transitions of an order in the fields of its row: which calls move it, to what, and what is announced. */
module OrderTransitions {
  import opened Wrappers
  import opened Text
  import opened Enums
  import opened Domain
  import opened OrderStore
  import opened OrderLifecycle

  /** The order's row of the outbox tells of its cancellation. */
  predicate TellsCancelled(row: OutboxRow, id: string, customerID: string, reason: string, now: Time) {
    && row.topic == "order.cancelled" && row.key == id
    && row.payload.OrderCancelled? && row.payload.orderID == id && row.payload.customerID == customerID
    && row.payload.reason == reason
    && row.attempts == 0 && row.lockedAt == None && row.publishedAt == None && row.createdAt == now - now % 1000
  }

  /** The order takes this status and reason, and a cancelled one its row in the outbox; nothing else changes. */
  ghost predicate Becomes(s: Store, id: string, status: OrderStatus, reason: string, now: Time, s': Store) {
    && id in s.orders && id in s'.orders && s'.orders == s.orders[id := s'.orders[id]]
    && (var (o, o') := (s.orders[id], s'.orders[id]);
        && o'.status == status && o'.cancelReason == reason && o'.updatedAt == now - now % 1000
        && o'.id == id && o'.customerID == o.customerID && o'.idempotencyKey == o.idempotencyKey
        && o'.items == o.items && o'.total == o.total && o'.address == o.address && o'.payment == o.payment
        && o'.createdAt == o.createdAt)
    && if status == Cancelled then
         && CancelledID(id) in s'.outbox && s'.outbox == s.outbox[CancelledID(id) := s'.outbox[CancelledID(id)]]
         && TellsCancelled(s'.outbox[CancelledID(id)], id, s.orders[id].customerID, reason, now)
       else s'.outbox == s.outbox
  }

  predicate StatusIn(s: Store, id: string, statuses: set<OrderStatus>) {
    id in s.orders && s.orders[id].status in statuses
  }

  /** inventory.reserved: a pending order then waits for payment. */
  ghost predicate ReservedEffect(s: Store, id: string, now: Time, s': Store) {
    if StatusIn(s, id, {Pending}) then Becomes(s, id, AwaitingPayment, "", now, s') else s' == s
  }

  /** payment.captured: an open order is then confirmed. */
  ghost predicate CapturedEffect(s: Store, id: string, now: Time, s': Store) {
    if StatusIn(s, id, {Pending, AwaitingPayment}) then Becomes(s, id, Confirmed, "", now, s') else s' == s
  }

  /** A failure: an open order is then cancelled, for the reason given, or for `phrase` when none is given. */
  ghost predicate FailureEffect(s: Store, id: string, reason: string, phrase: string, now: Time, s': Store) {
    if StatusIn(s, id, {Pending, AwaitingPayment})
    then Becomes(s, id, Cancelled, if Trim(reason) != "" then Trim(reason) else phrase, now, s') else s' == s
  }

  /** A customer's cancel: it must give a reason, and the order must not have left for good. */
  ghost predicate CancelEffect(s: Store, id: string, reason: string, now: Time, s': Store) {
    if Trim(reason) != "" && StatusIn(s, id, {Pending, AwaitingPayment, Confirmed})
    then Becomes(s, id, Cancelled, Trim(reason), now, s') else s' == s
  }

  /** An event's call answers with the order as it then stands. */
  ghost predicate AnswersEvent(s: Store, id: string, s': Store, r: Result<Order, OrderError>) {
    if id in s.orders then id in s'.orders && r == Ok(s'.orders[id]) else r == Err(OrderNotFound)
  }

  ghost predicate AnswersCancel(s: Store, id: string, reason: string, s': Store, r: Result<Order, OrderError>) {
    if Trim(id) == "" then r == Err(InvalidOrderID)
    else if Trim(reason) == "" then r == Err(InvalidOrder)
    else if id !in s.orders then r == Err(OrderNotFound)
    else if s.orders[id].status !in {Pending, AwaitingPayment, Confirmed, Cancelled}
         then r == Err(OrderCannotBeCancelled)
    else id in s'.orders && r == Ok(s'.orders[id])
  }

  /** What a consumer's event does to the orders. */
  ghost predicate EventEffect(s: Store, e: Event, now: Time, s': Store) {
    match e
    case InventoryReserved(id, _, _, _, _) => ReservedEffect(s, id, now, s')
    case ReservationFailed(id, _, _, r) => FailureEffect(s, id, r, "inventory reservation failed", now, s')
    case PaymentCaptured(id, _, _, _) => CapturedEffect(s, id, now, s')
    case PaymentFailed(id, _, _, _, r) => FailureEffect(s, id, r, "payment failed", now, s')
    case PaymentCreationFailed(id, _, r) => FailureEffect(s, id, r, "payment creation failed", now, s')
    case _ => s' == s
  }

  // ----- the status machine in these words -----

  lemma PhrasesAreTrimmed()
    ensures Trim("inventory reservation failed") == "inventory reservation failed"
    ensures Trim("payment failed") == "payment failed"
    ensures Trim("payment creation failed") == "payment creation failed"
  {
    TrimIsTrimmed("inventory reservation failed");
    TrimIsTrimmed("payment failed");
    TrimIsTrimmed("payment creation failed");
    hide Trim;
  }

  /** The order a decision writes: its status and its reason. */
  lemma DecisionIs(o: Order, c: Command, now: Clock)
    ensures var d := Decide(o, c, now);
            match c
            case MarkInventoryReserved =>
              (d.Write? <==> o.status == Pending) && !d.Reject?
              && (d.Write? ==> d.order == o.(status := AwaitingPayment, cancelReason := "", updatedAt := now))
            case MarkPaymentCaptured =>
              (d.Write? <==> o.status in {Pending, AwaitingPayment}) && !d.Reject?
              && (d.Write? ==> d.order == o.(status := Confirmed, cancelReason := "", updatedAt := now))
            case CancelOrder(r) =>
              && (d.Write? <==> Trim(r) != "" && o.status in {Pending, AwaitingPayment, Confirmed})
              && (d.Write? ==> d.order == o.(status := Cancelled, cancelReason := Trim(r), updatedAt := now))
              && (d == Reject(InvalidOrder) <==> Trim(r) == "")
              && (d.Reject? && Trim(r) != "" <==>
                  Trim(r) != "" && o.status !in {Pending, AwaitingPayment, Confirmed, Cancelled})
              && (d.Reject? && Trim(r) != "" ==> d.error == OrderCannotBeCancelled)
            case _ =>
              (d.Write? <==> o.status in {Pending, AwaitingPayment}) && !d.Reject?
              && (d.Write? ==> d.order == o.(status := Cancelled, cancelReason := Trim(ReasonOf(c)), updatedAt := now))
  {
    hide Trim, ReasonOf;
    if c.CancelOrder? {
      CancelReasonIs(c.reason);
    }
  }

  lemma CancelReasonIs(r: string)
    ensures ReasonOf(CancelOrder(r)) == r
  {
    hide Trim;
  }

  /** The reason of a failure: the given one, or the stock phrase. */
  lemma ReasonIs(r: string)
    ensures Trim(ReasonOf(MarkInventoryReservationFailed(r))) ==
            if Trim(r) != "" then Trim(r) else "inventory reservation failed"
    ensures Trim(ReasonOf(MarkPaymentFailed(r))) == if Trim(r) != "" then Trim(r) else "payment failed"
    ensures Trim(ReasonOf(MarkPaymentCreationFailed(r))) == if Trim(r) != "" then Trim(r) else "payment creation failed"
  {
    hide Trim;
    PhrasesAreTrimmed();
  }

  lemma WrittenIs(o: Order, status: OrderStatus, reason: string, now: Clock)
    requires Persisted(o) == o && Trim(reason) == reason
    ensures Persisted(o.(status := status, cancelReason := reason, updatedAt := now)) ==
            o.(status := status, cancelReason := reason, updatedAt := now - now % 1000)
  {
    hide Trim;
  }

  lemma CancelledTells(o: Order, now: Clock)
    ensures TellsCancelled(CancelledRow(o, now), o.id, o.customerID, o.cancelReason, now)
  {
  }

  /** A decision written to a consistent store. */
  lemma WriteBecomes(s: Store, id: string, c: Command, now: Clock, status: OrderStatus, reason: string)
    requires Consistent(s) && id in s.orders && Trim(reason) == reason
    requires Decide(s.orders[id], c, now) ==
             Write(s.orders[id].(status := status, cancelReason := reason, updatedAt := now))
    ensures Becomes(s, id, status, reason, now, Handle(s, id, c, now))
    ensures Reply(s, id, c, now).Ok? ==> Reply(s, id, c, now).value == Handle(s, id, c, now).orders[id]
  {
    hide Consistent, Handle, Decide, Persisted, Trim, CancelledRow, TellsCancelled, Reply;
    HandleEffect(s, id, c, now);
    StoredAsIs(s, id);
    WrittenIs(s.orders[id], status, reason, now);
    CancelledTells(Persisted(s.orders[id].(status := status, cancelReason := reason, updatedAt := now)), now);
    CallSucceedsIff(s, id, c, now);
  }

  lemma UnwrittenKeeps(s: Store, id: string, c: Command, now: Clock)
    requires id in s.orders ==> !Decide(s.orders[id], c, now).Write?
    ensures Handle(s, id, c, now) == s
  {
    hide Decide;
  }

  lemma EventAnswers(s: Store, id: string, c: Command, now: Clock)
    requires Consistent(s) && !c.CancelOrder?
    ensures AnswersEvent(s, id, Handle(s, id, c, now), Reply(s, id, c, now))
  {
    CallSucceedsIff(s, id, c, now);
    hide Consistent, Handle, Decide, UpdateAtomic;
  }

  lemma ReservedIs(s: Store, id: string, now: Clock)
    requires Consistent(s)
    ensures ReservedEffect(s, id, now, Handle(s, id, MarkInventoryReserved, now))
  {
    hide Consistent, Handle, Decide, Becomes, Trim;
    EmptyIsBlank();
    if id in s.orders {
      DecisionIs(s.orders[id], MarkInventoryReserved, now);
    }
    if StatusIn(s, id, {Pending}) {
      WriteBecomes(s, id, MarkInventoryReserved, now, AwaitingPayment, "");
    } else {
      UnwrittenKeeps(s, id, MarkInventoryReserved, now);
    }
  }

  lemma CapturedIs(s: Store, id: string, now: Clock)
    requires Consistent(s)
    ensures CapturedEffect(s, id, now, Handle(s, id, MarkPaymentCaptured, now))
  {
    hide Consistent, Handle, Decide, Becomes, Trim;
    EmptyIsBlank();
    if id in s.orders {
      DecisionIs(s.orders[id], MarkPaymentCaptured, now);
    }
    if StatusIn(s, id, {Pending, AwaitingPayment}) {
      WriteBecomes(s, id, MarkPaymentCaptured, now, Confirmed, "");
    } else {
      UnwrittenKeeps(s, id, MarkPaymentCaptured, now);
    }
  }

  lemma FailureIs(s: Store, id: string, c: Command, reason: string, phrase: string, now: Clock)
    requires Consistent(s) && c != MarkInventoryReserved && c != MarkPaymentCaptured && !c.CancelOrder?
    requires Trim(ReasonOf(c)) == if Trim(reason) != "" then Trim(reason) else phrase
    ensures FailureEffect(s, id, reason, phrase, now, Handle(s, id, c, now))
  {
    hide Consistent, Handle, Decide, Becomes, Trim, ReasonOf;
    TrimIsTrimmed(ReasonOf(c));
    if id in s.orders {
      DecisionIs(s.orders[id], c, now);
    }
    if StatusIn(s, id, {Pending, AwaitingPayment}) {
      WriteBecomes(s, id, c, now, Cancelled, Trim(ReasonOf(c)));
    } else {
      UnwrittenKeeps(s, id, c, now);
    }
  }

  /** Every consumed event, on any consistent store, in the words of its order's row. */
  lemma EventIs(s: Store, e: Event, now: Clock)
    requires Consistent(s) && CommandOf(e).Some?
    ensures EventEffect(s, e, now, Handle(s, e.orderID, CommandOf(e).value, now))
    ensures AnswersEvent(s, e.orderID, Handle(s, e.orderID, CommandOf(e).value, now),
                         Reply(s, e.orderID, CommandOf(e).value, now))
  {
    hide Consistent, Handle, ReservedEffect, CapturedEffect, FailureEffect, AnswersEvent, Reply, ReasonOf, Trim;
    var c := CommandOf(e).value;
    EventAnswers(s, e.orderID, c, now);
    match e
    case InventoryReserved(id, _, _, _, _) => ReservedIs(s, id, now);
    case ReservationFailed(id, _, _, r) =>
      ReasonIs(r);
      FailureIs(s, id, c, r, "inventory reservation failed", now);
    case PaymentCaptured(id, _, _, _) => CapturedIs(s, id, now);
    case PaymentFailed(id, _, _, _, r) =>
      ReasonIs(r);
      FailureIs(s, id, c, r, "payment failed", now);
    case PaymentCreationFailed(id, _, r) =>
      ReasonIs(r);
      FailureIs(s, id, c, r, "payment creation failed", now);
  }

  /** The same of a customer's cancel. */
  lemma CancelIs(s: Store, id: string, reason: string, now: Clock)
    requires Consistent(s)
    ensures CancelEffect(s, id, reason, now, Handle(s, id, CancelOrder(reason), now))
    ensures AnswersCancel(s, id, reason, Handle(s, id, CancelOrder(reason), now),
                          Reply(s, id, CancelOrder(reason), now))
  {
    hide Consistent, Handle, Decide, Becomes, Trim, ReasonOf, AnswersCancel;
    TrimIsTrimmed(reason);
    CancelAnswers(s, id, reason, now);
    if id in s.orders {
      DecisionIs(s.orders[id], CancelOrder(reason), now);
    }
    if Trim(reason) != "" && StatusIn(s, id, {Pending, AwaitingPayment, Confirmed}) {
      WriteBecomes(s, id, CancelOrder(reason), now, Cancelled, Trim(reason));
    } else {
      UnwrittenKeeps(s, id, CancelOrder(reason), now);
    }
  }

  lemma CancelAnswers(s: Store, id: string, reason: string, now: Clock)
    requires Consistent(s)
    ensures AnswersCancel(s, id, reason, Handle(s, id, CancelOrder(reason), now),
                          Reply(s, id, CancelOrder(reason), now))
  {
    hide Consistent, Handle, Decide, Trim, ReasonOf, UpdateAtomic;
    CallSucceedsIff(s, id, CancelOrder(reason), now);
    if id in s.orders {
      DecisionIs(s.orders[id], CancelOrder(reason), now);
      NonBlankID(s, id);
    }
  }
}
