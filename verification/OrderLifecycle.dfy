/** The status machine of an order, and its behaviour under redelivered events. */
module OrderLifecycle {
  import opened Wrappers
  import opened Text
  import opened Enums
  import opened Domain
  import opened OrderStore

  /** What can happen to an existing order: five consumed events, and the customer's cancel. */
  datatype Command =
    | MarkInventoryReserved
    | MarkInventoryReservationFailed(reason: string)
    | MarkPaymentCaptured
    | MarkPaymentFailed(reason: string)
    | MarkPaymentCreationFailed(reason: string)
    | CancelOrder(reason: string)

  datatype Decision = Keep | Write(order: Order) | Reject(error: OrderError)

  /** The reason a failure event carries, or the stock phrase when it carries none. */
  function ReasonOf(c: Command): string {
    match c
    case MarkInventoryReservationFailed(r) => if Blank(r) then "inventory reservation failed" else r
    case MarkPaymentFailed(r) => if Blank(r) then "payment failed" else r
    case MarkPaymentCreationFailed(r) => if Blank(r) then "payment creation failed" else r
    case CancelOrder(r) => r
    case _ => ""
  }

  function Cancelling(o: Order, reason: string, now: Clock): Order {
    o.(status := Cancelled, cancelReason := Trim(reason), updatedAt := now)
  }

  predicate CanCancel(s: OrderStatus) {
    s == Pending || s == AwaitingPayment || s == Confirmed
  }

  function CancelIfOpen(o: Order, reason: string, now: Clock): Decision {
    match o.status
    case Pending => Write(Cancelling(o, reason, now))
    case AwaitingPayment => Write(Cancelling(o, reason, now))
    case _ => Keep
  }

  function Decide(o: Order, c: Command, now: Clock): Decision {
    match c
    case MarkInventoryReserved =>
      if o.status == Pending then Write(o.(status := AwaitingPayment, cancelReason := "", updatedAt := now)) else Keep
    case MarkInventoryReservationFailed(_) => CancelIfOpen(o, ReasonOf(c), now)
    case MarkPaymentCaptured =>
      if o.status == Pending || o.status == AwaitingPayment
      then Write(o.(status := Confirmed, cancelReason := "", updatedAt := now))
      else Keep
    case MarkPaymentFailed(_) => CancelIfOpen(o, ReasonOf(c), now)
    case MarkPaymentCreationFailed(_) => CancelIfOpen(o, ReasonOf(c), now)
    case CancelOrder(r) =>
      if Blank(r) then Reject(InvalidOrder)
      else if o.status == Cancelled then Keep
      else if !CanCancel(o.status) then Reject(OrderCannotBeCancelled)
      else Write(Cancelling(o, ReasonOf(c), now))
  }

  /** A whole service call, with its read and its write in one step. A failed call changes nothing. */
  function Handle(s: Store, id: string, c: Command, now: Clock): Store {
    if id !in s.orders then s
    else
      match Decide(s.orders[id], c, now)
      case Write(o) => (match UpdateAtomic(s, o, now) case Ok(s') => s' case Err(_) => s)
      case _ => s
  }

  /** What the call returns: the order as it then stands, or the error. */
  function Reply(s: Store, id: string, c: Command, now: Clock): Result<Order, OrderError> {
    if c.CancelOrder? && Blank(id) then Err(InvalidOrderID)
    else if c.CancelOrder? && Blank(c.reason) then Err(InvalidOrder)
    else if id !in s.orders then Err(OrderNotFound)
    else
      match Decide(s.orders[id], c, now)
      case Keep => Ok(s.orders[id])
      case Reject(e) => Err(e)
      case Write(o) => (match UpdateAtomic(s, o, now) case Ok(_) => Ok(Persisted(o)) case Err(e) => Err(e))
  }

  /** The order service's five consumers. */
  function CommandOf(e: Event): Option<Command> {
    match e
    case InventoryReserved(_, _, _, _, _) => Some(MarkInventoryReserved)
    case ReservationFailed(_, _, _, r) => Some(MarkInventoryReservationFailed(r))
    case PaymentCaptured(_, _, _, _) => Some(MarkPaymentCaptured)
    case PaymentFailed(_, _, _, _, r) => Some(MarkPaymentFailed(r))
    case PaymentCreationFailed(_, _, r) => Some(MarkPaymentCreationFailed(r))
    case _ => None
  }

  // ----- replay -----

  datatype Delivery = Delivery(orderID: string, command: Command, at: Clock)

  predicate SameEvent(a: Delivery, b: Delivery) {
    a.orderID == b.orderID && a.command == b.command
  }

  function RunStream(s: Store, stream: seq<Delivery>): Store
    decreases |stream|
  {
    if stream == [] then s
    else RunStream(Handle(s, stream[0].orderID, stream[0].command, stream[0].at), stream[1..])
  }

  /** The stream without redeliveries: of equal events only the first occurrence is kept. */
  function Distinct(stream: seq<Delivery>, seen: seq<Delivery>): seq<Delivery>
    decreases |stream|
  {
    if stream == [] then []
    else if exists d | d in seen :: SameEvent(d, stream[0]) then Distinct(stream[1..], seen)
    else [stream[0]] + Distinct(stream[1..], seen + [stream[0]])
  }

  /** Statuses in which a command is spent. */
  predicate Spent(status: OrderStatus, c: Command) {
    match c
    case MarkInventoryReserved => status != Pending
    case CancelOrder(r) => Blank(r) || !CanCancel(status)
    case _ => status != Pending && status != AwaitingPayment
  }

  // ----- what every reachable store satisfies -----

  /** The order with everything a transition writes set back. */
  function AsCreated(o: Order): Order {
    o.(status := Pending, cancelReason := "", updatedAt := o.createdAt)
  }

  /** One order agrees with itself as stored, and with its rows in the outbox. */
  ghost predicate OrderConsistent(s: Store, id: string)
    requires id in s.orders
  {
    var o := s.orders[id];
    && o.id == id && Trim(id) == id
    && Persisted(o) == o && !Incomplete(id, o.customerID, o.address, o.payment) && !Unstorable(o)
    && CreatedID(id) in s.outbox
    && s.outbox[CreatedID(id)].payload == CreatedEvent(AsCreated(o))
    && (CancelledID(id) in s.outbox <==> o.status == Cancelled)
    && (o.status == Cancelled ==> s.outbox[CancelledID(id)].payload == CancelledEvent(o))
  }

  ghost predicate Consistent(s: Store) {
    && (forall id | id in s.orders :: OrderConsistent(s, id))
    && (forall a, b | a in s.orders && b in s.orders && a != b ::
          s.orders[a].idempotencyKey == "" || s.orders[a].idempotencyKey != s.orders[b].idempotencyKey)
    && (forall r | r in s.outbox :: r.order in s.orders)
  }

  lemma EmptyConsistent()
    ensures Consistent(Store(map[], map[]))
  {
  }

  lemma PersistedTwice(o: Order)
    ensures Persisted(Persisted(o)) == Persisted(o)
  {
    TrimIsTrimmed(o.idempotencyKey);
    TrimIsTrimmed(o.cancelReason);
  }

  lemma CreatedEventIsContent(o: Order)
    requires o.status == Pending
    ensures CreatedEvent(o) == CreatedEvent(AsCreated(Persisted(o)))
  {
  }

  lemma CreateOrdersConsistent(s: Store, o: Order, at: Time, id: string)
    requires Consistent(s) && CreateTx(s, o, at).Ok? && id in CreateTx(s, o, at).value.orders
    requires Trim(o.id) == o.id && o.status == Pending && o.createdAt >= 1000 && o.updatedAt >= 1000
    ensures OrderConsistent(CreateTx(s, o, at).value, id)
  {
    hide CreatedEvent, CancelledEvent, Incomplete, BadContent, Trim, Stored, RowRejected, KeyTaken;
    PersistedTwice(o);
    CreatedEventIsContent(o);
    StoredClock(o.createdAt);
    StoredClock(o.updatedAt);
    assert id != o.id ==> OrderConsistent(s, id);
  }

  /** Adding a generated order keeps the store consistent. */
  lemma CreateKeepsConsistent(s: Store, o: Order, at: Time)
    requires Consistent(s) && CreateTx(s, o, at).Ok?
    requires Trim(o.id) == o.id && o.status == Pending && o.createdAt >= 1000 && o.updatedAt >= 1000
    ensures Consistent(CreateTx(s, o, at).value)
  {
    hide OrderConsistent, CreatedRow, Incomplete, BadContent, Trim, Stored, RowRejected;
    var s' := CreateTx(s, o, at).value;
    forall id | id in s'.orders ensures OrderConsistent(s', id) {
      CreateOrdersConsistent(s, o, at, id);
    }
  }

  /** On a consistent store no transition meets a database error, and only a command not yet spent writes. */
  lemma WriteSucceeds(s: Store, id: string, c: Command, now: Clock)
    requires Consistent(s) && id in s.orders && Decide(s.orders[id], c, now).Write?
    ensures UpdateAtomic(s, Decide(s.orders[id], c, now).order, now).Ok?
    ensures !Spent(s.orders[id].status, c)
  {
    hide CreatedEvent, CancelledEvent, Incomplete, BadContent, Trim, ReasonOf, Stored;
    assert OrderConsistent(s, id);
    var o := Decide(s.orders[id], c, now).order;
    assert Trim(o.idempotencyKey) == o.idempotencyKey;
    assert !KeyTaken(s, o.idempotencyKey, id);
  }

  lemma SpentKeeps(s: Store, id: string, c: Command, now: Clock)
    requires id in s.orders ==> Spent(s.orders[id].status, c)
    ensures Handle(s, id, c, now) == s
  {
    hide ReasonOf, UpdateAtomic, Trim;
  }

  /** A transition in closed form: the database never refuses it, and only this order and its cancelled row change. */
  lemma HandleEffect(s: Store, id: string, c: Command, now: Clock)
    requires Consistent(s) && id in s.orders
    ensures var d, s' := Decide(s.orders[id], c, now), Handle(s, id, c, now);
            if !d.Write? then s' == s
            else
              var o := Persisted(d.order);
              s' == Store(s.orders[id := o],
                          if o.status == Cancelled then s.outbox[CancelledID(id) := CancelledRow(o, now)] else s.outbox)
  {
    hide CreatedEvent, CancelledRow, Incomplete, BadContent, Trim, ReasonOf, Stored;
    if Decide(s.orders[id], c, now).Write? {
      assert OrderConsistent(s, id);
      WriteSucceeds(s, id, c, now);
    }
  }

  /** `o` with its row, put in place of an earlier state of the same order. */
  ghost function Put(s: Store, o: Order, row: OutboxRow): Store {
    Store(s.orders[o.id := o], if o.status == Cancelled then s.outbox[CancelledID(o.id) := row] else s.outbox)
  }

  lemma PutOrderConsistent(s: Store, o: Order, row: OutboxRow, j: string)
    requires j in s.orders && OrderConsistent(s, j)
    requires o.id == j ==> (s.orders[j].status == Cancelled ==> o.status == Cancelled)
                           && AsCreated(o) == AsCreated(s.orders[j]) && Persisted(o) == o && o.updatedAt != 0
                           && row.payload == CancelledEvent(o)
    ensures OrderConsistent(Put(s, o, row), j)
  {
    hide CreatedEvent, CancelledEvent, Incomplete, BadContent, Persisted, Trim;
  }

  lemma PutConsistent(s: Store, o: Order, row: OutboxRow)
    requires Consistent(s) && o.id in s.orders && (s.orders[o.id].status == Cancelled ==> o.status == Cancelled)
    requires AsCreated(o) == AsCreated(s.orders[o.id]) && Persisted(o) == o && o.updatedAt != 0
    requires row.payload == CancelledEvent(o)
    ensures Consistent(Put(s, o, row))
  {
    hide OrderConsistent, CreatedEvent, CancelledEvent, Persisted;
    forall j | j in s.orders ensures OrderConsistent(Put(s, o, row), j) {
      PutOrderConsistent(s, o, row, j);
    }
  }

  lemma StoredAsIs(s: Store, id: string)
    requires Consistent(s) && id in s.orders
    ensures Persisted(s.orders[id]) == s.orders[id] && s.orders[id].id == id && Trim(id) == id
  {
    hide CreatedEvent, CancelledEvent, Incomplete, BadContent, Trim, Stored, AsCreated;
    assert OrderConsistent(s, id);
  }

  /** A write touches the status, the reason and the time of the last change, and nothing else. */
  lemma DecisionKeepsContent(o: Order, c: Command, now: Clock)
    requires Persisted(o) == o && Decide(o, c, now).Write?
    ensures AsCreated(Persisted(Decide(o, c, now).order)) == AsCreated(o)
    ensures o.status != Cancelled
  {
    hide Trim, Stored, ReasonOf;
  }

  lemma HandleKeepsContent(s: Store, id: string, c: Command, now: Clock)
    requires Consistent(s)
    ensures var s' := Handle(s, id, c, now);
            && s'.orders.Keys == s.orders.Keys
            && (id in s.orders ==> s'.orders == s.orders[id := s'.orders[id]]
                                   && AsCreated(s'.orders[id]) == AsCreated(s.orders[id])
                                   && (s.orders[id].status == Cancelled ==> s'.orders[id].status == Cancelled))
            && (id !in s.orders ==> s' == s)
  {
    hide Consistent, AsCreated, Persisted, Handle, Decide, CancelledRow;
    if id in s.orders {
      HandleEffect(s, id, c, now);
      StoredAsIs(s, id);
      if Decide(s.orders[id], c, now).Write? {
        DecisionKeepsContent(s.orders[id], c, now);
      }
    } else {
      AbsentKeeps(s, id, c, now);
    }
  }

  lemma HandleKeepsConsistent(s: Store, id: string, c: Command, now: Clock)
    requires Consistent(s)
    ensures Consistent(Handle(s, id, c, now))
  {
    hide CreatedEvent, CancelledEvent, Incomplete, BadContent, Trim, ReasonOf, Stored, Handle;
    if id !in s.orders {
      AbsentKeeps(s, id, c, now);
    } else {
      HandleEffect(s, id, c, now);
      var d := Decide(s.orders[id], c, now);
      assert OrderConsistent(s, id);
      if d.Write? {
        PersistedTwice(d.order);
        StoredClock(now);
        PutConsistent(s, Persisted(d.order), CancelledRow(Persisted(d.order), now));
      }
    }
  }

  lemma AbsentKeeps(s: Store, id: string, c: Command, now: Clock)
    requires id !in s.orders
    ensures Handle(s, id, c, now) == s
  {
  }

  /** A decision spends its command, and unspends none. */
  lemma DecisionSpends(o: Order, c: Command, now: Clock)
    ensures var d := Decide(o, c, now);
            && (!d.Write? ==> Spent(o.status, c))
            && (d.Write? ==> d.order.id == o.id && Spent(Persisted(d.order).status, c)
                             && forall e | Spent(o.status, e) :: Spent(Persisted(d.order).status, e))
  {
    hide Trim, Stored, ReasonOf, Blank;
  }

  /** The order in which an order passes through its statuses. */
  function Rank(s: OrderStatus): int {
    match s
    case Pending => 0
    case AwaitingPayment => 1
    case Confirmed => 2
    case Cancelled => 3
    case _ => 4
  }

  lemma StockReasons()
    ensures !Blank("inventory reservation failed") && !Blank("payment failed") && !Blank("payment creation failed")
  {
    TrimIsTrimmed("inventory reservation failed");
    TrimIsTrimmed("payment failed");
    TrimIsTrimmed("payment creation failed");
    hide Trim;
  }

  lemma ReasonIsGiven(c: Command)
    ensures c != MarkInventoryReserved && c != MarkPaymentCaptured && (c.CancelOrder? ==> !Blank(c.reason)) ==>
            Trim(ReasonOf(c)) != ""
  {
    hide Trim;
    StockReasons();
  }

  /** Exactly an unspent command writes. It moves the order forward, never back or sideways; it cancels exactly when it
      reports a failure or is a cancel; and an order has a reason exactly when it is cancelled. */
  lemma WritesMoveForward(o: Order, c: Command, now: Clock)
    ensures var d := Decide(o, c, now);
            && (d.Write? <==> !Spent(o.status, c))
            && (d.Write? ==>
                  && Rank(o.status) < Rank(d.order.status)
                  && (d.order.status == Cancelled <==> c != MarkInventoryReserved && c != MarkPaymentCaptured)
                  && (d.order.status == Confirmed <==> c == MarkPaymentCaptured)
                  && (d.order.cancelReason != "" <==> d.order.status == Cancelled)
                  && d.order.updatedAt == now)
  {
    hide Trim, ReasonOf;
    ReasonIsGiven(c);
  }

  /** How a call moves the status: the command is spent afterwards, and what was spent stays spent. */
  lemma HandleMovesOn(s: Store, id: string, c: Command, now: Clock)
    requires Consistent(s)
    ensures var s' := Handle(s, id, c, now);
            && s'.orders.Keys == s.orders.Keys
            && (id in s.orders ==> Spent(s'.orders[id].status, c))
            && forall j, d | j in s.orders && Spent(s.orders[j].status, d) :: Spent(s'.orders[j].status, d)
  {
    hide Consistent, CancelledRow, Persisted, Spent, Decide, Handle;
    if id in s.orders {
      HandleEffect(s, id, c, now);
      StoredAsIs(s, id);
      DecisionSpends(s.orders[id], c, now);
    } else {
      AbsentKeeps(s, id, c, now);
    }
  }

  /** When a call succeeds, and with what: an event whenever the order exists, a cancel when moreover it gives a reason
      and the order is cancelled already or still cancellable. The answer is the order as stored afterwards. */
  lemma CallSucceedsIff(s: Store, id: string, c: Command, now: Clock)
    requires Consistent(s)
    ensures Reply(s, id, c, now).Ok? <==>
            && id in s.orders
            && (c.CancelOrder? ==>
                !Blank(c.reason) && (s.orders[id].status == Cancelled || CanCancel(s.orders[id].status)))
    ensures Reply(s, id, c, now).Ok? ==>
              id in Handle(s, id, c, now).orders && Reply(s, id, c, now).value == Handle(s, id, c, now).orders[id]
    ensures Reply(s, id, c, now).Ok? && c.CancelOrder? ==> Reply(s, id, c, now).value.status == Cancelled
  {
    hide Incomplete, BadContent, ReasonOf, UpdateTx, Persisted, CreatedEvent, CancelledEvent, Trim;
    if id in s.orders {
      NonBlankID(s, id);
      if Decide(s.orders[id], c, now).Write? {
        WriteSucceeds(s, id, c, now);
        WritePuts(s, Decide(s.orders[id], c, now).order, now);
      }
    }
  }

  lemma NonBlankID(s: Store, id: string)
    requires Consistent(s) && id in s.orders
    ensures !Blank(id)
  {
    hide BadContent, CreatedEvent, CancelledEvent, Persisted, Trim;
    assert OrderConsistent(s, id);
  }

  lemma WritePuts(s: Store, o: Order, at: Time)
    requires UpdateAtomic(s, o, at).Ok?
    ensures o.id in UpdateAtomic(s, o, at).value.orders && UpdateAtomic(s, o, at).value.orders[o.id] == Persisted(o)
    ensures Persisted(o).status == o.status
  {
    hide Incomplete, BadContent, KeyTaken, Trim, Stored, CancelledRow;
  }

  /** Handling an event again, at any later time, changes nothing: a lost deduplication mark does no harm. */
  lemma RedeliveryChangesNothing(s: Store, id: string, c: Command, first: Clock, again: Clock)
    requires Consistent(s)
    ensures Handle(Handle(s, id, c, first), id, c, again) == Handle(s, id, c, first)
  {
    hide Consistent, Handle, Spent;
    HandleMovesOn(s, id, c, first);
    SpentKeeps(Handle(s, id, c, first), id, c, again);
  }

  ghost predicate AllSpent(s: Store, seen: seq<Delivery>) {
    forall i | 0 <= i < |seen| ::
      seen[i].orderID in s.orders ==> Spent(s.orders[seen[i].orderID].status, seen[i].command)
  }

  lemma {:induction false} RunDistinct(s: Store, stream: seq<Delivery>, seen: seq<Delivery>)
    requires Consistent(s) && AllSpent(s, seen)
    ensures RunStream(s, stream) == RunStream(s, Distinct(stream, seen))
    decreases |stream|
  {
    hide Handle, Spent, Consistent;
    if stream != [] {
      var d := stream[0];
      var s' := Handle(s, d.orderID, d.command, d.at);
      HandleKeepsConsistent(s, d.orderID, d.command, d.at);
      HandleMovesOn(s, d.orderID, d.command, d.at);
      if exists e | e in seen :: SameEvent(e, d) {
        SpentKeeps(s, d.orderID, d.command, d.at);
        RunDistinct(s, stream[1..], seen);
      } else {
        RunDistinct(s', stream[1..], seen + [d]);
        var rest := Distinct(stream[1..], seen + [d]);
        assert ([d] + rest)[1..] == rest;
      }
    }
  }

  /**
   Replay safety without a deduplicator. For any stream of events and cancels, at any times, removing every
   redelivery after the first occurrence changes nothing: not one order's status, reason or timestamp, and no
   outbox row.
   */
  lemma ReplaySafe(s: Store, stream: seq<Delivery>)
    requires Consistent(s)
    ensures RunStream(s, stream) == RunStream(s, Distinct(stream, []))
  {
    RunDistinct(s, stream, []);
  }
}
