/**
 The order, inventory and payment services composed over an event bus that delivers any published
 message any number of times, in any order. Every atomic step of every handler is a step here;
 a handler may crash between any two of its steps and its message may be handled again, also
 while an earlier handling of it is still under way.
 */
module Saga {
  import opened Wrappers
  import opened Sums
  import opened Text
  import opened Enums
  import opened Domain
  import opened OrderStore
  import opened OrderLifecycle
  import opened OrderPlacement
  import opened InventoryLedger
  import Payments

  /** How far one handling of an order.created message has come. */
  datatype Phase = Reserving | RollingBack | Finished | Crashed

  datatype Attempt = Attempt(event: Event, held: nat, phase: Phase)

  datatype Group = OrderGroup | InventoryGroup | PaymentGroup

  /** A deduplicator entry; it expires. */
  datatype Mark = Mark(group: Group, event: Event)

  /** How a database call can go wrong: before it took effect, or after, with the reply lost. */
  datatype Fault = NoFault | NotDone | ReplyLost

  /** `lost` is what reservations added whose replies were lost: no handling knows of it. */
  datatype State = State(
    store: Store,
    ledger: Ledger,
    lost: map<Key, int>,
    payments: Payments.State,
    topic: set<Event>,
    attempts: seq<Attempt>,
    marks: set<Mark>)

  datatype Step =
    | Place(order: Order, at: Clock)
    | Cancel(orderID: string, reason: string, at: Clock)
    | Consume(event: Event, at: Clock)
    | PublishRow(row: RowID)
    | MarkRow(row: RowID, at: Clock)
    | Begin(event: Event)
    | ReserveNext(attempt: nat)
    | GiveUp(attempt: nat)
    | ReserveUnheard(attempt: nat)
    | UndoNext(attempt: nat)
    | Announce(attempt: nat, failedItem: Option<ReservationItem>, reason: string)
    | Crash(attempt: nat)
    | ReleaseOrder(event: Event)
    | Pay(event: Event, paymentID: string, at: Clock, missed: bool, keyFirst: bool, fault: Fault, published: bool,
          reason: string)
    | Settle(paymentID: string, action: Payments.Action, at: Clock)
    | PublishOutcome(event: Event)
    | LoseOutcome(event: Event)
    | SetMark(mark: Mark)
    | ExpireMark(mark: Mark)

  /** A message can be handled when it was published and its consumer finds no mark for it. */
  predicate Deliverable(s: State, g: Group, e: Event) {
    e in s.topic && Mark(g, e) !in s.marks
  }

  function Items(a: Attempt): seq<ReservationItem> {
    if a.event.OrderCreated? then Reservations(a.event.lines) else []
  }

  // ----- the steps; a step that is not enabled changes nothing -----

  function DoReserve(s: State, i: nat): State {
    if i >= |s.attempts| || s.attempts[i].phase != Reserving || s.attempts[i].held >= |Items(s.attempts[i])| then s
    else
      var a := s.attempts[i];
      var item := Items(a)[a.held];
      match Reserve(s.ledger, item.productID, a.event.orderID, item.quantity)
      case Ok(l) => s.(ledger := l, attempts := s.attempts[i := a.(held := a.held + 1)])
      case Err(_) => s.(attempts := s.attempts[i := a.(phase := RollingBack)])
  }

  /** A reservation can also fail for reasons outside the ledger. */
  function DoGiveUp(s: State, i: nat): State {
    if i < |s.attempts| && s.attempts[i].phase == Reserving
    then s.(attempts := s.attempts[i := s.attempts[i].(phase := RollingBack)]) else s
  }

  /** The reservation is committed but its reply is lost: the handling rolls back without it. */
  function DoReserveUnheard(s: State, i: nat): State {
    if i >= |s.attempts| || s.attempts[i].phase != Reserving || s.attempts[i].held >= |Items(s.attempts[i])| then s
    else
      var a := s.attempts[i];
      var item := Items(a)[a.held];
      var k := Key(item.productID, a.event.orderID);
      match Reserve(s.ledger, item.productID, a.event.orderID, item.quantity)
      case Ok(l) => s.(ledger := l, lost := s.lost[k := Get(s.lost, k) + item.quantity],
                       attempts := s.attempts[i := a.(phase := RollingBack)])
      case Err(_) => s.(attempts := s.attempts[i := a.(phase := RollingBack)])
  }

  /** A release whose reply is lost is this followed by a crash: `held` counts what was really given back. */
  function DoUndo(s: State, i: nat): State {
    if i >= |s.attempts| || s.attempts[i].phase != RollingBack || s.attempts[i].held == 0
       || s.attempts[i].held > |Items(s.attempts[i])| then s
    else
      var a := s.attempts[i];
      var item := Items(a)[a.held - 1];
      match Release(s.ledger, item.productID, a.event.orderID, item.quantity)
      case Ok(l) => s.(ledger := l, attempts := s.attempts[i := a.(held := a.held - 1)])
      case Err(_) => s.(attempts := s.attempts[i := a.(phase := Crashed)])
  }

  function DoAnnounce(s: State, i: nat, failedItem: Option<ReservationItem>, reason: string): State {
    if i >= |s.attempts| || !s.attempts[i].event.OrderCreated? then s
    else
      var a := s.attempts[i];
      if a.phase == Reserving && a.held == |Items(a)| then
        s.(topic := s.topic + {ReservedEvent(a.event)}, attempts := s.attempts[i := a.(phase := Finished)])
      else if a.phase == RollingBack && a.held == 0 then
        s.(topic := s.topic + {ReservationFailed(a.event.orderID, a.event.customerID, failedItem, reason)},
           attempts := s.attempts[i := a.(phase := Finished)])
      else s
  }

  function DoPay(s: State, e: Event, id: string, at: Clock, missed: bool, keyFirst: bool, fault: Fault,
                 published: bool, reason: string): State {
    if !Deliverable(s, PaymentGroup, e) || !e.InventoryReserved? || Blank(id) then s
    else
      var failed := fault != NoFault || Payments.Requested(e).Err?
                    || Payments.Create(s.payments.table, Payments.Requested(e).value, id, at, missed, keyFirst).Err?;
      s.(payments := if fault == NotDone then s.payments
                     else Payments.Do(s.payments, Payments.CreateStep(e, id, at, missed, keyFirst)),
         topic := if failed && published
                  then s.topic + {PaymentCreationFailed(e.orderID, e.customerID, reason)} else s.topic)
  }

  function Do(s: State, step: Step): State {
    match step
    case Place(o, at) =>
      (match CreateTx(s.store, o, at) case Ok(store) => s.(store := store) case Err(_) => s)
    case Cancel(id, r, at) => s.(store := Handle(s.store, id, CancelOrder(r), at))
    case Consume(e, at) =>
      if Deliverable(s, OrderGroup, e) && CommandOf(e).Some?
      then s.(store := Handle(s.store, e.orderID, CommandOf(e).value, at)) else s
    case PublishRow(r) =>
      if r in s.store.outbox && s.store.outbox[r].publishedAt.None?
      then s.(topic := s.topic + {s.store.outbox[r].payload}) else s
    case MarkRow(r, at) =>
      if r in s.store.outbox && s.store.outbox[r].payload in s.topic
      then s.(store := s.store.(outbox := s.store.outbox[r := s.store.outbox[r].(publishedAt := Some(at))])) else s
    case Begin(e) =>
      if Deliverable(s, InventoryGroup, e) && e.OrderCreated?
      then s.(attempts := s.attempts + [Attempt(e, 0, Reserving)]) else s
    case ReserveNext(i) => DoReserve(s, i)
    case GiveUp(i) => DoGiveUp(s, i)
    case ReserveUnheard(i) => DoReserveUnheard(s, i)
    case UndoNext(i) => DoUndo(s, i)
    case Announce(i, f, r) => DoAnnounce(s, i, f, r)
    case Crash(i) => if i < |s.attempts| then s.(attempts := s.attempts[i := s.attempts[i].(phase := Crashed)]) else s
    case ReleaseOrder(e) =>
      if Deliverable(s, InventoryGroup, e) && e.OrderCancelled?
      then s.(ledger := Perform(s.ledger, FreeOp(e.orderID))) else s
    case Pay(e, id, at, missed, keyFirst, fault, published, r) =>
      DoPay(s, e, id, at, missed, keyFirst, fault, published, r)
    case Settle(id, a, at) => s.(payments := Payments.ActOn(s.payments, id, a, at))
    case PublishOutcome(e) =>
      if e in s.payments.owed
      then s.(payments := Payments.Do(s.payments, Payments.PublishStep(e)), topic := s.topic + {e}) else s
    case LoseOutcome(e) => s.(payments := Payments.Do(s.payments, Payments.LoseStep(e)))
    case SetMark(m) => if m.event in s.topic then s.(marks := s.marks + {m}) else s
    case ExpireMark(m) => s.(marks := s.marks - {m})
  }

  /** Orders reach the store only through `CreateOrder`. */
  ghost predicate Allowed(step: Step) {
    step.Place? ==> Placed(step.order)
  }

  /** No orders, no reservations, no payments, nothing published; any balanced stock. */
  ghost predicate Init(s: State) {
    && s.store == Store(map[], map[])
    && Balanced(s.ledger) && s.ledger.reservations == map[] && s.lost == map[]
    && s.payments == Payments.State(map[], multiset{}, [])
    && s.topic == {} && s.attempts == [] && s.marks == {}
  }

  /** A run: each state follows from the one before by the step in between. */
  ghost predicate Behaviour(states: seq<State>, steps: seq<Step>) {
    && |states| == |steps| + 1
    && Init(states[0])
    && forall i | 0 <= i < |steps| :: Allowed(steps[i]) && states[i + 1] == Do(states[i], steps[i])
  }

  // ----- what the saga promises -----

  predicate Active(o: Order) {
    o.status == AwaitingPayment || o.status == Confirmed
  }

  /** The demand for product `p` of the orders that wait for payment or are confirmed. */
  function ActiveDemand(s: Store, p: string): map<string, int> {
    map id | id in s.orders && Active(s.orders[id]) :: Demand(s.orders[id], p)
  }

  /** Each such order holds what it demands, and together they never demand more than there is. */
  ghost predicate NotOversold(s: State) {
    && (forall id, p | id in s.store.orders && Active(s.store.orders[id]) ::
          Demand(s.store.orders[id], p) <= Get(s.ledger.reservations, Key(p, id)))
    && (forall p | p in s.ledger.stocks :: Sum(ActiveDemand(s.store, p)) <= s.ledger.stocks[p].total)
  }

  /** A confirmed order has exactly one payment: captured, by its customer, for its total. */
  ghost predicate ConfirmedIsPaid(s: State) {
    forall id | id in s.store.orders && s.store.orders[id].status == Confirmed ::
      exists pid :: PaidBy(s, id, pid)
  }

  ghost predicate PaidBy(s: State, id: string, pid: string) {
    && id in s.store.orders && pid in s.payments.table
    && (forall q | q in s.payments.table :: s.payments.table[q].orderID == id <==> q == pid)
    && var p, o := s.payments.table[pid], s.store.orders[id];
       p.status == Payments.Captured && p.amount == o.total && p.customerID == o.customerID
  }
}
