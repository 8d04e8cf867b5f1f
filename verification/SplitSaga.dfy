/**
 The saga with the read and the write of every order transition apart. A handler loads an order and decides;
 `UpdateOrder` then reads the stored status; its write, items, outbox row and commit are one step. Anything may happen
 in between, also to the same order.
 */
module SplitSaga {
  import opened Wrappers
  import opened Text
  import opened Enums
  import opened Domain
  import opened OrderStore
  import opened OrderLifecycle
  import opened Saga

  /** A transition under way: the order about to be written, and the status the update has read. */
  datatype Txn = Txn(order: Order, seen: Option<OrderStatus>)

  datatype State = State(saga: Saga.State, txns: map<nat, Txn>)

  /** Who asks for a transition. */
  datatype Source = Customer(orderID: string, reason: string) | Message(event: Event)

  datatype Step =
    | Other(step: Saga.Step)
    | Load(txn: nat, source: Source, at: Clock)
    | See(txn: nat)
    | Commit(txn: nat, at: Clock)
    | Drop(txn: nat)

  function TargetOf(source: Source): string {
    match source
    case Customer(id, _) => id
    case Message(e) => e.orderID
  }

  function CommandFrom(source: Source): Option<Command> {
    match source
    case Customer(_, reason) => Some(CancelOrder(reason))
    case Message(e) => CommandOf(e)
  }

  predicate Comes(s: Saga.State, source: Source) {
    source.Message? ==> Deliverable(s, OrderGroup, source.event)
  }

  function DoLoad(s: State, t: nat, source: Source, at: Clock): State {
    var id := TargetOf(source);
    if t in s.txns || !Comes(s.saga, source) || CommandFrom(source).None? || id !in s.saga.store.orders then s
    else
      match Decide(s.saga.store.orders[id], CommandFrom(source).value, at)
      case Write(o) => s.(txns := s.txns[t := Txn(o, None)])
      case _ => s
  }

  function DoSee(s: State, t: nat): State {
    if t !in s.txns || s.txns[t].order.id !in s.saga.store.orders then s
    else s.(txns := s.txns[t := s.txns[t].(seen := Some(s.saga.store.orders[s.txns[t].order.id].status))])
  }

  function DoCommit(s: State, t: nat, at: Clock): State {
    if t !in s.txns || s.txns[t].seen.None? then s
    else
      match UpdateTx(s.saga.store, s.txns[t].order, s.txns[t].seen.value, at)
      case Ok(store) => s.(saga := s.saga.(store := store), txns := s.txns - {t})
      case Err(_) => s.(txns := s.txns - {t})
  }

  function Do(s: State, step: Step): State {
    match step
    case Other(st) => if st.Cancel? || st.Consume? then s else s.(saga := Saga.Do(s.saga, st))
    case Load(t, source, at) => DoLoad(s, t, source, at)
    case See(t) => DoSee(s, t)
    case Commit(t, at) => DoCommit(s, t, at)
    case Drop(t) => s.(txns := s.txns - {t})
  }

  ghost predicate Allowed(step: Step) {
    step.Other? ==> Saga.Allowed(step.step)
  }

  ghost predicate Init(s: State) {
    Saga.Init(s.saga) && s.txns == map[]
  }

  ghost predicate Behaviour(states: seq<State>, steps: seq<Step>) {
    && |states| == |steps| + 1
    && Init(states[0])
    && forall i | 0 <= i < |steps| :: Allowed(steps[i]) && states[i + 1] == Do(states[i], steps[i])
  }

  /** The write puts a status other than CANCELLED onto an order that is CANCELLED. */
  predicate Revives(s: State, step: Step) {
    step.Commit? && step.txn in s.txns && s.txns[step.txn].seen.Some?
    && var o := s.txns[step.txn].order;
       o.status != Cancelled && o.id in s.saga.store.orders && s.saga.store.orders[o.id].status == Cancelled
  }

  /** The order's order.cancelled row is out. */
  predicate RowOut(s: State, id: string) {
    CancelledID(id) in s.saga.store.outbox
  }

  // ----- the store in which every order with an order.cancelled row counts as cancelled -----

  function Viewed(s: Store, id: string): Order
    requires id in s.orders
  {
    if CancelledID(id) in s.outbox then s.orders[id].(status := Cancelled) else s.orders[id]
  }

  function ViewedRow(s: Store, r: RowID): OutboxRow
    requires r in s.outbox
  {
    if r.CancelledID? && r.order in s.orders
    then s.outbox[r].(payload := CancelledEvent(Viewed(s, r.order))) else s.outbox[r]
  }

  function View(s: Store): Store {
    Store(map id | id in s.orders :: Viewed(s, id), map r | r in s.outbox :: ViewedRow(s, r))
  }

  function Seen(s: Saga.State): Saga.State {
    s.(store := View(s.store))
  }

  lemma ViewedContent(s: Store, id: string)
    requires id in s.orders
    ensures AsCreated(Viewed(s, id)) == AsCreated(s.orders[id])
    ensures Persisted(Viewed(s, id)) == Viewed(s, id) <==> Persisted(s.orders[id]) == s.orders[id]
  {
    hide Trim, Stored;
  }

  lemma ViewOfNew(s: Store, o: Order, row: OutboxRow)
    requires o.id !in s.orders && CancelledID(o.id) !in s.outbox
    ensures View(Store(s.orders[o.id := o], s.outbox[CreatedID(o.id) := row]))
         == Store(View(s).orders[o.id := o], View(s).outbox[CreatedID(o.id) := row])
  {
    hide CancelledEvent;
    var s' := Store(s.orders[o.id := o], s.outbox[CreatedID(o.id) := row]);
    assert View(s').orders == View(s).orders[o.id := o];
    assert View(s').outbox == View(s).outbox[CreatedID(o.id) := row];
  }

  lemma ViewKeys(s: Store, key: string, except: string)
    ensures View(s).orders.Keys == s.orders.Keys && View(s).outbox.Keys == s.outbox.Keys
    ensures KeyTaken(View(s), key, except) == KeyTaken(s, key, except)
  {
    hide CancelledEvent;
    assert forall id | id in s.orders :: View(s).orders[id].idempotencyKey == s.orders[id].idempotencyKey;
  }

  lemma RowHasOrder(s: Store, r: RowID)
    requires Consistent(View(s)) && r in s.outbox
    ensures r.order in s.orders
  {
    hide OrderConsistent, CancelledEvent;
    assert r in View(s).outbox;
  }

  /** A creation is the same in both stores. */
  lemma ViewOfCreate(s: Store, o: Order, at: Time)
    requires Consistent(View(s)) && CreateTx(s, o, at).Ok?
    ensures CreateTx(View(s), o, at) == Ok(View(CreateTx(s, o, at).value))
  {
    hide Incomplete, Unstorable, RowRejected, Trim, CreatedRow, Consistent, KeyTaken, View, Stored;
    ViewKeys(s, Trim(o.idempotencyKey), o.id);
    if CancelledID(o.id) in s.outbox {
      RowHasOrder(s, CancelledID(o.id));
    }
    ViewOfNew(s, Persisted(o), CreatedRow(o, at));
  }

  /** A write of `o` to the real tables. */
  ghost predicate Writes(s: Store, o: Order, s': Store) {
    && o.id in s.orders && s'.orders == s.orders[o.id := o]
    && (s'.outbox.Keys == s.outbox.Keys || s'.outbox.Keys == s.outbox.Keys + {CancelledID(o.id)})
    && (forall r | r in s.outbox && r != CancelledID(o.id) :: s'.outbox[r] == s.outbox[r])
    && (o.status == Cancelled ==> CancelledID(o.id) in s'.outbox)
  }

  lemma ViewOfPutOrders(s: Store, o: Order, s': Store)
    requires Writes(s, o, s')
    ensures var v := Viewed(s', o.id);
            && v == o.(status := v.status)
            && (v.status == Cancelled <==> CancelledID(o.id) in s'.outbox)
            && View(s').orders == View(s).orders[o.id := v]
  {
    hide CancelledEvent;
  }

  lemma ViewOfPutOutbox(s: Store, o: Order, s': Store)
    requires Writes(s, o, s')
    ensures View(s').outbox == if CancelledID(o.id) in s'.outbox
                               then View(s).outbox[CancelledID(o.id) := ViewedRow(s', CancelledID(o.id))]
                               else View(s).outbox
  {
    hide CancelledEvent;
  }

  /** The row that stands in the view for an order just written. */
  function RowAfter(s: Store, o: Order): OutboxRow {
    if CancelledID(o.id) in s.outbox then ViewedRow(s, CancelledID(o.id)) else CancelledRow(o, 0)
  }

  /** Seen through the view, a write puts in place an order with the same content, and never takes one out of CANCELLED.
      */
  lemma ViewOfPut(s: Store, o: Order, s': Store)
    requires Writes(s, o, s')
    ensures var v := Viewed(s', o.id);
            && v.id == o.id && v.updatedAt == o.updatedAt && (v.status == o.status || v.status == Cancelled)
            && (CancelledID(o.id) in s.outbox ==> v.status == Cancelled)
            && AsCreated(v) == AsCreated(o) && (Persisted(v) == v <==> Persisted(o) == o)
            && RowAfter(s', v).payload == CancelledEvent(v)
            && View(s') == Put(View(s), v, RowAfter(s', v))
  {
    hide CancelledEvent, AsCreated, Persisted, Stored;
    ViewOfPutOrders(s, o, s');
    ViewOfPutOutbox(s, o, s');
    ViewedContent(s', o.id);
  }
}
