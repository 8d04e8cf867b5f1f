/** The inductive invariant of the saga, component by component, and what each component's steps keep. */
module SagaInvariant {
  import opened Wrappers
  import opened Sums
  import opened Text
  import opened Enums
  import opened Domain
  import opened OrderStore
  import opened OrderLifecycle
  import opened OrderPlacement
  import opened InventoryLedger
  import opened Saga
  import Payments

  // ----- the order as it was created: what every message about it repeats -----

  function Original(s: Store, id: string): Order
    requires id in s.orders
  {
    AsCreated(s.orders[id])
  }

  function CreatedOf(s: Store, id: string): Event
    requires id in s.orders
  {
    CreatedEvent(Original(s, id))
  }

  lemma CreatedOfID(s: Store, id: string)
    requires id in s.orders && s.orders[id].id == id
    ensures CreatedOf(s, id).OrderCreated? && CreatedOf(s, id).orderID == id
  {
  }

  ghost predicate OrdersOK(s: Store) {
    && Consistent(s)
    && forall id | id in s.orders :: Placed(Original(s, id))
  }

  /** Orders stay, keep their content, and once cancelled stay cancelled; a new order starts out pending. */
  ghost predicate Evolves(s: Store, s': Store) {
    && (forall id | id in s.orders :: id in s'.orders && Original(s', id) == Original(s, id)
                                      && (s.orders[id].status == Cancelled ==> s'.orders[id].status == Cancelled))
    && (forall id | id in s'.orders && id !in s.orders :: s'.orders[id].status == Pending)
  }

  lemma CreateAdds(s: Store, o: Order, at: Time)
    requires CreateTx(s, o, at).Ok?
    ensures o.id !in s.orders
    ensures CreateTx(s, o, at).value.orders == s.orders[o.id := Persisted(o)]
  {
    hide CreatedEvent, Incomplete, BadContent, Trim, Stored, KeyTaken;
  }

  lemma PlaceEvolves(s: Store, o: Order, at: Clock)
    requires OrdersOK(s) && Placed(o) && CreateTx(s, o, at).Ok?
    ensures OrdersOK(CreateTx(s, o, at).value) && Evolves(s, CreateTx(s, o, at).value)
  {
    hide Consistent, CreateTx, AsCreated, Persisted, Trim;
    CreateKeepsConsistent(s, o, at);
    CreateAdds(s, o, at);
    StoredOriginal(o);
  }

  lemma StoredOriginal(o: Order)
    requires Placed(o)
    ensures Placed(AsCreated(Persisted(o))) && Persisted(o).status == Pending
  {
    hide Trim;
    assert Trim("") == "" by { TrimIsTrimmed(""); }
  }

  lemma HandleEvolves(s: Store, id: string, c: Command, now: Clock)
    requires OrdersOK(s)
    ensures OrdersOK(Handle(s, id, c, now)) && Evolves(s, Handle(s, id, c, now))
  {
    hide AsCreated, Consistent, Handle, Placed;
    HandleKeepsConsistent(s, id, c, now);
    HandleKeepsContent(s, id, c, now);
  }

  lemma MarkRowEvolves(s: Store, r: RowID, at: Clock)
    requires OrdersOK(s) && r in s.outbox
    ensures var s' := s.(outbox := s.outbox[r := s.outbox[r].(publishedAt := Some(at))]);
            OrdersOK(s') && Evolves(s, s') && s'.orders == s.orders
  {
    hide CreatedEvent, CancelledEvent, Incomplete, Unstorable, Persisted, Placed, Trim;
    var s' := s.(outbox := s.outbox[r := s.outbox[r].(publishedAt := Some(at))]);
    forall id | id in s.orders ensures OrderConsistent(s', id) {
      assert OrderConsistent(s, id);
    }
  }

  // ----- attempts and what they hold -----

  /** What one attempt contributes to the reservation of product `p` by order `o`. */
  function Share(a: Attempt, o: string, p: string): int {
    if a.event.OrderCreated? && a.event.orderID == o && a.held <= |Items(a)| then Quantity(Items(a)[..a.held], p) else 0
  }

  function Contribution(attempts: seq<Attempt>, o: string, p: string): int {
    if attempts == [] then 0
    else Contribution(attempts[..|attempts| - 1], o, p) + Share(attempts[|attempts| - 1], o, p)
  }

  lemma {:induction false} ContributionUpdate(attempts: seq<Attempt>, i: nat, a: Attempt, o: string, p: string)
    requires i < |attempts|
    ensures Contribution(attempts[i := a], o, p) ==
            Contribution(attempts, o, p) - Share(attempts[i], o, p) + Share(a, o, p)
    decreases |attempts|
  {
    hide Share;
    var n := |attempts| - 1;
    if i == n {
      assert attempts[i := a][..n] == attempts[..n];
    } else {
      assert attempts[i := a][..n] == attempts[..n][i := a];
      ContributionUpdate(attempts[..n], i, a, o, p);
    }
  }

  lemma ContributionAppend(attempts: seq<Attempt>, e: Event, o: string, p: string)
    ensures Contribution(attempts + [Attempt(e, 0, Reserving)], o, p) == Contribution(attempts, o, p)
  {
    var a := Attempt(e, 0, Reserving);
    assert (attempts + [a])[..|attempts|] == attempts;
    assert Items(a)[..0] == [];
  }

  /** No attempt holds a negative amount, so one attempt's share is within the sum. */
  lemma {:induction false} ShareWithinContribution(attempts: seq<Attempt>, i: nat, o: string, p: string)
    requires i < |attempts| && forall j | 0 <= j < |attempts| :: Share(attempts[j], o, p) >= 0
    ensures 0 <= Share(attempts[i], o, p) <= Contribution(attempts, o, p)
    decreases |attempts|
  {
    hide Share;
    var n := |attempts| - 1;
    forall j | 0 <= j < n ensures Share(attempts[..n][j], o, p) >= 0 {
      assert attempts[..n][j] == attempts[j];
    }
    if i < n {
      ShareWithinContribution(attempts[..n], i, o, p);
    } else {
      ContributionNonNegative(attempts[..n], o, p);
    }
  }

  lemma {:induction false} ContributionNonNegative(attempts: seq<Attempt>, o: string, p: string)
    requires forall j | 0 <= j < |attempts| :: Share(attempts[j], o, p) >= 0
    ensures Contribution(attempts, o, p) >= 0
    decreases |attempts|
  {
    hide Share;
    if attempts != [] {
      var n := |attempts| - 1;
      forall j | 0 <= j < n ensures Share(attempts[..n][j], o, p) >= 0 {
        assert attempts[..n][j] == attempts[j];
      }
      ContributionNonNegative(attempts[..n], o, p);
    }
  }

  /** Some attempt reserved the whole order and will not undo it. */
  ghost predicate Secured(attempts: seq<Attempt>, e: Event) {
    exists i | 0 <= i < |attempts| ::
      attempts[i].event == e && attempts[i].held == |Items(attempts[i])|
      && (attempts[i].phase == Finished || attempts[i].phase == Crashed)
  }

  /** Attempts keep their event, and one that secured its order keeps holding everything. */
  ghost predicate AttemptsEvolve(a: seq<Attempt>, b: seq<Attempt>) {
    && |a| <= |b|
    && forall i | 0 <= i < |a| ::
         && b[i].event == a[i].event
         && (a[i].phase == Finished || a[i].phase == Crashed ==>
               b[i].held == a[i].held && (b[i].phase == Finished || b[i].phase == Crashed))
  }

  lemma SecuredStays(a: seq<Attempt>, b: seq<Attempt>, e: Event)
    requires Secured(a, e) && AttemptsEvolve(a, b)
    ensures Secured(b, e)
  {
    var i :| 0 <= i < |a| && a[i].event == e && a[i].held == |Items(a[i])|
             && (a[i].phase == Finished || a[i].phase == Crashed);
    assert b[i].event == e;
  }

  ghost predicate AttemptsOK(attempts: seq<Attempt>, topic: set<Event>) {
    forall i | 0 <= i < |attempts| ::
      attempts[i].event in topic && attempts[i].event.OrderCreated? && attempts[i].held <= |Items(attempts[i])|
  }

  // ----- the reservations of an order that is not cancelled are exactly its attempts' shares and the lost ones -----

  predicate Open(s: Store, o: string) {
    o in s.orders ==> s.orders[o].status != Cancelled
  }

  ghost predicate LedgerOK(l: Ledger, lost: map<Key, int>, s: Store, attempts: seq<Attempt>) {
    && Balanced(l)
    && (forall k | k in lost :: lost[k] >= 0)
    && forall o, p | Open(s, o) :: Get(l.reservations, Key(p, o)) == Contribution(attempts, o, p) + Get(lost, Key(p, o))
  }

  lemma LedgerKeptByOrders(l: Ledger, lost: map<Key, int>, s: Store, s': Store, attempts: seq<Attempt>)
    requires LedgerOK(l, lost, s, attempts) && Evolves(s, s')
    ensures LedgerOK(l, lost, s', attempts)
  {
    hide Balanced, Original, Contribution;
  }

  lemma LedgerKeptByBegin(l: Ledger, lost: map<Key, int>, s: Store, attempts: seq<Attempt>, e: Event)
    requires LedgerOK(l, lost, s, attempts)
    ensures LedgerOK(l, lost, s, attempts + [Attempt(e, 0, Reserving)])
  {
    hide Balanced;
    var attempts' := attempts + [Attempt(e, 0, Reserving)];
    forall o, p | Open(s, o)
      ensures Get(l.reservations, Key(p, o)) == Contribution(attempts', o, p) + Get(lost, Key(p, o))
    {
      ContributionAppend(attempts, e, o, p);
    }
  }

  /** An attempt moves its share by the quantity that moved in the ledger. */
  lemma LedgerKeptByMove(l: Ledger, lost: map<Key, int>, s: Store, attempts: seq<Attempt>, i: nat, a: Attempt,
                         l': Ledger, p0: string, delta: int)
    requires LedgerOK(l, lost, s, attempts) && i < |attempts| && Balanced(l')
    requires a.event == attempts[i].event && a.event.OrderCreated?
    requires forall k ::
             Get(l'.reservations, k) == Get(l.reservations, k) + if k == Key(p0, a.event.orderID) then delta else 0
    requires forall p ::
             Share(a, a.event.orderID, p) == Share(attempts[i], a.event.orderID, p) + if p == p0 then delta else 0
    ensures LedgerOK(l', lost, s, attempts[i := a])
  {
    hide Balanced, Contribution;
    forall o, p | Open(s, o)
      ensures Get(l'.reservations, Key(p, o)) == Contribution(attempts[i := a], o, p) + Get(lost, Key(p, o))
    {
      ContributionUpdate(attempts, i, a, o, p);
    }
  }

  /** A reservation nobody heard of is on the list of lost ones. */
  lemma LedgerKeptByLoss(l: Ledger, lost: map<Key, int>, s: Store, attempts: seq<Attempt>, l': Ledger, key: Key, q: int)
    requires LedgerOK(l, lost, s, attempts) && Balanced(l') && q >= 0
    requires forall k :: Get(l'.reservations, k) == Get(l.reservations, k) + if k == key then q else 0
    ensures LedgerOK(l', lost[key := Get(lost, key) + q], s, attempts)
  {
    hide Balanced, Contribution;
  }

  lemma LedgerKeptByRelease(l: Ledger, lost: map<Key, int>, s: Store, attempts: seq<Attempt>, o: string)
    requires LedgerOK(l, lost, s, attempts) && o in s.orders && s.orders[o].status == Cancelled && Trim(o) == o
    ensures LedgerOK(Perform(l, FreeOp(o)), lost, s, attempts)
  {
    hide Balanced, Contribution, Trim;
    PerformBalanced(l, FreeOp(o));
  }

  // ----- messages, statuses and payments -----

  ghost predicate MessageOK(e: Event, s: Store, attempts: seq<Attempt>, t: Payments.Table) {
    match e
    case OrderCreated(id, _, _, _, _, _, _) => id in s.orders && e == CreatedOf(s, id)
    case OrderCancelled(id, _, _) => id in s.orders && s.orders[id].status == Cancelled
    case InventoryReserved(id, _, _, _, _) => id in s.orders && CreatedOf(s, id).OrderCreated?
                                              && e == ReservedEvent(CreatedOf(s, id))
                                              && Secured(attempts, CreatedOf(s, id))
    case PaymentCaptured(id, _, pid, _) => pid in t && t[pid].orderID == id && t[pid].status == Payments.Captured
    case _ => true
  }

  ghost predicate TopicOK(topic: set<Event>, s: Store, attempts: seq<Attempt>, t: Payments.Table) {
    forall e | e in topic :: MessageOK(e, s, attempts, t)
  }

  /** Captured payments stay what they are. */
  ghost predicate TableEvolves(t: Payments.Table, t': Payments.Table) {
    forall id | id in t ::
      id in t' && t'[id].orderID == t[id].orderID && (t[id].status == Payments.Captured ==> t'[id] == t[id])
  }

  lemma TopicStays(topic: set<Event>, s: Store, s': Store, a: seq<Attempt>, a': seq<Attempt>, t: Payments.Table,
                   t': Payments.Table)
    requires TopicOK(topic, s, a, t) && Evolves(s, s') && AttemptsEvolve(a, a') && TableEvolves(t, t')
    ensures TopicOK(topic, s', a', t')
  {
    hide Secured, CreatedEvent, AttemptsEvolve, AsCreated;
    forall e | e in topic ensures MessageOK(e, s', a', t') {
      assert MessageOK(e, s, a, t);
      if e.InventoryReserved? {
        SecuredStays(a, a', CreatedOf(s, e.orderID));
      }
    }
  }

  /** Status implies message: an order waits for payment or is confirmed only after its stock was announced, and is
      confirmed only after its capture was. */
  ghost predicate StatusOK(s: Store, topic: set<Event>) {
    forall id | id in s.orders ::
      && (Active(s.orders[id]) ==> exists e :: e in topic && e.InventoryReserved? && e.orderID == id)
      && (s.orders[id].status == Confirmed ==> exists e :: e in topic && e.PaymentCaptured? && e.orderID == id)
  }

  /** Every payment is for an announced order, by its customer, for its total. */
  ghost predicate PayOK(pay: Payments.State, s: Store, topic: set<Event>) {
    && Payments.OK(pay)
    && forall pid | pid in pay.table ::
         var p := pay.table[pid];
         && p.orderID in s.orders
         && (exists e :: e in topic && e.InventoryReserved? && e.orderID == p.orderID)
         && p.amount == s.orders[p.orderID].total && p.customerID == s.orders[p.orderID].customerID
  }

  lemma PayStays(pay: Payments.State, s: Store, s': Store, topic: set<Event>, topic': set<Event>)
    requires PayOK(pay, s, topic) && Evolves(s, s') && topic <= topic'
    ensures PayOK(pay, s', topic')
  {
    hide Payments.OK;
  }

  ghost predicate Inv(s: State) {
    && OrdersOK(s.store)
    && AttemptsOK(s.attempts, s.topic)
    && LedgerOK(s.ledger, s.lost, s.store, s.attempts)
    && TopicOK(s.topic, s.store, s.attempts, s.payments.table)
    && StatusOK(s.store, s.topic)
    && PayOK(s.payments, s.store, s.topic)
  }
}
