/** The payment database, creation from events, and the outcome state machine. */
module Payments {
  import opened Wrappers
  import opened Integers
  import opened Text
  import opened Enums
  import opened Domain

  datatype PaymentStatus = PayUnspecified | PayPending | Captured | Failed | PayCancelled

  function PayStatusName(s: PaymentStatus): string {
    match s
    case PayUnspecified => "PAYMENT_STATUS_UNSPECIFIED"
    case PayPending => "PAYMENT_STATUS_PENDING"
    case Captured => "PAYMENT_STATUS_CAPTURED"
    case Failed => "PAYMENT_STATUS_FAILED"
    case PayCancelled => "PAYMENT_STATUS_CANCELLED"
  }

  datatype Payment = Payment(
    id: string,
    orderID: string,
    customerID: string,
    amount: Money,
    payMethod: int32,
    details: string,
    idempotencyKey: string,
    status: PaymentStatus,
    cancelReason: string,
    createdAt: Time,
    updatedAt: Time)

  type Table = map<string, Payment>

  datatype PaymentError =
    | InvalidPayment
    | InvalidPaymentID
    | PaymentNotFound
    | PaymentAlreadyExists
    | IdempotencyKeyAlreadyExists
    | CannotBeCancelled
    | CannotBeCaptured
    | CannotBeFailed
    | UnsupportedName  // the event's currency or method does not parse
    | InvalidIdempotencyKey
    | ConstraintViolated
    | UnreadableRow  // an enumeration number without a name came back

  // ----- creation -----

  const KEY_PREFIX := "payment:create:"

  function PaymentKey(orderID: string): string {
    KEY_PREFIX + orderID
  }

  /** The names the consumer accepts; the protocol's UNSPECIFIED is not one of them. */
  function ParseCurrency(s: string): Option<int32> {
    if s == "CURRENCY_USD" || s == "USD" then Some(CURRENCY_USD)
    else if s == "CURRENCY_EUR" || s == "EUR" then Some(CURRENCY_EUR)
    else None
  }

  function ParseMethod(s: string): Option<int32> {
    if s == "PAYMENT_METHOD_TYPE_CARD" || s == "CARD" then Some(METHOD_CARD)
    else if s == "PAYMENT_METHOD_TYPE_CASH" || s == "CASH" then Some(METHOD_CASH)
    else None
  }

  /** The payment the consumer asks for. */
  function Requested(e: Event): Result<Payment, PaymentError>
    requires e.InventoryReserved?
  {
    match (ParseCurrency(e.amount.currency), ParseMethod(e.payment.payMethod))
    case (Some(c), Some(m)) =>
      Ok(Payment("", e.orderID, e.customerID, Money(c, e.amount.cents), m, e.payment.details,
                 PaymentKey(e.orderID), PayUnspecified, "", 0, 0))
    case _ => Err(UnsupportedName)
  }

  /** `validateCreatePayment`. */
  predicate Acceptable(p: Payment) {
    && !Blank(p.orderID) && !Blank(p.customerID)
    && p.amount.cents > 0 && p.amount.currency != CURRENCY_UNSPECIFIED
    && p.payMethod != METHOD_UNSPECIFIED
  }

  predicate OrderTaken(t: Table, orderID: string) {
    exists id | id in t :: t[id].orderID == orderID
  }

  predicate KeyTaken(t: Table, key: string) {
    key != "" && exists id | id in t :: t[id].idempotencyKey == key
  }

  /** The row as it reads back. */
  function AsStored(p: Payment): Payment {
    p.(idempotencyKey := Trim(p.idempotencyKey), createdAt := Stored(p.createdAt), updatedAt := Stored(p.updatedAt))
  }

  /** The enumeration numbers of a row have names, so that it can be read back. */
  predicate Readable(p: Payment) {
    KnownCurrency(p.amount.currency) && KnownMethod(p.payMethod)
  }

  /**
   INSERT INTO payments: a single statement, which stays even when the row it returns cannot be read. When the order
   id and the key are both taken the database reports one of them; `keyFirst` says which.
   */
  function Insert(t: Table, p: Payment, keyFirst: bool): Result<Table, PaymentError> {
    var key := Trim(p.idempotencyKey);
    if Blank(p.id) then Err(InvalidPaymentID)
    else if Blank(p.orderID) || Blank(p.customerID) then Err(InvalidPayment)
    else if p.amount.cents <= 0 || p.createdAt == 0 || p.updatedAt == 0 then Err(ConstraintViolated)
    else if KeyTaken(t, key) && (keyFirst || !(p.id in t || OrderTaken(t, p.orderID)))
         then Err(IdempotencyKeyAlreadyExists)
    else if p.id in t || OrderTaken(t, p.orderID) then Err(PaymentAlreadyExists)
    else Ok(t[p.id := AsStored(p)])
  }

  predicate OrderTakenByOther(t: Table, p: Payment) {
    exists id | id in t :: id != p.id && t[id].orderID == p.orderID
  }

  predicate KeyTakenByOther(t: Table, p: Payment) {
    Trim(p.idempotencyKey) != "" && exists id | id in t :: id != p.id && t[id].idempotencyKey == Trim(p.idempotencyKey)
  }

  /** UPDATE payments. */
  function Update(t: Table, p: Payment): Result<Table, PaymentError> {
    if Blank(p.id) then Err(InvalidPaymentID)
    else if Blank(p.orderID) || Blank(p.customerID) then Err(InvalidPayment)
    else if p.id !in t then Err(PaymentNotFound)
    else if p.amount.cents <= 0 || p.createdAt == 0 || p.updatedAt == 0 then Err(ConstraintViolated)
    else if OrderTakenByOther(t, p) then Err(PaymentAlreadyExists)
    else if KeyTakenByOther(t, p) then Err(IdempotencyKeyAlreadyExists)
    else Ok(t[p.id := AsStored(p)])
  }

  /**
   `CreatePayment`. With `missed` the lookup by key ran before a concurrent insert and found nothing.
   Returns the table afterwards, or the error; a key that exists already yields the existing payment.
   */
  function Create(t: Table, p: Payment, id: string, now: Clock, missed: bool, keyFirst: bool)
    : Result<Table, PaymentError>
  {
    var key := Trim(p.idempotencyKey);
    if !Acceptable(p) then Err(InvalidPayment)
    else if KeyTaken(t, key) && !missed then Ok(t)
    else
      match Insert(t, p.(id := id, status := PayPending, createdAt := now, updatedAt := now, cancelReason := ""),
                   keyFirst)
      case Ok(t') => Ok(t')
      case Err(e) => if e == IdempotencyKeyAlreadyExists && key != "" then Ok(t) else Err(e)
  }

  // ----- outcomes -----

  predicate Terminal(s: PaymentStatus) {
    s == Captured || s == Failed || s == PayCancelled
  }

  datatype Transition = Unchanged | Moved(payment: Payment) | Refused(error: PaymentError)

  function Capture(p: Payment, now: Clock): Transition {
    match p.status
    case Captured => Unchanged
    case PayPending => Moved(p.(status := Captured, updatedAt := now))
    case _ => Refused(CannotBeCaptured)
  }

  function Fail(p: Payment, reason: string, now: Clock): Transition {
    if Blank(reason) then Refused(InvalidPayment)
    else
      match p.status
      case Failed => Unchanged
      case PayPending => Moved(p.(status := Failed, cancelReason := Trim(reason), updatedAt := now))
      case _ => Refused(CannotBeFailed)
  }

  function Cancel(p: Payment, reason: string, now: Clock): Transition {
    match p.status
    case PayCancelled => Unchanged
    case PayPending => Moved(p.(status := PayCancelled, cancelReason := Trim(reason), updatedAt := now))
    case _ => Refused(CannotBeCancelled)
  }

  datatype Action = CaptureIt | FailIt(reason: string) | CancelIt(reason: string)

  function Act(p: Payment, a: Action, now: Clock): Transition {
    match a
    case CaptureIt => Capture(p, now)
    case FailIt(r) => Fail(p, r, now)
    case CancelIt(r) => Cancel(p, r, now)
  }

  /** A call's table, answer, and whether the payment moved. */
  datatype Settled = Settled(table: Table, reply: Result<Payment, PaymentError>, moved: bool)

  /** A whole call to cancel, capture or fail a payment, with its read and its write in one step. */
  function Settle(t: Table, id: string, a: Action, now: Clock): (s: Settled)
    ensures s.moved ==> s.reply.Ok?
  {
    if Blank(id) then Settled(t, Err(InvalidPaymentID), false)
    else if a.FailIt? && Blank(a.reason) then Settled(t, Err(InvalidPayment), false)
    else if id !in t then Settled(t, Err(PaymentNotFound), false)
    else if !Readable(t[id]) then Settled(t, Err(UnreadableRow), false)
    else
      match Act(t[id], a, now)
      case Unchanged => Settled(t, Ok(t[id]), false)
      case Moved(p) =>
        (match Update(t, p)
         case Ok(t') => Settled(t', Ok(AsStored(p)), true)
         case Err(e) => Settled(t, Err(e), false))
      case Refused(e) => Settled(t, Err(e), false)
  }

  /** What the handler owes the event bus after a real capture or failure. A cancelled payment is not announced. */
  function OutcomeEvent(p: Payment): Option<Event> {
    match p.status
    case Captured => Some(PaymentCaptured(p.orderID, p.customerID, p.id, PayStatusName(p.status)))
    case Failed => Some(PaymentFailed(p.orderID, p.customerID, p.id, PayStatusName(p.status), p.cancelReason))
    case _ => None
  }

  /**
   The payment service at work: its table, the outcome events handlers have yet to publish after
   their database update, and those that were published.
   */
  datatype State = State(table: Table, owed: multiset<Event>, sent: seq<Event>)

  datatype Step =
    | CreateStep(event: Event, id: string, at: Clock, missed: bool, keyFirst: bool)
    | ActStep(id: string, action: Action, at: Clock)
    | PublishStep(outcome: Event)
    | LoseStep(outcome: Event)

  function ActOn(s: State, id: string, a: Action, now: Clock): State {
    var c := Settle(s.table, id, a, now);
    if !c.moved then s
    else
      var e := OutcomeEvent(c.reply.value);
      State(c.table, s.owed + (if e.Some? then multiset{e.value} else multiset{}), s.sent)
  }

  function Do(s: State, step: Step): State {
    match step
    case CreateStep(e, id, at, missed, keyFirst) =>
      if !e.InventoryReserved? || Requested(e).Err? then s
      else (match Create(s.table, Requested(e).value, id, at, missed, keyFirst)
            case Ok(t) => s.(table := t)
            case Err(_) => s)
    case ActStep(id, a, at) => ActOn(s, id, a, at)
    case PublishStep(e) => if e in s.owed then s.(owed := s.owed - multiset{e}, sent := s.sent + [e]) else s
    case LoseStep(e) => if e in s.owed then s.(owed := s.owed - multiset{e}) else s
  }

  function DoAll(s: State, steps: seq<Step>): State {
    if steps == [] then s else Do(DoAll(s, steps[..|steps| - 1]), steps[|steps| - 1])
  }

  // ----- invariants -----

  ghost predicate TableOK(t: Table) {
    && (forall id | id in t :: t[id].id == id && t[id].idempotencyKey == Trim(PaymentKey(t[id].orderID))
                               && AsStored(t[id]) == t[id] && t[id].status != PayUnspecified)
    && (forall a, b | a in t && b in t && t[a].orderID == t[b].orderID :: a == b)
  }

  /** All outcome events ever produced and not lost. */
  function Announced(s: State): multiset<Event> {
    s.owed + multiset(s.sent)
  }

  /** Each announced outcome is the one of its payment's final status, and appears once. */
  ghost predicate OutcomesOK(s: State) {
    forall e | e in Announced(s) ::
      && Announced(s)[e] == 1
      && (e.PaymentCaptured? || e.PaymentFailed?)
      && e.paymentID in s.table
      && OutcomeEvent(s.table[e.paymentID]) == Some(e)
  }

  ghost predicate OK(s: State) {
    TableOK(s.table) && OutcomesOK(s)
  }

  lemma InsertKeepsOK(t: Table, p: Payment, keyFirst: bool)
    requires TableOK(t) && Insert(t, p, keyFirst).Ok?
    requires p.idempotencyKey == PaymentKey(p.orderID) && p.status != PayUnspecified
    ensures TableOK(Insert(t, p, keyFirst).value)
  {
    hide Trim, PaymentKey, Stored;
    TrimIsTrimmed(p.idempotencyKey);
    StoredClock(p.createdAt);
    StoredClock(p.updatedAt);
  }

  /** A creation adds at most one row, for the order the event names, and touches no other row. */
  lemma CreateEffect(t: Table, e: Event, id: string, now: Clock, missed: bool, keyFirst: bool)
    requires TableOK(t) && e.InventoryReserved? && Requested(e).Ok?
    ensures var r := Create(t, Requested(e).value, id, now, missed, keyFirst);
            r.Ok? ==> TableOK(r.value)
                      && (r.value == t
                          || (id !in t && r.value.Keys == t.Keys + {id} && (forall j | j in t :: r.value[j] == t[j])
                              && var p := Requested(e).value;
                                 r.value[id] ==
                                 AsStored(p.(id := id, status := PayPending, createdAt := now, updatedAt := now))))
  {
    hide Trim, PaymentKey, ParseCurrency, ParseMethod, Stored;
    var p := Requested(e).value.(id := id, status := PayPending, createdAt := now, updatedAt := now,
                                 cancelReason := "");
    if Insert(t, p, keyFirst).Ok? {
      InsertKeepsOK(t, p, keyFirst);
    }
  }

  lemma StoredRow(p: Payment)
    requires p.idempotencyKey == Trim(PaymentKey(p.orderID))
    ensures AsStored(p).idempotencyKey == p.idempotencyKey
  {
    TrimIsTrimmed(PaymentKey(p.orderID));
  }

  /** A recorded outcome is final: no action moves a payment that is captured, failed or cancelled. */
  lemma TerminalIsFinal(s: State, id: string, a: Action, now: Clock)
    requires id in s.table && Terminal(s.table[id].status)
    ensures ActOn(s, id, a, now) == s
  {
    hide Trim;
  }

  /** Equal but for what an outcome writes. */
  predicate SameRequest(p: Payment, q: Payment) {
    p.(status := q.status, cancelReason := q.cancelReason, updatedAt := q.updatedAt) == q
  }

  /** A pending payment moves at most once; a capture or failure is then owed exactly one announcement. */
  lemma ActEffect(s: State, id: string, a: Action, now: Clock)
    requires TableOK(s.table) && id in s.table
    ensures var s' := ActOn(s, id, a, now);
            s' == s
            || (s.table[id].status == PayPending && id in s'.table && Terminal(s'.table[id].status)
                && s'.table == s.table[id := s'.table[id]]
                && SameRequest(s'.table[id], s.table[id]) && AsStored(s'.table[id]) == s'.table[id]
                && s'.owed == s.owed + (if OutcomeEvent(s'.table[id]).Some?
                                        then multiset{OutcomeEvent(s'.table[id]).value} else multiset{})
                && s'.sent == s.sent)
  {
    hide Trim, Blank, Readable, PaymentKey, Stored, OutcomeEvent;
    StoredRow(s.table[id]);
    StoredClock(now);
  }

  /** The outcome of a payment that was pending is new, and the announced ones stay true. */
  lemma AnnounceKeepsOK(s: State, p: Payment, s': State)
    requires OutcomesOK(s) && p.id in s.table && s.table[p.id].status == PayPending
    requires s'.table == s.table[p.id := p] && s'.sent == s.sent
    requires s'.owed == s.owed + (if OutcomeEvent(p).Some? then multiset{OutcomeEvent(p).value} else multiset{})
    ensures OutcomesOK(s')
  {
    hide PayStatusName;
    forall e | e in Announced(s')
      ensures Announced(s')[e] == 1 && (e.PaymentCaptured? || e.PaymentFailed?)
      ensures e.paymentID in s'.table && OutcomeEvent(s'.table[e.paymentID]) == Some(e)
    {
      if OutcomeEvent(p) == Some(e) {
        assert e !in Announced(s);
      } else {
        assert e in Announced(s);
      }
    }
  }

  lemma ActKeepsOK(s: State, id: string, a: Action, now: Clock)
    requires OK(s)
    ensures OK(ActOn(s, id, a, now))
  {
    hide Trim, PaymentKey, ActOn, OutcomesOK, OutcomeEvent;
    if id in s.table {
      ActEffect(s, id, a, now);
      var s' := ActOn(s, id, a, now);
      if s' != s {
        AnnounceKeepsOK(s, s'.table[id], s');
      }
    } else {
      AbsentUnmoved(s, id, a, now);
    }
  }

  lemma AbsentUnmoved(s: State, id: string, a: Action, now: Clock)
    requires id !in s.table
    ensures ActOn(s, id, a, now) == s
  {
  }

  /** New rows leave the announced outcomes true. */
  lemma CreateKeepsOK(s: State, e: Event, id: string, at: Clock, missed: bool, keyFirst: bool)
    requires OK(s)
    ensures OK(Do(s, CreateStep(e, id, at, missed, keyFirst)))
  {
    hide Trim, PaymentKey, Requested, Create, TableOK, OutcomeEvent, AsStored;
    if e.InventoryReserved? && Requested(e).Ok? {
      CreateEffect(s.table, e, id, at, missed, keyFirst);
    }
  }

  /** Publishing moves an announcement, and losing one removes it. */
  lemma PublishKeepsOK(s: State, e: Event)
    requires OK(s)
    ensures OK(Do(s, PublishStep(e)))
  {
    hide TableOK, OutcomeEvent, Create, Requested, ActOn;
    if e in s.owed {
      assert multiset(s.sent + [e]) == multiset(s.sent) + multiset{e};
      assert Announced(Do(s, PublishStep(e))) == Announced(s);
    }
  }

  lemma LoseKeepsOK(s: State, e: Event)
    requires OK(s)
    ensures OK(Do(s, LoseStep(e)))
  {
    hide TableOK, OutcomeEvent, Create, Requested, ActOn;
    forall f | f in Announced(Do(s, LoseStep(e)))
      ensures f in Announced(s) && Announced(Do(s, LoseStep(e)))[f] <= Announced(s)[f]
    {
    }
  }

  lemma StepKeepsOK(s: State, step: Step)
    requires OK(s)
    ensures OK(Do(s, step))
  {
    hide OK, Requested, Create, ActOn;
    match step
    case CreateStep(e, id, at, missed, keyFirst) => CreateKeepsOK(s, e, id, at, missed, keyFirst);
    case ActStep(id, a, at) => ActKeepsOK(s, id, a, at);
    case PublishStep(e) => PublishKeepsOK(s, e);
    case LoseStep(e) => LoseKeepsOK(s, e);
  }

  /** Rows are never dropped and never change what they ask for; final rows never change at all. */
  ghost predicate RowsEvolve(t: Table, t': Table) {
    forall id | id in t :: id in t' && SameRequest(t'[id], t[id]) && (Terminal(t[id].status) ==> t'[id] == t[id])
  }

  lemma ActRows(s: State, id: string, a: Action, now: Clock)
    requires OK(s)
    ensures var t' := ActOn(s, id, a, now).table;
            RowsEvolve(s.table, t') && t'.Keys == s.table.Keys
  {
    hide ActOn, OutcomesOK, OutcomeEvent, Trim, PaymentKey;
    if id in s.table {
      ActEffect(s, id, a, now);
    } else {
      AbsentUnmoved(s, id, a, now);
    }
  }

  lemma CreateRows(s: State, e: Event, id: string, now: Clock, missed: bool, keyFirst: bool)
    requires OK(s) && e.InventoryReserved? && Requested(e).Ok?
    ensures var t', p := Do(s, CreateStep(e, id, now, missed, keyFirst)).table, Requested(e).value;
            && RowsEvolve(s.table, t')
            && forall j | j in t' && j !in s.table ::
                 t'[j].orderID == p.orderID && t'[j].customerID == p.customerID && t'[j].amount == p.amount
  {
    hide OutcomesOK, Trim, PaymentKey, Create, Requested, Stored;
    CreateEffect(s.table, e, id, now, missed, keyFirst);
  }

  lemma {:induction false} AllStepsKeepOK(s: State, steps: seq<Step>)
    requires OK(s)
    ensures OK(DoAll(s, steps))
    decreases |steps|
  {
    hide OK, Do;
    if steps != [] {
      AllStepsKeepOK(s, steps[..|steps| - 1]);
      StepKeepsOK(DoAll(s, steps[..|steps| - 1]), steps[|steps| - 1]);
    }
  }

  lemma Repeated<T>(s: seq<T>, i: nat, j: nat)
    requires i < j < |s| && s[i] == s[j]
    ensures multiset(s)[s[i]] >= 2
  {
    assert s == s[..j] + s[j..];
    assert s[..j][i] in s[..j] && s[j..][0] in s[j..];
  }

  lemma SentDiffer(s: State, i: nat, j: nat)
    requires OK(s) && i < j < |s.sent|
    ensures forall e | e == s.sent[i] || e == s.sent[j] :: e.PaymentCaptured? || e.PaymentFailed?
    ensures s.sent[i].paymentID != s.sent[j].paymentID && s.sent[i].orderID != s.sent[j].orderID
  {
    hide PayStatusName, PaymentKey, Trim;
    var e, f := s.sent[i], s.sent[j];
    assert e in multiset(s.sent) && f in multiset(s.sent);
    assert e in Announced(s) && f in Announced(s);
    if e == f {
      Repeated(s.sent, i, j);
    }
  }

  /** From an empty service, whatever is redelivered and however calls interleave: an order has at most one payment,
      and of all outcome events ever published no two concern the same payment or the same order. */
  lemma OneOutcomePerOrder(steps: seq<Step>)
    ensures var s := DoAll(State(map[], multiset{}, []), steps);
            && (forall a, b | a in s.table && b in s.table && s.table[a].orderID == s.table[b].orderID :: a == b)
            && (forall i, j | 0 <= i < j < |s.sent| ::
                  && (s.sent[i].PaymentCaptured? || s.sent[i].PaymentFailed?)
                  && (s.sent[j].PaymentCaptured? || s.sent[j].PaymentFailed?)
                  && s.sent[i].paymentID != s.sent[j].paymentID && s.sent[i].orderID != s.sent[j].orderID)
  {
    hide Do, OutcomesOK;
    StartOK();
    AllStepsKeepOK(State(map[], multiset{}, []), steps);
    var s := DoAll(State(map[], multiset{}, []), steps);
    forall i, j | 0 <= i < j < |s.sent|
      ensures (s.sent[i].PaymentCaptured? || s.sent[i].PaymentFailed?)
              && (s.sent[j].PaymentCaptured? || s.sent[j].PaymentFailed?)
      ensures s.sent[i].paymentID != s.sent[j].paymentID && s.sent[i].orderID != s.sent[j].orderID
    {
      SentDiffer(s, i, j);
    }
  }

  lemma StartOK()
    ensures OK(State(map[], multiset{}, []))
  {
  }
}
