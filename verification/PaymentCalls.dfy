/** Calls on a payment in the fields of its row: when it is opened, when it moves, and what is answered. */
module PaymentCalls {
  import opened Wrappers
  import opened Text
  import opened Enums
  import opened Domain
  import opened Payments
  import opened PaymentDatabase
  import PaymentRows

  /** The row's enumeration numbers are declared, so it can be read. */
  predicate Legible(p: Payment) {
    0 <= p.amount.currency <= 2 && 0 <= p.payMethod <= 2
  }

  // ----- outcomes -----

  /** The call names a payment that can be read, and gives a reason if it must. */
  predicate Reaches(t: Table, id: string, reason: Option<string>, needsReason: bool) {
    && Trim(id) != "" && (needsReason && reason.Some? ==> Trim(reason.value) != "")
    && id in t && Legible(t[id])
  }

  /**
   A call to bring a payment to `target`. It moves exactly a pending payment (with a creation time) that it reaches; it
   succeeds without a move exactly on one that is there already; every other case is an error, and changes nothing.
   */
  predicate Turns(t: Table, id: string, target: PaymentStatus, reason: Option<string>, needsReason: bool,
                  refusal: PaymentError, now: Clock, t': Table, r: Result<Payment, PaymentError>, moved: bool) {
    && (moved <==> Reaches(t, id, reason, needsReason) && t[id].status == PayPending && t[id].createdAt != 0)
    && (moved ==>
          && id in t && id in t' && t' == t[id := t'[id]] && r == Ok(t'[id])
          && t'[id].status == target
          && t'[id].cancelReason == (if reason.Some? then Trim(reason.value) else t[id].cancelReason)
          && t'[id].updatedAt == now - now % 1000
          && t'[id].id == id && t'[id].orderID == t[id].orderID && t'[id].customerID == t[id].customerID
          && t'[id].amount == t[id].amount && t'[id].payMethod == t[id].payMethod && t'[id].details == t[id].details
          && t'[id].idempotencyKey == t[id].idempotencyKey && t'[id].createdAt == t[id].createdAt)
    && (!moved ==> t' == t)
    && (r.Ok? && !moved <==> Reaches(t, id, reason, needsReason) && t[id].status == target)
    && (r.Ok? && !moved ==> id in t && r.value == t[id])
    && (r.Err? ==>
          if Trim(id) == "" then r.error == InvalidPaymentID
          else if needsReason && reason.Some? && Trim(reason.value) == "" then r.error == InvalidPayment
          else if id !in t then r.error == PaymentNotFound
          else if !Legible(t[id]) then r.error == UnreadableRow
          else if t[id].status != PayPending then r.error == refusal
          else r.error == ConstraintViolated)
  }

  lemma UpdateWithoutTime(rows: map<string, PaymentRows.PaymentRow>, t: Table, p: Payment)
    requires Represents(rows, t) && Constrained(t) && p.id in t && SameRequest(p, t[p.id]) && t[p.id].createdAt == 0
    ensures Update(t, p) == Err(ConstraintViolated)
  {
    hide PaymentRows.RowOf, Stored;
    RowStored(rows, t, p.id);
    hide Trim, Blank;
  }

  lemma StoredOutcome(p: Payment, now: Clock)
    requires p.updatedAt == now
    ensures AsStored(p).updatedAt == now - now % 1000
    ensures AsStored(p).status == p.status && AsStored(p).cancelReason == p.cancelReason && AsStored(p).id == p.id
  {
    hide Trim;
  }

  lemma StoredRequest(rows: map<string, PaymentRows.PaymentRow>, t: Table, id: string)
    requires Represents(rows, t) && id in t
    ensures t[id].id == id && AsStored(t[id]) == t[id]
  {
    hide PaymentRows.RowOf, AsStored;
  }

  lemma SameRequestStored(p: Payment, q: Payment)
    requires SameRequest(p, q) && AsStored(q) == q
    ensures SameRequest(AsStored(p), q)
  {
    hide Trim, Stored;
  }

  function Target(a: Action): PaymentStatus {
    match a
    case CaptureIt => Captured
    case FailIt(_) => Failed
    case CancelIt(_) => PayCancelled
  }

  function Refusal(a: Action): PaymentError {
    match a
    case CaptureIt => CannotBeCaptured
    case FailIt(_) => CannotBeFailed
    case CancelIt(_) => CannotBeCancelled
  }

  function Given(a: Action): Option<string> {
    match a
    case CaptureIt => None
    case FailIt(reason) => Some(reason)
    case CancelIt(reason) => Some(reason)
  }

  /** What an action makes of a payment it moves. */
  lemma ActMoves(p: Payment, a: Action, now: Clock)
    requires !a.FailIt? || !Blank(a.reason)
    ensures match Act(p, a, now)
            case Moved(q) =>
              && p.status == PayPending && SameRequest(q, p) && q.updatedAt == now && q.id == p.id
              && q.status == Target(a)
              && q.cancelReason == (if Given(a).Some? then Trim(Given(a).value) else p.cancelReason)
            case Unchanged => p.status == Target(a)
            case Refused(e) => p.status != PayPending && p.status != Target(a) && e == Refusal(a)
  {
    hide Trim, Blank;
  }

  lemma LegibleIff(p: Payment)
    ensures Legible(p) <==> Readable(p)
  {
  }

  /** Capture, fail and cancel, in these words. */
  lemma SettleTurns(rows: map<string, PaymentRows.PaymentRow>, t: Table, id: string, a: Action, now: Clock)
    requires Represents(rows, t) && Constrained(t)
    ensures var c := Settle(t, id, a, now);
            Turns(t, id, Target(a), Given(a), a.FailIt?, Refusal(a), now, c.table, c.reply, c.moved)
  {
    hide Trim, Blank, Represents, Constrained, Act, Update, AsStored, Readable, Legible, SameRequest, Target, Refusal;
    BlankIsEmpty(id);
    if Given(a).Some? {
      BlankIsEmpty(Given(a).value);
    }
    if id in t {
      LegibleIff(t[id]);
      StoredRequest(rows, t, id);
      if !(a.FailIt? && Blank(a.reason)) {
        ActMoves(t[id], a, now);
        TargetIsFinal(a);
        if Act(t[id], a, now).Moved? {
          var q := Act(t[id], a, now).payment;
          if t[id].createdAt == 0 {
            UpdateWithoutTime(rows, t, q);
          } else {
            OutcomeUpdateSucceeds(rows, t, q);
          }
          StoredOutcome(q, now);
          SameRequestStored(q, t[id]);
          RequestFields(AsStored(q), t[id]);
        }
      }
    }
  }

  lemma TargetIsFinal(a: Action)
    ensures Target(a) != PayPending
  {
  }

  lemma RequestFields(p: Payment, q: Payment)
    requires SameRequest(p, q)
    ensures p.orderID == q.orderID && p.customerID == q.customerID && p.amount == q.amount && p.payMethod == q.payMethod
    ensures p.details == q.details && p.idempotencyKey == q.idempotencyKey && p.createdAt == q.createdAt
  {
  }

  /** A handler's call: what it answers, and the message it sends for a payment that has moved. */
  ghost predicate Captures(t: Table, id: string, now: Clock, publishOk: bool, t': Table, sent: seq<Event>,
                           sent': seq<Event>, ok: bool) {
    exists r, moved ::
      && Turns(t, id, Captured, None, false, CannotBeCaptured, now, t', r, moved)
      && (ok <==> r.Ok? && (moved ==> publishOk))
      && if moved && publishOk && id in t then
           && |sent'| == |sent| + 1 && sent <= sent' && sent'[|sent|].PaymentCaptured?
           && sent'[|sent|].orderID == t[id].orderID && sent'[|sent|].customerID == t[id].customerID
           && sent'[|sent|].paymentID == id && sent'[|sent|].status == "PAYMENT_STATUS_CAPTURED"
         else sent' == sent
  }

  ghost predicate Fails(t: Table, id: string, reason: string, now: Clock, publishOk: bool, t': Table, sent: seq<Event>,
                        sent': seq<Event>, ok: bool) {
    exists r, moved ::
      && Turns(t, id, Failed, Some(reason), true, CannotBeFailed, now, t', r, moved)
      && (ok <==> r.Ok? && (moved ==> publishOk))
      && if moved && publishOk && id in t then
           && |sent'| == |sent| + 1 && sent <= sent' && sent'[|sent|].PaymentFailed?
           && sent'[|sent|].orderID == t[id].orderID && sent'[|sent|].customerID == t[id].customerID
           && sent'[|sent|].paymentID == id && sent'[|sent|].status == "PAYMENT_STATUS_FAILED"
           && sent'[|sent|].reason == Trim(reason)
         else sent' == sent
  }

  lemma CapturesBy(t: Table, id: string, now: Clock, publishOk: bool, t': Table, sent: seq<Event>,
                   r: Result<Payment, PaymentError>, moved: bool)
    requires Turns(t, id, Captured, None, false, CannotBeCaptured, now, t', r, moved)
    ensures moved ==> r.Ok?
    ensures Captures(t, id, now, publishOk, t', sent,
                     if moved && publishOk && r.Ok?
                     then sent + [PaymentCaptured(r.value.orderID, r.value.customerID, r.value.id,
                                                  PayStatusName(r.value.status))]
                     else sent,
                     r.Ok? && (moved ==> publishOk))
  {
    hide Reaches;
  }

  lemma FailsBy(t: Table, id: string, reason: string, now: Clock, publishOk: bool, t': Table, sent: seq<Event>,
                r: Result<Payment, PaymentError>, moved: bool)
    requires Turns(t, id, Failed, Some(reason), true, CannotBeFailed, now, t', r, moved)
    ensures moved ==> r.Ok?
    ensures Fails(t, id, reason, now, publishOk, t', sent,
                  if moved && publishOk && r.Ok?
                  then sent + [PaymentFailed(r.value.orderID, r.value.customerID, r.value.id,
                                             PayStatusName(r.value.status), r.value.cancelReason)]
                  else sent,
                  r.Ok? && (moved ==> publishOk))
  {
    hide Reaches, Trim;
  }

  // ----- opening a payment -----

  ghost predicate KeyOwned(t: Table, key: string) {
    key != "" && exists id | id in t :: t[id].idempotencyKey == key
  }

  ghost predicate OrderOwned(t: Table, orderID: string) {
    exists id | id in t :: t[id].orderID == orderID
  }

  /** The call answers with the payment of the key, if that can be read. */
  ghost predicate AnswersKey(t: Table, key: string, r: Result<Payment, PaymentError>) {
    exists id | id in t ::
      t[id].idempotencyKey == key && r == if Legible(t[id]) then Ok(t[id]) else Err(UnreadableRow)
  }

  /**
   A call to open a payment, given the table at its lookup, the table `met` that it finds afterwards and, when the table
   refuses both the order and the key, which of them it reports.
   */
  ghost predicate Opens(t: Table, met: Table, p: Payment, newID: string, now: Clock, keyFirst: bool, t': Table,
                        r: Result<Payment, PaymentError>) {
    var key := Trim(p.idempotencyKey);
    var id := if Trim(p.id) == "" then newID else p.id;
    if Trim(p.orderID) == "" || Trim(p.customerID) == "" || p.amount.cents <= 0
       || p.amount.currency == CURRENCY_UNSPECIFIED || p.payMethod == METHOD_UNSPECIFIED
    then r == Err(InvalidPayment) && t' == met
    else if KeyOwned(t, key) then AnswersKey(met, key, r) && t' == met
    else if Trim(id) == "" then r == Err(InvalidPaymentID) && t' == met
    else if KeyOwned(met, key) && (keyFirst || (id !in met && !OrderOwned(met, p.orderID)))
    then AnswersKey(met, key, r) && t' == met
    else if id in met || OrderOwned(met, p.orderID) then r == Err(PaymentAlreadyExists) && t' == met
    else
      && id in t' && t' == met[id := t'[id]]
      && r == (if Legible(p) then Ok(t'[id]) else Err(UnreadableRow))
      && t'[id].id == id && t'[id].orderID == p.orderID && t'[id].customerID == p.customerID
      && t'[id].amount == p.amount && t'[id].payMethod == p.payMethod && t'[id].details == p.details
      && t'[id].idempotencyKey == key && t'[id].status == PayPending && t'[id].cancelReason == ""
      && t'[id].createdAt == now - now % 1000 && t'[id].updatedAt == now - now % 1000
  }

  /** The number a currency name of an event stands for. */
  predicate NamesCurrency(name: string, c: int) {
    || (c == CURRENCY_USD && (name == "CURRENCY_USD" || name == "USD"))
    || (c == CURRENCY_EUR && (name == "CURRENCY_EUR" || name == "EUR"))
  }

  predicate NamesMethod(name: string, m: int) {
    || (m == METHOD_CARD && (name == "PAYMENT_METHOD_TYPE_CARD" || name == "CARD"))
    || (m == METHOD_CASH && (name == "PAYMENT_METHOD_TYPE_CASH" || name == "CASH"))
  }

  /** The payment an event asks for, field by field. */
  predicate AskedBy(e: Event, p: Payment) {
    && e.InventoryReserved?
    && p.id == "" && p.orderID == e.orderID && p.customerID == e.customerID
    && NamesCurrency(e.amount.currency, p.amount.currency) && p.amount.cents == e.amount.cents
    && NamesMethod(e.payment.payMethod, p.payMethod) && p.details == e.payment.details
    && p.idempotencyKey == "payment:create:" + e.orderID
  }

  /** A delivery's call: refused when the event's currency or method has no meaning, and otherwise a call to open the
      payment the event asks for. */
  ghost predicate OpensFor(t: Table, met: Table, e: Event, newID: string, now: Clock, keyFirst: bool, t': Table,
                           r: Result<Payment, PaymentError>)
    requires e.InventoryReserved?
  {
    if exists c, m :: NamesCurrency(e.amount.currency, c) && NamesMethod(e.payment.payMethod, m)
    then exists p :: AskedBy(e, p) && Opens(t, met, p, newID, now, keyFirst, t', r)
    else r == Err(UnsupportedName) && t' == met
  }

  /** The message that says so. */
  predicate TellsOpened(message: Event, e: Event, reason: string, r: Result<Payment, PaymentError>) {
    match r
    case Ok(p) =>
      && message.PaymentCreated? && message.orderID == p.orderID && message.customerID == p.customerID
      && message.paymentID == p.id && message.status == PayStatusName(p.status)
    case Err(_) =>
      && message.PaymentCreationFailed? && message.orderID == e.orderID && message.customerID == e.customerID
      && message.reason == reason
  }

  lemma AskedOpens(t: Table, met: Table, e: Event, newID: string, now: Clock, keyFirst: bool, t': Table,
                   r: Result<Payment, PaymentError>)
    requires e.InventoryReserved?
    requires match Requested(e)
             case Err(error) => r == Err(error) && t' == met
             case Ok(p) => Opens(t, met, p, newID, now, keyFirst, t', r)
    ensures OpensFor(t, met, e, newID, now, keyFirst, t', r)
  {
    hide Opens, NamesCurrency, NamesMethod, Requested;
    RequestedIsAsked(e);
    if Requested(e).Ok? {
      AskedNames(e, Requested(e).value);
    }
  }

  lemma AskedNames(e: Event, p: Payment)
    requires AskedBy(e, p)
    ensures NamesCurrency(e.amount.currency, p.amount.currency) && NamesMethod(e.payment.payMethod, p.payMethod)
  {
    hide NamesCurrency, NamesMethod;
  }

  lemma RequestedIsAsked(e: Event)
    requires e.InventoryReserved?
    ensures Requested(e).Ok? ==> AskedBy(e, Requested(e).value)
    ensures Requested(e) == Err(UnsupportedName) || Requested(e).Ok?
    ensures Requested(e).Err? ==>
              (forall c :: !NamesCurrency(e.amount.currency, c)) || (forall m :: !NamesMethod(e.payment.payMethod, m))
  {
  }

  lemma AcceptableIff(p: Payment)
    ensures Acceptable(p) <==>
            Trim(p.orderID) != "" && Trim(p.customerID) != "" && p.amount.cents > 0
            && p.amount.currency != CURRENCY_UNSPECIFIED && p.payMethod != METHOD_UNSPECIFIED
  {
    hide Trim;
  }

  lemma OwnedIff(t: Table, key: string, orderID: string)
    ensures KeyTaken(t, key) <==> KeyOwned(t, key)
    ensures OrderTaken(t, orderID) <==> OrderOwned(t, orderID)
  {
  }

  lemma FoundAnswers(t: Table, met: Table, key: string, r: Result<Payment, PaymentError>)
    requires FoundByKey(t, key, r) && forall id | id in t :: id in met && met[id] == t[id]
    ensures AnswersKey(met, key, r)
  {
    hide Readable, Legible;
    var id :| id in t && t[id].idempotencyKey == key && r == if Readable(t[id]) then Ok(t[id]) else Err(UnreadableRow);
    LegibleIff(t[id]);
    assert id in met;
  }

  lemma RefusedOpens(t: Table, met: Table, p: Payment, newID: string, now: Clock, keyFirst: bool)
    requires !Acceptable(p)
    ensures Opens(t, met, p, newID, now, keyFirst, met, Err(InvalidPayment))
  {
    hide Trim, Acceptable, KeyOwned, OrderOwned;
    AcceptableIff(p);
  }

  lemma FoundOpens(t: Table, met: Table, p: Payment, newID: string, now: Clock, keyFirst: bool,
                   r: Result<Payment, PaymentError>)
    requires Acceptable(p) && KeyTaken(t, Trim(p.idempotencyKey)) && FoundByKey(t, Trim(p.idempotencyKey), r)
    requires forall id | id in t :: id in met && met[id] == t[id]
    ensures Opens(t, met, p, newID, now, keyFirst, met, r)
  {
    hide Trim, Acceptable, KeyOwned, KeyTaken, OrderOwned, FoundByKey, AnswersKey;
    AcceptableIff(p);
    OwnedIff(t, Trim(p.idempotencyKey), p.orderID);
    FoundAnswers(t, met, Trim(p.idempotencyKey), r);
  }

  /** What a payment opened at `now` is stored as. */
  lemma OpenedFields(p: Payment, id: string, now: Clock)
    ensures var q := AsStored(p.(id := id, status := PayPending, createdAt := now, updatedAt := now,
                                 cancelReason := ""));
            && q.id == id && q.orderID == p.orderID && q.customerID == p.customerID
            && q.amount == p.amount && q.payMethod == p.payMethod && q.details == p.details
            && q.idempotencyKey == Trim(p.idempotencyKey) && q.status == PayPending && q.cancelReason == ""
            && q.createdAt == now - now % 1000 && q.updatedAt == now - now % 1000
            && (Readable(q) <==> Legible(p))
  {
    hide Trim;
  }

  lemma InsertedOpens(t: Table, met: Table, p: Payment, newID: string, now: Clock, keyFirst: bool, t': Table,
                      r: Result<Payment, PaymentError>)
    requires Acceptable(p) && !KeyTaken(t, Trim(p.idempotencyKey))
    requires var q := p.(id := if Blank(p.id) then newID else p.id, status := PayPending, createdAt := now,
                         updatedAt := now, cancelReason := "");
             match Insert(met, q, keyFirst)
             case Ok(after) => t' == after && r == if Readable(q) then Ok(AsStored(q)) else Err(UnreadableRow)
             case Err(e) =>
               t' == met
               && if e == IdempotencyKeyAlreadyExists then FoundByKey(met, Trim(p.idempotencyKey), r) else r == Err(e)
    ensures Opens(t, met, p, newID, now, keyFirst, t', r)
  {
    hide Trim, Acceptable, KeyOwned, KeyTaken, OrderOwned, OrderTaken, FoundByKey, AnswersKey, AsStored, Blank,
         Readable,
         Legible;
    var id := if Blank(p.id) then newID else p.id;
    AcceptableIff(p);
    BlankIsEmpty(p.id);
    BlankIsEmpty(id);
    BlankIsEmpty(p.orderID);
    BlankIsEmpty(p.customerID);
    OwnedIff(t, Trim(p.idempotencyKey), p.orderID);
    OwnedIff(met, Trim(p.idempotencyKey), p.orderID);
    OpenedFields(p, id, now);
    LegibleStored(p, id, now);
    if FoundByKey(met, Trim(p.idempotencyKey), r) {
      FoundAnswers(met, met, Trim(p.idempotencyKey), r);
    }
  }

  lemma LegibleStored(p: Payment, id: string, now: Clock)
    ensures Readable(p.(id := id, status := PayPending, createdAt := now, updatedAt := now, cancelReason := ""))
            <==> Legible(p)
  {
  }
}
