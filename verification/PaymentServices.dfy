/** The payment service, the handler that announces outcomes, and the consumer that creates payments. */
module PaymentServices {
  import opened Wrappers
  import opened Text
  import opened Enums
  import opened Domain
  import opened Payments
  import opened PaymentDatabase
  import opened PaymentCalls
  import PaymentRows

  /** `CreatePayment` answers with a payment of the table it leaves behind, the one of the key if there is a key; an
      unreadable one is an error. */
  ghost predicate Answers(t: Table, request: Payment, r: Result<Payment, PaymentError>) {
    exists id ::
      id in t && (Trim(request.idempotencyKey) != "" ==> t[id].idempotencyKey == Trim(request.idempotencyKey))
                 && r == if Readable(t[id]) then Ok(t[id]) else Err(UnreadableRow)
  }

  lemma StillTaken(t: Table, t': Table, key: string)
    requires KeyTaken(t, key) && forall id | id in t :: id in t' && t'[id] == t[id]
    ensures KeyTaken(t', key)
  {
  }

  lemma StillFound(t: Table, t': Table, request: Payment, r: Result<Payment, PaymentError>)
    requires FoundByKey(t, Trim(request.idempotencyKey), r) && forall id | id in t :: id in t' && t'[id] == t[id]
    ensures Answers(t', request, r)
  {
    hide Trim, Readable;
    var id :| id in t && t[id].idempotencyKey == Trim(request.idempotencyKey)
              && r == if Readable(t[id]) then Ok(t[id]) else Err(UnreadableRow);
    assert id in t';
  }

  lemma NewAnswers(t: Table, p: Payment, request: Payment)
    requires p.id in t && t[p.id] == AsStored(p) && p.idempotencyKey == request.idempotencyKey
    ensures Answers(t, request, if Readable(p) then Ok(AsStored(p)) else Err(UnreadableRow))
  {
    StoredFields(p);
    hide Trim, Stored, AsStored, KnownCurrency, KnownMethod;
    assert p.id in t;
  }

  lemma InsertKeepsRows(t: Table, p: Payment, keyFirst: bool)
    requires Insert(t, p, keyFirst).Ok?
    ensures p.id !in t && Insert(t, p, keyFirst).value == t[p.id := AsStored(p)]
  {
    hide Blank, Trim, AsStored;
  }

  lemma StoredFields(p: Payment)
    ensures AsStored(p).id == p.id && AsStored(p).idempotencyKey == Trim(p.idempotencyKey)
    ensures Readable(AsStored(p)) <==> Readable(p)
  {
    hide Trim, Stored;
  }

  /** The table after another caller's insert; a refused insert leaves it. */
  function AfterRival(t: Table, rival: Option<Payment>, keyFirst: bool): Table {
    if rival.Some? && Insert(t, rival.value, keyFirst).Ok? then Insert(t, rival.value, keyFirst).value else t
  }

  class PaymentService {
    const repository: PaymentRepository

    constructor (repository: PaymentRepository)
      ensures this.repository == repository
    {
      this.repository := repository;
    }

    /** An insert by another caller. */
    method Rival(p: Option<Payment>, keyFirst: bool)
      requires repository.Valid()
      modifies repository
      ensures repository.Valid()
      ensures forall id | id in old(repository.View()) ::
                id in repository.View() && repository.View()[id] == old(repository.View())[id]
      ensures repository.View() == AfterRival(old(repository.View()), p, keyFirst)
    {
      hide Insert, Represents, Constrained;
      if p.Some? {
        if Insert(repository.View(), p.value, keyFirst).Ok? {
          InsertKeepsRows(repository.View(), p.value, keyFirst);
        }
        var _ := repository.CreatePayment(p.value, keyFirst);
      }
    }

    /**
     `newID` is the id generated for the payment. `rival` is a payment another caller inserts after this call's
     lookup; `met` is the table in between.
     */
    method CreatePayment(p: Payment, newID: string, now: Clock, rival: Option<Payment>, keyFirst: bool)
      returns (r: Result<Payment, PaymentError>, ghost met: Table)
      requires repository.Valid()
      modifies repository
      ensures repository.Valid()
      ensures met == AfterRival(old(repository.View()), rival, keyFirst)
      ensures match Create(met, p, if Blank(p.id) then newID else p.id, now,
                           !KeyTaken(old(repository.View()), Trim(p.idempotencyKey)), keyFirst)
              case Ok(t) => repository.View() == t && Answers(t, p, r)
              case Err(e) => repository.View() == met && r == Err(e)
      ensures Opens(old(repository.View()), met, p, newID, now, keyFirst, repository.View(), r)
    {
      hide Blank, Trim, Represents, Constrained, AsStored, Insert, Readable, KeyTaken, FoundByKey, Answers, Opens;
      NoKeyNotTaken(repository.View());
      if !Acceptable(p) {
        RefusedOpens(repository.View(), AfterRival(repository.View(), rival, keyFirst), p, newID, now, keyFirst);
        Rival(rival, keyFirst);
        return Err(InvalidPayment), repository.View();
      }
      var key := Trim(p.idempotencyKey);
      TrimIsTrimmed(p.idempotencyKey);
      BlankIsEmpty(key);
      BlankIsEmpty(p.idempotencyKey);
      var found: Result<Payment, PaymentError> := Err(PaymentNotFound);
      if key != "" {
        found := repository.GetPaymentByIdempotencyKey(key);
      }
      var looked := found.Ok? || found.error != PaymentNotFound;
      if FoundByKey(repository.View(), key, found) {
        FoundIsNotMissing(repository.View(), key, found);
      }
      assert looked <==> KeyTaken(repository.View(), key);
      ghost var before := repository.View();
      Rival(rival, keyFirst);
      met := repository.View();
      if looked {
        StillTaken(before, met, key);
        StillFound(before, met, p, found);
        FoundOpens(before, met, p, newID, now, keyFirst, found);
        return found, met;
      }
      var q := p.(id := if Blank(p.id) then newID else p.id, status := PayPending,
                  createdAt := now, updatedAt := now, cancelReason := "");
      var created := repository.CreatePayment(q, keyFirst);
      StoredFields(q);
      if Insert(met, q, keyFirst).Ok? {
        InsertKeepsRows(met, q, keyFirst);
        NewAnswers(repository.View(), q, p);
      }
      if Insert(met, q, keyFirst) == Err(IdempotencyKeyAlreadyExists) {
        OnlyWhenTaken(met, q, keyFirst);
        NoKeyNotTaken(met);
      }
      if created.Err? && key != "" && created.error == IdempotencyKeyAlreadyExists {
        r := repository.GetPaymentByIdempotencyKey(p.idempotencyKey);
        StillFound(met, met, p, r);
      } else {
        r := created;
      }
      InsertedOpens(before, met, p, newID, now, keyFirst, repository.View(), r);
    }

    method GetPaymentByID(id: string) returns (r: Result<Payment, PaymentError>)
      requires repository.Valid()
      ensures r == if Blank(id) then Err(InvalidPaymentID)
                   else if id !in repository.View() then Err(PaymentNotFound)
                   else if !Readable(repository.View()[id]) then Err(UnreadableRow)
                   else Ok(repository.View()[id])
    {
      r := repository.GetPaymentByID(id);
    }

    method CapturePayment(id: string, now: Clock) returns (r: Result<Payment, PaymentError>, transitioned: bool)
      requires repository.Valid()
      modifies repository
      ensures repository.Valid()
      ensures Settle(old(repository.View()), id, CaptureIt, now) == Settled(repository.View(), r, transitioned)
      ensures Turns(old(repository.View()), id, Captured, None, false, CannotBeCaptured, now, repository.View(), r,
                    transitioned)
    {
      hide Blank, Trim, Represents, Constrained, KnownCurrency, KnownMethod, AsStored, Update, Turns;
      SettleTurns(repository.rows, repository.contents, id, CaptureIt, now);
      if Blank(id) {
        return Err(InvalidPaymentID), false;
      }
      var read := repository.GetPaymentByID(id);
      if read.Err? {
        return read, false;
      }
      var p := read.value;
      SameID(repository.rows, repository.contents, id);
      match p.status
      case Captured => return Ok(p), false;
      case PayPending =>
        var q := p.(status := Captured, updatedAt := now);
        r := repository.UpdatePayment(q);
        transitioned := r.Ok?;
      case _ => return Err(CannotBeCaptured), false;
    }

    method FailPayment(id: string, reason: string, now: Clock)
      returns (r: Result<Payment, PaymentError>, transitioned: bool)
      requires repository.Valid()
      modifies repository
      ensures repository.Valid()
      ensures Settle(old(repository.View()), id, FailIt(reason), now) == Settled(repository.View(), r, transitioned)
      ensures Turns(old(repository.View()), id, Failed, Some(reason), true, CannotBeFailed, now, repository.View(), r,
                    transitioned)
    {
      hide Blank, Trim, Represents, Constrained, KnownCurrency, KnownMethod, AsStored, Update, Turns;
      BlankIsEmpty(reason);
      SettleTurns(repository.rows, repository.contents, id, FailIt(reason), now);
      if Blank(id) {
        return Err(InvalidPaymentID), false;
      }
      var trimmed := Trim(reason);
      if trimmed == "" {
        return Err(InvalidPayment), false;
      }
      var read := repository.GetPaymentByID(id);
      if read.Err? {
        return read, false;
      }
      var p := read.value;
      SameID(repository.rows, repository.contents, id);
      match p.status
      case Failed => return Ok(p), false;
      case PayPending =>
        var q := p.(status := Failed, cancelReason := trimmed, updatedAt := now);
        r := repository.UpdatePayment(q);
        transitioned := r.Ok?;
      case _ => return Err(CannotBeFailed), false;
    }

    method CancelPayment(id: string, reason: string, now: Clock) returns (r: Result<Payment, PaymentError>)
      requires repository.Valid()
      modifies repository
      ensures repository.Valid()
      ensures var c := Settle(old(repository.View()), id, CancelIt(reason), now);
              repository.View() == c.table && r == c.reply
      ensures exists moved ::
                Turns(old(repository.View()), id, PayCancelled, Some(reason), false, CannotBeCancelled, now,
                      repository.View(), r, moved)
    {
      hide Blank, Trim, Represents, Constrained, KnownCurrency, KnownMethod, AsStored, Update, Turns;
      SettleTurns(repository.rows, repository.contents, id, CancelIt(reason), now);
      if Blank(id) {
        return Err(InvalidPaymentID);
      }
      var read := repository.GetPaymentByID(id);
      if read.Err? {
        return read;
      }
      var p := read.value;
      SameID(repository.rows, repository.contents, id);
      match p.status
      case PayCancelled => return Ok(p);
      case PayPending =>
        var q := p.(status := PayCancelled, cancelReason := Trim(reason), updatedAt := now);
        r := repository.UpdatePayment(q);
      case _ => return Err(CannotBeCancelled);
    }
  }

  lemma FoundIsNotMissing(t: Table, key: string, r: Result<Payment, PaymentError>)
    requires FoundByKey(t, key, r)
    ensures r != Err(PaymentNotFound)
  {
    hide Readable;
  }

  lemma NoKeyNotTaken(t: Table)
    ensures !KeyTaken(t, "")
  {
  }

  lemma OnlyWhenTaken(t: Table, p: Payment, keyFirst: bool)
    requires Insert(t, p, keyFirst) == Err(IdempotencyKeyAlreadyExists)
    ensures KeyTaken(t, Trim(p.idempotencyKey))
  {
    hide Trim, Blank;
  }

  lemma SameID(rows: map<string, PaymentRows.PaymentRow>, contents: Table, id: string)
    requires Represents(rows, contents) && id in contents
    ensures contents[id].id == id
  {
    hide PaymentRows.RowOf, AsStored;
  }

  /** The GRPC handler: it announces an outcome after the database update, and only when the payment moved. */
  class PaymentHandler {
    const service: PaymentService
    var published: seq<Event>

    constructor (service: PaymentService)
      ensures this.service == service && published == []
    {
      this.service, published := service, [];
    }

    method CapturePayment(id: string, now: Clock, publishOk: bool) returns (ok: bool)
      requires service.repository.Valid()
      modifies this, service.repository
      ensures service.repository.Valid()
      ensures Announces(old(service.repository.View()), old(published), id, CaptureIt, now, publishOk,
                        service.repository.View(), published, ok)
      ensures Captures(old(service.repository.View()), id, now, publishOk, service.repository.View(), old(published),
                       published, ok)
    {
      hide Represents, Constrained, Settle, PayStatusName, Turns, Trim, Captures, Fails;
      var before := service.repository.contents;
      var r, transitioned := service.CapturePayment(id, now);
      MovedOutcome(before, id, CaptureIt, now);
      CapturesBy(before, id, now, publishOk, service.repository.View(), published, r, transitioned);
      if r.Err? {
        return false;
      }
      if transitioned {
        if !publishOk {
          return false;
        }
        var p := r.value;
        published := published + [PaymentCaptured(p.orderID, p.customerID, p.id, PayStatusName(p.status))];
      }
      ok := true;
    }

    method FailPayment(id: string, reason: string, now: Clock, publishOk: bool) returns (ok: bool)
      requires service.repository.Valid()
      modifies this, service.repository
      ensures service.repository.Valid()
      ensures Announces(old(service.repository.View()), old(published), id, FailIt(reason), now, publishOk,
                        service.repository.View(), published, ok)
      ensures Fails(old(service.repository.View()), id, reason, now, publishOk, service.repository.View(),
                    old(published), published, ok)
    {
      hide Represents, Constrained, Settle, PayStatusName, Turns, Trim, Captures, Fails;
      var before := service.repository.contents;
      var r, transitioned := service.FailPayment(id, reason, now);
      MovedOutcome(before, id, FailIt(reason), now);
      FailsBy(before, id, reason, now, publishOk, service.repository.View(), published, r, transitioned);
      if r.Err? {
        return false;
      }
      if transitioned {
        if !publishOk {
          return false;
        }
        var p := r.value;
        published := published + [PaymentFailed(p.orderID, p.customerID, p.id, PayStatusName(p.status),
                                                p.cancelReason)];
      }
      ok := true;
    }
  }

  /** One handler call as a step of the payment service: the update, then its announcement published or lost. */
  ghost predicate Announces(t: Table, sent: seq<Event>, id: string, a: Action, now: Clock, publishOk: bool,
                            t': Table, sent': seq<Event>, ok: bool) {
    var acted := ActOn(State(t, multiset{}, sent), id, a, now);
    var c := Settle(t, id, a, now);
    && t' == acted.table
    && (ok <==> c.reply.Ok? && (c.moved ==> publishOk))
    && (c.moved ==> OutcomeEvent(c.reply.value).Some?
                    && State(t', multiset{}, sent') ==
                       Do(acted, if publishOk then PublishStep(OutcomeEvent(c.reply.value).value)
                                 else LoseStep(OutcomeEvent(c.reply.value).value)))
    && (!c.moved ==> t' == t && sent' == sent)
  }

  /** A captured or failed payment has its announcement. */
  lemma MovedOutcome(t: Table, id: string, a: Action, now: Clock)
    requires !a.CancelIt?
    ensures var c := Settle(t, id, a, now);
            && (!c.moved ==> c.table == t)
            && (c.moved ==>
                  var p := c.reply.value;
                  OutcomeEvent(p) == Some(
                    if a.CaptureIt? then PaymentCaptured(p.orderID, p.customerID, p.id, PayStatusName(p.status))
                    else PaymentFailed(p.orderID, p.customerID, p.id, PayStatusName(p.status), p.cancelReason)))
  {
    hide Trim, Blank, Stored, Readable, PayStatusName;
  }

  // ----- payments from events -----

  class InventoryReservedConsumer {
    const service: PaymentService
    var processed: set<string>
    var published: seq<Event>

    constructor (service: PaymentService)
      ensures this.service == service && processed == {} && published == []
    {
      this.service, processed, published := service, {}, [];
    }

    /** `createPayment`. */
    method CreatePayment(event: Event, newID: string, now: Clock, rival: Option<Payment>, keyFirst: bool)
      returns (r: Result<Payment, PaymentError>, ghost met: Table)
      requires event.InventoryReserved? && service.repository.Valid()
      modifies service.repository
      ensures service.repository.Valid()
      ensures met == AfterRival(old(service.repository.View()), rival, keyFirst)
      ensures match Requested(event)
              case Err(e) => r == Err(e) && service.repository.View() == met
              case Ok(p) =>
                match Create(met, p, newID, now, !KeyTaken(old(service.repository.View()), Trim(p.idempotencyKey)),
                             keyFirst)
                case Ok(t) => service.repository.View() == t && Answers(t, p, r)
                case Err(e) => service.repository.View() == met && r == Err(e)
      ensures OpensFor(old(service.repository.View()), met, event, newID, now, keyFirst, service.repository.View(), r)
    {
      hide Represents, Constrained, Create, ParseCurrency, ParseMethod, Blank, Trim, Opens, OpensFor;
      EmptyIsBlank();
      ghost var before := service.repository.View();
      var currency := ParseCurrency(event.amount.currency);
      var payMethod := ParseMethod(event.payment.payMethod);
      if currency.None? || payMethod.None? {
        service.Rival(rival, keyFirst);
        met := service.repository.View();
        AskedOpens(before, met, event, newID, now, keyFirst, met, Err(UnsupportedName));
        return Err(UnsupportedName), met;
      }
      r, met := service.CreatePayment(
        Payment("", event.orderID, event.customerID, Money(currency.value, event.amount.cents), payMethod.value,
                event.payment.details, KEY_PREFIX + event.orderID, PayUnspecified, "", 0, 0),
        newID, now, rival, keyFirst);
      AskedOpens(before, met, event, newID, now, keyFirst, service.repository.View(), r);
    }

    /** One delivery. Exactly one message goes out, saying what became of the creation; the delivery is committed only
        after that, and once recorded. */
    method HandleMessage(eventID: string, event: Event, newID: string, now: Clock, rival: Option<Payment>,
                         keyFirst: bool, reason: string, publishOk: bool, markOk: bool)
      returns (commit: bool, ghost met: Table)
      requires event.InventoryReserved? && service.repository.Valid()
      modifies this, service.repository
      ensures service.repository.Valid()
      ensures commit <==> eventID in processed
      ensures old(processed) <= processed <= old(processed) + {eventID}
      ensures eventID in old(processed) ==>
              published == old(published) && service.repository.View() == old(service.repository.View())
      ensures eventID !in old(processed) ==>
                && met == AfterRival(old(service.repository.View()), rival, keyFirst)
                && (commit <==> publishOk && markOk)
                && (if publishOk
                    then |published| == |old(published)| + 1 && published[..|old(published)|] == old(published)
                    else published == old(published))
                && match Requested(event)
                   case Err(_) =>
                     && service.repository.View() == met
                     && (publishOk ==>
                         published[|old(published)|] == PaymentCreationFailed(event.orderID, event.customerID, reason))
                   case Ok(p) =>
                     match Create(met, p, newID, now, !KeyTaken(old(service.repository.View()), Trim(p.idempotencyKey)),
                                  keyFirst)
                     case Err(_) =>
                       && service.repository.View() == met
                       && (publishOk ==>
                            published[|old(published)|]
                            == PaymentCreationFailed(event.orderID, event.customerID, reason))
                     case Ok(t) =>
                       && service.repository.View() == t
                       && (publishOk ==> SaysCreated(t, p, event, reason, published[|old(published)|]))
      ensures eventID !in old(processed) ==>
                exists r ::
                  && OpensFor(old(service.repository.View()), met, event, newID, now, keyFirst,
                              service.repository.View(), r)
                  && (publishOk ==>
                        |published| > |old(published)| && TellsOpened(published[|old(published)|], event, reason, r))
    {
      hide Represents, Constrained, Create, Requested, Blank, Trim, Answers, Readable, OpensFor;
      met := service.repository.contents;
      if eventID in processed {
        return true, met;
      }
      var r;
      r, met := CreatePayment(event, newID, now, rival, keyFirst);
      if !publishOk {
        return false, met;
      }
      var message := if r.Err? then PaymentCreationFailed(event.orderID, event.customerID, reason)
                     else PaymentCreated(r.value.orderID, r.value.customerID, r.value.id,
                                         PayStatusName(r.value.status));
      published := published + [message];
      if !markOk {
        return false, met;
      }
      processed := processed + {eventID};
      commit := true;
    }
  }

  /** The message says what `CreatePayment` answered: a payment of the table, or that it could not be read. */
  ghost predicate SaysCreated(t: Table, request: Payment, event: Event, reason: string, message: Event) {
    exists r :: Answers(t, request, r)
                && message == (match r
                               case Ok(p) => PaymentCreated(p.orderID, p.customerID, p.id, PayStatusName(p.status))
                               case Err(_) => PaymentCreationFailed(event.orderID, event.customerID, reason))
  }
}
