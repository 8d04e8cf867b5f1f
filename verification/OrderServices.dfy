/** The order service over its repository, and the consumers that drive it. */
module OrderServices {
  import opened Wrappers
  import opened Integers
  import opened Text
  import opened Enums
  import opened Domain
  import opened OrderStore
  import opened OrderLifecycle
  import opened OrderPlacement
  import opened OrderCreation
  import opened OrderTransitions
  import opened OrderDatabase
  import OrderRows
  import opened Sequences

  /** `normalizeOrderInput`: the items are rewritten in place. */
  method NormalizeOrderInput(input: Order) returns (order: Order)
    ensures order == Normalized(input)
  {
    hide Trim;
    order := input.(customerID := Trim(input.customerID),
                    idempotencyKey := Trim(input.idempotencyKey),
                    address := TrimAddress(input.address),
                    payment := input.payment.(details := Trim(input.payment.details)));
    var i := 0;
    while i < |order.items|
      invariant 0 <= i <= |order.items| == |input.items|
      invariant order.(items := []) == Normalized(input).(items := [])
      invariant forall j | 0 <= j < i :: order.items[j] == Normalized(input).items[j]
      invariant forall j | i <= j < |order.items| :: order.items[j] == input.items[j]
    {
      var item := order.items[i];
      order := order.(items := order.items[i := item.(
        productID := Trim(item.productID), sku := Trim(item.sku), productName := Trim(item.productName))]);
      i := i + 1;
    }
  }

  lemma PricedLength(input: seq<OrderItem>)
    ensures WrappedTotal(input[..0]) == 0 && |PricedAll(input)| == |input|
  {
  }

  lemma PriceStep(input: seq<OrderItem>, i: nat)
    requires i < |input|
    ensures WrappedTotal(input[..i + 1]) ==
            Wrap64(WrappedTotal(input[..i]) + Wrap64(input[i].quantity * input[i].unitPrice.cents))
    ensures PricedAll(input)[i] ==
            input[i].(totalPrice := Money(input[i].unitPrice.currency,
                                          Wrap64(input[i].quantity * input[i].unitPrice.cents)))
  {
    hide Wrap64;
    assert input[..i + 1][..i] == input[..i];
  }

  /** The loop of `CreateOrder` over normalized items: line totals in place, and the running total. */
  method PriceItems(input: seq<OrderItem>) returns (r: Result<(seq<OrderItem>, Money), OrderError>)
    requires input != [] && forall i | 0 <= i < |input| :: Trim(input[i].productID) == input[i].productID
    ensures r == if GoodLines(input)
                 then Ok((PricedAll(input), Money(input[0].unitPrice.currency, WrappedTotal(input))))
                 else Err(InvalidOrder)
  {
    hide Trim, Wrap64, LineTotal, WrappedTotal, PricedAll;
    assert WrappedTotal(input[..0]) == 0 && |PricedAll(input)| == |input| by {
      PricedLength(input);
    }
    var items := input;
    var total: int64 := 0;
    var currency := CURRENCY_UNSPECIFIED;
    var i := 0;
    while i < |items|
      invariant 0 <= i <= |items| == |input|
      invariant forall j | 0 <= j < i :: items[j] == PricedAll(input)[j]
      invariant forall j | i <= j < |items| :: items[j] == input[j]
      invariant total == WrappedTotal(input[..i])
      invariant currency == if i == 0 then CURRENCY_UNSPECIFIED else input[0].unitPrice.currency
      invariant forall j | 0 <= j < i :: GoodLine(input[j], input[0].unitPrice.currency)
    {
      var item := items[i].(productID := Trim(items[i].productID));
      assert item == input[i];
      if item.productID == "" || item.quantity <= 0 || item.unitPrice.cents <= 0
         || item.unitPrice.currency == CURRENCY_UNSPECIFIED {
        assert !GoodLine(input[i], input[0].unitPrice.currency);
        return Err(InvalidOrder);
      }
      if currency == CURRENCY_UNSPECIFIED {
        currency := item.unitPrice.currency;
      } else if item.unitPrice.currency != currency {
        assert !GoodLine(input[i], input[0].unitPrice.currency);
        return Err(InvalidOrder);
      }
      var lineTotal := Wrap64(item.quantity * item.unitPrice.cents);
      items := items[i := item.(totalPrice := Money(item.unitPrice.currency, lineTotal))];
      total := Wrap64(total + lineTotal);
      PriceStep(input, i);
      i := i + 1;
    }
    WholePrefix(input);
    assert items == PricedAll(input);
    assert GoodLines(input);
    r := Ok((items, Money(currency, total)));
  }

  /** The call found the order of its key and answers with it, or with the conflict error. */
  ghost predicate AnswersFrom(s: Store, request: Order, r: Result<Order, OrderError>) {
    exists id :: Found(s, request.idempotencyKey, id)
                 && r == if Matches(s.orders[id], request) then Ok(s.orders[id]) else Err(IdempotencyKeyConflict)
  }

  ghost predicate KeyKnown(s: Store, request: Order) {
    request.idempotencyKey != "" && exists id :: Found(s, request.idempotencyKey, id)
  }

  /** What the last part of a call does, from the insert on. */
  ghost predicate Inserts(s: Store, o: Order, at: Time, request: Order, s': Store, r: Result<Order, OrderError>) {
    match CreateTx(s, o, at)
    case Ok(store) => s' == store && r == Ok(Persisted(o))
    case Err(e) =>
      && s' == s
      && if e == IdempotencyKeyAlreadyExists && request.idempotencyKey != ""
         then AnswersFrom(s, request, r) else r == Err(e)
  }

  lemma KnownIsOwned(s: Store, input: Order)
    ensures KeyKnown(s, Normalized(input)) <==> KeyOwned(s, Trim(input.idempotencyKey))
  {
    NormalizedKey(input);
    hide Normalized, Trim;
    if KeyOwned(s, Trim(input.idempotencyKey)) {
      var id :| id in s.orders && s.orders[id].idempotencyKey == Trim(input.idempotencyKey);
      assert Found(s, Normalized(input).idempotencyKey, id);
    }
  }

  lemma AnswersAre(s: Store, input: Order, r: Result<Order, OrderError>)
    requires AnswersFrom(s, Normalized(input), r)
    ensures AnswersRepeat(s, input, r)
  {
    hide Normalized, Trim, Matches, Repeats;
    NormalizedKey(input);
    var id :| Found(s, Normalized(input).idempotencyKey, id)
              && r == if Matches(s.orders[id], Normalized(input))
                      then Ok(s.orders[id]) else Err(IdempotencyKeyConflict);
    RepeatsIff(s.orders[id], input);
  }

  lemma InsertsCommits(input: Order, newID: string, now: Clock, o: Order, s: Store, at: Time, s': Store,
                       r: Result<Order, OrderError>)
    requires WellAddressed(input) && WellPriced(input.items) && OrderOf(input, newID, now, o)
    requires Inserts(s, o, at, Normalized(input), s', r)
    ensures Commits(s, input, o, at, s', r)
  {
    hide Normalized, Trim, WellAddressed, WellPriced, CreateTx, AnswersFrom, AnswersRepeat, Stores, Persisted,
         Acceptable,
         LineOf, ExactTotal;
    StoresOrder(input, newID, now, o, s, at);
    NormalizedKey(input);
    if AnswersFrom(s, Normalized(input), r) {
      AnswersAre(s, input, r);
    }
  }

  /** What a call does to its normalized request, in the words of the request itself. */
  lemma CallCreates(s: Store, met: Store, input: Order, newID: string, now: Clock, at: Time, s': Store,
                    r: Result<Order, OrderError>)
    requires var request := Normalized(input);
             if Rejected(request) then r == Err(InvalidOrder) && s' == met
             else if KeyKnown(s, request) then AnswersFrom(s, request, r) && s' == met
             else
               match Place(request, newID, now)
               case Err(e) => r == Err(e) && s' == met
               case Ok(o) => Inserts(met, o, at, request, s', r)
    ensures Creates(s, met, input, newID, now, at, s', r)
  {
    hide Normalized, Rejected, WellAddressed, WellPriced, KeyKnown, KeyOwned, AnswersFrom, AnswersRepeat, Place,
         Inserts,
         OrderOf, Commits, Trim;
    AcceptedIff(input);
    KnownIsOwned(s, input);
    if WellAddressed(input) {
      if KeyOwned(s, Trim(input.idempotencyKey)) {
        AnswersAre(s, input, r);
      } else {
        PlacedIsOrderOf(input, newID, now);
        var placed := Place(Normalized(input), newID, now);
        if placed.Ok? {
          InsertsCommits(input, newID, now, placed.value, met, at, s', r);
        }
      }
    }
  }

  class OrderService {
    const repository: OrderRepository

    constructor (repository: OrderRepository)
      ensures this.repository == repository
    {
      this.repository := repository;
    }

    /** The lookup of a key: the answer, if there is one already. */
    method Lookup(request: Order) returns (known: Option<Result<Order, OrderError>>)
      requires repository.Valid() && Trim(request.idempotencyKey) == request.idempotencyKey != ""
      ensures known.Some? <==> KeyKnown(repository.View(), request)
      ensures known.Some? ==> AnswersFrom(repository.View(), request, known.value)
    {
      hide Matches, Trim, Represents;
      var existing := repository.GetOrderByIdempotencyKey(request.idempotencyKey);
      if existing.Err? {
        return None;
      }
      assert Found(repository.View(), request.idempotencyKey, existing.value.id);
      known := Some(if Matches(existing.value, request) then existing else Err(IdempotencyKeyConflict));
    }

    /** From the insert on: the order is committed, or the key was taken in the meantime. */
    method Insert(order: Order, request: Order, at: Time) returns (r: Result<Order, OrderError>)
      requires repository.Valid() && Trim(request.idempotencyKey) == request.idempotencyKey == order.idempotencyKey
      modifies repository
      ensures repository.Valid()
      ensures Inserts(old(repository.View()), order, at, request, repository.View(), r)
    {
      hide Matches, Trim, Represents, Incomplete, RowRejected, BadContent, Persisted, CreatedRow, AnswersFrom;
      r := repository.CreateOrder(order, at);
      if r.Err? && request.idempotencyKey != "" && r.error == IdempotencyKeyAlreadyExists {
        assert KeyKnown(repository.View(), request) by {
          var id :| id in repository.View().orders
                    && repository.View().orders[id].idempotencyKey == request.idempotencyKey;
          assert Found(repository.View(), request.idempotencyKey, id);
        }
        var known := Lookup(request);
        r := known.value;
      }
    }

    /**
     `newID` is the id generated for the order. `rival` is an order that another caller commits after this call's
     lookup; the state in between is `met`.
     */
    method CreateOrder(input: Order, newID: string, now: Clock, at: Time, rival: Option<Order>)
      returns (r: Result<Order, OrderError>, ghost met: Store)
      requires repository.Valid()
      modifies repository
      ensures repository.Valid()
      ensures met == if rival.Some? && CreateTx(old(repository.View()), rival.value, at).Ok?
                     then CreateTx(old(repository.View()), rival.value, at).value else old(repository.View())
      ensures var request := Normalized(input);
              if Rejected(request) then r == Err(InvalidOrder) && repository.View() == met
              else if KeyKnown(old(repository.View()), request)
              then AnswersFrom(old(repository.View()), request, r) && repository.View() == met
              else
                match Place(request, newID, now)
                case Err(e) => r == Err(e) && repository.View() == met
                case Ok(o) => Inserts(met, o, at, request, repository.View(), r)
      ensures Creates(old(repository.View()), met, input, newID, now, at, repository.View(), r)
    {
      var request := NormalizeOrderInput(input);
      TrimIsTrimmed(input.idempotencyKey);
      forall i | 0 <= i < |request.items| ensures Trim(request.items[i].productID) == request.items[i].productID {
        TrimIsTrimmed(input.items[i].productID);
      }
      assert Normalized(input).idempotencyKey == Trim(input.idempotencyKey);
      hide Trim, Normalized, Represents, CreateTx, AnswersFrom, KeyKnown, Inserts, GoodLines, WrappedTotal, PricedAll;
      hide Creates;
      ghost var before := repository.View();
      var known: Option<Result<Order, OrderError>> := None;
      if !Rejected(request) && request.idempotencyKey != "" {
        known := Lookup(request);
      }
      assert KeyKnown(repository.View(), request) ==> request.idempotencyKey != "" by {
        NoKeyUnknown(repository.View(), request);
      }
      if rival.Some? {
        var _ := repository.CreateOrder(rival.value, at);
      }
      met := repository.View();
      if Rejected(request) {
        CallCreates(before, met, input, newID, now, at, met, Err(InvalidOrder));
        return Err(InvalidOrder), met;
      }
      if known.Some? {
        CallCreates(before, met, input, newID, now, at, met, known.value);
        return known.value, met;
      }
      var priced := PriceItems(request.items);
      if priced.Err? {
        CallCreates(before, met, input, newID, now, at, met, Err(InvalidOrder));
        return Err(InvalidOrder), met;
      }
      var order := request.(
        id := if Blank(request.id) then newID else request.id,
        items := priced.value.0, total := priced.value.1, status := Pending, cancelReason := "", createdAt := now,
        updatedAt := now);
      r := Insert(order, request, at);
      CallCreates(before, met, input, newID, now, at, repository.View(), r);
    }

    /** The five event transitions share this; `Decide` is their closures. */
    method TransitionOrder(orderID: string, c: Command, now: Clock) returns (r: Result<Order, OrderError>)
      requires repository.Valid() && !c.CancelOrder?
      modifies repository
      ensures repository.Valid()
      ensures repository.View() == Handle(old(repository.View()), orderID, c, now)
      ensures r == Reply(old(repository.View()), orderID, c, now)
    {
      hide Represents, Incomplete, BadContent, UpdateTx, Persisted, ReasonOf, Trim;
      r := repository.GetOrderByID(orderID);
      if r.Err? {
        return;
      }
      match Decide(r.value, c, now)
      case Keep =>
      case Reject(e) => r := Err(e);
      case Write(o) =>
        StoredUnder(repository.orders, repository.items, repository.contents, orderID);
        r := repository.UpdateOrder(o, now);
    }

    method MarkInventoryReserved(orderID: string, now: Clock) returns (r: Result<Order, OrderError>)
      requires repository.Valid()
      modifies repository
      ensures repository.Valid()
      ensures repository.View() == Handle(old(repository.View()), orderID, Command.MarkInventoryReserved, now)
      ensures r == Reply(old(repository.View()), orderID, Command.MarkInventoryReserved, now)
      ensures Consistent(old(repository.View())) ==>
                && ReservedEffect(old(repository.View()), orderID, now, repository.View())
                && AnswersEvent(old(repository.View()), orderID, repository.View(), r)
    {
      hide Represents, Consistent, Handle, Reply, ReservedEffect, CapturedEffect, FailureEffect, AnswersEvent, ReasonOf,
           Trim;
      if Consistent(repository.View()) {
        ReservedIs(repository.View(), orderID, now);
        EventAnswers(repository.View(), orderID, Command.MarkInventoryReserved, now);
      }
      r := TransitionOrder(orderID, Command.MarkInventoryReserved, now);
    }

    method MarkInventoryReservationFailed(orderID: string, reason: string, now: Clock)
      returns (r: Result<Order, OrderError>)
      requires repository.Valid()
      modifies repository
      ensures repository.Valid()
      ensures repository.View() ==
              Handle(old(repository.View()), orderID, Command.MarkInventoryReservationFailed(reason), now)
      ensures r == Reply(old(repository.View()), orderID, Command.MarkInventoryReservationFailed(reason), now)
      ensures Consistent(old(repository.View())) ==>
                && FailureEffect(old(repository.View()), orderID, reason, "inventory reservation failed", now,
                                 repository.View())
                && AnswersEvent(old(repository.View()), orderID, repository.View(), r)
    {
      hide Represents, Consistent, Handle, Reply, ReservedEffect, CapturedEffect, FailureEffect, AnswersEvent, ReasonOf,
           Trim;
      if Consistent(repository.View()) {
        ReasonIs(reason);
        FailureIs(repository.View(), orderID, Command.MarkInventoryReservationFailed(reason), reason,
                  "inventory reservation failed", now);
        EventAnswers(repository.View(), orderID, Command.MarkInventoryReservationFailed(reason), now);
      }
      r := TransitionOrder(orderID, Command.MarkInventoryReservationFailed(reason), now);
    }

    method MarkPaymentCaptured(orderID: string, now: Clock) returns (r: Result<Order, OrderError>)
      requires repository.Valid()
      modifies repository
      ensures repository.Valid()
      ensures repository.View() == Handle(old(repository.View()), orderID, Command.MarkPaymentCaptured, now)
      ensures r == Reply(old(repository.View()), orderID, Command.MarkPaymentCaptured, now)
      ensures Consistent(old(repository.View())) ==>
                && CapturedEffect(old(repository.View()), orderID, now, repository.View())
                && AnswersEvent(old(repository.View()), orderID, repository.View(), r)
    {
      hide Represents, Consistent, Handle, Reply, ReservedEffect, CapturedEffect, FailureEffect, AnswersEvent, ReasonOf,
           Trim;
      if Consistent(repository.View()) {
        CapturedIs(repository.View(), orderID, now);
        EventAnswers(repository.View(), orderID, Command.MarkPaymentCaptured, now);
      }
      r := TransitionOrder(orderID, Command.MarkPaymentCaptured, now);
    }

    method MarkPaymentFailed(orderID: string, reason: string, now: Clock) returns (r: Result<Order, OrderError>)
      requires repository.Valid()
      modifies repository
      ensures repository.Valid()
      ensures repository.View() == Handle(old(repository.View()), orderID, Command.MarkPaymentFailed(reason), now)
      ensures r == Reply(old(repository.View()), orderID, Command.MarkPaymentFailed(reason), now)
      ensures Consistent(old(repository.View())) ==>
                && FailureEffect(old(repository.View()), orderID, reason, "payment failed", now, repository.View())
                && AnswersEvent(old(repository.View()), orderID, repository.View(), r)
    {
      hide Represents, Consistent, Handle, Reply, ReservedEffect, CapturedEffect, FailureEffect, AnswersEvent, ReasonOf,
           Trim;
      if Consistent(repository.View()) {
        ReasonIs(reason);
        FailureIs(repository.View(), orderID, Command.MarkPaymentFailed(reason), reason, "payment failed", now);
        EventAnswers(repository.View(), orderID, Command.MarkPaymentFailed(reason), now);
      }
      r := TransitionOrder(orderID, Command.MarkPaymentFailed(reason), now);
    }

    method MarkPaymentCreationFailed(orderID: string, reason: string, now: Clock) returns (r: Result<Order, OrderError>)
      requires repository.Valid()
      modifies repository
      ensures repository.Valid()
      ensures repository.View() ==
              Handle(old(repository.View()), orderID, Command.MarkPaymentCreationFailed(reason), now)
      ensures r == Reply(old(repository.View()), orderID, Command.MarkPaymentCreationFailed(reason), now)
      ensures Consistent(old(repository.View())) ==>
                && FailureEffect(old(repository.View()), orderID, reason, "payment creation failed", now,
                                 repository.View())
                && AnswersEvent(old(repository.View()), orderID, repository.View(), r)
    {
      hide Represents, Consistent, Handle, Reply, ReservedEffect, CapturedEffect, FailureEffect, AnswersEvent, ReasonOf,
           Trim;
      if Consistent(repository.View()) {
        ReasonIs(reason);
        FailureIs(repository.View(), orderID, Command.MarkPaymentCreationFailed(reason), reason,
                  "payment creation failed", now);
        EventAnswers(repository.View(), orderID, Command.MarkPaymentCreationFailed(reason), now);
      }
      r := TransitionOrder(orderID, Command.MarkPaymentCreationFailed(reason), now);
    }

    method CancelOrder(orderID: string, reason: string, now: Clock) returns (r: Result<Order, OrderError>)
      requires repository.Valid()
      modifies repository
      ensures repository.Valid()
      ensures repository.View() == Handle(old(repository.View()), orderID, Command.CancelOrder(reason), now)
      ensures r == Reply(old(repository.View()), orderID, Command.CancelOrder(reason), now)
      ensures Consistent(old(repository.View())) ==>
                && CancelEffect(old(repository.View()), orderID, reason, now, repository.View())
                && AnswersCancel(old(repository.View()), orderID, reason, repository.View(), r)
    {
      hide Represents, Incomplete, BadContent, UpdateTx, Persisted, Trim, Cancelling, Decide, Blank, ReasonOf;
      hide Consistent, CancelEffect, AnswersCancel;
      if Consistent(repository.View()) {
        CancelIs(repository.View(), orderID, reason, now);
      }
      if Blank(orderID) {
        BlankIDKeeps(repository.orders, repository.items, repository.contents, repository.outbox, orderID,
                     Command.CancelOrder(reason), now);
        return Err(InvalidOrderID);
      }
      if Blank(reason) {
        if orderID in repository.View().orders {
          BlankReasonRejected(repository.View().orders[orderID], reason, now);
        }
        return Err(InvalidOrder);
      }
      r := repository.GetOrderByID(orderID);
      if r.Err? {
        return;
      }
      CancelDecision(r.value, reason, now);
      if r.value.status == Cancelled {
        return;
      }
      if !CanCancel(r.value.status) {
        return Err(OrderCannotBeCancelled);
      }
      StoredUnder(repository.orders, repository.items, repository.contents, orderID);
      r := repository.UpdateOrder(Cancelling(r.value, Trim(reason), now), now);
    }
  }

  lemma BlankReasonRejected(o: Order, reason: string, now: Clock)
    requires Blank(reason)
    ensures Decide(o, Command.CancelOrder(reason), now) == Reject(InvalidOrder)
  {
  }

  lemma CancelDecision(o: Order, reason: string, now: Clock)
    requires !Blank(reason)
    ensures Decide(o, Command.CancelOrder(reason), now) ==
            if o.status == Cancelled then Keep
            else if !CanCancel(o.status) then Reject(OrderCannotBeCancelled)
            else Write(Cancelling(o, Trim(reason), now))
    ensures Cancelling(o, Trim(reason), now).id == o.id
  {
    TrimIsTrimmed(reason);
  }

  lemma NoKeyUnknown(s: Store, request: Order)
    ensures request.idempotencyKey == "" ==> !KeyKnown(s, request)
  {
  }

  lemma StoredUnder(orders: OrderTable, items: OrderRows.ItemTable, contents: map<string, Order>, id: string)
    requires Represents(orders, items, contents) && id in contents
    ensures contents[id].id == id
  {
    hide Holds;
  }

  lemma BlankIDKeeps(orders: OrderTable, items: OrderRows.ItemTable, contents: map<string, Order>,
                     outbox: map<RowID, OutboxRow>, id: string, c: Command, now: Clock)
    requires Represents(orders, items, contents) && Blank(id)
    ensures Handle(Store(contents, outbox), id, c, now) == Store(contents, outbox)
  {
    hide Holds, Trim, ReasonOf;
  }
}
