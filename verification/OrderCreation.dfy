/**
 Order creation in the words of its input: which requests are accepted, which order is made of them, what is stored and
 announced, and how a repeated request is answered.
 */
module OrderCreation {
  import opened Wrappers
  import opened Integers
  import opened Text
  import opened Enums
  import opened Domain
  import opened OrderStore
  import opened OrderPlacement

  // ----- the request -----

  /** The request names a customer, at least one line, a whole address (but for the apartment) and a payment method. */
  predicate WellAddressed(input: Order) {
    && Trim(input.customerID) != "" && input.items != []
    && Trim(input.address.country) != "" && Trim(input.address.city) != "" && Trim(input.address.street) != ""
    && Trim(input.address.postalCode) != "" && Trim(input.address.house) != ""
    && input.payment.payMethod != METHOD_UNSPECIFIED
  }

  /** Every line names a product, asks for something at a price, and all are in one currency. */
  predicate WellPriced(items: seq<OrderItem>) {
    forall i | 0 <= i < |items| ::
      && Trim(items[i].productID) != "" && items[i].quantity > 0 && items[i].unitPrice.cents > 0
      && items[i].unitPrice.currency != CURRENCY_UNSPECIFIED
      && items[i].unitPrice.currency == items[0].unitPrice.currency
  }

  /** Equal as int64, where arithmetic wraps. */
  predicate Congruent(a: int, b: int) {
    (a - b) % TWO_TO_THE_64 == 0
  }

  predicate LineOf(input: OrderItem, item: OrderItem) {
    && item.productID == Trim(input.productID) && item.sku == Trim(input.sku)
    && item.productName == Trim(input.productName)
    && item.quantity == input.quantity && item.unitPrice == input.unitPrice
    && item.totalPrice.currency == input.unitPrice.currency
    && Congruent(item.totalPrice.cents, input.quantity * input.unitPrice.cents)
  }

  /** The order made of a request, field by field. */
  ghost predicate OrderOf(input: Order, newID: string, now: Clock, o: Order) {
    && o.id == (if Trim(input.id) == "" then newID else input.id)
    && o.customerID == Trim(input.customerID)
    && o.idempotencyKey == Trim(input.idempotencyKey)
    && o.address.country == Trim(input.address.country) && o.address.city == Trim(input.address.city)
    && o.address.street == Trim(input.address.street) && o.address.postalCode == Trim(input.address.postalCode)
    && o.address.house == Trim(input.address.house) && o.address.apartment == Trim(input.address.apartment)
    && o.payment.payMethod == input.payment.payMethod && o.payment.details == Trim(input.payment.details)
    && |o.items| == |input.items| > 0
    && (forall i | 0 <= i < |o.items| :: LineOf(input.items[i], o.items[i]))
    && o.total.currency == input.items[0].unitPrice.currency
    && Congruent(o.total.cents, ExactTotal(input.items))
    && o.status == Pending && o.cancelReason == "" && o.createdAt == now && o.updatedAt == now
  }

  /** A stored order has the content of a request. */
  predicate Repeats(existing: Order, input: Order) {
    && existing.customerID == Trim(input.customerID)
    && existing.address.country == Trim(input.address.country) && existing.address.city == Trim(input.address.city)
    && existing.address.street == Trim(input.address.street)
    && existing.address.postalCode == Trim(input.address.postalCode)
    && existing.address.house == Trim(input.address.house)
    && existing.address.apartment == Trim(input.address.apartment)
    && existing.payment.payMethod == input.payment.payMethod
    && existing.payment.details == Trim(input.payment.details)
    && |existing.items| == |input.items|
    && forall i | 0 <= i < |input.items| ::
         && existing.items[i].productID == Trim(input.items[i].productID)
         && existing.items[i].sku == Trim(input.items[i].sku)
         && existing.items[i].productName == Trim(input.items[i].productName)
         && existing.items[i].quantity == input.items[i].quantity
         && existing.items[i].unitPrice == input.items[i].unitPrice
  }

  // ----- the outcome -----

  ghost predicate KeyOwned(s: Store, key: string) {
    key != "" && exists id | id in s.orders :: s.orders[id].idempotencyKey == key
  }

  /** The call answers with the order of its key when that has the request's content, and with a conflict otherwise. */
  ghost predicate AnswersRepeat(s: Store, input: Order, r: Result<Order, OrderError>) {
    exists id | id in s.orders ::
      && s.orders[id].idempotencyKey == Trim(input.idempotencyKey)
      && r == if Repeats(s.orders[id], input) then Ok(s.orders[id]) else Err(IdempotencyKeyConflict)
  }

  predicate LineTells(line: OrderCreatedItem, item: OrderItem) {
    && line.productID == item.productID && line.sku == item.sku && line.productName == item.productName
    && line.quantity == item.quantity
    && line.unitPrice.cents == item.unitPrice.cents
    && line.unitPrice.currency == CurrencyName(item.unitPrice.currency)
    && line.totalPrice.cents == item.totalPrice.cents
    && line.totalPrice.currency == CurrencyName(item.totalPrice.currency)
  }

  /** The order.created message tells of the order. */
  predicate Tells(e: Event, o: Order) {
    && e.OrderCreated? && e.orderID == o.id && e.customerID == o.customerID && e.status == "ORDER_STATUS_PENDING"
    && e.amount.cents == o.total.cents && e.amount.currency == CurrencyName(o.total.currency)
    && e.address == o.address
    && e.payment.payMethod == MethodName(o.payment.payMethod) && e.payment.details == o.payment.details
    && |e.lines| == |o.items| && forall i | 0 <= i < |o.items| :: LineTells(e.lines[i], o.items[i])
  }

  /** The order is stored, with its times in microseconds, and its event waits in the outbox; nothing else changes. */
  ghost predicate Stores(s: Store, o: Order, at: Time, s': Store, stored: Order) {
    && stored == o.(createdAt := o.createdAt - o.createdAt % 1000, updatedAt := o.updatedAt - o.updatedAt % 1000)
    && s'.orders == s.orders[o.id := stored]
    && CreatedID(o.id) in s'.outbox && s'.outbox == s.outbox[CreatedID(o.id) := s'.outbox[CreatedID(o.id)]]
    && var row := s'.outbox[CreatedID(o.id)];
       && row.topic == "orders.created" && row.key == o.id && Tells(row.payload, o)
       && row.attempts == 0 && row.lockedAt == None && row.publishedAt == None && row.createdAt == at - at % 1000
  }

  /** The tables can hold the order: its enumeration numbers have names, and its totals have not wrapped below one. */
  predicate Acceptable(o: Order) {
    && (o.total.currency == CURRENCY_USD || o.total.currency == CURRENCY_EUR)
    && (o.payment.payMethod == METHOD_CARD || o.payment.payMethod == METHOD_CASH)
    && |o.items| <= 0x8000_0000
    && forall i | 0 <= i < |o.items| :: o.items[i].totalPrice.cents > 0
  }

  /** What becomes of an order on its way into the tables. */
  ghost predicate Commits(s: Store, input: Order, o: Order, at: Time, s': Store, r: Result<Order, OrderError>) {
    if Trim(o.id) == "" then r == Err(InvalidOrder) && s' == s
    else if o.total.cents <= 0 then r == Err(DatabaseError) && s' == s
    else if o.id in s.orders then r == Err(OrderAlreadyExists) && s' == s
    else if KeyOwned(s, o.idempotencyKey) then AnswersRepeat(s, input, r) && s' == s
    else if !Acceptable(o) || CreatedID(o.id) in s.outbox then r == Err(DatabaseError) && s' == s
    else r.Ok? && Stores(s, o, at, s', r.value)
  }

  /**
   A whole call: what it answers and leaves, given the store at its lookup, the store `met` that it finds afterwards,
   and the order made of the request.
   */
  ghost predicate Creates(s: Store, met: Store, input: Order, newID: string, now: Clock, at: Time, s': Store,
                          r: Result<Order, OrderError>) {
    if !WellAddressed(input) then r == Err(InvalidOrder) && s' == met
    else if KeyOwned(s, Trim(input.idempotencyKey)) then AnswersRepeat(s, input, r) && s' == met
    else if !WellPriced(input.items) then r == Err(InvalidOrder) && s' == met
    else exists o :: OrderOf(input, newID, now, o) && Commits(met, input, o, at, s', r)
  }

  // ----- totals -----

  lemma EmptyCongruent()
    ensures Congruent(0, 0)
  {
  }

  lemma SumsCongruent(a: int, b: int, c: int64, d: int)
    requires Congruent(a, b) && c == Wrap64(d)
    ensures Congruent(c, d) && Congruent(Wrap64(a + c), b + d)
  {
    var w := Wrap64(a + c);
    assert (w - (a + c)) % TWO_TO_THE_64 == 0;
    hide Wrap64;
    assert w - (b + d) == (w - (a + c)) + (a - b) + (c - d);
  }

  lemma {:induction false} WrappedIsCongruent(items: seq<OrderItem>)
    ensures Congruent(WrappedTotal(items), ExactTotal(items))
    decreases |items|
  {
    hide Wrap64, Congruent;
    if items != [] {
      var (before, last) := (items[..|items| - 1], items[|items| - 1]);
      WrappedIsCongruent(before);
      var product := last.quantity * last.unitPrice.cents;
      SumsCongruent(WrappedTotal(before), ExactTotal(before), LineTotal(last), product);
    } else {
      EmptyCongruent();
    }
  }

  lemma {:induction false} ExactKeepsPrices(a: seq<OrderItem>, b: seq<OrderItem>)
    requires |a| == |b|
    requires forall i | 0 <= i < |a| :: a[i].quantity == b[i].quantity && a[i].unitPrice == b[i].unitPrice
    ensures ExactTotal(a) == ExactTotal(b)
    decreases |a|
  {
    if a != [] {
      ExactKeepsPrices(a[..|a| - 1], b[..|b| - 1]);
    }
  }

  /** When the true sum of the lines fits an int64, the order is charged exactly that sum, and each line exactly its own
      product, in the currency of the lines. */
  lemma TotalIsExact(input: Order, newID: string, now: Clock, o: Order)
    requires WellPriced(input.items) && OrderOf(input, newID, now, o) && ExactTotal(input.items) <= MAX_INT64
    ensures o.total.cents == ExactTotal(input.items) > 0
    ensures forall i | 0 <= i < |o.items| ::
              && o.items[i].totalPrice.cents == input.items[i].quantity * input.items[i].unitPrice.cents > 0
              && o.items[i].totalPrice.currency == o.total.currency
  {
    hide Trim;
    ExactIsPositive(input.items);
    forall i | 0 <= i < |o.items|
      ensures o.items[i].totalPrice.cents == input.items[i].quantity * input.items[i].unitPrice.cents > 0
      ensures o.items[i].totalPrice.currency == o.total.currency
    {
      LineWithinTotal(input.items, i);
      assert LineOf(input.items[i], o.items[i]);
    }
  }

  lemma ExactIsPositive(items: seq<OrderItem>)
    requires WellPriced(items) && items != []
    ensures ExactTotal(items) > 0
  {
    LineWithinTotal(items, 0);
  }

  lemma {:induction false} LineWithinTotal(items: seq<OrderItem>, i: nat)
    requires WellPriced(items) && i < |items|
    ensures 0 < items[i].quantity * items[i].unitPrice.cents <= ExactTotal(items)
    decreases |items|
  {
    hide Trim;
    var n := |items| - 1;
    assert WellPriced(items[..n]);
    assert items[n].quantity * items[n].unitPrice.cents >= 1 * 1;
    if i < n {
      LineWithinTotal(items[..n], i);
    } else if n > 0 {
      LineWithinTotal(items[..n], 0);
    }
  }

  // ----- the service's own steps, in these words -----

  lemma AcceptedIff(input: Order)
    ensures Rejected(Normalized(input)) <==> !WellAddressed(input)
    ensures GoodLines(Normalized(input).items) <==> WellPriced(input.items)
  {
    hide Trim;
    var items := Normalized(input).items;
    assert |items| == |input.items|;
    if WellPriced(input.items) {
      forall i | 0 <= i < |items| ensures GoodLine(items[i], items[0].unitPrice.currency) {
      }
    }
    if GoodLines(items) {
      forall i | 0 <= i < |items|
        ensures Trim(input.items[i].productID) != "" && input.items[i].quantity > 0
        ensures input.items[i].unitPrice.cents > 0 && input.items[i].unitPrice.currency != CURRENCY_UNSPECIFIED
        ensures input.items[i].unitPrice.currency == input.items[0].unitPrice.currency
      {
        assert GoodLine(items[i], items[0].unitPrice.currency);
      }
    }
  }

  lemma NormalizedKey(input: Order)
    ensures Normalized(input).idempotencyKey == Trim(input.idempotencyKey)
  {
    hide Trim;
  }

  lemma RepeatsIff(existing: Order, input: Order)
    ensures Matches(existing, Normalized(input)) <==> Repeats(existing, input)
  {
    hide Trim;
    var request := Normalized(input);
    assert existing.address == request.address <==>
      && existing.address.country == Trim(input.address.country) && existing.address.city == Trim(input.address.city)
      && existing.address.street == Trim(input.address.street)
      && existing.address.postalCode == Trim(input.address.postalCode)
      && existing.address.house == Trim(input.address.house)
      && existing.address.apartment == Trim(input.address.apartment);
  }

  /** A call places exactly the well-formed requests, and then the order that the request describes. */
  lemma PlacedIsOrderOf(input: Order, newID: string, now: Clock)
    requires WellAddressed(input)
    ensures Place(Normalized(input), newID, now) == Err(InvalidOrder) || Place(Normalized(input), newID, now).Ok?
    ensures Place(Normalized(input), newID, now).Ok? <==> WellPriced(input.items)
    ensures Place(Normalized(input), newID, now).Ok? ==>
              OrderOf(input, newID, now, Place(Normalized(input), newID, now).value)
  {
    AcceptedIff(input);
    hide Trim, Wrap64, Rejected, GoodLines, WellPriced, LineOf, ExactTotal, WrappedTotal, Congruent, Blank;
    var request := Normalized(input);
    NormalizedFields(input);
    WrappedIsCongruent(request.items);
    ExactKeepsPrices(request.items, input.items);
    forall i | 0 <= i < |input.items| ensures LineOf(input.items[i], PricedAll(request.items)[i]) {
      LineIsPriced(input.items[i], request.items[i]);
    }
    BlankIsEmpty(input.id);
  }

  lemma NormalizedFields(input: Order)
    ensures var request := Normalized(input);
            && |request.items| == |input.items|
            && forall i | 0 <= i < |input.items| ::
                 && request.items[i] == TrimItem(input.items[i])
                 && request.items[i].quantity == input.items[i].quantity
                 && request.items[i].unitPrice == input.items[i].unitPrice
  {
    hide Trim;
  }

  lemma LineIsPriced(input: OrderItem, item: OrderItem)
    requires item == TrimItem(input)
    ensures LineOf(input, Priced(item))
  {
    hide Trim, Wrap64;
  }

  lemma IncompleteIff(input: Order, newID: string, now: Clock, o: Order)
    requires WellAddressed(input) && OrderOf(input, newID, now, o)
    ensures Incomplete(o.id, o.customerID, o.address, o.payment) <==> Trim(o.id) == ""
  {
    hide Trim, LineOf, ExactTotal;
    TrimIsTrimmed(input.customerID);
    TrimIsTrimmed(input.address.country);
    TrimIsTrimmed(input.address.city);
    TrimIsTrimmed(input.address.street);
    TrimIsTrimmed(input.address.postalCode);
    TrimIsTrimmed(input.address.house);
  }

  lemma StoredForm(input: Order, newID: string, now: Clock, o: Order)
    requires OrderOf(input, newID, now, o)
    ensures Persisted(o) ==
            o.(createdAt := o.createdAt - o.createdAt % 1000, updatedAt := o.updatedAt - o.updatedAt % 1000)
    ensures Trim(o.idempotencyKey) == o.idempotencyKey
  {
    hide Trim, LineOf, ExactTotal;
    TrimIsTrimmed(input.idempotencyKey);
    EmptyIsBlank();
  }

  lemma CreatedTells(o: Order)
    requires o.status == Pending
    ensures Tells(CreatedEvent(o), o)
  {
    hide CurrencyName, MethodName;
  }

  lemma UnstorableIff(input: Order, newID: string, now: Clock, o: Order)
    requires WellAddressed(input) && WellPriced(input.items) && OrderOf(input, newID, now, o)
    ensures RowRejected(o) <==> o.total.cents <= 0
    ensures Unstorable(o) <==> o.total.cents <= 0 || !Acceptable(o)
  {
    hide Trim, ExactTotal, Congruent;
    forall i | 0 <= i < |o.items|
      ensures BadItem(o.items[i]) <==> o.items[i].totalPrice.cents <= 0 || !KnownCurrency(o.total.currency)
    {
      assert LineOf(input.items[i], o.items[i]);
    }
    assert KnownCurrency(o.total.currency) <==>
           o.total.currency == CURRENCY_USD || o.total.currency == CURRENCY_EUR by {
      assert input.items[0].unitPrice.currency != CURRENCY_UNSPECIFIED;
    }
  }

  lemma StoresCreated(s: Store, o: Order, at: Time, stored: Order)
    requires o.status == Pending
    requires stored == o.(createdAt := o.createdAt - o.createdAt % 1000, updatedAt := o.updatedAt - o.updatedAt % 1000)
    ensures Stores(s, o, at, Store(s.orders[o.id := stored], s.outbox[CreatedID(o.id) := CreatedRow(o, at)]), stored)
  {
    CreatedTells(o);
    hide Tells, CreatedEvent;
  }

  /** The insert's outcome in these words. */
  lemma StoresOrder(input: Order, newID: string, now: Clock, o: Order, s: Store, at: Time)
    requires WellAddressed(input) && WellPriced(input.items) && OrderOf(input, newID, now, o)
    ensures match CreateTx(s, o, at)
            case Ok(s') => Stores(s, o, at, s', Persisted(o))
              && Trim(o.id) != "" && o.total.cents > 0 && o.id !in s.orders && !KeyOwned(s, o.idempotencyKey)
              && Acceptable(o) && CreatedID(o.id) !in s.outbox
            case Err(e) =>
              if Trim(o.id) == "" then e == InvalidOrder
              else if o.total.cents <= 0 then e == DatabaseError
              else if o.id in s.orders then e == OrderAlreadyExists
              else if KeyOwned(s, o.idempotencyKey) then e == IdempotencyKeyAlreadyExists
              else e == DatabaseError && (!Acceptable(o) || CreatedID(o.id) in s.outbox)
  {
    hide Trim, OrderOf, WellPriced, WellAddressed, Incomplete, Unstorable, RowRejected, Acceptable, Persisted, Stores,
         CreatedRow;
    IncompleteIff(input, newID, now, o);
    StoredForm(input, newID, now, o);
    UnstorableIff(input, newID, now, o);
    PendingOf(input, newID, now, o);
    StoresCreated(s, o, at, Persisted(o));
  }

  lemma PendingOf(input: Order, newID: string, now: Clock, o: Order)
    requires OrderOf(input, newID, now, o)
    ensures o.status == Pending
  {
    hide Trim, LineOf, ExactTotal;
  }
}
