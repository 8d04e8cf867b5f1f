/** What `CreateOrder` does to its input before it reaches the repository. */
module OrderPlacement {
  import opened Wrappers
  import opened Integers
  import opened Text
  import opened Enums
  import opened Domain
  import opened OrderStore
  import opened Sequences

  function TrimItem(i: OrderItem): OrderItem {
    i.(productID := Trim(i.productID), sku := Trim(i.sku), productName := Trim(i.productName))
  }

  function TrimAddress(a: Address): Address {
    Address(Trim(a.country), Trim(a.city), Trim(a.street), Trim(a.postalCode), Trim(a.house), Trim(a.apartment))
  }

  function Normalized(o: Order): Order {
    o.(customerID := Trim(o.customerID),
       idempotencyKey := Trim(o.idempotencyKey),
       address := TrimAddress(o.address),
       payment := o.payment.(details := Trim(o.payment.details)),
       items := seq(|o.items|, i requires 0 <= i < |o.items| => TrimItem(o.items[i])))
  }

  /** `validateCreateOrder`, on a normalized order. */
  predicate Rejected(o: Order) {
    || o.customerID == "" || o.items == []
    || o.address.country == "" || o.address.city == "" || o.address.street == ""
    || o.address.postalCode == "" || o.address.house == ""
    || o.payment.payMethod == METHOD_UNSPECIFIED
  }

  // ----- totals -----

  /** Every line is well formed and in the currency of the first. */
  predicate GoodLine(i: OrderItem, currency: int32) {
    && i.productID != "" && i.quantity > 0 && i.unitPrice.cents > 0
    && i.unitPrice.currency != CURRENCY_UNSPECIFIED && i.unitPrice.currency == currency
  }

  predicate GoodLines(items: seq<OrderItem>) {
    forall i | 0 <= i < |items| :: GoodLine(items[i], items[0].unitPrice.currency)
  }

  /** int64 multiplication of quantity and unit price. */
  function LineTotal(i: OrderItem): int64 {
    Wrap64(i.quantity * i.unitPrice.cents)
  }

  /** The running int64 sum of the total loop. */
  function WrappedTotal(items: seq<OrderItem>): int64 {
    if items == [] then 0 else Wrap64(WrappedTotal(items[..|items| - 1]) + LineTotal(items[|items| - 1]))
  }

  /** The sum in unbounded arithmetic. */
  function ExactTotal(items: seq<OrderItem>): int {
    if items == [] then 0
    else ExactTotal(items[..|items| - 1]) + items[|items| - 1].quantity * items[|items| - 1].unitPrice.cents
  }

  function Priced(i: OrderItem): OrderItem {
    i.(totalPrice := Money(i.unitPrice.currency, LineTotal(i)))
  }

  function PricedAll(items: seq<OrderItem>): seq<OrderItem> {
    seq(|items|, i requires 0 <= i < |items| => Priced(items[i]))
  }

  lemma GoodPrefix(items: seq<OrderItem>)
    requires items != [] && GoodLines(items)
    ensures GoodLines(items[..|items| - 1])
    ensures items[|items| - 1].quantity * items[|items| - 1].unitPrice.cents >= 1
  {
    var last := items[|items| - 1];
    assert GoodLine(last, items[0].unitPrice.currency);
    assert last.quantity * last.unitPrice.cents >= 1 * 1;
  }

  lemma {:induction false} TotalGrows(items: seq<OrderItem>, n: nat)
    requires GoodLines(items) && n <= |items|
    ensures n <= ExactTotal(items[..n]) <= ExactTotal(items) - (|items| - n)
    decreases |items|
  {
    if n < |items| {
      GoodPrefix(items);
      assert items[..|items| - 1][..n] == items[..n];
      TotalGrows(items[..|items| - 1], n);
    } else {
      assert items[..n] == items;
      if items != [] {
        GoodPrefix(items);
        TotalGrows(items[..n - 1], n - 1);
        assert items[..n - 1][..n - 1] == items[..n - 1];
      }
    }
  }

  /** No step of the loop wraps when the whole sum fits. */
  lemma {:induction false} NoStepWraps(items: seq<OrderItem>)
    requires GoodLines(items) && IsInt64(ExactTotal(items))
    ensures WrappedTotal(items) == ExactTotal(items)
    ensures forall i | 0 <= i < |items| :: LineTotal(items[i]) == items[i].quantity * items[i].unitPrice.cents > 0
    decreases |items|
  {
    if items != [] {
      var n := |items| - 1;
      GoodPrefix(items);
      WholePrefix(items[..n]);
      TotalGrows(items[..n], n);
      NoStepWraps(items[..n]);
      forall i | 0 <= i < |items| ensures LineTotal(items[i]) == items[i].quantity * items[i].unitPrice.cents > 0 {
        if i < n {
          assert items[..n][i] == items[i];
        }
      }
    }
  }

  /** The money of an order is exact precisely when its true sum fits in an int64; it is then positive, line by line. */
  lemma MoneyExactIffItFits(items: seq<OrderItem>)
    requires GoodLines(items) && items != []
    ensures WrappedTotal(items) == ExactTotal(items) <==> ExactTotal(items) <= MAX_INT64
    ensures ExactTotal(items) <= MAX_INT64 ==>
              WrappedTotal(items) > 0
              && forall i | 0 <= i < |items| ::
                   && PricedAll(items)[i].totalPrice.currency == items[0].unitPrice.currency
                   && PricedAll(items)[i].totalPrice.cents == items[i].quantity * items[i].unitPrice.cents > 0
  {
    TotalGrows(items, |items|);
    WholePrefix(items);
    if ExactTotal(items) <= MAX_INT64 {
      NoStepWraps(items);
      forall i | 0 <= i < |items|
        ensures PricedAll(items)[i].totalPrice.currency == items[0].unitPrice.currency
        ensures PricedAll(items)[i].totalPrice.cents == items[i].quantity * items[i].unitPrice.cents > 0
      {
        assert GoodLine(items[i], items[0].unitPrice.currency);
      }
    }
  }

  /** When the sum does not fit the loop can still end on a positive total: four units at 2^62 + 1 cents come to 4
      cents. */
  lemma WrappedTotalCanBePositive()
    ensures var item := OrderItem("p", "s", "n", 4, Money(CURRENCY_USD, 0x4000_0000_0000_0001), Money(CURRENCY_USD, 0));
            GoodLines([item]) && WrappedTotal([item]) == 4 && ExactTotal([item]) == TWO_TO_THE_64 + 4
  {
    var item := OrderItem("p", "s", "n", 4, Money(CURRENCY_USD, 0x4000_0000_0000_0001), Money(CURRENCY_USD, 0));
    assert [item][..0] == [];
    assert WrappedTotal([]) == 0 && ExactTotal([]) == 0;
    assert LineTotal(item) == 4;
  }

  // ----- the order handed to the repository -----

  /** `input` is normalized; `id` is a fresh id for an order without one. */
  function Place(input: Order, id: string, now: Clock): Result<Order, OrderError> {
    if Rejected(input) || !GoodLines(input.items) then Err(InvalidOrder)
    else
      Ok(input.(id := if Blank(input.id) then id else input.id,
                items := PricedAll(input.items),
                total := Money(input.items[0].unitPrice.currency, WrappedTotal(input.items)),
                status := Pending,
                cancelReason := "",
                createdAt := now,
                updatedAt := now))
  }

  /** What holds of every order `CreateOrder` commits. */
  ghost predicate Placed(o: Order) {
    && Trim(o.id) == o.id && !Blank(o.id) && !Blank(o.customerID)
    && o.items != []
    && (forall i | 0 <= i < |o.items| :: o.items[i].quantity > 0 && !Blank(o.items[i].productID))
    && (o.total.currency == CURRENCY_USD || o.total.currency == CURRENCY_EUR)
    && (o.payment.payMethod == METHOD_CARD || o.payment.payMethod == METHOD_CASH)
    && o.total.cents > 0
    && o.status == Pending && o.cancelReason == ""
    && o.createdAt == o.updatedAt >= 1000
  }

  lemma PlacedItems(input: Order)
    requires GoodLines(Normalized(input).items)
    ensures forall i | 0 <= i < |input.items| ::
              PricedAll(Normalized(input).items)[i].quantity > 0
              && !Blank(PricedAll(Normalized(input).items)[i].productID)
  {
    hide Trim, WrappedTotal, LineTotal, TrimAddress;
    var items := Normalized(input).items;
    forall i | 0 <= i < |input.items|
      ensures PricedAll(items)[i].quantity > 0 && !Blank(PricedAll(items)[i].productID)
    {
      assert GoodLine(items[i], items[0].unitPrice.currency);
      TrimIsTrimmed(input.items[i].productID);
    }
  }

  /** Every order a call commits is placed, except exactly one that came with an id of its own in white space: the
      service keeps such an id as it is. */
  lemma CommittedOrdersArePlaced(input: Order, id: string, now: Clock, s: Store, at: Time)
    requires Trim(id) == id
    requires Place(Normalized(input), id, now).Ok?
    requires CreateTx(s, Place(Normalized(input), id, now).value, at).Ok?
    ensures Placed(Place(Normalized(input), id, now).value) <==> Blank(input.id) || Trim(input.id) == input.id
  {
    hide Trim, Blank, Stored, Persisted, KeyTaken, CreatedRow, WrappedTotal, LineTotal, TrimAddress, TrimItem,
         StatusName;
    var items := Normalized(input).items;
    PlacedItems(input);
    assert GoodLine(items[0], items[0].unitPrice.currency);
  }

  // ----- repeated requests -----

  /** `ordersMatchForIdempotency`. */
  predicate Matches(existing: Order, incoming: Order) {
    && existing.customerID == incoming.customerID
    && existing.address == incoming.address
    && existing.payment == incoming.payment
    && |existing.items| == |incoming.items|
    && forall i | 0 <= i < |incoming.items| :: SameLine(existing.items[i], incoming.items[i])
  }

  predicate SameLine(a: OrderItem, b: OrderItem) {
    a.(totalPrice := b.totalPrice) == b
  }

  ghost predicate Found(s: Store, key: string, id: string) {
    id in s.orders && s.orders[id].idempotencyKey == key
  }

  /** What a call answers once it has found the order of its key. */
  function Answer(existing: Order, request: Order): Result<string, OrderError> {
    if Matches(existing, request) then Ok(existing.id) else Err(IdempotencyKeyConflict)
  }
}
