/** An order as rows: what the repository writes, what the columns keep, and how rows read back. */
module OrderRows {
  import opened Wrappers
  import opened Integers
  import opened Text
  import opened Enums
  import opened Domain
  import opened OrderStore
  import opened Sorting

  /** A row of `orders`, or the parameters of its INSERT or UPDATE. */
  datatype OrderRow = OrderRow(
    id: string,
    customerID: string,
    idempotencyKey: Option<string>,
    currency: string,
    cents: int64,
    status: string,
    address: Address,
    payMethod: string,
    details: string,
    cancelReason: string,
    createdAt: Option<Time>,
    updatedAt: Option<Time>)

  /** Primary key of an item row. */
  datatype ItemKey = ItemKey(order: string, position: int)

  datatype ItemRow = ItemRow(
    orderID: string,
    position: int32,
    productID: string,
    sku: string,
    productName: string,
    quantity: int32,
    unitCurrency: string,
    unitCents: int64,
    totalCurrency: string,
    totalCents: int64)

  // ----- writing -----

  function NullTime(t: Time): Option<Time> {
    if t == 0 then None else Some(t)
  }

  function NullText(s: string): Option<string> {
    if s == "" then None else Some(s)
  }

  /** `toOrderDBParams`. */
  function OrderParams(o: Order): OrderRow {
    OrderRow(o.id, o.customerID, NullText(Trim(o.idempotencyKey)), CurrencyName(o.total.currency), o.total.cents,
             StatusName(o.status), o.address, MethodName(o.payment.payMethod), o.payment.details, Trim(o.cancelReason),
             NullTime(o.createdAt), NullTime(o.updatedAt))
  }

  /** The columns keep timestamps in microseconds. */
  function Kept(p: OrderRow): OrderRow
    requires p.createdAt.Some? && p.updatedAt.Some?
  {
    p.(createdAt := Some(Stored(p.createdAt.value)), updatedAt := Some(Stored(p.updatedAt.value)))
  }

  /** The row of an order in the table. */
  function RowOf(o: Order): OrderRow {
    OrderParams(o).(createdAt := Some(Stored(o.createdAt)), updatedAt := Some(Stored(o.updatedAt)))
  }

  function ItemParams(orderID: string, i: int, item: OrderItem): ItemRow {
    ItemRow(orderID, Wrap32(i), item.productID, item.sku, item.productName, item.quantity,
            CurrencyName(item.unitPrice.currency), item.unitPrice.cents,
            CurrencyName(item.totalPrice.currency), item.totalPrice.cents)
  }

  function ItemRows(orderID: string, items: seq<OrderItem>): (rows: seq<ItemRow>)
    ensures |rows| == |items|
  {
    seq(|items|, i requires 0 <= i < |items| => ItemParams(orderID, i, items[i]))
  }

  // ----- reading -----

  function MapDBItem(row: ItemRow): Result<OrderItem, OrderError> {
    match (CurrencyValue(row.unitCurrency), CurrencyValue(row.totalCurrency))
    case (Some(unit), Some(total)) =>
      Ok(OrderItem(row.productID, row.sku, row.productName, row.quantity, Money(unit, row.unitCents),
                   Money(total, row.totalCents)))
    case _ => Err(DatabaseError)
  }

  function MapDBItems(rows: seq<ItemRow>): Result<seq<OrderItem>, OrderError> {
    if rows == [] then Ok([])
    else
      match (MapDBItems(rows[..|rows| - 1]), MapDBItem(rows[|rows| - 1]))
      case (Ok(items), Ok(item)) => Ok(items + [item])
      case _ => Err(DatabaseError)
  }

  function MapDBOrder(row: OrderRow, itemRows: seq<ItemRow>): Result<Order, OrderError> {
    match (CurrencyValue(row.currency), StatusValue(row.status), MethodValue(row.payMethod), MapDBItems(itemRows))
    case (Some(currency), Some(status), Some(payMethod), Ok(items)) =>
      Ok(Order(row.id, row.customerID, if row.idempotencyKey.Some? then row.idempotencyKey.value else "", items,
               Money(currency, row.cents), status, row.address, PaymentDetails(payMethod, row.details),
               row.cancelReason, if row.createdAt.Some? then row.createdAt.value else 0,
               if row.updatedAt.Some? then row.updatedAt.value else 0))
    case _ => Err(DatabaseError)
  }

  // ----- round trips -----

  predicate NamedItem(i: OrderItem) {
    KnownCurrency(i.unitPrice.currency) && KnownCurrency(i.totalPrice.currency)
  }

  predicate NamedItems(items: seq<OrderItem>) {
    forall i | 0 <= i < |items| :: NamedItem(items[i])
  }

  /** Every enumeration number in the order is one the protocol declares. */
  predicate Named(o: Order) {
    KnownCurrency(o.total.currency) && KnownMethod(o.payment.payMethod) && NamedItems(o.items)
  }

  lemma ItemRoundTrip(orderID: string, i: int, item: OrderItem)
    ensures MapDBItem(ItemParams(orderID, i, item)) == if NamedItem(item) then Ok(item) else Err(DatabaseError)
  {
    hide CurrencyName, CurrencyValue, KnownCurrency;
    CurrencyRoundTrip(item.unitPrice.currency);
    CurrencyRoundTrip(item.totalPrice.currency);
  }

  lemma {:induction false} ItemsRoundTrip(orderID: string, items: seq<OrderItem>)
    ensures MapDBItems(ItemRows(orderID, items)) == if NamedItems(items) then Ok(items) else Err(DatabaseError)
    decreases |items|
  {
    hide MapDBItem, ItemParams, NamedItem;
    if items != [] {
      var n := |items| - 1;
      assert ItemRows(orderID, items)[..n] == ItemRows(orderID, items[..n]);
      ItemsRoundTrip(orderID, items[..n]);
      ItemRoundTrip(orderID, n, items[n]);
      assert items[..n] + [items[n]] == items;
      assert NamedItems(items) ==> NamedItems(items[..n]);
    }
  }

  /** An order's rows read back exactly when its enumeration numbers have names, and then as the order with its key and
      reason trimmed and its times cut to microseconds. */
  lemma OrderRoundTrip(o: Order)
    ensures MapDBOrder(RowOf(o), ItemRows(o.id, o.items)) == if Named(o) then Ok(Persisted(o)) else Err(DatabaseError)
  {
    hide CurrencyName, CurrencyValue, MethodName, MethodValue, StatusName, StatusValue, KnownCurrency, KnownMethod;
    hide Trim, Stored, NamedItems, MapDBItems, ItemRows;
    CurrencyRoundTrip(o.total.currency);
    MethodRoundTrip(o.payment.payMethod);
    StatusRoundTrip(o.status);
    ItemsRoundTrip(o.id, o.items);
  }

  /** What comes back is the very order that went in exactly when there was nothing to trim or cut. */
  lemma PersistedIsSame(o: Order)
    ensures Persisted(o) == o <==>
            Trimmed(o.idempotencyKey) && Trimmed(o.cancelReason) && o.createdAt % 1000 == 0 && o.updatedAt % 1000 == 0
  {
    TrimIsTrimmed(o.idempotencyKey);
    TrimIsTrimmed(o.cancelReason);
    hide Trim;
  }

  /** Writing back what was read changes no column. */
  lemma RowOfPersisted(o: Order)
    ensures RowOf(Persisted(o)) == RowOf(o) && Persisted(Persisted(o)) == Persisted(o)
  {
    TrimIsTrimmed(o.idempotencyKey);
    TrimIsTrimmed(o.cancelReason);
    StoredClock(o.createdAt);
    StoredClock(o.updatedAt);
    hide Trim, CurrencyName, MethodName, StatusName;
  }

  // ----- ORDER BY -----

  predicate ItemLess(a: ItemKey, b: ItemKey) {
    TextLess(a.order, b.order) || (a.order == b.order && a.position < b.position)
  }

  lemma ItemLessIsTotal()
    ensures TotalOrder(ItemLess)
  {
    hide TextLess;
    forall a: ItemKey ensures !ItemLess(a, a) {
      TextIrreflexive(a.order);
    }
    forall a: ItemKey, b: ItemKey, c: ItemKey | ItemLess(a, b) && ItemLess(b, c) ensures ItemLess(a, c) {
      if TextLess(a.order, b.order) && TextLess(b.order, c.order) {
        TextTransitive(a.order, b.order, c.order);
      }
    }
    forall a: ItemKey, b: ItemKey ensures a == b || ItemLess(a, b) || ItemLess(b, a) {
      TextTotal(a.order, b.order);
    }
  }

  // ----- the item rows of one order in the table -----

  type ItemTable = map<ItemKey, ItemRow>

  /** The table holds exactly these items for this order. */
  ghost predicate ItemsHeld(t: ItemTable, orderID: string, items: seq<OrderItem>) {
    && |items| <= MAX_INT32 + 1
    && (forall k | k in t && k.order == orderID :: 0 <= k.position < |items|)
    && (forall i | 0 <= i < |items| ::
        ItemKey(orderID, i) in t && t[ItemKey(orderID, i)] == ItemParams(orderID, i, items[i]))
  }

  function RowsAt(t: ItemTable, keys: seq<ItemKey>): (rows: seq<ItemRow>)
    requires forall i | 0 <= i < |keys| :: keys[i] in t
    ensures |rows| == |keys|
  {
    seq(|keys|, i requires 0 <= i < |keys| => t[keys[i]])
  }

  ghost function Positions(orderID: string, n: nat): (keys: seq<ItemKey>)
    ensures |keys| == n
  {
    seq(n, i => ItemKey(orderID, i))
  }

  /** Listed by position, an order's item rows are its items in order. */
  lemma ListedInOrder(t: ItemTable, orderID: string, items: seq<OrderItem>, keys: seq<ItemKey>)
    requires ItemsHeld(t, orderID, items) && Sorted(ItemLess, keys)
    requires forall k :: k in keys <==> k in t && k.order == orderID
    ensures keys == Positions(orderID, |items|)
    ensures (forall i | 0 <= i < |keys| :: keys[i] in t) && RowsAt(t, keys) == ItemRows(orderID, items)
  {
    hide ItemParams, TextLess;
    var all := Positions(orderID, |items|);
    forall k ensures k in keys <==> k in all {
      if k in t && k.order == orderID {
        assert all[k.position] == k;
      }
    }
    ItemLessIsTotal();
    assert Sorted(ItemLess, all);
    SortedIsUnique(ItemLess, keys, all);
  }
}
