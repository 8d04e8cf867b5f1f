/**
 The order repository over its three tables. A method works on a transaction's own copies and
 assigns them on commit; every earlier return is a rollback. `contents` is what the order and item
 rows stand for, and the methods are proved to be the transactions of `OrderStore` on it.
 */
module OrderDatabase {
  import opened Wrappers
  import opened Integers
  import opened Text
  import opened Enums
  import opened Domain
  import opened OrderStore
  import opened OrderRows
  import opened OrderListing
  import opened Sorting
  import opened Sequences

  type OrderTable = map<string, OrderRow>

  // ----- rows and the orders they stand for -----

  /** Both tables hold the order, and hold it in the form it reads back in. */
  ghost predicate Holds(orders: OrderTable, items: ItemTable, o: Order) {
    && o.id in orders && orders[o.id] == RowOf(o) && ItemsHeld(items, o.id, o.items)
    && Named(o) && Persisted(o) == o
  }

  ghost predicate Represents(orders: OrderTable, items: ItemTable, contents: map<string, Order>) {
    && orders.Keys == contents.Keys
    && (forall id | id in contents :: contents[id].id == id && Holds(orders, items, contents[id]))
    && (forall k | k in items :: k.order in contents)
  }

  /** The item rows of every other order are untouched. */
  ghost predicate OthersKept(t: ItemTable, t': ItemTable, orderID: string) {
    forall k: ItemKey | k.order != orderID :: (k in t <==> k in t') && (k in t ==> t'[k] == t[k])
  }

  lemma OtherItemsHeld(t: ItemTable, t': ItemTable, orderID: string, other: string, items: seq<OrderItem>)
    requires OthersKept(t, t', orderID) && other != orderID && ItemsHeld(t, other, items)
    ensures ItemsHeld(t', other, items)
  {
    hide ItemParams;
  }

  /** Rows of one order put in place of its earlier ones. */
  lemma PutRepresents(orders: OrderTable, items: ItemTable, contents: map<string, Order>, items': ItemTable, o: Order)
    requires Represents(orders, items, contents) && OthersKept(items, items', o.id)
    requires ItemsHeld(items', o.id, o.items) && Named(o)
    ensures Represents(orders[o.id := RowOf(o)], items', contents[o.id := Persisted(o)])
  {
    hide ItemsHeld, RowOf, Named, Persisted;
    var (orders', contents') := (orders[o.id := RowOf(o)], contents[o.id := Persisted(o)]);
    RowOfPersisted(o);
    PersistedKeeps(o);
    forall id | id in contents' ensures contents'[id].id == id && Holds(orders', items', contents'[id]) {
      if id != o.id {
        assert Holds(orders, items, contents[id]);
        OtherItemsHeld(items, items', o.id, id, contents[id].items);
      }
    }
  }

  lemma PersistedKeeps(o: Order)
    ensures var p := Persisted(o);
            p.id == o.id && p.items == o.items && p.status == o.status && p.createdAt == Stored(o.createdAt)
            && (Named(p) <==> Named(o))
  {
    hide Trim, Stored, KnownCurrency, KnownMethod, NamedItems;
  }

  // ----- statements -----

  predicate KeyUsed(orders: OrderTable, key: Option<string>, except: string) {
    key.Some? && exists id | id in orders :: id != except && orders[id].idempotencyKey == key
  }

  lemma KeyUsedIsTaken(orders: OrderTable, items: ItemTable, contents: map<string, Order>,
                       outbox: map<RowID, OutboxRow>, key: string, except: string)
    requires Represents(orders, items, contents)
    ensures orders.Keys == contents.Keys
    ensures KeyUsed(orders, NullText(key), except) <==> KeyTaken(Store(contents, outbox), key, except)
  {
    hide ItemsHeld, Named, Trim, Stored, CurrencyName, MethodName, StatusName;
    forall id | id in contents ensures orders[id].idempotencyKey == NullText(contents[id].idempotencyKey) {
      assert Holds(orders, items, contents[id]);
    }
  }

  /** INSERT INTO orders. */
  function InsertOrder(orders: OrderTable, p: OrderRow): Result<OrderTable, OrderError> {
    if p.createdAt.None? || p.updatedAt.None? || p.cents <= 0 then Err(DatabaseError)
    else if p.id in orders then Err(OrderAlreadyExists)
    else if KeyUsed(orders, p.idempotencyKey, p.id) then Err(IdempotencyKeyAlreadyExists)
    else Ok(orders[p.id := Kept(p)])
  }

  /** UPDATE orders, by primary key; `UpdateOrder` maps every error of it but the missing row to one. */
  function UpdateRow(orders: OrderTable, p: OrderRow): Result<OrderTable, OrderError> {
    if p.id !in orders then Err(OrderNotFound)
    else if p.createdAt.None? || p.updatedAt.None? || p.cents <= 0 then Err(DatabaseError)
    else if KeyUsed(orders, p.idempotencyKey, p.id) then Err(DatabaseError)
    else Ok(orders[p.id := Kept(p)])
  }

  predicate ItemAccepted(i: OrderItem) {
    i.quantity > 0 && i.unitPrice.cents > 0 && i.totalPrice.cents > 0
  }

  /** INSERT INTO order_items. */
  function InsertItem(t: ItemTable, row: ItemRow): Result<ItemTable, OrderError> {
    if row.position < 0 || row.quantity <= 0 || row.unitCents <= 0 || row.totalCents <= 0
       || ItemKey(row.orderID, row.position) in t
    then Err(DatabaseError)
    else Ok(t[ItemKey(row.orderID, row.position) := row])
  }

  predicate ItemsAccepted(items: seq<OrderItem>) {
    |items| <= MAX_INT32 + 1 && forall i | 0 <= i < |items| :: ItemAccepted(items[i])
  }

  /** What makes an order unstorable, statement by statement. */
  lemma StorableIff(o: Order)
    ensures Unstorable(o) <==> RowRejected(o) || !ItemsAccepted(o.items) || !Named(o)
  {
    hide KnownCurrency, KnownMethod;
    if exists i | 0 <= i < |o.items| :: BadItem(o.items[i]) {
      var i :| 0 <= i < |o.items| && BadItem(o.items[i]);
      assert !ItemAccepted(o.items[i]) || !NamedItem(o.items[i]);
    } else {
      forall i | 0 <= i < |o.items| ensures ItemAccepted(o.items[i]) && NamedItem(o.items[i]) {
        assert !BadItem(o.items[i]);
      }
    }
  }

  lemma RejectedRow(o: Order)
    ensures RowRejected(o) <==> o.createdAt == 0 || o.updatedAt == 0 || o.total.cents <= 0
  {
  }

  lemma ParamsNulls(o: Order)
    ensures var p := OrderParams(o);
            && p.id == o.id && p.cents == o.total.cents && p.status == StatusName(o.status)
            && p.idempotencyKey == NullText(Trim(o.idempotencyKey))
            && (p.createdAt.None? <==> o.createdAt == 0) && (p.updatedAt.None? <==> o.updatedAt == 0)
            && (p.createdAt.Some? && p.updatedAt.Some? ==> Kept(p) == RowOf(o))
  {
    hide Trim, Stored, CurrencyName, MethodName, StatusName;
  }

  lemma StatusNamesDiffer(a: OrderStatus, b: OrderStatus)
    ensures StatusName(a) == StatusName(b) <==> a == b
  {
    hide StatusName, StatusValue;
    StatusRoundTrip(a);
    StatusRoundTrip(b);
  }

  /** `insertOrderItems`: all lines under their positions, or an error at the first one the table refuses. */
  method InsertOrderItems(t: ItemTable, o: Order) returns (r: Result<ItemTable, OrderError>)
    requires forall k | k in t :: k.order != o.id
    ensures r.Ok? <==> ItemsAccepted(o.items)
    ensures r.Err? ==> r.error == DatabaseError
    ensures r.Ok? ==> ItemsHeld(r.value, o.id, o.items) && OthersKept(t, r.value, o.id)
  {
    hide CurrencyName;
    var tx := t;
    var i := 0;
    while i < |o.items|
      invariant 0 <= i <= |o.items| && i <= MAX_INT32 + 1
      invariant forall j | 0 <= j < i :: ItemAccepted(o.items[j])
      invariant forall k | k in tx && k.order == o.id :: 0 <= k.position < i
      invariant forall j | 0 <= j < i ::
                ItemKey(o.id, j) in tx && tx[ItemKey(o.id, j)] == ItemParams(o.id, j, o.items[j])
      invariant OthersKept(t, tx, o.id)
    {
      match InsertItem(tx, ItemParams(o.id, i, o.items[i]))
      case Err(e) => return Err(e);
      case Ok(tx') =>
        tx := tx';
        i := i + 1;
    }
    r := Ok(tx);
  }

  /** `SELECT ... ORDER BY item_position`. */
  method ListOrderItemsByOrderID(t: ItemTable, orderID: string, ghost items: seq<OrderItem>)
    returns (rows: seq<ItemRow>)
    requires ItemsHeld(t, orderID, items)
    ensures rows == ItemRows(orderID, items)
  {
    ItemLessIsTotal();
    hide ItemLess;
    var keys := Sort(ItemLess, set k | k in t && k.order == orderID);
    ListedInOrder(t, orderID, items, keys);
    rows := RowsAt(t, keys);
  }

  // ----- the batched listing -----

  /** The rows of one order among those of many, in the order they are listed in. */
  function RowsFor(rows: seq<ItemRow>, orderID: string): seq<ItemRow> {
    if rows == [] then []
    else RowsFor(rows[..|rows| - 1], orderID) + if rows[|rows| - 1].orderID == orderID then [rows[|rows| - 1]] else []
  }

  ghost function KeysFor(keys: seq<ItemKey>, orderID: string): seq<ItemKey> {
    if keys == [] then []
    else KeysFor(keys[..|keys| - 1], orderID) + if keys[|keys| - 1].order == orderID then [keys[|keys| - 1]] else []
  }

  lemma {:induction false} KeysForElements(keys: seq<ItemKey>, orderID: string, k: ItemKey)
    ensures k in KeysFor(keys, orderID) <==> k in keys && k.order == orderID
    decreases |keys|
  {
    if keys != [] {
      KeysForElements(keys[..|keys| - 1], orderID, k);
      assert keys == keys[..|keys| - 1] + [keys[|keys| - 1]];
    }
  }

  lemma {:induction false} KeysForSorted(keys: seq<ItemKey>, orderID: string)
    requires Sorted(ItemLess, keys)
    ensures Sorted(ItemLess, KeysFor(keys, orderID))
    decreases |keys|
  {
    hide ItemLess;
    if keys != [] {
      var n := |keys| - 1;
      KeysForSorted(keys[..n], orderID);
      forall k | k in KeysFor(keys[..n], orderID) ensures ItemLess(k, keys[n]) {
        KeysForElements(keys[..n], orderID, k);
      }
    }
  }

  lemma {:induction false} RowsForKeys(t: ItemTable, keys: seq<ItemKey>, orderID: string)
    requires forall i | 0 <= i < |keys| :: keys[i] in t && t[keys[i]].orderID == keys[i].order
    ensures forall i | 0 <= i < |KeysFor(keys, orderID)| :: KeysFor(keys, orderID)[i] in t
    ensures RowsFor(RowsAt(t, keys), orderID) == RowsAt(t, KeysFor(keys, orderID))
    decreases |keys|
  {
    if keys != [] {
      var n := |keys| - 1;
      RowsForKeys(t, keys[..n], orderID);
      assert RowsAt(t, keys)[..n] == RowsAt(t, keys[..n]);
    }
  }

  /** One query for many orders finds each order's items as its own query would. */
  lemma BatchFindsEach(t: ItemTable, keys: seq<ItemKey>, orderID: string, items: seq<OrderItem>)
    requires Sorted(ItemLess, keys) && ItemsHeld(t, orderID, items)
    requires forall k | k in keys :: k in t && t[k].orderID == k.order
    requires forall k | k in t && k.order == orderID :: k in keys
    ensures RowsFor(RowsAt(t, keys), orderID) == ItemRows(orderID, items)
  {
    hide ItemLess, ItemsHeld, ItemParams, KeysFor, RowsFor;
    RowsForKeys(t, keys, orderID);
    KeysForSorted(keys, orderID);
    forall k ensures k in KeysFor(keys, orderID) <==> k in t && k.order == orderID {
      KeysForElements(keys, orderID, k);
    }
    ListedInOrder(t, orderID, items, KeysFor(keys, orderID));
  }

  type Groups = map<string, seq<OrderItem>>

  /** Lookup in a Go map: absent keys hold the nil slice. */
  function Grouped(g: Groups, id: string): seq<OrderItem> {
    if id in g then g[id] else []
  }

  /** `groupDBOrderItems`. */
  method GroupDBOrderItems(rows: seq<ItemRow>) returns (r: Result<Groups, OrderError>)
    ensures r.Ok? <==> forall i | 0 <= i < |rows| :: MapDBItem(rows[i]).Ok?
    ensures r.Ok? ==> forall id :: MapDBItems(RowsFor(rows, id)) == Ok(Grouped(r.value, id))
  {
    hide MapDBItem;
    var grouped: Groups := map[];
    var i := 0;
    while i < |rows|
      invariant 0 <= i <= |rows|
      invariant forall j | 0 <= j < i :: MapDBItem(rows[j]).Ok?
      invariant forall id :: MapDBItems(RowsFor(rows[..i], id)) == Ok(Grouped(grouped, id))
    {
      var row := rows[i];
      match MapDBItem(row)
      case Err(_) => return Err(DatabaseError);
      case Ok(item) =>
        ghost var before := grouped;
        grouped := grouped[row.orderID := Grouped(grouped, row.orderID) + [item]];
        assert rows[..i + 1][..i] == rows[..i];
        forall id ensures MapDBItems(RowsFor(rows[..i + 1], id)) == Ok(Grouped(grouped, id)) {
          assert MapDBItems(RowsFor(rows[..i], id)) == Ok(Grouped(before, id));
          if row.orderID == id {
            assert (RowsFor(rows[..i], id) + [row])[..|RowsFor(rows[..i], id)|] == RowsFor(rows[..i], id);
          } else {
            assert RowsFor(rows[..i], id) + [] == RowsFor(rows[..i], id);
          }
        }
        i := i + 1;
    }
    WholePrefix(rows);
    r := Ok(grouped);
  }

  /** `toDBItems`: items turned back into rows, under no order id. */
  function ToDBItems(items: seq<OrderItem>): seq<ItemRow> {
    ItemRows("", items)
  }

  /** Rows, items, rows again and a second mapping give the order that one mapping gives. */
  lemma RegroupedRoundTrip(o: Order)
    requires Named(o) && Persisted(o) == o
    ensures MapDBOrder(RowOf(o), ToDBItems(o.items)) == Ok(o)
  {
    hide RowOf, Persisted, MapDBItems, ItemRows, CurrencyValue, StatusValue, MethodValue;
    OrderRoundTrip(o);
    ItemsRoundTrip(o.id, o.items);
    ItemsRoundTrip("", o.items);
  }

  /** Every stored item row is readable and names its order. */
  lemma StoredItemRow(orders: OrderTable, items: ItemTable, contents: map<string, Order>, k: ItemKey)
    requires Represents(orders, items, contents) && k in items
    ensures items[k].orderID == k.order && MapDBItem(items[k]).Ok?
  {
    hide RowOf, Persisted, MapDBItem, CurrencyName, NamedItem, KnownCurrency, KnownMethod;
    var o := contents[k.order];
    assert Holds(orders, items, o);
    ItemRoundTrip(o.id, k.position, o.items[k.position]);
  }

  /** Out of the groups of a batched query an order is mapped to itself. */
  lemma GroupsAreItems(items: ItemTable, keys: seq<ItemKey>, groups: Groups, o: Order)
    requires ItemsHeld(items, o.id, o.items) && Named(o) && Persisted(o) == o && Sorted(ItemLess, keys)
    requires forall k | k in keys :: k in items && items[k].orderID == k.order
    requires forall k | k in items && k.order == o.id :: k in keys
    requires MapDBItems(RowsFor(RowsAt(items, keys), o.id)) == Ok(Grouped(groups, o.id))
    ensures MapDBOrder(RowOf(o), ToDBItems(Grouped(groups, o.id))) == Ok(o)
  {
    hide RowOf, Persisted, MapDBItems, MapDBOrder, RowsFor, ItemLess, ItemsHeld, ItemRows, Grouped, KnownCurrency,
         KnownMethod;
    BatchFindsEach(items, keys, o.id, o.items);
    ItemsRoundTrip(o.id, o.items);
    RegroupedRoundTrip(o);
  }

  lemma {:induction false} ListedAtMostOnce(keys: set<ListKey>, ids: set<string>)
    requires forall k | k in keys :: k.id in ids
    requires forall a, b | a in keys && b in keys && a.id == b.id :: a == b
    ensures |keys| <= |ids|
    decreases |keys|
  {
    if k :| k in keys {
      ListedAtMostOnce(keys - {k}, ids - {k.id});
    }
  }

  /** A table's entries for the listed orders. */
  function At<T>(table: map<string, T>, keys: seq<ListKey>): (s: seq<T>)
    requires forall i | 0 <= i < |keys| :: keys[i].id in table
    ensures |s| == |keys|
  {
    seq(|keys|, i requires 0 <= i < |keys| => table[keys[i].id])
  }

  lemma RowHasID(orders: OrderTable, items: ItemTable, contents: map<string, Order>, id: string)
    requires Represents(orders, items, contents) && id in contents
    ensures orders[id].id == id
  {
    hide Trim, Stored, CurrencyName, MethodName, StatusName, ItemsHeld, Named, Persisted;
    assert Holds(orders, items, contents[id]);
  }

  lemma StoredColumns(o: Order)
    requires Persisted(o) == o
    ensures RowOf(o).customerID == o.customerID && CreatedAt(RowOf(o)) == o.createdAt
  {
    hide Trim, Stored, CurrencyName, MethodName, StatusName;
  }

  function CreatedAt(row: OrderRow): Time {
    if row.createdAt.Some? then row.createdAt.value else 0
  }

  /** `mapDBOrders`. */
  method MapDBOrders(rows: seq<OrderRow>, groups: Groups, ghost expected: seq<Order>)
    returns (r: Result<seq<Order>, OrderError>)
    requires |expected| == |rows|
    requires forall i | 0 <= i < |rows| ::
             MapDBOrder(rows[i], ToDBItems(Grouped(groups, rows[i].id))) == Ok(expected[i])
    ensures r == Ok(expected)
  {
    hide MapDBOrder, ToDBItems, Grouped;
    var mapped: seq<Order> := [];
    var i := 0;
    while i < |rows|
      invariant 0 <= i <= |rows|
      invariant mapped == expected[..i]
    {
      var order := MapDBOrder(rows[i], ToDBItems(Grouped(groups, rows[i].id)));
      mapped := mapped + [order.value];
      i := i + 1;
    }
    WholePrefix(expected);
    r := Ok(mapped);
  }

  lemma IncompleteIs(o: Order)
    ensures Incomplete(o.id, o.customerID, o.address, o.payment) <==>
            || Trim(o.id) == "" || Trim(o.customerID) == ""
            || Trim(o.address.country) == "" || Trim(o.address.city) == "" || Trim(o.address.street) == ""
            || Trim(o.address.postalCode) == "" || Trim(o.address.house) == ""
            || o.payment.payMethod == METHOD_UNSPECIFIED
  {
    hide Trim;
  }

  class OrderRepository {
    var orders: OrderTable
    var items: ItemTable
    var outbox: map<RowID, OutboxRow>
    ghost var contents: map<string, Order>

    ghost predicate Valid()
      reads this
    {
      Represents(orders, items, contents)
    }

    ghost function View(): Store
      reads this
    {
      Store(contents, outbox)
    }

    constructor ()
      ensures Valid() && View() == Store(map[], map[])
    {
      orders, items, outbox, contents := map[], map[], map[], map[];
    }

    method CreateOrder(o: Order, at: Time) returns (r: Result<Order, OrderError>)
      requires Valid()
      modifies this
      ensures Valid()
      ensures r.Ok? ==> CreateTx(old(View()), o, at) == Ok(View()) && r.value == Persisted(o)
      ensures r.Err? ==> CreateTx(old(View()), o, at) == Err(r.error) && View() == old(View())
      ensures r == Err(InvalidOrder) <==>
              || Trim(o.id) == "" || Trim(o.customerID) == ""
              || Trim(o.address.country) == "" || Trim(o.address.city) == "" || Trim(o.address.street) == ""
              || Trim(o.address.postalCode) == "" || Trim(o.address.house) == ""
              || o.payment.payMethod == METHOD_UNSPECIFIED
    {
      IncompleteIs(o);
      hide Named, RowOf, OrderParams, Incomplete, BadContent, ItemsAccepted, CreatedRow, Trim, Stored, Persisted;
      hide ItemsHeld, KeyTaken, MapDBOrder, KeyUsed, Kept;
      if Incomplete(o.id, o.customerID, o.address, o.payment) {
        return Err(InvalidOrder);
      }
      StorableIff(o);
      ParamsNulls(o);
      KeyUsedIsTaken(orders, items, contents, outbox, Trim(o.idempotencyKey), o.id);
      var inserted := InsertOrder(orders, OrderParams(o));
      if inserted.Err? {
        return Err(inserted.error);
      }
      var txItems := InsertOrderItems(items, o);
      if txItems.Err? {
        return Err(txItems.error);
      }
      if CreatedID(o.id) in outbox {
        return Err(DatabaseError);
      }
      var rows := ListOrderItemsByOrderID(txItems.value, o.id, o.items);
      OrderRoundTrip(o);
      r := MapDBOrder(inserted.value[o.id], rows);
      if r.Ok? {
        PutRepresents(orders, items, contents, txItems.value, o);
        orders, items, outbox := inserted.value, txItems.value, outbox[CreatedID(o.id) := CreatedRow(o, at)];
        contents := contents[o.id := Persisted(o)];
      }
    }

    /** `SELECT` of an order row and of its items. */
    method GetOrderByID(id: string) returns (r: Result<Order, OrderError>)
      requires Valid()
      ensures r == if id in View().orders then Ok(View().orders[id]) else Err(OrderNotFound)
    {
      hide Named, RowOf, Persisted, ItemsHeld, MapDBOrder;
      if id !in orders {
        return Err(OrderNotFound);
      }
      ghost var o := contents[id];
      assert Holds(orders, items, o);
      var rows := ListOrderItemsByOrderID(items, id, o.items);
      OrderRoundTrip(o);
      r := MapDBOrder(orders[id], rows);
    }

    method GetOrderByIdempotencyKey(idempotencyKey: string) returns (r: Result<Order, OrderError>)
      requires Valid()
      ensures r.Ok? ==>
              Trim(idempotencyKey) != "" && r.value.id in View().orders && r.value == View().orders[r.value.id]
                        && r.value.idempotencyKey == Trim(idempotencyKey)
      ensures r.Err? ==> r.error == if Blank(idempotencyKey) then InvalidOrder else OrderNotFound
      ensures r.Err? && !Blank(idempotencyKey) ==>
                forall id | id in View().orders :: View().orders[id].idempotencyKey != Trim(idempotencyKey)
    {
      var key := Trim(idempotencyKey);
      hide Named, ItemsHeld, Trim, Stored, CurrencyName, MethodName, StatusName;
      if key == "" {
        return Err(InvalidOrder);
      }
      assert forall id | id in contents :: Holds(orders, items, contents[id]);
      if id :| id in orders && orders[id].idempotencyKey == Some(key) {
        r := GetOrderByID(id);
      } else {
        r := Err(OrderNotFound);
        forall id | id in contents ensures contents[id].idempotencyKey != key {
          assert orders[id].idempotencyKey == NullText(contents[id].idempotencyKey);
        }
      }
    }

    /** The first statement of `UpdateOrder`, which takes no lock. */
    method ReadStatus(id: string) returns (status: Option<string>)
      requires Valid()
      ensures status == if id in View().orders then Some(StatusName(View().orders[id].status)) else None
    {
      hide Named, ItemsHeld, Trim, Stored, CurrencyName, MethodName, StatusName;
      if id !in orders {
        return None;
      }
      assert Holds(orders, items, contents[id]);
      status := Some(orders[id].status);
    }

    /** The rest of `UpdateOrder`, from the write on; `seen` is the status its read returned. */
    method WriteOrder(o: Order, seenName: string, at: Time, ghost seen: OrderStatus)
      returns (r: Result<Order, OrderError>)
      requires Valid() && seenName == StatusName(seen)
      requires !Incomplete(o.id, o.customerID, o.address, o.payment)
      modifies this
      ensures Valid()
      ensures r.Ok? ==> UpdateTx(old(View()), o, seen, at) == Ok(View()) && r.value == Persisted(o)
      ensures r.Err? ==> UpdateTx(old(View()), o, seen, at) == Err(r.error) && View() == old(View())
    {
      hide Named, RowOf, OrderParams, Incomplete, Unstorable, RowRejected, ItemsAccepted, CancelledRow, Trim, Stored,
           Persisted;
      hide ItemsHeld, KeyTaken, MapDBOrder, StatusName, StatusValue, Represents, KeyUsed, Kept;
      RejectedRow(o);
      StorableIff(o);
      ParamsNulls(o);
      PersistedKeeps(o);
      StatusNamesDiffer(seen, o.status);
      StatusNamesDiffer(o.status, Cancelled);
      KeyUsedIsTaken(orders, items, contents, outbox, Trim(o.idempotencyKey), o.id);
      var params := OrderParams(o);
      var updated := UpdateRow(orders, params);
      if updated.Err? {
        return Err(updated.error);
      }
      var others := map k | k in items && k.order != o.id :: items[k];
      var txItems := InsertOrderItems(others, o);
      if txItems.Err? {
        return Err(txItems.error);
      }
      var rows := ListOrderItemsByOrderID(txItems.value, o.id, o.items);
      OrderRoundTrip(o);
      var mapped := MapDBOrder(updated.value[o.id], rows);
      if mapped.Err? {
        return mapped;
      }
      var txOutbox := outbox;
      if seenName != params.status && params.status == StatusName(Cancelled) {
        if CancelledID(o.id) in outbox {
          return Err(DatabaseError);
        }
        txOutbox := outbox[CancelledID(o.id) := CancelledRow(mapped.value, at)];
      }
      PutRepresents(orders, items, contents, txItems.value, o);
      orders, items, outbox := updated.value, txItems.value, txOutbox;
      contents := contents[o.id := Persisted(o)];
      r := mapped;
    }

    /** `UpdateOrder` with nothing between its read and its write. */
    method UpdateOrder(o: Order, at: Time) returns (r: Result<Order, OrderError>)
      requires Valid()
      modifies this
      ensures Valid()
      ensures r.Ok? ==> UpdateAtomic(old(View()), o, at) == Ok(View()) && r.value == Persisted(o)
      ensures r.Err? ==> UpdateAtomic(old(View()), o, at) == Err(r.error) && View() == old(View())
      ensures r == Err(InvalidOrder) <==>
              || Trim(o.id) == "" || Trim(o.customerID) == ""
              || Trim(o.address.country) == "" || Trim(o.address.city) == "" || Trim(o.address.street) == ""
              || Trim(o.address.postalCode) == "" || Trim(o.address.house) == ""
              || o.payment.payMethod == METHOD_UNSPECIFIED
    {
      IncompleteIs(o);
      hide Incomplete, StatusName, BadContent, KeyTaken, CancelledRow, Persisted, Trim, Represents;
      if Incomplete(o.id, o.customerID, o.address, o.payment) {
        return Err(InvalidOrder);
      }
      var seen := ReadStatus(o.id);
      if seen.None? {
        return Err(OrderNotFound);
      }
      r := WriteOrder(o, seen.value, at, contents[o.id].status);
    }

    /** The customer's rows in listing order. */
    method ListedKeys(customerID: string) returns (listing: seq<ListKey>)
      requires Valid()
      ensures IsListing(listing, View(), customerID) && |listing| <= |orders|
      ensures forall k | k in listing :: k.id in contents
    {
      hide Named, ItemsHeld, OrderParams;
      ListLessIsTotal();
      hide ListLess;
      var keys := set id | id in orders && orders[id].customerID == customerID :: ListKey(CreatedAt(orders[id]), id);
      listing := Sort(ListLess, keys);
      ListedAtMostOnce(keys, orders.Keys);
      forall k ensures k in keys <==> Belongs(View(), customerID, k) {
        if k.id in contents {
          assert Holds(orders, items, contents[k.id]);
          StoredColumns(contents[k.id]);
        }
      }
    }

    /** One query for the items of all these orders, grouped: each of the orders can be read out of it. */
    method ListItemGroups(orderIDs: seq<string>) returns (r: Result<Groups, OrderError>)
      requires Valid()
      ensures r.Ok?
      ensures forall id | id in orderIDs && id in contents ::
                MapDBOrder(orders[id], ToDBItems(Grouped(r.value, id))) == Ok(contents[id])
    {
      ItemLessIsTotal();
      hide ItemLess, Named, RowOf, Persisted, ItemsHeld, RowsFor, MapDBItems, MapDBItem, MapDBOrder, Grouped, ToDBItems;
      var keys := Sort(ItemLess, set k | k in items && k.order in orderIDs);
      assert forall i | 0 <= i < |keys| :: keys[i] in keys;
      var rows := RowsAt(items, keys);
      forall k | k in keys ensures items[k].orderID == k.order && MapDBItem(items[k]).Ok? {
        StoredItemRow(orders, items, contents, k);
      }
      r := GroupDBOrderItems(rows);
      forall id | id in orderIDs && id in contents
        ensures MapDBOrder(orders[id], ToDBItems(Grouped(r.value, id))) == Ok(contents[id])
      {
        assert Holds(orders, items, contents[id]);
        GroupsAreItems(items, keys, r.value, contents[id]);
      }
    }

    /** The orders of a window of the listing: their rows, and one query for all their items. */
    method ReadWindow(window: seq<ListKey>) returns (r: Result<seq<Order>, OrderError>)
      requires Valid() && forall i | 0 <= i < |window| :: window[i].id in contents
      ensures r == Ok(At(contents, window))
    {
      hide Holds, MapDBOrder, ToDBItems, Grouped;
      var rows := At(orders, window);
      var orderIDs := seq(|window|, i requires 0 <= i < |window| => window[i].id);
      var groups := ListItemGroups(orderIDs);
      ghost var expected := At(contents, window);
      forall i | 0 <= i < |window|
        ensures MapDBOrder(rows[i], ToDBItems(Grouped(groups.value, rows[i].id))) == Ok(expected[i])
      {
        assert orderIDs[i] in orderIDs;
        RowHasID(orders, items, contents, window[i].id);
      }
      r := MapDBOrders(rows, groups.value, expected);
    }

    /** A page of the customer's orders, each exactly as `GetOrderByID` returns it, and the number of all of them. */
    method ListOrdersByCustomer(customerID: string, page: int32, pageSize: int32)
      returns (r: Result<seq<Order>, OrderError>, total: int)
      requires Valid() && |orders| <= MAX_INT64
      ensures r.Ok?
      ensures 0 <= total <= MAX_INT64
      ensures forall all | IsListing(all, View(), customerID) ::
                && total == |all|
                && |r.value| == |Page(all, page, pageSize)|
                && forall i | 0 <= i < |r.value| ::
                     var id := Page(all, page, pageSize)[i].id;
                     id in View().orders && r.value[i] == View().orders[id]
    {
      hide Represents, IsListing, Room, Wrap64, Clamp32;
      var listing := ListedKeys(customerID);
      total := |listing|;
      forall all | IsListing(all, View(), customerID) ensures all == listing {
        OneListing(all, listing, View(), customerID);
      }
      if total == 0 {
        return Ok([]), total;
      }
      assert IsInt32(page) && IsInt32(pageSize);
      var requested: int := if page <= 0 then 1 else page;
      var limit: int := pageSize;
      if limit <= 0 {
        limit := total;
      }
      var offset := Wrap64(Room(requested - 1, limit));
      if offset >= total {
        return Ok([]), total;
      }
      var window := Window(listing, Clamp32(limit), Clamp32(offset));
      assert window == Page(listing, page, pageSize);
      forall i | 0 <= i < |window| ensures window[i].id in contents {
        assert window[i] in listing;
      }
      hide Page, Window;
      r := ReadWindow(window);
    }
  }
}
