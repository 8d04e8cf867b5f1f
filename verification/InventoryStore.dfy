/**
 The inventory repository. A method works on a transaction's own copy of the two tables and
 writes it back only on commit; every earlier return is a rollback.
 */
module InventoryStore {
  import opened Wrappers
  import opened Integers
  import opened Text
  import opened InventoryLedger
  import opened Sequences
  import opened Sorting

  /** Rows are listed by product; keys of one order differ in nothing else. */
  predicate KeyLess(a: Key, b: Key) {
    TextLess(a.product, b.product) || (a.product == b.product && TextLess(a.order, b.order))
  }

  lemma KeyLessIsTotal()
    ensures TotalOrder(KeyLess)
  {
    hide TextLess;
    forall a: Key ensures !KeyLess(a, a) {
      TextIrreflexive(a.product);
      TextIrreflexive(a.order);
    }
    forall a: Key, b: Key, c: Key | KeyLess(a, b) && KeyLess(b, c) ensures KeyLess(a, c) {
      if TextLess(a.product, b.product) && TextLess(b.product, c.product) {
        TextTransitive(a.product, b.product, c.product);
      }
      if TextLess(a.order, b.order) && TextLess(b.order, c.order) {
        TextTransitive(a.order, b.order, c.order);
      }
    }
    forall a: Key, b: Key ensures a == b || KeyLess(a, b) || KeyLess(b, a) {
      TextTotal(a.product, b.product);
      TextTotal(a.order, b.order);
    }
  }

  lemma SameOrderLess(a: Key, b: Key)
    requires KeyLess(a, b) && a.order == b.order
    ensures TextLess(a.product, b.product) && a != b
  {
    hide TextLess;
    TextIrreflexive(a.order);
    TextIrreflexive(a.product);
  }

  function RowsAt(reservations: map<Key, int>, keys: seq<Key>): (rows: seq<(Key, int)>)
    requires forall i | 0 <= i < |keys| :: keys[i] in reservations
    ensures |rows| == |keys|
  {
    seq(|keys|, i requires 0 <= i < |keys| => (keys[i], reservations[keys[i]]))
  }

  class InventoryRepository {
    var stocks: map<string, Stock>
    var reservations: map<Key, int>

    constructor (stocks: map<string, Stock>)
      ensures View() == Ledger(stocks, map[])
    {
      this.stocks, this.reservations := stocks, map[];
    }

    function View(): Ledger
      reads this
    {
      Ledger(stocks, reservations)
    }

    method ReserveStock(product: string, order: string, quantity: int) returns (r: Result<Stock, LedgerError>)
      modifies this
      ensures r.Ok? ==>
                && Reserve(old(View()), product, order, quantity) == Ok(View())
                && product in stocks && r.value == stocks[product]
      ensures r.Err? ==> Reserve(old(View()), product, order, quantity) == Err(r.error) && View() == old(View())
    {
      if Blank(order) || Blank(product) || quantity <= 0 {
        return Err(InvalidStock);
      }
      var txStocks, txReservations := stocks, reservations;
      if product !in txStocks {
        return Err(StockNotFound);
      }
      var row := txStocks[product];
      if quantity > row.available {
        return Err(InsufficientStock);
      }
      if !IsInt64(row.reserved + quantity) {
        return Err(OutOfRange);
      }
      row := row.(available := row.available - quantity, reserved := row.reserved + quantity);
      txStocks := txStocks[product := row];
      var key := Key(product, order);
      if key in txReservations {
        if !IsInt64(txReservations[key] + quantity) {
          return Err(OutOfRange);
        }
        txReservations := txReservations[key := txReservations[key] + quantity];
      } else {
        txReservations := txReservations[key := quantity];
      }
      stocks, reservations := txStocks, txReservations;
      r := Ok(row);
    }

    method ReleaseStock(product: string, order: string, quantity: int) returns (r: Result<Stock, LedgerError>)
      modifies this
      ensures r.Ok? ==>
                && Release(old(View()), product, order, quantity) == Ok(View())
                && product in stocks && r.value == stocks[product]
      ensures r.Err? ==> Release(old(View()), product, order, quantity) == Err(r.error) && View() == old(View())
    {
      if Blank(order) || Blank(product) || quantity <= 0 {
        return Err(InvalidStock);
      }
      if product !in stocks {
        return Err(StockNotFound);
      }
      var key := Key(product, order);
      if key !in reservations || reservations[key] < quantity {
        return Err(ReservationNotFound);
      }
      var restocked := Restock(stocks, product, quantity);
      if restocked.Err? {
        return Err(restocked.error);
      }
      var held := reservations[key];
      if held == quantity {
        reservations := reservations - {key};
      } else {
        reservations := reservations[key := held - quantity];
      }
      stocks := restocked.value;
      r := Ok(stocks[product]);
    }

    /** The rows of one order, each once, by product. */
    method ListReservationsByOrderID(order: string) returns (rows: seq<(Key, int)>)
      ensures IsListing(rows, View(), order)
      ensures forall i, j | 0 <= i < j < |rows| :: TextLess(rows[i].0.product, rows[j].0.product)
    {
      KeyLessIsTotal();
      hide KeyLess, TextLess;
      var keys := Sort(KeyLess, set k | k in reservations && k.order == order);
      assert forall i | 0 <= i < |keys| :: keys[i] in keys;
      rows := RowsAt(reservations, keys);
      forall i, j | 0 <= i < j < |rows|
        ensures TextLess(rows[i].0.product, rows[j].0.product) && rows[i].0 != rows[j].0
      {
        SameOrderLess(keys[i], keys[j]);
      }
      forall k | k in reservations && k.order == order ensures exists i :: 0 <= i < |rows| && rows[i].0 == k {
        assert k in keys;
        var i :| 0 <= i < |keys| && keys[i] == k;
        assert rows[i].0 == k;
      }
    }

    /** The loop over the listed rows, inside one transaction. */
    method ReleaseListed(rows: seq<(Key, int)>) returns (failure: Option<LedgerError>)
      modifies this
      ensures failure.None? ==> ReleaseRows(old(View()), rows) == Ok(View())
      ensures failure.Some? ==> ReleaseRows(old(View()), rows) == Err(failure.value) && View() == old(View())
    {
      var tx := View();
      failure := None;
      WholePrefix(rows);
      var i := 0;
      while i < |rows| && failure.None?
        invariant 0 <= i <= |rows|
        invariant View() == old(View())
        invariant failure.None? ==> ReleaseRows(View(), rows) == ReleaseRows(tx, rows[i..])
        invariant failure.Some? ==> ReleaseRows(View(), rows) == Err(failure.value)
        decreases |rows| - i, failure.None?
      {
        ReleaseRowsStep(tx, rows, i);
        match ReleaseRow(tx, rows[i].0, rows[i].1)
        case Err(e) =>
          failure := Some(e);
        case Ok(tx') =>
          tx := tx';
          i := i + 1;
      }
      if failure.None? {
        stocks, reservations := tx.stocks, tx.reservations;
      }
    }

    /** On a balanced ledger this never meets one of the loop's error returns. */
    method ReleaseReservationsByOrderID(orderID: string) returns (r: Option<LedgerError>)
      requires Balanced(View())
      modifies this
      ensures r == if Blank(orderID) then Some(InvalidStock) else None
      ensures View() == Perform(old(View()), FreeOp(orderID))
    {
      var order := Trim(orderID);
      if order == "" {
        return Some(InvalidStock);
      }
      var rows := ListReservationsByOrderID(order);
      ReleaseRowsFrees(View(), rows, order);
      r := ReleaseListed(rows);
    }

    /** A stretch of transactions by other clients of the same database. */
    method Interleave(ops: seq<Op>)
      requires Balanced(View())
      modifies this
      ensures View() == PerformAll(old(View()), ops)
    {
      var i := 0;
      while i < |ops|
        invariant 0 <= i <= |ops|
        invariant Balanced(View())
        invariant PerformAll(old(View()), ops) == PerformAll(View(), ops[i..])
      {
        PerformBalanced(View(), ops[i]);
        match ops[i] {
          case ReserveOp(p, o, q) => var _ := ReserveStock(p, o, q);
          case ReleaseOp(p, o, q) => var _ := ReleaseStock(p, o, q);
          case FreeOp(o) => var _ := ReleaseReservationsByOrderID(o);
        }
        i := i + 1;
      }
    }
  }
}
