/**
 The inventory database: one stock row per product and one reservation row per (product, order).
 Each transaction is a function from one ledger to the next, or to the error that rolls it back.
 */
module InventoryLedger {
  import opened Wrappers
  import opened Integers
  import opened Sums
  import opened Text

  datatype Stock = Stock(available: int, reserved: int, total: int)

  /** Primary key of a reservation row. */
  datatype Key = Key(product: string, order: string)

  datatype Ledger = Ledger(stocks: map<string, Stock>, reservations: map<Key, int>)

  datatype LedgerError =
    | InvalidStock
    | StockNotFound
    | InsufficientStock
    | ReservationNotFound
    | NoRows      // a guarded UPDATE matched nothing
    | OutOfRange  // a BIGINT sum left its range
    | Unavailable // the database did not answer

  type Outcome = Result<Ledger, LedgerError>

  // ----- the three transactions -----

  predicate BadRequest(p: string, o: string, q: int) {
    Blank(o) || Blank(p) || q <= 0
  }

  function Reserve(l: Ledger, p: string, o: string, q: int): Outcome {
    var k := Key(p, o);
    if BadRequest(p, o, q) then Err(InvalidStock)
    else if p !in l.stocks then Err(StockNotFound)
    else if q > l.stocks[p].available then Err(InsufficientStock)
    else if !IsInt64(l.stocks[p].reserved + q) then Err(OutOfRange)
    else if k in l.reservations && !IsInt64(l.reservations[k] + q) then Err(OutOfRange)
    else
      var s := l.stocks[p];
      Ok(Ledger(
        l.stocks[p := s.(available := s.available - q, reserved := s.reserved + q)],
        l.reservations[k := if k in l.reservations then l.reservations[k] + q else q]))
  }

  /** `UPDATE inventory_stocks` of a release: moves `q` back, guarded by the reserved quantity. */
  function Restock(stocks: map<string, Stock>, p: string, q: int): (r: Result<map<string, Stock>, LedgerError>)
    requires p in stocks
  {
    var s := stocks[p];
    if s.reserved < q then Err(NoRows)
    else if !IsInt64(s.available + q) || !IsInt64(s.reserved - q) then Err(OutOfRange)
    else Ok(stocks[p := s.(available := s.available + q, reserved := s.reserved - q)])
  }

  function Release(l: Ledger, p: string, o: string, q: int): Outcome {
    var k := Key(p, o);
    if BadRequest(p, o, q) then Err(InvalidStock)
    else if p !in l.stocks then Err(StockNotFound)
    else if k !in l.reservations || l.reservations[k] < q then Err(ReservationNotFound)
    else
      match Restock(l.stocks, p, q)
      case Err(e) => Err(e)
      case Ok(stocks) =>
        Ok(Ledger(stocks, if l.reservations[k] == q then l.reservations - {k}
                          else l.reservations[k := l.reservations[k] - q]))
  }

  /** One pass of the loop of a release by order: give a whole reservation row back. */
  function ReleaseRow(l: Ledger, k: Key, q: int): Outcome {
    if k.product !in l.stocks then Err(StockNotFound)
    else
      match Restock(l.stocks, k.product, q)
      case Err(e) => Err(e)
      case Ok(stocks) => Ok(Ledger(stocks, l.reservations - {k}))
  }

  function ReleaseRows(l: Ledger, rows: seq<(Key, int)>): Outcome
    decreases |rows|
  {
    if rows == [] then Ok(l)
    else
      match ReleaseRow(l, rows[0].0, rows[0].1)
      case Err(e) => Err(e)
      case Ok(l') => ReleaseRows(l', rows[1..])
  }

  /** `rows` is a result of `SELECT ... WHERE order_id = o`, in any order. */
  ghost predicate IsListing(rows: seq<(Key, int)>, l: Ledger, o: string) {
    && (forall i | 0 <= i < |rows| ::
          rows[i].0 in l.reservations && rows[i].0.order == o && rows[i].1 == l.reservations[rows[i].0])
    && (forall i, j | 0 <= i < j < |rows| :: rows[i].0 != rows[j].0)
    && (forall k | k in l.reservations && k.order == o :: exists i :: 0 <= i < |rows| && rows[i].0 == k)
  }

  /** What a release by order is meant to achieve, in one go. */
  function Freed(l: Ledger, o: string): Ledger {
    Ledger(map p | p in l.stocks :: FreedStock(l, p, o),
           map k | k in l.reservations && k.order != o :: l.reservations[k])
  }

  function FreedStock(l: Ledger, p: string, o: string): Stock
    requires p in l.stocks
  {
    var q := Get(l.reservations, Key(p, o));
    Stock(l.stocks[p].available + q, l.stocks[p].reserved - q, l.stocks[p].total)
  }

  // ----- the invariant that ties the two tables -----

  function OfProduct(reservations: map<Key, int>, p: string): map<Key, int> {
    map k | k in reservations && k.product == p :: reservations[k]
  }

  ghost predicate StockBalanced(l: Ledger, p: string)
    requires p in l.stocks
  {
    var s := l.stocks[p];
    && 0 <= s.available
    && 0 <= s.reserved
    && s.available + s.reserved == s.total
    && IsInt64(s.total)
    && s.reserved == Sum(OfProduct(l.reservations, p))
  }

  ghost predicate Balanced(l: Ledger) {
    && (forall p | p in l.stocks :: StockBalanced(l, p))
    && (forall k | k in l.reservations :: k.product in l.stocks && l.reservations[k] > 0)
  }

  lemma HeldWithinReserved(l: Ledger, k: Key)
    requires Balanced(l)
    ensures k in l.reservations ==> k.product in l.stocks
    ensures k.product in l.stocks ==> 0 <= Get(l.reservations, k) <= l.stocks[k.product].reserved
  {
    if k.product in l.stocks {
      var m := OfProduct(l.reservations, k.product);
      assert StockBalanced(l, k.product);
      SumBounds(m, k);
    }
  }

  /** Changing one reservation row moves the sum of its product only. */
  lemma SumAfterSet(reservations: map<Key, int>, k: Key, v: int, p: string)
    ensures Sum(OfProduct(reservations[k := v], p))
         == Sum(OfProduct(reservations, p)) + if k.product == p then v - Get(reservations, k) else 0
  {
    var m := OfProduct(reservations, p);
    if k.product == p {
      assert OfProduct(reservations[k := v], p) == m[k := v];
      SumUpdate(m, k, v);
    } else {
      assert OfProduct(reservations[k := v], p) == m;
    }
  }

  lemma SumAfterDelete(reservations: map<Key, int>, k: Key, p: string)
    ensures Sum(OfProduct(reservations - {k}, p))
         == Sum(OfProduct(reservations, p)) - if k.product == p then Get(reservations, k) else 0
  {
    var m := OfProduct(reservations, p);
    if k.product == p {
      assert OfProduct(reservations - {k}, p) == m - {k};
      SumUpdate(m, k, 0);
    } else {
      assert OfProduct(reservations - {k}, p) == m;
    }
  }

  // ----- reserve and release -----

  /** On a balanced ledger a reservation succeeds exactly when the request is well formed and the stock is there;
      the BIGINT sums of the stock update and of the upsert never leave their range. */
  lemma ReserveOutcome(l: Ledger, p: string, o: string, q: int)
    requires Balanced(l)
    ensures Reserve(l, p, o, q).Ok? <==> !BadRequest(p, o, q) && p in l.stocks && q <= l.stocks[p].available
    ensures Reserve(l, p, o, q) != Err(OutOfRange)
    ensures Reserve(l, p, o, q).Ok? ==> Balanced(Reserve(l, p, o, q).value)
  {
    hide Sum, OfProduct, Blank;
    var k := Key(p, o);
    HeldWithinReserved(l, k);
    if p in l.stocks {
      assert StockBalanced(l, p);
    }
    if Reserve(l, p, o, q).Ok? {
      var l' := Reserve(l, p, o, q).value;
      forall p' | p' in l'.stocks ensures StockBalanced(l', p') {
        assert StockBalanced(l, p');
        SumAfterSet(l.reservations, k, l'.reservations[k], p');
      }
    }
  }

  /** On a balanced ledger a release succeeds exactly when the order holds that much of the product. */
  lemma ReleaseOutcome(l: Ledger, p: string, o: string, q: int)
    requires Balanced(l)
    ensures Release(l, p, o, q).Ok? <==> !BadRequest(p, o, q) && q <= Get(l.reservations, Key(p, o))
    ensures Release(l, p, o, q).Err? ==> Release(l, p, o, q).error !in {NoRows, OutOfRange}
    ensures Release(l, p, o, q).Ok? ==> Balanced(Release(l, p, o, q).value)
  {
    hide Sum, OfProduct, Blank;
    var k := Key(p, o);
    HeldWithinReserved(l, k);
    if p in l.stocks {
      assert StockBalanced(l, p);
    }
    if Release(l, p, o, q).Ok? {
      var l' := Release(l, p, o, q).value;
      forall p' | p' in l'.stocks ensures StockBalanced(l', p') {
        assert StockBalanced(l, p');
        if k in l'.reservations {
          SumAfterSet(l.reservations, k, l'.reservations[k], p');
        } else {
          SumAfterDelete(l.reservations, k, p');
        }
      }
    }
  }

  /** `q` of the product has moved from the available stock to the order's reservation, or back, and nothing else. */
  ghost predicate Moves(l: Ledger, l': Ledger, p: string, o: string, q: int) {
    && p in l.stocks
    && l'.stocks == l.stocks[p := Stock(l.stocks[p].available - q, l.stocks[p].reserved + q, l.stocks[p].total)]
    && forall k :: Get(l'.reservations, k) == Get(l.reservations, k) + if k == Key(p, o) then q else 0
  }

  /** What a reservation does, or which error it returns. */
  lemma ReserveEffect(l: Ledger, p: string, o: string, q: int)
    requires Balanced(l)
    ensures var r := Reserve(l, p, o, q);
            && (r == Err(InvalidStock) <==> Trim(o) == "" || Trim(p) == "" || q <= 0)
            && (r == Err(StockNotFound) <==> r != Err(InvalidStock) && p !in l.stocks)
            && (r == Err(InsufficientStock) <==> r != Err(InvalidStock) && p in l.stocks && l.stocks[p].available < q)
            && (r.Ok? ==> Moves(l, r.value, p, o, q))
            && (r.Err? ==> r.error in {InvalidStock, StockNotFound, InsufficientStock})
  {
    hide Balanced, Trim, IsInt64;
    ReserveOutcome(l, p, o, q);
  }

  /** The same of a release. */
  lemma ReleaseEffect(l: Ledger, p: string, o: string, q: int)
    requires Balanced(l)
    ensures var r := Release(l, p, o, q);
            && (r == Err(InvalidStock) <==> Trim(o) == "" || Trim(p) == "" || q <= 0)
            && (r == Err(StockNotFound) <==> r != Err(InvalidStock) && p !in l.stocks)
            && (r == Err(ReservationNotFound) <==>
                r != Err(InvalidStock) && p in l.stocks && Get(l.reservations, Key(p, o)) < q)
            && (r.Ok? ==> Moves(l, r.value, p, o, -q))
            && (r.Err? ==> r.error in {InvalidStock, StockNotFound, ReservationNotFound})
  {
    hide Balanced, Trim, IsInt64;
    ReleaseOutcome(l, p, o, q);
  }

  /** Releasing what was just reserved gives back the very same ledger, whether or not the order held some before. */
  lemma ReleaseUndoesReserve(l: Ledger, p: string, o: string, q: int)
    requires Balanced(l)
    requires Reserve(l, p, o, q).Ok?
    ensures Release(Reserve(l, p, o, q).value, p, o, q) == Ok(l)
  {
    hide Sum, OfProduct, Blank;
    var k := Key(p, o);
    var l' := Reserve(l, p, o, q).value;
    assert StockBalanced(l, p);
    HeldWithinReserved(l, k);
    assert l'.stocks[p := l.stocks[p]] == l.stocks;
    if k in l.reservations {
      assert l'.reservations[k := l.reservations[k]] == l.reservations;
    } else {
      assert l'.reservations - {k} == l.reservations;
    }
  }

  // ----- release by order -----

  lemma SumAfterFree(l: Ledger, p: string, o: string)
    ensures Sum(OfProduct(Freed(l, o).reservations, p)) ==
            Sum(OfProduct(l.reservations, p)) - Get(l.reservations, Key(p, o))
  {
    assert OfProduct(Freed(l, o).reservations, p) == OfProduct(l.reservations - {Key(p, o)}, p);
    SumAfterDelete(l.reservations, Key(p, o), p);
  }

  lemma FreedIsBalanced(l: Ledger, o: string)
    requires Balanced(l)
    ensures Balanced(Freed(l, o))
  {
    forall p | p in l.stocks ensures StockBalanced(Freed(l, o), p) {
      assert StockBalanced(l, p);
      HeldWithinReserved(l, Key(p, o));
      SumAfterFree(l, p, o);
    }
  }

  /** Every product has got back what the order held of it; the order's rows are gone and all others stand. */
  ghost predicate GivenBack(l: Ledger, l': Ledger, o: string) {
    && l'.stocks.Keys == l.stocks.Keys
    && (forall p | p in l.stocks :: p in l'.stocks
          && l'.stocks[p].available == l.stocks[p].available + Get(l.reservations, Key(p, o))
          && l'.stocks[p].reserved == l.stocks[p].reserved - Get(l.reservations, Key(p, o))
          && l'.stocks[p].total == l.stocks[p].total)
    && (forall k :: k in l'.reservations <==> k in l.reservations && k.order != o)
    && (forall k | k in l'.reservations && k in l.reservations :: l'.reservations[k] == l.reservations[k])
  }

  lemma FreedGivesBack(l: Ledger, o: string)
    ensures GivenBack(l, Freed(l, o), o)
  {
  }

  /** Releasing an order twice is the same as releasing it once. */
  lemma FreedTwice(l: Ledger, o: string)
    requires Balanced(l)
    ensures Balanced(Freed(l, o)) && Freed(Freed(l, o), o) == Freed(l, o)
  {
    hide Balanced, Freed;
    FreedIsBalanced(l, o);
    FreedAgain(l, o);
  }

  lemma FreedAgain(l: Ledger, o: string)
    ensures Freed(Freed(l, o), o) == Freed(l, o)
  {
    var l' := Freed(l, o);
    forall p | p in l'.stocks ensures FreedStock(l', p, o) == l'.stocks[p] {
      assert Key(p, o) !in l'.reservations;
    }
    assert Freed(l', o).stocks == l'.stocks;
    assert Freed(l', o).reservations == l'.reservations;
  }

  /** One row of a listing: it is released without error, and leaves the same release still to be done. */
  lemma ReleaseRowStep(l: Ledger, rows: seq<(Key, int)>, o: string)
    requires Balanced(l) && IsListing(rows, l, o) && rows != []
    ensures ReleaseRow(l, rows[0].0, rows[0].1).Ok?
    ensures var l' := ReleaseRow(l, rows[0].0, rows[0].1).value;
            Balanced(l') && IsListing(rows[1..], l', o) && Freed(l', o) == Freed(l, o)
  {
    hide Sum, OfProduct, Freed;
    var (k, q) := rows[0];
    HeldWithinReserved(l, k);
    assert StockBalanced(l, k.product);
    var l' := ReleaseRow(l, k, q).value;
    forall p | p in l'.stocks ensures StockBalanced(l', p) {
      assert StockBalanced(l, p);
      SumAfterDelete(l.reservations, k, p);
    }
    ListingTail(l, rows, o, l');
    FreedAfterRow(l, k, q, l');
  }

  lemma ListingTail(l: Ledger, rows: seq<(Key, int)>, o: string, l': Ledger)
    requires IsListing(rows, l, o) && rows != []
    requires l'.reservations == l.reservations - {rows[0].0}
    ensures IsListing(rows[1..], l', o)
  {
    var tail := rows[1..];
    forall k | k in l'.reservations && k.order == o ensures exists i :: 0 <= i < |tail| && tail[i].0 == k {
      var i :| 0 <= i < |rows| && rows[i].0 == k;
      assert tail[i - 1].0 == k;
    }
  }

  lemma FreedAfterRow(l: Ledger, k: Key, q: int, l': Ledger)
    requires k in l.reservations && q == l.reservations[k]
    requires ReleaseRow(l, k, q) == Ok(l')
    ensures Freed(l', k.order) == Freed(l, k.order)
  {
    forall p | p in l.stocks ensures FreedStock(l', p, k.order) == FreedStock(l, p, k.order) {
      assert p != k.product ==> Get(l'.reservations, Key(p, k.order)) == Get(l.reservations, Key(p, k.order));
    }
    assert Freed(l', k.order).stocks == Freed(l, k.order).stocks;
    assert Freed(l', k.order).reservations == Freed(l, k.order).reservations;
  }

  /** A release by order never meets an error, whatever order the rows are listed in, and has the intended effect. */
  lemma {:induction false} ReleaseRowsFrees(l: Ledger, rows: seq<(Key, int)>, o: string)
    requires Balanced(l) && IsListing(rows, l, o)
    ensures ReleaseRows(l, rows) == Ok(Freed(l, o))
    decreases |rows|
  {
    if rows == [] {
      forall p | p in l.stocks ensures FreedStock(l, p, o) == l.stocks[p] {
        assert StockBalanced(l, p);
        assert Key(p, o) !in l.reservations;
      }
      assert Freed(l, o).stocks == l.stocks;
      assert Freed(l, o).reservations == l.reservations;
    } else {
      ReleaseRowStep(l, rows, o);
      ReleaseRowsFrees(ReleaseRow(l, rows[0].0, rows[0].1).value, rows[1..], o);
    }
  }

  lemma ReleaseRowsStep(l: Ledger, rows: seq<(Key, int)>, i: nat)
    requires i < |rows|
    ensures var r := ReleaseRow(l, rows[i].0, rows[i].1);
            ReleaseRows(l, rows[i..]) == if r.Ok? then ReleaseRows(r.value, rows[i + 1..]) else r
  {
    assert rows[i..][1..] == rows[i + 1..];
  }

  // ----- any sequence of transactions -----

  datatype Op =
    | ReserveOp(product: string, order: string, quantity: int)
    | ReleaseOp(product: string, order: string, quantity: int)
    | FreeOp(order: string)

  /** One call; a failed call changes nothing. */
  function Perform(l: Ledger, op: Op): Ledger {
    match op
    case ReserveOp(p, o, q) => if Reserve(l, p, o, q).Ok? then Reserve(l, p, o, q).value else l
    case ReleaseOp(p, o, q) => if Release(l, p, o, q).Ok? then Release(l, p, o, q).value else l
    case FreeOp(o) => if Blank(o) then l else Freed(l, Trim(o))
  }

  function PerformAll(l: Ledger, ops: seq<Op>): Ledger
    decreases |ops|
  {
    if ops == [] then l else PerformAll(Perform(l, ops[0]), ops[1..])
  }

  ghost predicate SameTotals(l: Ledger, l': Ledger) {
    && l'.stocks.Keys == l.stocks.Keys
    && forall p | p in l.stocks :: l'.stocks[p].total == l.stocks[p].total
  }

  lemma PerformBalanced(l: Ledger, op: Op)
    requires Balanced(l)
    ensures Balanced(Perform(l, op)) && SameTotals(l, Perform(l, op))
  {
    hide Balanced, BadRequest, Trim, IsInt64;
    match op
    case ReserveOp(p, o, q) => ReserveOutcome(l, p, o, q);
    case ReleaseOp(p, o, q) => ReleaseOutcome(l, p, o, q);
    case FreeOp(o) => FreedIsBalanced(l, Trim(o));
  }

  /** Every ledger reached by reserves, releases and releases by order is balanced, and totals never move. */
  lemma {:induction false} PerformAllBalanced(l: Ledger, ops: seq<Op>)
    requires Balanced(l)
    ensures Balanced(PerformAll(l, ops)) && SameTotals(l, PerformAll(l, ops))
    decreases |ops|
  {
    if ops != [] {
      PerformBalanced(l, ops[0]);
      PerformAllBalanced(Perform(l, ops[0]), ops[1..]);
    }
  }

  /** The order a transaction names. */
  function OrderOf(op: Op): string {
    if op.FreeOp? then Trim(op.order) else op.order
  }

  /** A transaction never touches a reservation of an order it does not name. */
  lemma OtherOrdersUntouched(l: Ledger, op: Op, k: Key)
    requires k.order != OrderOf(op)
    ensures k in Perform(l, op).reservations <==> k in l.reservations
    ensures Get(Perform(l, op).reservations, k) == Get(l.reservations, k)
  {
    hide IsInt64, BadRequest, Blank, Trim, FreedStock;
  }
}
