/**
 The two consumers of the inventory service: order.created reserves every line of an order or
 none, order.cancelled gives everything back. Between any two of a handler's transactions other
 orders' transactions may run; they are a parameter.
 */
module InventoryConsumers {
  import opened Wrappers
  import opened Integers
  import opened Text
  import opened Domain
  import opened InventoryLedger
  import opened InventoryStore
  import opened Sums
  import opened Sequences

  // ----- one order's reservations, and everybody else's -----

  function Own(l: Ledger, o: string): map<Key, int> {
    map k | k in l.reservations && k.order == o :: l.reservations[k]
  }

  function Foreign(l: Ledger, o: string): map<Key, int> {
    map k | k in l.reservations && k.order != o :: l.reservations[k]
  }

  /** What a committed transaction does to a table of reservations. */
  function Effect(reservations: map<Key, int>, op: Op): map<Key, int> {
    match op
    case ReserveOp(p, o, q) => reservations[Key(p, o) := Get(reservations, Key(p, o)) + q]
    case ReleaseOp(p, o, q) =>
      var k := Key(p, o);
      if Get(reservations, k) == q then reservations - {k} else reservations[k := Get(reservations, k) - q]
    case FreeOp(o) => map k | k in reservations && k.order != Trim(o) :: reservations[k]
  }

  function EffectAll(reservations: map<Key, int>, ops: seq<Op>): map<Key, int> {
    if ops == [] then reservations else Effect(EffectAll(reservations, ops[..|ops| - 1]), ops[|ops| - 1])
  }

  predicate Commits(l: Ledger, op: Op) {
    match op
    case ReserveOp(p, o, q) => Reserve(l, p, o, q).Ok?
    case ReleaseOp(p, o, q) => Release(l, p, o, q).Ok?
    case FreeOp(o) => !Blank(o)
  }

  /** The operations of a stretch that committed, in order. */
  function Committed(l: Ledger, ops: seq<Op>): seq<Op>
    decreases |ops|
  {
    if ops == [] then []
    else (if Commits(l, ops[0]) then [ops[0]] else []) + Committed(Perform(l, ops[0]), ops[1..])
  }

  ghost predicate ForeignOps(ops: seq<Op>, o: string) {
    forall op | op in ops :: OrderOf(op) != o
  }

  lemma PerformKeepsOwn(l: Ledger, op: Op, o: string)
    requires OrderOf(op) != o
    ensures Own(Perform(l, op), o) == Own(l, o)
  {
    var l' := Perform(l, op);
    forall k: Key | k.order == o
      ensures k in l'.reservations <==> k in l.reservations
      ensures k in l.reservations ==> l'.reservations[k] == l.reservations[k]
    {
      OtherOrdersUntouched(l, op, k);
    }
  }

  lemma ReserveForeign(l: Ledger, p: string, o': string, q: int, o: string)
    requires o' != o && Reserve(l, p, o', q).Ok?
    ensures Foreign(Reserve(l, p, o', q).value, o) == Effect(Foreign(l, o), ReserveOp(p, o', q))
  {
  }

  lemma ReleaseForeign(l: Ledger, p: string, o': string, q: int, o: string)
    requires o' != o && Release(l, p, o', q).Ok?
    ensures Foreign(Release(l, p, o', q).value, o) == Effect(Foreign(l, o), ReleaseOp(p, o', q))
  {
    assert Get(Foreign(l, o), Key(p, o')) == l.reservations[Key(p, o')];
  }

  lemma PerformForeign(l: Ledger, op: Op, o: string)
    requires OrderOf(op) != o
    ensures Foreign(Perform(l, op), o) == if Commits(l, op) then Effect(Foreign(l, o), op) else Foreign(l, o)
  {
    if Commits(l, op) {
      match op
      case ReserveOp(p, o', q) => ReserveForeign(l, p, o', q, o);
      case ReleaseOp(p, o', q) => ReleaseForeign(l, p, o', q, o);
      case FreeOp(o') =>
    }
  }

  lemma {:induction false} EffectAllConcat(reservations: map<Key, int>, a: seq<Op>, b: seq<Op>)
    ensures EffectAll(reservations, a + b) == EffectAll(EffectAll(reservations, a), b)
    decreases |b|
  {
    if b == [] {
      assert a + b == a;
    } else {
      var n := |b| - 1;
      assert (a + b)[..|a + b| - 1] == a + b[..n];
      EffectAllConcat(reservations, a, b[..n]);
    }
  }

  /** A stretch of other orders' transactions: this order's rows stand still, and the other rows are exactly what
      the committed transactions among them made them. */
  lemma {:induction false} PerformAllForeign(l: Ledger, ops: seq<Op>, o: string)
    requires ForeignOps(ops, o)
    ensures Own(PerformAll(l, ops), o) == Own(l, o)
    ensures Foreign(PerformAll(l, ops), o) == EffectAll(Foreign(l, o), Committed(l, ops))
    decreases |ops|
  {
    if ops != [] {
      var l' := Perform(l, ops[0]);
      PerformKeepsOwn(l, ops[0], o);
      PerformForeign(l, ops[0], o);
      PerformAllForeign(l', ops[1..], o);
      var first := if Commits(l, ops[0]) then [ops[0]] else [];
      EffectAllConcat(Foreign(l, o), first, Committed(l', ops[1..]));
      assert EffectAll(Foreign(l, o), first) == Foreign(l', o) by {
        assert [ops[0]][..0] == [];
      }
    }
  }

  // ----- what a handler holds -----

  /** The order holds `base` plus the quantities of `items`, product by product. */
  ghost predicate Holds(l: Ledger, base: Ledger, o: string, items: seq<ReservationItem>) {
    forall p :: Get(l.reservations, Key(p, o)) == Get(base.reservations, Key(p, o)) + Quantity(items, p)
  }

  lemma HoldsNothingMore(l: Ledger, base: Ledger, o: string)
    requires Balanced(l) && Balanced(base) && Holds(l, base, o, [])
    ensures Own(l, o) == Own(base, o)
  {
    forall k: Key | k.order == o ensures Get(l.reservations, k) == Get(base.reservations, k) {
      assert Quantity([], k.product) == 0;
      assert k == Key(k.product, o);
    }
  }

  /** Where a handler stands: it started on `base`, holds `items` on top of it, and the other orders' transactions
      that took effect meanwhile are `committed`. */
  ghost predicate Standing(l: Ledger, base: Ledger, o: string, items: seq<ReservationItem>, committed: seq<Op>) {
    && Balanced(l)
    && Holds(l, base, o, items)
    && Foreign(l, o) == EffectAll(Foreign(base, o), committed)
  }

  lemma StandingParts(l: Ledger, base: Ledger, o: string, items: seq<ReservationItem>, committed: seq<Op>)
    requires Standing(l, base, o, items, committed)
    ensures Balanced(l) && Holds(l, base, o, items)
  {
    hide Balanced, Holds, Foreign;
  }

  lemma StandingBalanced(l: Ledger, base: Ledger, o: string, items: seq<ReservationItem>, committed: seq<Op>)
    requires Standing(l, base, o, items, committed)
    ensures Balanced(l)
  {
    hide Balanced, Holds, Foreign;
  }

  lemma StandingStart(base: Ledger, o: string)
    requires Balanced(base)
    ensures Standing(base, base, o, [], [])
  {
    assert forall p :: Quantity([], p) == 0;
  }

  /** Holding nothing more than at the start means the order's rows are back to what they were. */
  lemma StandingRestored(l: Ledger, base: Ledger, o: string, committed: seq<Op>)
    requires Balanced(base) && Standing(l, base, o, [], committed)
    ensures Own(l, o) == Own(base, o)
  {
    hide Balanced, Holds, Own;
    HoldsNothingMore(l, base, o);
  }

  lemma StandingInterleaved(l: Ledger, base: Ledger, o: string, items: seq<ReservationItem>, committed: seq<Op>,
                            ops: seq<Op>)
    requires Standing(l, base, o, items, committed) && ForeignOps(ops, o)
    ensures Standing(PerformAll(l, ops), base, o, items, committed + Committed(l, ops))
  {
    var l' := PerformAll(l, ops);
    PerformAllBalanced(l, ops);
    PerformAllForeign(l, ops, o);
    EffectAllConcat(Foreign(base, o), committed, Committed(l, ops));
    forall p ensures Get(l'.reservations, Key(p, o)) == Get(l.reservations, Key(p, o)) {
      assert Key(p, o) in Own(l', o) <==> Key(p, o) in Own(l, o);
    }
  }

  lemma OwnOpKeepsForeign(l: Ledger, op: Op)
    requires !op.FreeOp?
    ensures Foreign(Perform(l, op), op.order) == Foreign(l, op.order)
  {
  }

  lemma HoldsMore(l: Ledger, base: Ledger, o: string, items: seq<ReservationItem>, item: ReservationItem)
    requires Holds(l, base, o, items)
    requires Reserve(l, item.productID, o, item.quantity).Ok?
    ensures Holds(Reserve(l, item.productID, o, item.quantity).value, base, o, items + [item])
  {
    assert (items + [item])[..|items|] == items;
  }

  lemma HoldsLess(l: Ledger, base: Ledger, o: string, items: seq<ReservationItem>, item: ReservationItem)
    requires Holds(l, base, o, items + [item])
    requires Release(l, item.productID, o, item.quantity).Ok?
    ensures Holds(Release(l, item.productID, o, item.quantity).value, base, o, items)
  {
    assert (items + [item])[..|items|] == items;
  }

  lemma StandingReserved(l: Ledger, base: Ledger, o: string, items: seq<ReservationItem>, item: ReservationItem,
                         committed: seq<Op>)
    requires Standing(l, base, o, items, committed)
    requires Reserve(l, item.productID, o, item.quantity).Ok?
    ensures Standing(Reserve(l, item.productID, o, item.quantity).value, base, o, items + [item], committed)
  {
    ReserveOutcome(l, item.productID, o, item.quantity);
    HoldsMore(l, base, o, items, item);
    OwnOpKeepsForeign(l, ReserveOp(item.productID, o, item.quantity));
  }

  lemma HeldCovers(l: Ledger, base: Ledger, o: string, items: seq<ReservationItem>, item: ReservationItem)
    requires Holds(l, base, o, items + [item]) && AllPositive(items) && Balanced(base)
    ensures Get(l.reservations, Key(item.productID, o)) >= item.quantity
  {
    var p := item.productID;
    assert (items + [item])[..|items|] == items;
    QuantityNonNegative(items, p);
    HeldWithinReserved(base, Key(p, o));
    assert Get(l.reservations, Key(p, o)) == Get(base.reservations, Key(p, o)) + Quantity(items + [item], p);
  }

  /** The rollback of a reserved item always finds enough held to release. */
  lemma StandingReleased(l: Ledger, base: Ledger, o: string, items: seq<ReservationItem>, item: ReservationItem,
                         committed: seq<Op>)
    requires Standing(l, base, o, items + [item], committed) && Balanced(base)
    requires AllPositive(items) && item.quantity > 0 && !Blank(item.productID) && !Blank(o)
    ensures Release(l, item.productID, o, item.quantity).Ok?
    ensures Standing(Release(l, item.productID, o, item.quantity).value, base, o, items, committed)
  {
    HeldCovers(l, base, o, items, item);
    ReleaseOutcome(l, item.productID, o, item.quantity);
    HoldsLess(l, base, o, items, item);
    OwnOpKeepsForeign(l, ReleaseOp(item.productID, o, item.quantity));
  }

  lemma AllPositiveGrows(items: seq<ReservationItem>, i: nat)
    requires i < |items| && AllPositive(items[..i])
    requires items[i].quantity > 0 && !Blank(items[i].productID)
    ensures items[..i] + [items[i]] == items[..i + 1]
    ensures AllPositive(items[..i + 1])
  {
    forall j | 0 <= j < i + 1 ensures items[j].quantity > 0 && !Blank(items[j].productID) {
      assert j < i ==> items[..i][j] == items[j];
    }
  }

  // ----- when an undisturbed handler succeeds -----

  /** The reservations of a handler that nothing interrupts. */
  function ReserveItems(l: Ledger, o: string, items: seq<ReservationItem>): Outcome
    decreases |items|
  {
    if items == [] then Ok(l)
    else
      match Reserve(l, items[0].productID, o, items[0].quantity)
      case Err(e) => Err(e)
      case Ok(l') => ReserveItems(l', o, items[1..])
  }

  /** Every line is well formed and, counting repeated products together, the stock covers the order. */
  ghost predicate Affordable(l: Ledger, o: string, items: seq<ReservationItem>) {
    && (items != [] ==> !Blank(o))
    && AllPositive(items)
    && (forall i | 0 <= i < |items| :: items[i].productID in l.stocks)
    && (forall p | p in l.stocks :: Quantity(items, p) <= l.stocks[p].available)
  }

  lemma {:induction false} QuantityHead(items: seq<ReservationItem>, p: string)
    requires items != []
    ensures Quantity(items, p) == Quantity(items[1..], p) + if items[0].productID == p then items[0].quantity else 0
    decreases |items|
  {
    var n := |items| - 1;
    if n == 0 {
      assert items[..0] == [] && items[1..] == [];
    } else {
      assert items[1..][..n - 1] == items[..n][1..];
      QuantityHead(items[..n], p);
    }
  }

  lemma AffordableHead(l: Ledger, o: string, items: seq<ReservationItem>)
    requires Affordable(l, o, items) && items != []
    ensures items[0].quantity <= l.stocks[items[0].productID].available
    ensures Reserve(l, items[0].productID, o, items[0].quantity).Ok?
            ==> Affordable(Reserve(l, items[0].productID, o, items[0].quantity).value, o, items[1..])
  {
    hide Quantity, Blank, IsInt64;
    var tail := items[1..];
    QuantityNonNegative(tail, items[0].productID);
    forall p
      ensures Quantity(items, p) == Quantity(tail, p) + if items[0].productID == p then items[0].quantity else 0
    {
      QuantityHead(items, p);
    }
    assert Quantity(items, items[0].productID) <= l.stocks[items[0].productID].available;
  }

  lemma AffordableCons(l: Ledger, o: string, items: seq<ReservationItem>)
    requires items != [] && Reserve(l, items[0].productID, o, items[0].quantity).Ok?
    requires Affordable(Reserve(l, items[0].productID, o, items[0].quantity).value, o, items[1..])
    ensures Affordable(l, o, items)
  {
    var tail := items[1..];
    var l' := Reserve(l, items[0].productID, o, items[0].quantity).value;
    forall i | 0 <= i < |items|
      ensures items[i].quantity > 0 && !Blank(items[i].productID) && items[i].productID in l.stocks
    {
      if i > 0 {
        assert tail[i - 1] == items[i];
      }
    }
    forall p | p in l.stocks ensures Quantity(items, p) <= l.stocks[p].available {
      QuantityHead(items, p);
      assert Quantity(tail, p) <= l'.stocks[p].available;
    }
  }

  /** An undisturbed handler reserves the order exactly when the stock covers it, repeated products added up. */
  lemma {:induction false} ReserveItemsOutcome(l: Ledger, o: string, items: seq<ReservationItem>)
    requires Balanced(l)
    ensures ReserveItems(l, o, items).Ok? <==> Affordable(l, o, items)
    decreases |items|
  {
    if items == [] {
      forall p | p in l.stocks ensures Quantity([], p) <= l.stocks[p].available {
        assert StockBalanced(l, p);
      }
    } else {
      var (p, q) := (items[0].productID, items[0].quantity);
      ReserveOutcome(l, p, o, q);
      if Affordable(l, o, items) {
        AffordableHead(l, o, items);
      }
      if Reserve(l, p, o, q).Ok? {
        ReserveItemsOutcome(Reserve(l, p, o, q).value, o, items[1..]);
        if Affordable(Reserve(l, p, o, q).value, o, items[1..]) {
          AffordableCons(l, o, items);
        }
      }
    }
  }

  lemma ReserveItemsStep(l: Ledger, o: string, items: seq<ReservationItem>, i: nat)
    requires i < |items|
    ensures var r := Reserve(l, items[i].productID, o, items[i].quantity);
            ReserveItems(l, o, items[i..]) == if r.Ok? then ReserveItems(r.value, o, items[i + 1..]) else r
  {
    assert items[i..][1..] == items[i + 1..];
  }

  function ErrorOf<T>(r: Result<T, LedgerError>): Option<LedgerError> {
    match r
    case Ok(_) => None
    case Err(e) => Some(e)
  }

  class OrderCreatedConsumer {
    const repository: InventoryRepository
    var processed: set<string>
    var published: seq<Event>

    constructor (repository: InventoryRepository)
      ensures this.repository == repository && processed == {} && published == []
    {
      this.repository, processed, published := repository, {}, [];
    }

    /**
     Gives back `items` last to first. `others[i]` are the other orders' transactions that run just before item `i` is
     released, `down[i]` says that the database then fails to answer; `log` collects the transactions that took effect
     since `base`, and `left` items are still held at the end.
     */
    method ReleaseReserved(orderID: string, items: seq<ReservationItem>, others: seq<seq<Op>>, down: seq<bool>,
                           ghost base: Ledger, ghost committed: seq<Op>)
      returns (failure: Option<LedgerError>, ghost left: nat, ghost log: seq<Op>)
      requires |down| == |others| == |items| && forall i | 0 <= i < |others| :: ForeignOps(others[i], orderID)
      requires AllPositive(items) && (items != [] ==> !Blank(orderID))
      requires Balanced(base) && Standing(repository.View(), base, orderID, items, committed)
      modifies repository
      ensures left <= |items| && Standing(repository.View(), base, orderID, items[..left], log)
      ensures failure.None? <==> left == 0
      ensures failure.None? <==> forall i | 0 <= i < |items| :: !down[i]
    {
      hide Standing, Balanced, Release, Blank;
      failure, log := None, committed;
      var i := |items|;
      WholePrefix(items);
      while i > 0
        invariant 0 <= i <= |items|
        invariant forall j | i <= j < |items| :: !down[j]
        invariant Standing(repository.View(), base, orderID, items[..i], log)
        decreases i
      {
        i := i - 1;
        StandingBalanced(repository.View(), base, orderID, items[..i + 1], log);
        StandingInterleaved(repository.View(), base, orderID, items[..i + 1], log, others[i]);
        log := log + Committed(repository.View(), others[i]);
        repository.Interleave(others[i]);
        if down[i] {
          return Some(Unavailable), i + 1, log;
        }
        PrefixGrows(items, i);
        StandingReleased(repository.View(), base, orderID, items[..i], items[i], log);
        var r := repository.ReleaseStock(items[i].productID, orderID, items[i].quantity);
        assert r.Ok?;
      }
      left := 0;
    }

    /** One line, after a stretch of other orders' transactions; `down` says that the database fails to answer. */
    method ReserveLine(orderID: string, item: ReservationItem, ops: seq<Op>, down: bool, ghost base: Ledger,
                       ghost reserved: seq<ReservationItem>, ghost committed: seq<Op>)
      returns (failure: Option<LedgerError>, ghost log: seq<Op>)
      requires ForeignOps(ops, orderID) && Standing(repository.View(), base, orderID, reserved, committed)
      modifies repository
      ensures Standing(repository.View(), base, orderID, if failure.None? then reserved + [item] else reserved, log)
      ensures failure.None? ==> item.quantity > 0 && !Blank(item.productID) && !Blank(orderID)
      ensures var r := Reserve(PerformAll(old(repository.View()), ops), item.productID, orderID, item.quantity);
              if down then failure == Some(Unavailable)
              else failure == ErrorOf(r) && (r.Ok? ==> repository.View() == r.value)
    {
      StandingInterleaved(repository.View(), base, orderID, reserved, committed, ops);
      log := committed + Committed(repository.View(), ops);
      repository.Interleave(ops);
      if down {
        return Some(Unavailable), log;
      }
      ghost var before := repository.View();
      var r := repository.ReserveStock(item.productID, orderID, item.quantity);
      failure := ErrorOf(r);
      if failure.None? {
        StandingReserved(before, base, orderID, reserved, item, log);
      }
    }

    /**
     All lines or none. `others[i]` runs before line `i` is reserved, `undoOthers` during the rollback; `down` and
     `undoDown` say where the database fails to answer. `held` is what the order holds at the end on top of what it held
     before: only a failed rollback leaves a part of the lines. On a failure `failedAt` is the line that could not be
     reserved, and `seen` the ledger it met.
     */
    method ReserveAll(orderID: string, items: seq<ReservationItem>, others: seq<seq<Op>>, undoOthers: seq<seq<Op>>,
                      down: seq<bool>, undoDown: seq<bool>)
      returns (reserved: seq<ReservationItem>, failedItem: Option<ReservationItem>, failure: Option<LedgerError>,
               rollback: Option<LedgerError>, ghost held: seq<ReservationItem>, ghost committed: seq<Op>,
               ghost failedAt: nat, ghost seen: Ledger)
      requires |others| == |undoOthers| == |down| == |undoDown| == |items|
      requires forall i | 0 <= i < |others| :: ForeignOps(others[i], orderID)
      requires forall i | 0 <= i < |undoOthers| :: ForeignOps(undoOthers[i], orderID)
      requires Balanced(repository.View())
      modifies repository
      ensures Standing(repository.View(), old(repository.View()), orderID, held, committed)
      ensures failure.None? <==> failedItem.None?
      ensures failure.Some? ==>
                && failedAt < |items| && failedItem == Some(items[failedAt])
                && Balanced(seen) && Holds(seen, old(repository.View()), orderID, items[..failedAt])
                && (down[failedAt] || Reserve(seen, items[failedAt].productID, orderID, items[failedAt].quantity).Err?)
      ensures failure.None? ==> reserved == items == held && rollback.None?
      ensures failure.Some? && rollback.None? ==>
                held == [] && Own(repository.View(), orderID) == Own(old(repository.View()), orderID)
      ensures rollback.Some? ==> held < items && held != []
      ensures (forall i | 0 <= i < |undoDown| :: !undoDown[i]) ==> rollback.None?
      ensures (forall i | 0 <= i < |others| :: others[i] == [] && !down[i]) ==>
                (failure.None? <==> ReserveItems(old(repository.View()), orderID, items).Ok?)
    {
      hide Standing, Reserve, Balanced, Blank, Own;
      ghost var base := repository.View();
      StandingStart(base, orderID);
      ghost var quiet := forall i | 0 <= i < |others| :: others[i] == [] && !down[i];
      reserved, failedItem, failure, rollback, held, committed := [], None, None, None, [], [];
      failedAt, seen := 0, base;
      var i := 0;
      while i < |items|
        invariant 0 <= i <= |items|
        invariant reserved == items[..i]
        invariant AllPositive(items[..i]) && (i > 0 ==> !Blank(orderID))
        invariant Standing(repository.View(), base, orderID, reserved, committed)
        invariant quiet ==> ReserveItems(base, orderID, items) == ReserveItems(repository.View(), orderID, items[i..])
      {
        var item := items[i];
        ReserveItemsStep(repository.View(), orderID, items, i);
        StandingInterleaved(repository.View(), base, orderID, reserved, committed, others[i]);
        seen := PerformAll(repository.View(), others[i]);
        StandingParts(seen, base, orderID, reserved, committed + Committed(repository.View(), others[i]));
        var error;
        error, committed := ReserveLine(orderID, item, others[i], down[i], base, reserved, committed);
        if error.Some? {
          failure, failedItem, failedAt := error, Some(item), i;
          ghost var left;
          rollback, left, committed :=
            ReleaseReserved(orderID, reserved, undoOthers[..i], undoDown[..i], base, committed);
          held := items[..left];
          assert reserved[..left] == held;
          if rollback.None? {
            StandingRestored(repository.View(), base, orderID, committed);
          }
          reserved := [];
          return;
        }
        AllPositiveGrows(items, i);
        reserved := reserved + [item];
        i := i + 1;
      }
      WholePrefix(items);
      held := items;
    }

    /**
     One delivery of order.created. `publishOk` and `markOk` say whether the event bus and the deduplicator answer.
     `held` is what the order holds afterwards on top of what it held before, whether or not anything could be
     published: all lines, none, or a part of them when the rollback failed. The message says which, and exactly an
     answered delivery is committed. On a failure `failedAt` is the line that could not be reserved, and `seen` the
     ledger it met, in which the order held the lines before it.
     */
    method HandleMessage(eventID: string, event: Event, reason: string, others: seq<seq<Op>>, undoOthers: seq<seq<Op>>,
                         down: seq<bool>, undoDown: seq<bool>, publishOk: bool, markOk: bool)
      returns (commit: bool, ghost held: seq<ReservationItem>, ghost committed: seq<Op>, ghost failedAt: nat,
               ghost seen: Ledger)
      requires event.OrderCreated? && |others| == |undoOthers| == |down| == |undoDown| == |event.lines|
      requires forall i | 0 <= i < |others| :: ForeignOps(others[i], event.orderID)
      requires forall i | 0 <= i < |undoOthers| :: ForeignOps(undoOthers[i], event.orderID)
      requires Balanced(repository.View())
      modifies this, repository
      ensures commit <==> eventID in processed
      ensures old(processed) <= processed <= old(processed) + {eventID}
      ensures eventID in old(processed) ==> published == old(published) && repository.View() == old(repository.View())
      ensures eventID !in old(processed) ==>
                var lines := Reservations(event.lines);
                var answered := held == lines || held == [];
                && Standing(repository.View(), old(repository.View()), event.orderID, held, committed)
                && held <= lines
                && Grown(old(repository.View()), repository.View(), event.orderID, event.lines[..|held|])
                && (held != lines ==>
                      && failedAt < |event.lines|
                      && Grown(old(repository.View()), seen, event.orderID, event.lines[..failedAt])
                      && (down[failedAt] || Refused(seen, event.orderID, event.lines[failedAt])))
                && ((forall i | 0 <= i < |undoDown| :: !undoDown[i]) ==> answered)
                && (commit <==> answered && publishOk && markOk)
                && (if answered && publishOk then
                      && |published| == |old(published)| + 1 && published[..|old(published)|] == old(published)
                      && Announces(published[|old(published)|], event, reason, held == lines, failedAt)
                    else published == old(published))
                && ((forall i | 0 <= i < |others| :: others[i] == [] && !down[i]) ==>
                      (held == lines <==> Covers(old(repository.View()), event.orderID, event.lines)))
    {
      committed, held, failedAt, seen := [], [], 0, repository.View();
      if eventID in processed {
        return true, [], [], 0, seen;
      }
      hide Standing, Balanced, ForeignOps, ReserveItems, Holds, Grown, Covers, Refused, Reserve, Announces;
      ghost var base := repository.View();
      CoversIsAffordable(base, event.orderID, event.lines);
      ReserveItemsOutcome(base, event.orderID, Reservations(event.lines));
      var reserved, failedItem, failure, rollback;
      reserved, failedItem, failure, rollback, held, committed, failedAt, seen :=
        ReserveAll(event.orderID, Reservations(event.lines), others, undoOthers, down, undoDown);
      StandingParts(repository.View(), base, event.orderID, held, committed);
      assert held == Reservations(event.lines)[..|held|];
      HoldsLines(repository.View(), base, event.orderID, event.lines, |held|);
      if failure.Some? {
        HoldsLines(seen, base, event.orderID, event.lines, failedAt);
        if !down[failedAt] {
          RefusedLine(seen, event.orderID, event.lines[failedAt]);
        }
      }
      commit := false;
      if rollback.None? && publishOk {
        var message :=
          if failure.Some? then ReservationFailed(event.orderID, event.customerID, failedItem, reason)
          else InventoryReserved(event.orderID, event.customerID, event.amount, event.payment, reserved);
        AnnouncesOutcome(message, event, reason, failure.None?, failedAt);
        published := published + [message];
        if markOk {
          processed := processed + {eventID};
          commit := true;
        }
      }
    }
  }

  /** inventory.reserved exactly when all lines are held, listing them with their quantities; otherwise the failure,
      naming the line that could not be reserved. */
  predicate Announces(message: Event, event: Event, reason: string, all: bool, failedAt: nat)
    requires event.OrderCreated?
  {
    message.orderID == event.orderID && message.customerID == event.customerID
    && if all then
         && message.InventoryReserved? && message.amount == event.amount && message.payment == event.payment
         && |message.items| == |event.lines|
         && forall i | 0 <= i < |event.lines| ::
              && message.items[i].productID == event.lines[i].productID
              && message.items[i].quantity == event.lines[i].quantity
       else
         && failedAt < |event.lines|
         && message.ReservationFailed? && message.reason == reason && message.failedItem.Some?
         && message.failedItem.value.productID == event.lines[failedAt].productID
         && message.failedItem.value.quantity == event.lines[failedAt].quantity
  }

  lemma AnnouncesOutcome(message: Event, event: Event, reason: string, all: bool, failedAt: nat)
    requires event.OrderCreated? && (all || failedAt < |event.lines|)
    requires message == if all then ReservedEvent(event)
                        else ReservationFailed(event.orderID, event.customerID,
                                               Some(Reservations(event.lines)[failedAt]), reason)
    ensures Announces(message, event, reason, all, failedAt)
  {
  }

  // ----- the same in the words of the message -----

  /** For every product the order's reservation has grown by what these lines come to. */
  ghost predicate Grown(before: Ledger, after: Ledger, o: string, lines: seq<OrderCreatedItem>) {
    forall p :: Get(after.reservations, Key(p, o)) == Get(before.reservations, Key(p, o)) + Listed(lines, p)
  }

  /** The line asks for nothing that could be reserved, or for more than there is. */
  predicate Refused(l: Ledger, o: string, line: OrderCreatedItem) {
    || Trim(o) == "" || Trim(line.productID) == "" || line.quantity <= 0
    || line.productID !in l.stocks || l.stocks[line.productID].available < line.quantity
  }

  /** Every line names a product there is and a positive quantity, and for each product the stock covers the lines. */
  ghost predicate Covers(l: Ledger, o: string, lines: seq<OrderCreatedItem>) {
    && (lines != [] ==> Trim(o) != "")
    && (forall i | 0 <= i < |lines| ::
          lines[i].quantity > 0 && Trim(lines[i].productID) != "" && lines[i].productID in l.stocks)
    && (forall p | p in l.stocks :: Listed(lines, p) <= l.stocks[p].available)
  }

  lemma HoldsLines(l: Ledger, base: Ledger, o: string, lines: seq<OrderCreatedItem>, n: nat)
    requires n <= |lines| && Holds(l, base, o, Reservations(lines)[..n])
    ensures Grown(base, l, o, lines[..n])
  {
    hide Quantity, Listed;
    assert Reservations(lines)[..n] == Reservations(lines[..n]);
    forall p ensures Quantity(Reservations(lines[..n]), p) == Listed(lines[..n], p) {
      ReservationsListed(lines[..n], p);
    }
  }

  lemma RefusedLine(l: Ledger, o: string, line: OrderCreatedItem)
    requires Balanced(l) && Reserve(l, line.productID, o, line.quantity).Err?
    ensures Refused(l, o, line)
  {
    ReserveOutcome(l, line.productID, o, line.quantity);
    hide Balanced, Reserve, Trim;
  }

  lemma CoversIsAffordable(l: Ledger, o: string, lines: seq<OrderCreatedItem>)
    ensures Covers(l, o, lines) <==> Affordable(l, o, Reservations(lines))
  {
    hide Quantity, Listed, Trim;
    forall p ensures Quantity(Reservations(lines), p) == Listed(lines, p) {
      ReservationsListed(lines, p);
    }
    var items := Reservations(lines);
    assert forall i | 0 <= i < |lines| :: items[i] == ReservationItem(lines[i].productID, lines[i].quantity);
  }

  class OrderCancelledConsumer {
    const repository: InventoryRepository
    var processed: set<string>

    constructor (repository: InventoryRepository)
      ensures this.repository == repository && processed == {}
    {
      this.repository, processed := repository, {};
    }

    /** One delivery of order.cancelled. */
    method HandleMessage(eventID: string, event: Event, markOk: bool) returns (commit: bool)
      requires event.OrderCancelled?
      requires Balanced(repository.View())
      modifies this, repository
      ensures commit <==> eventID in processed
      ensures old(processed) <= processed <= old(processed) + {eventID}
      ensures repository.View() == if eventID in old(processed) then old(repository.View())
                                   else Perform(old(repository.View()), FreeOp(event.orderID))
      ensures eventID !in old(processed) ==> (commit <==> !Blank(event.orderID) && markOk)
      ensures eventID !in old(processed) && Trim(event.orderID) != "" ==>
                GivenBack(old(repository.View()), repository.View(), Trim(event.orderID))
    {
      if eventID in processed {
        return true;
      }
      FreedGivesBack(repository.View(), Trim(event.orderID));
      var failure := repository.ReleaseReservationsByOrderID(event.orderID);
      if failure.Some? || !markOk {
        return false;
      }
      processed := processed + {eventID};
      commit := true;
    }
  }

  /**
   Reservations are stored under the order id as given, but a release by order trims it first: it frees the order
   exactly when the id carries no surrounding white space (or the order held nothing).
   */
  lemma ReleaseByOrderFreesExactlyTrimmedIds(l: Ledger, o: string)
    requires !Blank(o)
    ensures Own(Perform(l, FreeOp(o)), o) == map[] <==> Trimmed(o) || Own(l, o) == map[]
  {
    TrimIsTrimmed(o);
    if !Trimmed(o) {
      PerformKeepsOwn(l, FreeOp(o), o);
    }
  }
}
