/** A customer's orders page by page: the arithmetic of pages, and when the pages make up the listing. */
module OrderListing {
  import opened Integers
  import opened Domain
  import opened OrderStore
  import opened Sorting

  /** What the listing is ordered by. */
  datatype ListKey = ListKey(createdAt: Time, id: string)

  predicate ListLess(a: ListKey, b: ListKey) {
    a.createdAt < b.createdAt || (a.createdAt == b.createdAt && TextLess(a.id, b.id))
  }

  lemma ListLessIsTotal()
    ensures TotalOrder(ListLess)
  {
    hide TextLess;
    forall a: ListKey ensures !ListLess(a, a) {
      TextIrreflexive(a.id);
    }
    forall a: ListKey, b: ListKey, c: ListKey | ListLess(a, b) && ListLess(b, c) ensures ListLess(a, c) {
      if TextLess(a.id, b.id) && TextLess(b.id, c.id) {
        TextTransitive(a.id, b.id, c.id);
      }
    }
    forall a: ListKey, b: ListKey ensures a == b || ListLess(a, b) || ListLess(b, a) {
      TextTotal(a.id, b.id);
    }
  }

  predicate Belongs(s: Store, customerID: string, k: ListKey) {
    k.id in s.orders && s.orders[k.id].customerID == customerID && k.createdAt == s.orders[k.id].createdAt
  }

  /** The whole listing: every order of the customer once, oldest first. */
  ghost predicate IsListing(all: seq<ListKey>, s: Store, customerID: string) {
    Sorted(ListLess, all) && forall k :: k in all <==> Belongs(s, customerID, k)
  }

  lemma OneListing(a: seq<ListKey>, b: seq<ListKey>, s: Store, customerID: string)
    requires IsListing(a, s, customerID) && IsListing(b, s, customerID)
    ensures a == b
  {
    hide ListLess;
    ListLessIsTotal();
    SortedIsUnique(ListLess, a, b);
  }

  /** Every order of the customer is listed exactly once, with the time it was created at, oldest first; equal times go
      by id. */
  lemma ListingIs(all: seq<ListKey>, s: Store, customerID: string)
    requires IsListing(all, s, customerID)
    ensures forall i | 0 <= i < |all| ::
              && all[i].id in s.orders && s.orders[all[i].id].customerID == customerID
              && all[i].createdAt == s.orders[all[i].id].createdAt
    ensures forall id | id in s.orders && s.orders[id].customerID == customerID ::
              exists i | 0 <= i < |all| :: all[i].id == id
    ensures forall i, j | 0 <= i < j < |all| ::
              && all[i].id != all[j].id
              && (all[i].createdAt < all[j].createdAt
                  || (all[i].createdAt == all[j].createdAt && TextLess(all[i].id, all[j].id)))
  {
    hide TextLess;
    ListLessIsTotal();
    forall i | 0 <= i < |all|
      ensures all[i].id in s.orders && s.orders[all[i].id].customerID == customerID
      ensures all[i].createdAt == s.orders[all[i].id].createdAt
    {
      assert all[i] in all;
    }
    forall id | id in s.orders && s.orders[id].customerID == customerID
      ensures exists i | 0 <= i < |all| :: all[i].id == id
    {
      assert Belongs(s, customerID, ListKey(s.orders[id].createdAt, id));
      var i :| 0 <= i < |all| && all[i] == ListKey(s.orders[id].createdAt, id);
      assert all[i].id == id;
    }
    forall i, j | 0 <= i < j < |all| ensures all[i].id != all[j].id {
      assert ListLess(all[i], all[j]);
    }
  }

  // ----- pages -----

  /** LIMIT and OFFSET. */
  function Window<T>(all: seq<T>, limit: int32, offset: int32): seq<T>
    requires limit >= 0 && offset >= 0
  {
    var from := if offset < |all| then offset else |all|;
    var to := if from + limit < |all| then from + limit else |all|;
    all[from..to]
  }

  /** How many rows `n` pages of this size hold; nonlinear, so proofs go by `RoomGrows`. */
  function Room(n: int, size: int): int {
    n * size
  }

  lemma RoomGrows(n: int, size: int)
    ensures Room(n + 1, size) == Room(n, size) + size
    ensures Room(0, size) == 0 && Room(1, size) == size
    ensures n >= 0 && size >= 0 ==> Room(n, size) >= 0
  {
  }

  lemma RoomFits(n: int, size: int)
    requires 0 <= n <= MAX_INT32 && 0 <= size <= MAX_INT32
    ensures 0 <= Room(n, size) <= MAX_INT64
  {
    MulMonotone(n, MAX_INT32, size);
  }

  /** The window a request for a page asks the database for. */
  function Page<T>(all: seq<T>, page: int32, pageSize: int32): seq<T>
    requires |all| <= MAX_INT64
  {
    var (requested: int, size: int, total: int) := (page, pageSize, |all|);
    var limit := if size <= 0 then total else size;
    var offset := Wrap64(Room((if requested <= 0 then 1 else requested) - 1, limit));
    if offset >= total then [] else Window(all, Clamp32(limit), Clamp32(offset))
  }

  /** The first `n` pages, one after the other. */
  function Pages<T>(all: seq<T>, n: nat, pageSize: int32): seq<T>
    requires |all| <= MAX_INT64 && n <= MAX_INT32
  {
    if n == 0 then [] else Pages(all, n - 1, pageSize) + Page(all, n, pageSize)
  }

  function Min(a: int, b: int): int {
    if a < b then a else b
  }

  /** A page in closed form: the offset is right until it no longer fits an int32, and then stands still. */
  lemma PageIs<T>(all: seq<T>, page: int32, pageSize: int32)
    requires |all| <= MAX_INT64 && page > 0 && pageSize > 0
    ensures var offset := Room(page - 1, pageSize);
            0 <= offset &&
            Page(all, page, pageSize) ==
              if offset >= |all| then []
              else all[Min(offset, MAX_INT32)..Min(Min(offset, MAX_INT32) + pageSize, |all|)]
  {
    hide Room;
    assert IsInt32(page) && IsInt32(pageSize);
    RoomFits(page - 1, pageSize);
  }

  /** Page numbers below one mean the first page; without a page size there is nothing after it (as long as its offset
      fits an int64). */
  lemma PageDefaults<T>(all: seq<T>, page: int32, pageSize: int32)
    requires |all| <= MAX_INT64
    ensures page <= 0 ==> Page(all, page, pageSize) == Page(all, 1, pageSize)
    ensures page > 1 && pageSize <= 0 && (page - 1) * |all| <= MAX_INT64 ==> Page(all, page, pageSize) == []
  {
    if page > 1 && pageSize <= 0 {
      MulMonotone(1, page - 1, |all|);
    }
  }

  lemma {:induction false} PagesAreExact<T>(all: seq<T>, n: nat, pageSize: int32)
    requires |all| <= MAX_INT64 && n <= MAX_INT32 && pageSize > 0
    requires n > 0 ==> Room(n - 1, pageSize) <= MAX_INT32
    ensures 0 <= Room(n, pageSize)
    ensures Pages(all, n, pageSize) == all[..Min(Room(n, pageSize), |all|)]
    decreases n
  {
    hide Room, Page;
    RoomGrows(n - 1, pageSize);
    RoomGrows(n - 2, pageSize);
    if n > 0 {
      PagesAreExact(all, n - 1, pageSize);
      PageIs(all, n, pageSize);
    }
  }

  /** The first of the pages up to `n` whose offset does not fit. */
  lemma FirstClamped(n: nat, pageSize: int32) returns (q: nat)
    requires pageSize > 0 && n > 0 && Room(n - 1, pageSize) > MAX_INT32
    ensures 1 < q <= n && Room(q - 2, pageSize) <= MAX_INT32 < Room(q - 1, pageSize) <= Room(n - 1, pageSize)
    decreases n
  {
    hide Room;
    RoomGrows(n - 2, pageSize);
    RoomGrows(0, pageSize);
    if Room(n - 2, pageSize) > MAX_INT32 {
      q := FirstClamped(n - 1, pageSize);
    } else {
      q := n;
    }
  }

  lemma {:induction false} PagesPrefix<T>(all: seq<T>, q: nat, n: nat, pageSize: int32)
    requires |all| <= MAX_INT64 && q <= n <= MAX_INT32
    ensures Pages(all, q, pageSize) <= Pages(all, n, pageSize)
    decreases n
  {
    hide Page;
    if q < n {
      PagesPrefix(all, q, n - 1, pageSize);
    }
  }

  ghost predicate NoRepeats<T(!new)>(all: seq<T>) {
    forall i, j | 0 <= i < j < |all| :: all[i] != all[j]
  }

  /** The `n`th page is the last one with anything on it. */
  predicate LastPage(n: int32, total: nat, pageSize: int32) {
    0 < n <= MAX_INT32 && Room(n - 1, pageSize) < total <= Room(n, pageSize)
  }

  /** The pages of any size make up the listing, with nothing twice, exactly when the last offset fits an int32. */
  lemma PagesCoverIff<T(!new)>(all: seq<T>, n: int32, pageSize: int32)
    requires |all| <= MAX_INT64 && NoRepeats(all) && pageSize > 0 && LastPage(n, |all|, pageSize)
    ensures Pages(all, n, pageSize) == all <==> (n - 1) * pageSize <= MAX_INT32
  {
    assert Room(n - 1, pageSize) == (n - 1) * pageSize;
    hide Page, Room;
    if Room(n - 1, pageSize) <= MAX_INT32 {
      PagesAreExact(all, n, pageSize);
    } else {
      var q := FirstClamped(n, pageSize);
      var at := Room(q - 1, pageSize);
      PagesAreExact(all, q - 1, pageSize);
      PageIs(all, q, pageSize);
      PagesPrefix(all, q, n, pageSize);
      assert Pages(all, q, pageSize)[at] == all[MAX_INT32];
      assert all[MAX_INT32] != all[at];
    }
  }

  /** Up to 2^31 - 1 orders every positive page size works, and the page after the last is empty. */
  lemma SmallListingsAreCovered<T(!new)>(all: seq<T>, n: int32, pageSize: int32)
    requires |all| <= MAX_INT32 && pageSize > 0 && LastPage(n, |all|, pageSize)
    ensures Pages(all, n, pageSize) == all
    ensures n < MAX_INT32 ==> Page(all, n + 1, pageSize) == []
  {
    hide Page, Room;
    PagesAreExact(all, n, pageSize);
    if n < MAX_INT32 {
      PageIs(all, n + 1, pageSize);
    }
  }

  /** The same for a customer's listing: sorted, it has no order twice. */
  lemma CustomerPages(all: seq<ListKey>, s: Store, customerID: string, n: int32, pageSize: int32)
    requires IsListing(all, s, customerID) && |all| <= MAX_INT64 && pageSize > 0 && LastPage(n, |all|, pageSize)
    ensures Pages(all, n, pageSize) == all <==> (n - 1) * pageSize <= MAX_INT32
    ensures |all| <= MAX_INT32 ==> Pages(all, n, pageSize) == all
    ensures forall i, j | 0 <= i < j < |all| :: all[i].id != all[j].id
  {
    hide Page, Room, TextLess;
    ListLessIsTotal();
    forall i, j | 0 <= i < j < |all| ensures all[i].id != all[j].id {
      assert all[i] in all && all[j] in all && ListLess(all[i], all[j]);
      assert Belongs(s, customerID, all[i]) && Belongs(s, customerID, all[j]);
    }
    PagesCoverIff(all, n, pageSize);
    if |all| <= MAX_INT32 {
      SmallListingsAreCovered(all, n, pageSize);
    }
  }

  /** A request without a page size gets everything on the first page exactly when there are at most 2^31 - 1 orders. */
  lemma UnsizedPageIsEverything<T>(all: seq<T>, page: int32, pageSize: int32)
    requires |all| <= MAX_INT64 && page <= 1 && pageSize <= 0
    ensures Page(all, page, pageSize) == all <==> |all| <= MAX_INT32
  {
    hide Room;
    RoomGrows(0, |all|);
  }
}
