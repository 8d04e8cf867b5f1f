/** ORDER BY: a finite set listed in a total order, and why there is only one such listing. */
module Sorting {

  ghost predicate TotalOrder<T(!new)>(less: (T, T) -> bool) {
    && (forall x :: !less(x, x))
    && (forall x, y, z :: less(x, y) && less(y, z) ==> less(x, z))
    && (forall x, y :: x == y || less(x, y) || less(y, x))
  }

  ghost predicate Sorted<T(!new)>(less: (T, T) -> bool, s: seq<T>) {
    forall i, j | 0 <= i < j < |s| :: less(s[i], s[j])
  }

  ghost predicate Lists<T(!new)>(s: seq<T>, elements: set<T>) {
    forall x :: x in s <==> x in elements
  }

  lemma HeadIsLeast<T(!new)>(less: (T, T) -> bool, s: seq<T>, x: T)
    requires Sorted(less, s) && x in s
    ensures x == s[0] || less(s[0], x)
  {
    var i :| 0 <= i < |s| && s[i] == x;
  }

  lemma NotBothLess<T(!new)>(less: (T, T) -> bool, x: T, y: T)
    requires TotalOrder(less)
    ensures !less(x, y) || !less(y, x)
  {
  }

  lemma NonEmpty<T(!new)>(s: seq<T>)
    requires s != []
    ensures exists x :: x in s
  {
    assert s[0] in s;
  }

  /** Two sorted listings of the same elements are the same. */
  lemma {:induction false} SortedIsUnique<T(!new)>(less: (T, T) -> bool, a: seq<T>, b: seq<T>)
    requires TotalOrder(less) && Sorted(less, a) && Sorted(less, b)
    requires forall x :: x in a <==> x in b
    ensures a == b
    decreases |a|
  {
    hide TotalOrder;
    if a == [] {
      if b != [] {
        NonEmpty(b);
      }
    } else {
      assert a[0] in b && b[0] in a;
      HeadIsLeast(less, a, b[0]);
      HeadIsLeast(less, b, a[0]);
      NotBothLess(less, a[0], b[0]);
      forall x ensures x in a[1..] <==> x in b[1..] {
        TailElements(less, a, x);
        TailElements(less, b, x);
      }
      SortedIsUnique(less, a[1..], b[1..]);
      assert a == [a[0]] + a[1..] && b == [b[0]] + b[1..];
    }
  }

  lemma TailElements<T(!new)>(less: (T, T) -> bool, s: seq<T>, x: T)
    requires TotalOrder(less) && Sorted(less, s) && s != []
    ensures x in s[1..] <==> x in s && x != s[0]
  {
    if x in s && x != s[0] {
      var i :| 0 <= i < |s| && s[i] == x;
      assert s[1..][i - 1] == x;
    }
  }

  lemma Chain<T(!new)>(less: (T, T) -> bool, x: T, y: T, z: T)
    requires TotalOrder(less) && less(x, y) && less(y, z)
    ensures less(x, z)
  {
  }

  lemma Comparable<T(!new)>(less: (T, T) -> bool, x: T, y: T)
    requires TotalOrder(less)
    ensures x == y || less(x, y) || less(y, x)
  {
  }

  ghost predicate IsLeast<T(!new)>(less: (T, T) -> bool, s: set<T>, x: T) {
    x in s && forall y | y in s :: x == y || less(x, y)
  }

  lemma {:induction false} LeastExists<T(!new)>(less: (T, T) -> bool, s: set<T>)
    requires TotalOrder(less) && s != {}
    ensures exists x :: IsLeast(less, s, x)
    decreases |s|
  {
    hide TotalOrder;
    var z :| z in s;
    if w :| w in s && w != z {
      assert w in s - {z};
      LeastExists(less, s - {z});
      var x :| IsLeast(less, s - {z}, x);
      Comparable(less, x, z);
      if less(x, z) {
        assert IsLeast(less, s, x);
      } else {
        forall y | y in s ensures z == y || less(z, y) {
          if y != z && y != x {
            assert y in s - {z};
            Chain(less, z, x, y);
          }
        }
        assert IsLeast(less, s, z);
      }
    } else {
      assert IsLeast(less, s, z);
    }
  }

  method Sort<T(!new, ==)>(less: (T, T) -> bool, elements: set<T>) returns (s: seq<T>)
    requires TotalOrder(less)
    ensures Sorted(less, s) && Lists(s, elements) && |s| == |elements|
  {
    s := [];
    var left := elements;
    while left != {}
      invariant left <= elements && |s| + |left| == |elements|
      invariant Sorted(less, s)
      invariant forall x :: x in s <==> x in elements && x !in left
      invariant forall x, y | x in s && y in left :: less(x, y)
      decreases |left|
    {
      LeastExists(less, left);
      ghost var before := s;
      var x :| x in left && forall y | y in left :: x == y || less(x, y);
      assert IsLeast(less, left, x);
      s := s + [x];
      left := left - {x};
      forall i, j | 0 <= i < j < |s| ensures less(s[i], s[j]) {
        assert s[i] in before;
      }
    }
  }

  // ----- text, in byte order -----

  predicate TextLess(a: string, b: string) {
    b != "" && (a == "" || a[0] < b[0] || (a[0] == b[0] && TextLess(a[1..], b[1..])))
  }

  lemma {:induction false} TextIrreflexive(a: string)
    ensures !TextLess(a, a)
  {
    if a != "" {
      TextIrreflexive(a[1..]);
    }
  }

  lemma {:induction false} TextTransitive(a: string, b: string, c: string)
    requires TextLess(a, b) && TextLess(b, c)
    ensures TextLess(a, c)
  {
    if a != "" && a[0] == b[0] == c[0] {
      TextTransitive(a[1..], b[1..], c[1..]);
    }
  }

  lemma {:induction false} TextTotal(a: string, b: string)
    ensures a == b || TextLess(a, b) || TextLess(b, a)
  {
    if a != "" && b != "" && a[0] == b[0] {
      TextTotal(a[1..], b[1..]);
      assert a == [a[0]] + a[1..] && b == [b[0]] + b[1..];
    }
  }
}
