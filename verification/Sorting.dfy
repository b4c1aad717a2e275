/** slices.Sort on the keys of a Go map: distinct elements, in ascending order. */
module Sorting {
  import opened Text

  ghost predicate TotalOrder<T(!new)>(less: (T, T) -> bool)
  {
    && (forall a, b :: less(a, b) ==> !less(b, a) && a != b)
    && (forall a, b :: less(a, b) || less(b, a) || a == b)
    && forall a, b, c :: less(a, b) && less(b, c) ==> less(a, c)
  }

  ghost predicate Least<T(!new)>(m: T, s: set<T>, less: (T, T) -> bool)
  {
    m in s && forall x | x in s && x != m :: less(m, x)
  }

  lemma {:induction false} LeastExists<T(!new)>(s: set<T>, less: (T, T) -> bool) returns (m: T)
    requires TotalOrder(less) && s != {}
    ensures Least(m, s, less)
    decreases |s|
  {
    var x :| x in s;
    var rest := s - {x};
    if rest == {} {
      m := x;
      assert s == {x};
    } else {
      var y := LeastExists(rest, less);
      m := if less(x, y) then x else y;
    }
  }

  function Smallest<T(!new, ==)>(s: set<T>, less: (T, T) -> bool): (m: T)
    requires TotalOrder(less) && s != {}
    ensures Least(m, s, less)
  {
    assert exists m :: m in s && forall x | x in s && x != m :: less(m, x) by {
      var m := LeastExists(s, less);
    }
    var m :| m in s && forall x | x in s && x != m :: less(m, x);
    m
  }

  function Sorted<T(!new, ==)>(s: set<T>, less: (T, T) -> bool): (r: seq<T>)
    requires TotalOrder(less)
    ensures |r| == |s|
    ensures forall x :: x in r <==> x in s
    ensures forall i, j | 0 <= i < j < |r| :: less(r[i], r[j])
    decreases |s|
  {
    if s == {} then []
    else
      var m := Smallest(s, less);
      [m] + Sorted(s - {m}, less)
  }

  lemma HeadIn<T>(b: seq<T>)
    ensures b != [] ==> b[0] in b
  {
  }

  /** Ascending order determines the sequence. */
  lemma {:induction false} SortedUnique<T(!new)>(a: seq<T>, b: seq<T>, less: (T, T) -> bool)
    requires TotalOrder(less) && (forall x :: x in a <==> x in b)
    requires forall i, j | 0 <= i < j < |a| :: less(a[i], a[j])
    requires forall i, j | 0 <= i < j < |b| :: less(b[i], b[j])
    ensures a == b
    decreases |a|
  {
    if a == [] {
      HeadIn(b);
    } else {
      assert a[0] in b;
      assert b[0] in a;
      assert a[0] == b[0];
      forall x ensures x in a[1..] <==> x in b[1..] {
        assert x in a[1..] ==> x in a && x != a[0];
        assert x in b[1..] ==> x in b && x != b[0];
      }
      SortedUnique(a[1..], b[1..], less);
    }
  }

  predicate Below(a: int, b: int) { a < b }

  lemma IntsOrdered()
    ensures TotalOrder(Below)
  {
  }

  /** Go's string order: bytewise, a prefix first. */
  predicate LexBelow(a: Str, b: Str)
  {
    if b == [] then false
    else if a == [] then true
    else a[0] < b[0] || (a[0] == b[0] && LexBelow(a[1..], b[1..]))
  }

  lemma {:induction false} LexTotal(a: Str, b: Str)
    ensures LexBelow(a, b) ==> !LexBelow(b, a) && a != b
    ensures LexBelow(a, b) || LexBelow(b, a) || a == b
    decreases |a|
  {
    if a != [] && b != [] {
      LexTotal(a[1..], b[1..]);
      if a[0] == b[0] && a[1..] == b[1..] {
        assert a == [a[0]] + a[1..] == b;
      }
    }
  }

  lemma {:induction false} LexTransitive(a: Str, b: Str, c: Str)
    requires LexBelow(a, b) && LexBelow(b, c)
    ensures LexBelow(a, c)
    decreases |a|
  {
    if a != [] && a[0] == b[0] == c[0] {
      LexTransitive(a[1..], b[1..], c[1..]);
    }
  }

  lemma StringsOrdered()
    ensures TotalOrder(LexBelow)
  {
    forall a, b
      ensures LexBelow(a, b) ==> !LexBelow(b, a) && a != b
      ensures LexBelow(a, b) || LexBelow(b, a) || a == b
    {
      LexTotal(a, b);
    }
    forall a, b, c | LexBelow(a, b) && LexBelow(b, c) ensures LexBelow(a, c) {
      LexTransitive(a, b, c);
    }
  }
}
