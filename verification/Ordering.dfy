/** Sorting by a caller-supplied comparison, and the byte-wise order of strings.

    The program sorts with Go's library (`sort.Slice`, `sort.SliceStable`, `sort.Strings`);
    `Sort` is the stable insertion sort that stands for those calls. */
module Ordering {

  function Elems<T>(xs: seq<T>): (s: set<T>)
    ensures forall i :: 0 <= i < |xs| ==> xs[i] in s
    ensures forall x :: x in s ==> x in xs
  {
    set x | x in xs
  }

  ghost predicate NoDup<T>(xs: seq<T>) {
    forall i, j :: 0 <= i < j < |xs| ==> xs[i] != xs[j]
  }

  /** `less` is a strict total order on the elements of `s`. */
  ghost predicate Linear<T(!new)>(less: (T, T) -> bool, s: set<T>) {
    && (forall a :: a in s ==> !less(a, a))
    && (forall a, b :: a in s && b in s && a != b ==> less(a, b) || less(b, a))
    && (forall a, b, c :: a in s && b in s && c in s && less(a, b) && less(b, c) ==> less(a, c))
  }

  ghost predicate Ascending<T>(less: (T, T) -> bool, xs: seq<T>) {
    forall i, j :: 0 <= i < j < |xs| ==> less(xs[i], xs[j])
  }

  /** Puts x in front of the first element it is less than. */
  function Insert<T>(less: (T, T) -> bool, xs: seq<T>, x: T): (r: seq<T>)
    ensures |r| == |xs| + 1
    ensures multiset(r) == multiset(xs) + multiset{x}
  {
    if xs == [] then [x]
    else if less(x, xs[0]) then
      [x] + xs
    else
      assert xs == [xs[0]] + xs[1..];
      [xs[0]] + Insert(less, xs[1..], x)
  }

  function Sort<T>(less: (T, T) -> bool, xs: seq<T>): (r: seq<T>)
    ensures |r| == |xs|
    ensures multiset(r) == multiset(xs)
  {
    if xs == [] then []
    else
      assert xs == xs[..|xs| - 1] + [xs[|xs| - 1]];
      Insert(less, Sort(less, xs[..|xs| - 1]), xs[|xs| - 1])
  }

  lemma SameMultisetSameElems<T>(a: seq<T>, b: seq<T>)
    requires multiset(a) == multiset(b)
    ensures Elems(a) == Elems(b)
  {
    forall x ensures x in Elems(a) <==> x in Elems(b) {
      assert x in a <==> x in multiset(a);
      assert x in b <==> x in multiset(b);
    }
  }

  lemma {:induction false} InsertElems<T>(less: (T, T) -> bool, xs: seq<T>, x: T)
    ensures Elems(Insert(less, xs, x)) == Elems(xs) + {x}
  {
    var all := Insert(less, xs, x);
    if xs == [] {
      assert all == [x];
    } else if less(x, xs[0]) {
      ElemsCons(x, xs);
    } else {
      InsertElems(less, xs[1..], x);
      ElemsCons(xs[0], Insert(less, xs[1..], x));
      ElemsCons(xs[0], xs[1..]);
      assert xs == [xs[0]] + xs[1..];
    }
  }

  lemma ElemsCons<T>(x: T, xs: seq<T>)
    ensures Elems([x] + xs) == {x} + Elems(xs)
  {
    var all := [x] + xs;
    assert all[0] == x && all[1..] == xs;
    forall y ensures y in Elems(all) <==> y in {x} + Elems(xs) {
      assert y in all <==> y == x || y in xs;
    }
  }

  lemma LinearSubset<T(!new)>(less: (T, T) -> bool, s: set<T>, t: set<T>)
    requires Linear(less, s) && t <= s
    ensures Linear(less, t)
  {}

  lemma ConsAscending<T>(less: (T, T) -> bool, x: T, xs: seq<T>)
    requires Ascending(less, xs) && forall y :: y in xs ==> less(x, y)
    ensures Ascending(less, [x] + xs)
  {}

  lemma {:induction false} InsertAscending<T(!new)>(less: (T, T) -> bool, xs: seq<T>, x: T)
    requires Ascending(less, xs) && x !in xs
    requires Linear(less, Elems(xs) + {x})
    ensures Ascending(less, Insert(less, xs, x))
  {
    if xs != [] {
      var rest := xs[1..];
      assert Elems(rest) + {x} <= Elems(xs) + {x};
      LinearSubset(less, Elems(xs) + {x}, Elems(rest) + {x});
      assert forall y :: y in rest ==> less(xs[0], y);
      if less(x, xs[0]) {
        assert forall y :: y in xs ==> y == xs[0] || less(xs[0], y);
        ConsAscending(less, x, xs);
      } else {
        InsertAscending(less, rest, x);
        InsertElems(less, rest, x);
        assert xs[0] in Elems(xs) && less(xs[0], x);
        forall y | y in Insert(less, rest, x) ensures less(xs[0], y) {
          assert y in Elems(Insert(less, rest, x));
        }
        ConsAscending(less, xs[0], Insert(less, rest, x));
      }
    }
  }

  lemma {:induction false} SortAscending<T(!new)>(less: (T, T) -> bool, xs: seq<T>)
    requires NoDup(xs) && Linear(less, Elems(xs))
    ensures Ascending(less, Sort(less, xs))
    ensures Elems(Sort(less, xs)) == Elems(xs)
  {
    if xs != [] {
      var front, x := xs[..|xs| - 1], xs[|xs| - 1];
      SortAscending(less, front);
      assert x !in Elems(Sort(less, front));
      assert Elems(front) + {x} <= Elems(xs);
      InsertAscending(less, Sort(less, front), x);
    }
    SameMultisetSameElems(Sort(less, xs), xs);
  }

  lemma AscendingHead<T(!new)>(less: (T, T) -> bool, a: seq<T>, b: seq<T>)
    requires Ascending(less, a) && Ascending(less, b) && Elems(a) == Elems(b)
    requires Linear(less, Elems(a)) && a != []
    ensures b != [] && a[0] == b[0] && Elems(a[1..]) == Elems(b[1..])
  {
    assert a[0] in Elems(b) && b != [] && b[0] in Elems(a);
    var i :| 0 <= i < |b| && b[i] == a[0];
    var j :| 0 <= j < |a| && a[j] == b[0];
    forall x ensures x in Elems(a[1..]) <==> x in Elems(b[1..]) {
      TailElems(less, a, x);
      TailElems(less, b, x);
    }
  }

  lemma TailElems<T(!new)>(less: (T, T) -> bool, a: seq<T>, x: T)
    requires a != [] && Ascending(less, a) && Linear(less, Elems(a))
    ensures x in Elems(a[1..]) <==> x in Elems(a) && x != a[0]
  {
    if x in Elems(a[1..]) {
      var i :| 0 <= i < |a| - 1 && a[1..][i] == x;
      assert less(a[0], a[i + 1]);
    }
    if x in Elems(a) && x != a[0] {
      var i :| 0 <= i < |a| && a[i] == x;
      assert a[1..][i - 1] == x;
    }
  }

  /** Under a strict total order there is one ascending arrangement of a set, so any two
      sorts of the same elements agree. */
  lemma {:induction false} AscendingUnique<T(!new)>(less: (T, T) -> bool, a: seq<T>, b: seq<T>)
    requires Ascending(less, a) && Ascending(less, b) && Elems(a) == Elems(b)
    requires Linear(less, Elems(a))
    ensures a == b
  {
    if a == [] {
      assert forall i :: 0 <= i < |b| ==> b[i] in Elems(a);
    } else {
      AscendingHead(less, a, b);
      assert Elems(a[1..]) <= Elems(a);
      AscendingUnique(less, a[1..], b[1..]);
      assert a == [a[0]] + a[1..] && b == [b[0]] + b[1..];
    }
  }

  /** The elements of a set in some order, as ranging over a Go map yields them. */
  method Enumerate<T(==)>(s: set<T>) returns (xs: seq<T>)
    ensures NoDup(xs) && Elems(xs) == s && |xs| == |s|
  {
    xs := [];
    var rest := s;
    while rest != {}
      invariant NoDup(xs) && Elems(xs) !! rest && Elems(xs) + rest == s
      invariant |xs| + |rest| == |s|
    {
      var x :| x in rest;
      ghost var before := xs;
      assert x !in before;
      xs, rest := xs + [x], rest - {x};
      assert Elems(xs) == Elems(before) + {x};
    }
  }

  lemma {:induction false} DistinctLength<T>(xs: seq<T>)
    requires NoDup(xs)
    ensures |Elems(xs)| == |xs|
  {
    if xs != [] {
      var front, x := xs[..|xs| - 1], xs[|xs| - 1];
      DistinctLength(front);
      assert Elems(xs) == Elems(front) + {x};
      assert x !in Elems(front);
    }
  }

  // ----- strings

  /** Go's `<` on strings. */
  predicate StringLess(a: string, b: string) {
    b != [] && (a == [] || a[0] < b[0] || (a[0] == b[0] && StringLess(a[1..], b[1..])))
  }

  /** Equal up to k, where a has the smaller character. */
  ghost predicate DiffersAt(a: string, b: string, k: nat) { k < |a| && k < |b| && a[..k] == b[..k] && a[k] < b[k] }

  /** A string is less when it is a proper prefix, or smaller at the first difference. */
  lemma {:induction false} StringLessMeans(a: string, b: string)
    ensures StringLess(a, b) <==> a < b || exists k: nat :: DiffersAt(a, b, k)
  {
    if a != [] && b != [] && a[0] == b[0] {
      var c, d := a[1..], b[1..];
      StringLessMeans(c, d);
      assert a == [a[0]] + c && b == [b[0]] + d;
      if k: nat :| DiffersAt(c, d, k) {
        assert a[..k + 1] == [a[0]] + c[..k] && b[..k + 1] == [b[0]] + d[..k];
        assert DiffersAt(a, b, k + 1);
      }
      if k: nat :| DiffersAt(a, b, k) {
        assert c[..k - 1] == a[..k][1..] && d[..k - 1] == b[..k][1..];
        assert DiffersAt(c, d, k - 1);
      }
    } else if a != [] && b != [] {
      assert DiffersAt(a, b, 0) <==> a[0] < b[0];
      forall k: nat | 0 < k ensures !DiffersAt(a, b, k) {
        if k < |a| && k < |b| { assert a[..k][0] != b[..k][0]; }
      }
    }
  }

  lemma {:induction false} StringIrreflexive(a: string)
    ensures !StringLess(a, a)
  {
    if a != [] { StringIrreflexive(a[1..]); }
  }

  lemma {:induction false} StringTotal(a: string, b: string)
    requires a != b
    ensures StringLess(a, b) || StringLess(b, a)
  {
    if a != [] && b != [] && a[0] == b[0] {
      assert a == [a[0]] + a[1..] && b == [b[0]] + b[1..];
      StringTotal(a[1..], b[1..]);
    }
  }

  lemma {:induction false} StringTransitive(a: string, b: string, c: string)
    requires StringLess(a, b) && StringLess(b, c)
    ensures StringLess(a, c)
  {
    if a != [] && a[0] == b[0] && b[0] == c[0] {
      StringTransitive(a[1..], b[1..], c[1..]);
    }
  }

  lemma StringLinear(s: set<string>)
    ensures Linear(StringLess, s)
  {
    forall a: string ensures !StringLess(a, a) { StringIrreflexive(a); }
    forall a: string, b: string | a != b ensures StringLess(a, b) || StringLess(b, a) { StringTotal(a, b); }
    forall a: string, b: string, c: string | StringLess(a, b) && StringLess(b, c) ensures StringLess(a, c) {
      StringTransitive(a, b, c);
    }
  }

  predicate IntLess(a: int, b: int) { a < b }
}
