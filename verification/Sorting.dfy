/** Stable sorting under a strict weak order: an in-place method, the function it
    computes, and why no other result is possible. */
module Sorting {

  /** A strict weak order: asymmetric, and nothing lies between two ties. */
  ghost predicate WeakOrder<T(!new)>(less: (T, T) -> bool) {
    && (forall a, b :: Asymmetric(less, a, b))
    && (forall a, b, c :: Between(less, a, b, c))
  }

  predicate Asymmetric<T>(less: (T, T) -> bool, a: T, b: T) {
    less(a, b) ==> !less(b, a)
  }

  predicate Between<T>(less: (T, T) -> bool, a: T, b: T, c: T) {
    less(a, c) ==> less(a, b) || less(b, c)
  }

  ghost predicate Sorted<T>(s: seq<T>, less: (T, T) -> bool) {
    forall i, j | 0 <= i < j < |s| :: !less(s[j], s[i])
  }

  predicate Tied<T>(a: T, b: T, less: (T, T) -> bool) {
    !less(a, b) && !less(b, a)
  }

  /** The elements tied with x, in order. */
  function Ties<T>(s: seq<T>, x: T, less: (T, T) -> bool): (r: seq<T>) {
    if s == [] then []
    else if Tied(s[0], x, less) then [s[0]] + Ties(s[1..], x, less)
    else Ties(s[1..], x, less)
  }

  /** Puts x behind everything not greater than it. */
  function Insert<T>(s: seq<T>, x: T, less: (T, T) -> bool): (r: seq<T>)
    ensures multiset(r) == multiset(s) + multiset{x}
  {
    if s == [] || !less(x, s[|s| - 1]) then
      s + [x]
    else
      var front, last := s[..|s| - 1], s[|s| - 1];
      assert s == front + [last];
      Insert(front, x, less) + [last]
  }

  function StableSort<T>(s: seq<T>, less: (T, T) -> bool): (r: seq<T>)
    ensures multiset(r) == multiset(s)
    ensures |r| == |s|
  {
    if s == [] then
      []
    else
      assert s == s[..|s| - 1] + [s[|s| - 1]];
      var r := Insert(StableSort(s[..|s| - 1], less), s[|s| - 1], less);
      assert |multiset(r)| == |multiset(s)|;
      r
  }

  lemma {:induction false} InsertSorted<T(!new)>(s: seq<T>, x: T, less: (T, T) -> bool)
    requires WeakOrder(less) && Sorted(s, less)
    ensures Sorted(Insert(s, x, less), less)
  {
    if s == [] {
    } else if !less(x, s[|s| - 1]) {
      forall i | 0 <= i < |s| ensures !less(x, s[i]) {
        assert Between(less, x, s[|s| - 1], s[i]);
        assert Asymmetric(less, x, x);
      }
    } else {
      var front, last := s[..|s| - 1], s[|s| - 1];
      InsertSorted(front, x, less);
      var r := Insert(front, x, less);
      forall i | 0 <= i < |r| ensures !less(last, r[i]) {
        assert r[i] in multiset(r);
        assert r[i] in front || r[i] == x;
        assert Asymmetric(less, x, last);
      }
    }
  }

  lemma {:induction false} TiesConcat<T>(a: seq<T>, b: seq<T>, x: T, less: (T, T) -> bool)
    ensures Ties(a + b, x, less) == Ties(a, x, less) + Ties(b, x, less)
  {
    if a == [] {
      assert a + b == b;
    } else {
      assert (a + b)[1..] == a[1..] + b;
      TiesConcat(a[1..], b, x, less);
    }
  }

  lemma {:induction false} InsertTies<T(!new)>(s: seq<T>, x: T, y: T, less: (T, T) -> bool)
    requires WeakOrder(less) && Sorted(s, less)
    ensures Ties(Insert(s, x, less), y, less) == Ties(s + [x], y, less)
  {
    if s != [] && less(x, s[|s| - 1]) {
      var front, last := s[..|s| - 1], s[|s| - 1];
      InsertTies(front, x, y, less);
      TiesConcat(Insert(front, x, less), [last], y, less);
      TiesConcat(front, [x], y, less);
      TiesConcat(front, [last], y, less);
      TiesConcat(s, [x], y, less);
      assert s == front + [last];
      assert Between(less, x, y, last);
    }
  }

  /** The result is sorted, and elements that tie keep their order. */
  lemma {:induction false} StableSortCorrect<T(!new)>(s: seq<T>, less: (T, T) -> bool)
    requires WeakOrder(less)
    ensures Sorted(StableSort(s, less), less)
    ensures forall y :: Ties(StableSort(s, less), y, less) == Ties(s, y, less)
  {
    if s != [] {
      var front, last := s[..|s| - 1], s[|s| - 1];
      assert s == front + [last];
      StableSortCorrect(front, less);
      var t := StableSort(front, less);
      InsertSorted(t, last, less);
      forall y ensures Ties(StableSort(s, less), y, less) == Ties(s, y, less) {
        InsertTies(t, last, y, less);
        TiesConcat(t, [last], y, less);
        TiesConcat(front, [last], y, less);
      }
    }
  }

  /** Sortedness and tie order leave only one arrangement: any stable sort agrees. */
  lemma {:induction false} StableSortUnique<T(!new)>(s: seq<T>, t: seq<T>, less: (T, T) -> bool)
    requires WeakOrder(less)
    requires Sorted(s, less) && Sorted(t, less)
    requires forall y :: Ties(s, y, less) == Ties(t, y, less)
    ensures s == t
  {
    if s == [] {
      HeadTies(t, less);
    } else {
      var x := s[0];
      assert Asymmetric(less, x, x);
      assert Ties(s, x, less)[0] == x;
      TiesIn(t, x, less);
      var k :| 0 <= k < |t| && t[k] == Ties(t, x, less)[0] && Tied(t[k], x, less);
      assert |t| > 0;
      var z := t[0];
      assert Asymmetric(less, z, z);
      assert Ties(t, z, less)[0] == z;
      TiesIn(s, z, less);
      assert !less(z, x) && !less(x, z);
      assert Ties(s, x, less) == Ties(t, x, less) && t[0] == Ties(t, x, less)[0];
      forall y ensures Ties(s[1..], y, less) == Ties(t[1..], y, less) {
        var ts, tt := Ties(s, y, less), Ties(t, y, less);
        assert ts == tt;
        if Tied(x, y, less) {
          assert ts[1..] == Ties(s[1..], y, less) && tt[1..] == Ties(t[1..], y, less);
        }
      }
      assert Sorted(s[1..], less) && Sorted(t[1..], less);
      StableSortUnique(s[1..], t[1..], less);
    }
  }

  lemma HeadTies<T(!new)>(t: seq<T>, less: (T, T) -> bool)
    requires WeakOrder(less)
    ensures t != [] ==> Ties(t, t[0], less) != []
  {
    if t != [] { assert Asymmetric(less, t[0], t[0]); }
  }

  lemma {:induction false} TiesIn<T>(t: seq<T>, x: T, less: (T, T) -> bool)
    requires Ties(t, x, less) != []
    ensures exists k :: 0 <= k < |t| && t[k] == Ties(t, x, less)[0] && Tied(t[k], x, less)
  {
    if Tied(t[0], x, less) {
    } else {
      TiesIn(t[1..], x, less);
      var k :| 0 <= k < |t[1..]| && t[1..][k] == Ties(t[1..], x, less)[0] && Tied(t[1..][k], x, less);
      assert t[k + 1] == Ties(t, x, less)[0];
    }
  }

  /** Moves a[n] down into the sorted stretch below it. */
  method SiftDown<T>(a: array<T>, n: nat, less: (T, T) -> bool)
    requires n < a.Length
    modifies a
    ensures a[..n + 1] == Insert(old(a[..n]), old(a[n]), less)
    ensures a[n + 1..] == old(a[n + 1..])
  {
    hide Insert;
    ghost var below := a[..n];
    var x := a[n];
    var i := n;
    assert below[n..] == [] && below[..n] == below;
    while i > 0 && less(x, a[i - 1])
      invariant 0 <= i <= n
      invariant forall k | 0 <= k < i :: a[k] == below[k]
      invariant forall k | i < k <= n :: a[k] == below[k - 1]
      invariant forall k | n < k < a.Length :: a[k] == old(a[k])
      invariant Insert(below, x, less) == Insert(below[..i], x, less) + below[i..]
    {
      a[i] := a[i - 1];
      i := i - 1;
      InsertStep(below, i, x, less);
    }
    a[i] := x;
    InsertStops(below, i, x, less);
    Placed(a[..n + 1], below, i, x);
  }

  lemma Placed<T>(s: seq<T>, below: seq<T>, i: nat, x: T)
    requires |s| == |below| + 1 && i <= |below| && s[i] == x
    requires forall k | 0 <= k < i :: s[k] == below[k]
    requires forall k | i < k < |s| :: s[k] == below[k - 1]
    ensures s == below[..i] + [x] + below[i..]
  {
  }

  lemma SortStep<T>(s: seq<T>, less: (T, T) -> bool)
    requires s != []
    ensures StableSort(s, less) == Insert(StableSort(s[..|s| - 1], less), s[|s| - 1], less)
  {
  }

  lemma InsertStops<T>(s: seq<T>, i: nat, x: T, less: (T, T) -> bool)
    requires i <= |s| && (i == 0 || !less(x, s[i - 1]))
    ensures Insert(s[..i], x, less) == s[..i] + [x]
  {
  }

  lemma InsertStep<T>(s: seq<T>, i: nat, x: T, less: (T, T) -> bool)
    requires i < |s| && less(x, s[i])
    ensures Insert(s[..i + 1], x, less) + s[i + 1..] == Insert(s[..i], x, less) + s[i..]
  {
    assert s[..i + 1][..i] == s[..i];
    assert s[i..] == [s[i]] + s[i + 1..];
  }

  /** Insertion sort in place. */
  method SortInPlace<T>(a: array<T>, less: (T, T) -> bool)
    modifies a
    ensures a[..] == StableSort(old(a[..]), less)
  {
    ghost var s := a[..];
    for n := 0 to a.Length
      invariant a[..n] == StableSort(s[..n], less)
      invariant a[n..] == s[n..]
    {
      assert s[..n + 1][..n] == s[..n];
      assert a[n] == a[n..][0] == s[n];
      SiftDown(a, n, less);
      assert a[n + 1..] == s[n..][1..];
    }
    assert a[..a.Length] == a[..] && s[..a.Length] == s;
  }
}
