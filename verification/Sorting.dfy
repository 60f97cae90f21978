/**
  The in-place array work of the store and of member lists: insertion sort and
  reversal.
 */
module Sorting {

  /** less is a strict order up to ties. */
  ghost predicate Order<T(!new)>(less: (T, T) -> bool) {
    && (forall x, y :: less(x, y) ==> !less(y, x))
    && (forall x, y, z :: !less(y, x) && !less(z, y) ==> !less(z, x))
  }

  ghost predicate Sorted<T>(s: seq<T>, less: (T, T) -> bool) {
    forall i, j :: 0 <= i < j < |s| ==> !less(s[j], s[i])
  }

  /** Numbers rise strictly along the list. */
  ghost predicate Increasing<T(!new)>(s: seq<T>, num: T -> int) {
    forall i, j :: 0 <= i < j < |s| ==> num(s[i]) < num(s[j])
  }

  /** Strictly ordered lists with the same members are the same list. */
  lemma {:induction false} IncreasingUnique<T(!new)>(xs: seq<T>, ys: seq<T>, num: T -> int)
    requires Increasing(xs, num) && Increasing(ys, num)
    requires forall m :: m in xs <==> m in ys
    ensures xs == ys
  {
    assert xs != [] ==> xs[0] in xs && xs[0] in ys;
    assert ys != [] ==> ys[0] in ys && ys[0] in xs;
    if xs != [] {
      var x, y := xs[|xs| - 1], ys[|ys| - 1];
      assert x in ys && y in xs;
      var xs', ys' := xs[..|xs| - 1], ys[..|ys| - 1];
      assert xs == xs' + [x] && ys == ys' + [y];
      forall m ensures m in xs' <==> m in ys' {
        assert m in xs' ==> m in xs && m != x;
        assert m in ys' ==> m in ys && m != y;
      }
      IncreasingUnique(xs', ys', num);
    }
  }

  /** s sorted, were it not for the element at j that is still on its way down. */
  ghost predicate SortedBut<T>(s: seq<T>, j: nat, less: (T, T) -> bool) {
    && (forall p, q :: 0 <= p < q < |s| && p != j && q != j ==> !less(s[q], s[p]))
    && (forall q :: j < q < |s| ==> j < |s| && !less(s[q], s[j]))
  }

  lemma SwapKeepsMultiset<T>(s: seq<T>, j: nat, t: seq<T>)
    requires 0 < j < |s| && t == s[j := s[j - 1]][j - 1 := s[j]]
    ensures multiset(t) == multiset(s)
  {
    assert s == s[..j - 1] + [s[j - 1], s[j]] + s[j + 1..];
    assert t == s[..j - 1] + [s[j], s[j - 1]] + s[j + 1..];
  }

  lemma SwapKeepsSortedBut<T(!new)>(s: seq<T>, j: nat, t: seq<T>, less: (T, T) -> bool)
    requires Order(less) && 0 < j < |s| && t == s[j := s[j - 1]][j - 1 := s[j]]
    requires SortedBut(s, j, less) && less(s[j], s[j - 1])
    ensures SortedBut(t, j - 1, less)
  {
    forall p, q | 0 <= p < q < |t| && p != j - 1 && q != j - 1 ensures !less(t[q], t[p]) {
      var p', q' := if p == j then j - 1 else p, if q == j then j - 1 else q;
      assert t[p] == s[p'] && t[q] == s[q'];
    }
  }

  /** One round: the element at i moves down past everything greater. */
  method Insert<T(!new)>(a: array<T>, i: nat, less: (T, T) -> bool)
    requires Order(less) && i < a.Length && Sorted(a[..i], less)
    modifies a
    ensures Sorted(a[..i + 1], less)
    ensures multiset(a[..]) == multiset(old(a[..]))
  {
    var j := i;
    while j > 0 && less(a[j], a[j - 1])
      invariant 0 <= j <= i
      invariant SortedBut(a[..i + 1], j, less)
      invariant multiset(a[..]) == multiset(old(a[..]))
    {
      ghost var before := a[..];
      a[j], a[j - 1] := a[j - 1], a[j];
      SwapKeepsMultiset(before, j, a[..]);
      SwapKeepsSortedBut(before[..i + 1], j, a[..i + 1], less);
      j := j - 1;
    }
  }

  method InsertionSort<T(!new)>(a: array<T>, less: (T, T) -> bool)
    requires Order(less)
    modifies a
    ensures Sorted(a[..], less)
    ensures multiset(a[..]) == multiset(old(a[..]))
  {
    var i := 1;
    while i < a.Length
      invariant 1 <= i
      invariant a.Length > 0 ==> i <= a.Length && Sorted(a[..i], less)
      invariant multiset(a[..]) == multiset(old(a[..]))
    {
      Insert(a, i, less);
      i := i + 1;
    }
    assert a.Length > 0 ==> a[..i] == a[..];
  }

  function Reversed<T>(s: seq<T>): (r: seq<T>)
    ensures |r| == |s|
    ensures forall i :: 0 <= i < |s| ==> r[i] == s[|s| - 1 - i]
  {
    if s == [] then [] else Reversed(s[1..]) + [s[0]]
  }

  method ReverseInPlace<T>(a: array<T>)
    modifies a
    ensures a[..] == Reversed(old(a[..]))
  {
    var i, j := 0, a.Length - 1;
    while i < j
      invariant 0 <= i && i + j == a.Length - 1 && i <= j + 1
      invariant forall p :: 0 <= p < i || j < p < a.Length ==> a[p] == old(a[a.Length - 1 - p])
      invariant forall p :: i <= p <= j ==> a[p] == old(a[p])
    {
      a[i], a[j] := a[j], a[i];
      i, j := i + 1, j - 1;
    }
  }
}
