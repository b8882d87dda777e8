/** The contract of Go's sort.SliceStable, on which the route order, the plugin order and the
    status comparison all rest: an insertion-sort specification, the in-place algorithm that
    meets it, and the facts that characterise its result. */
module Sorting {
  import opened Wrappers

  /** What SliceStable asks of its comparator. */
  ghost predicate StrictWeakOrder<T(!new)>(less: (T, T) -> bool) {
    && (forall x, y :: less(x, y) ==> !less(y, x))
    && (forall x, y, z :: less(x, z) ==> less(x, y) || less(y, z))
  }

  /** A strict weak order in which only equal elements tie. */
  ghost predicate StrictTotalOrder<T(!new)>(less: (T, T) -> bool) {
    && StrictWeakOrder(less)
    && (forall x, y :: !less(x, y) && !less(y, x) ==> x == y)
  }

  predicate Tied<T>(less: (T, T) -> bool, x: T, y: T) {
    !less(x, y) && !less(y, x)
  }

  /** No element is strictly before an earlier one. */
  ghost predicate Sorted<T>(less: (T, T) -> bool, s: seq<T>) {
    forall i, j :: 0 <= i < j < |s| ==> !less(s[j], s[i])
  }

  function Filter<T>(p: T -> bool, s: seq<T>): seq<T> {
    if s == [] then []
    else Filter(p, s[..|s| - 1]) + (if p(s[|s| - 1]) then [s[|s| - 1]] else [])
  }

  /** The elements of s that tie with x, in their order in s. */
  function Ties<T>(less: (T, T) -> bool, s: seq<T>, x: T): seq<T> {
    Filter(y => Tied(less, x, y), s)
  }

  function Insert<T>(less: (T, T) -> bool, s: seq<T>, x: T): seq<T> {
    if s == [] || !less(x, s[|s| - 1]) then s + [x]
    else Insert(less, s[..|s| - 1], x) + [s[|s| - 1]]
  }

  function StableSort<T>(less: (T, T) -> bool, s: seq<T>): seq<T> {
    if s == [] then [] else Insert(less, StableSort(less, s[..|s| - 1]), s[|s| - 1])
  }

  // ---------- The in-place algorithm ----------

  /** Where an element is inserted. */
  lemma {:induction false} InsertAt<T>(less: (T, T) -> bool, s: seq<T>, x: T, j: nat)
    requires j <= |s| && (forall k :: j <= k < |s| ==> less(x, s[k])) && (j > 0 ==> !less(x, s[j - 1]))
    ensures Insert(less, s, x) == s[..j] + [x] + s[j..]
  {
    if j < |s| {
      var n := |s| - 1;
      InsertAt(less, s[..n], x, j);
      assert s[..n][..j] == s[..j] && s[..n][j..] + [s[n]] == s[j..];
    }
  }

  /** Moves a[i] left past every element it is strictly before, to position j. */
  method ShiftLeft<T>(a: array<T>, less: (T, T) -> bool, i: nat) returns (j: nat)
    requires i < a.Length
    modifies a
    ensures j <= i && a[j] == old(a[i])
    ensures forall k :: 0 <= k < j || i < k < a.Length ==> a[k] == old(a[k])
    ensures forall k :: j <= k < i ==> a[k + 1] == old(a[k]) && less(old(a[i]), old(a[k]))
    ensures j > 0 ==> !less(old(a[i]), old(a[j - 1]))
  {
    j := i;
    while j > 0 && less(a[j], a[j - 1])
      invariant 0 <= j <= i && a[j] == old(a[i])
      invariant forall k :: 0 <= k < j || i < k < a.Length ==> a[k] == old(a[k])
      invariant forall k :: j <= k < i ==> a[k + 1] == old(a[k]) && less(old(a[i]), old(a[k]))
    {
      a[j], a[j - 1] := a[j - 1], a[j];
      j := j - 1;
    }
  }

  method SiftLeft<T>(a: array<T>, less: (T, T) -> bool, i: nat)
    requires i < a.Length
    modifies a
    ensures a[..i + 1] == Insert(less, old(a[..i]), old(a[i]))
    ensures a[i + 1..] == old(a[i + 1..])
  {
    ghost var s, x := a[..i], a[i];
    var j := ShiftLeft(a, less, i);
    InsertAt(less, s, x, j);
    forall k | j < k <= i ensures a[k] == s[k - 1] {
      var m := k - 1;
      assert a[m + 1] == s[m];
    }
    assert a[..i + 1] == s[..j] + [x] + s[j..];
  }

  method SliceStable<T>(a: array<T>, less: (T, T) -> bool)
    modifies a
    ensures a[..] == StableSort(less, old(a[..]))
  {
    ghost var s := a[..];
    var i := 0;
    while i < a.Length
      invariant 0 <= i <= a.Length
      invariant a[..i] == StableSort(less, s[..i])
      invariant a[i..] == s[i..]
    {
      assert s[..i + 1][..i] == s[..i];
      assert a[i] == a[i..][0] == s[i];
      SiftLeft(a, less, i);
      i := i + 1;
      assert a[i..] == s[i - 1..][1..];
    }
    assert a[..i] == a[..] && s[..i] == s;
  }

  // ---------- Sorted, stable, a permutation ----------

  lemma {:induction false} InsertPermutes<T>(less: (T, T) -> bool, s: seq<T>, x: T)
    ensures multiset(Insert(less, s, x)) == multiset(s) + multiset{x}
    ensures |Insert(less, s, x)| == |s| + 1
  {
    if s != [] {
      assert s == s[..|s| - 1] + [s[|s| - 1]];
      if less(x, s[|s| - 1]) { InsertPermutes(less, s[..|s| - 1], x); }
    }
  }

  lemma {:induction false} SortPermutes<T>(less: (T, T) -> bool, s: seq<T>)
    ensures multiset(StableSort(less, s)) == multiset(s)
    ensures |StableSort(less, s)| == |s|
  {
    if s != [] {
      var front, x := s[..|s| - 1], s[|s| - 1];
      assert s == front + [x];
      SortPermutes(less, front);
      InsertPermutes(less, StableSort(less, front), x);
    }
  }

  lemma SortMembers<T>(less: (T, T) -> bool, s: seq<T>, x: T)
    ensures x in StableSort(less, s) <==> x in s
  {
    SortPermutes(less, s);
    assert x in s <==> x in multiset(s);
    assert x in StableSort(less, s) <==> x in multiset(StableSort(less, s));
  }

  lemma {:induction false} InsertSorts<T(!new)>(less: (T, T) -> bool, s: seq<T>, x: T)
    requires StrictWeakOrder(less) && Sorted(less, s)
    ensures Sorted(less, Insert(less, s, x))
  {
    if s == [] {
    } else {
      var front, last := s[..|s| - 1], s[|s| - 1];
      if less(x, last) {
        InsertSorts(less, front, x);
        InsertPermutes(less, front, x);
        var r := Insert(less, front, x);
        forall i | 0 <= i < |r| ensures !less(last, r[i]) {
          assert r[i] in multiset(r);
          if r[i] != x {
            assert r[i] in front;
          }
        }
      } else {
        forall i | 0 <= i < |s| ensures !less(x, s[i]) {
          if i < |s| - 1 { assert !less(last, s[i]); }
        }
      }
    }
  }

  lemma {:induction false} SortSorts<T(!new)>(less: (T, T) -> bool, s: seq<T>)
    requires StrictWeakOrder(less)
    ensures Sorted(less, StableSort(less, s))
  {
    if s != [] {
      SortSorts(less, s[..|s| - 1]);
      InsertSorts(less, StableSort(less, s[..|s| - 1]), s[|s| - 1]);
    }
  }

  lemma {:induction false} FilterAppend<T>(p: T -> bool, s: seq<T>, t: seq<T>)
    ensures Filter(p, s + t) == Filter(p, s) + Filter(p, t)
  {
    if t == [] {
      assert s + t == s;
    } else {
      assert (s + t)[..|s + t| - 1] == s + t[..|t| - 1];
      FilterAppend(p, s, t[..|t| - 1]);
    }
  }

  lemma {:induction false} FilterMembers<T>(p: T -> bool, s: seq<T>, x: T)
    ensures x in Filter(p, s) <==> x in s && p(x)
  {
    if s != [] {
      assert s == s[..|s| - 1] + [s[|s| - 1]];
      FilterMembers(p, s[..|s| - 1], x);
    }
  }

  lemma {:induction false} InsertKeepsTies<T(!new)>(less: (T, T) -> bool, s: seq<T>, x: T, y: T)
    requires StrictWeakOrder(less)
    ensures Ties(less, Insert(less, s, x), y) == Ties(less, s + [x], y)
  {
    if s != [] && less(x, s[|s| - 1]) {
      var front, last := s[..|s| - 1], s[|s| - 1];
      var p := z => Tied(less, y, z);
      assert s == front + [last];
      InsertKeepsTies(less, front, x, y);
      FilterAppend(p, Insert(less, front, x), [last]);
      FilterAppend(p, front, [x]);
      FilterAppend(p, front, [last]);
      FilterAppend(p, s, [x]);
      assert !(p(x) && p(last));
      assert Filter(p, [last]) + Filter(p, [x]) == Filter(p, [x]) + Filter(p, [last]);
    }
  }

  /** Stability: each tie class keeps its original order. */
  lemma {:induction false} SortKeepsTies<T(!new)>(less: (T, T) -> bool, s: seq<T>, y: T)
    requires StrictWeakOrder(less)
    ensures Ties(less, StableSort(less, s), y) == Ties(less, s, y)
  {
    if s != [] {
      var front, x := s[..|s| - 1], s[|s| - 1];
      var p := z => Tied(less, y, z);
      assert s == front + [x];
      SortKeepsTies(less, front, y);
      InsertKeepsTies(less, StableSort(less, front), x, y);
      FilterAppend(p, StableSort(less, front), [x]);
      FilterAppend(p, front, [x]);
    }
  }

  lemma SortTwo<T>(less: (T, T) -> bool, x: T, y: T)
    ensures StableSort(less, [x, y]) == if less(y, x) then [y, x] else [x, y]
  {
    assert [x, y][..1] == [x] && [x][..0] == [];
    assert StableSort(less, [x]) == [x] && Insert(less, [], y) == [y];
  }

  // ---------- Uniqueness: the contract determines the result ----------

  lemma HeadsAgree<T(!new)>(less: (T, T) -> bool, s: seq<T>, t: seq<T>)
    requires StrictWeakOrder(less) && Sorted(less, s) && Sorted(less, t)
    requires s != [] && forall y :: Ties(less, s, y) == Ties(less, t, y)
    ensures t != [] && s[0] == t[0]
  {
    var p := z => Tied(less, s[0], z);
    assert Filter(p, s) == Ties(less, s, s[0]) == Ties(less, t, s[0]) == Filter(p, t);
    FilterMembers(p, s, s[0]);
    FilterMembers(p, t, s[0]);
    var q := z => Tied(less, t[0], z);
    assert Filter(q, t) == Ties(less, t, t[0]) == Ties(less, s, t[0]) == Filter(q, s);
    FilterMembers(q, t, t[0]);
    FilterMembers(q, s, t[0]);
    assert t[0] in s && s[0] in t;
    assert p(s[0]) && p(t[0]);
    assert s == [s[0]] + s[1..] && t == [t[0]] + t[1..];
    FilterAppend(p, [s[0]], s[1..]);
    FilterAppend(p, [t[0]], t[1..]);
    assert Filter(p, s)[0] == s[0] && Filter(p, t)[0] == t[0];
  }

  /** Two sorted sequences with the same tie classes, each in the same order, are equal. */
  lemma {:induction false} SortedUnique<T(!new)>(less: (T, T) -> bool, s: seq<T>, t: seq<T>)
    requires StrictWeakOrder(less) && Sorted(less, s) && Sorted(less, t)
    requires forall y :: Ties(less, s, y) == Ties(less, t, y)
    ensures s == t
  {
    if s == [] {
      if t != [] { HeadsAgree(less, t, s); }
    } else {
      HeadsAgree(less, s, t);
      assert s == [s[0]] + s[1..] && t == [s[0]] + t[1..];
      forall y ensures Ties(less, s[1..], y) == Ties(less, t[1..], y) {
        var p := z => Tied(less, y, z);
        FilterAppend(p, [s[0]], s[1..]);
        FilterAppend(p, [s[0]], t[1..]);
        assert Filter(p, s) == Ties(less, s, y) == Ties(less, t, y) == Filter(p, t);
        assert Filter(p, s)[|Filter(p, [s[0]])|..] == Filter(p, s[1..]);
        assert Filter(p, t)[|Filter(p, [s[0]])|..] == Filter(p, t[1..]);
      }
      SortedUnique(less, s[1..], t[1..]);
    }
  }

  /** Any sorted rearrangement that keeps tie classes in order is the stable sort. */
  lemma StableSortUnique<T(!new)>(less: (T, T) -> bool, s: seq<T>, t: seq<T>)
    requires StrictWeakOrder(less) && Sorted(less, t)
    requires forall y :: Ties(less, t, y) == Ties(less, s, y)
    ensures t == StableSort(less, s)
  {
    SortSorts(less, s);
    forall y ensures Ties(less, t, y) == Ties(less, StableSort(less, s), y) {
      SortKeepsTies(less, s, y);
    }
    SortedUnique(less, t, StableSort(less, s));
  }

  // ---------- Total orders: only the multiset matters ----------

  lemma {:induction false} FilterCounts<T>(p: T -> bool, s: seq<T>, x: T)
    requires forall y :: y in s && p(y) ==> y == x
    requires p(x)
    ensures |Filter(p, s)| == multiset(s)[x]
    ensures forall y :: y in Filter(p, s) ==> y == x
  {
    if s != [] {
      assert s == s[..|s| - 1] + [s[|s| - 1]];
      FilterCounts(p, s[..|s| - 1], x);
    }
  }

  lemma {:induction false} SortForgetsOrder<T(!new)>(less: (T, T) -> bool, s: seq<T>, t: seq<T>)
    requires StrictTotalOrder(less)
    requires multiset(s) == multiset(t)
    ensures StableSort(less, s) == StableSort(less, t)
  {
    SortSorts(less, t);
    forall y ensures Ties(less, StableSort(less, t), y) == Ties(less, s, y) {
      SortKeepsTies(less, t, y);
      var p := z => Tied(less, y, z);
      FilterCounts(p, s, y);
      FilterCounts(p, t, y);
      assert Filter(p, s) == Filter(p, t) by {
        assert forall i :: 0 <= i < |Filter(p, s)| ==> Filter(p, s)[i] in Filter(p, s);
        assert forall i :: 0 <= i < |Filter(p, t)| ==> Filter(p, t)[i] in Filter(p, t);
      }
      assert Ties(less, s, y) == Filter(p, s) && Ties(less, t, y) == Filter(p, t);
    }
    StableSortUnique(less, s, StableSort(less, t));
  }

  // ---------- The first element with a property ----------

  function FindFirst<T>(p: T -> bool, s: seq<T>): Option<T> {
    if s == [] then None
    else match FindFirst(p, s[..|s| - 1])
         case Some(x) => Some(x)
         case None => if p(s[|s| - 1]) then Some(s[|s| - 1]) else None
  }

  lemma {:induction false} FindFirstIndex<T>(p: T -> bool, s: seq<T>) returns (k: nat)
    ensures FindFirst(p, s).None? <==> forall i :: 0 <= i < |s| ==> !p(s[i])
    ensures FindFirst(p, s).Some? ==>
              k < |s| && p(s[k]) && FindFirst(p, s) == Some(s[k]) && forall i :: 0 <= i < k ==> !p(s[i])
  {
    if s == [] {
      k := 0;
    } else {
      k := FindFirstIndex(p, s[..|s| - 1]);
      if FindFirst(p, s[..|s| - 1]).None? { k := |s| - 1; }
    }
  }

  lemma {:induction false} FindFirstFiltered<T>(p: T -> bool, q: T -> bool, s: seq<T>)
    ensures FindFirst(p, Filter(q, s)) == FindFirst(x => p(x) && q(x), s)
  {
    if s != [] {
      var front, last := s[..|s| - 1], s[|s| - 1];
      FindFirstFiltered(p, q, front);
      if q(last) {
        assert Filter(q, s)[..|Filter(q, s)| - 1] == Filter(q, front);
      } else {
        assert Filter(q, s) == Filter(q, front);
      }
    }
  }

  /** The element at w is the first of s with property p. */
  ghost predicate IsFirst<T>(p: T -> bool, s: seq<T>, w: nat) {
    w < |s| && p(s[w]) && forall i :: 0 <= i < w ==> !p(s[i])
  }

  lemma {:induction false} FirstTied<T(!new)>(less: (T, T) -> bool, s: seq<T>, p: T -> bool, w: nat) returns (k: nat)
    requires StrictWeakOrder(less) && IsFirst(p, StableSort(less, s), w)
    ensures k < |s| && s[k] == StableSort(less, s)[w]
    ensures forall i :: 0 <= i < k && p(s[i]) ==> !Tied(less, s[k], s[i])
  {
    var sorted := StableSort(less, s);
    var r := sorted[w];
    var q := y => Tied(less, r, y);
    var both := x => p(x) && q(x);
    FindFirstFiltered(p, q, sorted);
    FindFirstFiltered(p, q, s);
    SortKeepsTies(less, s, r);
    assert Filter(q, sorted) == Ties(less, sorted, r) == Ties(less, s, r) == Filter(q, s);
    assert FindFirst(both, sorted) == FindFirst(p, Filter(q, sorted)) == FindFirst(both, s);
    var at := FindFirstIndex(both, sorted);
    assert both(sorted[w]);
    assert at == w;
    k := FindFirstIndex(both, s);
  }

  /** The first element with a property after sorting: nothing with the property is strictly before
      it, and among those that tie with it, it came first before sorting too. */
  lemma {:induction false} FirstAfterSort<T(!new)>(less: (T, T) -> bool, s: seq<T>, p: T -> bool, w: nat)
    returns (k: nat)
    requires StrictWeakOrder(less) && IsFirst(p, StableSort(less, s), w)
    ensures k < |s| && s[k] == StableSort(less, s)[w]
    ensures forall i :: 0 <= i < |s| && p(s[i]) ==> !less(s[i], s[k])
    ensures forall i :: 0 <= i < k && p(s[i]) ==> less(s[k], s[i])
  {
    k := FirstTied(less, s, p, w);
    var sorted := StableSort(less, s);
    SortSorts(less, s);
    forall i | 0 <= i < |s| && p(s[i]) ensures !less(s[i], s[k]) {
      SortMembers(less, s, s[i]);
      var j :| 0 <= j < |sorted| && sorted[j] == s[i];
      assert w <= j;
    }
  }

  // ---------- Maps over sequences ----------

  function Map<A, B>(f: A -> B, s: seq<A>): seq<B> {
    if s == [] then [] else Map(f, s[..|s| - 1]) + [f(s[|s| - 1])]
  }

  lemma {:induction false} MapIndex<A, B>(f: A -> B, s: seq<A>)
    ensures |Map(f, s)| == |s| && forall i :: 0 <= i < |s| ==> Map(f, s)[i] == f(s[i])
  {
    if s != [] { MapIndex(f, s[..|s| - 1]); }
  }

  lemma MapSnoc<A, B>(f: A -> B, s: seq<A>, x: A)
    ensures Map(f, s + [x]) == Map(f, s) + [f(x)]
  {
    assert (s + [x])[..|s|] == s;
  }

  lemma {:induction false} MapAppend<A, B>(f: A -> B, s: seq<A>, t: seq<A>)
    ensures Map(f, s + t) == Map(f, s) + Map(f, t)
    decreases |t|
  {
    if t == [] {
      assert s + t == s;
    } else {
      var front, y := t[..|t| - 1], t[|t| - 1];
      assert s + t == (s + front) + [y];
      MapSnoc(f, s + front, y);
      MapAppend(f, s, front);
    }
  }

  lemma MapMiddle<A, B>(f: A -> B, s: seq<A>, x: A, t: seq<A>)
    ensures multiset(Map(f, s + [x] + t)) == multiset(Map(f, s + t)) + multiset{f(x)}
  {
    MapAppend(f, s + [x], t);
    MapSnoc(f, s, x);
    MapAppend(f, s, t);
  }

  lemma Without<A>(s: seq<A>, x: A) returns (before: seq<A>, after: seq<A>)
    requires x in s
    ensures s == before + [x] + after && multiset(before + after) == multiset(s) - multiset{x}
  {
    var i :| 0 <= i < |s| && s[i] == x;
    before, after := s[..i], s[i + 1..];
    assert s == before + [x] + after;
  }

  /** Mapping rearranged sequences gives rearranged results. */
  lemma {:induction false} MapPermutes<A, B>(f: A -> B, s: seq<A>, t: seq<A>)
    requires multiset(s) == multiset(t)
    ensures multiset(Map(f, s)) == multiset(Map(f, t))
    decreases |s|
  {
    if s == [] {
      assert |t| == |multiset(t)| == 0;
    } else {
      var front, x := s[..|s| - 1], s[|s| - 1];
      assert s == front + [x];
      assert x in multiset(t);
      var before, after := Without(t, x);
      assert multiset(front) == multiset(s) - multiset{x};
      MapPermutes(f, front, before + after);
      MapMiddle(f, before, x, after);
    }
  }
}
