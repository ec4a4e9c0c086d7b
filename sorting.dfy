/** The pages sort with `Array.prototype.sort(cmp)`, which reorders the
    array in place and is stable. Every comparator they use compares one
    numeric key of the two elements, so a sort is modelled as a stable sort
    by an integer key into non-increasing order (an ascending sort uses the
    negated key). `SortDesc` specifies the result; `SortInPlace` is the
    in-place algorithm proved against it. */
module Sorting {
  import Seqs

  /** Keys never increase from left to right. */
  predicate SortedDesc<T>(s: seq<T>, key: T -> int) {
    forall i, j :: 0 <= i < j < |s| ==> key(s[i]) >= key(s[j])
  }

  /** The elements whose key is `k`. */
  function HasKey<T>(key: T -> int, k: int): T -> bool {
    x => key(x) == k
  }

  /** Inserts `x` after every element whose key is at least `key(x)`. */
  function Insert<T>(s: seq<T>, x: T, key: T -> int): (r: seq<T>)
    ensures |r| == |s| + 1
    ensures multiset(r) == multiset(s) + multiset{x}
  {
    if s == [] then [x]
    else if key(s[0]) >= key(x) then
      assert s == [s[0]] + s[1..];
      [s[0]] + Insert(s[1..], x, key)
    else [x] + s
  }

  /** The stable sort of `s` by non-increasing key: insertion of each
      element, first to last, into the sorted prefix before it. */
  function SortDesc<T>(s: seq<T>, key: T -> int): (r: seq<T>)
    ensures |r| == |s|
    ensures multiset(r) == multiset(s)
  {
    if s == [] then []
    else
      assert s == s[..|s| - 1] + [s[|s| - 1]];
      Insert(SortDesc(s[..|s| - 1], key), s[|s| - 1], key)
  }

  /** Sorting one more element is inserting it into the sorted rest. */
  lemma SortDescSnoc<T>(p: seq<T>, x: T, key: T -> int)
    ensures SortDesc(p + [x], key) == Insert(SortDesc(p, key), x, key)
  {
    assert (p + [x])[..|p|] == p;
  }

  lemma {:induction false} InsertSorted<T>(s: seq<T>, x: T, key: T -> int)
    requires SortedDesc(s, key)
    ensures SortedDesc(Insert(s, x, key), key)
  {
    if s != [] && key(s[0]) >= key(x) {
      InsertSorted(s[1..], x, key);
      var r := Insert(s[1..], x, key);
      forall y | y in r ensures key(s[0]) >= key(y) {
        assert y in multiset(r);
        if y != x {
          assert y in multiset(s[1..]);
        }
      }
    }
  }

  /** The result of the sort is ordered by non-increasing key. */
  lemma {:induction false} SortDescSorted<T>(s: seq<T>, key: T -> int)
    ensures SortedDesc(SortDesc(s, key), key)
  {
    if s != [] {
      SortDescSorted(s[..|s| - 1], key);
      InsertSorted(SortDesc(s[..|s| - 1], key), s[|s| - 1], key);
    }
  }

  lemma {:induction false} InsertFilter<T(!new)>(s: seq<T>, x: T, key: T -> int, k: int)
    requires SortedDesc(s, key)
    ensures Seqs.Filter(Insert(s, x, key), HasKey(key, k)) ==
            Seqs.Filter(s, HasKey(key, k)) + Seqs.Filter([x], HasKey(key, k))
  {
    if s == [] {
      assert Insert(s, x, key) == [x];
      assert Seqs.Filter(s, HasKey(key, k)) == [];
    } else if key(s[0]) >= key(x) {
      InsertFilter(s[1..], x, key, k);
      InsertFilterPast(s, x, key, k);
    } else {
      InsertFilterFront(s, x, key, k);
    }
  }

  /** `x` goes past the head of `s`: filtering commutes with keeping it. */
  lemma InsertFilterPast<T(!new)>(s: seq<T>, x: T, key: T -> int, k: int)
    requires s != [] && key(s[0]) >= key(x)
    requires Seqs.Filter(Insert(s[1..], x, key), HasKey(key, k)) ==
             Seqs.Filter(s[1..], HasKey(key, k)) + Seqs.Filter([x], HasKey(key, k))
    ensures Seqs.Filter(Insert(s, x, key), HasKey(key, k)) ==
            Seqs.Filter(s, HasKey(key, k)) + Seqs.Filter([x], HasKey(key, k))
  {
    var f := HasKey(key, k);
    InsertPast(s, x, key);
    Seqs.FilterCons(s, f);
    Seqs.FilterAppend([s[0]], Insert(s[1..], x, key), f);
    Seqs.AppendAssoc(Seqs.Filter([s[0]], f), Seqs.Filter(s[1..], f), Seqs.Filter([x], f));
  }

  lemma InsertPast<T>(s: seq<T>, x: T, key: T -> int)
    requires s != [] && key(s[0]) >= key(x)
    ensures Insert(s, x, key) == [s[0]] + Insert(s[1..], x, key)
  {
  }

  /** `x` goes in front of a sorted `s` whose keys are all smaller. */
  lemma InsertFilterFront<T(!new)>(s: seq<T>, x: T, key: T -> int, k: int)
    requires SortedDesc(s, key) && s != [] && key(s[0]) < key(x)
    ensures Seqs.Filter(Insert(s, x, key), HasKey(key, k)) ==
            Seqs.Filter(s, HasKey(key, k)) + Seqs.Filter([x], HasKey(key, k))
  {
    var f := HasKey(key, k);
    assert Insert(s, x, key) == [x] + s;
    Seqs.FilterAppend([x], s, f);
    if key(x) == k {
      Seqs.FilterNone(s, f);
    } else {
      assert Seqs.Filter([x], f) == [];
    }
  }

  /** Stability: the elements sharing any one key keep their input order. */
  lemma {:induction false} SortDescStable<T(!new)>(s: seq<T>, key: T -> int, k: int)
    ensures Seqs.Filter(SortDesc(s, key), HasKey(key, k)) == Seqs.Filter(s, HasKey(key, k))
  {
    if s != [] {
      var init, last := s[..|s| - 1], s[|s| - 1];
      assert s == init + [last];
      SortDescSnoc(init, last, key);
      SortDescStable(init, key, k);
      SortDescSorted(init, key);
      InsertFilter(SortDesc(init, key), last, key, k);
      Seqs.FilterAppend(init, [last], HasKey(key, k));
    }
  }

  /** Where the inner loop of `SortInPlace` stops, inserting `x` is a splice. */
  lemma {:induction false} InsertAt<T>(s: seq<T>, x: T, key: T -> int, j: nat)
    requires SortedDesc(s, key) && j <= |s|
    requires j > 0 ==> key(s[j - 1]) >= key(x)
    requires forall m :: j <= m < |s| ==> key(s[m]) < key(x)
    ensures Insert(s, x, key) == s[..j] + [x] + s[j..]
  {
    if j == 0 {
      InsertFront(s, x, key);
    } else {
      var t := s[1..];
      HeadAtLeast(s, x, key, j);
      InsertPast(s, x, key);
      TailShifted(s, x, key, j);
      InsertAt(t, x, key, j - 1);
      SliceTail(s, j);
      AppendAssoc3(s[0], t[..j - 1], x, t[j - 1..]);
    }
  }

  lemma InsertFront<T>(s: seq<T>, x: T, key: T -> int)
    requires forall m :: 0 <= m < |s| ==> key(s[m]) < key(x)
    ensures Insert(s, x, key) == s[..0] + [x] + s[0..]
  {
    assert s[..0] + [x] + s[0..] == [x] + s;
  }

  lemma HeadAtLeast<T>(s: seq<T>, x: T, key: T -> int, j: nat)
    requires SortedDesc(s, key) && 0 < j <= |s| && key(s[j - 1]) >= key(x)
    ensures key(s[0]) >= key(x)
  {
  }

  /** The preconditions of `InsertAt` carry over to the tail, one place left. */
  lemma TailShifted<T>(s: seq<T>, x: T, key: T -> int, j: nat)
    requires SortedDesc(s, key) && 0 < j <= |s|
    requires forall m :: j <= m < |s| ==> key(s[m]) < key(x)
    ensures SortedDesc(s[1..], key)
    ensures forall m :: j - 1 <= m < |s[1..]| ==> key(s[1..][m]) < key(x)
  {
  }

  lemma SliceTail<T>(s: seq<T>, j: nat)
    requires 0 < j <= |s|
    ensures s[..j] == [s[0]] + s[1..][..j - 1] && s[j..] == s[1..][j - 1..]
  {
  }

  lemma AppendAssoc3<T>(h: T, a: seq<T>, x: T, b: seq<T>)
    ensures [h] + (a + [x] + b) == ([h] + a) + [x] + b
  {
  }

  /** Insertion sort of `a` in place, by non-increasing key, stable. */
  method SortInPlace<T>(a: array<T>, key: T -> int)
    modifies a
    ensures a[..] == SortDesc(old(a[..]), key)
  {
    ghost var input := a[..];
    var i := 0;
    while i < a.Length
      invariant 0 <= i <= a.Length
      invariant a[..i] == SortDesc(input[..i], key)
      invariant forall m :: i <= m < a.Length ==> a[m] == input[m]
    {
      SortDescSorted(input[..i], key);
      InsertStep(a, i, key, SortDesc(input[..i], key));
      SortPrefixSnoc(input, i, key);
      i := i + 1;
    }
    assert input[..a.Length] == input;
  }

  /** Sorting a prefix one element longer inserts that element. */
  lemma SortPrefixSnoc<T>(s: seq<T>, i: nat, key: T -> int)
    requires i < |s|
    ensures SortDesc(s[..i + 1], key) == Insert(SortDesc(s[..i], key), s[i], key)
  {
    assert s[..i + 1] == s[..i] + [s[i]];
    SortDescSnoc(s[..i], s[i], key);
  }

  /** One pass of the outer loop: moves `a[i]` left past the elements of the
      sorted prefix whose key is smaller. */
  method InsertStep<T>(a: array<T>, i: nat, key: T -> int, ghost sorted: seq<T>)
    requires i < a.Length && a[..i] == sorted && SortedDesc(sorted, key)
    modifies a
    ensures a[..i + 1] == Insert(sorted, old(a[i]), key)
    ensures forall m :: i < m < a.Length ==> a[m] == old(a[m])
  {
    var x := a[i];
    var j := i;
    while j > 0 && key(a[j - 1]) < key(x)
      invariant 0 <= j <= i
      invariant forall m :: 0 <= m < j ==> a[m] == sorted[m]
      invariant forall m :: j < m <= i ==> a[m] == sorted[m - 1]
      invariant forall m :: j <= m < i ==> key(sorted[m]) < key(x)
      invariant forall m :: i < m < a.Length ==> a[m] == old(a[m])
    {
      a[j] := a[j - 1];
      j := j - 1;
    }
    a[j] := x;
    Splice(a[..], sorted, x, i, j);
    InsertAt(sorted, x, key, j);
  }

  /** The array contents after the inner loop of `InsertStep`, as a splice. */
  lemma Splice<T>(b: seq<T>, sorted: seq<T>, x: T, i: nat, j: nat)
    requires j <= i < |b| && |sorted| == i
    requires forall m :: 0 <= m < j ==> b[m] == sorted[m]
    requires b[j] == x
    requires forall m :: j < m <= i ==> b[m] == sorted[m - 1]
    ensures b[..i + 1] == sorted[..j] + [x] + sorted[j..]
  {
    forall m | 0 <= m <= i ensures b[m] == (sorted[..j] + [x] + sorted[j..])[m] {
      if m < j { } else if m == j { } else { }
    }
  }

  /** Sorts a copy of `s`, as the pages do with a freshly parsed array. */
  method SortedCopy<T>(s: seq<T>, key: T -> int) returns (r: seq<T>)
    ensures r == SortDesc(s, key)
    ensures SortedDesc(r, key) && multiset(r) == multiset(s)
  {
    var a := new T[|s|](i requires 0 <= i < |s| => s[i]);
    assert a[..] == s;
    SortInPlace(a, key);
    r := a[..];
    SortDescSorted(s, key);
  }

  /** `.sort(cmp).slice(0, n)`: the first `n` elements after sorting. */
  function Top<T>(s: seq<T>, key: T -> int, n: nat): seq<T> {
    var t := SortDesc(s, key);
    t[..if n < |t| then n else |t|]
  }

  /** The top `n` are at most `n` elements of `s`, ordered by non-increasing
      key, and no element left out has a larger key than one kept. */
  lemma TopSpec<T>(s: seq<T>, key: T -> int, n: nat)
    ensures |Top(s, key, n)| == if n < |s| then n else |s|
    ensures SortedDesc(Top(s, key, n), key)
    ensures forall x :: x in Top(s, key, n) ==> x in s
    ensures forall x :: x in s ==>
      x in Top(s, key, n) || forall y :: y in Top(s, key, n) ==> key(y) >= key(x)
  {
    var t := SortDesc(s, key);
    var r := Top(s, key, n);
    SortDescSorted(s, key);
    forall x | x in r ensures x in s {
      assert x in multiset(t);
    }
    forall x | x in s && x !in r ensures forall y :: y in r ==> key(y) >= key(x) {
      assert x in multiset(t);
      var j :| 0 <= j < |t| && t[j] == x;
      forall y | y in r ensures key(y) >= key(x) {
        var i :| 0 <= i < |r| && r[i] == y;
        assert t[i] == y;
      }
    }
  }
}
