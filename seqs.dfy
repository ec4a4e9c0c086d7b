/** Sequence and string helpers shared by the stores and pages:
    `Array.prototype.filter`, `String.prototype.includes`, ASCII
    `toLowerCase`/`toUpperCase`, and first-appearance deduplication
    (`Array.from(new Set(xs))`). */
module Seqs {

  /** `s.filter(f)`: the elements of `s` that satisfy `f`, in their order. */
  function Filter<T(!new)>(s: seq<T>, f: T -> bool): (r: seq<T>)
    ensures |r| <= |s|
    ensures forall i :: 0 <= i < |r| ==> f(r[i])
    ensures forall x :: x in r <==> x in s && f(x)
  {
    if s == [] then []
    else (if f(s[0]) then [s[0]] else []) + Filter(s[1..], f)
  }

  /** Filtering keeps every accepted element with its multiplicity and drops
      every rejected one. */
  lemma {:induction false} FilterCount<T(!new)>(s: seq<T>, f: T -> bool, x: T)
    ensures multiset(Filter(s, f))[x] == if f(x) then multiset(s)[x] else 0
  {
    if s != [] {
      FilterCount(s[1..], f, x);
      assert s == [s[0]] + s[1..];
    }
  }

  /** Filtering distributes over concatenation: with `Filter([x], f)` this
      pins the result down completely, so the order of the survivors is the
      order they had in the input. */
  lemma {:induction false} FilterAppend<T(!new)>(a: seq<T>, b: seq<T>, f: T -> bool)
    ensures Filter(a + b, f) == Filter(a, f) + Filter(b, f)
  {
    if a == [] {
      assert a + b == b;
    } else {
      assert (a + b)[1..] == a[1..] + b;
      FilterAppend(a[1..], b, f);
    }
  }

  /** Filtering a non-empty sequence: its head, then its tail. */
  lemma FilterCons<T(!new)>(s: seq<T>, f: T -> bool)
    requires s != []
    ensures Filter(s, f) == Filter([s[0]], f) + Filter(s[1..], f)
  {
    assert s == [s[0]] + s[1..];
    FilterAppend([s[0]], s[1..], f);
  }

  lemma AppendAssoc<T>(a: seq<T>, b: seq<T>, c: seq<T>)
    ensures a + (b + c) == (a + b) + c
  {
  }

  /** A filter whose predicate rejects everything yields nothing. */
  lemma {:induction false} FilterNone<T(!new)>(s: seq<T>, f: T -> bool)
    requires forall i :: 0 <= i < |s| ==> !f(s[i])
    ensures Filter(s, f) == []
  {
    if s != [] {
      FilterNone(s[1..], f);
    }
  }

  /** A filter whose predicate accepts everything yields the input. */
  lemma {:induction false} FilterAll<T(!new)>(s: seq<T>, f: T -> bool)
    requires forall i :: 0 <= i < |s| ==> f(s[i])
    ensures Filter(s, f) == s
  {
    if s != [] {
      FilterAll(s[1..], f);
    }
  }

  /** The multiset of a filter result is contained in that of the input. */
  lemma FilterSubMultiset<T(!new)>(s: seq<T>, f: T -> bool)
    ensures multiset(Filter(s, f)) <= multiset(s)
  {
    var r := Filter(s, f);
    forall x ensures multiset(r)[x] <= multiset(s)[x] {
      FilterCount(s, f, x);
    }
  }

  /** `p` is a prefix of `s` (`s.startsWith(p)`). */
  predicate IsPrefix(p: string, s: string) {
    |p| <= |s| && s[..|p|] == p
  }

  /** `hay.includes(needle)`: `needle` occurs somewhere in `hay`. */
  predicate Contains(hay: string, needle: string)
    decreases |hay|
  {
    IsPrefix(needle, hay) || (hay != [] && Contains(hay[1..], needle))
  }

  /** `needle` occurs in `hay` starting at offset `k`. */
  predicate OccursAt(hay: string, needle: string, k: int) {
    0 <= k <= |hay| - |needle| && hay[k..k + |needle|] == needle
  }

  /** `includes` is the existence of an occurrence at some offset. */
  lemma {:induction false} ContainsAt(hay: string, needle: string)
    ensures Contains(hay, needle) <==> exists k :: OccursAt(hay, needle, k)
  {
    if IsPrefix(needle, hay) {
      assert OccursAt(hay, needle, 0);
    } else if hay != [] {
      ContainsAt(hay[1..], needle);
      if Contains(hay[1..], needle) {
        var k :| OccursAt(hay[1..], needle, k);
        assert hay[k + 1..k + 1 + |needle|] == hay[1..][k..k + |needle|];
        assert OccursAt(hay, needle, k + 1);
      }
      if exists k :: OccursAt(hay, needle, k) {
        var k :| OccursAt(hay, needle, k);
        assert k != 0;
        assert hay[1..][k - 1..k - 1 + |needle|] == hay[k..k + |needle|];
        assert OccursAt(hay[1..], needle, k - 1);
      }
    }
  }

  /** Every string includes the empty string. */
  lemma ContainsEmpty(hay: string)
    ensures Contains(hay, [])
  {
    assert IsPrefix([], hay);
  }

  function LowerChar(c: char): (d: char)
    ensures 'A' <= c <= 'Z' ==> 'a' <= d <= 'z'
    ensures !('A' <= c <= 'Z') ==> d == c
  {
    if 'A' <= c <= 'Z' then (c as int + 32) as char else c
  }

  function UpperChar(c: char): (d: char)
    ensures 'a' <= c <= 'z' ==> 'A' <= d <= 'Z'
    ensures !('a' <= c <= 'z') ==> d == c
  {
    if 'a' <= c <= 'z' then (c as int - 32) as char else c
  }

  /** `s.toLowerCase()` over ASCII letters. */
  function Lower(s: string): (r: string)
    ensures |r| == |s|
    ensures forall i :: 0 <= i < |s| ==> r[i] == LowerChar(s[i])
  {
    seq(|s|, i requires 0 <= i < |s| => LowerChar(s[i]))
  }

  predicate NoDuplicates<T(==)>(s: seq<T>) {
    forall i, j :: 0 <= i < j < |s| ==> s[i] != s[j]
  }

  /** `Array.from(new Set(s))`: each distinct element once, in order of first appearance. */
  function Distinct<T(==, !new)>(s: seq<T>): (r: seq<T>)
    ensures NoDuplicates(r)
    ensures forall x :: x in r <==> x in s
  {
    if s == [] then []
    else
      var d := Distinct(s[..|s| - 1]);
      if s[|s| - 1] in d then d else d + [s[|s| - 1]]
  }

  /** Every occurrence of `y` in `s` comes after some occurrence of `x`. */
  predicate FirstBefore<T(==)>(s: seq<T>, x: T, y: T) {
    forall k :: 0 <= k < |s| && s[k] == y ==> exists a :: 0 <= a < k && s[a] == x
  }

  /** `Distinct` keeps the order of first appearance: of any two of its
      elements, the earlier one first occurs in `s` before the later one. */
  lemma {:induction false} DistinctOrder<T(!new)>(s: seq<T>)
    ensures forall i, j :: 0 <= i < j < |Distinct(s)| ==> FirstBefore(s, Distinct(s)[i], Distinct(s)[j])
  {
    if s != [] {
      var n := |s|;
      var p := s[..n - 1];
      var d := Distinct(p);
      var r := Distinct(s);
      DistinctOrder(p);
      forall i, j | 0 <= i < j < |r|
        ensures FirstBefore(s, r[i], r[j])
      {
        assert r[i] == d[i];
        forall k | 0 <= k < n && s[k] == r[j]
          ensures exists a :: 0 <= a < k && s[a] == r[i]
        {
          if j < |d| {
            assert r[j] == d[j];
            var k' := k;
            if k == n - 1 {
              k' :| 0 <= k' < |p| && p[k'] == r[j];
            }
            assert p[k'] == d[j] && FirstBefore(p, d[i], d[j]);
            var a :| 0 <= a < k' && p[a] == r[i];
            assert s[a] == r[i];
          } else {
            assert d[i] in p;
            var a :| 0 <= a < |p| && p[a] == r[i];
            assert s[a] == r[i];
          }
        }
      }
    }
  }

  /** `s.split(sep)`: the pieces between separators, never an empty list. */
  function Split(s: string, sep: char): (r: seq<string>)
    ensures |r| >= 1
    ensures forall i :: 0 <= i < |r| ==> sep !in r[i]
  {
    if s == [] then [""]
    else
      var t := Split(s[1..], sep);
      if s[0] == sep then [""] + t
      else [[s[0]] + t[0]] + t[1..]
  }

  /** `parts.join(sep)`. */
  function Join(parts: seq<string>, sep: char): string {
    if |parts| == 0 then ""
    else if |parts| == 1 then parts[0]
    else parts[0] + [sep] + Join(parts[1..], sep)
  }

  /** Joining the pieces of a split with the same separator gives back the
      text. */
  lemma {:induction false} JoinSplit(s: string, sep: char)
    ensures Join(Split(s, sep), sep) == s
  {
    if s != [] {
      var t := Split(s[1..], sep);
      JoinSplit(s[1..], sep);
      if s[0] == sep {
        assert Split(s, sep)[1..] == t;
      } else if |t| > 1 {
        var r := Split(s, sep);
        assert r[1..] == t[1..];
        assert Join(t, sep) == t[0] + [sep] + Join(t[1..], sep);
        assert [s[0]] + s[1..] == s;
      } else {
        assert [s[0]] + s[1..] == s;
      }
    }
  }

  /** Without a separator, the split is the whole text. */
  lemma {:induction false} SplitNone(s: string, sep: char)
    requires sep !in s
    ensures Split(s, sep) == [s]
  {
    if s != [] {
      assert sep !in s[1..];
      SplitNone(s[1..], sep);
      assert [s[0]] + s[1..] == s;
    }
  }

  /** At the first separator `k`, the first piece is the text before it and
      the other pieces are the split of the text after it. */
  lemma {:induction false} SplitAt(s: string, sep: char, k: nat)
    requires k < |s| && s[k] == sep && sep !in s[..k]
    ensures Split(s, sep)[0] == s[..k]
    ensures Split(s, sep)[1..] == Split(s[k + 1..], sep)
  {
    if k > 0 {
      assert s[1..][k - 1] == sep;
      assert s[1..][..k - 1] == s[1..k];
      SplitAt(s[1..], sep, k - 1);
      assert s[1..][k..] == s[k + 1..];
      assert s[..k] == [s[0]] + s[1..k];
    }
  }
}
