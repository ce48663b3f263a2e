/**
 * Python's ordering of `str` values (lexicographic by code point), `sorted`
 * on lists of names, and the de-duplication done by `set(...)` and by
 * first-come dictionary keys.
 */
module Sorting {

  /** `a <= b` in Python's string order. */
  predicate LexLe(a: string, b: string)
    decreases |a|
  {
    if a == [] then true
    else if b == [] then false
    else if a[0] != b[0] then a[0] < b[0]
    else LexLe(a[1..], b[1..])
  }

  lemma {:induction false} LexLeTotal(a: string, b: string)
    ensures LexLe(a, b) || LexLe(b, a)
    decreases |a|
  {
    if a != [] && b != [] && a[0] == b[0] {
      LexLeTotal(a[1..], b[1..]);
    }
  }

  lemma {:induction false} LexLeTransitive(a: string, b: string, c: string)
    requires LexLe(a, b) && LexLe(b, c)
    ensures LexLe(a, c)
    decreases |a|
  {
    if a != [] && b != [] && c != [] && a[0] == b[0] && b[0] == c[0] {
      LexLeTransitive(a[1..], b[1..], c[1..]);
    }
  }

  lemma {:induction false} LexLeAntisymmetric(a: string, b: string)
    requires LexLe(a, b) && LexLe(b, a)
    ensures a == b
    decreases |a|
  {
    if a != [] && b != [] {
      LexLeAntisymmetric(a[1..], b[1..]);
      assert a == [a[0]] + a[1..] && b == [b[0]] + b[1..];
    }
  }

  predicate Sorted(s: seq<string>) {
    forall i, j :: 0 <= i < j < |s| ==> LexLe(s[i], s[j])
  }

  /** Inserts `x` into a sorted list before the first element it does not exceed. */
  function Insert(x: string, s: seq<string>): (r: seq<string>)
    requires Sorted(s)
    ensures Sorted(r)
    ensures multiset(r) == multiset(s) + multiset{x}
  {
    if s == [] then [x]
    else if LexLe(x, s[0]) then
      SortedBelowHead(x, s);
      [x] + s
    else
      var rest := Insert(x, s[1..]);
      assert s == [s[0]] + s[1..];
      SortedAfterHead(x, s, rest);
      [s[0]] + rest
  }

  lemma SortedBelowHead(x: string, s: seq<string>)
    requires Sorted(s) && s != [] && LexLe(x, s[0])
    ensures Sorted([x] + s)
  {
    forall j | 0 < j < |s| ensures LexLe(x, s[j]) {
      LexLeTransitive(x, s[0], s[j]);
    }
  }

  lemma SortedAfterHead(x: string, s: seq<string>, rest: seq<string>)
    requires Sorted(s) && s != [] && !LexLe(x, s[0])
    requires Sorted(rest) && multiset(rest) == multiset(s[1..]) + multiset{x}
    ensures Sorted([s[0]] + rest)
  {
    LexLeTotal(x, s[0]);
    forall j | 0 <= j < |rest| ensures LexLe(s[0], rest[j]) {
      var y := rest[j];
      assert y in multiset(rest);
      if y != x {
        assert y in multiset(s[1..]);
        var k :| 0 <= k < |s[1..]| && s[1..][k] == y;
        assert s[k + 1] == y;
      }
    }
  }

  /** Python's `sorted(s)` on strings. */
  function Sort(s: seq<string>): (r: seq<string>)
    ensures Sorted(r)
    ensures multiset(r) == multiset(s)
    ensures |r| == |s|
  {
    if s == [] then []
    else
      assert s == [s[0]] + s[1..];
      Insert(s[0], Sort(s[1..]))
  }

  /** Sorting keeps exactly the elements of the list. */
  lemma InSort(s: seq<string>, x: string)
    ensures x in Sort(s) <==> x in s
  {
    assert x in Sort(s) <==> x in multiset(Sort(s));
  }

  /** Sorting a list that is already sorted leaves it as it is. */
  lemma {:induction false} SortSorted(s: seq<string>)
    requires Sorted(s)
    ensures Sort(s) == s
  {
    if s != [] {
      SortSorted(s[1..]);
      assert s == [s[0]] + s[1..];
    }
  }

  lemma {:induction false} LexLeReflexive(a: string)
    ensures LexLe(a, a)
    decreases |a|
  {
    if a != [] {
      LexLeReflexive(a[1..]);
    }
  }

  /** The head of a sorted list is at most each of its elements. */
  lemma HeadIsLeast(s: seq<string>, x: string)
    requires Sorted(s) && x in s
    ensures LexLe(s[0], x)
  {
    var i :| 0 <= i < |s| && s[i] == x;
    if i == 0 {
      LexLeReflexive(x);
    }
  }

  /** Two sorted lists with the same elements are equal. */
  lemma {:induction false} SortedUnique(r: seq<string>, s: seq<string>)
    requires Sorted(r) && Sorted(s) && multiset(r) == multiset(s)
    ensures r == s
    decreases |r|
  {
    if r != [] {
      assert r[0] in multiset(s);
      assert s != [];
      assert s[0] in multiset(r);
      HeadIsLeast(s, r[0]);
      HeadIsLeast(r, s[0]);
      LexLeAntisymmetric(r[0], s[0]);
      assert multiset(r[1..]) == multiset(s[1..]) by {
        assert r == [r[0]] + r[1..];
        assert s == [s[0]] + s[1..];
        assert multiset(r) == multiset([r[0]]) + multiset(r[1..]);
        assert multiset(s) == multiset([s[0]]) + multiset(s[1..]);
        assert multiset([r[0]]) == multiset([s[0]]);
        forall z ensures multiset(r[1..])[z] == multiset(s[1..])[z] {
          assert multiset(r)[z] == multiset([r[0]])[z] + multiset(r[1..])[z];
          assert multiset(s)[z] == multiset([s[0]])[z] + multiset(s[1..])[z];
        }
      }
      SortedUnique(r[1..], s[1..]);
    } else {
      assert |multiset(s)| == 0;
    }
  }

  /** Sorting gives the same list for any arrangement of the same names. */
  lemma SortPermutation(r: seq<string>, s: seq<string>)
    requires multiset(r) == multiset(s)
    ensures Sort(r) == Sort(s)
  {
    SortedUnique(Sort(r), Sort(s));
  }

  predicate Distinct(s: seq<string>) {
    forall i, j :: 0 <= i < j < |s| ==> s[i] != s[j]
  }

  /** The distinct elements of `s` in order of first appearance. */
  function Dedup(s: seq<string>): (r: seq<string>)
    ensures Distinct(r)
    ensures forall x :: x in r <==> x in s
  {
    if s == [] then []
    else
      var d := Dedup(s[..|s| - 1]);
      assert forall x :: x in s <==> x in s[..|s| - 1] || x == s[|s| - 1] by {
        assert s == s[..|s| - 1] + [s[|s| - 1]];
      }
      if s[|s| - 1] in d then d else d + [s[|s| - 1]]
  }

  /** Python's `sorted(set(s))`: the distinct elements in ascending order. */
  function SortedSet(s: seq<string>): (r: seq<string>)
    ensures Sorted(r) && Distinct(r)
    ensures forall x :: x in r <==> x in s
  {
    var d := Dedup(s);
    SortSameMembers(d);
    SortKeepsDistinct(d);
    Sort(d)
  }

  lemma SortSameMembers(d: seq<string>)
    ensures forall x :: x in Sort(d) <==> x in d
  {
    var r := Sort(d);
    forall x ensures x in r <==> x in d {
      assert x in r <==> x in multiset(r);
    }
  }

  /** An element at two different positions occurs at least twice. */
  lemma TwiceCounted(r: seq<string>, i: nat, j: nat)
    requires i < j < |r| && r[i] == r[j]
    ensures multiset(r)[r[i]] >= 2
  {
    assert r == r[..i] + [r[i]] + r[i + 1..j] + [r[j]] + r[j + 1..];
  }

  /** Sorting a list without repetitions gives a list without repetitions. */
  lemma SortKeepsDistinct(d: seq<string>)
    requires Distinct(d)
    ensures Distinct(Sort(d))
  {
    var r := Sort(d);
    forall i, j | 0 <= i < j < |r| ensures r[i] != r[j] {
      if r[i] == r[j] {
        TwiceCounted(r, i, j);
        DistinctCount(d, r[i]);
        assert false;
      }
    }
  }

  /** In a list without repetitions, an element occurs at most once. */
  lemma {:induction false} DistinctCount(s: seq<string>, x: string)
    requires Distinct(s)
    ensures multiset(s)[x] <= 1
  {
    if s != [] {
      assert s == [s[0]] + s[1..];
      DistinctCount(s[1..], x);
      if x == s[0] {
        assert x !in s[1..];
      }
    }
  }

  /** The first `n` elements of a sorted list are its `n` smallest. */
  lemma TakeSorted(s: seq<string>, n: nat)
    requires Sorted(s) && n <= |s|
    ensures Sorted(s[..n])
  {
  }
}
