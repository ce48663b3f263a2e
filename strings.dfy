/**
 * The Python `str` operations the pipeline relies on, over `seq<char>`:
 * `startswith`, `endswith`, `in`, `replace`, `split`, `join`, `lower`,
 * `strip`, `rfind` and `str(int)`.
 */
module Strings {

  predicate StartsWith(s: string, prefix: string) {
    |prefix| <= |s| && s[..|prefix|] == prefix
  }

  predicate EndsWith(s: string, suffix: string) {
    |suffix| <= |s| && s[|s| - |suffix|..] == suffix
  }

  /** Python's `t in s`: `t` occurs in `s` as a contiguous piece. */
  predicate Contains(s: string, t: string)
    decreases |s|
  {
    StartsWith(s, t) || (|s| > 0 && Contains(s[1..], t))
  }

  /** An occurrence of `t` starting at index `i` is an occurrence of `t` in `s`. */
  lemma {:induction false} ContainsAt(s: string, t: string, i: nat)
    requires i + |t| <= |s| && s[i..i + |t|] == t
    ensures Contains(s, t)
    decreases i
  {
    if i > 0 {
      assert s[1..][i - 1..i - 1 + |t|] == s[i..i + |t|];
      ContainsAt(s[1..], t, i - 1);
    }
  }

  /** `b` occurs in `a + b + c`. */
  lemma ContainsInside(a: string, b: string, c: string)
    ensures Contains(a + b + c, b)
  {
    assert (a + b + c)[|a|..|a| + |b|] == b;
    ContainsAt(a + b + c, b, |a|);
  }

  /** Every occurrence of `t` in `s` starts at some index of `s`. */
  lemma {:induction false} ContainsWitness(s: string, t: string) returns (i: nat)
    requires Contains(s, t)
    ensures i + |t| <= |s| && s[i..i + |t|] == t
    decreases |s|
  {
    if StartsWith(s, t) {
      i := 0;
    } else {
      var j := ContainsWitness(s[1..], t);
      assert s[1..][j..j + |t|] == s[j + 1..j + 1 + |t|];
      i := j + 1;
    }
  }

  /** `t` occurs in `s` starting at index `i`. */
  predicate OccursAt(s: string, t: string, i: nat) {
    i + |t| <= |s| && s[i..i + |t|] == t
  }

  /** A `t` that occurs at no index of `s` does not occur in `s`. */
  lemma {:induction false} NotContainsAnywhere(s: string, t: string)
    requires forall i: nat :: !OccursAt(s, t, i)
    ensures !Contains(s, t)
    decreases |s|
  {
    assert !OccursAt(s, t, 0);
    if s != [] {
      forall i: nat ensures !OccursAt(s[1..], t, i) {
        assert !OccursAt(s, t, i + 1);
        assert i + |t| <= |s[1..]| ==> s[1..][i..i + |t|] == s[i + 1..i + 1 + |t|];
      }
      NotContainsAnywhere(s[1..], t);
    }
  }

  /** A non-empty `t` whose first character is absent from `s` does not occur in `s`. */
  lemma {:induction false} NotContainsFirstChar(s: string, t: string)
    requires t != [] && t[0] !in s
    ensures !Contains(s, t)
    decreases |s|
  {
    if s != [] {
      assert s[0] != t[0];
      NotContainsFirstChar(s[1..], t);
    }
  }

  /**
   * Python's `s.replace(pat, rep)`: every non-overlapping occurrence of
   * `pat`, scanning from the left, is replaced by `rep`.
   */
  function ReplaceAll(s: string, pat: string, rep: string): string
    requires pat != []
    decreases |s|
  {
    if |s| < |pat| then s
    else if s[..|pat|] == pat then rep + ReplaceAll(s[|pat|..], pat, rep)
    else [s[0]] + ReplaceAll(s[1..], pat, rep)
  }

  /** Replacing in a string in which `pat` does not occur changes nothing. */
  lemma {:induction false} ReplaceAbsent(s: string, pat: string, rep: string)
    requires pat != [] && !Contains(s, pat)
    ensures ReplaceAll(s, pat, rep) == s
    decreases |s|
  {
    if |s| >= |pat| {
      assert !StartsWith(s, pat);
      ReplaceAbsent(s[1..], pat, rep);
    }
  }

  /**
   * No occurrence can start inside a prefix that lacks the pattern's first
   * character, so the replacement only acts on what follows it.
   */
  lemma {:induction false} ReplaceAfterPrefix(s: string, t: string, pat: string, rep: string)
    requires pat != [] && pat[0] !in s
    ensures ReplaceAll(s + t, pat, rep) == s + ReplaceAll(t, pat, rep)
    decreases |s|
  {
    if s != [] {
      assert (s + t)[1..] == s[1..] + t;
      ReplaceAfterPrefix(s[1..], t, pat, rep);
      if |s + t| >= |pat| {
        assert (s + t)[0] != pat[0];
        assert (s + t)[..|pat|] != pat;
        calc {
          ReplaceAll(s + t, pat, rep);
          [s[0]] + ReplaceAll(s[1..] + t, pat, rep);
          [s[0]] + (s[1..] + ReplaceAll(t, pat, rep));
          { assert s == [s[0]] + s[1..]; }
          s + ReplaceAll(t, pat, rep);
        }
      } else {
        assert ReplaceAll(t, pat, rep) == t;
      }
    } else {
      assert s + t == t;
    }
  }

  /** No occurrence starts at index 0 when the text differs from the pattern at some index. */
  lemma ReplaceMismatch(s: string, pat: string, rep: string, i: nat)
    requires pat != [] && i < |pat| && i < |s| && s[i] != pat[i]
    ensures ReplaceAll(s, pat, rep) == [s[0]] + ReplaceAll(s[1..], pat, rep)
  {
    if |s| < |pat| {
      assert ReplaceAll(s[1..], pat, rep) == s[1..];
      assert s == [s[0]] + s[1..];
    } else {
      assert s[..|pat|][i] != pat[i];
    }
  }

  /** A trailing occurrence after a prefix without the pattern's first character is replaced. */
  lemma ReplaceTrailing(a: string, pat: string, rep: string)
    requires pat != [] && pat[0] !in a
    ensures ReplaceAll(a + pat, pat, rep) == a + rep
  {
    ReplaceAfterPrefix(a, pat, pat, rep);
    assert pat[..|pat|] == pat && pat[|pat|..] == [];
  }

  /** Replacing one character by one character acts position by position. */
  lemma {:induction false} ReplaceCharAt(s: string, a: char, b: char)
    ensures |ReplaceAll(s, [a], [b])| == |s|
    ensures forall i :: 0 <= i < |s| ==>
      ReplaceAll(s, [a], [b])[i] == (if s[i] == a then b else s[i])
    decreases |s|
  {
    if s != [] {
      ReplaceCharAt(s[1..], a, b);
    }
  }

  /** Index of the first `c` in `s`. */
  function IndexOf(s: string, c: char): (i: nat)
    requires c in s
    ensures i < |s| && s[i] == c && c !in s[..i]
  {
    if s[0] == c then 0 else 1 + IndexOf(s[1..], c)
  }

  /** Python's `s.rfind(c)`: the index of the last `c`, or -1. */
  function LastIndexOf(s: string, c: char): (i: int)
    ensures -1 <= i < |s|
    ensures i == -1 <==> c !in s
    ensures i >= 0 ==> s[i] == c
    decreases |s|
  {
    if s == [] then -1
    else if s[|s| - 1] == c then |s| - 1
    else
      assert s == s[..|s| - 1] + [s[|s| - 1]];
      LastIndexOf(s[..|s| - 1], c)
  }

  /** Nothing after the last occurrence is `c`. */
  lemma {:induction false} LastIndexOfIsLast(s: string, c: char)
    ensures LastIndexOf(s, c) >= 0 ==> c !in s[LastIndexOf(s, c) + 1..]
    decreases |s|
  {
    if s != [] && s[|s| - 1] != c {
      var t := s[..|s| - 1];
      LastIndexOfIsLast(t, c);
      var i := LastIndexOf(t, c);
      if i >= 0 {
        assert s[i + 1..] == t[i + 1..] + [s[|s| - 1]];
      }
    }
  }

  /** Python's `s.split(c)` for a one-character separator. */
  function Split(s: string, c: char): (parts: seq<string>)
    ensures |parts| >= 1
    ensures c in s ==> |parts| >= 2
    decreases |s|
  {
    if c !in s then [s]
    else
      var i := IndexOf(s, c);
      [s[..i]] + Split(s[i + 1..], c)
  }

  /** Python's `sep.join(parts)`. */
  function Join(parts: seq<string>, sep: string): string
  {
    if parts == [] then ""
    else if |parts| == 1 then parts[0]
    else parts[0] + sep + Join(parts[1..], sep)
  }

  /** Splitting, then joining with the same separator, gives back the string. */
  lemma {:induction false} JoinSplit(s: string, c: char)
    ensures Join(Split(s, c), [c]) == s
    decreases |s|
  {
    if c in s {
      var i := IndexOf(s, c);
      JoinSplit(s[i + 1..], c);
      assert s == s[..i] + [c] + s[i + 1..];
    }
  }

  /** No piece of a split contains the separator. */
  lemma {:induction false} SplitPieces(s: string, c: char)
    ensures forall p :: p in Split(s, c) ==> c !in p
    decreases |s|
  {
    if c in s {
      SplitPieces(s[IndexOf(s, c) + 1..], c);
    }
  }

  /** Splitting `a c b` at its first `c` when `a` has none. */
  lemma SplitAt(a: string, c: char, b: string)
    requires c !in a
    ensures Split(a + [c] + b, c) == [a] + Split(b, c)
  {
    var s := a + [c] + b;
    assert s[|a|] == c;
    var i := IndexOf(s, c);
    assert i == |a|;
    assert s[..i] == a && s[i + 1..] == b;
  }

  /** `s.split(c)[0]`: everything before the first `c`. */
  lemma SplitHead(s: string, c: char)
    ensures Split(s, c)[0] == if c in s then s[..IndexOf(s, c)] else s
  {
  }

  /** Python's `s.split(sep)[0]` for a separator of any length. */
  function BeforeFirst(s: string, sep: string): (r: string)
    requires sep != []
    ensures StartsWith(s, r)
    decreases |s|
  {
    if |s| < |sep| then s
    else if s[..|sep|] == sep then ""
    else [s[0]] + BeforeFirst(s[1..], sep)
  }

  /** Before a separator that occurs after a separator-free prefix, the prefix is all there is. */
  lemma {:induction false} BeforeFirstPrefix(s: string, t: string, sep: string)
    requires sep != [] && sep[0] !in s && StartsWith(t, sep)
    ensures BeforeFirst(s + t, sep) == s
    decreases |s|
  {
    if s != [] {
      assert (s + t)[1..] == s[1..] + t;
      assert (s + t)[0] != sep[0];
      BeforeFirstPrefix(s[1..], t, sep);
    } else {
      assert (s + t)[..|sep|] == sep;
    }
  }

  function LowerChar(c: char): char {
    if 'A' <= c <= 'Z' then (c as int + 32) as char else c
  }

  /** Python's `s.lower()` on ASCII letters. */
  function Lower(s: string): (r: string)
    ensures |r| == |s|
    ensures forall i :: 0 <= i < |s| ==> r[i] == LowerChar(s[i])
  {
    seq(|s|, i requires 0 <= i < |s| => LowerChar(s[i]))
  }

  /** Python's `str.isspace` on the ASCII range. */
  predicate IsSpace(c: char) {
    c == ' ' || ('\t' <= c <= '\r') || (28 as char <= c <= 31 as char)
  }

  /** Python's `s.strip()`: leading and trailing whitespace removed. */
  function Strip(s: string): (r: string)
    ensures r == [] || (!IsSpace(r[0]) && !IsSpace(r[|r| - 1]))
    decreases |s|
  {
    if s == [] then []
    else if IsSpace(s[0]) then Strip(s[1..])
    else if IsSpace(s[|s| - 1]) then Strip(s[..|s| - 1])
    else s
  }

  function DigitChar(d: nat): char
    requires d < 10
  {
    ('0' as int + d) as char
  }

  function NatToString(n: nat): (r: string)
    ensures r != []
    ensures forall i :: 0 <= i < |r| ==> '0' <= r[i] <= '9'
  {
    if n < 10 then [DigitChar(n)] else NatToString(n / 10) + [DigitChar(n % 10)]
  }

  /** Python's `str(i)` for an integer. */
  function IntToString(i: int): string {
    if i < 0 then "-" + NatToString(-i) else NatToString(i)
  }

  // ---------------------------------------------------------------------------
  // Slicing facts used by the proofs over lists built from the back

  lemma SnocSlice<T>(s: seq<T>)
    requires s != []
    ensures s[..|s| - 1] + [s[|s| - 1]] == s
  {
  }

  lemma SnocSliceFrom<T>(s: seq<T>, j: nat)
    requires j < |s| - 1
    ensures s[..|s| - 1][j + 1..] == s[j + 1..|s| - 1]
    ensures s[j + 1..|s| - 1] + [s[|s| - 1]] == s[j + 1..]
  {
  }
}
