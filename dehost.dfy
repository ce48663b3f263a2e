/**
 * `yamas/generate_dehost.py`: host-read removal with KneadData. Samples are
 * found by stripping pairing tokens from FASTQ names, the host database is
 * located and checked, one KneadData command is built per sample, and the
 * cleaned outputs are gathered into `fastq_clean/`.
 */
module Dehost {
  import opened Wrappers
  import opened Strings
  import opened Sorting
  import opened Dicts
  import Paths

  // ---------------------------------------------------------------------------
  // Recognising FASTQ files

  /** `_is_fastq`: the lower-cased name ends in a FASTQ extension. */
  predicate IsFastq(name: string) {
    var n := Lower(name);
    EndsWith(n, ".fastq") || EndsWith(n, ".fastq.gz") || EndsWith(n, ".fq") || EndsWith(n, ".fq.gz")
  }

  const FastqExtensions: seq<string> := [".fastq", ".fastq.gz", ".fq", ".fq.gz"]

  /** Lower-casing text that has no capital letters leaves it as it is. */
  lemma LowerAppend(stem: string, ext: string)
    requires forall i :: 0 <= i < |ext| ==> !('A' <= ext[i] <= 'Z')
    ensures Lower(stem + ext) == Lower(stem) + ext
  {
    assert forall i :: 0 <= i < |ext| ==> LowerChar(ext[i]) == ext[i];
  }

  /** Any name ending in one of the four extensions, in any case for the stem, is a FASTQ file. */
  lemma {:induction false} FastqExtensionRecognised(stem: string, k: nat)
    requires k < |FastqExtensions|
    ensures IsFastq(stem + FastqExtensions[k])
  {
    var ext := FastqExtensions[k];
    LowerAppend(stem, ext);
    var n := Lower(stem + ext);
    assert n[|n| - |ext|..] == ext;
  }

  /** Upper-case extensions are recognised as well: the test ignores case. */
  lemma FastqIgnoresCase(name: string)
    ensures IsFastq(name) == IsFastq(Lower(name))
  {
    assert Lower(Lower(name)) == Lower(name);
  }

  // ---------------------------------------------------------------------------
  // Sample keys

  /** The tokens `_detect_pairs` deletes from a name, in the order it deletes them. */
  const PairTokens: seq<string> :=
    ["_R1.fastq", "_R2.fastq", "_1.fastq", "_2.fastq",
     "_R1.fq", "_R2.fq", "_1.fq", "_2.fq",
     ".fastq", ".fq"]

  predicate NonEmptyTokens(toks: seq<string>) {
    forall i :: 0 <= i < |toks| ==> toks[i] != []
  }

  /** Deletes every occurrence of each token in turn, as repeated `str.replace(tok, "")`. */
  function RemoveEach(s: string, toks: seq<string>): string
    requires NonEmptyTokens(toks)
    decreases |toks|
  {
    if toks == [] then s else RemoveEach(ReplaceAll(s, toks[0], ""), toks[1..])
  }

  /**
   * The sample key of a FASTQ name: every ".gz" removed, then every
   * occurrence of each pairing token, then the bare extensions.
   */
  function SampleKey(name: string): string {
    RemoveFrom(ReplaceAll(name, ".gz", ""), 0)
  }

  /** Deletes the pairing tokens from index `t` on. */
  function RemoveFrom(s: string, t: nat): string
    decreases |PairTokens| - t
  {
    if t >= |PairTokens| then s else RemoveFrom(ReplaceAll(s, PairTokens[t], ""), t + 1)
  }

  /** Deleting the tokens from index `t` on is folding `replace` over the rest of the list. */
  lemma {:induction false} RemoveFromEach(s: string, t: nat)
    requires t <= |PairTokens|
    ensures NonEmptyTokens(PairTokens[t..])
    ensures RemoveFrom(s, t) == RemoveEach(s, PairTokens[t..])
    decreases |PairTokens| - t
  {
    TokenSuffixesNonEmpty(t);
    if t < |PairTokens| {
      var toks, rest := PairTokens[t..], ReplaceAll(s, PairTokens[t], "");
      assert toks[0] == PairTokens[t] && toks[1..] == PairTokens[t + 1..];
      assert RemoveFrom(s, t) == RemoveFrom(rest, t + 1);
      assert RemoveEach(s, toks) == RemoveEach(rest, toks[1..]);
      RemoveFromEach(rest, t + 1);
    }
  }

  /** Every suffix of the token list holds only non-empty tokens. */
  lemma TokenSuffixesNonEmpty(t: nat)
    requires t <= |PairTokens|
    ensures NonEmptyTokens(PairTokens[t..])
  {
    assert NonEmptyTokens(PairTokens);
  }

  lemma KeyByFold(name: string)
    ensures NonEmptyTokens(PairTokens)
    ensures SampleKey(name) == RemoveEach(ReplaceAll(name, ".gz", ""), PairTokens)
  {
    RemoveFromEach(ReplaceAll(name, ".gz", ""), 0);
    assert PairTokens[0..] == PairTokens;
  }

  /** Every token starts with '.' or '_'. */
  predicate TokensStartMarked(toks: seq<string>) {
    forall i :: 0 <= i < |toks| ==> toks[i] != [] && (toks[i][0] == '.' || toks[i][0] == '_')
  }

  /** A prefix without '.' or '_' cannot hold the start of any token. */
  lemma {:induction false} RemoveEachAfterPrefix(s: string, t: string, toks: seq<string>)
    requires '.' !in s && '_' !in s
    requires TokensStartMarked(toks)
    ensures RemoveEach(s + t, toks) == s + RemoveEach(t, toks)
    decreases |toks|
  {
    if toks != [] {
      ReplaceAfterPrefix(s, t, toks[0], "");
      RemoveEachAfterPrefix(s, ReplaceAll(t, toks[0], ""), toks[1..]);
    }
  }

  /** The key of `s + t` is `s` followed by the key of `t`, for a plain sample name `s`. */
  lemma KeyAfterPrefix(s: string, t: string)
    requires '.' !in s && '_' !in s
    ensures SampleKey(s + t) == s + SampleKey(t)
  {
    KeyByFold(s + t);
    KeyByFold(t);
    ReplaceAfterPrefix(s, t, ".gz", "");
    assert TokensStartMarked(PairTokens);
    RemoveEachAfterPrefix(s, ReplaceAll(t, ".gz", ""), PairTokens);
  }

  /** Text shorter than every token is left alone. */
  lemma {:induction false} RemoveEachShort(s: string, toks: seq<string>)
    requires NonEmptyTokens(toks)
    requires forall i :: 0 <= i < |toks| ==> |toks[i]| > |s|
    ensures RemoveEach(s, toks) == s
    decreases |toks|
  {
    if toks != [] {
      assert ReplaceAll(s, toks[0], "") == s;
      RemoveEachShort(s, toks[1..]);
    }
  }

  /**
   * `m` passes through the removal of `tok`: `tok` is longer, or as long but
   * different, or starts with a character `m` lacks.
   */
  predicate Survives(m: string, tok: string) {
    |tok| > |m| || (|tok| == |m| && tok != m) || (tok != [] && tok[0] !in m)
  }

  lemma SurvivesUnchanged(m: string, tok: string)
    requires tok != [] && Survives(m, tok)
    ensures ReplaceAll(m, tok, "") == m
  {
    if tok[0] !in m {
      NotContainsFirstChar(m, tok);
      ReplaceAbsent(m, tok, "");
    } else if |tok| == |m| {
      assert m[..|tok|] == m;
      assert ReplaceAll(m[1..], tok, "") == m[1..];
      assert m == [m[0]] + m[1..];
    }
  }

  /**
   * A token taken as a whole name vanishes: the tokens before it leave it
   * alone, it removes itself, and nothing is left for the rest.
   */
  lemma {:induction false} SelfRemoved(toks: seq<string>, k: nat)
    requires NonEmptyTokens(toks) && k < |toks|
    requires forall j :: 0 <= j < k ==> Survives(toks[k], toks[j])
    ensures RemoveEach(toks[k], toks) == ""
    decreases k
  {
    var m := toks[k];
    if k > 0 {
      SurvivesUnchanged(m, toks[0]);
      assert toks[1..][k - 1] == m;
      SelfRemoved(toks[1..], k - 1);
    } else {
      assert ReplaceAll(m, m, "") == "" by {
        assert m[..|m|] == m && m[|m|..] == [];
      }
      RemoveEachShort("", toks[1..]);
    }
  }

  /** ".gz" cannot occur in text that has no '.'. */
  lemma NoGz(s: string)
    requires '.' !in s
    ensures ReplaceAll(s, ".gz", "") == s
  {
    NotContainsFirstChar(s, ".gz");
    ReplaceAbsent(s, ".gz", "");
  }

  /** In `mate . ext pat`, the only occurrence of `pat` is the trailing one. */
  lemma StripPat(mate: string, dot: string, ext: string, pat: string)
    requires |pat| >= 2 && dot == [pat[0]] && pat[0] !in mate && pat[0] !in ext && |ext| >= 1 && ext[0] != pat[1]
    ensures ReplaceAll(mate + dot + ext + pat, pat, "") == mate + dot + ext
  {
    var tail := dot + (ext + pat);
    assert tail[1..] == ext + pat;
    ReplaceTrailing(ext, pat, "");
    ReplaceMismatch(tail, pat, "", 1);
    ReplaceAfterPrefix(mate, tail, pat, "");
    assert mate + dot + ext + pat == mate + tail;
    assert mate + dot + ext == mate + (dot + ext);
  }

  /** In `mate . ext`, with `ext` free of `pat[0]`, `pat` does not occur. */
  lemma KeepPat(mate: string, dot: string, ext: string, pat: string)
    requires |pat| >= 2 && dot == [pat[0]] && pat[0] !in mate && pat[0] !in ext && |ext| >= 1 && ext[0] != pat[1]
    ensures ReplaceAll(mate + dot + ext, pat, "") == mate + dot + ext
  {
    var tail := dot + ext;
    assert tail[1..] == ext;
    NotContainsFirstChar(ext, pat);
    ReplaceAbsent(ext, pat, "");
    ReplaceMismatch(tail, pat, "", 1);
    ReplaceAfterPrefix(mate, tail, pat, "");
    assert mate + dot + ext == mate + tail;
  }

  lemma GzLiterals()
    ensures |".gz"| >= 2 && "." == [".gz"[0]] && ".gz"[0] == '.' && ".gz"[1] == 'g'
  {
  }

  /** Removing ".gz" from `<mate>.<ext>.gz` leaves `<mate>.<ext>`. */
  lemma StripGz(mate: string, ext: string)
    requires '.' !in mate && '.' !in ext && |ext| >= 1 && ext[0] != 'g'
    ensures ReplaceAll(mate + "." + ext + ".gz", ".gz", "") == mate + "." + ext
  {
    GzLiterals();
    StripPat(mate, ".", ext, ".gz");
  }

  /** `<mate>.<ext>` with an extension not starting with 'g' has no ".gz" to remove. */
  lemma NoGzIn(mate: string, ext: string)
    requires '.' !in mate && '.' !in ext && |ext| >= 1 && ext[0] != 'g'
    ensures ReplaceAll(mate + "." + ext, ".gz", "") == mate + "." + ext
  {
    GzLiterals();
    KeepPat(mate, ".", ext, ".gz");
  }

  /** The mate and extension pieces of the tokens hold no '.' and do not start with 'g'. */
  lemma MarkerPieces()
    ensures '.' !in "_R1" && '.' !in "_R2" && '.' !in "_1" && '.' !in "_2" && '.' !in ""
    ensures '.' !in "fastq" && '.' !in "fq" && |"fastq"| >= 1 && |"fq"| >= 1
    ensures "fastq"[0] != 'g' && "fq"[0] != 'g'
  {
    forall k | 0 <= k < 3 ensures "_R1"[k] != '.' && "_R2"[k] != '.' {}
    forall k | 0 <= k < 2 ensures "_1"[k] != '.' && "_2"[k] != '.' && "fq"[k] != '.' {}
    forall k | 0 <= k < 5 ensures "fastq"[k] != '.' {}
  }

  lemma GzMarkersSplit()
    ensures PairTokens[0] == "_R1" + "." + "fastq" && PairTokens[1] == "_R2" + "." + "fastq"
    ensures Survives(PairTokens[1], PairTokens[0])
  {
    assert PairTokens[1][2] != PairTokens[0][2];
  }

  /** The key of each mate marker, taken as a whole name, is empty. */
  lemma MarkerKeyR1Gz()
    ensures SampleKey(PairTokens[0] + ".gz") == ""
  {
    KeyByFold(PairTokens[0] + ".gz");
    GzMarkersSplit();
    MarkerPieces();
    GzTokenKey(PairTokens, 0, "_R1", "fastq");
  }

  lemma MarkerKeyR2Gz()
    ensures SampleKey(PairTokens[1] + ".gz") == ""
  {
    KeyByFold(PairTokens[1] + ".gz");
    GzMarkersSplit();
    MarkerPieces();
    GzTokenKey(PairTokens, 1, "_R2", "fastq");
  }

  /** A token `mate.ext` followed by ".gz", which every earlier token leaves alone, vanishes. */
  lemma GzTokenKey(toks: seq<string>, k: nat, mate: string, ext: string)
    requires NonEmptyTokens(toks) && k < |toks| && toks[k] == mate + "." + ext
    requires '.' !in mate && '.' !in ext && |ext| >= 1 && ext[0] != 'g'
    requires forall j :: 0 <= j < k ==> Survives(toks[k], toks[j])
    ensures RemoveEach(ReplaceAll(toks[k] + ".gz", ".gz", ""), toks) == ""
  {
    StripGz(mate, ext);
    SelfRemoved(toks, k);
  }

  /** A token `mate.ext` without ".gz", which every earlier token leaves alone, vanishes. */
  lemma PlainTokenKey(toks: seq<string>, k: nat, mate: string, ext: string)
    requires NonEmptyTokens(toks) && k < |toks| && toks[k] == mate + "." + ext
    requires '.' !in mate && '.' !in ext && |ext| >= 1 && ext[0] != 'g'
    requires forall j :: 0 <= j < k ==> Survives(toks[k], toks[j])
    ensures RemoveEach(ReplaceAll(toks[k], ".gz", ""), toks) == ""
  {
    NoGzIn(mate, ext);
    SelfRemoved(toks, k);
  }

  lemma PairTokenLengths()
    ensures |PairTokens| == 10
    ensures |PairTokens[0]| == 9 && |PairTokens[1]| == 9 && |PairTokens[2]| == 8 && |PairTokens[3]| == 8
    ensures |PairTokens[4]| == 6 && |PairTokens[5]| == 6 && |PairTokens[6]| == 5 && |PairTokens[7]| == 5
  {
  }

  /** The plain mate markers pass through the tokens removed before them. */
  lemma PlainMarkersSurvive()
    ensures forall j :: 0 <= j < 2 ==> Survives(PairTokens[2], PairTokens[j])
    ensures forall j :: 0 <= j < 3 ==> Survives(PairTokens[3], PairTokens[j])
    ensures forall j :: 0 <= j < 6 ==> Survives(PairTokens[6], PairTokens[j])
    ensures forall j :: 0 <= j < 7 ==> Survives(PairTokens[7], PairTokens[j])
  {
    PairTokenLengths();
    assert PairTokens[3][1] != PairTokens[2][1];
    assert PairTokens[7][1] != PairTokens[6][1];
  }

  lemma PlainMarkersSplit()
    ensures PairTokens[2] == "_1" + "." + "fastq" && PairTokens[3] == "_2" + "." + "fastq"
    ensures PairTokens[6] == "_1" + "." + "fq" && PairTokens[7] == "_2" + "." + "fq"
  {
  }

  lemma MarkerKey1Fastq()
    ensures SampleKey(PairTokens[2]) == ""
  {
    KeyByFold(PairTokens[2]);
    PlainMarkersSurvive();
    PlainMarkersSplit();
    MarkerPieces();
    PlainTokenKey(PairTokens, 2, "_1", "fastq");
  }

  lemma MarkerKey2Fastq()
    ensures SampleKey(PairTokens[3]) == ""
  {
    KeyByFold(PairTokens[3]);
    PlainMarkersSurvive();
    PlainMarkersSplit();
    MarkerPieces();
    PlainTokenKey(PairTokens, 3, "_2", "fastq");
  }

  lemma MarkerKey1Fq()
    ensures SampleKey(PairTokens[6]) == ""
  {
    KeyByFold(PairTokens[6]);
    PlainMarkersSurvive();
    PlainMarkersSplit();
    MarkerPieces();
    PlainTokenKey(PairTokens, 6, "_1", "fq");
  }

  lemma MarkerKey2Fq()
    ensures SampleKey(PairTokens[7]) == ""
  {
    KeyByFold(PairTokens[7]);
    PlainMarkersSurvive();
    PlainMarkersSplit();
    MarkerPieces();
    PlainTokenKey(PairTokens, 7, "_2", "fq");
  }

  /** Every token before ".fastq" starts with '_', which ".fastq" lacks. */
  lemma FastqSurvivesMarkers()
    ensures forall j :: 0 <= j < 8 ==> Survives(PairTokens[8], PairTokens[j])
  {
    assert '_' !in PairTokens[8];
    assert forall j :: 0 <= j < 8 ==> PairTokens[j] != [] && PairTokens[j][0] == '_';
  }

  lemma MarkerKeyFastq()
    ensures SampleKey(PairTokens[8]) == ""
  {
    assert PairTokens[8] == "" + "." + "fastq";
    FastqSurvivesMarkers();
    KeyByFold(PairTokens[8]);
    MarkerPieces();
    PlainTokenKey(PairTokens, 8, "", "fastq");
  }

  /**
   * Mates share a key: `s_R1.fastq.gz` and `s_R2.fastq.gz`, `s_1.fastq` and
   * `s_2.fastq`, and `s_1.fq` and `s_2.fq` all have the key `s`, as does the
   * single-end `s.fastq`, when the sample name `s` holds no '.' or '_'.
   */
  lemma MatesShareKey(s: string)
    requires '.' !in s && '_' !in s
    ensures SampleKey(s + "_R1.fastq.gz") == s && SampleKey(s + "_R2.fastq.gz") == s
    ensures SampleKey(s + "_1.fastq") == s && SampleKey(s + "_2.fastq") == s
    ensures SampleKey(s + "_1.fq") == s && SampleKey(s + "_2.fq") == s
    ensures SampleKey(s + ".fastq") == s
  {
    assert PairTokens[0] + ".gz" == "_R1.fastq.gz" && PairTokens[1] + ".gz" == "_R2.fastq.gz";
    assert PairTokens[2] == "_1.fastq" && PairTokens[3] == "_2.fastq";
    assert PairTokens[6] == "_1.fq" && PairTokens[7] == "_2.fq" && PairTokens[8] == ".fastq";
    KeyAfterPrefix(s, PairTokens[0] + ".gz");
    MarkerKeyR1Gz();
    KeyAfterPrefix(s, PairTokens[1] + ".gz");
    MarkerKeyR2Gz();
    KeyAfterPrefix(s, PairTokens[2]);
    MarkerKey1Fastq();
    KeyAfterPrefix(s, PairTokens[3]);
    MarkerKey2Fastq();
    KeyAfterPrefix(s, PairTokens[6]);
    MarkerKey1Fq();
    KeyAfterPrefix(s, PairTokens[7]);
    MarkerKey2Fq();
    KeyAfterPrefix(s, PairTokens[8]);
    MarkerKeyFastq();
  }

  // ---------------------------------------------------------------------------
  // Grouping files into samples

  function FilterFastq(listing: seq<string>, regular: set<string>): (r: seq<string>)
    ensures forall f :: f in r <==> f in listing && f in regular && IsFastq(f)
    ensures forall f :: multiset(r)[f] == if f in regular && IsFastq(f) then multiset(listing)[f] else 0
  {
    if listing == [] then []
    else
      var rest := FilterFastq(listing[1..], regular);
      assert forall f :: f in listing <==> f == listing[0] || f in listing[1..] by {
        assert listing == [listing[0]] + listing[1..];
      }
      assert multiset(listing) == multiset([listing[0]]) + multiset(listing[1..]) by {
        assert listing == [listing[0]] + listing[1..];
      }
      if listing[0] in regular && IsFastq(listing[0]) then [listing[0]] + rest else rest
  }

  /** The regular FASTQ files of a directory listing, in sorted order. */
  function FastqFiles(listing: seq<string>, regular: set<string>): (r: seq<string>)
    ensures Sorted(r)
    ensures forall f :: f in r <==> f in listing && f in regular && IsFastq(f)
    ensures forall f :: multiset(r)[f] == if f in regular && IsFastq(f) then multiset(listing)[f] else 0
  {
    var r := Sort(FilterFastq(listing, regular));
    assert forall f :: f in r <==> f in multiset(r);
    r
  }

  /** The key of each file, in file order. */
  function KeysOf(files: seq<string>): (ks: seq<string>)
    ensures |ks| == |files|
    ensures forall i :: 0 <= i < |files| ==> ks[i] == SampleKey(files[i])
  {
    seq(|files|, i requires 0 <= i < |files| => SampleKey(files[i]))
  }

  /** The files with key `k`, in file order. */
  function WithKey(files: seq<string>, k: string): seq<string> {
    if files == [] then []
    else
      var last := files[|files| - 1];
      WithKey(files[..|files| - 1], k) + (if SampleKey(last) == k then [last] else [])
  }

  /** Every file of the group for `k` has key `k` and is one of the files. */
  lemma {:induction false} WithKeyMembers(files: seq<string>, k: string)
    ensures forall f :: f in WithKey(files, k) ==> f in files && SampleKey(f) == k
  {
    if files != [] {
      WithKeyMembers(files[..|files| - 1], k);
      assert files == files[..|files| - 1] + [files[|files| - 1]];
    }
  }

  /** Every file lies in the group of its own key. */
  lemma {:induction false} InOwnGroup(files: seq<string>, j: nat)
    requires j < |files|
    ensures files[j] in WithKey(files, SampleKey(files[j]))
  {
    var n := |files| - 1;
    if j < n {
      InOwnGroup(files[..n], j);
    }
  }

  /** A group is empty exactly when no file has its key. */
  lemma {:induction false} WithKeyEmpty(files: seq<string>, k: string)
    ensures WithKey(files, k) == [] <==> k !in KeysOf(files)
  {
    if files != [] {
      var n := |files| - 1;
      SnocSlice(files);
      WithKeyEmpty(files[..n], k);
      KeysOfSnoc(files[..n], files[n]);
      WithKeySnoc(files[..n], files[n], k);
    }
  }

  /** The groups of a sorted list are sorted. */
  lemma {:induction false} WithKeySorted(files: seq<string>, k: string)
    requires Sorted(files)
    ensures Sorted(WithKey(files, k))
  {
    if files != [] {
      var n := |files| - 1;
      assert Sorted(files[..n]);
      WithKeySorted(files[..n], k);
      WithKeyMembers(files[..n], k);
      var g := WithKey(files[..n], k);
      forall i | 0 <= i < |g| ensures LexLe(g[i], files[n]) {
        assert g[i] in files[..n];
      }
    }
  }

  /**
   * The groups partition the files: each file is in the group of its key
   * and in no other group.
   */
  lemma GroupsPartition(files: seq<string>, f: string, k: string)
    requires f in files
    ensures f in WithKey(files, SampleKey(f))
    ensures f in WithKey(files, k) ==> k == SampleKey(f)
  {
    var j :| 0 <= j < |files| && files[j] == f;
    InOwnGroup(files, j);
    WithKeyMembers(files, k);
  }

  /** Adding a file at the end adds it to the end of its own group only. */
  lemma WithKeySnoc(files: seq<string>, f: string, k: string)
    ensures WithKey(files + [f], k) == WithKey(files, k) + (if SampleKey(f) == k then [f] else [])
  {
    assert (files + [f])[..|files|] == files;
  }

  lemma KeysOfSnoc(files: seq<string>, f: string)
    ensures KeysOf(files + [f]) == KeysOf(files) + [SampleKey(f)]
  {
  }

  lemma DedupSnoc(s: seq<string>, x: string)
    ensures Dedup(s + [x]) == if x in Dedup(s) then Dedup(s) else Dedup(s) + [x]
  {
    assert (s + [x])[..|s|] == s;
  }

  /** The key loop of `_detect_pairs`: ".gz" is removed, then each token in turn. */
  method ComputeKey(name: string) returns (key: string)
    ensures key == SampleKey(name)
  {
    key := ReplaceAll(name, ".gz", "");
    var t := 0;
    while t < |PairTokens|
      invariant 0 <= t <= |PairTokens|
      invariant RemoveFrom(key, t) == SampleKey(name)
    {
      key := ReplaceAll(key, PairTokens[t], "");
      t := t + 1;
    }
  }

  /** What the grouping loop keeps true after its first `n` files. */
  ghost predicate GroupedUpTo(files: seq<string>, groups: Dict<seq<string>>) {
    && Valid(groups)
    && groups.keys == Dedup(KeysOf(files))
    && (forall k :: k in groups.entries ==> groups.entries[k] == WithKey(files, k))
    && (forall k :: k !in groups.entries ==> WithKey(files, k) == [])
  }

  /** Appending a file to its key's group extends the grouping by that file. */
  lemma GroupStep(files: seq<string>, groups: Dict<seq<string>>, f: string)
    requires GroupedUpTo(files, groups)
    ensures var key := SampleKey(f);
      GroupedUpTo(files + [f], Put(groups, key, Get(groups, key, []) + [f]))
  {
    GroupStepKeys(files, groups, f);
    GroupStepEntries(files, groups, f);
    GroupStepAbsent(files, groups, f);
  }

  lemma GroupStepEntries(files: seq<string>, groups: Dict<seq<string>>, f: string)
    requires Valid(groups)
    requires forall k :: k in groups.entries ==> groups.entries[k] == WithKey(files, k)
    requires forall k :: k !in groups.entries ==> WithKey(files, k) == []
    ensures var key := SampleKey(f); var g := Put(groups, key, Get(groups, key, []) + [f]);
      forall k :: k in g.entries ==> g.entries[k] == WithKey(files + [f], k)
  {
    var key := SampleKey(f);
    var g := Put(groups, key, Get(groups, key, []) + [f]);
    forall k | k in g.entries ensures g.entries[k] == WithKey(files + [f], k) {
      WithKeySnoc(files, f, k);
    }
  }

  lemma GroupStepAbsent(files: seq<string>, groups: Dict<seq<string>>, f: string)
    requires Valid(groups)
    requires forall k :: k !in groups.entries ==> WithKey(files, k) == []
    ensures var key := SampleKey(f); var g := Put(groups, key, Get(groups, key, []) + [f]);
      forall k :: k !in g.entries ==> WithKey(files + [f], k) == []
  {
    var key := SampleKey(f);
    var g := Put(groups, key, Get(groups, key, []) + [f]);
    forall k | k !in g.entries ensures WithKey(files + [f], k) == [] {
      WithKeySnoc(files, f, k);
    }
  }

  lemma GroupStepKeys(files: seq<string>, groups: Dict<seq<string>>, f: string)
    requires Valid(groups) && groups.keys == Dedup(KeysOf(files))
    ensures var key := SampleKey(f);
      Put(groups, key, Get(groups, key, []) + [f]).keys == Dedup(KeysOf(files + [f]))
  {
    KeysOfSnoc(files, f);
    DedupSnoc(KeysOf(files), SampleKey(f));
  }

  /** Before the first file, the empty dictionary is the grouping. */
  lemma GroupedNone(groups: Dict<seq<string>>)
    requires Valid(groups) && groups.keys == []
    ensures GroupedUpTo([], groups)
  {
  }

  /**
   * `_detect_pairs`: the regular FASTQ files of the listing, in sorted
   * order, grouped by sample key; keys appear in order of their first file.
   */
  method DetectPairs(listing: seq<string>, regular: set<string>) returns (groups: Dict<seq<string>>)
    ensures Valid(groups)
    ensures groups.keys == Dedup(KeysOf(FastqFiles(listing, regular)))
    ensures forall k :: k in groups.entries ==> groups.entries[k] == WithKey(FastqFiles(listing, regular), k)
    ensures forall k :: k !in groups.entries ==> WithKey(FastqFiles(listing, regular), k) == []
  {
    groups := GroupFiles(FastqFiles(listing, regular));
  }

  /** The grouping loop of `_detect_pairs`, file by file. */
  method GroupFiles(files: seq<string>) returns (groups: Dict<seq<string>>)
    ensures GroupedUpTo(files, groups)
  {
    groups := Empty();
    GroupedNone(groups);
    assert files[..0] == [];
    var i := 0;
    while i < |files|
      invariant 0 <= i <= |files|
      invariant GroupedUpTo(files[..i], groups)
    {
      assert files[..i + 1] == files[..i] + [files[i]];
      groups := AddFile(files[..i], groups, files[i]);
      i := i + 1;
    }
    assert files[..i] == files;
  }

  /** The loop body of `_detect_pairs`: the file is appended to the group of its key. */
  method AddFile(files: seq<string>, groups: Dict<seq<string>>, f: string) returns (next: Dict<seq<string>>)
    requires GroupedUpTo(files, groups)
    ensures GroupedUpTo(files + [f], next)
  {
    var key := ComputeKey(f);
    GroupStep(files, groups, f);
    next := Put(groups, key, Get(groups, key, []) + [f]);
  }

  /** Two mates of one sample, alone in the directory, form one group holding both. */
  lemma TwoMatesOneGroup(s: string)
    requires '.' !in s && '_' !in s
    ensures var files := [s + "_1.fastq", s + "_2.fastq"];
      Dedup(KeysOf(files)) == [s] && WithKey(files, s) == files
  {
    var a, b := s + "_1.fastq", s + "_2.fastq";
    assert [a] == [] + [a] && [a, b] == [a] + [b];
    MatesShareKey(s);
    KeysOfSnoc([], a);
    KeysOfSnoc([a], b);
    DedupSnoc([], s);
    DedupSnoc([s], s);
    WithKeySnoc([], a, s);
    WithKeySnoc([a], b, s);
  }


  /** No group of `_detect_pairs` is empty, so its `if not files` guard never fires. */
  lemma GroupsNonEmpty(files: seq<string>, k: string)
    requires k in Dedup(KeysOf(files))
    ensures |WithKey(files, k)| >= 1
  {
    WithKeyEmpty(files, k);
  }

  // ---------------------------------------------------------------------------
  // The host database

  /** A setting is used only when it is present and not the empty string. */
  predicate Truthy(o: Option<string>) {
    o.Some? && o.value != ""
  }

  const HostDbUnsetMessage: string :=
    "[generate_dehost] Host DB path is not set. Set env YAMAS_HOST_DB, or create ~/.yamas/config.json with {\"clean_db\": \"/path/to/kneaddata_database/output\"}, or pass host_db=... to run_dehost_pipeline()."

  /**
   * `_resolve_host_db`: the explicit argument, else `YAMAS_HOST_DB`, else the
   * `clean_db` entry of the configuration file; `ValueError` when none is set.
   */
  function ResolveHostDb(explicit: Option<string>, env: Option<string>, config: Option<string>): (r: Result<string>)
    ensures r.Ok? <==> Truthy(explicit) || Truthy(env) || Truthy(config)
    ensures r.Ok? ==> r.value != ""
    ensures r.Raised? ==> r.error == ValueError(HostDbUnsetMessage)
  {
    if Truthy(explicit) then Ok(explicit.value)
    else if Truthy(env) then Ok(env.value)
    else if Truthy(config) then Ok(config.value)
    else Raised(ValueError(HostDbUnsetMessage))
  }

  /** The precedence: an explicit path beats the environment, which beats the configuration file. */
  lemma HostDbPrecedence(explicit: Option<string>, env: Option<string>, config: Option<string>)
    ensures Truthy(explicit) ==> ResolveHostDb(explicit, env, config) == Ok(explicit.value)
    ensures !Truthy(explicit) && Truthy(env) ==> ResolveHostDb(explicit, env, config) == Ok(env.value)
    ensures !Truthy(explicit) && !Truthy(env) ==> ResolveHostDb(explicit, env, config) == ResolveHostDb(None, None, config)
  {
  }

  const DbNotFoundText: string := "[generate_dehost] Host DB directory not found: "
  const DbDownloadHint: string :=
    "\nExpected a directory created by 'kneaddata_database --download human_genome bowtie2 <ROOT>'."
  const NoIndexText: string := "[generate_dehost] No Bowtie2 index files (*.bt2/ *.bt2l) under: "

  function DbNotFoundMessage(db: string): string {
    DbNotFoundText + db + DbDownloadHint
  }

  function NoIndexMessage(db: string): string {
    NoIndexText + db
  }

  /**
   * A name matched by one of the globs `*.bt2`, `*.bt2l`, `*.bt2*`. The
   * third glob matches every name the first two do, so their union is the
   * names containing ".bt2".
   */
  predicate IsBowtieIndex(name: string) {
    Contains(name, ".bt2")
  }

  lemma Bt2GlobsCovered(name: string)
    ensures EndsWith(name, ".bt2") || EndsWith(name, ".bt2l") ==> IsBowtieIndex(name)
  {
    if EndsWith(name, ".bt2") {
      ContainsAt(name, ".bt2", |name| - 4);
    } else if EndsWith(name, ".bt2l") {
      assert name[|name| - 5..|name| - 1] == ".bt2";
      ContainsAt(name, ".bt2", |name| - 5);
    }
  }

  /**
   * `_validate_host_db` over the existing directories and their listings:
   * the path must be a directory holding at least one Bowtie2 index file.
   */
  function ValidateHostDb(db: string, dirs: map<string, seq<string>>): (r: Outcome)
    ensures r.Completed? <==> db in dirs && exists i :: 0 <= i < |dirs[db]| && IsBowtieIndex(dirs[db][i])
    ensures db !in dirs ==> r == Fails(FileNotFoundError(DbNotFoundMessage(db)))
    ensures db in dirs && r.Fails? ==> r == Fails(FileNotFoundError(NoIndexMessage(db)))
  {
    if db !in dirs then Fails(FileNotFoundError(DbNotFoundMessage(db)))
    else if HasIndex(dirs[db]) then Completed
    else Fails(FileNotFoundError(NoIndexMessage(db)))
  }

  function HasIndex(listing: seq<string>): (b: bool)
    ensures b <==> exists i :: 0 <= i < |listing| && IsBowtieIndex(listing[i])
  {
    if listing == [] then false
    else if IsBowtieIndex(listing[0]) then true
    else
      assert forall i :: 0 < i < |listing| ==> listing[i] == listing[1..][i - 1];
      HasIndex(listing[1..])
  }

  // ---------------------------------------------------------------------------
  // The KneadData command

  /** The options of `run_dehost_pipeline`; an absent `extra_kneaddata_args` is the empty list. */
  datatype KneadOptions = KneadOptions(
    threads: int,
    runFastqc: bool,
    bypassTrf: bool,
    adapters: Option<string>,
    extraArgs: seq<string>)

  const DefaultKneadOptions := KneadOptions(8, true, false, None, [])

  /** The input arguments: the first two files as a pair, or a lone file as unpaired. */
  function InputArgs(files: seq<string>): (r: seq<string>)
    requires |files| >= 1
    ensures |files| >= 2 ==> r == ["--input1 " + files[0], "--input2 " + files[1]]
    ensures |files| == 1 ==> r == ["--unpaired " + files[0]]
  {
    if |files| >= 2 then ["--input1 " + files[0], "--input2 " + files[1]]
    else ["--unpaired " + files[0]]
  }

  const FastqcStart: string := "--run-fastqc-start"
  const FastqcEnd: string := "--run-fastqc-end"
  const BypassTrf: string := "--bypass-trf"
  const TrimmomaticFlag: string := "--trimmomatic trimmomatic"
  const ClipHead: string := "--trimmomatic-options ILLUMINACLIP:"
  const ClipTail: string := ":2:30:10"

  function FastqcArgs(on: bool): seq<string> {
    if on then [FastqcStart, FastqcEnd] else []
  }

  function TrfArgs(bypass: bool): seq<string> {
    if bypass then [BypassTrf] else []
  }

  /** The Trimmomatic option that clips the adapters in `adapters`. */
  function ClipOption(adapters: string): string {
    ClipHead + adapters + ClipTail
  }

  function AdapterArgs(adapters: Option<string>): seq<string> {
    if Truthy(adapters) then [TrimmomaticFlag, ClipOption(adapters.value)] else []
  }

  /**
   * What the options between the fixed head and the extra arguments say:
   * FastQC runs at start and end exactly when asked, the tandem-repeat step
   * is bypassed exactly when asked, and Trimmomatic is switched on exactly
   * when adapters are given, clipping those adapters.
   */
  predicate FlagsMatch(flags: seq<string>, opts: KneadOptions) {
    && (FastqcStart in flags <==> opts.runFastqc)
    && (FastqcEnd in flags <==> opts.runFastqc)
    && (BypassTrf in flags <==> opts.bypassTrf)
    && (TrimmomaticFlag in flags <==> Truthy(opts.adapters))
    && (Truthy(opts.adapters) ==> ClipOption(opts.adapters.value) in flags)
  }

  /**
   * The option flags come in the order FastQC, tandem-repeat bypass,
   * Trimmomatic: each requested group sits right after the groups before it.
   */
  predicate FlagsInOrder(flags: seq<string>, opts: KneadOptions) {
    var t := if opts.runFastqc then 2 else 0;
    var a := t + if opts.bypassTrf then 1 else 0;
    && (opts.runFastqc ==> |flags| >= 2 && flags[0] == FastqcStart && flags[1] == FastqcEnd)
    && (opts.bypassTrf ==> |flags| > t && flags[t] == BypassTrf)
    && (Truthy(opts.adapters) ==> |flags| > a + 1 && flags[a] == TrimmomaticFlag && flags[a + 1] == ClipOption(opts.adapters.value))
  }

  /** The option groups are laid out in their fixed order. */
  lemma OptionArgsInOrder(opts: KneadOptions)
    ensures FlagsInOrder(FastqcArgs(opts.runFastqc) + TrfArgs(opts.bypassTrf) + AdapterArgs(opts.adapters), opts)
  {
  }

  /** The FastQC, tandem-repeat and Trimmomatic arguments say what the options ask. */
  lemma OptionArgsMatch(opts: KneadOptions)
    ensures FlagsMatch(FastqcArgs(opts.runFastqc) + TrfArgs(opts.bypassTrf) + AdapterArgs(opts.adapters), opts)
  {
    var f, t, a := FastqcArgs(opts.runFastqc), TrfArgs(opts.bypassTrf), AdapterArgs(opts.adapters);
    // The five option words have five different lengths, and every clip option is longer still.
    assert |FastqcStart| == 18 && |FastqcEnd| == 16 && |BypassTrf| == 12 && |TrimmomaticFlag| == 25;
    assert opts.adapters.Some? ==> |ClipOption(opts.adapters.value)| >= 43;
    assert forall x :: x in f + t + a <==> x in f || x in t || x in a;
  }

  /**
   * The argument list of one KneadData run: the fixed head, then FastQC,
   * tandem-repeat and Trimmomatic flags in that order, the extra arguments
   * unchanged, and the inputs last.
   */
  function KneadArgs(opts: KneadOptions, db: string, outDir: string, files: seq<string>): (r: seq<string>)
    requires |files| >= 1
    ensures |r| >= 4 && r[..4] == ["kneaddata", "--threads " + IntToString(opts.threads), "--reference-db " + db, "--output " + outDir]
    ensures |r| == 4 + |FastqcArgs(opts.runFastqc)| + |TrfArgs(opts.bypassTrf)| + |AdapterArgs(opts.adapters)|
      + |opts.extraArgs| + |InputArgs(files)|
    ensures r[|r| - |InputArgs(files)|..] == InputArgs(files)
    ensures var k := 4 + |FastqcArgs(opts.runFastqc)| + |TrfArgs(opts.bypassTrf)| + |AdapterArgs(opts.adapters)|;
      && r[k..k + |opts.extraArgs|] == opts.extraArgs
      && FlagsMatch(r[4..k], opts)
  {
    var head := KneadHead(opts.threads, db, outDir);
    var flags := OptionFlags(opts);
    var r := head + flags + opts.extraArgs + InputArgs(files);
    OptionArgsMatch(opts);
    SectionsOf(head, flags, opts.extraArgs, InputArgs(files));
    r
  }

  /**
   * In the KneadData argument list the option flags come in their fixed
   * order: FastQC first, then the tandem-repeat bypass, then Trimmomatic.
   */
  lemma KneadArgsInOrder(opts: KneadOptions, db: string, outDir: string, files: seq<string>)
    requires |files| >= 1
    ensures var k := 4 + |FastqcArgs(opts.runFastqc)| + |TrfArgs(opts.bypassTrf)| + |AdapterArgs(opts.adapters)|;
      FlagsInOrder(KneadArgs(opts, db, outDir, files)[4..k], opts)
  {
    var head, flags := KneadHead(opts.threads, db, outDir), OptionFlags(opts);
    assert |head| == 4;
    FlagsKeptInside(head, flags, opts.extraArgs, InputArgs(files), opts);
  }

  /** The option flags keep their fixed order once placed after the head. */
  lemma FlagsKeptInside(head: seq<string>, flags: seq<string>, extra: seq<string>, inputs: seq<string>, opts: KneadOptions)
    requires flags == OptionFlags(opts)
    ensures FlagsInOrder((head + flags + extra + inputs)[|head|..|head| + |flags|], opts)
  {
    OptionArgsInOrder(opts);
    assert (head + flags + extra + inputs)[|head|..|head| + |flags|] == flags;
  }

  /** The fixed head of the KneadData argument list. */
  function KneadHead(threads: int, db: string, outDir: string): seq<string> {
    ["kneaddata", "--threads " + IntToString(threads), "--reference-db " + db, "--output " + outDir]
  }

  /** The option flags, group by group. */
  function OptionFlags(opts: KneadOptions): seq<string> {
    FastqcArgs(opts.runFastqc) + TrfArgs(opts.bypassTrf) + AdapterArgs(opts.adapters)
  }

  /** The four sections of a concatenation are found again by slicing. */
  lemma SectionsOf<T>(a: seq<T>, b: seq<T>, c: seq<T>, d: seq<T>)
    ensures var r := a + b + c + d;
      && r[..|a|] == a && r[|a|..|a| + |b|] == b
      && r[|a| + |b|..|a| + |b| + |c|] == c && r[|a| + |b| + |c|..] == d
  {
  }

  /** Files after the first two never reach the command. */
  lemma ExtraFilesIgnored(opts: KneadOptions, db: string, outDir: string, files: seq<string>)
    requires |files| >= 2
    ensures KneadArgs(opts, db, outDir, files) == KneadArgs(opts, db, outDir, files[..2])
  {
  }

  /** A run is unpaired exactly when its sample has a single file. */
  lemma UnpairedIffSingle(opts: KneadOptions, db: string, outDir: string, files: seq<string>)
    requires |files| >= 1
    ensures var r := KneadArgs(opts, db, outDir, files);
      StartsWith(r[|r| - 1], "--unpaired ") <==> |files| == 1
  {
    var r := KneadArgs(opts, db, outDir, files);
    var inputs := InputArgs(files);
    assert r[|r| - 1] == r[|r| - |inputs|..][|inputs| - 1];
    LastInputUnpairedIffSingle(files);
  }

  lemma LastInputUnpairedIffSingle(files: seq<string>)
    requires |files| >= 1
    ensures var inputs := InputArgs(files);
      StartsWith(inputs[|inputs| - 1], "--unpaired ") <==> |files| == 1
  {
    if |files| >= 2 {
      assert ("--input2 " + files[1])[2] != "--unpaired "[2];
    }
  }

  const LogRedirect: string := " 2>&1"

  /** The shell line: the arguments joined by spaces, with all output sent to `<outDir>/kneaddata.log`. */
  function KneadCommand(args: seq<string>, outDir: string): (cmd: string)
    ensures EndsWith(cmd, " > " + Paths.PathJoin(outDir, "kneaddata.log") + LogRedirect)
    ensures StartsWith(cmd, Join(args, " "))
    ensures |cmd| == |Join(args, " ")| + |" > " + Paths.PathJoin(outDir, "kneaddata.log") + LogRedirect|
  {
    var tail := " > " + Paths.PathJoin(outDir, "kneaddata.log") + LogRedirect;
    var cmd := Join(args, " ") + tail;
    assert cmd[|cmd| - |tail|..] == tail;
    assert cmd[..|Join(args, " ")|] == Join(args, " ");
    cmd
  }

  // ---------------------------------------------------------------------------
  // Collecting the cleaned outputs

  /**
   * A name the glob `*_kneaddata*<ext>` matches: it contains "_kneaddata"
   * and ends in `ext`. No suffix of "_kneaddata" begins with '.', so the two
   * parts cannot overlap and the glob is exactly this conjunction.
   */
  predicate KneadOutput(name: string, ext: string) {
    Contains(name, "_kneaddata") && EndsWith(name, ext)
  }

  /** The names of `listing`, in listing order, that one output glob matches. */
  function Matching(listing: seq<string>, ext: string): (r: seq<string>)
    ensures forall n :: n in r <==> n in listing && KneadOutput(n, ext)
  {
    if listing == [] then []
    else
      var n := |listing| - 1;
      assert forall x :: x in listing <==> x in listing[..n] || x == listing[n] by {
        assert listing == listing[..n] + [listing[n]];
      }
      Matching(listing[..n], ext) + (if KneadOutput(listing[n], ext) then [listing[n]] else [])
  }

  /** The copies `<dir>/<name>` of the given names. */
  function CopiesIn(dir: string, names: seq<string>): (r: seq<string>)
    ensures |r| == |names|
    ensures forall i :: 0 <= i < |names| ==> r[i] == Paths.PathJoin(dir, names[i])
  {
    seq(|names|, i requires 0 <= i < |names| => Paths.PathJoin(dir, names[i]))
  }

  /** The copies made for one sample: glob by glob, each in listing order. */
  function CollectedExts(cleanDir: string, listing: seq<string>, exts: seq<string>): seq<string> {
    if exts == [] then []
    else
      var n := |exts| - 1;
      CollectedExts(cleanDir, listing, exts[..n]) + CopiesIn(cleanDir, Matching(listing, exts[n]))
  }

  function Collected(cleanDir: string, listing: seq<string>): seq<string> {
    CollectedExts(cleanDir, listing, FastqExtensions)
  }

  /** The copies one glob makes are exactly the copies of the names it matches. */
  lemma CopiesOfMatching(cleanDir: string, listing: seq<string>, ext: string, d: string)
    ensures d in CopiesIn(cleanDir, Matching(listing, ext)) <==>
      exists n :: n in listing && KneadOutput(n, ext) && d == Paths.PathJoin(cleanDir, n)
  {
    var m := Matching(listing, ext);
    if d in CopiesIn(cleanDir, m) {
      var i :| 0 <= i < |m| && CopiesIn(cleanDir, m)[i] == d;
      assert m[i] in m;
    }
    if exists n :: n in listing && KneadOutput(n, ext) && d == Paths.PathJoin(cleanDir, n) {
      var n :| n in listing && KneadOutput(n, ext) && d == Paths.PathJoin(cleanDir, n);
      var i :| 0 <= i < |m| && m[i] == n;
      assert CopiesIn(cleanDir, m)[i] == d;
    }
  }

  /** A copy is made for the sample exactly when some glob makes it. */
  lemma {:induction false} CollectedExtsAny(cleanDir: string, listing: seq<string>, exts: seq<string>, d: string)
    ensures d in CollectedExts(cleanDir, listing, exts) <==>
      exists e :: e in exts && d in CopiesIn(cleanDir, Matching(listing, e))
  {
    if exts != [] {
      var k := |exts| - 1;
      CollectedExtsAny(cleanDir, listing, exts[..k], d);
      assert exts == exts[..k] + [exts[k]];
      var init := CollectedExts(cleanDir, listing, exts[..k]);
      if d in init {
        var e :| e in exts[..k] && d in CopiesIn(cleanDir, Matching(listing, e));
        assert e in exts;
      }
      if exists e :: e in exts && d in CopiesIn(cleanDir, Matching(listing, e)) {
        var e :| e in exts && d in CopiesIn(cleanDir, Matching(listing, e));
        if e != exts[k] {
          assert e in exts[..k];
        }
      }
    }
  }

  /** Every copy is of a KneadData output of the sample, and every such output is copied. */
  lemma CollectedExtsMembers(cleanDir: string, listing: seq<string>, exts: seq<string>, d: string)
    ensures d in CollectedExts(cleanDir, listing, exts) <==>
      exists n, e :: n in listing && e in exts && KneadOutput(n, e) && d == Paths.PathJoin(cleanDir, n)
  {
    CollectedExtsAny(cleanDir, listing, exts, d);
    forall e | e in exts
      ensures d in CopiesIn(cleanDir, Matching(listing, e)) <==>
        exists n :: n in listing && KneadOutput(n, e) && d == Paths.PathJoin(cleanDir, n)
    {
      CopiesOfMatching(cleanDir, listing, e, d);
    }
  }

  lemma CopiesSnoc(dir: string, names: seq<string>, x: string)
    ensures CopiesIn(dir, names + [x]) == CopiesIn(dir, names) + [Paths.PathJoin(dir, x)]
  {
  }

  /** The copy loop of one glob: every match, in listing order, is copied into `cleanDir`. */
  method CopyMatching(cleanDir: string, listing: seq<string>, ext: string) returns (copies: seq<string>)
    ensures copies == CopiesIn(cleanDir, Matching(listing, ext))
  {
    copies := [];
    var i := 0;
    while i < |listing|
      invariant 0 <= i <= |listing|
      invariant copies == CopiesIn(cleanDir, Matching(listing[..i], ext))
    {
      assert listing[..i + 1][..i] == listing[..i];
      if KneadOutput(listing[i], ext) {
        CopiesSnoc(cleanDir, Matching(listing[..i], ext), listing[i]);
        copies := copies + [Paths.PathJoin(cleanDir, listing[i])];
      }
      i := i + 1;
    }
    assert listing[..i] == listing;
  }

  /** The copy loop for one sample: glob by glob, every match is copied into `cleanDir`. */
  method CollectOutputs(cleanDir: string, listing: seq<string>) returns (dests: seq<string>)
    ensures dests == Collected(cleanDir, listing)
  {
    dests := [];
    var e := 0;
    while e < |FastqExtensions|
      invariant 0 <= e <= |FastqExtensions|
      invariant dests == CollectedExts(cleanDir, listing, FastqExtensions[..e])
    {
      var copies := CopyMatching(cleanDir, listing, FastqExtensions[e]);
      assert FastqExtensions[..e + 1][..e] == FastqExtensions[..e];
      dests := dests + copies;
      e := e + 1;
    }
    assert FastqExtensions[..e] == FastqExtensions;
  }

  // ---------------------------------------------------------------------------
  // The pipeline

  /**
   * What `run_dehost_pipeline` observes: whether `<base>/fastq` exists, its
   * listing and which entries are regular files, the existing directories
   * with their listings (for the host database), the two settings read from
   * the environment and the configuration file, and the listing of each
   * per-sample output directory after KneadData has run.
   */
  datatype DehostWorld = DehostWorld(
    fastqPresent: bool,
    fastqListing: seq<string>,
    regularFiles: set<string>,
    dirs: map<string, seq<string>>,
    envDb: Option<string>,
    configDb: Option<string>,
    kneadOutputs: string -> seq<string>)

  const FastqMissingText: string := "[generate_dehost] FASTQ folder not found: "

  function FastqMissingMessage(fastqDir: string): string {
    FastqMissingText + fastqDir
  }

  function SampleFiles(w: DehostWorld): seq<string> {
    FastqFiles(w.fastqListing, w.regularFiles)
  }

  /** The samples, in the order `_detect_pairs` creates them. */
  function Samples(w: DehostWorld): seq<string> {
    Dedup(KeysOf(SampleFiles(w)))
  }

  lemma SamplesNonEmpty(w: DehostWorld)
    ensures forall k :: k in Samples(w) ==> |WithKey(SampleFiles(w), k)| >= 1
  {
    forall k | k in Samples(w) ensures |WithKey(SampleFiles(w), k)| >= 1 {
      GroupsNonEmpty(SampleFiles(w), k);
    }
  }

  /** The command run for sample `k`, with its files taken in sorted order. */
  function SampleCommand(base: string, opts: KneadOptions, db: string, w: DehostWorld, k: string): string
    requires |WithKey(SampleFiles(w), k)| >= 1
  {
    var outDir := Paths.PathJoin(Paths.PathJoin(base, "knead_out"), k);
    var inputs := CopiesIn(Paths.PathJoin(base, "fastq"), Sort(WithKey(SampleFiles(w), k)));
    KneadCommand(KneadArgs(opts, db, outDir, inputs), outDir)
  }

  function CommandsFor(base: string, opts: KneadOptions, db: string, w: DehostWorld, keys: seq<string>): seq<string>
    requires forall k :: k in keys ==> |WithKey(SampleFiles(w), k)| >= 1
  {
    if keys == [] then []
    else
      var n := |keys| - 1;
      CommandsFor(base, opts, db, w, keys[..n]) + [SampleCommand(base, opts, db, w, keys[n])]
  }

  /** One KneadData command per sample, in sample order. */
  function DehostCommands(base: string, opts: KneadOptions, db: string, w: DehostWorld): seq<string> {
    SamplesNonEmpty(w);
    CommandsFor(base, opts, db, w, Samples(w))
  }

  function CleanedFor(base: string, w: DehostWorld, keys: seq<string>): seq<string> {
    if keys == [] then []
    else
      var n := |keys| - 1;
      var outDir := Paths.PathJoin(Paths.PathJoin(base, "knead_out"), keys[n]);
      CleanedFor(base, w, keys[..n]) + Collected(Paths.PathJoin(base, "fastq_clean"), w.kneadOutputs(outDir))
  }

  function OutDirs(base: string, keys: seq<string>): (r: seq<string>)
    ensures |r| == |keys|
    ensures forall i :: 0 <= i < |keys| ==> r[i] == Paths.PathJoin(Paths.PathJoin(base, "knead_out"), keys[i])
  {
    CopiesIn(Paths.PathJoin(base, "knead_out"), keys)
  }

  /** One more sample extends the directories, commands and copies by its own. */
  lemma PipelineSnoc(base: string, opts: KneadOptions, db: string, w: DehostWorld, keys: seq<string>, j: nat)
    requires j < |keys| && forall k :: k in keys ==> |WithKey(SampleFiles(w), k)| >= 1
    ensures OutDirs(base, keys[..j + 1]) == OutDirs(base, keys[..j]) + [Paths.PathJoin(Paths.PathJoin(base, "knead_out"), keys[j])]
    ensures CommandsFor(base, opts, db, w, keys[..j + 1]) ==
      CommandsFor(base, opts, db, w, keys[..j]) + [SampleCommand(base, opts, db, w, keys[j])]
    ensures CleanedFor(base, w, keys[..j + 1]) == CleanedFor(base, w, keys[..j]) +
      Collected(Paths.PathJoin(base, "fastq_clean"), w.kneadOutputs(Paths.PathJoin(Paths.PathJoin(base, "knead_out"), keys[j])))
  {
    assert keys[..j + 1][..j] == keys[..j];
  }

  /** The loop body of `run_dehost_pipeline` for one sample. */
  method DehostSample(base: string, opts: KneadOptions, db: string, w: DehostWorld, key: string, files: seq<string>)
    returns (outDir: string, cmd: string, dests: seq<string>)
    requires files == WithKey(SampleFiles(w), key) && |files| >= 1
    ensures outDir == Paths.PathJoin(Paths.PathJoin(base, "knead_out"), key)
    ensures cmd == SampleCommand(base, opts, db, w, key)
    ensures dests == Collected(Paths.PathJoin(base, "fastq_clean"), w.kneadOutputs(outDir))
  {
    outDir := Paths.PathJoin(Paths.PathJoin(base, "knead_out"), key);
    var filesSorted := Sort(files);
    var inputs := CopiesIn(Paths.PathJoin(base, "fastq"), filesSorted);
    cmd := KneadCommand(KneadArgs(opts, db, outDir, inputs), outDir);
    dests := CollectOutputs(Paths.PathJoin(base, "fastq_clean"), w.kneadOutputs(outDir));
  }

  /** The host database the pipeline uses: resolved, then validated. */
  function HostDb(hostDb: Option<string>, w: DehostWorld): (r: Result<string>)
    ensures r.Ok? <==> (ResolveHostDb(hostDb, w.envDb, w.configDb).Ok? &&
      ValidateHostDb(ResolveHostDb(hostDb, w.envDb, w.configDb).value, w.dirs).Completed?)
    ensures r.Ok? ==> r.value == ResolveHostDb(hostDb, w.envDb, w.configDb).value
  {
    var resolved := ResolveHostDb(hostDb, w.envDb, w.configDb);
    if resolved.Raised? then Raised(resolved.error)
    else
      var valid := ValidateHostDb(resolved.value, w.dirs);
      if valid.Fails? then Raised(valid.error) else Ok(resolved.value)
  }

  /**
   * The errors of the host-database step: an unset path raises the
   * `ValueError`, a missing directory or one without a Bowtie2 index raises
   * `FileNotFoundError`, resolution being checked first.
   */
  lemma HostDbErrors(hostDb: Option<string>, w: DehostWorld)
    ensures !Truthy(hostDb) && !Truthy(w.envDb) && !Truthy(w.configDb) ==>
      HostDb(hostDb, w) == Raised(ValueError(HostDbUnsetMessage))
    ensures ResolveHostDb(hostDb, w.envDb, w.configDb).Ok? ==>
      var db := ResolveHostDb(hostDb, w.envDb, w.configDb).value;
      && (db !in w.dirs ==> HostDb(hostDb, w) == Raised(FileNotFoundError(DbNotFoundMessage(db))))
      && (db in w.dirs && !HasIndex(w.dirs[db]) ==> HostDb(hostDb, w) == Raised(FileNotFoundError(NoIndexMessage(db))))
  {
    var resolved := ResolveHostDb(hostDb, w.envDb, w.configDb);
    if resolved.Ok? {
      var valid := ValidateHostDb(resolved.value, w.dirs);
      assert HostDb(hostDb, w) == if valid.Fails? then Raised(valid.error) else Ok(resolved.value);
    }
  }

  /**
   * `run_dehost_pipeline`: creates `knead_out` and `fastq_clean`, fails if
   * the FASTQ folder is missing and then if the host database cannot be
   * resolved or validated, and otherwise runs one KneadData command per
   * sample and returns the sorted copies of the cleaned outputs.
   */
  method RunDehostPipeline(base: string, opts: KneadOptions, hostDb: Option<string>, w: DehostWorld)
    returns (made: seq<string>, commands: seq<string>, result: Result<seq<string>>)
    ensures |made| >= 2
    ensures made[..2] == [Paths.PathJoin(base, "knead_out"), Paths.PathJoin(base, "fastq_clean")]
    ensures !w.fastqPresent ==>
      result == Raised(FileNotFoundError(FastqMissingMessage(Paths.PathJoin(base, "fastq"))))
    ensures w.fastqPresent && HostDb(hostDb, w).Raised? ==> result == Raised(HostDb(hostDb, w).error)
    ensures result.Raised? ==> commands == [] && |made| == 2
    ensures result.Ok? <==> w.fastqPresent && HostDb(hostDb, w).Ok?
    ensures result.Ok? ==>
      && made[2..] == OutDirs(base, Samples(w))
      && commands == DehostCommands(base, opts, HostDb(hostDb, w).value, w)
      && result.value == Sort(CleanedFor(base, w, Samples(w)))
  {
    var fastqDir := Paths.PathJoin(base, "fastq");
    var outRoot := Paths.PathJoin(base, "knead_out");
    var cleanDir := Paths.PathJoin(base, "fastq_clean");
    made := [outRoot, cleanDir];
    commands := [];
    if !w.fastqPresent {
      return made, commands, Raised(FileNotFoundError(FastqMissingMessage(fastqDir)));
    }
    var checked := HostDb(hostDb, w);
    if checked.Raised? {
      return made, commands, Raised(checked.error);
    }
    var db := checked.value;
    var pairs := DetectPairs(w.fastqListing, w.regularFiles);
    var outDirs, cleaned;
    outDirs, commands, cleaned := DehostAll(base, opts, db, w, pairs);
    made := made + outDirs;
    result := Ok(Sort(cleaned));
  }

  /** The sample loop of `run_dehost_pipeline`: one KneadData run per detected sample, in order. */
  method DehostAll(base: string, opts: KneadOptions, db: string, w: DehostWorld, pairs: Dict<seq<string>>)
    returns (outDirs: seq<string>, commands: seq<string>, cleaned: seq<string>)
    requires Valid(pairs) && pairs.keys == Samples(w)
    requires forall k :: k in pairs.entries ==> pairs.entries[k] == WithKey(SampleFiles(w), k)
    ensures outDirs == OutDirs(base, Samples(w))
    ensures commands == DehostCommands(base, opts, db, w)
    ensures cleaned == CleanedFor(base, w, Samples(w))
  {
    var keys := pairs.keys;
    SamplesNonEmpty(w);
    outDirs, commands, cleaned := [], [], [];
    var j := 0;
    while j < |keys|
      invariant 0 <= j <= |keys|
      invariant outDirs == OutDirs(base, keys[..j])
      invariant commands == CommandsFor(base, opts, db, w, keys[..j])
      invariant cleaned == CleanedFor(base, w, keys[..j])
    {
      var key := keys[j];
      PipelineSnoc(base, opts, db, w, keys, j);
      var outDir, cmd, dests := DehostSample(base, opts, db, w, key, pairs.entries[key]);
      outDirs := outDirs + [outDir];
      commands := commands + [cmd];
      cleaned := cleaned + dests;
      j := j + 1;
    }
    assert keys[..j] == keys;
  }

  /** A group's files are already sorted, so the pipeline's re-sort changes nothing. */
  lemma GroupAlreadySorted(w: DehostWorld, k: string)
    ensures Sort(WithKey(SampleFiles(w), k)) == WithKey(SampleFiles(w), k)
  {
    WithKeySorted(SampleFiles(w), k);
    SortSorted(WithKey(SampleFiles(w), k));
  }

  // ---------------------------------------------------------------------------
  // Combining the cleaned reads for HUMAnN

  newtype byte = x: int | 0 <= x < 256

  const CombinedName: string := "combined.clean.fastq"

  /** The names of `listing` that the glob `*<ext>` matches, in listing order. */
  function EndingIn(listing: seq<string>, ext: string): (r: seq<string>)
    ensures forall n :: n in r <==> n in listing && EndsWith(n, ext)
  {
    if listing == [] then []
    else
      var n := |listing| - 1;
      assert forall x :: x in listing <==> x in listing[..n] || x == listing[n] by {
        assert listing == listing[..n] + [listing[n]];
      }
      EndingIn(listing[..n], ext) + (if EndsWith(listing[n], ext) then [listing[n]] else [])
  }

  /** `names` without the entries equal to `skip`. */
  function Skipping(names: seq<string>, skip: string): (r: seq<string>)
    ensures forall n :: n in r <==> n in names && n != skip
  {
    if names == [] then []
    else
      var n := |names| - 1;
      assert forall x :: x in names <==> x in names[..n] || x == names[n] by {
        assert names == names[..n] + [names[n]];
      }
      Skipping(names[..n], skip) + (if names[n] != skip then [names[n]] else [])
  }

  /** The files written, extension by extension, each group in sorted order. */
  function CombineOrderExts(listing: seq<string>, exts: seq<string>): seq<string> {
    if exts == [] then []
    else
      var n := |exts| - 1;
      CombineOrderExts(listing, exts[..n]) + Skipping(Sort(EndingIn(listing, exts[n])), CombinedName)
  }

  function CombineOrder(listing: seq<string>): seq<string> {
    CombineOrderExts(listing, FastqExtensions)
  }

  /** The bytes of the named files, one after another. */
  function BytesOf(names: seq<string>, contents: string -> seq<byte>): seq<byte> {
    if names == [] then []
    else
      var n := |names| - 1;
      BytesOf(names[..n], contents) + contents(names[n])
  }

  lemma {:induction false} BytesOfAppend(a: seq<string>, b: seq<string>, contents: string -> seq<byte>)
    ensures BytesOf(a + b, contents) == BytesOf(a, contents) + BytesOf(b, contents)
    decreases |b|
  {
    if b != [] {
      var n := |b| - 1;
      assert (a + b)[..|a + b| - 1] == a + b[..n];
      assert (a + b)[|a + b| - 1] == b[n];
      BytesOfAppend(a, b[..n], contents);
    } else {
      assert a + b == a;
    }
  }

  /** The name ends in one of `exts`. */
  predicate EndsWithAny(x: string, exts: seq<string>) {
    exists i :: 0 <= i < |exts| && EndsWith(x, exts[i])
  }

  lemma EndsWithAnySnoc(x: string, exts: seq<string>)
    requires exts != []
    ensures EndsWithAny(x, exts) <==> EndsWithAny(x, exts[..|exts| - 1]) || EndsWith(x, exts[|exts| - 1])
  {
    var n := |exts| - 1;
    if EndsWithAny(x, exts) {
      var i :| 0 <= i < |exts| && EndsWith(x, exts[i]);
      if i < n {
        assert exts[..n][i] == exts[i];
      }
    }
    if EndsWithAny(x, exts[..n]) {
      var i :| 0 <= i < n && EndsWith(x, exts[..n][i]);
      assert exts[i] == exts[..n][i];
    }
  }

  /**
   * The combined file takes exactly the other files with one of the
   * extensions: it never includes itself.
   */
  lemma {:induction false} CombineOrderExtsMembers(listing: seq<string>, exts: seq<string>, x: string)
    ensures x in CombineOrderExts(listing, exts) <==> x in listing && x != CombinedName && EndsWithAny(x, exts)
  {
    if exts != [] {
      var n := |exts| - 1;
      CombineOrderExtsMembers(listing, exts[..n], x);
      InSort(EndingIn(listing, exts[n]), x);
      EndsWithAnySnoc(x, exts);
    }
  }

  lemma CombinedNeverIncluded(listing: seq<string>)
    ensures CombinedName !in CombineOrder(listing)
    ensures forall x :: x in CombineOrder(listing) <==>
      x in listing && x != CombinedName && EndsWithAny(x, FastqExtensions)
  {
    forall x ensures x in CombineOrder(listing) <==>
      x in listing && x != CombinedName && EndsWithAny(x, FastqExtensions)
    {
      CombineOrderExtsMembers(listing, FastqExtensions, x);
    }
  }

  lemma {:induction false} EndingInCount(listing: seq<string>, ext: string, x: string)
    ensures multiset(EndingIn(listing, ext))[x] == if EndsWith(x, ext) then multiset(listing)[x] else 0
  {
    if listing != [] {
      var n := |listing| - 1;
      EndingInCount(listing[..n], ext, x);
      assert listing == listing[..n] + [listing[n]];
    }
  }

  /**
   * The order of the combined file does not depend on the order in which the
   * directory is listed, since every group is sorted.
   */
  lemma {:induction false} CombineOrderIgnoresListingOrder(l1: seq<string>, l2: seq<string>, exts: seq<string>)
    requires multiset(l1) == multiset(l2)
    ensures CombineOrderExts(l1, exts) == CombineOrderExts(l2, exts)
  {
    if exts != [] {
      var n := |exts| - 1;
      CombineOrderIgnoresListingOrder(l1, l2, exts[..n]);
      var e := exts[n];
      assert multiset(EndingIn(l1, e)) == multiset(EndingIn(l2, e)) by {
        forall x ensures multiset(EndingIn(l1, e))[x] == multiset(EndingIn(l2, e))[x] {
          EndingInCount(l1, e, x);
          EndingInCount(l2, e, x);
        }
      }
      SortPermutation(EndingIn(l1, e), EndingIn(l2, e));
    }
  }

  /** The inner loop of `combine_for_humann`: the files of one group, skipping the output itself. */
  method WriteGroup(ps: seq<string>, contents: string -> seq<byte>) returns (bytes: seq<byte>)
    ensures bytes == BytesOf(Skipping(ps, CombinedName), contents)
  {
    bytes := [];
    var i := 0;
    while i < |ps|
      invariant 0 <= i <= |ps|
      invariant bytes == BytesOf(Skipping(ps[..i], CombinedName), contents)
    {
      assert ps[..i + 1][..i] == ps[..i];
      var done := Skipping(ps[..i], CombinedName);
      if ps[i] != CombinedName {
        assert Skipping(ps[..i + 1], CombinedName) == done + [ps[i]];
        assert (done + [ps[i]])[..|done|] == done;
        bytes := bytes + contents(ps[i]);
      } else {
        assert Skipping(ps[..i + 1], CombinedName) == done;
      }
      i := i + 1;
    }
    assert ps[..i] == ps;
  }

  /**
   * `combine_for_humann`: writes `fastq_clean/combined.clean.fastq` as the
   * concatenation of the other cleaned files, extension by extension and in
   * sorted order within an extension. `contents` gives each file's bytes.
   */
  method CombineForHumann(base: string, listing: seq<string>, contents: string -> seq<byte>)
    returns (combined: string, written: seq<byte>)
    ensures combined == Paths.PathJoin(Paths.PathJoin(base, "fastq_clean"), CombinedName)
    ensures written == BytesOf(CombineOrder(listing), contents)
  {
    combined := Paths.PathJoin(Paths.PathJoin(base, "fastq_clean"), CombinedName);
    written := WriteGroups(listing, FastqExtensions, contents);
  }

  /** The outer loop of `combine_for_humann`, one sorted group per extension. */
  method WriteGroups(listing: seq<string>, exts: seq<string>, contents: string -> seq<byte>)
    returns (written: seq<byte>)
    ensures written == BytesOf(CombineOrderExts(listing, exts), contents)
  {
    written := [];
    var e := 0;
    while e < |exts|
      invariant 0 <= e <= |exts|
      invariant written == BytesOf(CombineOrderExts(listing, exts[..e]), contents)
    {
      var ext := exts[e];
      assert exts[..e + 1][..e] == exts[..e];
      var ps := Sort(EndingIn(listing, ext));
      var bytes := WriteGroup(ps, contents);
      BytesOfAppend(CombineOrderExts(listing, exts[..e]), Skipping(ps, CombinedName), contents);
      written := written + bytes;
      e := e + 1;
    }
    assert exts[..e] == exts;
  }
}
