/**
 * `yamas/generate_pathways.py`: `run_humann_pipeline` groups the FASTQ
 * files of `<base>/fastq` into samples, looks up each sample's MetaPhlAn
 * profile under `<base>/qza`, merges paired reads, runs HUMAnN and removes
 * the merged file again; `_run_single_humann` builds the HUMAnN command.
 */
module Pathways {
  import opened Wrappers
  import opened Strings
  import opened Sorting
  import opened Dicts
  import Paths

  // ---------------------------------------------------------------------------
  // Grouping files into samples

  /** The names `fastq_dir.glob("*.fastq")` and `fastq_dir.glob("*.fq")` match. */
  predicate IsReadFile(name: string) {
    EndsWith(name, ".fastq") || EndsWith(name, ".fq")
  }

  function FilterReads(listing: seq<string>): (r: seq<string>)
    ensures forall f :: f in r <==> f in listing && IsReadFile(f)
    ensures forall f :: multiset(r)[f] == if IsReadFile(f) then multiset(listing)[f] else 0
  {
    if listing == [] then []
    else
      var rest := FilterReads(listing[1..]);
      assert forall f :: f in listing <==> f == listing[0] || f in listing[1..] by {
        assert listing == [listing[0]] + listing[1..];
      }
      assert multiset(listing) == multiset([listing[0]]) + multiset(listing[1..]) by {
        assert listing == [listing[0]] + listing[1..];
      }
      if IsReadFile(listing[0]) then [listing[0]] + rest else rest
  }

  /** `sorted(glob("*.fastq") + glob("*.fq"))`, by file name. */
  function ReadFiles(listing: seq<string>): (r: seq<string>)
    ensures Sorted(r)
    ensures forall f :: f in r <==> f in listing && IsReadFile(f)
    ensures forall f :: multiset(r)[f] == if IsReadFile(f) then multiset(listing)[f] else 0
  {
    var r := Sort(FilterReads(listing));
    assert forall f :: f in r <==> f in multiset(r);
    r
  }

  const MateOneFastq: string := "_1.fastq"
  const MateOneFq: string := "_1.fq"
  const MateTwoFastq: string := "_2.fastq"
  const MateTwoFq: string := "_2.fq"

  predicate IsMateOne(name: string) {
    Contains(name, MateOneFastq) || Contains(name, MateOneFq)
  }

  predicate IsMateTwo(name: string) {
    Contains(name, MateTwoFastq) || Contains(name, MateTwoFq)
  }

  /** A file that is appended to its sample's list rather than replacing it. */
  predicate IsMate(name: string) {
    IsMateOne(name) || IsMateTwo(name)
  }

  /**
   * The sample a file belongs to: a first mate loses every `_1.fastq` and
   * then every `_1.fq`, a second mate (that is not a first mate) the same
   * with `_2`, and any other file is keyed by its stem.
   */
  function SampleName(name: string): string {
    if IsMateOne(name) then ReplaceAll(ReplaceAll(name, MateOneFastq, ""), MateOneFq, "")
    else if IsMateTwo(name) then ReplaceAll(ReplaceAll(name, MateTwoFastq, ""), MateTwoFq, "")
    else Paths.Stem(name)
  }

  /** The sample of each file, in file order. */
  function NamesOf(files: seq<string>): (ns: seq<string>)
    ensures |ns| == |files|
    ensures forall i :: 0 <= i < |files| ==> ns[i] == SampleName(files[i])
  {
    seq(|files|, i requires 0 <= i < |files| => SampleName(files[i]))
  }

  /**
   * The list held for sample `k` after the files have been seen in order:
   * a mate is appended, any other file replaces the whole list.
   */
  function Members(files: seq<string>, k: string): seq<string> {
    if files == [] then []
    else
      var last := files[|files| - 1];
      var before := Members(files[..|files| - 1], k);
      if SampleName(last) != k then before
      else if IsMate(last) then before + [last]
      else [last]
  }

  lemma MembersSnoc(files: seq<string>, f: string, k: string)
    ensures Members(files + [f], k) ==
      if SampleName(f) != k then Members(files, k)
      else if IsMate(f) then Members(files, k) + [f]
      else [f]
  {
    assert (files + [f])[..|files|] == files;
  }

  lemma NamesOfSnoc(files: seq<string>, f: string)
    ensures NamesOf(files + [f]) == NamesOf(files) + [SampleName(f)]
  {
  }

  lemma DedupSnoc(s: seq<string>, x: string)
    ensures Dedup(s + [x]) == if x in Dedup(s) then Dedup(s) else Dedup(s) + [x]
  {
    assert (s + [x])[..|s|] == s;
  }

  /** Every file held for `k` is one of the files and belongs to `k`. */
  lemma {:induction false} MembersMembers(files: seq<string>, k: string)
    ensures forall f :: f in Members(files, k) ==> f in files && SampleName(f) == k
  {
    if files != [] {
      var n := |files| - 1;
      MembersMembers(files[..n], k);
      assert files == files[..n] + [files[n]];
    }
  }

  /** A sample has a non-empty list exactly when some file belongs to it. */
  lemma {:induction false} MembersEmpty(files: seq<string>, k: string)
    ensures Members(files, k) == [] <==> k !in NamesOf(files)
  {
    if files != [] {
      var n := |files| - 1;
      var f := files[n];
      assert files == files[..n] + [f];
      MembersEmpty(files[..n], k);
      MembersSnoc(files[..n], f, k);
      NamesOfSnoc(files[..n], f);
      assert k in NamesOf(files) <==> k in NamesOf(files[..n]) || k == SampleName(f);
    }
  }

  /** The lists of a sorted file list are sorted, so `files.sort()` changes nothing. */
  lemma {:induction false} MembersSorted(files: seq<string>, k: string)
    requires Sorted(files)
    ensures Sorted(Members(files, k))
    ensures Sort(Members(files, k)) == Members(files, k)
  {
    if files != [] {
      var n := |files| - 1;
      assert Sorted(files[..n]);
      MembersSorted(files[..n], k);
      MembersMembers(files[..n], k);
      var g := Members(files[..n], k);
      forall i | 0 <= i < |g| ensures LexLe(g[i], files[n]) {
        assert g[i] in files[..n];
      }
    }
    SortSorted(Members(files, k));
  }

  /**
   * A file that is not a mate wipes out what came before it: the list of
   * its sample is that file followed by the mates of the sample after it,
   * provided no later file of the sample is again a non-mate.
   */
  lemma {:induction false} MembersAfterSingle(files: seq<string>, j: nat)
    requires j < |files| && !IsMate(files[j])
    requires forall i :: j < i < |files| && SampleName(files[i]) == SampleName(files[j]) ==> IsMate(files[i])
    ensures Members(files, SampleName(files[j])) == [files[j]] + Members(files[j + 1..], SampleName(files[j]))
  {
    var n := |files| - 1;
    var k := SampleName(files[j]);
    SnocSlice(files);
    if j == n {
      assert files[j + 1..] == [];
      MembersSnoc(files[..n], files[n], k);
    } else {
      MembersAfterSingle(files[..n], j);
      SnocSliceFrom(files, j);
      MembersSnocBoth(files[..n], files[j + 1..n], files[n], files[j], k);
    }
  }

  /** A last file, a mate if it is of the sample, extends both lists alike. */
  lemma MembersSnocBoth(front: seq<string>, back: seq<string>, f: string, x: string, k: string)
    requires SampleName(f) == k ==> IsMate(f)
    requires Members(front, k) == [x] + Members(back, k)
    ensures Members(front + [f], k) == [x] + Members(back + [f], k)
  {
    MembersSnoc(front, f, k);
    MembersSnoc(back, f, k);
  }

  /** What the grouping loop keeps true after its first files. */
  ghost predicate GroupedUpTo(files: seq<string>, samples: Dict<seq<string>>) {
    && Valid(samples)
    && samples.keys == Dedup(NamesOf(files))
    && (forall k :: k in samples.entries ==> samples.entries[k] == Members(files, k))
    && (forall k :: k !in samples.entries ==> Members(files, k) == [])
  }

  /** One loop step: a mate is appended to its list, any other file replaces it. */
  function AddFile(samples: Dict<seq<string>>, f: string): Dict<seq<string>>
    requires Valid(samples)
  {
    var key := SampleName(f);
    Put(samples, key, if IsMate(f) then Get(samples, key, []) + [f] else [f])
  }

  lemma GroupStep(files: seq<string>, samples: Dict<seq<string>>, f: string)
    requires GroupedUpTo(files, samples)
    ensures GroupedUpTo(files + [f], AddFile(samples, f))
  {
    var g := AddFile(samples, f);
    NamesOfSnoc(files, f);
    DedupSnoc(NamesOf(files), SampleName(f));
    forall k | k in g.entries ensures g.entries[k] == Members(files + [f], k) {
      MembersSnoc(files, f, k);
    }
    forall k | k !in g.entries ensures Members(files + [f], k) == [] {
      MembersSnoc(files, f, k);
    }
  }

  /**
   * The `samples` dictionary of `run_humann_pipeline`: samples in order of
   * their first file, each holding `Members` of the sorted read files.
   */
  method GroupSamples(listing: seq<string>) returns (samples: Dict<seq<string>>)
    ensures Valid(samples)
    ensures samples.keys == Dedup(NamesOf(ReadFiles(listing)))
    ensures forall k :: k in samples.entries ==> samples.entries[k] == Members(ReadFiles(listing), k)
    ensures forall k :: k !in samples.entries ==> Members(ReadFiles(listing), k) == []
  {
    samples := GroupFiles(ReadFiles(listing));
  }

  /** The grouping loop over an already sorted list of read files. */
  method GroupFiles(files: seq<string>) returns (samples: Dict<seq<string>>)
    ensures GroupedUpTo(files, samples)
  {
    samples := Empty();
    var i := 0;
    while i < |files|
      invariant 0 <= i <= |files|
      invariant GroupedUpTo(files[..i], samples)
    {
      var f := files[i];
      assert files[..i + 1] == files[..i] + [f];
      GroupStep(files[..i], samples, f);
      var key := SampleName(f);
      if IsMate(f) {
        samples := Put(samples, key, Get(samples, key, []) + [f]);
      } else {
        samples := Put(samples, key, [f]);
      }
      i := i + 1;
    }
    assert files[..i] == files;
  }

  /** Every sample the loop creates has at least one file. */
  lemma SamplesNonEmpty(listing: seq<string>)
    ensures forall k :: k in Dedup(NamesOf(ReadFiles(listing))) ==> |Members(ReadFiles(listing), k)| >= 1
  {
    forall k | k in Dedup(NamesOf(ReadFiles(listing)))
      ensures |Members(ReadFiles(listing), k)| >= 1
    {
      MembersEmpty(ReadFiles(listing), k);
    }
  }

  // The two mates of a sample share its name.

  /** An occurrence of a pattern cannot start in a prefix lacking its first character. */
  lemma {:induction false} ContainsAfterPrefix(s: string, t: string, pat: string)
    requires pat != [] && pat[0] !in s
    ensures Contains(s + t, pat) <==> Contains(t, pat)
    decreases |s|
  {
    if s != [] {
      assert (s + t)[1..] == s[1..] + t;
      ContainsAfterPrefix(s[1..], t, pat);
      assert (s + t)[0] != pat[0];
      assert !StartsWith(s + t, pat);
    } else {
      assert s + t == t;
    }
  }

  /** A text that does not start with the pattern and holds its first character only at the front. */
  lemma MismatchAtFront(t: string, pat: string)
    requires pat != [] && t != [] && pat[0] !in t[1..] && !StartsWith(t, pat)
    ensures !Contains(t, pat)
  {
    NotContainsFirstChar(t[1..], pat);
  }

  /** A tail `_<d>.<ext>` mentions no mate token of the other digit. */
  lemma OtherMateAbsent(tail: string, pat: string)
    requires |tail| >= 2 && |pat| >= 2 && tail[0] == '_' && pat[0] == '_' && tail[1] != pat[1]
    requires '_' !in tail[1..]
    ensures !Contains(tail, pat)
  {
    if |pat| <= |tail| {
      assert tail[..|pat|][1] == tail[1];
    }
    MismatchAtFront(tail, pat);
  }

  /** `s` followed by `tail`: replacing `pat` in it where `pat` is absent from both. */
  lemma ReplaceNeither(s: string, tail: string, pat: string)
    requires pat != [] && pat[0] !in s && !Contains(tail, pat)
    ensures ReplaceAll(s + tail, pat, "") == s + tail
    ensures !Contains(s + tail, pat)
  {
    ContainsAfterPrefix(s, tail, pat);
    ReplaceAbsent(s + tail, pat, "");
  }

  /** `s` followed by a token: the token is removed and nothing else is. */
  lemma DropToken(s: string, tok: string, other: string)
    requires tok != [] && other != [] && tok[0] == '_' && other[0] == '_' && '_' !in s
    ensures ReplaceAll(ReplaceAll(s + tok, tok, ""), other, "") == s
    ensures Contains(s + tok, tok)
  {
    ReplaceTrailing(s, tok, "");
    assert s + "" == s;
    NotContainsFirstChar(s, other);
    ReplaceAbsent(s, other, "");
    ContainsAt(s + tok, tok, |s|);
  }

  /** A token longer than `short`, which holds '_' only at its front, is absent from it. */
  lemma LongerAbsent(short: string, long: string)
    requires |short| < |long| && short != [] && long[0] == '_' && '_' !in short[1..]
    ensures !Contains(short, long)
  {
    assert !StartsWith(short, long);
    NotContainsFirstChar(short[1..], long);
  }

  /** `s` followed by the shorter token: the longer one is absent. */
  lemma DropShortToken(s: string, long: string, short: string)
    requires |short| < |long| && short != [] && long[0] == '_' && short[0] == '_' && '_' !in s
    requires '_' !in short[1..]
    ensures ReplaceAll(ReplaceAll(s + short, long, ""), short, "") == s
    ensures Contains(s + short, short)
  {
    assert (s + short)[|s|..|s| + |short|] == short;
    assert s + "" == s;
    ContainsAt(s + short, short, |s|);
    LongerAbsent(short, long);
    ReplaceNeither(s, short, long);
    ReplaceTrailing(s, short, "");
  }

  lemma MateOneNames(s: string)
    requires '_' !in s
    ensures SampleName(s + MateOneFastq) == s && IsMate(s + MateOneFastq)
    ensures SampleName(s + MateOneFq) == s && IsMate(s + MateOneFq)
  {
    DropToken(s, MateOneFastq, MateOneFq);
    DropShortToken(s, MateOneFastq, MateOneFq);
  }

  lemma MateTwoFastqName(s: string)
    requires '_' !in s
    ensures SampleName(s + MateTwoFastq) == s && IsMate(s + MateTwoFastq)
  {
    OtherMateAbsent(MateTwoFastq, MateOneFastq);
    OtherMateAbsent(MateTwoFastq, MateOneFq);
    ContainsAfterPrefix(s, MateTwoFastq, MateOneFastq);
    ContainsAfterPrefix(s, MateTwoFastq, MateOneFq);
    DropToken(s, MateTwoFastq, MateTwoFq);
  }

  lemma MateTwoFqName(s: string)
    requires '_' !in s
    ensures SampleName(s + MateTwoFq) == s && IsMate(s + MateTwoFq)
  {
    OtherMateAbsent(MateTwoFq, MateOneFastq);
    OtherMateAbsent(MateTwoFq, MateOneFq);
    ContainsAfterPrefix(s, MateTwoFq, MateOneFastq);
    ContainsAfterPrefix(s, MateTwoFq, MateOneFq);
    DropShortToken(s, MateTwoFastq, MateTwoFq);
  }

  /**
   * For a sample name without '_', `s_1.fastq` and `s_2.fastq` (and the
   * `.fq` forms) are mates of sample `s`.
   */
  lemma MatesShareName(s: string)
    requires '_' !in s
    ensures SampleName(s + MateOneFastq) == s && SampleName(s + MateTwoFastq) == s
    ensures SampleName(s + MateOneFq) == s && SampleName(s + MateTwoFq) == s
    ensures IsMate(s + MateOneFastq) && IsMate(s + MateTwoFastq)
    ensures IsMate(s + MateOneFq) && IsMate(s + MateTwoFq)
  {
    MateOneNames(s);
    MateTwoFastqName(s);
    MateTwoFqName(s);
  }

  // ---------------------------------------------------------------------------
  // Looking up the taxonomic profile

  const ProfileSuffix: string := "_profile.txt"
  const MateOneProfileSuffix: string := "_1_profile.txt"

  /** The profiles tried for a sample, in order. */
  function Candidates(qzaDir: string, sample: string, firstFile: string): (c: seq<string>)
    ensures |c| == 3
  {
    [Paths.PathJoin(qzaDir, sample + ProfileSuffix),
     Paths.PathJoin(qzaDir, sample + MateOneProfileSuffix),
     Paths.PathJoin(qzaDir, Paths.Stem(firstFile) + ProfileSuffix)]
  }

  /**
   * Every candidate lies directly in the profile directory, and is named
   * `<sample>_profile.txt`, `<sample>_1_profile.txt` and
   * `<stem of the first file>_profile.txt` in turn.
   */
  lemma CandidateNames(qzaDir: string, sample: string, firstFile: string)
    requires '/' !in sample && '/' !in firstFile
    ensures StartsWith(Candidates(qzaDir, sample, firstFile)[0], qzaDir + "/")
    ensures StartsWith(Candidates(qzaDir, sample, firstFile)[1], qzaDir + "/")
    ensures StartsWith(Candidates(qzaDir, sample, firstFile)[2], qzaDir + "/")
    ensures Paths.Tail(Candidates(qzaDir, sample, firstFile)[0]) == sample + ProfileSuffix
    ensures Paths.Tail(Candidates(qzaDir, sample, firstFile)[1]) == sample + MateOneProfileSuffix
    ensures Paths.Tail(Candidates(qzaDir, sample, firstFile)[2]) == Paths.Stem(firstFile) + ProfileSuffix
  {
    var stem := Paths.Stem(firstFile);
    StemNoSlash(firstFile);
    SuffixesHaveNoSlash();
    NoSlash(sample, ProfileSuffix);
    NoSlash(sample, MateOneProfileSuffix);
    NoSlash(stem, ProfileSuffix);
    NamedUnder(qzaDir, sample + ProfileSuffix);
    NamedUnder(qzaDir, sample + MateOneProfileSuffix);
    NamedUnder(qzaDir, stem + ProfileSuffix);
  }

  lemma StemNoSlash(name: string)
    requires '/' !in name
    ensures '/' !in Paths.Stem(name)
  {
    var stem := Paths.Stem(name);
    assert forall k :: 0 <= k < |stem| ==> stem[k] == name[k];
  }

  lemma SuffixesHaveNoSlash()
    ensures '/' !in ProfileSuffix && '/' !in MateOneProfileSuffix
  {
    forall k | 0 <= k < |ProfileSuffix| ensures ProfileSuffix[k] != '/' {}
    forall k | 0 <= k < |MateOneProfileSuffix| ensures MateOneProfileSuffix[k] != '/' {}
  }

  /** A slash-free name joined to a directory lies directly in it. */
  lemma NamedUnder(dir: string, name: string)
    requires '/' !in name
    ensures StartsWith(Paths.PathJoin(dir, name), dir + "/")
    ensures Paths.Tail(Paths.PathJoin(dir, name)) == name
  {
    assert Paths.PathJoin(dir, name)[..|dir + "/"|] == dir + "/";
    Paths.TailOfJoin(dir, name);
  }

  /** The first candidate that exists, if any. */
  function FirstExisting(cands: seq<string>, existing: set<string>): (r: Option<string>)
    ensures r.None? <==> forall i :: 0 <= i < |cands| ==> cands[i] !in existing
    ensures r.Some? ==> exists i ::
      && 0 <= i < |cands| && cands[i] == r.value && r.value in existing
      && (forall j :: 0 <= j < i ==> cands[j] !in existing)
  {
    if cands == [] then None
    else if cands[0] in existing then Some(cands[0])
    else
      var r := FirstExisting(cands[1..], existing);
      if r.Some? then
        var i :| 0 <= i < |cands[1..]| && cands[1..][i] == r.value && r.value in existing &&
          forall j :: 0 <= j < i ==> cands[1..][j] !in existing;
        assert cands[i + 1] == r.value;
        r
      else r
  }

  /** The search loop with `break` that sets `profile_path`. */
  method FindProfile(cands: seq<string>, existing: set<string>) returns (profile: Option<string>)
    ensures profile == FirstExisting(cands, existing)
  {
    profile := None;
    var i := 0;
    while i < |cands|
      invariant 0 <= i <= |cands|
      invariant FirstExisting(cands[i..], existing) == FirstExisting(cands, existing)
    {
      if cands[i] in existing {
        profile := Some(cands[i]);
        break;
      }
      assert cands[i..][1..] == cands[i + 1..];
      i := i + 1;
    }
    if i == |cands| {
      assert cands[i..] == [];
    }
  }

  // ---------------------------------------------------------------------------
  // The HUMAnN command

  /** `_run_single_humann`'s log: `<stem of the input>_humann.log` in the output directory. */
  function HumannLog(input: string, outDir: string): string {
    Paths.PathJoin(outDir, Paths.Stem(Paths.Tail(input)) + "_humann.log")
  }

  /**
   * The value a command line gives an option written as one argument
   * `<flag> <value>`: the rest of the first argument that starts with the
   * flag and a space.
   */
  function FlagValue(args: seq<string>, flag: string): Option<string> {
    if args == [] then None
    else if StartsWith(args[0], flag + " ") then Some(args[0][|flag| + 1..])
    else FlagValue(args[1..], flag)
  }

  const InputFlag: string := "--input"
  const OutputFlag: string := "--output"
  const ProfileFlag: string := "--taxonomic-profile"
  const ThreadsFlag: string := "--threads"
  const FormatFlag: string := "--input-format"
  const RemoveTempFlag: string := "--remove-temp-output"

  /**
   * The arguments of `_run_single_humann`, in their fixed order: each value
   * is read back under its own flag, the input format is always FASTQ, and
   * the temporary output is always removed.
   */
  function HumannArgs(input: string, outDir: string, profile: string, threads: int): (r: seq<string>)
    ensures |r| == 7 && r[0] == "humann" && RemoveTempFlag in r
    ensures FlagValue(r, InputFlag) == Some(input)
    ensures FlagValue(r, OutputFlag) == Some(outDir)
    ensures FlagValue(r, ProfileFlag) == Some(profile)
    ensures FlagValue(r, ThreadsFlag) == Some(IntToString(threads))
    ensures FlagValue(r, FormatFlag) == Some("fastq")
    ensures forall i :: 1 <= i < 6 ==> StartsWith(r[i], HumannFlagOrder[i - 1] + " ")
    ensures r[6] == RemoveTempFlag
  {
    var r := ["humann",
      FlagArg(InputFlag, input),
      FlagArg(OutputFlag, outDir),
      FlagArg(ProfileFlag, profile),
      FlagArg(ThreadsFlag, IntToString(threads)),
      FlagArg(FormatFlag, "fastq"),
      RemoveTempFlag];
    HumannFlagsRead(r, input, outDir, profile, IntToString(threads));
    r
  }

  /** The flags of the HUMAnN argument list, in the order they are passed. */
  const HumannFlagOrder: seq<string> := [InputFlag, OutputFlag, ProfileFlag, ThreadsFlag, FormatFlag]

  function FlagArg(flag: string, value: string): string {
    flag + " " + value
  }

  /** `<flag> <value>` is read back as `value` under `flag`. */
  lemma FlagArgRead(flag: string, value: string)
    ensures StartsWith(FlagArg(flag, value), flag + " ")
    ensures FlagArg(flag, value)[|flag| + 1..] == value
  {
    assert FlagArg(flag, value) == (flag + " ") + value;
  }

  /** An argument that differs from `flag + " "` at index `k` is not read under `flag`. */
  lemma FlagMismatch(arg: string, flag: string, k: nat)
    requires k < |flag| + 1 && k < |arg| && arg[k] != (flag + " ")[k]
    ensures !StartsWith(arg, flag + " ")
  {
    assert |arg| >= |flag + " "| ==> arg[..|flag + " "|][k] == arg[k];
  }

  /** The first argument that carries `flag` gives its value. */
  lemma {:induction false} FlagValueAt(args: seq<string>, flag: string, i: nat)
    requires i < |args| && StartsWith(args[i], flag + " ")
    requires forall j :: 0 <= j < i ==> !StartsWith(args[j], flag + " ")
    ensures FlagValue(args, flag) == Some(args[i][|flag| + 1..])
    decreases i
  {
    if i > 0 {
      assert !StartsWith(args[0], flag + " ");
      FlagValueAt(args[1..], flag, i - 1);
    }
  }

  /** The HUMAnN argument list reads back each of its values. */
  lemma HumannFlagsRead(r: seq<string>, input: string, outDir: string, profile: string, threads: string)
    requires r == ["humann", FlagArg(InputFlag, input), FlagArg(OutputFlag, outDir),
      FlagArg(ProfileFlag, profile), FlagArg(ThreadsFlag, threads), FlagArg(FormatFlag, "fastq"), RemoveTempFlag]
    ensures FlagValue(r, InputFlag) == Some(input)
    ensures FlagValue(r, OutputFlag) == Some(outDir)
    ensures FlagValue(r, ProfileFlag) == Some(profile)
    ensures FlagValue(r, ThreadsFlag) == Some(threads)
    ensures FlagValue(r, FormatFlag) == Some("fastq")
  {
    FlagArgRead(InputFlag, input);
    FlagArgRead(OutputFlag, outDir);
    FlagArgRead(ProfileFlag, profile);
    FlagArgRead(ThreadsFlag, threads);
    FlagArgRead(FormatFlag, "fastq");
    HumannFlagsApart(r[0], r[1], r[2], r[3], r[4]);
    FlagValueAt(r, InputFlag, 1);
    FlagValueAt(r, OutputFlag, 2);
    FlagValueAt(r, ProfileFlag, 3);
    FlagValueAt(r, ThreadsFlag, 4);
    FlagValueAt(r, FormatFlag, 5);
  }

  /**
   * No HUMAnN argument carries a flag of a later one: "humann" is too short
   * for any flag, the flags differ in their third or fourth character, and
   * "--input" differs from "--input-format" in the character after it.
   */
  lemma HumannFlagsApart(a0: string, a1: string, a2: string, a3: string, a4: string)
    requires a0 == "humann" && StartsWith(a1, InputFlag + " ") && StartsWith(a2, OutputFlag + " ")
    requires StartsWith(a3, ProfileFlag + " ") && StartsWith(a4, ThreadsFlag + " ")
    ensures forall flag :: flag in [InputFlag, OutputFlag, ProfileFlag, ThreadsFlag, FormatFlag] ==> !StartsWith(a0, flag + " ")
    ensures !StartsWith(a1, OutputFlag + " ") && !StartsWith(a1, ProfileFlag + " ")
    ensures !StartsWith(a1, ThreadsFlag + " ") && !StartsWith(a1, FormatFlag + " ")
    ensures !StartsWith(a2, ProfileFlag + " ") && !StartsWith(a2, ThreadsFlag + " ") && !StartsWith(a2, FormatFlag + " ")
    ensures !StartsWith(a3, ThreadsFlag + " ") && !StartsWith(a3, FormatFlag + " ")
    ensures !StartsWith(a4, FormatFlag + " ")
  {
    assert a1[2] == 'i' && a2[2] == 'o' && a3[2] == 't' && a4[2] == 't' && a3[3] == 'a' && a1[7] == ' ';
    FlagMismatch(a1, OutputFlag, 2);
    FlagMismatch(a1, ProfileFlag, 2);
    FlagMismatch(a1, ThreadsFlag, 2);
    FlagMismatch(a1, FormatFlag, 7);
    FlagMismatch(a2, ProfileFlag, 2);
    FlagMismatch(a2, ThreadsFlag, 2);
    FlagMismatch(a2, FormatFlag, 2);
    FlagMismatch(a3, ThreadsFlag, 3);
    FlagMismatch(a3, FormatFlag, 2);
    FlagMismatch(a4, FormatFlag, 2);
  }

  /** The command line `_run_single_humann` hands to `run_cmd`: the arguments, then the log redirect, and nothing else. */
  function HumannCommand(input: string, outDir: string, profile: string, threads: int): (cmd: string)
    ensures StartsWith(cmd, Join(HumannArgs(input, outDir, profile, threads), " "))
    ensures EndsWith(cmd, " > " + HumannLog(input, outDir) + " 2>&1")
    ensures |cmd| == |Join(HumannArgs(input, outDir, profile, threads), " ")| + |" > " + HumannLog(input, outDir) + " 2>&1"|
  {
    var tail := " > " + HumannLog(input, outDir) + " 2>&1";
    var cmd := Join(HumannArgs(input, outDir, profile, threads), " ") + tail;
    assert cmd[|cmd| - |tail|..] == tail;
    assert cmd[..|Join(HumannArgs(input, outDir, profile, threads), " ")|] == Join(HumannArgs(input, outDir, profile, threads), " ");
    cmd
  }

  /** The command names its input right after the program name. */
  lemma HumannInputFirst(input: string, outDir: string, profile: string, threads: int)
    ensures StartsWith(HumannCommand(input, outDir, profile, threads), "humann --input " + input + " ")
  {
    var args := HumannArgs(input, outDir, profile, threads);
    assert args[1] == FlagArg(InputFlag, input) == "--input " + input;
    JoinTwoHeads(args, " ");
    HumannHead(input, Join(args[2..], " "));
    PrefixOfPrefix(HumannCommand(input, outDir, profile, threads), Join(args, " "), "humann --input " + input + " ");
  }

  /** The program name and the input flag, spaced, start the joined arguments. */
  lemma HumannHead(input: string, rest: string)
    ensures StartsWith("humann" + " " + ("--input " + input) + " " + rest, "humann --input " + input + " ")
  {
    var p := "humann --input " + input + " ";
    assert "humann" + " " + ("--input " + input) + " " + rest == p + rest;
    assert (p + rest)[..|p|] == p;
  }

  /** `Join` of a list with at least three parts, its first two peeled off. */
  lemma JoinTwoHeads(args: seq<string>, sep: string)
    requires |args| >= 3
    ensures Join(args, sep) == args[0] + sep + args[1] + sep + Join(args[2..], sep)
  {
    assert args == [args[0]] + args[1..];
    JoinCons(args[0], args[1..], sep);
    assert args[1..] == [args[1]] + args[2..];
    JoinCons(args[1], args[2..], sep);
    assert args[1..][1..] == args[2..];
  }

  lemma PrefixOfPrefix(a: string, b: string, c: string)
    requires StartsWith(a, b) && StartsWith(b, c)
    ensures StartsWith(a, c)
  {
    assert a[..|c|] == a[..|b|][..|c|];
  }

  /** `Join` of a list with at least two parts peels off its head. */
  lemma JoinCons(x: string, rest: seq<string>, sep: string)
    requires rest != []
    ensures Join([x] + rest, sep) == x + sep + Join(rest, sep)
  {
    assert ([x] + rest)[1..] == rest;
  }

  /** The merged file of sample `s` gives the log `<s>_merged_humann.log`. */
  lemma MergedLogName(humannDir: string, sample: string)
    requires '/' !in sample
    ensures HumannLog(Paths.PathJoin(humannDir, sample + "_merged.fastq"), humannDir) ==
      Paths.PathJoin(humannDir, sample + "_merged_humann.log")
  {
    var base := sample + "_merged";
    var name := base + "." + "fastq";
    assert name == sample + "_merged.fastq";
    assert base + "_humann.log" == sample + "_merged_humann.log";
    NoSlash(sample, "_merged.fastq");
    Paths.TailOfJoin(humannDir, name);
    Paths.StemSuffix(base, "fastq");
  }

  lemma NoSlash(a: string, b: string)
    requires '/' !in a && '/' !in b
    ensures '/' !in a + b
  {
  }

  // ---------------------------------------------------------------------------
  // The pipeline

  /**
   * What `run_humann_pipeline` observes: the listing of `<base>/fastq`
   * (empty when the folder is missing, as `glob` then finds nothing), the
   * paths that exist, and the samples whose HUMAnN step raises an exception
   * before its command reaches the shell.
   */
  datatype HumannWorld = HumannWorld(fastqListing: seq<string>, existing: set<string>, raises: set<string>)

  /** A shell command of the run: the merge of two mates, or one HUMAnN run. */
  datatype Step =
    | Merge(first: string, second: string, merged: string)
    | RunHumann(input: string, outDir: string, profile: string, threads: int)

  /** The command line `run_cmd` receives for a step. */
  function Render(step: Step): string {
    match step
    case Merge(first, second, merged) => "cat " + first + " " + second + " > " + merged
    case RunHumann(input, outDir, profile, threads) => HumannCommand(input, outDir, profile, threads)
  }

  function RenderAll(steps: seq<Step>): (r: seq<string>)
    ensures |r| == |steps|
    ensures forall i :: 0 <= i < |steps| ==> r[i] == Render(steps[i])
  {
    seq(|steps|, i requires 0 <= i < |steps| => Render(steps[i]))
  }

  /** What the run does: its steps, the samples skipped for want of a profile, those whose step raised, the files removed. */
  datatype Report = Report(steps: seq<Step>, skipped: seq<string>, failed: seq<string>, removed: seq<string>)

  function MergedFile(base: string, sample: string): string {
    Paths.PathJoin(Paths.PathJoin(base, "humann_results"), sample + "_merged.fastq")
  }

  function SampleFiles(w: HumannWorld): seq<string> {
    ReadFiles(w.fastqListing)
  }

  function Samples(w: HumannWorld): seq<string> {
    Dedup(NamesOf(SampleFiles(w)))
  }

  function ProfileOf(base: string, w: HumannWorld, sample: string, files: seq<string>): Option<string>
    requires |files| >= 1
  {
    FirstExisting(Candidates(Paths.PathJoin(base, "qza"), sample, files[0]), w.existing)
  }

  /** HUMAnN's input: the merged file for exactly two files, else the first file. */
  function InputOf(base: string, sample: string, files: seq<string>): string
    requires |files| >= 1
  {
    if |files| == 2 then MergedFile(base, sample) else Paths.PathJoin(Paths.PathJoin(base, "fastq"), files[0])
  }

  /**
   * One sample: skipped when no profile exists; otherwise exactly two
   * files are concatenated in sorted order into the merged file, which is
   * HUMAnN's input and is removed afterwards whether or not the HUMAnN step
   * raised; any other number of files runs on the first file.
   */
  function SampleReport(base: string, threads: int, w: HumannWorld, sample: string, files: seq<string>): Report
    requires |files| >= 1
  {
    var profile := ProfileOf(base, w, sample, files);
    if profile.None? then Report([], [sample], [], [])
    else
      var fastqDir := Paths.PathJoin(base, "fastq");
      var sorted := Sort(files);
      var input := InputOf(base, sample, files);
      var merge := if |files| == 2 then [Merge(Paths.PathJoin(fastqDir, sorted[0]), Paths.PathJoin(fastqDir, sorted[1]), input)] else [];
      var run := if sample in w.raises then [] else [RunHumann(input, Paths.PathJoin(base, "humann_results"), profile.value, threads)];
      Report(merge + run, [], if sample in w.raises then [sample] else [], if |files| == 2 then [input] else [])
  }

  function Combine(a: Report, b: Report): Report {
    Report(a.steps + b.steps, a.skipped + b.skipped, a.failed + b.failed, a.removed + b.removed)
  }

  function ReportFor(base: string, threads: int, w: HumannWorld, samples: seq<string>): Report
    requires forall k :: k in samples ==> |Members(SampleFiles(w), k)| >= 1
  {
    if samples == [] then Report([], [], [], [])
    else
      var n := |samples| - 1;
      Combine(ReportFor(base, threads, w, samples[..n]),
              SampleReport(base, threads, w, samples[n], Members(SampleFiles(w), samples[n])))
  }

  /** The whole run: one report per sample, in sample order. */
  function HumannReport(base: string, threads: int, w: HumannWorld): Report {
    SamplesNonEmpty(w.fastqListing);
    ReportFor(base, threads, w, Samples(w))
  }

  lemma ReportSnoc(base: string, threads: int, w: HumannWorld, samples: seq<string>, j: nat)
    requires j < |samples| && forall k :: k in samples ==> |Members(SampleFiles(w), k)| >= 1
    ensures ReportFor(base, threads, w, samples[..j + 1]) ==
      Combine(ReportFor(base, threads, w, samples[..j]),
              SampleReport(base, threads, w, samples[j], Members(SampleFiles(w), samples[j])))
  {
    assert samples[..j + 1][..j] == samples[..j];
  }

  /** The body of the sample loop of `run_humann_pipeline`. */
  method HumannSample(base: string, threads: int, w: HumannWorld, sample: string, files: seq<string>)
    returns (r: Report)
    requires |files| >= 1
    ensures r == SampleReport(base, threads, w, sample, files)
  {
    var fastqDir := Paths.PathJoin(base, "fastq");
    var humannDir := Paths.PathJoin(base, "humann_results");
    var cands := Candidates(Paths.PathJoin(base, "qza"), sample, files[0]);
    var profile := FindProfile(cands, w.existing);
    if profile.None? {
      return Report([], [sample], [], []);
    }
    var input := Paths.PathJoin(fastqDir, files[0]);
    var temp: Option<string> := None;
    var steps := [];
    var sorted := Sort(files);
    if |sorted| == 2 {
      var mergedFile := MergedFile(base, sample);
      temp := Some(mergedFile);
      steps := steps + [Merge(Paths.PathJoin(fastqDir, sorted[0]), Paths.PathJoin(fastqDir, sorted[1]), mergedFile)];
      input := mergedFile;
    }
    var failed := [];
    if sample in w.raises {
      failed := [sample];
    } else {
      steps := steps + [RunHumann(input, humannDir, profile.value, threads)];
    }
    var removed := [];
    if temp.Some? {
      removed := [temp.value];
    }
    r := Report(steps, [], failed, removed);
  }

  /**
   * `run_humann_pipeline`: creates `<base>/humann_results`, then handles the
   * samples one after another and hands each step's command line to the
   * shell; a sample without a profile or with a failing HUMAnN step never
   * stops the run.
   */
  method RunHumannPipeline(base: string, threads: int, w: HumannWorld)
    returns (made: seq<string>, trace: seq<string>, report: Report)
    ensures made == [Paths.PathJoin(base, "humann_results")]
    ensures report == HumannReport(base, threads, w)
    ensures trace == RenderAll(report.steps)
  {
    made := [Paths.PathJoin(base, "humann_results")];
    var samples := GroupSamples(w.fastqListing);
    var keys := samples.keys;
    SamplesNonEmpty(w.fastqListing);
    report := Report([], [], [], []);
    var j := 0;
    while j < |keys|
      invariant 0 <= j <= |keys|
      invariant report == ReportFor(base, threads, w, keys[..j])
    {
      var sample := keys[j];
      ReportSnoc(base, threads, w, keys, j);
      var r := HumannSample(base, threads, w, sample, samples.entries[sample]);
      report := Combine(report, r);
      j := j + 1;
    }
    assert keys[..j] == keys;
    trace := RenderSteps(report.steps);
  }

  /** Each step's command line goes to the shell in order. */
  method RenderSteps(steps: seq<Step>) returns (trace: seq<string>)
    ensures trace == RenderAll(steps)
  {
    trace := [];
    var i := 0;
    while i < |steps|
      invariant 0 <= i <= |steps|
      invariant trace == RenderAll(steps[..i])
    {
      trace := trace + [Render(steps[i])];
      i := i + 1;
    }
    assert steps[..i] == steps;
  }

  // ---------------------------------------------------------------------------
  // Properties of the run

  /** The sample's first file is the least of its files, so the input needs no re-sort. */
  lemma FirstFileIsLeast(w: HumannWorld, k: string)
    requires |Members(SampleFiles(w), k)| >= 1
    ensures Sort(Members(SampleFiles(w), k))[0] == Members(SampleFiles(w), k)[0]
  {
    MembersSorted(SampleFiles(w), k);
  }

  /** One sample is skipped exactly when it has no profile; if not, it names no skipped sample. */
  lemma SampleSkipped(base: string, threads: int, w: HumannWorld, sample: string, files: seq<string>)
    requires |files| >= 1
    ensures SampleReport(base, threads, w, sample, files).skipped ==
      if ProfileOf(base, w, sample, files).None? then [sample] else []
  {
  }

  /** Skipped samples are exactly those without a profile. */
  lemma {:induction false} SkippedExactly(base: string, threads: int, w: HumannWorld, samples: seq<string>, k: string)
    requires forall s :: s in samples ==> |Members(SampleFiles(w), s)| >= 1
    ensures k in ReportFor(base, threads, w, samples).skipped <==>
      k in samples && ProfileOf(base, w, k, Members(SampleFiles(w), k)).None?
  {
    if samples != [] {
      var n := |samples| - 1;
      InitOf(samples, k);
      SkippedExactly(base, threads, w, samples[..n], k);
      SampleSkipped(base, threads, w, samples[n], Members(SampleFiles(w), samples[n]));
    }
  }

  /** A sample with a profile that does not raise runs HUMAnN on its input. */
  lemma SampleRuns(base: string, threads: int, w: HumannWorld, sample: string, files: seq<string>)
    requires |files| >= 1 && sample !in w.raises && ProfileOf(base, w, sample, files).Some?
    ensures RunHumann(InputOf(base, sample, files), Paths.PathJoin(base, "humann_results"),
      ProfileOf(base, w, sample, files).value, threads) in SampleReport(base, threads, w, sample, files).steps
  {
    assert |Sort(files)| == |files|;
  }

  /**
   * A skipped or failing sample does not stop the run: every sample that
   * has a profile and does not raise gets its HUMAnN step.
   */
  lemma {:induction false} ProfiledSamplesRun(base: string, threads: int, w: HumannWorld, samples: seq<string>, k: string)
    requires forall s :: s in samples ==> |Members(SampleFiles(w), s)| >= 1
    requires k in samples && k !in w.raises
    ensures var files := Members(SampleFiles(w), k);
      ProfileOf(base, w, k, files).Some? ==>
        RunHumann(InputOf(base, k, files), Paths.PathJoin(base, "humann_results"), ProfileOf(base, w, k, files).value, threads)
          in ReportFor(base, threads, w, samples).steps
  {
    var n := |samples| - 1;
    InitOf(samples, k);
    if samples[n] == k {
      if ProfileOf(base, w, k, Members(SampleFiles(w), k)).Some? {
        SampleRuns(base, threads, w, k, Members(SampleFiles(w), k));
      }
    } else {
      ProfiledSamplesRun(base, threads, w, samples[..n], k);
    }
  }

  /** The samples before the last one. */
  lemma InitOf(samples: seq<string>, k: string)
    requires samples != []
    ensures forall s :: s in samples[..|samples| - 1] ==> s in samples
    ensures k in samples && k != samples[|samples| - 1] ==> k in samples[..|samples| - 1]
  {
    assert samples == samples[..|samples| - 1] + [samples[|samples| - 1]];
  }

  /** One sample removes its merged file exactly when it merged. */
  lemma SampleRemoves(base: string, threads: int, w: HumannWorld, sample: string, files: seq<string>)
    requires |files| >= 1
    ensures SampleReport(base, threads, w, sample, files).removed ==
      if ProfileOf(base, w, sample, files).Some? && |files| == 2 then [MergedFile(base, sample)] else []
  {
  }

  /** The merged file of every merged sample is removed, whether or not its HUMAnN step raised. */
  lemma {:induction false} MergedRemoved(base: string, threads: int, w: HumannWorld, samples: seq<string>, k: string)
    requires forall s :: s in samples ==> |Members(SampleFiles(w), s)| >= 1
    requires k in samples
    ensures var files := Members(SampleFiles(w), k);
      ProfileOf(base, w, k, files).Some? && |files| == 2 ==>
        MergedFile(base, k) in ReportFor(base, threads, w, samples).removed
  {
    var n := |samples| - 1;
    InitOf(samples, k);
    SampleRemoves(base, threads, w, samples[n], Members(SampleFiles(w), samples[n]));
    if samples[n] != k {
      MergedRemoved(base, threads, w, samples[..n], k);
    }
  }

  /**
   * Which samples raise changes neither which samples are skipped nor
   * which merged files are removed: the cleanup sits in a `finally`.
   */
  lemma {:induction false} CleanupIgnoresFailures(base: string, threads: int, w1: HumannWorld, w2: HumannWorld, samples: seq<string>)
    requires w1.fastqListing == w2.fastqListing && w1.existing == w2.existing
    requires forall s :: s in samples ==> |Members(SampleFiles(w1), s)| >= 1
    ensures ReportFor(base, threads, w1, samples).removed == ReportFor(base, threads, w2, samples).removed
    ensures ReportFor(base, threads, w1, samples).skipped == ReportFor(base, threads, w2, samples).skipped
  {
    if samples != [] {
      var n := |samples| - 1;
      InitOf(samples, "");
      CleanupIgnoresFailures(base, threads, w1, w2, samples[..n]);
      var files := Members(SampleFiles(w1), samples[n]);
      SampleRemoves(base, threads, w1, samples[n], files);
      SampleRemoves(base, threads, w2, samples[n], files);
      SampleSkipped(base, threads, w1, samples[n], files);
      SampleSkipped(base, threads, w2, samples[n], files);
    }
  }

  /** `s` followed by a `.fastq` name ends in `.fastq`. */
  lemma EndsWithAfter(s: string, t: string, suffix: string)
    requires EndsWith(t, suffix)
    ensures EndsWith(s + t, suffix)
  {
    assert (s + t)[|s + t| - |suffix|..] == t[|t| - |suffix|..];
  }

  /** A common prefix does not change the order. */
  lemma {:induction false} LexLePrefix(s: string, t: string, u: string)
    requires LexLe(t, u)
    ensures LexLe(s + t, s + u)
    decreases |s|
  {
    if s != [] {
      assert (s + t)[0] == (s + u)[0];
      assert (s + t)[1..] == s[1..] + t && (s + u)[1..] == s[1..] + u;
      LexLePrefix(s[1..], t, u);
    } else {
      assert s + t == t && s + u == u;
    }
  }

  /** `s_1.fastq` sorts before `s_2.fastq`, and both are read files. */
  lemma PairFilesSorted(s: string, listing: seq<string>)
    requires listing == [s + MateOneFastq, s + MateTwoFastq]
    ensures ReadFiles(listing) == listing
  {
    var a, b := s + MateOneFastq, s + MateTwoFastq;
    EndsWithAfter(s, MateOneFastq, ".fastq");
    EndsWithAfter(s, MateTwoFastq, ".fastq");
    var none: seq<string> := [];
    assert listing[1..] == [b] && [b][1..] == none;
    assert FilterReads([b]) == [b];
    assert IsReadFile(a);
    assert FilterReads(listing) == listing;
    LexLePrefix(s, MateOneFastq, MateTwoFastq);
    assert Sorted(listing);
    SortSorted(listing);
  }

  /** `[s_1.fastq, s_2.fastq]` make the single sample `s`, holding both files. */
  lemma PairGroup(s: string, listing: seq<string>)
    requires '_' !in s
    requires listing == [s + MateOneFastq, s + MateTwoFastq]
    ensures Dedup(NamesOf(ReadFiles(listing))) == [s]
    ensures Members(ReadFiles(listing), s) == listing
  {
    var a, b := s + MateOneFastq, s + MateTwoFastq;
    PairFilesSorted(s, listing);
    assert [a] == [] + [a] && listing == [a] + [b];
    MatesShareName(s);
    NamesOfSnoc([], a);
    NamesOfSnoc([a], b);
    DedupSnoc([], s);
    DedupSnoc([s], s);
    MembersSnoc([], a, s);
    MembersSnoc([a], b, s);
  }

  /**
   * A sample given as `s_1.fastq` and `s_2.fastq`, with a profile
   * `<qza>/s_profile.txt`, is merged in mate order, HUMAnN runs on the
   * merged file, and the merged file is removed.
   */
  lemma PairedSampleMerged(base: string, threads: int, w: HumannWorld, s: string)
    requires '_' !in s
    requires w.fastqListing == [s + MateOneFastq, s + MateTwoFastq]
    requires Paths.PathJoin(Paths.PathJoin(base, "qza"), s + ProfileSuffix) in w.existing
    requires s !in w.raises
    ensures Samples(w) == [s]
    ensures var fastqDir := Paths.PathJoin(base, "fastq");
      var merged := MergedFile(base, s);
      HumannReport(base, threads, w) == Report(
        [Merge(Paths.PathJoin(fastqDir, s + MateOneFastq), Paths.PathJoin(fastqDir, s + MateTwoFastq), merged),
         RunHumann(merged, Paths.PathJoin(base, "humann_results"),
           Paths.PathJoin(Paths.PathJoin(base, "qza"), s + ProfileSuffix), threads)],
        [], [], [merged])
  {
    PairGroup(s, w.fastqListing);
    var files := w.fastqListing;
    MembersSorted(SampleFiles(w), s);
    PairReport(base, threads, w, s, files);
    SamplesNonEmpty(w.fastqListing);
    assert [s][..0] == [];
    assert ReportFor(base, threads, w, [s]) == Combine(Report([], [], [], []), SampleReport(base, threads, w, s, files));
  }

  /** A sample of two sorted files whose first candidate profile exists. */
  lemma PairReport(base: string, threads: int, w: HumannWorld, s: string, files: seq<string>)
    requires |files| == 2 && Sort(files) == files && s !in w.raises
    requires Paths.PathJoin(Paths.PathJoin(base, "qza"), s + ProfileSuffix) in w.existing
    ensures var fastqDir := Paths.PathJoin(base, "fastq");
      var merged := MergedFile(base, s);
      SampleReport(base, threads, w, s, files) == Report(
        [Merge(Paths.PathJoin(fastqDir, files[0]), Paths.PathJoin(fastqDir, files[1]), merged),
         RunHumann(merged, Paths.PathJoin(base, "humann_results"),
           Paths.PathJoin(Paths.PathJoin(base, "qza"), s + ProfileSuffix), threads)],
        [], [], [merged])
  {
    FirstCandidateChosen(base, w, s, files);
  }

  /** When `<qza>/<sample>_profile.txt` exists, it is the profile used. */
  lemma FirstCandidateChosen(base: string, w: HumannWorld, s: string, files: seq<string>)
    requires |files| >= 1
    requires Paths.PathJoin(Paths.PathJoin(base, "qza"), s + ProfileSuffix) in w.existing
    ensures ProfileOf(base, w, s, files) == Some(Paths.PathJoin(Paths.PathJoin(base, "qza"), s + ProfileSuffix))
  {
    var cands := Candidates(Paths.PathJoin(base, "qza"), s, files[0]);
    assert cands[0] in w.existing;
  }
}
