/**
 * `yamas/create_visualization.py`: the run directory layout, the decision
 * between single- and paired-end reads after conversion, the QIIME2
 * manifest and import/demultiplexing commands, the MetaPhlAn profiling
 * commands and table reshaping, the copy-back of cleaned reads, and the
 * order of stages in `visualization`.
 */
module Visualization {
  import opened Wrappers
  import opened Strings
  import opened Sorting
  import Paths
  import Utilities
  import Pathways
  import Dehost

  // ---------------------------------------------------------------------------
  // The run directory

  /** The subdirectories `create_dir` makes inside the run directory, in order. */
  const Subdirs: seq<string> := ["sra", "fastq", "qza", "vis", "humann_results", "export"]

  /** The run directory: under the absolute `specific_location` when one is given, else under the working directory. */
  function RunDir(dirName: string, specificLocation: Option<string>, cwd: string): (d: string)
    ensures specificLocation.Some? && specificLocation.value != "" ==>
      d == Paths.PathJoin(Paths.Abspath(specificLocation.value, cwd), dirName)
    ensures !(specificLocation.Some? && specificLocation.value != "") ==> d == Paths.Abspath(dirName, cwd)
  {
    if specificLocation.Some? && specificLocation.value != "" then
      Paths.PathJoin(Paths.Abspath(specificLocation.value, cwd), dirName)
    else Paths.Abspath(dirName, cwd)
  }

  /**
   * Under an absolute working directory, the run directory is absolute and
   * its last component is the requested name, with or without a location.
   */
  lemma RunDirAbsoluteNamed(dirName: string, specificLocation: Option<string>, cwd: string)
    requires '/' !in dirName && StartsWith(cwd, "/")
    ensures StartsWith(RunDir(dirName, specificLocation, cwd), "/")
    ensures Paths.Tail(RunDir(dirName, specificLocation, cwd)) == dirName
  {
    if specificLocation.Some? && specificLocation.value != "" {
      var loc := Paths.Abspath(specificLocation.value, cwd);
      AbspathAbsolute(specificLocation.value, cwd);
      Paths.TailOfJoin(loc, dirName);
      assert Paths.PathJoin(loc, dirName)[..1] == loc[..1];
    } else {
      assert !StartsWith(dirName, "/") by {
        if |dirName| >= 1 {
          assert dirName[0] in dirName;
        }
      }
      Paths.TailOfJoin(cwd, dirName);
      assert Paths.PathJoin(cwd, dirName)[..1] == cwd[..1];
    }
  }

  /** `os.path.abspath` under an absolute working directory gives an absolute path. */
  lemma AbspathAbsolute(p: string, cwd: string)
    requires StartsWith(cwd, "/")
    ensures StartsWith(Paths.Abspath(p, cwd), "/")
  {
    if !StartsWith(p, "/") {
      assert Paths.PathJoin(cwd, p)[..1] == cwd[..1];
    }
  }

  /**
   * `create_dir`: makes the run directory, then each subdirectory in
   * turn, and returns the run directory.
   */
  method CreateDir(dirName: string, specificLocation: Option<string>, cwd: string)
    returns (dirPath: string, made: seq<string>)
    ensures dirPath == RunDir(dirName, specificLocation, cwd)
    ensures |made| == 1 + |Subdirs| && made[0] == dirPath
    ensures forall i :: 0 <= i < |Subdirs| ==> made[i + 1] == Paths.PathJoin(dirPath, Subdirs[i])
  {
    dirPath := RunDir(dirName, specificLocation, cwd);
    made := [dirPath];
    for i := 0 to |Subdirs|
      invariant |made| == 1 + i && made[0] == dirPath
      invariant forall j :: 0 <= j < i ==> made[j + 1] == Paths.PathJoin(dirPath, Subdirs[j])
    {
      made := made + [Paths.PathJoin(dirPath, Subdirs[i])];
    }
  }

  /** The last component of each subdirectory made is its name. */
  lemma SubdirsNamed(dirPath: string)
    ensures forall i :: 0 <= i < |Subdirs| ==> Paths.Tail(Paths.PathJoin(dirPath, Subdirs[i])) == Subdirs[i]
  {
    forall i | 0 <= i < |Subdirs| ensures Paths.Tail(Paths.PathJoin(dirPath, Subdirs[i])) == Subdirs[i] {
      SubdirHasNoSlash(i);
      Paths.TailOfJoin(dirPath, Subdirs[i]);
    }
  }

  lemma SubdirHasNoSlash(i: nat)
    requires i < |Subdirs|
    ensures '/' !in Subdirs[i]
  {
    if i == 0 { assert Subdirs[0] == "sra"; }
    else if i == 1 { assert Subdirs[1] == "fastq"; }
    else if i == 2 { assert Subdirs[2] == "qza"; }
    else if i == 3 { assert Subdirs[3] == "vis"; }
    else if i == 4 { assert Subdirs[4] == "humann_results"; }
    else { assert Subdirs[5] == "export"; }
  }

  /** The six subdirectories are different: their first letters already differ. */
  lemma SubdirsDistinct()
    ensures Distinct(Subdirs)
  {
    var firsts := "sfqvhe";
    assert forall i :: 0 <= i < |Subdirs| ==> Subdirs[i][0] == firsts[i];
    assert forall i, j :: 0 <= i < j < |firsts| ==> firsts[i] != firsts[j];
  }

  // ---------------------------------------------------------------------------
  // Converting the downloads and deciding on paired reads

  /**
   * What the run directory holds: the working directory, whether `sra`
   * exists with its listing, which entries under `sra` are directories and
   * what they list, the listing of `fastq` once `fasterq-dump` has run, and
   * the paths of the regular files that exist.
   */
  datatype RunWorld = RunWorld(
    cwd: string,
    sraExists: bool,
    sraListing: seq<string>,
    dirs: set<string>,
    nested: string -> seq<string>,
    fastqListing: seq<string>,
    existing: set<string>)

  /** The file `fasterq-dump` converts for an entry of `sra`: the entry, or the first file inside it. */
  function SraTarget(sraRoot: string, w: RunWorld, item: string): Option<string> {
    var full := Paths.PathJoin(sraRoot, item);
    if full in w.dirs then
      if w.nested(full) == [] then None else Some(Paths.PathJoin(full, w.nested(full)[0]))
    else Some(full)
  }

  function ConvertCommand(target: string, fastqPath: string): string {
    Join(["fasterq-dump", "--split-files", target, "-O", fastqPath], " ")
  }

  /** One conversion per entry of `sra`, empty nested directories skipped. */
  function ConvertCommands(sraRoot: string, fastqPath: string, w: RunWorld, items: seq<string>): seq<string> {
    if items == [] then []
    else
      var n := |items| - 1;
      var t := SraTarget(sraRoot, w, items[n]);
      ConvertCommands(sraRoot, fastqPath, w, items[..n]) + (if t.Some? then [ConvertCommand(t.value, fastqPath)] else [])
  }

  /**
   * The first three names ending in `.fastq` or `.fq`, in sorted order:
   * three of them when there are that many, and every read file left out
   * sorts after every one kept.
   */
  function FirstReads(listing: seq<string>): (r: seq<string>)
    ensures |r| == if |Pathways.ReadFiles(listing)| <= 3 then |Pathways.ReadFiles(listing)| else 3
    ensures Sorted(r)
    ensures forall f :: f in r ==> Pathways.IsReadFile(f) && f in listing
    ensures forall g, f :: g in r && f in listing && Pathways.IsReadFile(f) && f !in r ==> LexLe(g, f)
    ensures multiset(r) <= multiset(Pathways.ReadFiles(listing))
  {
    var all := Pathways.ReadFiles(listing);
    var r := if |all| <= 3 then all else all[..3];
    TakeSubMultiset(all, |r|);
    TakeSortedBefore(all, |r|);
    r
  }

  /** A prefix of a sequence holds no element more often than the whole. */
  lemma TakeSubMultiset(s: seq<string>, n: nat)
    requires n <= |s|
    ensures multiset(s[..n]) <= multiset(s)
  {
    assert s == s[..n] + s[n..];
    assert multiset(s) == multiset(s[..n]) + multiset(s[n..]);
  }

  /** A prefix of a sorted sequence is sorted and sorts before the rest. */
  lemma TakeSortedBefore(s: seq<string>, n: nat)
    requires Sorted(s) && n <= |s|
    ensures Sorted(s[..n])
    ensures forall f :: f in s[..n] ==> f in s
    ensures forall g, f :: g in s[..n] && f in s && f !in s[..n] ==> LexLe(g, f)
  {
    forall g, f | g in s[..n] && f in s && f !in s[..n] ensures LexLe(g, f) {
      var i :| 0 <= i < n && s[..n][i] == g;
      var j :| 0 <= j < |s| && s[j] == f;
      assert s[i] == g;
    }
  }

  /** `f.split("_")[0]`. */
  function Prefix(f: string): string {
    Split(f, '_')[0]
  }

  function Prefixes(files: seq<string>): (ps: seq<string>)
    ensures |ps| == |files|
    ensures forall i :: 0 <= i < |files| ==> ps[i] == Prefix(files[i])
  {
    seq(|files|, i requires 0 <= i < |files| => Prefix(files[i]))
  }

  /** `any(count == 2 for count in Counter(prefixes).values())`. */
  predicate SomePrefixTwice(ps: seq<string>) {
    exists i :: 0 <= i < |ps| && multiset(ps)[ps[i]] == 2
  }

  /** The reads look paired when, among the first three, some prefix occurs exactly twice. */
  predicate LooksPaired(listing: seq<string>) {
    SomePrefixTwice(Prefixes(FirstReads(listing)))
  }

  function RemoveReverseCommand(fastqPath: string): string {
    "rm " + Paths.PathJoin(fastqPath, "*_2.fastq")
  }

  method ConvertAll(sraRoot: string, fastqPath: string, w: RunWorld) returns (commands: seq<string>)
    ensures commands == ConvertCommands(sraRoot, fastqPath, w, w.sraListing)
  {
    commands := [];
    var items := w.sraListing;
    for i := 0 to |items|
      invariant commands == ConvertCommands(sraRoot, fastqPath, w, items[..i])
    {
      assert items[..i + 1][..i] == items[..i];
      var full := Paths.PathJoin(sraRoot, items[i]);
      var target := full;
      if full in w.dirs {
        var nested := w.nested(full);
        if nested == [] {
          continue;
        }
        target := Paths.PathJoin(full, nested[0]);
      }
      commands := commands + [ConvertCommand(target, fastqPath)];
    }
    assert items[..|items|] == items;
  }

  /**
   * `sra_to_fastq`: without an `sra` folder the reads are single-end and
   * nothing runs; otherwise every entry is converted, and the reads are
   * paired when the first three FASTQ names say so, unless single reads
   * were asked for, in which case the reverse reads are deleted.
   */
  method SraToFastq(dirPath: string, asSingle: bool, w: RunWorld)
    returns (rd: Utilities.ReadsData, commands: seq<string>)
    ensures rd.dirPath == dirPath && rd.fwd
    ensures rd.rev <==> w.sraExists && LooksPaired(w.fastqListing) && !asSingle
    ensures !w.sraExists ==> commands == []
    ensures w.sraExists ==>
      var fastqPath := Paths.PathJoin(dirPath, "fastq");
      commands == ConvertCommands(Paths.PathJoin(dirPath, "sra"), fastqPath, w, w.sraListing) +
        (if LooksPaired(w.fastqListing) && asSingle then [RemoveReverseCommand(fastqPath)] else [])
  {
    var sraRoot := Paths.PathJoin(dirPath, "sra");
    var fastqPath := Paths.PathJoin(dirPath, "fastq");
    if !w.sraExists {
      return Utilities.ReadsData(dirPath, true, false), [];
    }
    commands := ConvertAll(sraRoot, fastqPath, w);
    var fastqs := FirstReads(w.fastqListing);
    if fastqs == [] {
      assert !LooksPaired(w.fastqListing);
      return Utilities.ReadsData(dirPath, true, false), commands;
    }
    if SomePrefixTwice(Prefixes(fastqs)) {
      if asSingle {
        commands := commands + [RemoveReverseCommand(fastqPath)];
        return Utilities.ReadsData(dirPath, true, false), commands;
      }
      return Utilities.ReadsData(dirPath, true, true), commands;
    }
    rd := Utilities.ReadsData(dirPath, true, false);
  }

  /** The prefix of `s_<rest>` is `s`. */
  lemma PrefixOf(s: string, rest: string)
    requires '_' !in s
    ensures Prefix(s + "_" + rest) == s
  {
    assert s + "_" + rest == s + ['_'] + rest;
    SplitAt(s, '_', rest);
  }

  lemma PairTwice(ps: seq<string>)
    requires |ps| == 2 && ps[0] == ps[1]
    ensures SomePrefixTwice(ps)
  {
    assert ps == [ps[0], ps[0]];
    assert multiset(ps)[ps[0]] == 2;
  }

  lemma MatePrefixes(s: string)
    requires '_' !in s
    ensures Prefix(s + Pathways.MateOneFastq) == s && Prefix(s + Pathways.MateTwoFastq) == s
  {
    MateTokensSplit();
    UnderscoreJoin(s, "1.fastq", Pathways.MateOneFastq);
    UnderscoreJoin(s, "2.fastq", Pathways.MateTwoFastq);
    PrefixOf(s, "1.fastq");
    PrefixOf(s, "2.fastq");
  }

  lemma MateTokensSplit()
    ensures Pathways.MateOneFastq == "_" + "1.fastq" && Pathways.MateTwoFastq == "_" + "2.fastq"
  {
  }

  lemma UnderscoreJoin(s: string, rest: string, token: string)
    requires token == "_" + rest
    ensures s + token == s + "_" + rest
  {
  }

  /** The two mates `s_1.fastq` and `s_2.fastq` of one sample are read as paired-end data. */
  lemma MatesLookPaired(s: string)
    requires '_' !in s
    ensures LooksPaired([s + Pathways.MateOneFastq, s + Pathways.MateTwoFastq])
  {
    var listing := [s + Pathways.MateOneFastq, s + Pathways.MateTwoFastq];
    Pathways.PairFilesSorted(s, listing);
    assert FirstReads(listing) == listing;
    MatePrefixes(s);
    PairTwice(Prefixes(listing));
  }

  /** When the first three names have pairwise different prefixes, the reads are single-end. */
  lemma DistinctPrefixesSingle(listing: seq<string>)
    requires Distinct(Prefixes(FirstReads(listing)))
    ensures !LooksPaired(listing)
  {
    var ps := Prefixes(FirstReads(listing));
    forall i | 0 <= i < |ps| ensures multiset(ps)[ps[i]] != 2 {
      DistinctCount(ps, ps[i]);
    }
  }

  // ---------------------------------------------------------------------------
  // The manifest

  function FastqOnly(listing: seq<string>): (r: seq<string>)
    ensures forall f :: f in r <==> f in listing && EndsWith(f, ".fastq")
  {
    if listing == [] then []
    else
      var rest := FastqOnly(listing[1..]);
      assert forall f :: f in listing <==> f == listing[0] || f in listing[1..] by {
        assert listing == [listing[0]] + listing[1..];
      }
      if EndsWith(listing[0], ".fastq") then [listing[0]] + rest else rest
  }

  function SplitExtRoots(names: seq<string>): (r: seq<string>)
    ensures |r| == |names|
    ensures forall i :: 0 <= i < |names| ==> r[i] == Paths.SplitExtRoot(names[i])
  {
    seq(|names|, i requires 0 <= i < |names| => Paths.SplitExtRoot(names[i]))
  }

  /**
   * The sample names of the manifest: the `sra` entries without extension
   * when that folder exists and is not empty, otherwise the distinct
   * prefixes of the `.fastq` names; sorted either way.
   */
  function ManifestNames(w: RunWorld): (names: seq<string>)
    ensures Sorted(names)
    ensures w.sraExists && w.sraListing != [] ==>
      && multiset(names) == multiset(SplitExtRoots(w.sraListing))
      && forall n :: n in names <==> exists f :: f in w.sraListing && n == Paths.SplitExtRoot(f)
    ensures !(w.sraExists && w.sraListing != []) ==>
      && Distinct(names)
      && forall n :: n in names <==> exists f :: f in w.fastqListing && EndsWith(f, ".fastq") && n == Prefix(f)
  {
    if w.sraExists && w.sraListing != [] then
      var roots := SplitExtRoots(w.sraListing);
      RootsOfListing(w.sraListing);
      SortSameMembers(roots);
      Sort(roots)
    else
      var fq := FastqOnly(w.fastqListing);
      PrefixesOfSorted(fq);
      SortedSet(Prefixes(Sort(fq)))
  }

  /** The extension-free names are those of the listed entries. */
  lemma RootsOfListing(listing: seq<string>)
    ensures forall n :: n in SplitExtRoots(listing) <==> exists f :: f in listing && n == Paths.SplitExtRoot(f)
  {
    var roots := SplitExtRoots(listing);
    forall n ensures n in roots <==> exists f :: f in listing && n == Paths.SplitExtRoot(f) {
      if exists f :: f in listing && n == Paths.SplitExtRoot(f) {
        var f :| f in listing && n == Paths.SplitExtRoot(f);
        var i :| 0 <= i < |listing| && listing[i] == f;
        assert roots[i] == n;
      }
    }
  }

  /** Sorting the names first changes the order of their prefixes, not which prefixes occur. */
  lemma PrefixesOfSorted(fq: seq<string>)
    ensures forall n :: n in Prefixes(Sort(fq)) <==> exists f :: f in fq && n == Prefix(f)
  {
    var ps := Prefixes(Sort(fq));
    forall n ensures n in ps <==> exists f :: f in fq && n == Prefix(f) {
      if n in ps {
        var i :| 0 <= i < |ps| && ps[i] == n;
        assert Sort(fq)[i] in multiset(Sort(fq));
      }
      if exists f :: f in fq && n == Prefix(f) {
        var f :| f in fq && n == Prefix(f);
        assert f in multiset(Sort(fq));
        var i :| 0 <= i < |Sort(fq)| && Sort(fq)[i] == f;
        assert ps[i] == n;
      }
    }
  }

  /** The manifest header for single- or paired-end reads. */
  function Header(rev: bool): (h: seq<string>)
    ensures |h| == if rev then 3 else 2
  {
    if rev then ["SampleID", "forward-absolute-filepath", "reverse-absolute-filepath"]
    else ["SampleID", "absolute-filepath"]
  }

  /**
   * The read files sample `n` needs: both `n_1.fastq` and `n_2.fastq` for
   * paired-end reads, `n.fastq` or `n_1.fastq` for single-end reads.
   */
  predicate FilesPresent(fastqPath: string, rev: bool, w: RunWorld, n: string) {
    if rev then
      Paths.PathJoin(fastqPath, n + "_1.fastq") in w.existing && Paths.PathJoin(fastqPath, n + "_2.fastq") in w.existing
    else
      Paths.PathJoin(fastqPath, n + ".fastq") in w.existing || Paths.PathJoin(fastqPath, n + "_1.fastq") in w.existing
  }

  /**
   * The row for sample `n`, present exactly when its read files are: the
   * name, then the absolute path of `n.fastq` (or of `n_1.fastq` when
   * `n.fastq` is missing) for single-end reads, or of `n_1.fastq` and
   * `n_2.fastq` for paired-end reads.
   */
  function RowFor(fastqPath: string, rev: bool, w: RunWorld, n: string): (r: Option<seq<string>>)
    ensures r.Some? <==> FilesPresent(fastqPath, rev, w, n)
    ensures r.Some? ==> |r.value| == |Header(rev)| && r.value[0] == n
    ensures r.Some? && !rev ==>
      var plain := Paths.PathJoin(fastqPath, n + ".fastq");
      r.value[1] == Paths.Abspath(if plain in w.existing then plain else Paths.PathJoin(fastqPath, n + "_1.fastq"), w.cwd)
    ensures r.Some? && rev ==>
      && r.value[1] == Paths.Abspath(Paths.PathJoin(fastqPath, n + "_1.fastq"), w.cwd)
      && r.value[2] == Paths.Abspath(Paths.PathJoin(fastqPath, n + "_2.fastq"), w.cwd)
  {
    if !rev then
      var plain := Paths.PathJoin(fastqPath, n + ".fastq");
      var f := if plain in w.existing then plain else Paths.PathJoin(fastqPath, n + "_1.fastq");
      if f in w.existing then Some([n, Paths.Abspath(f, w.cwd)]) else None
    else
      var f1 := Paths.PathJoin(fastqPath, n + "_1.fastq");
      var f2 := Paths.PathJoin(fastqPath, n + "_2.fastq");
      if f1 in w.existing && f2 in w.existing then Some([n, Paths.Abspath(f1, w.cwd), Paths.Abspath(f2, w.cwd)])
      else None
  }

  function RowsFor(fastqPath: string, rev: bool, w: RunWorld, names: seq<string>): seq<seq<string>> {
    if names == [] then []
    else
      var n := |names| - 1;
      var r := RowFor(fastqPath, rev, w, names[n]);
      RowsFor(fastqPath, rev, w, names[..n]) + (if r.Some? then [r.value] else [])
  }

  /** Every row is as wide as the header, and names one of the samples. */
  lemma {:induction false} RowsShape(fastqPath: string, rev: bool, w: RunWorld, names: seq<string>)
    ensures forall r :: r in RowsFor(fastqPath, rev, w, names) ==> |r| == |Header(rev)| && r[0] in names
  {
    if names != [] {
      var n := |names| - 1;
      RowsShape(fastqPath, rev, w, names[..n]);
      assert forall x :: x in names[..n] ==> x in names;
    }
  }

  lemma RowsForLast(fastqPath: string, rev: bool, w: RunWorld, names: seq<string>)
    requires names != []
    ensures var k := |names| - 1;
      var r := RowFor(fastqPath, rev, w, names[k]);
      RowsFor(fastqPath, rev, w, names) == RowsFor(fastqPath, rev, w, names[..k]) + (if r.Some? then [r.value] else [])
  {
  }

  /** A sample gets a row exactly when its read files exist. */
  lemma {:induction false} RowIffFiles(fastqPath: string, rev: bool, w: RunWorld, names: seq<string>, n: string)
    requires n in names
    ensures (exists r :: r in RowsFor(fastqPath, rev, w, names) && |r| > 0 && r[0] == n) <==> FilesPresent(fastqPath, rev, w, n)
  {
    var k := |names| - 1;
    Pathways.InitOf(names, n);
    RowsForLast(fastqPath, rev, w, names);
    RowsShape(fastqPath, rev, w, names[..k]);
    var last := RowFor(fastqPath, rev, w, names[k]);
    if n in names[..k] {
      RowIffFiles(fastqPath, rev, w, names[..k], n);
    }
    if names[k] == n && last.Some? {
      assert last.value in RowsFor(fastqPath, rev, w, names);
    }
  }

  /**
   * `create_manifest`: writes `manifest.tsv` in the absolute run directory,
   * with the header for the reads' kind and one row per sample whose files
   * exist, in sample order.
   */
  method CreateManifest(rd: Utilities.ReadsData, w: RunWorld) returns (manifestPath: string, rows: seq<seq<string>>)
    ensures var base := Paths.Abspath(rd.dirPath, w.cwd);
      manifestPath == Paths.PathJoin(base, "manifest.tsv") &&
      rows == [Header(rd.rev)] + RowsFor(Paths.PathJoin(base, "fastq"), rd.rev, w, ManifestNames(w))
  {
    var base := Paths.Abspath(rd.dirPath, w.cwd);
    var fastqPath := Paths.PathJoin(base, "fastq");
    manifestPath := Paths.PathJoin(base, "manifest.tsv");
    var body := WriteRows(fastqPath, rd.rev, w, ManifestNames(w));
    rows := [Header(rd.rev)] + body;
  }

  /** The row loop of `create_manifest`, sample by sample. */
  method WriteRows(fastqPath: string, rev: bool, w: RunWorld, names: seq<string>) returns (body: seq<seq<string>>)
    ensures body == RowsFor(fastqPath, rev, w, names)
  {
    body := [];
    for i := 0 to |names|
      invariant body == RowsFor(fastqPath, rev, w, names[..i])
    {
      assert names[..i + 1][..i] == names[..i];
      var row := RowFor(fastqPath, rev, w, names[i]);
      if row.Some? {
        body := body + [row.value];
      }
    }
    assert names[..|names|] == names;
  }

  // ---------------------------------------------------------------------------
  // QIIME2 import and demultiplexing summary

  /** The artifact `qiime_import` writes. */
  function ImportArtifact(rd: Utilities.ReadsData): string {
    Paths.PathJoin(Paths.PathJoin(rd.dirPath, "qza"), ImportName(rd.Paired()))
  }

  const PairedDemux: string := "demux-paired-end.qza"
  const SingleDemux: string := "demux-single-end.qza"
  const PairedType: string := "SampleData[PairedEndSequencesWithQuality]"
  const SingleType: string := "SampleData[SequencesWithQuality]"
  const PairedFormat: string := "PairedEndFastqManifestPhred33V2"
  const SingleFormat: string := "SingleEndFastqManifestPhred33V2"

  function ImportName(paired: bool): string {
    if paired then PairedDemux else SingleDemux
  }

  function ImportType(paired: bool): string {
    if paired then PairedType else SingleType
  }

  function ImportFormat(paired: bool): string {
    if paired then PairedFormat else SingleFormat
  }

  /** The `qiime tools import` arguments. */
  function ImportArgs(rd: Utilities.ReadsData): (args: seq<string>)
    ensures |args| == 11 && args[..3] == ["qiime", "tools", "import"]
    ensures args[4] == ImportType(rd.Paired()) && args[8] == ImportFormat(rd.Paired()) && args[10] == ImportArtifact(rd)
  {
    ["qiime", "tools", "import",
     "--type", ImportType(rd.Paired()),
     "--input-path", Paths.PathJoin(rd.dirPath, "manifest.tsv"),
     "--input-format", ImportFormat(rd.Paired()),
     "--output-path", ImportArtifact(rd)]
  }

  /**
   * The type, the manifest format and the artifact name all agree: each is
   * the paired-end one exactly when both read directions are present.
   */
  lemma ImportConsistent(rd: Utilities.ReadsData)
    ensures ImportArgs(rd)[4] == PairedType <==> rd.Paired()
    ensures ImportArgs(rd)[8] == PairedFormat <==> rd.Paired()
    ensures Paths.Tail(ImportArtifact(rd)) == PairedDemux <==> rd.Paired()
  {
    ImportTypeAgrees(rd.Paired());
    ImportFormatAgrees(rd.Paired());
    ImportNameAgrees(rd);
  }

  lemma ImportTypeAgrees(paired: bool)
    ensures ImportType(paired) == PairedType <==> paired
  {
    assert |SingleType| != |PairedType|;
  }

  lemma ImportFormatAgrees(paired: bool)
    ensures ImportFormat(paired) == PairedFormat <==> paired
  {
    assert SingleFormat[0] != PairedFormat[0];
  }

  lemma ImportNameAgrees(rd: Utilities.ReadsData)
    ensures Paths.Tail(ImportArtifact(rd)) == PairedDemux <==> rd.Paired()
  {
    ImportNameHasNoSlash(rd.Paired());
    Paths.TailOfJoin(Paths.PathJoin(rd.dirPath, "qza"), ImportName(rd.Paired()));
    ImportNamesDiffer();
  }

  lemma ImportNameHasNoSlash(paired: bool)
    ensures '/' !in ImportName(paired)
  {
    var name := ImportName(paired);
    forall k | 0 <= k < |name| ensures name[k] != '/' {
    }
  }

  lemma ImportNamesDiffer()
    ensures ImportName(false) != ImportName(true)
  {
    assert SingleDemux[6] != PairedDemux[6];
  }

  /** The summary `qiime_demux` writes. */
  function VisPath(rd: Utilities.ReadsData, datasetId: string): string {
    Paths.PathJoin(Paths.PathJoin(rd.dirPath, "vis"), datasetId + ".qzv")
  }

  /** The `qiime demux summarize` arguments: the artifact in, the summary out. */
  function DemuxArgs(rd: Utilities.ReadsData, qza: string, datasetId: string): (args: seq<string>)
    ensures |args| == 7 && args[4] == qza && args[6] == VisPath(rd, datasetId)
  {
    ["qiime", "demux", "summarize", "--i-data", qza, "--o-visualization", VisPath(rd, datasetId)]
  }

  /** The summary is named after the dataset and lives in `vis`. */
  lemma VisNamedAfterDataset(rd: Utilities.ReadsData, datasetId: string)
    requires '/' !in datasetId
    ensures Paths.Tail(VisPath(rd, datasetId)) == datasetId + ".qzv"
  {
    assert '/' !in datasetId + ".qzv" by {
      assert forall c :: c in datasetId + ".qzv" ==> c in datasetId || c in ".qzv";
    }
    Paths.TailOfJoin(Paths.PathJoin(rd.dirPath, "vis"), datasetId + ".qzv");
  }

  // ---------------------------------------------------------------------------
  // MetaPhlAn profiling

  const TargetIndex: string := "mpa_vJun23_CHOCOPhlAnSGB_202307"

  /** The MetaPhlAn command line for one input (one file, or `p1,p2`). */
  const FastqInputFlags: string := " --input_type fastq --nproc "
  const MapOutFlag: string := " --bowtie2out "
  const IndexFlag: string := " --index "

  function MetaphlanCommand(input: string, threads: int, mapOut: string, profileOut: string): string {
    "metaphlan " + input + FastqInputFlags + IntToString(threads) +
      MapOutFlag + mapOut + " -o " + profileOut + IndexFlag + TargetIndex
  }

  /** The profile a paired sample's MetaPhlAn run writes: `<name>_profile.txt`, `<name>` being the first mate without `_1.fastq`. */
  function PairedProfile(qzaDir: string, f1: string): string {
    Paths.PathJoin(qzaDir, ReplaceAll(f1, Pathways.MateOneFastq, "") + Pathways.ProfileSuffix)
  }

  /** The profile a single-end run writes for file `f`, as written: the whole file name, extension included, before `_profile.txt`. */
  function SingleProfileAsWritten(qzaDir: string, f: string): string {
    Paths.PathJoin(qzaDir, f + Pathways.ProfileSuffix)
  }

  /** The profile a single-end run writes for file `f`, corrected: the file's stem before `_profile.txt`. */
  function SingleProfile(qzaDir: string, f: string): string {
    Paths.PathJoin(qzaDir, Paths.Stem(f) + Pathways.ProfileSuffix)
  }

  /** The paired run of a first mate, or nothing when its second mate is missing. */
  function PairedRun(fastqPath: string, qzaDir: string, threads: int, w: RunWorld, f1: string): Option<string> {
    var fname := ReplaceAll(f1, Pathways.MateOneFastq, "");
    var p1 := Paths.PathJoin(fastqPath, f1);
    var p2 := Paths.PathJoin(fastqPath, fname + Pathways.MateTwoFastq);
    if p2 !in w.existing then None
    else Some(MetaphlanCommand(p1 + "," + p2, threads, Paths.PathJoin(fastqPath, fname + ".bowtie2.bz2"), PairedProfile(qzaDir, f1)))
  }

  /** The single-end run of file `f`, as written: its profile keeps the extension. */
  function SingleRun(fastqPath: string, qzaDir: string, threads: int, f: string): string {
    MetaphlanCommand(Paths.PathJoin(fastqPath, f), threads, Paths.PathJoin(fastqPath, f + ".bowtie2.bz2"), SingleProfileAsWritten(qzaDir, f))
  }

  /** The single-end run of file `f`, corrected: its profile is named after the file's stem. */
  function SingleRunCorrected(fastqPath: string, qzaDir: string, threads: int, f: string): string {
    MetaphlanCommand(Paths.PathJoin(fastqPath, f), threads, Paths.PathJoin(fastqPath, f + ".bowtie2.bz2"), SingleProfile(qzaDir, f))
  }

  /** The first mates among the files: names containing `_1.fastq`. */
  function FirstMates(files: seq<string>): (r: seq<string>)
    ensures forall f :: f in r <==> f in files && Contains(f, Pathways.MateOneFastq)
  {
    if files == [] then []
    else
      var rest := FirstMates(files[1..]);
      assert forall f :: f in files <==> f == files[0] || f in files[1..] by {
        assert files == [files[0]] + files[1..];
      }
      if Contains(files[0], Pathways.MateOneFastq) then [files[0]] + rest else rest
  }

  function PairedRuns(fastqPath: string, qzaDir: string, threads: int, w: RunWorld, mates: seq<string>): seq<string> {
    if mates == [] then []
    else
      var n := |mates| - 1;
      var r := PairedRun(fastqPath, qzaDir, threads, w, mates[n]);
      PairedRuns(fastqPath, qzaDir, threads, w, mates[..n]) + (if r.Some? then [r.value] else [])
  }

  function SingleRuns(fastqPath: string, qzaDir: string, threads: int, files: seq<string>): (r: seq<string>)
    ensures |r| == |files|
  {
    if files == [] then []
    else
      var n := |files| - 1;
      SingleRuns(fastqPath, qzaDir, threads, files[..n]) + [SingleRun(fastqPath, qzaDir, threads, files[n])]
  }

  lemma SingleRunsSnoc(fastqPath: string, qzaDir: string, threads: int, files: seq<string>, i: nat)
    requires i < |files|
    ensures SingleRuns(fastqPath, qzaDir, threads, files[..i + 1]) ==
      SingleRuns(fastqPath, qzaDir, threads, files[..i]) + [SingleRun(fastqPath, qzaDir, threads, files[i])]
  {
    assert files[..i + 1][..i] == files[..i];
  }

  lemma SingleRunsLast(fastqPath: string, qzaDir: string, threads: int, files: seq<string>)
    requires files != []
    ensures SingleRuns(fastqPath, qzaDir, threads, files)[|files| - 1] ==
      SingleRun(fastqPath, qzaDir, threads, files[|files| - 1])
  {
  }

  lemma SingleRunsInit(fastqPath: string, qzaDir: string, threads: int, files: seq<string>, i: nat)
    requires i < |files| - 1
    ensures SingleRuns(fastqPath, qzaDir, threads, files)[i] ==
      SingleRuns(fastqPath, qzaDir, threads, files[..|files| - 1])[i]
  {
  }

  lemma SameFile(init: seq<string>, files: seq<string>, i: nat)
    requires i < |init| < |files| && init == files[..|init|]
    ensures init[i] == files[i]
  {
  }

  /** The `i`-th single-end run is the run of the `i`-th file. */
  lemma {:induction false} SingleRunsAt(fastqPath: string, qzaDir: string, threads: int, files: seq<string>, i: nat)
    requires i < |files|
    ensures SingleRuns(fastqPath, qzaDir, threads, files)[i] == SingleRun(fastqPath, qzaDir, threads, files[i])
    decreases |files|
  {
    var n := |files| - 1;
    if i == n {
      SingleRunsLast(fastqPath, qzaDir, threads, files);
    } else {
      var init := files[..n];
      SingleRunsInit(fastqPath, qzaDir, threads, files, i);
      SingleRunsAt(fastqPath, qzaDir, threads, init, i);
      SameFile(init, files, i);
    }
  }

  /**
   * `metaphlan_extraction`'s commands: for paired reads one run per first
   * mate whose second mate exists, otherwise one run per `.fastq` file;
   * files in sorted order.
   */
  function MetaphlanCommands(rd: Utilities.ReadsData, threads: int, w: RunWorld): seq<string> {
    var fastqPath := Paths.PathJoin(rd.dirPath, "fastq");
    var qzaDir := Paths.PathJoin(rd.dirPath, "qza");
    var files := Sort(FastqOnly(w.fastqListing));
    if rd.Paired() then PairedRuns(fastqPath, qzaDir, threads, w, FirstMates(files))
    else SingleRuns(fastqPath, qzaDir, threads, files)
  }

  /**
   * `metaphlan_extraction`: makes `export`, creates `<id>_final.txt` in it
   * and runs MetaPhlAn on every sample.
   */
  method MetaphlanExtraction(rd: Utilities.ReadsData, datasetId: string, threads: int, w: RunWorld)
    returns (exportDir: string, finalTable: string, commands: seq<string>)
    ensures exportDir == Paths.PathJoin(rd.dirPath, "export")
    ensures finalTable == Paths.PathJoin(exportDir, datasetId + "_final.txt")
    ensures commands == MetaphlanCommands(rd, threads, w)
  {
    var fastqPath := Paths.PathJoin(rd.dirPath, "fastq");
    var qzaDir := Paths.PathJoin(rd.dirPath, "qza");
    exportDir := Paths.PathJoin(rd.dirPath, "export");
    finalTable := Paths.PathJoin(exportDir, datasetId + "_final.txt");
    var files := Sort(FastqOnly(w.fastqListing));
    if rd.Paired() {
      commands := PairedProfiling(fastqPath, qzaDir, threads, w, FirstMates(files));
    } else {
      commands := SingleProfiling(fastqPath, qzaDir, threads, files);
    }
  }

  /** The paired loop: one run per first mate whose second mate exists. */
  method PairedProfiling(fastqPath: string, qzaDir: string, threads: int, w: RunWorld, mates: seq<string>)
    returns (commands: seq<string>)
    ensures commands == PairedRuns(fastqPath, qzaDir, threads, w, mates)
  {
    commands := [];
    for i := 0 to |mates|
      invariant commands == PairedRuns(fastqPath, qzaDir, threads, w, mates[..i])
    {
      assert mates[..i + 1][..i] == mates[..i];
      var f1 := mates[i];
      var fname := ReplaceAll(f1, Pathways.MateOneFastq, "");
      var p2 := Paths.PathJoin(fastqPath, fname + Pathways.MateTwoFastq);
      if p2 !in w.existing {
        continue;
      }
      var p1 := Paths.PathJoin(fastqPath, f1);
      var mapOut := Paths.PathJoin(fastqPath, fname + ".bowtie2.bz2");
      commands := commands + [MetaphlanCommand(p1 + "," + p2, threads, mapOut, PairedProfile(qzaDir, f1))];
    }
    assert mates[..|mates|] == mates;
  }

  /** The single-end loop: one run per FASTQ file. */
  method SingleProfiling(fastqPath: string, qzaDir: string, threads: int, files: seq<string>)
    returns (commands: seq<string>)
    ensures commands == SingleRuns(fastqPath, qzaDir, threads, files)
  {
    commands := [];
    for i := 0 to |files|
      invariant commands == SingleRuns(fastqPath, qzaDir, threads, files[..i])
    {
      SingleRunsSnoc(fastqPath, qzaDir, threads, files, i);
      commands := commands + [SingleRun(fastqPath, qzaDir, threads, files[i])];
    }
    assert files[..|files|] == files;
  }

  /** A name with no '_' and no '.' followed by `.fastq` is no mate and is its own sample. */
  lemma SingleSampleName(s: string)
    requires s != [] && '.' !in s && '_' !in s
    ensures Pathways.SampleName(s + ".fastq") == s && !Pathways.IsMate(s + ".fastq")
  {
    var f := s + ".fastq";
    assert '_' !in f by {
      assert forall c :: c in f ==> c in s || c in ".fastq";
    }
    NotContainsFirstChar(f, Pathways.MateOneFastq);
    NotContainsFirstChar(f, Pathways.MateOneFq);
    NotContainsFirstChar(f, Pathways.MateTwoFastq);
    NotContainsFirstChar(f, Pathways.MateTwoFq);
    assert f == s + "." + "fastq";
    Paths.StemSuffix(s, "fastq");
  }

  /**
   * As written, the single-end profile of `s.fastq` is
   * `s.fastq_profile.txt`, which is none of the profiles the HUMAnN step
   * looks for on behalf of sample `s`.
   */
  lemma SingleProfileMissedAsWritten(qzaDir: string, s: string)
    requires s != [] && '.' !in s && '_' !in s
    ensures var f := s + ".fastq";
      SingleProfileAsWritten(qzaDir, f) !in Pathways.Candidates(qzaDir, Pathways.SampleName(f), f)
  {
    var f := s + ".fastq";
    SingleSampleName(s);
    var c := Pathways.Candidates(qzaDir, s, f);
    var p := SingleProfileAsWritten(qzaDir, f);
    assert |p| == |qzaDir| + 1 + |s| + 18;
    assert |c[0]| == |qzaDir| + 1 + |s| + 12;
    assert |c[1]| == |qzaDir| + 1 + |s| + 14;
    assert |c[2]| == |qzaDir| + 1 + |s| + 12;
  }

  /** The profiles the single-end runs write for `files`, as written. */
  function AsWrittenProfiles(qzaDir: string, files: seq<string>): set<string> {
    set f | f in files :: SingleProfileAsWritten(qzaDir, f)
  }

  /**
   * As written, the HUMAnN step skips every single-end sample: when the
   * only profiles on disk are those the single-end MetaPhlAn runs wrote,
   * sample `s` with its one file `s.fastq` finds none of its candidates.
   */
  lemma SingleSampleSkippedAsWritten(base: string, threads: int, w: Pathways.HumannWorld, files: seq<string>, s: string)
    requires s != [] && '.' !in s && '_' !in s
    requires forall f :: f in files ==> EndsWith(f, ".fastq")
    requires forall p :: p in w.existing && EndsWith(p, Pathways.ProfileSuffix) ==>
      p in AsWrittenProfiles(Paths.PathJoin(base, "qza"), files)
    ensures Pathways.SampleReport(base, threads, w, s, [s + ".fastq"]) == Pathways.Report([], [s], [], [])
  {
    var qzaDir := Paths.PathJoin(base, "qza");
    var c := Pathways.Candidates(qzaDir, s, s + ".fastq");
    CandidatesAreProfiles(qzaDir, s, s + ".fastq");
    forall i | 0 <= i < 3 ensures c[i] !in w.existing {
      if c[i] in w.existing {
        var f :| f in files && c[i] == SingleProfileAsWritten(qzaDir, f);
        CandidatesNotAsWritten(qzaDir, s, f);
      }
    }
  }

  /** Every candidate ends in the profile suffix. */
  lemma CandidatesAreProfiles(qzaDir: string, sample: string, firstFile: string)
    ensures forall i :: 0 <= i < 3 ==> EndsWith(Pathways.Candidates(qzaDir, sample, firstFile)[i], Pathways.ProfileSuffix)
  {
    CandidateForms(qzaDir, sample, firstFile);
    ProfileEnds(qzaDir, sample);
    ProfileEnds(qzaDir, sample + "_1");
    ProfileEnds(qzaDir, Paths.Stem(firstFile));
  }

  /** The candidates as `<qza>/<x>_profile.txt`, the second with `x = sample_1`. */
  lemma CandidateForms(qzaDir: string, sample: string, firstFile: string)
    ensures var c := Pathways.Candidates(qzaDir, sample, firstFile);
      && c[0] == Paths.PathJoin(qzaDir, sample + Pathways.ProfileSuffix)
      && c[1] == Paths.PathJoin(qzaDir, (sample + "_1") + Pathways.ProfileSuffix)
      && c[2] == Paths.PathJoin(qzaDir, Paths.Stem(firstFile) + Pathways.ProfileSuffix)
  {
    MateOneSuffixSplit();
    assert sample + Pathways.MateOneProfileSuffix == (sample + "_1") + Pathways.ProfileSuffix;
  }

  /** No candidate of sample `s` is the as-written profile of a `.fastq` file. */
  lemma CandidatesNotAsWritten(qzaDir: string, s: string, f: string)
    requires s != [] && '.' !in s && EndsWith(f, ".fastq")
    ensures forall i :: 0 <= i < 3 ==> Pathways.Candidates(qzaDir, s, s + ".fastq")[i] != SingleProfileAsWritten(qzaDir, f)
  {
    CandidateForms(qzaDir, s, s + ".fastq");
    StemOfFastq(s);
    DotlessNotFastq(s, f);
    JoinCancel(qzaDir, s, f, Pathways.ProfileSuffix);
    JoinCancel(qzaDir, s + "_1", f, Pathways.ProfileSuffix);
  }

  lemma StemOfFastq(s: string)
    requires s != []
    ensures Paths.Stem(s + ".fastq") == s
  {
    Paths.StemSuffix(s, "fastq");
    assert s + "." + "fastq" == s + ".fastq";
  }

  /** A name without '.' is no `.fastq` file, and neither is that name followed by `_1`. */
  lemma DotlessNotFastq(s: string, f: string)
    requires '.' !in s && EndsWith(f, ".fastq")
    ensures s != f && s + "_1" != f
  {
    // `f` holds a '.', `s` none; and `s_1` ends in '1' where `f` ends in 'q'.
    assert f[|f| - 6] == '.' && f[|f| - 1] == 'q';
    assert |s| >= 6 ==> s[|s| - 6] != '.';
    assert (s + "_1")[|s| + 1] == '1';
  }

  lemma MateOneSuffixSplit()
    ensures Pathways.MateOneProfileSuffix == "_1" + Pathways.ProfileSuffix
  {
  }

  /** Each candidate ends in the profile suffix. */
  lemma ProfileEnds(d: string, x: string)
    ensures EndsWith(Paths.PathJoin(d, x + Pathways.ProfileSuffix), Pathways.ProfileSuffix)
  {
    var p := Paths.PathJoin(d, x + Pathways.ProfileSuffix);
    assert p[|p| - |Pathways.ProfileSuffix|..] == Pathways.ProfileSuffix;
  }

  /** Two names in one directory with one ending are equal only when what precedes the ending is. */
  lemma JoinCancel(d: string, x: string, y: string, t: string)
    ensures Paths.PathJoin(d, x + t) == Paths.PathJoin(d, y + t) ==> x == y
  {
    var p, q := Paths.PathJoin(d, x + t), Paths.PathJoin(d, y + t);
    assert p[|d| + 1..|d| + 1 + |x|] == x;
    assert q[|d| + 1..|d| + 1 + |y|] == y;
  }

  /** Corrected, the single-end profile of `s.fastq` is the first profile the HUMAnN step looks for. */
  lemma SingleProfileFound(qzaDir: string, s: string)
    requires s != [] && '.' !in s && '_' !in s
    ensures var f := s + ".fastq";
      SingleProfile(qzaDir, f) == Pathways.Candidates(qzaDir, Pathways.SampleName(f), f)[0]
  {
    SingleSampleName(s);
  }

  /**
   * Corrected, a single-end sample whose profile was written is not
   * skipped: HUMAnN runs on its one file with that profile unless the step
   * raises.
   */
  lemma SingleSampleProfiledCorrected(base: string, threads: int, w: Pathways.HumannWorld, s: string)
    requires s != [] && '.' !in s && '_' !in s
    requires SingleProfile(Paths.PathJoin(base, "qza"), s + ".fastq") in w.existing
    ensures var r := Pathways.SampleReport(base, threads, w, s, [s + ".fastq"]);
      && r.skipped == []
      && (s !in w.raises ==> r.steps == [Pathways.RunHumann(Paths.PathJoin(Paths.PathJoin(base, "fastq"), s + ".fastq"),
        Paths.PathJoin(base, "humann_results"), SingleProfile(Paths.PathJoin(base, "qza"), s + ".fastq"), threads)])
  {
    SingleProfileFound(Paths.PathJoin(base, "qza"), s);
    SingleSampleName(s);
  }

  /** A paired sample's profile is the first profile the HUMAnN step looks for. */
  lemma PairedProfileFound(qzaDir: string, s: string)
    requires '_' !in s
    ensures var f1 := s + Pathways.MateOneFastq;
      PairedProfile(qzaDir, f1) == Pathways.Candidates(qzaDir, Pathways.SampleName(f1), f1)[0]
  {
    Pathways.MatesShareName(s);
    ReplaceTrailing(s, Pathways.MateOneFastq, "");
    assert s + "" == s;
  }

  // ---------------------------------------------------------------------------
  // Reshaping the merged MetaPhlAn table

  /** `line.strip().split('\t')` with every '|' turned into ','. */
  function Cells(line: string): (cells: seq<string>)
    ensures |cells| == |Split(Strip(line), '\t')|
    ensures forall i :: 0 <= i < |cells| ==> cells[i] == ReplaceAll(Split(Strip(line), '\t')[i], "|", ",")
  {
    var parts := Split(Strip(line), '\t');
    seq(|parts|, i requires 0 <= i < |parts| => ReplaceAll(parts[i], "|", ","))
  }

  /** No cell keeps a '|', and each cell keeps its length. */
  lemma CellsHaveNoPipe(line: string)
    ensures forall i :: 0 <= i < |Cells(line)| ==> '|' !in Cells(line)[i]
    ensures forall i :: 0 <= i < |Cells(line)| ==> |Cells(line)[i]| == |Split(Strip(line), '\t')[i]|
  {
    var parts := Split(Strip(line), '\t');
    forall i | 0 <= i < |parts|
      ensures '|' !in Cells(line)[i] && |Cells(line)[i]| == |parts[i]|
    {
      ReplaceCharAt(parts[i], '|', ',');
      assert "|" == ['|'] && "," == [','];
      var c := Cells(line)[i];
      forall k | 0 <= k < |c| ensures c[k] != '|' {
      }
    }
  }

  /** The length of the shortest row. */
  function Width(rows: seq<seq<string>>): (n: nat)
    requires rows != []
    ensures forall i :: 0 <= i < |rows| ==> n <= |rows[i]|
    ensures exists i :: 0 <= i < |rows| && n == |rows[i]|
  {
    if |rows| == 1 then |rows[0]|
    else
      var m := Width(rows[1..]);
      assert forall i :: 1 <= i < |rows| ==> rows[i] == rows[1..][i - 1];
      if |rows[0]| <= m then |rows[0]|
      else
        var j :| 0 <= j < |rows[1..]| && m == |rows[1..][j]|;
        assert m == |rows[j + 1]|;
        m
  }

  /**
   * `list(map(list, zip(*rows)))`: row `j` of the result is column `j` of
   * the rows, for every column that all rows have; no rows give no result.
   */
  function Transpose(rows: seq<seq<string>>): (t: seq<seq<string>>)
    ensures rows == [] ==> t == []
    ensures rows != [] ==> |t| == Width(rows)
    ensures forall j :: 0 <= j < |t| ==> |t[j]| == |rows| && forall i :: 0 <= i < |rows| ==> t[j][i] == rows[i][j]
  {
    if rows == [] then []
    else seq(Width(rows), j requires 0 <= j < Width(rows) => seq(|rows|, i requires 0 <= i < |rows| => rows[i][j]))
  }

  /** Transposing a non-empty table of rows of one positive length twice gives it back. */
  lemma TransposeTwice(rows: seq<seq<string>>)
    requires rows != [] && |rows[0]| > 0
    requires forall i :: 0 <= i < |rows| ==> |rows[i]| == |rows[0]|
    ensures Transpose(Transpose(rows)) == rows
  {
    var t := Transpose(rows);
    assert |t| == |rows[0]|;
    var tt := Transpose(t);
    assert |tt| == |rows|;
    forall i | 0 <= i < |rows| ensures tt[i] == rows[i] {
      assert |tt[i]| == |t| == |rows[i]|;
      forall j | 0 <= j < |rows[i]| ensures tt[i][j] == rows[i][j] {
        assert tt[i][j] == t[j][i];
      }
    }
  }

  /**
   * `metaphlan_txt_csv`: nothing is written when `<id>_final.txt` is
   * missing or empty; otherwise the CSV holds the header line's cells
   * untransposed, then the transposed data lines.
   */
  function MetaphlanTable(lines: Option<seq<string>>): (r: Option<seq<seq<string>>>)
    ensures r.Some? <==> lines.Some? && lines.value != []
    ensures r.Some? ==> |r.value| >= 1 && r.value[0] == Cells(lines.value[0])
    ensures r.Some? ==> var data := DataRows(lines.value[1..]);
      r.value[1..] == Transpose(data)
  {
    if lines.None? || lines.value == [] then None
    else
      var data := DataRows(lines.value[1..]);
      var table := [Cells(lines.value[0])] + Transpose(data);
      assert table[1..] == Transpose(data);
      Some(table)
  }

  function DataRows(lines: seq<string>): (rows: seq<seq<string>>)
    ensures |rows| == |lines|
    ensures forall i :: 0 <= i < |lines| ==> rows[i] == Cells(lines[i])
  {
    seq(|lines|, i requires 0 <= i < |lines| => Cells(lines[i]))
  }

  /**
   * The CSV has one line per column that every data line has: its length
   * is one more than the shortest data line's number of cells.
   */
  lemma TableTruncatesToShortest(lines: seq<string>)
    requires |lines| >= 2
    ensures var r := MetaphlanTable(Some(lines)).value;
      var data := DataRows(lines[1..]);
      |r| == 1 + Width(data) &&
      (forall i :: 0 <= i < |data| ==> |r| - 1 <= |data[i]|) &&
      (exists i :: 0 <= i < |data| && |r| - 1 == |data[i]|)
  {
  }

  // ---------------------------------------------------------------------------
  // Copying cleaned reads back

  /** A file copy or move from `src` to `dst`. */
  datatype Transfer = Transfer(src: string, dst: string)

  /**
   * The name a cleaned output gets back in `fastq`: a `paired_1` or
   * `paired_2` output takes the part before `_kneaddata` with `_1.fastq` or
   * `_2.fastq`; an unpaired first mate keeps its name; anything else, and
   * anything whose suffix is not `.fastq` or `.fq`, is not copied.
   */
  function RestoredName(name: string): Option<string> {
    var suffix := Paths.Suffix(name);
    if suffix != ".fastq" && suffix != ".fq" then None
    else if Contains(name, "paired_1") then Some(BeforeFirst(name, "_kneaddata") + Pathways.MateOneFastq)
    else if Contains(name, "paired_2") then Some(BeforeFirst(name, "_kneaddata") + Pathways.MateTwoFastq)
    else if Contains(name, Pathways.MateOneFastq) && !Contains(name, "paired") then Some(name)
    else None
  }

  function Restores(fastqDir: string, cleanDir: string, listing: seq<string>): seq<Transfer> {
    if listing == [] then []
    else
      var n := |listing| - 1;
      var r := RestoredName(listing[n]);
      Restores(fastqDir, cleanDir, listing[..n]) +
        (if r.Some? then [Transfer(Paths.PathJoin(cleanDir, listing[n]), Paths.PathJoin(fastqDir, r.value))] else [])
  }

  /** The regular files of a listing, in listing order. */
  function RegularOnly(listing: seq<string>, regular: set<string>): (r: seq<string>)
    ensures forall f :: f in r <==> f in listing && f in regular
  {
    if listing == [] then []
    else
      var rest := RegularOnly(listing[1..], regular);
      assert forall f :: f in listing <==> f == listing[0] || f in listing[1..] by {
        assert listing == [listing[0]] + listing[1..];
      }
      if listing[0] in regular then [listing[0]] + rest else rest
  }

  function Backups(fastqDir: string, rawDir: string, names: seq<string>): (r: seq<Transfer>)
    ensures |r| == |names|
    ensures forall i :: 0 <= i < |names| ==> r[i] == Transfer(Paths.PathJoin(fastqDir, names[i]), Paths.PathJoin(rawDir, names[i]))
  {
    seq(|names|, i requires 0 <= i < |names| => Transfer(Paths.PathJoin(fastqDir, names[i]), Paths.PathJoin(rawDir, names[i])))
  }

  /** The files deleted from `fastq` when no backup is kept. */
  function Deletions(fastqDir: string, names: seq<string>): (r: seq<string>)
    ensures |r| == |names|
    ensures forall i :: 0 <= i < |names| ==> r[i] == Paths.PathJoin(fastqDir, names[i])
  {
    seq(|names|, i requires 0 <= i < |names| => Paths.PathJoin(fastqDir, names[i]))
  }

  method RestoreAll(fastqDir: string, cleanDir: string, listing: seq<string>) returns (copies: seq<Transfer>, count: nat)
    ensures copies == Restores(fastqDir, cleanDir, listing)
    ensures count == |copies|
  {
    copies := [];
    count := 0;
    for i := 0 to |listing|
      invariant copies == Restores(fastqDir, cleanDir, listing[..i])
      invariant count == |copies|
    {
      assert listing[..i + 1][..i] == listing[..i];
      var name := listing[i];
      var suffix := Paths.Suffix(name);
      if suffix != ".fastq" && suffix != ".fq" {
        continue;
      }
      if Contains(name, "paired_1") {
        copies := copies + [Transfer(Paths.PathJoin(cleanDir, name), Paths.PathJoin(fastqDir, BeforeFirst(name, "_kneaddata") + Pathways.MateOneFastq))];
        count := count + 1;
      } else if Contains(name, "paired_2") {
        copies := copies + [Transfer(Paths.PathJoin(cleanDir, name), Paths.PathJoin(fastqDir, BeforeFirst(name, "_kneaddata") + Pathways.MateTwoFastq))];
        count := count + 1;
      } else if Contains(name, Pathways.MateOneFastq) && !Contains(name, "paired") {
        copies := copies + [Transfer(Paths.PathJoin(cleanDir, name), Paths.PathJoin(fastqDir, name))];
        count := count + 1;
      }
    }
    assert listing[..|listing|] == listing;
  }

  /**
   * `run_cleaning_pipeline`: runs the dehosting pipeline with the given
   * thread count, whose exception escapes; when `fastq_clean` then holds
   * nothing the raw reads stay; otherwise the regular files of `fastq` are
   * moved to `fastq_raw` (or deleted without a backup) and the cleaned reads
   * are copied back under their restored names, counting each copy.
   */
  method RunCleaningPipeline(dirPath: string, threads: int, backup: bool, dw: Dehost.DehostWorld, cleanListing: seq<string>)
    returns (outcome: Outcome, dehostCommands: seq<string>, moved: seq<Transfer>, removed: seq<string>, copies: seq<Transfer>, count: nat)
    ensures var r := Dehost.ResolveHostDb(None, dw.envDb, dw.configDb);
      outcome.Completed? <==> dw.fastqPresent && r.Ok? && Dehost.ValidateHostDb(r.value, dw.dirs).Completed?
    ensures outcome.Fails? || cleanListing == [] ==> moved == [] && removed == [] && copies == []
    ensures outcome.Completed? && cleanListing != [] ==>
      var fastqDir := Paths.PathJoin(dirPath, "fastq");
      var regular := RegularOnly(dw.fastqListing, dw.regularFiles);
      && moved == (if backup then Backups(fastqDir, Paths.PathJoin(dirPath, "fastq_raw"), regular) else [])
      && removed == (if backup then [] else Deletions(fastqDir, regular))
      && copies == Restores(fastqDir, Paths.PathJoin(dirPath, "fastq_clean"), cleanListing)
    ensures count == |copies|
    ensures outcome.Completed? ==>
      dehostCommands == Dehost.DehostCommands(dirPath, Dehost.KneadOptions(threads, true, false, None, []), Dehost.HostDb(None, dw).value, dw)
    ensures outcome.Fails? ==> dehostCommands == []
    ensures !dw.fastqPresent ==>
      outcome == Fails(FileNotFoundError(Dehost.FastqMissingMessage(Paths.PathJoin(dirPath, "fastq"))))
    ensures dw.fastqPresent && Dehost.HostDb(None, dw).Raised? ==> outcome == Fails(Dehost.HostDb(None, dw).error)
  {
    var opts := Dehost.KneadOptions(threads, true, false, None, []);
    var made, result;
    made, dehostCommands, result := Dehost.RunDehostPipeline(dirPath, opts, None, dw);
    moved, removed, copies, count := [], [], [], 0;
    if result.Raised? {
      return Fails(result.error), dehostCommands, moved, removed, copies, count;
    }
    outcome := Completed;
    if cleanListing == [] {
      return;
    }
    var fastqDir := Paths.PathJoin(dirPath, "fastq");
    var regular := RegularOnly(dw.fastqListing, dw.regularFiles);
    if backup {
      moved := Backups(fastqDir, Paths.PathJoin(dirPath, "fastq_raw"), regular);
    } else {
      removed := Deletions(fastqDir, regular);
    }
    copies, count := RestoreAll(fastqDir, Paths.PathJoin(dirPath, "fastq_clean"), cleanListing);
  }

  /** An occurrence of `pat` in `s + t` lies in `t` when `s` lacks `pat`'s first character. */
  lemma ContainsIn(s: string, t: string, pat: string)
    requires pat != [] && pat[0] !in s
    ensures Contains(s + t, pat) <==> Contains(t, pat)
  {
    Pathways.ContainsAfterPrefix(s, t, pat);
  }

  /** A name `<base>.fastq` has suffix `.fastq`. */
  lemma FastqSuffix(base: string)
    requires base != []
    ensures Paths.Suffix(base + ".fastq") == ".fastq"
  {
    Paths.StemSuffix(base, "fastq");
    assert base + "." + "fastq" == base + ".fastq";
  }

  /** The cleaned output `s_kneaddata_paired_<d>.fastq` is named back `s_<d>.fastq`. */
  lemma RestoredMate(s: string, d: char, pat: string)
    requires s != [] && '_' !in s && (d == '1' || d == '2')
    requires pat == "paired_" + [d]
    ensures var name := s + "_kneaddata_paired_" + [d] + ".fastq";
      Paths.Suffix(name) == ".fastq" && Contains(name, pat) && BeforeFirst(name, "_kneaddata") == s
  {
    var key := "_kneaddata_";
    var name := s + "_kneaddata_paired_" + [d] + ".fastq";
    KneaddataPaired(s, d);
    ThreeParts(s, key, pat, ".fastq", name);
    FastqSuffix(s + key + pat);
    ContainsInside(s + key, pat, ".fastq");
    KneaddataKey(pat);
    BeforeFirstPrefix(s, key + pat + ".fastq", "_kneaddata");
  }

  lemma KneaddataPaired(s: string, d: char)
    ensures s + "_kneaddata_paired_" + [d] + ".fastq" == s + "_kneaddata_" + ("paired_" + [d]) + ".fastq"
  {
    assert "_kneaddata_paired_" == "_kneaddata_" + "paired_";
  }

  /** The regroupings of `s + key + pat + ext` the proof above needs. */
  lemma ThreeParts(s: string, key: string, pat: string, ext: string, name: string)
    requires name == s + key + pat + ext
    ensures name == (s + key + pat) + ext && name == (s + key) + pat + ext && name == s + (key + pat + ext)
  {
  }

  /** A name continuing with "_kneaddata_" starts with the key `remove_kneaddata` splits at. */
  lemma KneaddataKey(pat: string)
    ensures "_kneaddata" != [] && "_kneaddata"[0] == '_'
    ensures StartsWith("_kneaddata_" + pat + ".fastq", "_kneaddata")
  {
    assert ("_kneaddata_" + pat + ".fastq")[..10] == "_kneaddata";
  }

  /** "_kneaddata_paired_2.fastq" holds no '1'. */
  lemma NoOneInSecondOutput()
    ensures '1' !in "_kneaddata_paired_2.fastq"
  {
    var t := "_kneaddata_paired_2.fastq";
    forall k | 0 <= k < |t| ensures t[k] != '1' {
    }
  }

  /**
   * A pattern with `x` at index `k` and `y` right after it does not occur
   * in `s + t` when `s` has no `x` and `t` has no `y`: the `x` would have
   * to fall in `t`, and so would the `y` after it.
   */
  lemma MarkerPairAbsent(s: string, t: string, pat: string, k: nat)
    requires k + 1 < |pat| && pat[k] !in s && pat[k + 1] !in t
    ensures !Contains(s + t, pat)
  {
    var u := s + t;
    forall i: nat ensures !OccursAt(u, pat, i) {
      if i + |pat| <= |u| {
        if i + k < |s| {
          assert u[i..i + |pat|][k] == s[i + k];
        } else {
          assert u[i..i + |pat|][k + 1] == t[i + k + 1 - |s|];
        }
      }
    }
    NotContainsAnywhere(u, pat);
  }

  /** The second-mate output of a sample without '_' does not mention `paired_1`. */
  lemma SecondNotFirst(s: string)
    requires '_' !in s
    ensures !Contains(s + "_kneaddata_paired_2.fastq", "paired_1")
  {
    NoOneInSecondOutput();
    assert "paired_1"[6] == '_' && "paired_1"[7] == '1';
    MarkerPairAbsent(s, "_kneaddata_paired_2.fastq", "paired_1", 6);
  }

  lemma RestoredFirst(s: string)
    requires s != [] && '_' !in s
    ensures RestoredName(s + "_kneaddata_paired_1.fastq") == Some(s + Pathways.MateOneFastq)
  {
    RestoredMate(s, '1', "paired_1");
    assert s + "_kneaddata_paired_" + ['1'] + ".fastq" == s + "_kneaddata_paired_1.fastq";
  }

  lemma RestoredSecond(s: string)
    requires s != [] && '_' !in s
    ensures RestoredName(s + "_kneaddata_paired_2.fastq") == Some(s + Pathways.MateTwoFastq)
  {
    RestoredMate(s, '2', "paired_2");
    assert s + "_kneaddata_paired_" + ['2'] + ".fastq" == s + "_kneaddata_paired_2.fastq";
    SecondNotFirst(s);
  }

  /**
   * KneadData's paired outputs of sample `s` come back as `s_1.fastq` and
   * `s_2.fastq`, which the HUMAnN step groups into sample `s` again.
   */
  lemma RestoredPairRegroups(s: string)
    requires s != [] && '_' !in s
    ensures RestoredName(s + "_kneaddata_paired_1.fastq") == Some(s + Pathways.MateOneFastq)
    ensures RestoredName(s + "_kneaddata_paired_2.fastq") == Some(s + Pathways.MateTwoFastq)
    ensures Pathways.SampleName(s + Pathways.MateOneFastq) == s && Pathways.SampleName(s + Pathways.MateTwoFastq) == s
  {
    RestoredFirst(s);
    RestoredSecond(s);
    Pathways.MatesShareName(s);
  }

  // ---------------------------------------------------------------------------
  // The stages of `visualization`

  datatype Stage =
    | CheckConda | CheckInput | MakeDirs | Prefetch | SaveMetadata | Convert | Clean | UpdateMetadata | LoadMetadata
    | Manifest | Import | Demux | SaveReads | Profile | ProfileTable | Humann

  /** 16S and 18S data take the QIIME2 amplicon branch; anything else the shotgun branch. */
  predicate IsAmplicon(dataType: string) {
    dataType == "16S" || dataType == "18S"
  }

  /** The analysis after conversion: QIIME2 import for amplicon data, MetaPhlAn (and HUMAnN on request) otherwise. */
  function Analysis(dataType: string, pathways: string, savesReads: bool): seq<Stage> {
    if IsAmplicon(dataType) then [Manifest, Import, Demux] + (if savesReads then [SaveReads] else [])
    else [Profile, ProfileTable] + (if pathways == "yes" then [Humann] else [])
  }

  function Cleaning(clean: bool): seq<Stage> {
    if clean then [Clean] else []
  }

  /** The stages `visualization` runs, in order. */
  function VisualizationStages(dataType: string, pathways: string, clean: bool): seq<Stage> {
    [CheckConda, CheckInput, MakeDirs, Prefetch, SaveMetadata, Convert] + Cleaning(clean) + [UpdateMetadata]
      + Analysis(dataType, pathways, true)
  }

  /** The stages `visualization_continue_fastq` runs: conversion of what is there, then the same analysis. */
  function ContinueFastqStages(dataType: string, pathways: string, clean: bool): seq<Stage> {
    [CheckConda, Convert] + Cleaning(clean) + Analysis(dataType, pathways, false)
  }

  /** The stages `visualization_continue` runs: no conversion; the reads data come from the saved metadata. */
  function ContinueStages(dataType: string, pathways: string, clean: bool): seq<Stage> {
    [CheckConda] + Cleaning(clean) + [LoadMetadata] + Analysis(dataType, pathways, false)
  }

  /**
   * The branches exclude each other: the QIIME2 stages run exactly for
   * amplicon data, MetaPhlAn exactly otherwise, HUMAnN only on request in
   * the shotgun branch, cleaning only on request; conversion comes before
   * every analysis stage.
   */
  lemma StagesByDataType(dataType: string, pathways: string, clean: bool)
    ensures var st := VisualizationStages(dataType, pathways, clean);
      && (Manifest in st <==> IsAmplicon(dataType))
      && (Profile in st <==> !IsAmplicon(dataType))
      && (Humann in st <==> !IsAmplicon(dataType) && pathways == "yes")
      && (Clean in st <==> clean)
      && st[5] == Convert
      && (forall i :: 0 <= i < |st| && st[i] in {Clean, Manifest, Profile, Humann} ==> 5 < i)
  {
    var st := VisualizationStages(dataType, pathways, clean);
    var head := [CheckConda, CheckInput, MakeDirs, Prefetch, SaveMetadata, Convert];
    var tail := Cleaning(clean) + [UpdateMetadata] + Analysis(dataType, pathways, true);
    assert st == head + tail;
    AnalysisMembers(dataType, pathways, true);
    ConvertFirst(head, tail);
  }

  /** Which stages an analysis holds; it never converts, cleans or loads metadata. */
  lemma AnalysisMembers(dataType: string, pathways: string, savesReads: bool)
    ensures var an := Analysis(dataType, pathways, savesReads);
      && (Manifest in an <==> IsAmplicon(dataType))
      && (Profile in an <==> !IsAmplicon(dataType))
      && (Humann in an <==> !IsAmplicon(dataType) && pathways == "yes")
      && (SaveReads in an <==> IsAmplicon(dataType) && savesReads)
      && Clean !in an && Convert !in an && LoadMetadata !in an
  {
  }

  /** In the six fixed first stages, none is an analysis or cleaning stage. */
  lemma ConvertFirst(head: seq<Stage>, tail: seq<Stage>)
    requires head == [CheckConda, CheckInput, MakeDirs, Prefetch, SaveMetadata, Convert]
    ensures (head + tail)[5] == Convert
    ensures forall i :: 0 <= i < |head + tail| && (head + tail)[i] in {Clean, Manifest, Profile, Humann} ==> 5 < i
  {
    forall i | 0 <= i < 6 ensures (head + tail)[i] == head[i] {}
  }

  /**
   * Both ways of continuing end with the analysis of a fresh run minus the
   * saving of the reads data; only `visualization_continue_fastq` converts,
   * and `visualization_continue` cleans before it loads the saved metadata.
   */
  lemma ContinuesShareAnalysis(dataType: string, pathways: string, clean: bool)
    ensures var fq := ContinueFastqStages(dataType, pathways, clean);
      var co := ContinueStages(dataType, pathways, clean);
      var an := Analysis(dataType, pathways, false);
      && fq[|fq| - |an|..] == an && co[|co| - |an|..] == an
      && Convert in fq && Convert !in co
      && SaveReads !in fq && SaveReads !in co
      && (clean ==> co[1] == Clean && co[2] == LoadMetadata)
      && VisualizationStages(dataType, pathways, clean)[|VisualizationStages(dataType, pathways, clean)| - |an|..]
         == (if IsAmplicon(dataType) then [Import, Demux, SaveReads] else an)
  {
    ContinueFastqTail(dataType, pathways, clean);
    ContinueTail(dataType, pathways, clean);
    FreshRunTail(dataType, pathways, clean);
  }

  lemma ContinueFastqTail(dataType: string, pathways: string, clean: bool)
    ensures var fq := ContinueFastqStages(dataType, pathways, clean);
      var an := Analysis(dataType, pathways, false);
      && fq[|fq| - |an|..] == an && Convert in fq && SaveReads !in fq
  {
    var an := Analysis(dataType, pathways, false);
    var front := [CheckConda, Convert] + Cleaning(clean);
    AnalysisMembers(dataType, pathways, false);
    EndsWithAnalysis(front, an);
    assert Convert in front;
  }

  lemma ContinueTail(dataType: string, pathways: string, clean: bool)
    ensures var co := ContinueStages(dataType, pathways, clean);
      var an := Analysis(dataType, pathways, false);
      && co[|co| - |an|..] == an && Convert !in co && SaveReads !in co
      && (clean ==> co[1] == Clean && co[2] == LoadMetadata)
  {
    var an := Analysis(dataType, pathways, false);
    var front := [CheckConda] + Cleaning(clean) + [LoadMetadata];
    assert front == if clean then [CheckConda, Clean, LoadMetadata] else [CheckConda, LoadMetadata];
    AnalysisMembers(dataType, pathways, false);
    EndsWithAnalysis(front, an);
  }

  lemma EndsWithAnalysis(front: seq<Stage>, an: seq<Stage>)
    ensures (front + an)[|front + an| - |an|..] == an
  {
  }

  /** A fresh run ends with the continued runs' analysis, with the reads data saved on the amplicon branch. */
  lemma FreshRunTail(dataType: string, pathways: string, clean: bool)
    ensures var an := Analysis(dataType, pathways, false);
      var st := VisualizationStages(dataType, pathways, clean);
      st[|st| - |an|..] == (if IsAmplicon(dataType) then [Import, Demux, SaveReads] else an)
  {
    var an := Analysis(dataType, pathways, false);
    var st := VisualizationStages(dataType, pathways, clean);
    var full := Analysis(dataType, pathways, true);
    var front := [CheckConda, CheckInput, MakeDirs, Prefetch, SaveMetadata, Convert] + Cleaning(clean) + [UpdateMetadata];
    assert st == front + full;
    if IsAmplicon(dataType) {
      assert |full| == |an| + 1;
      assert st[|st| - |an|..] == full[1..];
    } else {
      assert full == an;
      assert st[|st| - |an|..] == an;
    }
  }

  // ---------------------------------------------------------------------------
  // Saved metadata

  /** The read directions `metadata.json` records, each possibly absent. */
  datatype Metadata = Metadata(fwd: Option<bool>, rev: Option<bool>)

  /** What `visualization` writes into `metadata.json` once the reads are converted. */
  function SavedMetadata(rd: Utilities.ReadsData): (m: Metadata)
    ensures m.fwd == Some(rd.fwd) && m.rev == Some(rd.rev)
  {
    Metadata(Some(rd.fwd), Some(rd.rev))
  }

  /**
   * `visualization_continue`'s reads data: the recorded directions, with
   * `fwd` defaulting to true and `rev` to false; the defaults for both when
   * the file is missing or unreadable.
   */
  function ContinueReadsData(continuePath: string, meta: Option<Metadata>): (rd: Utilities.ReadsData)
    ensures rd.dirPath == continuePath
    ensures meta.None? ==> rd == Utilities.DefaultReadsData(continuePath)
    ensures meta.Some? && meta.value.fwd.Some? ==> rd.fwd == meta.value.fwd.value
    ensures meta.Some? && meta.value.fwd.None? ==> rd.fwd
    ensures meta.Some? && meta.value.rev.Some? ==> rd.rev == meta.value.rev.value
    ensures meta.Some? && meta.value.rev.None? ==> !rd.rev
  {
    if meta.None? then Utilities.ReadsData(continuePath, true, false)
    else
      Utilities.ReadsData(continuePath,
        if meta.value.fwd.Some? then meta.value.fwd.value else true,
        if meta.value.rev.Some? then meta.value.rev.value else false)
  }

  /** Continuing in the run directory recovers the reads data the run saved. */
  lemma MetadataRoundTrip(rd: Utilities.ReadsData)
    ensures ContinueReadsData(rd.dirPath, Some(SavedMetadata(rd))) == rd
  {
  }
}
