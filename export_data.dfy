/**
 * The QIIME2 export stage (`export_data.py`): argument checks, the DADA2
 * and downstream command lines, the taxonomy artifact name, the CSV row
 * copying, the collection of tree leaf names into the module-level list
 * and the padding of the OTU table with tree leaves.
 */
module ExportData {
  import opened Wrappers
  import opened Strings
  import Paths
  import Utilities
  import Visualization

  // ---------------------------------------------------------------------------
  // Argument checks

  /** A Python value given as `trim` or `trunc`: an `int`, a `tuple` of ints, or anything else. */
  datatype Arg = IntArg(n: int) | TupleArg(items: seq<int>) | OtherArg

  const NotTuplesText: string := "Trim/Trunc must be tuples for paired reads."
  const NotPairsText: string := "Trim/Trunc must be tuples of length 2."
  const NotIntsText: string := "Trim/Trunc must be integers for single reads."

  /**
   * `trim_trunc_check` as written: for paired reads, both values must be
   * tuples of length 2; then, for every kind of reads, both must be ints.
   */
  function TrimTruncCheckAsWritten(rd: Utilities.ReadsData, trim: Arg, trunc: Arg): (r: Outcome)
    ensures !rd.Paired() ==> (r.Completed? <==> trim.IntArg? && trunc.IntArg?)
    ensures r.Fails? ==> r.error.TypeError? || r.error.ValueError?
  {
    if rd.Paired() && (!trim.TupleArg? || !trunc.TupleArg?) then
      Fails(TypeError(NotTuplesText))
    else if rd.Paired() && (|trim.items| != 2 || |trunc.items| != 2) then
      Fails(ValueError(NotPairsText))
    else if !trim.IntArg? || !trunc.IntArg? then
      Fails(TypeError(NotIntsText))
    else Completed
  }

  /**
   * As written, no argument passes the check for paired reads: a valid pair
   * of 2-tuples falls through to the integer check and raises `TypeError`.
   */
  lemma PairedAlwaysRejectedAsWritten(rd: Utilities.ReadsData, trim: Arg, trunc: Arg)
    requires rd.Paired()
    ensures TrimTruncCheckAsWritten(rd, trim, trunc).Fails?
    ensures trim.TupleArg? && trunc.TupleArg? && |trim.items| == 2 && |trunc.items| == 2 ==>
      TrimTruncCheckAsWritten(rd, trim, trunc).error.TypeError?
  {
  }

  /** `trim_trunc_check` as intended: the integer check applies to single reads only. */
  function TrimTruncCheck(rd: Utilities.ReadsData, trim: Arg, trunc: Arg): (r: Outcome)
    ensures r.Fails? ==> r.error.TypeError? || r.error.ValueError?
  {
    if rd.Paired() then
      if !trim.TupleArg? || !trunc.TupleArg? then Fails(TypeError(NotTuplesText))
      else if |trim.items| != 2 || |trunc.items| != 2 then Fails(ValueError(NotPairsText))
      else Completed
    else if !trim.IntArg? || !trunc.IntArg? then Fails(TypeError(NotIntsText))
    else Completed
  }

  /**
   * The corrected check accepts exactly 2-tuples for paired reads and ints
   * for single reads; a paired value of the wrong length is a `ValueError`,
   * any other rejection a `TypeError`.
   */
  lemma TrimTruncCheckAccepts(rd: Utilities.ReadsData, trim: Arg, trunc: Arg)
    ensures var r := TrimTruncCheck(rd, trim, trunc);
      && (r.Completed? <==>
            if rd.Paired() then trim.TupleArg? && trunc.TupleArg? && |trim.items| == 2 && |trunc.items| == 2
            else trim.IntArg? && trunc.IntArg?)
      && (r.Fails? && r.error.ValueError? <==>
            rd.Paired() && trim.TupleArg? && trunc.TupleArg? && (|trim.items| != 2 || |trunc.items| != 2))
  {
  }

  /** The corrected check agrees with the written one on single reads. */
  lemma TrimTruncCheckSingle(rd: Utilities.ReadsData, trim: Arg, trunc: Arg)
    requires !rd.Paired()
    ensures TrimTruncCheck(rd, trim, trunc) == TrimTruncCheckAsWritten(rd, trim, trunc)
  {
  }

  const ClassifierMissingText: string := "Classifier not found! Download it from: "

  /**
   * `classifier_exists`, given what `conda env list` prints (None when that
   * call raised): raises `FileNotFoundError`, pointing at the download URL
   * `download_classifier_url` builds from the detected QIIME2 environment,
   * exactly when the path is not an existing regular file.
   */
  function ClassifierExists(classifierPath: string, regularFiles: set<string>, condaOutput: Option<string>): (r: Outcome)
    ensures r.Completed? <==> classifierPath in regularFiles
    ensures r.Fails? ==> r.error == FileNotFoundError(ClassifierMissingText +
      Utilities.ClassifierUrlAsWritten(Utilities.Qiime2Version(condaOutput)) + "\n")
  {
    if classifierPath in regularFiles then Completed
    else Fails(FileNotFoundError(ClassifierMissingText + Utilities.ClassifierUrlAsWritten(Utilities.Qiime2Version(condaOutput)) + "\n"))
  }

  /**
   * When `conda env list` fails, a missing classifier is reported with a URL
   * for the release "unknown", which does not exist.
   */
  lemma ClassifierMissingUnknown(classifierPath: string, regularFiles: set<string>)
    requires classifierPath !in regularFiles
    ensures ClassifierExists(classifierPath, regularFiles, None) ==
      Fails(FileNotFoundError(ClassifierMissingText + Utilities.ClassifierUrlFor("unknown") + "\n"))
  {
    Utilities.UnknownVersionUrlAsWritten();
  }

  // ---------------------------------------------------------------------------
  // Command lines

  // The artifacts the commands write and read, in the `qza` and `exports` directories.
  const Dada2Table: string := "dada2_table.qza"
  const Dada2RepSeqs: string := "dada2_rep-seqs.qza"
  const Dada2Stats: string := "dada2_denoising-stats.qza"
  const ClusteredTable: string := "table-dn-99.qza"
  const ClusteredSeqs: string := "rep-seqs-dn-99.qza"
  const GreengenesTaxonomy: string := "gg-13-8-99-nb-classified.qza"
  const SilvaTaxonomy: string := "silva-132-99-nb-classifier.qza"
  const CleanTable: string := "clean_table.qza"
  const FilteredTable: string := "feature-frequency-filtered-table.qza"
  const FeatureTableBiom: string := "feature-table.biom"
  const AlignedRepSeqs: string := "aligned-rep-seqs.qza"
  const FastTree: string := "fasttree-tree.qza"
  const RootedTree: string := "fasttree-tree-rooted.qza"

  /** `os.path.join(dir_path, "qza", name)`. */
  function QzaPath(dirPath: string, name: string): string {
    Paths.PathJoin(Paths.PathJoin(dirPath, "qza"), name)
  }

  /** `os.path.join(dir_path, "exports", name)`. */
  function ExportsPath(dirPath: string, name: string): string {
    Paths.PathJoin(Paths.PathJoin(dirPath, "exports"), name)
  }

  /**
   * The trim or truncation arguments: for paired reads the forward and
   * reverse values are the fields before and after the first ',' of the
   * value (an `IndexError` when it has none); for single reads the value
   * is passed whole.
   */
  function RangeArgs(paired: bool, value: string, forwardFlag: string, reverseFlag: string, singleFlag: string): (r: Result<seq<string>>)
    ensures !paired ==> r == Ok([singleFlag, value])
    ensures paired ==> (r.Ok? <==> ',' in value)
    ensures r.Ok? && paired ==> (|r.value| == 4 && r.value[0] == forwardFlag && r.value[2] == reverseFlag &&
      ',' !in r.value[1] && ',' !in r.value[3])
    ensures r.Ok? && paired ==>
      var n := |r.value[1]| + 1 + |r.value[3]|;
      StartsWith(value, r.value[1] + "," + r.value[3]) && (|value| == n || value[n] == ',')
  {
    if !paired then Ok([singleFlag, value])
    else
      var fields := Split(value, ',');
      SplitPieces(value, ',');
      if |fields| < 2 then Raised(IndexError("list index out of range"))
      else
        FirstTwoFields(value);
        Ok([forwardFlag, fields[0], reverseFlag, fields[1]])
  }

  /**
   * The first two ','-fields of a value with a ',' are what it starts
   * with, the ',' between them included, up to its second ',' or its end.
   */
  lemma FirstTwoFields(value: string)
    requires ',' in value
    ensures var f := Split(value, ',');
      var n := |f[0]| + 1 + |f[1]|;
      StartsWith(value, f[0] + "," + f[1]) && (|value| == n || value[n] == ',')
  {
    var i := IndexOf(value, ',');
    var head, rest := value[..i], value[i + 1..];
    assert value == head + [','] + rest;
    SplitAt(head, ',', rest);
    FirstField(rest);
    FieldAfterComma(head, rest, Split(rest, ',')[0]);
  }

  /** The first ','-field of a string is what it starts with, up to its first ',' or its end. */
  lemma FirstField(rest: string)
    ensures var f := Split(rest, ',')[0];
      StartsWith(rest, f) && (|rest| == |f| || rest[|f|] == ',')
  {
    SplitHead(rest, ',');
  }

  lemma FieldAfterComma(head: string, rest: string, f: string)
    requires StartsWith(rest, f) && (|rest| == |f| || rest[|f|] == ',')
    ensures var v := head + [','] + rest;
      var n := |head| + 1 + |f|;
      StartsWith(v, head + "," + f) && (|v| == n || v[n] == ',')
  {
    var v := head + [','] + rest;
    assert v[..|head| + 1 + |f|] == head + "," + f;
  }

  function DenoiseCommand(paired: bool): string {
    if paired then "denoise-paired" else "denoise-single"
  }

  /** The `qiime dada2` command of `qiime_dada2`, or the `IndexError` its splitting raises. */
  function Dada2Args(rd: Utilities.ReadsData, inputPath: string, left: string, right: string, threads: int): (r: Result<seq<string>>)
    ensures r.Ok? <==> !rd.Paired() || (',' in left && ',' in right)
    ensures r.Raised? ==> r.error.IndexError?
  {
    var paired := rd.Paired();
    var trim := RangeArgs(paired, left, "--p-trim-left-f", "--p-trim-left-r", "--p-trim-left");
    var trunc := RangeArgs(paired, right, "--p-trunc-len-f", "--p-trunc-len-r", "--p-trunc-len");
    if trim.Raised? then Raised(trim.error)
    else if trunc.Raised? then Raised(trunc.error)
    else
      Ok(["qiime", "dada2", DenoiseCommand(paired), "--i-demultiplexed-seqs", inputPath]
        + trim.value + trunc.value
        + ["--o-table", QzaPath(rd.dirPath, Dada2Table),
           "--p-n-threads", IntToString(threads),
           "--p-chimera-method", "consensus",
           "--o-representative-sequences", QzaPath(rd.dirPath, Dada2RepSeqs),
           "--o-denoising-stats", QzaPath(rd.dirPath, Dada2Stats),
           "--verbose"])
  }

  /** `f,r` splits into its forward part `f` and reverse part `r`. */
  lemma RangeArgsPair(f: string, r: string, forwardFlag: string, reverseFlag: string, singleFlag: string)
    requires ',' !in f && ',' !in r
    ensures RangeArgs(true, f + "," + r, forwardFlag, reverseFlag, singleFlag) == Ok([forwardFlag, f, reverseFlag, r])
  {
    SplitAt(f, ',', r);
    assert f + "," + r == f + [','] + r;
  }

  /**
   * For paired reads `left = "lf,lr"` and `right = "rf,rr"` give forward and
   * reverse trim and truncation values to `denoise-paired`; for single reads
   * the values go whole to `denoise-single`.
   */
  lemma Dada2Ranges(rd: Utilities.ReadsData, inputPath: string, threads: int, lf: string, lr: string, rf: string, rr: string)
    requires ',' !in lf && ',' !in lr && ',' !in rf && ',' !in rr
    ensures rd.Paired() ==>
      var r := Dada2Args(rd, inputPath, lf + "," + lr, rf + "," + rr, threads);
      r.Ok? && |r.value| == 24 && r.value[2] == "denoise-paired" && r.value[4] == inputPath
      && r.value[5..13] == ["--p-trim-left-f", lf, "--p-trim-left-r", lr, "--p-trunc-len-f", rf, "--p-trunc-len-r", rr]
    ensures !rd.Paired() ==>
      var r := Dada2Args(rd, inputPath, lf, rf, threads);
      r.Ok? && |r.value| == 20 && r.value[2] == "denoise-single" && r.value[4] == inputPath
      && r.value[5..9] == ["--p-trim-left", lf, "--p-trunc-len", rf]
  {
    if rd.Paired() {
      RangeArgsPair(lf, lr, "--p-trim-left-f", "--p-trim-left-r", "--p-trim-left");
      RangeArgsPair(rf, rr, "--p-trunc-len-f", "--p-trunc-len-r", "--p-trunc-len");
    }
  }

  function ClusterArgs(dirPath: string): seq<string> {
    ["qiime", "vsearch", "cluster-features-de-novo",
     "--i-table", QzaPath(dirPath, Dada2Table),
     "--i-sequences", QzaPath(dirPath, Dada2RepSeqs),
     "--p-perc-identity", "0.99",
     "--o-clustered-table", QzaPath(dirPath, ClusteredTable),
     "--o-clustered-sequences", QzaPath(dirPath, ClusteredSeqs)]
  }

  /** The taxonomy artifact: the Greengenes name for 16S data, the SILVA name for anything else. */
  function TaxonomyArtifact(dataType: string): (name: string)
    ensures name == GreengenesTaxonomy <==> dataType == "16S"
    ensures dataType != "16S" ==> name == SilvaTaxonomy
  {
    if dataType == "16S" then GreengenesTaxonomy else SilvaTaxonomy
  }

  function AssignTaxonomyArgs(dirPath: string, dataType: string, classifierPath: string): seq<string> {
    ["qiime", "feature-classifier", "classify-sklearn",
     "--i-reads", QzaPath(dirPath, ClusteredSeqs),
     "--i-classifier", classifierPath,
     "--o-classification", QzaPath(dirPath, TaxonomyArtifact(dataType))]
  }

  function FilterTableArgs(dirPath: string, dataType: string): seq<string> {
    ["qiime", "taxa", "filter-table",
     "--i-table", QzaPath(dirPath, ClusteredTable),
     "--i-taxonomy", QzaPath(dirPath, TaxonomyArtifact(dataType)),
     "--p-exclude", "mitochondria,chloroplast",
     "--o-filtered-table", QzaPath(dirPath, CleanTable)]
  }

  function FilterFeaturesArgs(dirPath: string): seq<string> {
    ["qiime", "feature-table", "filter-features",
     "--i-table", QzaPath(dirPath, CleanTable),
     "--p-min-samples", "3",
     "--p-min-frequency", "10",
     "--o-filtered-table", QzaPath(dirPath, FilteredTable)]
  }

  /** `export_otu`: the table export, then the BIOM-to-TSV conversion. */
  function ExportOtuArgs(dirPath: string): seq<seq<string>> {
    [ExportTableArgs(dirPath), BiomConvertArgs(dirPath)]
  }

  function ExportTableArgs(dirPath: string): seq<string> {
    ["qiime", "tools", "export",
     "--input-path", QzaPath(dirPath, FilteredTable),
     "--output-path", Paths.PathJoin(dirPath, "exports")]
  }

  function BiomConvertArgs(dirPath: string): seq<string> {
    ["biom", "convert", "-i", ExportsPath(dirPath, FeatureTableBiom), "-o", ExportsPath(dirPath, "otu.tsv"), "--to-tsv"]
  }

  function ExportTaxonomyArgs(dirPath: string, dataType: string): seq<string> {
    ["qiime", "tools", "export",
     "--input-path", QzaPath(dirPath, TaxonomyArtifact(dataType)),
     "--output-path", ExportsPath(dirPath, "tax.tsv")]
  }

  /** `export_phylogeny`: alignment, tree building and midpoint rooting. */
  function PhylogenyArgs(dirPath: string): seq<seq<string>> {
    [AlignArgs(dirPath), FastTreeArgs(dirPath), MidpointRootArgs(dirPath)]
  }

  function AlignArgs(dirPath: string): seq<string> {
    ["qiime", "alignment", "mafft",
     "--i-sequences", QzaPath(dirPath, ClusteredSeqs),
     "--o-alignment", QzaPath(dirPath, AlignedRepSeqs)]
  }

  function FastTreeArgs(dirPath: string): seq<string> {
    ["qiime", "phylogeny", "fasttree",
     "--i-alignment", QzaPath(dirPath, AlignedRepSeqs),
     "--o-tree", ExportsPath(dirPath, FastTree), "--verbose"]
  }

  function MidpointRootArgs(dirPath: string): seq<string> {
    ["qiime", "phylogeny", "midpoint-root",
     "--i-tree", ExportsPath(dirPath, FastTree),
     "--o-rooted-tree", ExportsPath(dirPath, RootedTree)]
  }

  /** The taxonomy artifact the classifier writes is the one both the filter and the export read. */
  lemma TaxonomyNamedAlike(dirPath: string, dataType: string, classifierPath: string)
    ensures AssignTaxonomyArgs(dirPath, dataType, classifierPath)[8] == FilterTableArgs(dirPath, dataType)[6]
    ensures FilterTableArgs(dirPath, dataType)[6] == ExportTaxonomyArgs(dirPath, dataType)[4]
    ensures AssignTaxonomyArgs(dirPath, dataType, classifierPath)[7] == "--o-classification"
    ensures FilterTableArgs(dirPath, dataType)[5] == "--i-taxonomy"
    ensures ExportTaxonomyArgs(dirPath, dataType)[3] == "--input-path"
    ensures Paths.Tail(ExportTaxonomyArgs(dirPath, dataType)[4]) == TaxonomyArtifact(dataType)
  {
    Paths.TailOfJoin(Paths.PathJoin(dirPath, "qza"), TaxonomyArtifact(dataType));
  }

  /**
   * Each QIIME2 step reads the artifact an earlier step wrote: clustering
   * reads DADA2's table and representative sequences, classification and
   * alignment read the clustered sequences, the filters chain on the
   * clustered table, the OTU export reads the last filter's table and the
   * tree steps chain on each other's output.
   */
  lemma ArtifactsChain(rd: Utilities.ReadsData, inputPath: string, left: string, right: string, threads: int,
                       dataType: string, classifierPath: string)
    requires Dada2Args(rd, inputPath, left, right, threads).Ok?
    ensures var dada2 := Dada2Args(rd, inputPath, left, right, threads).value;
      var n := |dada2|;
      var dirPath := rd.dirPath;
      && n >= 16
      && dada2[n - 11] == "--o-table" && ClusterArgs(dirPath)[4] == dada2[n - 10]
      && dada2[n - 5] == "--o-representative-sequences" && ClusterArgs(dirPath)[6] == dada2[n - 4]
      && AssignTaxonomyArgs(dirPath, dataType, classifierPath)[4] == ClusterArgs(dirPath)[12]
      && FilterTableArgs(dirPath, dataType)[4] == ClusterArgs(dirPath)[10]
      && FilterFeaturesArgs(dirPath)[4] == FilterTableArgs(dirPath, dataType)[10]
      && ExportTableArgs(dirPath)[4] == FilterFeaturesArgs(dirPath)[10]
      && AlignArgs(dirPath)[4] == ClusterArgs(dirPath)[12]
      && FastTreeArgs(dirPath)[4] == AlignArgs(dirPath)[6]
      && MidpointRootArgs(dirPath)[4] == FastTreeArgs(dirPath)[6]
  {
    Dada2Outputs(rd, inputPath, left, right, threads);
    DownstreamChain(rd.dirPath, dataType, classifierPath);
  }

  /** DADA2's table and representative sequences are named by the flags before them, eleven and five from the end. */
  lemma Dada2Outputs(rd: Utilities.ReadsData, inputPath: string, left: string, right: string, threads: int)
    requires Dada2Args(rd, inputPath, left, right, threads).Ok?
    ensures var dada2 := Dada2Args(rd, inputPath, left, right, threads).value;
      var n := |dada2|;
      && n >= 16
      && dada2[n - 11] == "--o-table" && dada2[n - 10] == QzaPath(rd.dirPath, Dada2Table)
      && dada2[n - 5] == "--o-representative-sequences" && dada2[n - 4] == QzaPath(rd.dirPath, Dada2RepSeqs)
  {
    var paired := rd.Paired();
    var trim := RangeArgs(paired, left, "--p-trim-left-f", "--p-trim-left-r", "--p-trim-left");
    var trunc := RangeArgs(paired, right, "--p-trunc-len-f", "--p-trunc-len-r", "--p-trunc-len");
    var head: seq<string> := ["qiime", "dada2", DenoiseCommand(paired), "--i-demultiplexed-seqs", inputPath] + trim.value + trunc.value;
    var tail: seq<string> := ["--o-table", QzaPath(rd.dirPath, Dada2Table),
           "--p-n-threads", IntToString(threads),
           "--p-chimera-method", "consensus",
           "--o-representative-sequences", QzaPath(rd.dirPath, Dada2RepSeqs),
           "--o-denoising-stats", QzaPath(rd.dirPath, Dada2Stats),
           "--verbose"];
    var dada2 := Dada2Args(rd, inputPath, left, right, threads).value;
    assert dada2 == head + tail;
    var n := |dada2|;
    assert dada2[n - 11] == tail[0] && dada2[n - 10] == tail[1];
    assert dada2[n - 5] == tail[6] && dada2[n - 4] == tail[7];
  }

  /** The steps after DADA2 each read what the one before them wrote. */
  lemma DownstreamChain(dirPath: string, dataType: string, classifierPath: string)
    ensures ClusterArgs(dirPath)[4] == QzaPath(dirPath, Dada2Table)
    ensures ClusterArgs(dirPath)[6] == QzaPath(dirPath, Dada2RepSeqs)
    ensures AssignTaxonomyArgs(dirPath, dataType, classifierPath)[4] == ClusterArgs(dirPath)[12]
    ensures FilterTableArgs(dirPath, dataType)[4] == ClusterArgs(dirPath)[10]
    ensures FilterFeaturesArgs(dirPath)[4] == FilterTableArgs(dirPath, dataType)[10]
    ensures ExportTableArgs(dirPath)[4] == FilterFeaturesArgs(dirPath)[10]
    ensures AlignArgs(dirPath)[4] == ClusterArgs(dirPath)[12]
    ensures FastTreeArgs(dirPath)[4] == AlignArgs(dirPath)[6]
    ensures MidpointRootArgs(dirPath)[4] == FastTreeArgs(dirPath)[6]
  {
  }

  // ---------------------------------------------------------------------------
  // CSV conversion

  /** The two tables `convert_to_csv` writes. */
  datatype CsvTables = CsvTables(otu: seq<seq<string>>, taxonomy: seq<seq<string>>)

  /**
   * `convert_to_csv` over the rows of `otu.tsv` and `taxonomy.tsv`: the
   * OTU table loses its first row (the comment line of the BIOM export) and
   * the taxonomy table is copied whole; an empty OTU table raises
   * `StopIteration` before anything else is read.
   */
  function ConvertToCsv(otuTsv: seq<seq<string>>, taxTsv: seq<seq<string>>): (r: Result<CsvTables>)
    ensures r.Raised? <==> otuTsv == []
    ensures r.Raised? ==> r.error == StopIteration
    ensures r.Ok? ==> [otuTsv[0]] + r.value.otu == otuTsv && r.value.taxonomy == taxTsv
  {
    if otuTsv == [] then Raised(StopIteration)
    else
      assert otuTsv == [otuTsv[0]] + otuTsv[1..];
      Ok(CsvTables(otuTsv[1..], taxTsv))
  }

  /** `os.path.splitext(p)[0] + '.csv'` for the last component `name`. */
  function CsvPath(dir: string, name: string): string {
    Paths.PathJoin(dir, Paths.SplitExtRoot(name) + ".csv")
  }

  /** `otu.tsv` becomes `otu.csv`, and `taxonomy.tsv` becomes `taxonomy.csv`, in the same directory. */
  lemma CsvNames(dirPath: string)
    ensures CsvPath(Paths.PathJoin(dirPath, "exports"), "otu.tsv") == ExportsPath(dirPath, "otu.csv")
    ensures CsvPath(ExportsPath(dirPath, "tax.tsv"), "taxonomy.tsv") == Paths.PathJoin(ExportsPath(dirPath, "tax.tsv"), "taxonomy.csv")
  {
    TableBases();
    CsvOfTsv(Paths.PathJoin(dirPath, "exports"), "otu");
    CsvOfTsv(ExportsPath(dirPath, "tax.tsv"), "taxonomy");
  }

  /** The exported table names split into a dot-free base and ".tsv". */
  lemma TableBases()
    ensures "otu" != [] && "otu"[0] != '.' && '.' !in "otu"
    ensures "taxonomy" != [] && "taxonomy"[0] != '.' && '.' !in "taxonomy"
    ensures "otu" + ".tsv" == "otu.tsv" && "otu" + ".csv" == "otu.csv"
    ensures "taxonomy" + ".tsv" == "taxonomy.tsv" && "taxonomy" + ".csv" == "taxonomy.csv"
  {
    forall k | 0 <= k < 3 ensures "otu"[k] != '.' {}
    forall k | 0 <= k < 8 ensures "taxonomy"[k] != '.' {}
  }

  lemma CsvOfTsv(dir: string, base: string)
    requires base != [] && base[0] != '.' && '.' !in base
    ensures CsvPath(dir, base + ".tsv") == Paths.PathJoin(dir, base + ".csv")
  {
    TsvRoot(base);
  }

  lemma TsvRoot(base: string)
    requires base != [] && base[0] != '.' && '.' !in base
    ensures Paths.SplitExtRoot(base + ".tsv") == base
  {
    Paths.LastIndexOfAfter(base, '.', "tsv");
    assert base + ".tsv" == base + ['.'] + "tsv";
    assert (base + ".tsv")[..|base|] == base;
    assert !Paths.AllDots(base) by {
      assert base[0] != '.';
    }
  }

  // ---------------------------------------------------------------------------
  // Tree leaves and padding

  /** A clade of a phylogenetic tree; it is terminal when it has no sub-clades. */
  datatype Clade = Clade(name: string, clades: seq<Clade>)

  /** The names of a clade's terminal clades, left to right in depth-first order. */
  function Leaves(c: Clade): seq<string>
    decreases c, 1
  {
    if c.clades == [] then [c.name] else LeavesOf(c.clades)
  }

  function LeavesOf(cs: seq<Clade>): seq<string>
    decreases cs, 0
  {
    if cs == [] then [] else LeavesOf(cs[..|cs| - 1]) + Leaves(cs[|cs| - 1])
  }

  /** `x` names a terminal clade somewhere in `c`. */
  predicate HasLeaf(c: Clade, x: string)
    decreases c
  {
    if c.clades == [] then c.name == x
    else exists i :: 0 <= i < |c.clades| && HasLeaf(c.clades[i], x)
  }

  /** The collected names are exactly the names of terminal clades, and there is at least one. */
  lemma {:induction false} LeavesAreTerminals(c: Clade, x: string)
    ensures x in Leaves(c) <==> HasLeaf(c, x)
    ensures |Leaves(c)| >= 1
    decreases c, 1
  {
    if c.clades != [] {
      LeavesOfAreTerminals(c.clades, x);
      assert |c.clades| >= 1;
      LeavesAreTerminals(c.clades[|c.clades| - 1], x);
    }
  }

  lemma {:induction false} LeavesOfAreTerminals(cs: seq<Clade>, x: string)
    ensures x in LeavesOf(cs) <==> exists i :: 0 <= i < |cs| && HasLeaf(cs[i], x)
    decreases cs, 0
  {
    if cs != [] {
      var n := |cs| - 1;
      LeavesOfAreTerminals(cs[..n], x);
      LeavesAreTerminals(cs[n], x);
      if exists i :: 0 <= i < |cs| && HasLeaf(cs[i], x) {
        var i :| 0 <= i < |cs| && HasLeaf(cs[i], x);
        if i < n {
          assert cs[..n][i] == cs[i];
        }
      }
      if exists i :: 0 <= i < n && HasLeaf(cs[..n][i], x) {
        var i :| 0 <= i < n && HasLeaf(cs[..n][i], x);
        assert cs[i] == cs[..n][i];
      }
    }
  }

  /** The module-level `nodes_names` list, which `append_nodes_names` extends and nothing clears. */
  class NodeNames {
    var names: seq<string>

    constructor()
      ensures names == []
    {
      names := [];
    }

    /** `append_nodes_names`: appends the clade's leaf names after whatever the list already holds. */
    method AppendNodesNames(c: Clade)
      modifies this
      ensures names == old(names) + Leaves(c)
      decreases c
    {
      if c.clades == [] {
        names := names + [c.name];
      } else {
        ghost var before := names;
        for i := 0 to |c.clades|
          invariant names == before + LeavesOf(c.clades[..i])
        {
          assert c.clades[..i + 1][..i] == c.clades[..i];
          assert c.clades[i] < c;
          AppendNodesNames(c.clades[i]);
        }
        assert c.clades[..|c.clades|] == c.clades;
      }
    }
  }

  /** `[i for i in nodes_names if i not in asv_list]`, in list order. */
  function Missing(names: seq<string>, asvs: seq<string>): (r: seq<string>)
    ensures forall x :: x in r <==> x in names && x !in asvs
    ensures |r| <= |names|
  {
    if names == [] then []
    else
      var n := |names| - 1;
      var rest := Missing(names[..n], asvs);
      assert names == names[..n] + [names[n]];
      if names[n] !in asvs then rest + [names[n]] else rest
  }

  /** The padding row of a leaf: its name and one zero per sample column. */
  function PadRow(leaf: string, sampleColumns: nat): (row: seq<string>)
    ensures |row| == 1 + sampleColumns && row[0] == leaf
    ensures forall k :: 1 <= k < |row| ==> row[k] == "0"
  {
    [leaf] + seq(sampleColumns, _ => "0")
  }

  function PadRows(leaves: seq<string>, sampleColumns: nat): (rows: seq<seq<string>>)
    ensures |rows| == |leaves|
    ensures forall i :: 0 <= i < |leaves| ==> rows[i] == PadRow(leaves[i], sampleColumns)
  {
    seq(|leaves|, i requires 0 <= i < |leaves| => PadRow(leaves[i], sampleColumns))
  }

  /** `otu['#OTU ID'].tolist()`: the first cell of every data row ("" for an empty row). */
  function AsvColumn(rows: seq<seq<string>>): (asvs: seq<string>)
    ensures |asvs| == |rows|
    ensures forall i :: 0 <= i < |rows| && rows[i] != [] ==> asvs[i] == rows[i][0]
  {
    seq(|rows|, i requires 0 <= i < |rows| => if rows[i] == [] then "" else rows[i][0])
  }

  /** `len(otu.columns[1:])`: the header's columns after the ASV column. */
  function SampleColumns(header: seq<string>): nat {
    if header == [] then 0 else |header| - 1
  }

  /**
   * The table `export_otu_padding_for_tree` writes for the collected names
   * and the rows of `otu.csv`: those rows unchanged, then a zero row for
   * each name that is not an ASV, as wide as the header. An empty `otu.csv`
   * makes `read_csv` raise `EmptyDataError`.
   */
  function PaddedTable(names: seq<string>, otuCsv: seq<seq<string>>): (r: Result<seq<seq<string>>>)
    ensures r.Raised? <==> otuCsv == []
    ensures r.Raised? ==> r.error == EmptyDataError
    ensures r.Ok? ==> |r.value| >= |otuCsv| && r.value[..|otuCsv|] == otuCsv
  {
    if otuCsv == [] then Raised(EmptyDataError)
    else
      var padded := otuCsv + PadRows(Missing(names, AsvColumn(otuCsv[1..])), SampleColumns(otuCsv[0]));
      assert padded[..|otuCsv|] == otuCsv;
      Ok(padded)
  }

  /**
   * `export_otu_padding_for_tree`: reads `otu.csv` (raising on an empty
   * file before the tree is visited), collects the tree's leaves into the
   * shared list, then writes the OTU rows followed by a zero row for every
   * collected name that is not an ASV of the table.
   */
  method PadOtuForTree(nodes: NodeNames, tree: Clade, otuCsv: seq<seq<string>>)
    returns (padded: Result<seq<seq<string>>>)
    modifies nodes
    ensures otuCsv == [] ==> padded == Raised(EmptyDataError) && nodes.names == old(nodes.names)
    ensures otuCsv != [] ==> nodes.names == old(nodes.names) + Leaves(tree)
    ensures padded == PaddedTable(nodes.names, otuCsv)
  {
    if otuCsv == [] {
      return Raised(EmptyDataError);
    }
    var asvs := AsvColumn(otuCsv[1..]);
    var columns := SampleColumns(otuCsv[0]);
    nodes.AppendNodesNames(tree);
    var missing := Missing(nodes.names, asvs);
    var rows := otuCsv;
    for i := 0 to |missing|
      invariant rows == otuCsv + PadRows(missing[..i], columns)
    {
      rows := rows + [PadRow(missing[i], columns)];
    }
    assert missing[..|missing|] == missing;
    padded := Ok(rows);
  }

  /**
   * After padding, every collected leaf is an ASV of the table or heads
   * exactly one new row of zeros as wide as the header, and no ASV gets a
   * new row.
   */
  lemma PaddingCoversLeaves(names: seq<string>, otuCsv: seq<seq<string>>)
    requires otuCsv != []
    ensures var padded := PaddedTable(names, otuCsv).value;
      var asvs := AsvColumn(otuCsv[1..]);
      && (forall x :: x in names ==> x in asvs || PadRow(x, SampleColumns(otuCsv[0])) in padded[|otuCsv|..])
      && (forall i :: |otuCsv| <= i < |padded| ==> padded[i][0] !in asvs && padded[i][0] in names)
      && (forall i :: |otuCsv| <= i < |padded| && otuCsv[0] != [] ==> |padded[i]| == |otuCsv[0]|)
      && |padded| - |otuCsv| == |Missing(names, asvs)|
  {
    var asvs := AsvColumn(otuCsv[1..]);
    var columns := SampleColumns(otuCsv[0]);
    var missing := Missing(names, asvs);
    var padded := otuCsv + PadRows(missing, columns);
    assert PaddedTable(names, otuCsv).value == padded;
    assert padded[|otuCsv|..] == PadRows(missing, columns);
    forall x | x in names && x !in asvs
      ensures PadRow(x, columns) in padded[|otuCsv|..]
    {
      var j :| 0 <= j < |missing| && missing[j] == x;
      assert PadRows(missing, columns)[j] == PadRow(x, columns);
    }
    forall i | |otuCsv| <= i < |padded|
      ensures padded[i][0] !in asvs && padded[i][0] in names
    {
      assert padded[i] == PadRows(missing, columns)[i - |otuCsv|];
      assert missing[i - |otuCsv|] in missing;
    }
  }

  /**
   * The CSV conversion feeds the padding: from `otu.tsv` with a comment
   * line, a header and data rows, the ASVs are the first cells of the data
   * rows and the zero rows are as wide as the header; a table of one line
   * converts to an empty `otu.csv`, on which the padding raises.
   */
  lemma CsvFeedsPadding(names: seq<string>, otuTsv: seq<seq<string>>, taxTsv: seq<seq<string>>)
    requires otuTsv != []
    ensures ConvertToCsv(otuTsv, taxTsv).Ok?
    ensures var padded := PaddedTable(names, ConvertToCsv(otuTsv, taxTsv).value.otu);
      && (padded.Raised? <==> |otuTsv| == 1)
      && (|otuTsv| >= 2 ==>
        padded == Ok(otuTsv[1..] + PadRows(Missing(names, AsvColumn(otuTsv[2..])), SampleColumns(otuTsv[1]))))
  {
    var csv := ConvertToCsv(otuTsv, taxTsv).value.otu;
    assert csv == otuTsv[1..];
    if |otuTsv| >= 2 {
      assert csv[0] == otuTsv[1] && csv[1..] == otuTsv[2..];
    }
  }

  // ---------------------------------------------------------------------------
  // The export stages

  /** What `export` does, in order: an external command, or one of the steps done in Python. */
  datatype ExportStep = Command(args: seq<string>) | WriteTree | ConvertCsv | PadOtu

  /**
   * `export` after loading the saved reads data: the classifier must be a
   * regular file and the DADA2 arguments must split; then the stages run in
   * their fixed order.
   */
  function ExportSteps(rd: Utilities.ReadsData, dataType: string, trim: string, trunc: string,
                       classifierPath: string, threads: int, regularFiles: set<string>, condaOutput: Option<string>): (r: Result<seq<ExportStep>>)
    ensures r.Ok? <==> classifierPath in regularFiles && (!rd.Paired() || (',' in trim && ',' in trunc))
    ensures r.Raised? && classifierPath !in regularFiles ==> r.error.FileNotFoundError?
    ensures r.Raised? && classifierPath in regularFiles ==> r.error.IndexError?
  {
    var dirPath := rd.dirPath;
    var inputPath := QzaPath(dirPath, Visualization.ImportName(rd.Paired()));
    var check := ClassifierExists(classifierPath, regularFiles, condaOutput);
    if check.Fails? then Raised(check.error)
    else
      var dada2 := Dada2Args(rd, inputPath, trim, trunc, threads);
      if dada2.Raised? then Raised(dada2.error)
      else
        Ok(Stages(dirPath, dataType, classifierPath, dada2.value))
  }

  /** The stages after the checks, for the given DADA2 command line. */
  function Stages(dirPath: string, dataType: string, classifierPath: string, dada2: seq<string>): seq<ExportStep> {
    AnalysisStages(dirPath, dataType, classifierPath, dada2) + OutputStages(dirPath, dataType)
  }

  /** Denoising, clustering, classification and filtering, in the `qza` directory. */
  function AnalysisStages(dirPath: string, dataType: string, classifierPath: string, dada2: seq<string>): seq<ExportStep> {
    [Command(dada2), Command(ClusterArgs(dirPath)), Command(AssignTaxonomyArgs(dirPath, dataType, classifierPath)),
     Command(MkdirArgs(dirPath)),
     Command(FilterTableArgs(dirPath, dataType)), Command(FilterFeaturesArgs(dirPath))]
  }

  /** The exports, the phylogeny and the steps done in Python. */
  function OutputStages(dirPath: string, dataType: string): seq<ExportStep> {
    [Command(ExportTableArgs(dirPath)), Command(BiomConvertArgs(dirPath)),
     Command(ExportTaxonomyArgs(dirPath, dataType)),
     Command(AlignArgs(dirPath)), Command(FastTreeArgs(dirPath)), Command(MidpointRootArgs(dirPath)),
     WriteTree, ConvertCsv, PadOtu]
  }

  function MkdirArgs(dirPath: string): seq<string> {
    ["mkdir", "-p", Paths.PathJoin(dirPath, "exports")]
  }

  /**
   * After the checks, the stages run in order: the analysis stages on the
   * DADA2 command line, whose input is the demultiplexed artifact named
   * after the kind of reads, then the output stages.
   */
  lemma ExportOrder(rd: Utilities.ReadsData, dataType: string, trim: string, trunc: string,
                    classifierPath: string, threads: int, regularFiles: set<string>, condaOutput: Option<string>)
    requires ExportSteps(rd, dataType, trim, trunc, classifierPath, threads, regularFiles, condaOutput).Ok?
    ensures var st := ExportSteps(rd, dataType, trim, trunc, classifierPath, threads, regularFiles, condaOutput).value;
      var d := rd.dirPath;
      var dada2 := Dada2Args(rd, QzaPath(d, Visualization.ImportName(rd.Paired())), trim, trunc, threads);
      && dada2.Ok?
      && |st| == 15
      && st[..6] == AnalysisStages(d, dataType, classifierPath, dada2.value)
      && st[6..] == OutputStages(d, dataType)
      && st[0].Command? && st[0].args[1] == "dada2"
      && st[0].args[4] == QzaPath(d, Visualization.ImportName(rd.Paired()))
  {
    var d := rd.dirPath;
    var inputPath := QzaPath(d, Visualization.ImportName(rd.Paired()));
    var dada2 := Dada2Args(rd, inputPath, trim, trunc, threads);
    assert dada2.Ok?;
    Dada2Head(rd, inputPath, trim, trunc, threads);
    var st := Stages(d, dataType, classifierPath, dada2.value);
    assert ExportSteps(rd, dataType, trim, trunc, classifierPath, threads, regularFiles, condaOutput).value == st;
    StagesSplit(AnalysisStages(d, dataType, classifierPath, dada2.value), OutputStages(d, dataType));
    AnalysisOrder(d, dataType, classifierPath, dada2.value);
  }

  lemma StagesSplit(a: seq<ExportStep>, o: seq<ExportStep>)
    requires |a| == 6 && |o| == 9
    ensures |a + o| == 15 && (a + o)[..6] == a && (a + o)[6..] == o && (a + o)[0] == a[0]
  {
  }

  /** Denoising, clustering, classification, the `exports` directory and the two filters, in that order. */
  lemma AnalysisOrder(d: string, dataType: string, classifierPath: string, dada2: seq<string>)
    ensures var st := AnalysisStages(d, dataType, classifierPath, dada2);
      && |st| == 6
      && st[0] == Command(dada2)
      && st[1] == Command(ClusterArgs(d))
      && st[2] == Command(AssignTaxonomyArgs(d, dataType, classifierPath))
      && st[3] == Command(MkdirArgs(d))
      && st[4] == Command(FilterTableArgs(d, dataType)) && st[5] == Command(FilterFeaturesArgs(d))
  {
  }

  /** The OTU and taxonomy exports, the phylogeny, the tree, the CSV conversion and the padding, in that order. */
  lemma OutputOrder(d: string, dataType: string)
    ensures var st := OutputStages(d, dataType);
      && |st| == 9
      && st[0] == Command(ExportTableArgs(d)) && st[1] == Command(BiomConvertArgs(d))
      && st[2] == Command(ExportTaxonomyArgs(d, dataType))
      && st[3] == Command(AlignArgs(d)) && st[4] == Command(FastTreeArgs(d))
      && st[5] == Command(MidpointRootArgs(d))
      && st[6] == WriteTree && st[7] == ConvertCsv && st[8] == PadOtu
  {
  }

  /** The DADA2 command line starts `qiime dada2 <denoise> --i-demultiplexed-seqs <input>`. */
  lemma Dada2Head(rd: Utilities.ReadsData, inputPath: string, left: string, right: string, threads: int)
    requires Dada2Args(rd, inputPath, left, right, threads).Ok?
    ensures var args := Dada2Args(rd, inputPath, left, right, threads).value;
      |args| >= 5 && args[..5] == ["qiime", "dada2", DenoiseCommand(rd.Paired()), "--i-demultiplexed-seqs", inputPath]
  {
  }
}
