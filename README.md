# YaMAS pipeline core, modelled in Dafny

YaMAS ("Yet another Metagenomic Analysis Software") downloads sequencing
runs from the SRA, converts them to FASTQ and analyses them. Amplicon data
(16S/18S) go through QIIME2: manifest, import, demultiplexing, then DADA2,
clustering, taxonomy and export. Shotgun data go through MetaPhlAn and,
optionally, HUMAnN. Optionally, KneadData removes host reads first.

This project models the Python package's core logic:

- `utilities.py`: the `ReadsData` record, `run_cmd`, QIIME2 version detection and the classifier URL.
- `generate_dehost.py`: FASTQ detection, sample pairing, host-database resolution and validation, KneadData command building, output collection, and concatenation for HUMAnN.
- `generate_pathways.py`: sample grouping, the profile search, HUMAnN command building, and merge/cleanup.
- `create_visualization.py`:
  - run directory layout, SRA conversion and the paired/single decision
  - manifest rows, QIIME2 import/demux naming
  - MetaPhlAn commands and table reshaping
  - cleaned-read restoration
  - the stage order of the three entry points
- `export_data.py`:
  - argument checks and the DADA2 and downstream QIIME2 command lines
  - taxonomy artifact naming and CSV row copying
  - tree leaf collection into the module-level list, and padding of the OTU table

The external world is passed in as values and never touched:

- Directory listings are sequences of names. Existing paths are sets. File contents are functions from names to bytes.
- Environment variables and the config-file value are `Option<string>`. The output of `conda env list` is an `Option<string>`.
- Each external tool is a command line that is returned or appended to a trace, and is never run.
- A Python exception is a `Raised(...)` value of a `Result`, or `Fails(...)` of an `Outcome`.

Python semantics are written out for `str.replace`, `split`, `Path.stem`/`suffix`, `os.path.splitext`/`split`, sorting by code point, `dict` insertion order, `Counter`, and `zip(*rows)`. `strip`, `os.path.join` and `os.path.abspath` are simplified, as listed under "## Left out".

Modules, one file each:

- `Wrappers`: Option, Result, exceptions.
- `Strings`: str operations.
- `Sorting`: lexicographic order, sort, dedup.
- `Paths`: path operations.
- `Dicts`: an insertion-ordered dict.
- `Utilities`, `Dehost`, `Pathways`, `Visualization`, `ExportData`: one module per source file.

## Model

| member | source | states |
|---|---|---|
| Utilities.DefaultReadsData | yamas/utilities.py:5-9 | a new record has `fwd` true and `rev` false, so it is not paired |
| Utilities.RunCmd | yamas/utilities.py:11-17 | the shell receives the arguments joined by single spaces; a warning is added exactly when the status is nonzero; it never raises |
| Utilities.RunAllKeepsGoing | yamas/utilities.py:11-17 | a sequence of commands is traced in full whatever the statuses; the number of warnings equals the number of failing statuses |
| Utilities.FirstEnvSegment | yamas/utilities.py:28-31 | None iff no segment contains `qiime2` without a space; otherwise the first segment that does |
| Utilities.Qiime2Version | yamas/utilities.py:24-34 | the first qualifying `/`-segment, scanning lines in order; `qiime2-unknown` when none qualifies or the call fails |
| Utilities.UnknownVersionSplit | yamas/utilities.py:34-39 | the fallback name contains '-' and splits into `qiime2` and `unknown` |
| Utilities.ClassifierUrlAsWritten | yamas/utilities.py:36-40 | the URL uses the second '-'-separated field when there is a '-', otherwise release 2023.2 |
| Utilities.UnknownVersionUrlAsWritten | yamas/utilities.py:34-40 | as written, with no QIIME2 environment the URL names release `unknown` instead of the default release |
| Utilities.ClassifierUrl | yamas/utilities.py:36-40 | corrected: the fallback version yields the default 2023.2 URL |
| Utilities.ClassifierUrlFallback | yamas/utilities.py:24-40 | corrected: whenever no segment qualifies, the URL is the default-release URL |
| Utilities.ClassifierUrlOfRelease | yamas/utilities.py:39-40 | for `qiime2-<release>` the URL names that release |
| Utilities.CondaWarningForEnv | yamas/utilities.py:47-50 | the warning fires iff the last component of `CONDA_PREFIX` does not contain `qiime2` |
| Utilities.CondaWarningWhenUnset | yamas/utilities.py:47-48 | an unset `CONDA_PREFIX` always warns |
| Dehost.FastqExtensionRecognised | yamas/generate_dehost.py:14-16 | every name ending in one of the four FASTQ extensions is recognised |
| Dehost.FastqIgnoresCase | yamas/generate_dehost.py:15 | recognition is insensitive to ASCII case |
| Dehost.KeyByFold | yamas/generate_dehost.py:23-28 | the sample key removes `.gz` first, then each token in the listed order |
| Dehost.KeyAfterPrefix | yamas/generate_dehost.py:23-28 | a prefix without '.' or '_' survives key computation unchanged |
| Dehost.MatesShareKey | yamas/generate_dehost.py:23-28 | `s_R1.fastq.gz`/`s_R2.fastq.gz`, `s_1.fastq`/`s_2.fastq`, `s_1.fq`/`s_2.fq` and `s.fastq` all have key `s` |
| Dehost.ComputeKey | yamas/generate_dehost.py:23-28 | the loop over the tokens computes the sample key |
| Dehost.FastqFiles | yamas/generate_dehost.py:20 | sorted; holds exactly the regular FASTQ files of the listing, each as often as the listing holds it |
| Dehost.DetectPairs | yamas/generate_dehost.py:18-30 | keys are the distinct sample keys in first-seen order; each group holds exactly the files with its key, in sorted order |
| Dehost.GroupsPartition | yamas/generate_dehost.py:20-30 | every FASTQ file is in its own key's group and in no other |
| Dehost.WithKeySorted | yamas/generate_dehost.py:20-29 | groups keep the sorted order of the listing |
| Dehost.TwoMatesOneGroup | yamas/generate_dehost.py:20-30 | two mates alone form one group holding both |
| Dehost.GroupsNonEmpty | yamas/generate_dehost.py:29 | every key's group has at least one file |
| Dehost.ResolveHostDb | yamas/generate_dehost.py:41-50 | Ok iff the argument, `YAMAS_HOST_DB` or the config value is non-empty; otherwise `ValueError` with the fixed message |
| Dehost.HostDbPrecedence | yamas/generate_dehost.py:42 | precedence is argument, then environment, then config |
| Dehost.ValidateHostDb | yamas/generate_dehost.py:52-63 | completes iff the directory exists and holds a `*.bt2*` file; the two `FileNotFoundError` messages otherwise |
| Dehost.Bt2GlobsCovered | yamas/generate_dehost.py:59 | the `*.bt2` and `*.bt2l` globs are covered by `*.bt2*` |
| Dehost.HasIndex | yamas/generate_dehost.py:59-60 | true iff some directory entry is a Bowtie2 index file |
| Dehost.InputArgs | yamas/generate_dehost.py:125-130 | two or more files give `--input1`/`--input2` with the first two; one file gives `--unpaired` |
| Dehost.KneadArgs | yamas/generate_dehost.py:107-130 | the fixed head with threads, database and output directory; then the FastQC flags iff FastQC is requested, the TRF bypass iff requested, the Trimmomatic flag iff adapters are given (with `ILLUMINACLIP:<adapters>:2:30:10`); then the extra arguments unchanged; then the input arguments last |
| Dehost.KneadArgsInOrder | yamas/generate_dehost.py:113-124 | the option flags come in the source's order: the two FastQC flags first, then `--bypass-trf`, then the Trimmomatic flag followed by its `ILLUMINACLIP` option |
| Dehost.ExtraFilesIgnored | yamas/generate_dehost.py:126-128 | files beyond the first two do not change the command |
| Dehost.UnpairedIffSingle | yamas/generate_dehost.py:126-130 | the run is unpaired exactly when the group has one file |
| Dehost.KneadCommand | yamas/generate_dehost.py:132-133 | exactly the space-joined arguments followed by the redirect of both streams to `<output>/kneaddata.log`, and nothing else |
| Dehost.Matching | yamas/generate_dehost.py:138-140 | exactly the `*_kneaddata*<ext>` names of the output directory |
| Dehost.CopiesIn | yamas/generate_dehost.py:141 | each output is copied to the clean directory under its own name |
| Dehost.CollectOutputs | yamas/generate_dehost.py:138-145 | the copies, pattern by pattern in the listed order |
| Dehost.CollectedExtsAny | yamas/generate_dehost.py:138-145 | a copy is collected iff some pattern's matches produce it |
| Dehost.CollectedExtsMembers | yamas/generate_dehost.py:138-145 | a copy is collected iff its name matches one of the patterns |
| Dehost.DehostSample | yamas/generate_dehost.py:103-145 | one sample's output directory, command and collected copies |
| Dehost.HostDb | yamas/generate_dehost.py:93-94 | Ok iff the database resolves and then validates; its value is the resolved directory |
| Dehost.HostDbErrors | yamas/generate_dehost.py:41-63 | an unset database gives the fixed `ValueError`; a missing directory and a directory without index files give their `FileNotFoundError` messages |
| Dehost.RunDehostPipeline | yamas/generate_dehost.py:67-147 | both directories made first; a missing `fastq` raises, then a `HostDb` error is raised as is, and nothing runs; otherwise one command per sample and the sorted copies |
| Dehost.DehostAll | yamas/generate_dehost.py:99-145 | the sample loop: one output directory and command per sample key, in key order, and the collected copies |
| Dehost.GroupAlreadySorted | yamas/generate_dehost.py:125 | re-sorting a group changes nothing |
| Dehost.WriteGroup | yamas/generate_dehost.py:165-168 | the bytes of the files in the group, skipping the combined file |
| Dehost.CombineForHumann | yamas/generate_dehost.py:150-169 | returns `fastq_clean/combined.clean.fastq`; writes the concatenation in the order `.fastq`, `.fastq.gz`, `.fq`, `.fq.gz`, sorted within each |
| Dehost.CombinedNeverIncluded | yamas/generate_dehost.py:164-167 | the combined file is never part of its own input; exactly the FASTQ-suffixed files are |
| Dehost.EndingInCount | yamas/generate_dehost.py:165 | the glob keeps each matching name with its multiplicity |
| Dehost.CombineOrderIgnoresListingOrder | yamas/generate_dehost.py:165 | the concatenation order does not depend on the directory's listing order |
| Pathways.ReadFiles | yamas/generate_pathways.py:21 | sorted; exactly the `.fastq` and `.fq` names, each as often as the listing holds it |
| Pathways.NamesOf | yamas/generate_pathways.py:24-36 | the sample name of each file, in order |
| Pathways.MembersMembers | yamas/generate_pathways.py:24-36 | a sample's files all carry its name |
| Pathways.MembersEmpty | yamas/generate_pathways.py:24-36 | a sample has files iff some file has its name |
| Pathways.MembersSorted | yamas/generate_pathways.py:21-66 | the files of a sample are sorted, so `files.sort()` changes nothing |
| Pathways.MembersAfterSingle | yamas/generate_pathways.py:33-36 | a non-mate file replaces the list accumulated for its name |
| Pathways.GroupSamples | yamas/generate_pathways.py:21-36 | keys are the distinct sample names in first-seen order; the entries are mates appended or singles replacing |
| Pathways.SamplesNonEmpty | yamas/generate_pathways.py:24-36 | every sample has at least one file |
| Pathways.MatesShareName | yamas/generate_pathways.py:25-32 | `s_1.fastq`, `s_2.fastq`, `s_1.fq` and `s_2.fq` are mates of sample `s` |
| Pathways.CandidateNames | yamas/generate_pathways.py:46-50 | the three candidates lie directly in the `qza` directory and are named `<sample>_profile.txt`, `<sample>_1_profile.txt` and `<stem of the first file>_profile.txt`, in that order |
| Pathways.FirstExisting | yamas/generate_pathways.py:52-56 | None iff no candidate exists; otherwise the first existing candidate |
| Pathways.FindProfile | yamas/generate_pathways.py:52-56 | the search loop with `break` finds the first existing candidate |
| Pathways.HumannArgs | yamas/generate_pathways.py:105-113 | seven arguments beginning with `humann` and holding `--remove-temp-output`; reading back `--input`, `--output`, `--taxonomic-profile`, `--threads` and `--input-format` gives the input, output directory, profile, thread count and `fastq`; the flags occupy positions 1 to 5 in that order and `--remove-temp-output` is last |
| Pathways.HumannCommand | yamas/generate_pathways.py:100-115 | exactly the space-joined arguments followed by the redirect of both streams to `<input stem>_humann.log`, and nothing else |
| Pathways.HumannInputFirst | yamas/generate_pathways.py:105-107 | the command begins `humann --input <input> ` |
| Pathways.MergedLogName | yamas/generate_pathways.py:69-100 | a merged input logs to `<sample>_merged_humann.log` |
| Pathways.RenderAll | yamas/generate_pathways.py:72-118 | one shell line per step, in order |
| Pathways.HumannSample | yamas/generate_pathways.py:44-88 | one sample's steps, skip, failure and removal |
| Pathways.RunHumannPipeline | yamas/generate_pathways.py:7-88 | makes `humann_results`; the report over all samples; the trace renders its steps |
| Pathways.RenderSteps | yamas/generate_pathways.py:72-118 | the loop renders every step |
| Pathways.FirstFileIsLeast | yamas/generate_pathways.py:49-66 | the file used for the third candidate is the first after sorting |
| Pathways.SkippedExactly | yamas/generate_pathways.py:58-60 | a sample is skipped iff none of its candidates exists; the others still run |
| Pathways.ProfiledSamplesRun | yamas/generate_pathways.py:58-82 | every profiled sample whose run does not raise has its HUMAnN step |
| Pathways.MergedRemoved | yamas/generate_pathways.py:67-88 | a profiled two-file sample's merged file is removed |
| Pathways.CleanupIgnoresFailures | yamas/generate_pathways.py:83-88 | exceptions are caught: removal and skipping do not depend on which runs raise |
| Pathways.PairFilesSorted | yamas/generate_pathways.py:21 | `s_1.fastq` sorts before `s_2.fastq` |
| Pathways.PairGroup | yamas/generate_pathways.py:24-32 | the two mates form the single sample `s` |
| Pathways.PairedSampleMerged | yamas/generate_pathways.py:7-88 | the full report for a pair: merge in sorted order, run on the merged file, remove it |
| Pathways.FirstCandidateChosen | yamas/generate_pathways.py:46-56 | an existing `<sample>_profile.txt` is the profile used |
| Visualization.RunDir | yamas/create_visualization.py:32-36 | with a non-empty location, the name joined under the location made absolute; otherwise the name made absolute |
| Visualization.RunDirAbsoluteNamed | yamas/create_visualization.py:32-36 | under an absolute working directory, the run directory is absolute and its last component is the requested name |
| Visualization.CreateDir | yamas/create_visualization.py:32-44 | makes the run directory, then its six subdirectories in order |
| Visualization.SubdirsNamed | yamas/create_visualization.py:41-42 | each subdirectory path ends in its own name |
| Visualization.SubdirsDistinct | yamas/create_visualization.py:41 | the six subdirectory names are distinct |
| Visualization.FirstReads | yamas/create_visualization.py:85 | the three least `.fastq`/`.fq` names of the listing, or all of them when there are fewer: sorted, drawn from the listing with no name repeated more often than there, and every read file left out sorts after every one kept |
| Visualization.Prefixes | yamas/create_visualization.py:89 | the part before the first '_' of each name |
| Visualization.ConvertAll | yamas/create_visualization.py:74-83 | one `fasterq-dump` per entry, using a directory's first file and skipping empty directories |
| Visualization.SraToFastq | yamas/create_visualization.py:62-101 | always forward; reverse iff `sra` exists, some prefix occurs twice and single reads were not requested; removal of `*_2.fastq` then |
| Visualization.MatesLookPaired | yamas/create_visualization.py:89-93 | a pair of mates is judged paired |
| Visualization.DistinctPrefixesSingle | yamas/create_visualization.py:89-93 | distinct prefixes are judged single |
| Visualization.FastqOnly | yamas/create_visualization.py:111 | exactly the `.fastq` names |
| Visualization.ManifestNames | yamas/create_visualization.py:108-112 | sorted; with a non-empty `sra` directory, the extension-less names of its entries, each as often as it occurs; otherwise the distinct parts before the first '_' of the `.fastq` names |
| Visualization.Header | yamas/create_visualization.py:116-123 | three columns for reverse reads, two otherwise |
| Visualization.RowFor | yamas/create_visualization.py:116-128 | a row exists iff `n.fastq` or `n_1.fastq` exists (single-end) or both `n_1.fastq` and `n_2.fastq` exist (paired-end); it has the header's width, starts with `n`, and holds the absolute path of `n.fastq` when present, else of `n_1.fastq`, or of both mates |
| Visualization.RowsShape | yamas/create_visualization.py:114-128 | every row has the header's width and names a listed sample |
| Visualization.RowIffFiles | yamas/create_visualization.py:116-128 | a listed sample gets a row iff the files its read kind needs exist |
| Visualization.CreateManifest | yamas/create_visualization.py:103-128 | `manifest.tsv` under the absolute run directory, holding the header then the rows |
| Visualization.ImportArgs | yamas/create_visualization.py:130-139 | eleven arguments; type, format and output follow the pairing |
| Visualization.ImportConsistent | yamas/create_visualization.py:131-139 | paired type, paired format and paired artifact name each hold iff the reads are paired |
| Visualization.DemuxArgs | yamas/create_visualization.py:143-146 | demux reads the import's output and writes the visualisation |
| Visualization.VisNamedAfterDataset | yamas/create_visualization.py:144 | the visualisation is `<dataset>.qzv` |
| Visualization.FirstMates | yamas/create_visualization.py:164 | exactly the names containing `_1.fastq` |
| Visualization.SingleRunsAt | yamas/create_visualization.py:181-192 | the `i`-th single-end command is the MetaPhlAn run of the `i`-th file, writing its profile as `<file name>_profile.txt` as written |
| Visualization.MetaphlanExtraction | yamas/create_visualization.py:148-192 | the export directory and final table; one run per first mate whose second mate exists, or per file |
| Visualization.SingleProfileMissedAsWritten | yamas/create_visualization.py:184 | as written, the single-end profile of `s.fastq` is none of the HUMAnN candidates for sample `s` |
| Visualization.SingleSampleSkippedAsWritten | yamas/create_visualization.py:181-192 | as written, when the only profiles are those the single-end runs wrote, HUMAnN skips the single-end sample `s` with file `s.fastq` and runs nothing for it |
| Visualization.SingleProfileFound | yamas/create_visualization.py:184 | corrected, it is the first HUMAnN candidate |
| Visualization.SingleSampleProfiledCorrected | yamas/create_visualization.py:184 | corrected, a single-end sample whose profile exists is not skipped, and HUMAnN runs on `s.fastq` with that profile unless the run raises |
| Visualization.PairedProfileFound | yamas/create_visualization.py:166-173 | a paired sample's profile is the first HUMAnN candidate |
| Visualization.Cells | yamas/create_visualization.py:213-216 | the cells of a stripped tab-split line, with '\|' replaced by ',' |
| Visualization.CellsHaveNoPipe | yamas/create_visualization.py:215-216 | no cell keeps a '\|'; cells keep their length |
| Visualization.Width | yamas/create_visualization.py:217 | the shortest row's length |
| Visualization.Transpose | yamas/create_visualization.py:217 | one row per column that every row has; row j is column j |
| Visualization.TransposeTwice | yamas/create_visualization.py:217 | for equal-length rows, transposing twice gives the rows back |
| Visualization.MetaphlanTable | yamas/create_visualization.py:199-221 | nothing when the file is missing or empty; otherwise the header cells followed by the transposed data |
| Visualization.TableTruncatesToShortest | yamas/create_visualization.py:217-221 | the CSV has one line per column of the shortest data line |
| Visualization.RegularOnly | yamas/create_visualization.py:238-245 | exactly the regular files of `fastq` |
| Visualization.Backups | yamas/create_visualization.py:238-241 | each file moves to `fastq_raw` under its own name |
| Visualization.Deletions | yamas/create_visualization.py:240-243 | without a backup, each regular file of `fastq` is deleted at its own path |
| Visualization.RestoreAll | yamas/create_visualization.py:247-259 | the copies in listing order; the count equals the number of copies |
| Visualization.RunCleaningPipeline | yamas/create_visualization.py:223-261 | dehosting runs the KneadData commands of the default options and the configured host database; a missing `fastq` directory or a host-database error escapes unchanged and runs nothing; nothing moves when `fastq_clean` is empty; otherwise move or delete, then copy back, counting the copies |
| Visualization.RestoredPairRegroups | yamas/create_visualization.py:250-255 | `s_kneaddata_paired_1/2.fastq` come back as `s_1.fastq`/`s_2.fastq`, which regroup as sample `s` |
| Visualization.StagesByDataType | yamas/create_visualization.py:265-313 | the amplicon and shotgun branches exclude each other; HUMAnN and cleaning only on request; conversion precedes analysis |
| Visualization.ContinuesShareAnalysis | yamas/create_visualization.py:315-359 | both continue entry points end with the fresh run's analysis; only one converts |
| Visualization.SavedMetadata | yamas/create_visualization.py:293-298 | the saved record holds both read directions |
| Visualization.ContinueReadsData | yamas/create_visualization.py:344-349 | the saved directions, defaulting to forward-only; defaults when the file is unreadable |
| Visualization.MetadataRoundTrip | yamas/create_visualization.py:293-347 | continuing recovers the saved reads data |
| ExportData.TrimTruncCheckAsWritten | yamas/export_data.py:29-36 | single reads pass iff both values are ints; failures are `TypeError` or `ValueError` |
| ExportData.PairedAlwaysRejectedAsWritten | yamas/export_data.py:30-36 | as written, paired reads never pass: valid 2-tuples hit the integer check |
| ExportData.TrimTruncCheck | yamas/export_data.py:29-36 | corrected: failures are `TypeError` or `ValueError` |
| ExportData.TrimTruncCheckAccepts | yamas/export_data.py:29-36 | corrected: accepts exactly 2-tuples for paired reads and ints for single reads; `ValueError` iff tuples of the wrong length |
| ExportData.TrimTruncCheckSingle | yamas/export_data.py:35-36 | the correction leaves single reads unchanged |
| ExportData.ClassifierExists | yamas/export_data.py:38-40 | `FileNotFoundError` iff the path is not an existing regular file; its message carries the URL computed, as written, from the detected QIIME2 version |
| ExportData.ClassifierMissingUnknown | yamas/export_data.py:38-40 | as written, with no `conda` output the message points at release `unknown` |
| ExportData.RangeArgs | yamas/export_data.py:45-48 | single reads pass the value whole; paired reads raise iff there is no ','; otherwise the forward and reverse values are the first two ','-separated fields of the value, without ',' |
| ExportData.Dada2Args | yamas/export_data.py:42-60 | the command exists iff the reads are single or both values contain ','; otherwise `IndexError` |
| ExportData.RangeArgsPair | yamas/export_data.py:45-48 | `f,r` gives forward `f` and reverse `r` |
| ExportData.Dada2Ranges | yamas/export_data.py:44-53 | `denoise-paired` with forward/reverse trim and truncation, or `denoise-single` with whole values |
| ExportData.TaxonomyArtifact | yamas/export_data.py:75-122 | the Greengenes name iff the data type is `16S`, the SILVA name otherwise |
| ExportData.TaxonomyNamedAlike | yamas/export_data.py:75-128 | classification, filtering and export use the same taxonomy artifact |
| ExportData.Dada2Outputs | yamas/export_data.py:50-60 | DADA2's table and representative sequences follow their output flags, eleven and five places from the end |
| ExportData.DownstreamChain | yamas/export_data.py:63-141 | clustering reads DADA2's outputs; each later step reads the artifact the step before it wrote |
| ExportData.ArtifactsChain | yamas/export_data.py:42-141 | each QIIME2 step reads the artifact an earlier step wrote |
| ExportData.ConvertToCsv | yamas/export_data.py:154-168 | raises `StopIteration` iff the OTU TSV is empty; otherwise the OTU CSV with the TSV's first row put back in front is the TSV, and the taxonomy CSV is its TSV |
| ExportData.CsvNames | yamas/export_data.py:155-164 | `otu.tsv` becomes `otu.csv` and `taxonomy.tsv` becomes `taxonomy.csv` |
| ExportData.LeavesAreTerminals | yamas/export_data.py:197-202 | the collected names are exactly the terminal clades' names, at least one |
| ExportData.NodeNames.constructor | yamas/export_data.py:12 | the module-level list starts empty |
| ExportData.NodeNames.AppendNodesNames | yamas/export_data.py:197-202 | appends the leaves in depth-first left-to-right order after what the list already holds |
| ExportData.Missing | yamas/export_data.py:183 | exactly the collected names that are not ASVs, in list order |
| ExportData.PadRow | yamas/export_data.py:194 | the leaf name followed by one zero per sample column |
| ExportData.PaddedTable | yamas/export_data.py:177-195 | `EmptyDataError` iff `otu.csv` is empty; otherwise the table begins with the CSV rows unchanged |
| ExportData.PadOtuForTree | yamas/export_data.py:170-195 | an empty CSV raises before the list changes; otherwise it extends the shared list with the tree's leaves; its result is the padded table of the extended list |
| ExportData.PaddingCoversLeaves | yamas/export_data.py:177-195 | every collected name is an ASV or gets a zero row; new rows name only collected non-ASVs, are as wide as the header, and number as many as the missing names |
| ExportData.CsvFeedsPadding | yamas/export_data.py:154-195 | from `otu.tsv`, the padding raises iff the TSV has one line; otherwise it keeps the TSV after its first line and takes the ASVs from the data rows and the width from the header |
| ExportData.ExportSteps | yamas/export_data.py:204-240 | runs iff the classifier is a regular file and the DADA2 values split; otherwise `FileNotFoundError` or `IndexError` |
| ExportData.ExportOrder | yamas/export_data.py:214-240 | fifteen steps: the six analysis stages on the DADA2 command line, then the nine output stages; DADA2 reads the demultiplexed artifact named after the read kind |
| ExportData.AnalysisOrder | yamas/export_data.py:217-229 | denoising, clustering, classification, the `exports` directory and the two filters, in that order |
| ExportData.OutputOrder | yamas/export_data.py:231-240 | the OTU and taxonomy exports, the three phylogeny commands, the tree, the CSV conversion and the padding, in that order |

## Left out

- `run_cmd`'s `os.system`, `subprocess.getoutput` and every external tool: commands are returned, never executed. Exit statuses are parameters of `Utilities.RunCmd`.
- Filesystem effects (`mkdir`, `shutil.move`/`copy2`, `os.remove`, `unlink`, globbing, reading bytes) are abstracted. Listings are parameters and effects are returned as paths or transfers. Whether a copy overwrites an existing file is not tracked.
- `download_data_from_sra` (create_visualization.py:46-60) is not modelled: it is a `prefetch` call followed by moves from the user's NCBI directory.
- `check_input` (create_visualization.py:23-30) only prints, so it appears only as a stage. `verbose_print`, `tqdm` and timestamps are left out. The run directory name's timestamp is an input.
- The JSON metadata and the pickle are left out except for the two recorded read directions (`Visualization.SavedMetadata`). `_load_db_from_config`'s file reading is not modelled; its result is a parameter.
- MetaPhlAn's `merge` (create_visualization.py:194-197), QIIME2/scikit-bio tree loading and pruning (export_data.py:143-152, 179), pandas `read_csv`, and the BIOM conversion are foreign code and are not modelled. The rows of `otu.csv` stand in for the data frame: the ASVs are the first cells of the rows after the header, and the sample columns are the header's cells after the first.
- `csv` quoting and escaping: rows are sequences of cells.
- Visualization.RunCleaningPipeline: the dehost step always uses the default KneadData options with the given thread count and no explicit host DB, as the source does. The listing of `fastq_clean` after dehosting is an input rather than derived from the copies.
- Visualization.MetaphlanExtraction: the final table is created empty and the merge is not modelled, so `Visualization.MetaphlanTable` takes that file's lines as input.
- Utilities.Qiime2Version: the `except Exception` path is modelled as the command output being absent.
- Strings.Lower: lowers the ASCII letters only, where Python's `str.lower` also lowers other scripts; the extension tests it serves compare ASCII suffixes (`.fastq`, `.fq`, `.gz`), so which files are recognised does not change.
- Pathways.SampleReport: the `temp_cat_file.exists()` guard (generate_pathways.py:87) is not modelled; the merged file is always reported as removed, whether or not it still exists when the cleanup runs.
- Dehost.ResolveHostDb: the `pathlib.Path` normalisation of the host database (generate_dehost.py:50) and of the base directory (generate_dehost.py:82, 155; generate_pathways.py:11) is not modelled: a trailing '/', a repeated '/' or a `.` component is kept as given, in the KneadData command, in the error messages and in the directory lookups. Likewise a FASTQ file named `_R1.fastq.gz` gives the empty sample key, whose output directory is `<out_root>/` here where pathlib gives `<out_root>` itself.
- Paths.Abspath: a relative path is joined under the working directory; `.` and `..` components and repeated '/' are not normalised.
- Paths.PathJoin: always inserts one '/'; `os.path.join`'s handling of an absolute second argument and of a first argument ending in '/' is not modelled.
- Strings.Strip: strips the ASCII characters Python counts as whitespace (including `\x1c`-`\x1f`); non-ASCII whitespace such as U+00A0 is kept.
- Missing directories: `os.listdir` raises when `fastq` (create_visualization.py:85, 111, 157) or `qza` (create_visualization.py:194) does not exist; the model takes the listing as given and treats a missing directory like an empty one.
- ExportData.RangeArgs: the trim and truncation values are strings only; an integer passed for paired reads, on which `.split` raises `AttributeError`, is not modelled.
- ExportData.PaddedTable: `read_csv` is modelled as reading rows as given; blank lines, quoting, a first column other than `#OTU ID` and NaN handling are not modelled.
- Visualization.MetaphlanExtraction: keeps the single-end profile name as written; the corrected run is `Visualization.SingleRunCorrected`, whose profile `Visualization.SingleProfile` is what the correction lemmas use.

## Findings

| source | as written | input that shows it | evidently intended | confidence | as-written member | corrected member |
|---|---|---|---|---|---|---|
| yamas/utilities.py:34-40 | the fallback `qiime2-unknown` contains '-', so the URL version becomes `unknown` | no QIIME2 environment in `conda env list` | fall back to release 2023.2 | high, not executed | Utilities.UnknownVersionUrlAsWritten, ExportData.ClassifierMissingUnknown | Utilities.ClassifierUrlFallback |
| yamas/export_data.py:30-36 | for paired reads, valid 2-tuples fall through to the integer check and raise `TypeError` | paired reads, trim (10, 10), trunc (200, 200) | the integer check applies to single reads only | high, not executed | ExportData.PairedAlwaysRejectedAsWritten | ExportData.TrimTruncCheckAccepts |
| yamas/create_visualization.py:184 | the single-end profile keeps the extension: `s.fastq_profile.txt`, so HUMAnN's profile search skips the sample | single-end file `s.fastq`, then HUMAnN requested | `s_profile.txt`, the first name HUMAnN's profile search tries | medium, not executed | Visualization.SingleSampleSkippedAsWritten | Visualization.SingleSampleProfiledCorrected |
