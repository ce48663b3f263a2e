/**
 * `yamas/utilities.py`: the `ReadsData` record, the shell runner `run_cmd`,
 * and the QIIME2 environment probes.
 */
module Utilities {
  import opened Wrappers
  import opened Strings
  import Paths

  /**
   * The frozen `ReadsData` record: the run directory and which read
   * directions it holds. A datatype value cannot be changed once built,
   * as the frozen dataclass cannot.
   */
  datatype ReadsData = ReadsData(dirPath: string, fwd: bool, rev: bool) {
    /** Both directions present: the data are paired-end. */
    predicate Paired() {
      fwd && rev
    }
  }

  /** `ReadsData(dir_path)` built with the declared defaults. */
  function DefaultReadsData(dirPath: string): (r: ReadsData)
    ensures r.dirPath == dirPath && r.fwd && !r.rev
    ensures !r.Paired()
  {
    ReadsData(dirPath, true, false)
  }

  /**
   * What `run_cmd` leaves behind: the command lines handed to the shell, in
   * order, and the warnings it printed.
   */
  datatype Shell = Shell(trace: seq<string>, warnings: seq<string>)

  const WarningOpen: string := "Warning: Command '"
  const WarningStatus: string := "' returned non-zero exit status "

  function WarningText(cmd: string, status: int): string {
    WarningOpen + cmd + WarningStatus + IntToString(status) + "."
  }

  /**
   * `run_cmd(command)` where the shell reports `status`: the arguments are
   * joined with single spaces and run; a nonzero status adds a warning and
   * nothing is raised.
   */
  function RunCmd(sh: Shell, command: seq<string>, status: int): (r: Shell)
    ensures r.trace == sh.trace + [Join(command, " ")]
    ensures status == 0 ==> r.warnings == sh.warnings
    ensures status != 0 ==> r.warnings == sh.warnings + [WarningText(Join(command, " "), status)]
  {
    var cmd := Join(command, " ");
    Shell(sh.trace + [cmd], if status != 0 then sh.warnings + [WarningText(cmd, status)] else sh.warnings)
  }

  /** Runs `commands` one after another, the i-th ending with `statuses[i]`. */
  function RunAll(sh: Shell, commands: seq<seq<string>>, statuses: seq<int>): Shell
    requires |statuses| == |commands|
    decreases |commands|
  {
    if commands == [] then sh
    else RunAll(RunCmd(sh, commands[0], statuses[0]), commands[1..], statuses[1..])
  }

  /** How many of the statuses are nonzero. */
  function FailureCount(statuses: seq<int>): nat {
    if statuses == [] then 0
    else (if statuses[0] != 0 then 1 else 0) + FailureCount(statuses[1..])
  }

  /**
   * A failing command never stops the run: every command reaches the shell
   * whatever the statuses are, and one warning is printed per nonzero status.
   */
  lemma {:induction false} RunAllKeepsGoing(sh: Shell, commands: seq<seq<string>>, statuses: seq<int>)
    requires |statuses| == |commands|
    decreases |commands|
    ensures RunAll(sh, commands, statuses).trace
      == sh.trace + seq(|commands|, i requires 0 <= i < |commands| => Join(commands[i], " "))
    ensures |RunAll(sh, commands, statuses).warnings| == |sh.warnings| + FailureCount(statuses)
  {
    if commands != [] {
      RunAllKeepsGoing(RunCmd(sh, commands[0], statuses[0]), commands[1..], statuses[1..]);
    }
  }

  /** Every `/`-separated piece of every line of `conda env list`, in order. */
  function Segments(lines: seq<string>): seq<string> {
    if lines == [] then [] else Split(lines[0], '/') + Segments(lines[1..])
  }

  /** A piece that names a QIIME2 environment. */
  predicate IsEnvSegment(seg: string) {
    Contains(seg, "qiime2") && ' ' !in seg
  }

  /** `segs[i]` is the first piece naming a QIIME2 environment. */
  predicate FirstEnvAt(segs: seq<string>, i: int) {
    && 0 <= i < |segs| && IsEnvSegment(segs[i])
    && forall j :: 0 <= j < i ==> !IsEnvSegment(segs[j])
  }

  const UnknownVersion: string := "qiime2-unknown"

  /** The first QIIME2 environment piece, if any. */
  function FirstEnvSegment(segs: seq<string>): (r: Option<string>)
    ensures r.None? <==> forall i :: 0 <= i < |segs| ==> !IsEnvSegment(segs[i])
    ensures r.Some? ==> exists i :: FirstEnvAt(segs, i) && segs[i] == r.value
  {
    if segs == [] then None
    else if IsEnvSegment(segs[0]) then Some(segs[0])
    else
      var r := FirstEnvSegment(segs[1..]);
      assert r.Some? ==> exists i :: FirstEnvAt(segs, i) && segs[i] == r.value by {
        if r.Some? {
          var i :| FirstEnvAt(segs[1..], i) && segs[1..][i] == r.value;
          assert segs[i + 1] == r.value;
          assert forall j :: 0 < j < i + 1 ==> segs[j] == segs[1..][j - 1];
          assert FirstEnvAt(segs, i + 1);
        }
      }
      r
  }

  /**
   * `qiime2_version()` given what `conda env list` printed (None when the
   * call raised): the first QIIME2 environment piece, scanning lines in
   * order, else the fallback name.
   */
  function Qiime2Version(condaOutput: Option<string>): (v: string)
    ensures condaOutput.None? ==> v == UnknownVersion
    ensures condaOutput.Some? ==>
      var segs := Segments(Split(condaOutput.value, '\n'));
      || (v == UnknownVersion && forall i :: 0 <= i < |segs| ==> !IsEnvSegment(segs[i]))
      || (exists i :: FirstEnvAt(segs, i) && segs[i] == v)
  {
    if condaOutput.None? then UnknownVersion
    else
      var segs := Segments(Split(condaOutput.value, '\n'));
      var first := FirstEnvSegment(segs);
      if first.None? then UnknownVersion
      else first.value
  }

  /** The fallback is itself a QIIME2 environment name. */
  lemma UnknownVersionIsEnv()
    ensures IsEnvSegment(UnknownVersion)
  {
    assert StartsWith(UnknownVersion, "qiime2");
  }

  /** The fallback name splits at its '-' into "qiime2" and "unknown". */
  lemma UnknownVersionSplit()
    ensures '-' in UnknownVersion
    ensures Split(UnknownVersion, '-') == ["qiime2", "unknown"]
  {
    assert UnknownVersion == "qiime2" + ['-'] + "unknown";
    assert '-' !in "qiime2";
    assert Split("unknown", '-') == ["unknown"] by {
      assert '-' !in "unknown";
    }
    SplitAt("qiime2", '-', "unknown");
  }

  const DataHost: string := "https://data.qiime2.org/"
  const ClassifierFile: string := "/common/gg-13-8-99-nb-classifier.qza"

  function ClassifierUrlFor(ver: string): string {
    DataHost + ver + ClassifierFile
  }

  const DefaultClassifierVersion: string := "2023.2"

  /**
   * `download_classifier_url()` as written, for the version string that
   * `qiime2_version()` returned: the field after the first '-', or the
   * default release when there is no '-'.
   */
  function ClassifierUrlAsWritten(version: string): (url: string)
    ensures '-' !in version ==> url == ClassifierUrlFor(DefaultClassifierVersion)
    ensures '-' in version ==> url == ClassifierUrlFor(Split(version, '-')[1])
  {
    var ver := if '-' in version then Split(version, '-')[1] else DefaultClassifierVersion;
    ClassifierUrlFor(ver)
  }

  /**
   * When no QIIME2 environment is found, the fallback name's '-' sends the
   * word "unknown" into the URL instead of the default release.
   */
  lemma UnknownVersionUrlAsWritten()
    ensures ClassifierUrlAsWritten(Qiime2Version(None)) == ClassifierUrlFor("unknown")
    ensures ClassifierUrlAsWritten(Qiime2Version(None)) != ClassifierUrlFor(DefaultClassifierVersion)
  {
    UnknownVersionSplit();
    assert ClassifierUrlFor("unknown")[24] != ClassifierUrlFor(DefaultClassifierVersion)[24];
  }

  /**
   * `download_classifier_url()` as intended: the default release whenever
   * the version is unknown or has no '-'.
   */
  function ClassifierUrl(version: string): (url: string)
    ensures version == UnknownVersion ==> url == ClassifierUrlFor(DefaultClassifierVersion)
  {
    if version == UnknownVersion || '-' !in version then ClassifierUrlFor(DefaultClassifierVersion)
    else ClassifierUrlFor(Split(version, '-')[1])
  }

  /** Whatever `conda env list` prints, the URL names a real release when no QIIME2 environment is listed. */
  lemma ClassifierUrlFallback(condaOutput: Option<string>)
    requires condaOutput.Some? ==>
      forall seg :: seg in Segments(Split(condaOutput.value, '\n')) ==> !IsEnvSegment(seg)
    ensures ClassifierUrl(Qiime2Version(condaOutput)) == ClassifierUrlFor(DefaultClassifierVersion)
  {
    if condaOutput.Some? {
      var segs := Segments(Split(condaOutput.value, '\n'));
      assert forall i :: 0 <= i < |segs| ==> !IsEnvSegment(segs[i]) by {
        forall i | 0 <= i < |segs| ensures !IsEnvSegment(segs[i]) {
          assert segs[i] in segs;
        }
      }
    }
  }

  /** An environment named `qiime2-<release>` gives the URL of that release. */
  lemma ClassifierUrlOfRelease(release: string)
    requires '-' !in release && release != "unknown"
    ensures ClassifierUrl("qiime2-" + release) == ClassifierUrlFor(release)
  {
    var v := "qiime2-" + release;
    EnvPrefixDash();
    SplitAfterDash("qiime2-", release);
    ReleaseNotUnknown(release);
    assert v != UnknownVersion && '-' in v && Split(v, '-')[1] == release;
  }

  /** "qiime2-" ends in its only '-'. */
  lemma EnvPrefixDash()
    ensures |"qiime2-"| == 7 && "qiime2-"[6] == '-' && '-' !in "qiime2-"[..6]
  {
    assert "qiime2-"[..6] == "qiime2";
    forall k | 0 <= k < 6 ensures "qiime2"[k] != '-' {}
  }

  /** A name whose only '-' ends its prefix splits into that prefix and the rest. */
  lemma SplitAfterDash(a: string, r: string)
    requires a != [] && a[|a| - 1] == '-' && '-' !in a[..|a| - 1] && '-' !in r
    ensures '-' in a + r && Split(a + r, '-')[1] == r
  {
    var n := |a| - 1;
    assert a + r == a[..n] + ['-'] + r;
    SplitAt(a[..n], '-', r);
    assert (a + r)[n] == '-';
  }

  /** Only the release "unknown" gives the fallback name. */
  lemma ReleaseNotUnknown(release: string)
    requires release != "unknown"
    ensures "qiime2-" + release != UnknownVersion
  {
    assert ("qiime2-" + release)[7..] == release;
    assert UnknownVersion[7..] == "unknown";
  }

  /**
   * `check_conda_qiime2()`: whether the warning is printed, given
   * `CONDA_PREFIX` ("" when unset): exactly when the last path component
   * does not mention qiime2.
   */
  function CondaWarning(condaPrefix: string): bool {
    !Contains(Paths.Tail(condaPrefix), "qiime2")
  }

  /** For a prefix `root/env`, the warning depends on the environment name alone. */
  lemma CondaWarningForEnv(root: string, env: string)
    requires '/' !in env
    ensures CondaWarning(Paths.PathJoin(root, env)) <==> !Contains(env, "qiime2")
  {
    Paths.TailOfJoin(root, env);
  }

  /** With `CONDA_PREFIX` unset, the warning is printed. */
  lemma CondaWarningWhenUnset()
    ensures CondaWarning("")
  {
  }
}
