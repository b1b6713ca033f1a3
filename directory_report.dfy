/**
 * The directory report writer (dirscans/build_directory_json.py): one record
 * per directory visited by `os.walk` with the number of files listed in it and
 * the sum of their sizes, the report wrapper and its totals, the output file
 * name derived from the analysed directory, and the removal of older reports
 * for the same directory before the new one is written.
 *
 * The walk is given as the sequence of (root, file names) steps `os.walk`
 * yields; `os.path.getsize` is a function that answers `None` where it raises
 * `OSError`; the clock is the `timestamp` argument; the output folder is the
 * set of file names in it.
 */
module DirectoryReport {
  import opened Wrappers
  import opened Strings
  import PosixPath
  import opened Dicts
  import Glob

  /** One step of `os.walk`: a directory and the names of the files directly in it. */
  datatype WalkStep = WalkStep(root: string, files: seq<string>)

  /** The value stored for one directory: `file_count` and `total_size_bytes`. */
  datatype DirInfo = DirInfo(fileCount: nat, totalSizeBytes: nat)

  /** The JSON document written: `analyzed_directory`, `total_paths` and `paths`. */
  datatype Report = Report(analyzedDirectory: string, totalPaths: nat, paths: Dict<DirInfo>)

  /** The two totals printed after the report is written. */
  datatype Summary = Summary(totalFiles: nat, totalSize: nat)

  datatype RunOutcome =
    | NotADirectory
    | WriteFailed
    | Written(outputName: string, report: Report, summary: Summary)

  // ---------------------------------------------------------------- sizes

  /** The size total after adding up the readable files of `files` in order. */
  function SizeOf(root: string, files: seq<string>, getsize: string -> Option<nat>): nat
    decreases |files|
  {
    if files == [] then 0
    else SizeOf(root, files[..|files| - 1], getsize) + getsize(PosixPath.Join(root, files[|files| - 1])).GetOr(0)
  }

  /** The inner loop: sizes of files whose size can be read are added, the others skipped. */
  method SumSizes(root: string, files: seq<string>, getsize: string -> Option<nat>) returns (total: nat)
    ensures total == SizeOf(root, files, getsize)
  {
    total := 0;
    for i := 0 to |files|
      invariant total == SizeOf(root, files[..i], getsize)
    {
      assert files[..i + 1][..i] == files[..i];
      match getsize(PosixPath.Join(root, files[i]))
      case Some(size) => total := total + size;
      case None =>
    }
    assert files[..|files|] == files;
  }

  /** The files of `files` whose size can be read, in order. */
  function Readable(root: string, files: seq<string>, getsize: string -> Option<nat>): (r: seq<string>)
    ensures |r| <= |files|
    ensures forall k :: 0 <= k < |r| ==> r[k] in files && getsize(PosixPath.Join(root, r[k])).Some?
  {
    if files == [] then []
    else if getsize(PosixPath.Join(root, files[0])).Some? then [files[0]] + Readable(root, files[1..], getsize)
    else Readable(root, files[1..], getsize)
  }

  lemma {:induction false} SizeOfAppend(root: string, a: seq<string>, b: seq<string>, getsize: string -> Option<nat>)
    ensures SizeOf(root, a + b, getsize) == SizeOf(root, a, getsize) + SizeOf(root, b, getsize)
    decreases |b|
  {
    if b == [] {
      assert a + b == a;
    } else {
      var b' := b[..|b| - 1];
      assert (a + b)[..|a + b| - 1] == a + b';
      SizeOfAppend(root, a, b', getsize);
    }
  }

  lemma SizeOfSingle(root: string, f: string, getsize: string -> Option<nat>)
    ensures SizeOf(root, [f], getsize) == getsize(PosixPath.Join(root, f)).GetOr(0)
  {
    assert [f][..0] == [];
  }

  /** The size total is the total over the readable files alone: unreadable files add nothing. */
  lemma {:induction false} SizeOfReadable(root: string, files: seq<string>, getsize: string -> Option<nat>)
    ensures SizeOf(root, Readable(root, files, getsize), getsize) == SizeOf(root, files, getsize)
    decreases |files|
  {
    if files != [] {
      var head, tail := files[0], files[1..];
      var rest := Readable(root, tail, getsize);
      SizeOfReadable(root, tail, getsize);
      assert files == [head] + tail;
      SizeOfAppend(root, [head], tail, getsize);
      SizeOfSingle(root, head, getsize);
      if getsize(PosixPath.Join(root, head)).Some? {
        assert Readable(root, files, getsize) == [head] + rest;
        SizeOfAppend(root, [head], rest, getsize);
      } else {
        assert Readable(root, files, getsize) == rest;
      }
    }
  }

  /** When no size can be read the directory still counts all its files and reports 0 bytes. */
  lemma NothingReadable(step: WalkStep, getsize: string -> Option<nat>)
    requires forall f :: f in step.files ==> getsize(PosixPath.Join(step.root, f)).None?
    ensures DirInfoOf(step, getsize) == DirInfo(|step.files|, 0)
  {
    SizeOfReadable(step.root, step.files, getsize);
  }

  // ------------------------------------------------------------ the walk

  function DirInfoOf(step: WalkStep, getsize: string -> Option<nat>): DirInfo
  {
    DirInfo(|step.files|, SizeOf(step.root, step.files, getsize))
  }

  /** `get_directory_info`: the dict after storing each walked directory under its root. */
  function DirectoryInfo(walk: seq<WalkStep>, getsize: string -> Option<nat>): (d: Dict<DirInfo>)
    ensures d.Valid()
    decreases |walk|
  {
    if walk == [] then Empty()
    else DirectoryInfo(walk[..|walk| - 1], getsize).Put(walk[|walk| - 1].root, DirInfoOf(walk[|walk| - 1], getsize))
  }

  method GetDirectoryInfo(walk: seq<WalkStep>, getsize: string -> Option<nat>) returns (result: Dict<DirInfo>)
    ensures result == DirectoryInfo(walk, getsize)
  {
    result := Empty();
    for i := 0 to |walk|
      invariant result == DirectoryInfo(walk[..i], getsize)
    {
      assert walk[..i + 1][..i] == walk[..i];
      var totalSize := SumSizes(walk[i].root, walk[i].files, getsize);
      result := result.Put(walk[i].root, DirInfo(|walk[i].files|, totalSize));
    }
    assert walk[..|walk|] == walk;
  }

  predicate Visited(walk: seq<WalkStep>, root: string)
  {
    exists j :: 0 <= j < |walk| && walk[j].root == root
  }

  /** The report has an entry for a directory exactly when the walk visited it. */
  lemma {:induction false} EntryPerVisitedRoot(walk: seq<WalkStep>, getsize: string -> Option<nat>, root: string)
    ensures root in DirectoryInfo(walk, getsize).values <==> Visited(walk, root)
    decreases |walk|
  {
    if walk != [] {
      var prefix := walk[..|walk| - 1];
      EntryPerVisitedRoot(prefix, getsize, root);
      if Visited(prefix, root) {
        var j :| 0 <= j < |prefix| && prefix[j].root == root;
        assert walk[j].root == root;
      }
      if Visited(walk, root) && root != walk[|walk| - 1].root {
        var j :| 0 <= j < |walk| && walk[j].root == root;
        assert prefix[j].root == root;
      }
    }
  }

  /** A directory's entry holds the file count and size total of its last visit. */
  lemma {:induction false} EntryOfLastVisit(walk: seq<WalkStep>, getsize: string -> Option<nat>, j: nat)
    requires j < |walk|
    requires forall j' :: j < j' < |walk| ==> walk[j'].root != walk[j].root
    ensures walk[j].root in DirectoryInfo(walk, getsize).values
    ensures DirectoryInfo(walk, getsize).values[walk[j].root] == DirInfoOf(walk[j], getsize)
    decreases |walk|
  {
    if j < |walk| - 1 {
      var prefix := walk[..|walk| - 1];
      assert prefix[j] == walk[j];
      EntryOfLastVisit(prefix, getsize, j);
    }
  }

  // ------------------------------------------------------------ totals

  /** Sum of `file_count` over the given keys. */
  function FileSum(keys: seq<string>, values: map<string, DirInfo>): nat
    requires forall k :: k in keys ==> k in values
    decreases |keys|
  {
    if keys == [] then 0 else FileSum(keys[..|keys| - 1], values) + values[keys[|keys| - 1]].fileCount
  }

  /** Sum of `total_size_bytes` over the given keys. */
  function ByteSum(keys: seq<string>, values: map<string, DirInfo>): nat
    requires forall k :: k in keys ==> k in values
    decreases |keys|
  {
    if keys == [] then 0 else ByteSum(keys[..|keys| - 1], values) + values[keys[|keys| - 1]].totalSizeBytes
  }

  /** The totals printed at the end of the run, summed over every entry of the dict. */
  function Summarize(d: Dict<DirInfo>): Summary
    requires d.Valid()
  {
    Summary(FileSum(d.order, d.values), ByteSum(d.order, d.values))
  }

  /** The number of files listed over the whole walk. */
  function WalkFiles(walk: seq<WalkStep>): nat
    decreases |walk|
  {
    if walk == [] then 0 else WalkFiles(walk[..|walk| - 1]) + |walk[|walk| - 1].files|
  }

  /** The bytes of readable files over the whole walk. */
  function WalkBytes(walk: seq<WalkStep>, getsize: string -> Option<nat>): nat
    decreases |walk|
  {
    if walk == [] then 0
    else WalkBytes(walk[..|walk| - 1], getsize) + SizeOf(walk[|walk| - 1].root, walk[|walk| - 1].files, getsize)
  }

  /** `os.walk` visits each directory once. */
  predicate DistinctRoots(walk: seq<WalkStep>)
  {
    forall i, j :: 0 <= i < j < |walk| ==> walk[i].root != walk[j].root
  }

  lemma {:induction false} SumsFrame(keys: seq<string>, values: map<string, DirInfo>, k: string, v: DirInfo)
    requires forall x :: x in keys ==> x in values
    requires k !in keys
    ensures FileSum(keys, values[k := v]) == FileSum(keys, values)
    ensures ByteSum(keys, values[k := v]) == ByteSum(keys, values)
    decreases |keys|
  {
    if keys != [] {
      SumsFrame(keys[..|keys| - 1], values, k, v);
      assert keys[|keys| - 1] in keys;
    }
  }

  lemma LastRootIsNew(walk: seq<WalkStep>, getsize: string -> Option<nat>)
    requires walk != [] && DistinctRoots(walk)
    ensures walk[|walk| - 1].root !in DirectoryInfo(walk[..|walk| - 1], getsize).values
  {
    var prefix := walk[..|walk| - 1];
    EntryPerVisitedRoot(prefix, getsize, walk[|walk| - 1].root);
  }

  /** Appending a new key adds its value to both sums. */
  lemma SumsAppend(keys: seq<string>, values: map<string, DirInfo>, k: string, v: DirInfo)
    requires forall x :: x in keys ==> x in values
    requires k !in keys
    ensures FileSum(keys + [k], values[k := v]) == FileSum(keys, values) + v.fileCount
    ensures ByteSum(keys + [k], values[k := v]) == ByteSum(keys, values) + v.totalSizeBytes
  {
    assert (keys + [k])[..|keys|] == keys;
    SumsFrame(keys, values, k, v);
  }

  /**
   * Over a walk that visits each directory once, the report has one entry per
   * step and the printed totals are the files and readable bytes of the whole walk.
   */
  lemma {:induction false} TotalsOverWalk(walk: seq<WalkStep>, getsize: string -> Option<nat>)
    requires DistinctRoots(walk)
    ensures |DirectoryInfo(walk, getsize).order| == |walk|
    ensures Summarize(DirectoryInfo(walk, getsize)) == Summary(WalkFiles(walk), WalkBytes(walk, getsize))
    decreases |walk|
  {
    if walk != [] {
      var prefix := walk[..|walk| - 1];
      var last := walk[|walk| - 1];
      TotalsOverWalk(prefix, getsize);
      LastRootIsNew(walk, getsize);
      var d := DirectoryInfo(prefix, getsize);
      SumsAppend(d.order, d.values, last.root, DirInfoOf(last, getsize));
    }
  }

  /** `main`'s report: `total_paths` is the number of entries in `paths`. */
  function MakeReport(analyzedDirectory: string, info: Dict<DirInfo>): (r: Report)
    requires info.Valid()
    ensures r.totalPaths == |r.paths.order| && r.paths == info
  {
    Report(analyzedDirectory, |info.order|, info)
  }

  // ------------------------------------------------------- output naming

  /** The analysed directory as a file-name part: every '/', '\\' and ':' becomes '_'. */
  function Mangle(directory: string): (m: string)
    ensures |m| == |directory|
    ensures forall i :: 0 <= i < |m| ==>
      m[i] == (if directory[i] == '/' || directory[i] == '\\' || directory[i] == ':' then '_' else directory[i])
  {
    ReplaceChar(ReplaceChar(ReplaceChar(directory, '/', '_'), '\\', '_'), ':', '_')
  }

  /** What `strftime("%Y%m%d_%H%M%S")` produces for a four-digit year. */
  predicate IsTimestamp(ts: string)
  {
    |ts| == 15 && ts[8] == '_' &&
    (forall i :: 0 <= i < 15 && i != 8 ==> IsDigit(ts[i]))
  }

  /** The report's file name inside the script's folder. */
  function OutputName(timestamp: string, directory: string): (name: string)
    ensures EndsWith(name, ".json") && StartsWith(name, timestamp)
  {
    timestamp + "_" + Mangle(directory) + ".json"
  }

  /** The glob used to find earlier reports for the same directory. */
  function ReportPattern(directory: string): string
  {
    "*_" + Mangle(directory) + ".json"
  }

  /** As written: every file the glob selects is removed. */
  function GlobbedReports(files: set<string>, directory: string): (r: set<string>)
    ensures r <= files
  {
    set f | f in files && Glob.Selects(ReportPattern(directory), f)
  }

  /** The glob also removes the report of "a/b" when "b" is analysed, though the two names differ. */
  lemma GlobRemovesOtherReports()
    ensures var other := OutputName("20240101_120000", "a/b");
      other in GlobbedReports({other}, "b") && Mangle("a/b") != Mangle("b")
  {
    var other := OutputName("20240101_120000", "a/b");
    assert Mangle("b") == "b";
    assert Mangle("a/b")[1] == '_';
    var suffix := "_" + Mangle("b") + ".json";
    assert suffix == "_b.json";
    assert "*_" + Mangle("b") + ".json" == "*" + suffix;
    Glob.StarLiteralMatches(suffix, other);
    assert other[|other| - |suffix|..] == suffix;
  }

  /** Whether `name` is exactly a report of the directory whose mangled name is `m`. */
  predicate IsReportFor(name: string, m: string)
  {
    |name| == |m| + 21 && IsTimestamp(name[..15]) && name[15] == '_' &&
    name[16..16 + |m|] == m && name[16 + |m|..] == ".json"
  }

  /** Corrected: the earlier reports of this directory and no others. */
  function OwnReports(files: set<string>, directory: string): (r: set<string>)
    ensures r <= files
  {
    set f | f in files && IsReportFor(f, Mangle(directory))
  }

  /** A report written for one directory is an earlier report of another exactly when their mangled names agree. */
  lemma OwnReportsExact(timestamp: string, written: string, analysed: string)
    requires IsTimestamp(timestamp)
    ensures OutputName(timestamp, written) in OwnReports({OutputName(timestamp, written)}, analysed)
        <==> Mangle(written) == Mangle(analysed)
  {
    var name := OutputName(timestamp, written);
    var m := Mangle(written);
    assert name[..15] == timestamp && name[15] == '_';
    assert name[16..16 + |m|] == m && name[16 + |m|..] == ".json";
    if IsReportFor(name, Mangle(analysed)) {
      assert |Mangle(analysed)| == |m|;
    }
  }

  /** The corrected selection never removes a file the original glob would keep. */
  lemma OwnReportsWithinGlob(files: set<string>, directory: string)
    requires Glob.NoWildcards(directory)
    ensures OwnReports(files, directory) <= GlobbedReports(files, directory)
  {
    var m := Mangle(directory);
    var suffix := "_" + m + ".json";
    assert "*_" + m + ".json" == "*" + suffix;
    assert Glob.NoWildcards(suffix) by {
      forall i | 0 <= i < |suffix| ensures suffix[i] != '*' && suffix[i] != '?' {
        if 1 <= i < 1 + |m| {
          assert suffix[i] == m[i - 1];
        }
      }
    }
    forall f | f in OwnReports(files, directory)
      ensures f in GlobbedReports(files, directory)
    {
      Glob.StarLiteralMatches(suffix, f);
      assert f[|f| - |suffix|..] == suffix;
      assert IsDigit(f[0]);
    }
  }

  // --------------------------------------------------------------- main

  /** The folder the reports are written to, as the set of file names in it. */
  class ReportFolder {
    var files: set<string>

    constructor(files: set<string>)
      ensures this.files == files
    {
      this.files := files;
    }

    /**
     * `main`: refuse a non-directory; collect the walk; remove every file the
     * glob `*_<mangled>.json` selects, which takes in other directories'
     * reports too (see `GlobRemovesOtherReports`); write the new one. The
     * removal happens before the write, so a failed write leaves neither.
     */
    method BuildReport(directory: string, isDirectory: bool, analyzedDirectory: string,
                       walk: seq<WalkStep>, getsize: string -> Option<nat>,
                       timestamp: string, writeSucceeds: bool) returns (outcome: RunOutcome)
      modifies this
      ensures !isDirectory ==> outcome == NotADirectory && files == old(files)
      ensures isDirectory && !writeSucceeds ==>
        outcome == WriteFailed && files == old(files) - GlobbedReports(old(files), directory)
      ensures isDirectory && writeSucceeds ==>
        var info := DirectoryInfo(walk, getsize);
        outcome == Written(OutputName(timestamp, directory), MakeReport(analyzedDirectory, info), Summarize(info)) &&
        files == (old(files) - GlobbedReports(old(files), directory)) + {OutputName(timestamp, directory)}
    {
      outcome := ReplaceReports(GlobbedReports(files, directory), directory, isDirectory, analyzedDirectory,
                                walk, getsize, timestamp, writeSucceeds);
    }

    /** `main` with the corrected removal: only this directory's own earlier reports go. */
    method BuildReportCorrected(directory: string, isDirectory: bool, analyzedDirectory: string,
                                walk: seq<WalkStep>, getsize: string -> Option<nat>,
                                timestamp: string, writeSucceeds: bool) returns (outcome: RunOutcome)
      modifies this
      ensures !isDirectory ==> outcome == NotADirectory && files == old(files)
      ensures isDirectory && !writeSucceeds ==>
        outcome == WriteFailed && files == old(files) - OwnReports(old(files), directory)
      ensures isDirectory && writeSucceeds ==>
        var info := DirectoryInfo(walk, getsize);
        outcome == Written(OutputName(timestamp, directory), MakeReport(analyzedDirectory, info), Summarize(info)) &&
        files == (old(files) - OwnReports(old(files), directory)) + {OutputName(timestamp, directory)}
    {
      outcome := ReplaceReports(OwnReports(files, directory), directory, isDirectory, analyzedDirectory,
                                walk, getsize, timestamp, writeSucceeds);
    }

    /** The steps of `main` once the files to remove are known. */
    method ReplaceReports(stale: set<string>, directory: string, isDirectory: bool, analyzedDirectory: string,
                          walk: seq<WalkStep>, getsize: string -> Option<nat>,
                          timestamp: string, writeSucceeds: bool) returns (outcome: RunOutcome)
      modifies this
      ensures !isDirectory ==> outcome == NotADirectory && files == old(files)
      ensures isDirectory && !writeSucceeds ==> outcome == WriteFailed && files == old(files) - stale
      ensures isDirectory && writeSucceeds ==>
        var info := DirectoryInfo(walk, getsize);
        outcome == Written(OutputName(timestamp, directory), MakeReport(analyzedDirectory, info), Summarize(info)) &&
        files == (old(files) - stale) + {OutputName(timestamp, directory)}
    {
      if !isDirectory {
        return NotADirectory;
      }
      var info := GetDirectoryInfo(walk, getsize);
      var outputName := OutputName(timestamp, directory);
      var pending := stale;
      while pending != {}
        invariant pending <= stale
        invariant files == old(files) - (stale - pending)
        decreases |pending|
      {
        var f :| f in pending;
        files := files - {f};
        pending := pending - {f};
      }
      if !writeSucceeds {
        return WriteFailed;
      }
      files := files + {outputName};
      outcome := Written(outputName, MakeReport(analyzedDirectory, info), Summarize(info));
    }
  }
}
