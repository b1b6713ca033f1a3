/**
 * The folder-size action (foldersize_actions.py): find a directory report
 * for the folder on display, take the file counts of that folder's direct
 * subdirectories from it, and hand them to the icon resizer, which returns
 * early when there is nothing to scale.
 *
 * The `./dirscans` folder is given as its entries in listing order, each with
 * what opening and reading it gives: the parsed report, one of the exceptions
 * the handler catches, or another exception, which ends the handler.
 */
module FolderSize {
  import opened Wrappers
  import opened Strings
  import PosixPath
  import Glob
  import DirectoryReport

  /** The `file_count` member of one `paths` entry, if present. */
  datatype PathEntry = PathEntry(fileCount: Option<int>)

  /** A parsed report: its `analyzed_directory` and `paths` members, if present. */
  datatype ScanData = ScanData(analyzedDirectory: Option<string>, paths: Option<seq<(string, PathEntry)>>)

  /**
   * What the `try` block makes of one report before the subdirectory loop:
   * `Caught` is a `JSONDecodeError`, `FileNotFoundError` or `KeyError`, after
   * which the loop goes on with the next file; `Raises` is any other exception
   * (a `PermissionError`, an `IsADirectoryError`, a `UnicodeDecodeError`, an
   * `AttributeError` from a report that is not a dict), which leaves the
   * handler.
   */
  datatype Load = Loaded(data: ScanData) | Caught | Raises

  /** An entry of `./dirscans`: its name and what loading it gives. */
  datatype Candidate = Candidate(name: string, content: Load)

  /** How the file loop ends: with counts to apply, after the last file, or by an exception. */
  datatype Choice = Found(counts: map<string, int>) | NoReport | Raised

  /** What the resizer does with a count map. */
  datatype ResizeOutcome =
    | Unchanged          // returned at one of the two guards
    | ZoomLevelsMissing  // went past the guards, where the display has no `zoom_levels`

  datatype ActionOutcome =
    | NothingApplied
    | Applied(counts: map<string, int>, resize: ResizeOutcome)
    | HandlerRaised  // an exception the handler does not catch

  // ------------------------------------------------------------ naming

  /** The displayed path as it appears in report names: trailing '/' dropped, then mangled. */
  function PathLastPart(currentPath: string): (part: string)
    ensures |part| <= |currentPath|
  {
    DirectoryReport.Mangle(RStripChar(currentPath, '/'))
  }

  /** The name part is empty exactly for paths made only of '/', such as "/", which end the action. */
  lemma PathLastPartEmpty(currentPath: string)
    ensures PathLastPart(currentPath) == [] <==> PosixPath.AllSlashes(currentPath)
  {
    var r := RStripChar(currentPath, '/');
  }

  /** For a directory string without a trailing '/', the consumer computes the writer's name part. */
  lemma SameNameAsWriter(directory: string)
    requires !EndsWith(directory, "/")
    ensures PathLastPart(directory) == DirectoryReport.Mangle(directory)
  {
    if directory != [] {
      assert directory[|directory| - 1..] == [directory[|directory| - 1]];
    }
  }

  /** The glob the consumer uses to look for reports. */
  function ScanPattern(part: string): string
  {
    "*_" + part + ".json"
  }

  /**
   * `re.match(r'^\d{8}_\d{6}_.*\.json$', name)`: eight digits, '_', six
   * digits, '_', then any text without a line break ending in ".json",
   * optionally followed by one final line break (where `$` also matches).
   */
  predicate IsScanFileName(name: string)
  {
    |name| >= 21 && DirectoryReport.IsTimestamp(name[..15]) && name[15] == '_' &&
    var rest := name[16..];
    (EndsWith(rest, ".json") && '\n' !in rest) ||
    (EndsWith(rest, ".json\n") && '\n' !in rest[..|rest| - 1])
  }

  lemma SuffixHasNoWildcards(m: string)
    requires Glob.NoWildcards(m)
    ensures Glob.NoWildcards("_" + m + ".json")
  {
    var suffix := "_" + m + ".json";
    forall i | 0 <= i < |suffix| ensures suffix[i] != '*' && suffix[i] != '?' {
      if 1 <= i < 1 + |m| {
        assert suffix[i] == m[i - 1];
      }
    }
  }

  lemma MangleKeeps(directory: string)
    ensures Glob.NoWildcards(directory) ==> Glob.NoWildcards(DirectoryReport.Mangle(directory))
    ensures '\n' !in directory ==> '\n' !in DirectoryReport.Mangle(directory)
  {
    var m := DirectoryReport.Mangle(directory);
    forall i | 0 <= i < |m| ensures m[i] == '_' || m[i] == directory[i] {
    }
    if '\n' in m {
      var i :| 0 <= i < |m| && m[i] == '\n';
      assert directory[i] in directory;
    }
  }

  /** The consumer's glob for a name part selects every report name with that part. */
  lemma GlobSelectsReportName(timestamp: string, m: string)
    requires DirectoryReport.IsTimestamp(timestamp) && Glob.NoWildcards(m)
    ensures Glob.Selects(ScanPattern(m), timestamp + "_" + m + ".json")
  {
    var name := timestamp + "_" + m + ".json";
    var suffix := "_" + m + ".json";
    assert ScanPattern(m) == "*" + suffix;
    SuffixHasNoWildcards(m);
    Glob.StarLiteralMatches(suffix, name);
    assert name[|name| - |suffix|..] == suffix;
    assert IsDigit(name[0]);
  }

  /** Every report name whose name part has no line break passes the consumer's name check. */
  lemma ReportNameAccepted(timestamp: string, m: string)
    requires DirectoryReport.IsTimestamp(timestamp) && '\n' !in m
    ensures IsScanFileName(timestamp + "_" + m + ".json")
  {
    var name := timestamp + "_" + m + ".json";
    assert name[..15] == timestamp;
    assert name[16..] == m + ".json";
  }

  /**
   * A report written for a directory whose path has no trailing '/', no
   * wildcard and no line break is selected by the consumer's glob and passes
   * its name check when that directory is on display.
   */
  lemma ConsumerFindsReport(timestamp: string, directory: string)
    requires DirectoryReport.IsTimestamp(timestamp)
    requires !EndsWith(directory, "/") && Glob.NoWildcards(directory) && '\n' !in directory
    ensures Glob.Selects(ScanPattern(PathLastPart(directory)), DirectoryReport.OutputName(timestamp, directory))
    ensures IsScanFileName(DirectoryReport.OutputName(timestamp, directory))
  {
    SameNameAsWriter(directory);
    MangleKeeps(directory);
    GlobSelectsReportName(timestamp, DirectoryReport.Mangle(directory));
    ReportNameAccepted(timestamp, DirectoryReport.Mangle(directory));
  }

  // ------------------------------------------------- direct subdirectories

  /** The rest of `key` after the analysed directory, with leading '/' removed. */
  function Relative(key: string, analyzed: string): string
    requires StartsWith(key, analyzed)
  {
    LStripChar(key[|analyzed|..], '/')
  }

  /** The test the action applies to each path key; no separator after the analysed directory is required. */
  predicate IsDirectChild(key: string, analyzed: string)
  {
    key != analyzed && StartsWith(key, analyzed) &&
    Relative(key, analyzed) != [] && '/' !in Relative(key, analyzed)
  }

  /** The folder name to file count map after processing the path keys in order. */
  function DirectSubdirs(paths: seq<(string, PathEntry)>, analyzed: string): map<string, int>
    decreases |paths|
  {
    if paths == [] then map[]
    else
      var m := DirectSubdirs(paths[..|paths| - 1], analyzed);
      var (key, entry) := paths[|paths| - 1];
      if IsDirectChild(key, analyzed) then m[Relative(key, analyzed) := entry.fileCount.GetOr(0)] else m
  }

  method CollectDirectSubdirs(paths: seq<(string, PathEntry)>, analyzed: string) returns (subdirs: map<string, int>)
    ensures subdirs == DirectSubdirs(paths, analyzed)
  {
    subdirs := map[];
    for i := 0 to |paths|
      invariant subdirs == DirectSubdirs(paths[..i], analyzed)
    {
      assert paths[..i + 1][..i] == paths[..i];
      var (key, entry) := paths[i];
      if key != analyzed && StartsWith(key, analyzed) {
        var relative := LStripChar(key[|analyzed|..], '/');
        if '/' !in relative && relative != [] {
          subdirs := subdirs[relative := entry.fileCount.GetOr(0)];
        }
      }
    }
    assert paths[..|paths|] == paths;
  }

  predicate NamesChild(paths: seq<(string, PathEntry)>, analyzed: string, j: int, name: string)
  {
    0 <= j < |paths| && IsDirectChild(paths[j].0, analyzed) && Relative(paths[j].0, analyzed) == name
  }

  /** A folder is in the map exactly when some path key is a direct child with that name. */
  lemma {:induction false} DirectSubdirsKeys(paths: seq<(string, PathEntry)>, analyzed: string, name: string)
    ensures name in DirectSubdirs(paths, analyzed) <==> exists j :: NamesChild(paths, analyzed, j, name)
    decreases |paths|
  {
    if paths != [] {
      var prefix := paths[..|paths| - 1];
      var n := |paths| - 1;
      DirectSubdirsKeys(prefix, analyzed, name);
      forall j | 0 <= j < n
        ensures NamesChild(prefix, analyzed, j, name) <==> NamesChild(paths, analyzed, j, name)
      {
        assert prefix[j] == paths[j];
      }
      var m := DirectSubdirs(prefix, analyzed);
      var (key, entry) := paths[n];
      assert name in DirectSubdirs(paths, analyzed) <==> name in m || NamesChild(paths, analyzed, n, name);
    }
  }

  /**
   * A folder's count comes from the last path key naming it; a key without
   * `file_count` gives 0.
   */
  lemma {:induction false} DirectSubdirsValue(paths: seq<(string, PathEntry)>, analyzed: string, j: nat)
    requires j < |paths| && IsDirectChild(paths[j].0, analyzed)
    requires forall j' :: j < j' < |paths| ==> !NamesChild(paths, analyzed, j', Relative(paths[j].0, analyzed))
    ensures Relative(paths[j].0, analyzed) in DirectSubdirs(paths, analyzed)
    ensures DirectSubdirs(paths, analyzed)[Relative(paths[j].0, analyzed)] == paths[j].1.fileCount.GetOr(0)
    decreases |paths|
  {
    if j < |paths| - 1 {
      var prefix := paths[..|paths| - 1];
      assert prefix[j] == paths[j];
      forall j' | j < j' < |prefix|
        ensures !NamesChild(prefix, analyzed, j', Relative(prefix[j].0, analyzed))
      {
        assert !NamesChild(paths, analyzed, j', Relative(paths[j].0, analyzed));
      }
      DirectSubdirsValue(prefix, analyzed, j);
      assert !NamesChild(paths, analyzed, |paths| - 1, Relative(paths[j].0, analyzed));
    }
  }

  /** "/database" counts as a child of "/data": no separator is required after the prefix. */
  lemma PrefixIsNotASeparator()
    ensures IsDirectChild("/database", "/data") && Relative("/database", "/data") == "base"
  {
    assert "/database"[5..] == "base";
  }

  /** The analysed directory itself is not its own child. */
  lemma SelfIsNotAChild(analyzed: string)
    ensures !IsDirectChild(analyzed, analyzed)
  {
  }

  /** A key two levels down is not a direct child. */
  lemma GrandchildIsNotAChild()
    ensures !IsDirectChild("/data/x/y", "/data")
  {
    assert "/data/x/y"[5..] == "/x/y";
    assert LStripChar("/x/y", '/') == "x/y";
    assert "x/y"[1] == '/';
  }

  /** A direct child without `file_count` is recorded with count 0. */
  lemma MissingCountIsZero(analyzed: string, name: string)
    requires name != [] && name[0] != '/' && '/' !in name
    ensures DirectSubdirs([(analyzed + "/" + name, PathEntry(None))], analyzed) == map[name := 0]
  {
    var key := analyzed + "/" + name;
    assert key[..|analyzed|] == analyzed;
    assert key[|analyzed|..] == "/" + name;
    assert LStripChar("/" + name, '/') == LStripChar(name, '/');
    var paths := [(key, PathEntry(None))];
    assert paths[..0] == [];
  }

  // -------------------------------------------------- choosing a report

  function SubdirsOf(data: ScanData): map<string, int>
  {
    DirectSubdirs(data.paths.GetOr([]), data.analyzedDirectory.GetOr(""))
  }

  /** The counts a globbed file contributes, when it passes the name check, loads and names a subdirectory. */
  function Applicable(c: Candidate): Option<map<string, int>>
  {
    if IsScanFileName(c.name) && c.content.Loaded? && SubdirsOf(c.content.data) != map[]
    then Some(SubdirsOf(c.content.data)) else None
  }

  /** A file that passes the name check and raises an exception the handler does not catch. */
  predicate Aborts(c: Candidate)
  {
    IsScanFileName(c.name) && c.content.Raises?
  }

  /** How the loop over the globbed files ends. */
  function FirstApplicable(cands: seq<Candidate>): Choice
    decreases |cands|
  {
    if cands == [] then NoReport
    else if Applicable(cands[0]).Some? then Found(Applicable(cands[0]).value)
    else if Aborts(cands[0]) then Raised
    else FirstApplicable(cands[1..])
  }

  /**
   * The loop over the globbed files: skip a file that fails the name check,
   * raises a caught exception or names no subdirectory; stop at the first that
   * names one, or at an exception the handler does not catch.
   */
  method ChooseReport(cands: seq<Candidate>) returns (choice: Choice)
    ensures choice == FirstApplicable(cands)
  {
    var i := 0;
    while i < |cands|
      invariant 0 <= i <= |cands|
      invariant FirstApplicable(cands) == FirstApplicable(cands[i..])
    {
      assert cands[i..][1..] == cands[i + 1..];
      var c := cands[i];
      if IsScanFileName(c.name) {
        match c.content {
          case Raises =>
            return Raised;
          case Caught =>
          case Loaded(data) =>
            var subdirs := CollectDirectSubdirs(data.paths.GetOr([]), data.analyzedDirectory.GetOr(""));
            if subdirs != map[] {
              return Found(subdirs);
            }
        }
      }
      i := i + 1;
    }
    return NoReport;
  }

  /** A file the loop skips: it neither applies nor raises past the handler. */
  predicate Skipped(c: Candidate)
  {
    Applicable(c).None? && !Aborts(c)
  }

  /** When every earlier file is skipped, the loop ends at the first file that applies or aborts. */
  lemma {:induction false} FirstApplicableIsFirst(cands: seq<Candidate>, j: nat)
    requires j < |cands| && !Skipped(cands[j])
    requires forall i :: 0 <= i < j ==> Skipped(cands[i])
    ensures Applicable(cands[j]).Some? ==> FirstApplicable(cands) == Found(Applicable(cands[j]).value)
    ensures Applicable(cands[j]).None? ==> FirstApplicable(cands) == Raised
    decreases j
  {
    if j > 0 {
      forall i | 0 <= i < j - 1 ensures Skipped(cands[1..][i]) {
        assert cands[1..][i] == cands[i + 1];
      }
      FirstApplicableIsFirst(cands[1..], j - 1);
    }
  }

  /** The loop runs out of files exactly when it skips every one of them. */
  lemma {:induction false} NoneApplicable(cands: seq<Candidate>)
    ensures FirstApplicable(cands) == NoReport <==> forall i :: 0 <= i < |cands| ==> Skipped(cands[i])
    decreases |cands|
  {
    if cands != [] {
      NoneApplicable(cands[1..]);
      assert forall i :: 1 <= i < |cands| ==> cands[i] == cands[1..][i - 1];
    }
  }

  /** An uncaught exception in a file before any applicable one ends the loop without applying anything. */
  lemma RaisesBeforeApplying(cands: seq<Candidate>, j: nat)
    requires j < |cands| && Aborts(cands[j])
    requires forall i :: 0 <= i < j ==> Skipped(cands[i])
    ensures FirstApplicable(cands) == Raised
  {
    FirstApplicableIsFirst(cands, j);
  }

  /** The entries of `./dirscans` that `glob.glob` returns for `pattern`, in listing order. */
  function Globbed(listing: seq<Candidate>, pattern: string): (r: seq<Candidate>)
    ensures forall k :: 0 <= k < |r| ==> r[k] in listing && Glob.Selects(pattern, r[k].name)
    ensures |r| <= |listing|
  {
    if listing == [] then []
    else if Glob.Selects(pattern, listing[0].name) then [listing[0]] + Globbed(listing[1..], pattern)
    else Globbed(listing[1..], pattern)
  }

  /** Every listing entry the pattern selects is globbed. */
  lemma {:induction false} GlobbedComplete(listing: seq<Candidate>, pattern: string)
    ensures forall c :: c in listing && Glob.Selects(pattern, c.name) ==> c in Globbed(listing, pattern)
    decreases |listing|
  {
    if listing != [] {
      GlobbedComplete(listing[1..], pattern);
      forall c | c in listing && Glob.Selects(pattern, c.name) ensures c in Globbed(listing, pattern) {
        if c != listing[0] {
          assert c in listing[1..];
        }
      }
    }
  }

  /**
   * The glob keeps listing order: globbing a listing split in two gives the
   * two parts' matches one after the other.
   */
  lemma {:induction false} GlobbedAppend(a: seq<Candidate>, b: seq<Candidate>, pattern: string)
    ensures Globbed(a + b, pattern) == Globbed(a, pattern) + Globbed(b, pattern)
    decreases |a|
  {
    if a == [] {
      assert a + b == b;
    } else {
      var ab := a + b;
      assert ab != [] && ab[0] == a[0] && ab[1..] == a[1..] + b;
      GlobbedAppend(a[1..], b, pattern);
      if Glob.Selects(pattern, a[0].name) {
        assert Globbed(ab, pattern) == [a[0]] + Globbed(a[1..] + b, pattern);
        assert Globbed(a, pattern) == [a[0]] + Globbed(a[1..], pattern);
      } else {
        assert Globbed(ab, pattern) == Globbed(a[1..] + b, pattern);
        assert Globbed(a, pattern) == Globbed(a[1..], pattern);
      }
    }
  }

  // ---------------------------------------------------------- resizing

  /**
   * The two guards of `resize_folder_icons_by_file_count`: it goes on only
   * when the map is non-empty and its smallest and largest counts differ.
   */
  method ResizeGuard(counts: map<string, int>) returns (proceeds: bool)
    ensures proceeds <==> exists a, b :: a in counts && b in counts && counts[a] != counts[b]
  {
    if counts == map[] {
      return false;
    }
    var first :| first in counts;
    var lo, hi := counts[first], counts[first];
    ghost var loKey, hiKey := first, first;
    var pending := counts.Keys - {first};
    while pending != {}
      invariant pending <= counts.Keys
      invariant loKey in counts && counts[loKey] == lo
      invariant hiKey in counts && counts[hiKey] == hi
      invariant forall k :: k in counts && k !in pending ==> lo <= counts[k] <= hi
      decreases |pending|
    {
      var k :| k in pending;
      if counts[k] < lo {
        lo, loKey := counts[k], k;
      }
      if counts[k] > hi {
        hi, hiKey := counts[k], k;
      }
      pending := pending - {k};
    }
    proceeds := lo != hi;
  }

  function ResizeOf(counts: map<string, int>): ResizeOutcome
  {
    if exists a, b :: a in counts && b in counts && counts[a] != counts[b] then ZoomLevelsMissing else Unchanged
  }

  /**
   * `on_foldersize_zero_clicked`: the counts handed to the resizer, if any,
   * for the path on display and the `./dirscans` listing.
   */
  function FolderSizeAction(currentPath: string, dirscansExists: bool, listing: seq<Candidate>): Choice
  {
    if currentPath == [] || PathLastPart(currentPath) == [] || !dirscansExists then NoReport
    else FirstApplicable(Globbed(listing, ScanPattern(PathLastPart(currentPath))))
  }

  method OnFolderSizeZeroClicked(currentPath: string, dirscansExists: bool, listing: seq<Candidate>)
    returns (outcome: ActionOutcome)
    ensures FolderSizeAction(currentPath, dirscansExists, listing) == NoReport ==> outcome == NothingApplied
    ensures FolderSizeAction(currentPath, dirscansExists, listing) == Raised ==> outcome == HandlerRaised
    ensures FolderSizeAction(currentPath, dirscansExists, listing).Found? ==>
      var counts := FolderSizeAction(currentPath, dirscansExists, listing).counts;
      outcome == Applied(counts, ResizeOf(counts))
  {
    if currentPath == [] {
      return NothingApplied;
    }
    var part := PathLastPart(currentPath);
    if part == [] || !dirscansExists {
      return NothingApplied;
    }
    var chosen := ChooseReport(Globbed(listing, ScanPattern(part)));
    match chosen {
      case NoReport =>
        return NothingApplied;
      case Raised =>
        return HandlerRaised;
      case Found(counts) =>
        var proceeds := ResizeGuard(counts);
        outcome := Applied(counts, if proceeds then ZoomLevelsMissing else Unchanged);
    }
  }

  /** Every count map the action applies is non-empty, so the resizer's first guard never fires on it. */
  lemma AppliedCountsNonEmpty(currentPath: string, dirscansExists: bool, listing: seq<Candidate>)
    requires FolderSizeAction(currentPath, dirscansExists, listing).Found?
    ensures FolderSizeAction(currentPath, dirscansExists, listing).counts != map[]
  {
    var cands := Globbed(listing, ScanPattern(PathLastPart(currentPath)));
    AppliedNonEmpty(cands);
  }

  lemma {:induction false} AppliedNonEmpty(cands: seq<Candidate>)
    requires FirstApplicable(cands).Found?
    ensures FirstApplicable(cands).counts != map[]
    decreases |cands|
  {
    if Applicable(cands[0]).None? {
      AppliedNonEmpty(cands[1..]);
    }
  }
}
