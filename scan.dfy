/**
 * `scan_directory` (dirscans/build_lustre_json.py): the flat, one-level scan
 * that keeps the files and links of a directory in listing order and runs
 * every collector on each of them.
 */
module Scan {
  import opened Wrappers
  import opened Strings
  import opened PosixPath
  import opened StandardMetadata
  import opened LustreMetadata

  /** A name returned by `os.listdir`, with what `os.path.isfile` and `os.path.islink` say of its joined path. */
  datatype ListedItem = ListedItem(name: string, isFile: bool, isLink: bool)

  /** What the four collectors observe for one entry path. */
  datatype EntryProbe = EntryProbe(
    standard: StandardProbe,
    lustre: LustreProbe,
    xattrAll: CommandOutcome,      // getfattr -d
    xattrSelinux: CommandOutcome,  // getfattr -n security.selinux
    acl: CommandOutcome)           // getfacl

  /** One element of `results['files']`. */
  datatype FileRecord = FileRecord(
    scanOrder: nat,
    standard: StandardRecord,
    lustre: LustreRecord,
    xattrs: XattrRecord,
    acl: AclRecord)

  /** `results['scan_info']`. */
  datatype ScanInfo = ScanInfo(
    directory: string,
    scanTime: string,
    hostname: Option<string>,
    lustreVersion: Option<string>,
    totalFiles: nat,
    scanCompleted: string)

  datatype ScanResults = ScanResults(info: ScanInfo, files: seq<FileRecord>)

  /**
   * The world as the scan sees it: whether the argument is a directory, its
   * absolute form, the two clock readings, the `hostname` and `lfs --version`
   * commands, the listing (`None` when `os.listdir` raises `OSError`) and the
   * collectors' observations per path.
   */
  datatype ScanEnvironment = ScanEnvironment(
    isDir: bool,
    absPath: string,
    startTime: string,
    endTime: string,
    hostname: CommandOutcome,
    lfsVersion: CommandOutcome,
    listing: Option<seq<ListedItem>>,
    probe: string -> EntryProbe)

  /** `os.path.isfile(p) or os.path.islink(p)`. */
  predicate Scanned(item: ListedItem)
  {
    item.isFile || item.isLink
  }

  /** The `entries` list: the joined paths of the files and links, in listing order. */
  function SelectEntries(dir: string, items: seq<ListedItem>): (entries: seq<string>)
    ensures |entries| <= |items|
  {
    if items == [] then []
    else
      var last := items[|items| - 1];
      SelectEntries(dir, items[..|items| - 1]) + (if Scanned(last) then [PosixPath.Join(dir, last.name)] else [])
  }

  /** The record of the entry at 1-based position `order`. */
  function RecordFor(order: nat, path: string, probe: string -> EntryProbe): FileRecord
  {
    var p := probe(path);
    FileRecord(
      order,
      CollectStandard(path, p.standard),
      CollectLustre(p.lustre),
      CollectXattrs(p.xattrAll, p.xattrSelinux),
      CollectAcl(p.acl))
  }

  /** The records of the first entries, numbered from 1. */
  function Records(entries: seq<string>, probe: string -> EntryProbe): (files: seq<FileRecord>)
    ensures |files| == |entries|
  {
    if entries == [] then []
    else Records(entries[..|entries| - 1], probe) + [RecordFor(|entries|, entries[|entries| - 1], probe)]
  }

  /** The record at position `k` is the entry's record, numbered `k + 1`. */
  lemma {:induction false} RecordsAt(entries: seq<string>, probe: string -> EntryProbe, k: nat)
    requires k < |entries|
    ensures Records(entries, probe)[k] == RecordFor(k + 1, entries[k], probe)
  {
    if k < |entries| - 1 {
      RecordsAt(entries[..|entries| - 1], probe, k);
    }
  }

  /** What `scan_directory` returns. */
  function ScanSpec(dir: string, env: ScanEnvironment): Option<ScanResults>
  {
    if !env.isDir || env.listing.None? then None
    else
      var entries := SelectEntries(dir, env.listing.value);
      Some(ScanResults(
        ScanInfo(env.absPath, env.startTime, RunCommand(env.hostname, true), RunCommand(env.lfsVersion, true),
                 |entries|, env.endTime),
        Records(entries, env.probe)))
  }

  /** `scan_directory(directory_path)`. */
  method ScanDirectory(dir: string, env: ScanEnvironment) returns (results: Option<ScanResults>)
    ensures results == ScanSpec(dir, env)
  {
    if !env.isDir {
      return None;
    }
    var hostname := RunCommand(env.hostname, true);
    var lustreVersion := RunCommand(env.lfsVersion, true);
    if env.listing.None? {
      return None;
    }
    var entries := SelectScanned(dir, env.listing.value);
    var files := CollectRecords(entries, env.probe);
    var info := ScanInfo(env.absPath, env.startTime, hostname, lustreVersion, |entries|, env.endTime);
    return Some(ScanResults(info, files));
  }

  /** The loop over `os.listdir`: keep the joined path of every file or link. */
  method SelectScanned(dir: string, items: seq<ListedItem>) returns (entries: seq<string>)
    ensures entries == SelectEntries(dir, items)
  {
    entries := [];
    for i := 0 to |items|
      invariant entries == SelectEntries(dir, items[..i])
    {
      assert items[..i + 1][..i] == items[..i];
      if Scanned(items[i]) {
        entries := entries + [PosixPath.Join(dir, items[i].name)];
      }
    }
    assert items[..|items|] == items;
  }

  /** The `enumerate(entries, 1)` loop: one record per entry, numbered from 1. */
  method CollectRecords(entries: seq<string>, probe: string -> EntryProbe) returns (files: seq<FileRecord>)
    ensures files == Records(entries, probe)
  {
    files := [];
    for i := 0 to |entries|
      invariant files == Records(entries[..i], probe)
    {
      assert entries[..i + 1][..i] == entries[..i];
      files := files + [RecordFor(i + 1, entries[i], probe)];
    }
    assert entries[..|entries|] == entries;
  }

  /** `entry` is the joined path of some file or link of the listing. */
  predicate ScannedAs(dir: string, items: seq<ListedItem>, entry: string)
  {
    exists j :: 0 <= j < |items| && Scanned(items[j]) && entry == PosixPath.Join(dir, items[j].name)
  }

  /** The listing positions of the files and links, in increasing order. */
  function ScannedPositions(items: seq<ListedItem>): (pos: seq<nat>)
    ensures forall k :: 0 <= k < |pos| ==> pos[k] < |items| && Scanned(items[pos[k]])
    ensures forall k, l :: 0 <= k < l < |pos| ==> pos[k] < pos[l]
    ensures forall j :: 0 <= j < |items| && Scanned(items[j]) ==> j in pos
  {
    if items == [] then []
    else
      var n := |items| - 1;
      var prev := ScannedPositions(items[..n]);
      assert forall k :: 0 <= k < |prev| ==> items[prev[k]] == items[..n][prev[k]];
      prev + (if Scanned(items[n]) then [n] else [])
  }

  /** The k-th entry is the joined path of the k-th file or link of the listing. */
  lemma {:induction false} EntriesFollowPositions(dir: string, items: seq<ListedItem>)
    ensures var entries := SelectEntries(dir, items);
      var pos := ScannedPositions(items);
      |entries| == |pos|
      && forall k :: 0 <= k < |entries| ==> entries[k] == PosixPath.Join(dir, items[pos[k]].name)
  {
    if items != [] {
      var n := |items| - 1;
      EntriesFollowPositions(dir, items[..n]);
      var entries := SelectEntries(dir, items);
      var before := SelectEntries(dir, items[..n]);
      var pos := ScannedPositions(items);
      var prev := ScannedPositions(items[..n]);
      forall k | 0 <= k < |before| ensures entries[k] == PosixPath.Join(dir, items[pos[k]].name) {
        assert entries[k] == before[k] && pos[k] == prev[k];
        assert items[prev[k]] == items[..n][prev[k]];
      }
    }
  }

  /**
   * Exactly the files and links are scanned, in listing order, each under its
   * joined path: the entries are the listing filtered by `Scanned`.
   */
  lemma {:induction false} EntriesAreScannedItems(dir: string, items: seq<ListedItem>)
    ensures var entries := SelectEntries(dir, items);
      && (forall k :: 0 <= k < |entries| ==> ScannedAs(dir, items, entries[k]))
      && (forall j :: 0 <= j < |items| && Scanned(items[j]) ==> PosixPath.Join(dir, items[j].name) in entries)
    ensures var entries := SelectEntries(dir, items);
      var pos := ScannedPositions(items);
      && |entries| == |pos|
      && (forall k :: 0 <= k < |entries| ==> entries[k] == PosixPath.Join(dir, items[pos[k]].name))
      && (forall k, l :: 0 <= k < l < |pos| ==> pos[k] < pos[l])
      && (forall j :: 0 <= j < |items| ==> (Scanned(items[j]) <==> j in pos))
  {
    EntriesFollowPositions(dir, items);
    PositionsGiveMembership(dir, items, SelectEntries(dir, items), ScannedPositions(items));
  }

  /** Entries that follow the scanned positions hold exactly the scanned items. */
  lemma PositionsGiveMembership(dir: string, items: seq<ListedItem>, entries: seq<string>, pos: seq<nat>)
    requires |entries| == |pos|
    requires forall k :: 0 <= k < |pos| ==> pos[k] < |items| && Scanned(items[pos[k]])
    requires forall j :: 0 <= j < |items| && Scanned(items[j]) ==> j in pos
    requires forall k :: 0 <= k < |entries| ==> entries[k] == PosixPath.Join(dir, items[pos[k]].name)
    ensures forall k :: 0 <= k < |entries| ==> ScannedAs(dir, items, entries[k])
    ensures forall j :: 0 <= j < |items| && Scanned(items[j]) ==> PosixPath.Join(dir, items[j].name) in entries
  {
    forall k | 0 <= k < |entries|
      ensures ScannedAs(dir, items, entries[k])
    {
      var j := pos[k];
      assert 0 <= j < |items|;
      assert Scanned(items[j]) && entries[k] == PosixPath.Join(dir, items[j].name);
    }
    forall j | 0 <= j < |items| && Scanned(items[j]) ensures PosixPath.Join(dir, items[j].name) in entries {
      var k :| 0 <= k < |pos| && pos[k] == j;
      assert entries[k] == PosixPath.Join(dir, items[j].name);
    }
  }

  /** Every file or link in the listing is counted: `total_files` is the number of such items. */
  lemma {:induction false} TotalIsScannedCount(dir: string, items: seq<ListedItem>)
    ensures |SelectEntries(dir, items)| == |set j | 0 <= j < |items| && Scanned(items[j])|
  {
    if items != [] {
      var n := |items| - 1;
      TotalIsScannedCount(dir, items[..n]);
      var before := set j | 0 <= j < n && Scanned(items[..n][j]);
      var now := set j | 0 <= j < |items| && Scanned(items[j]);
      if Scanned(items[n]) {
        assert now == before + {n};
      } else {
        assert now == before;
      }
    }
  }

  /**
   * A successful scan numbers its records 1..n in entry order, reports n as
   * `total_files`, and keeps a record for every entry even when its own stat
   * failed: a failing collector never shortens the list.
   */
  lemma ScanNumbering(dir: string, env: ScanEnvironment)
    requires ScanSpec(dir, env).Some?
    ensures var r := ScanSpec(dir, env).value;
      && r.info.totalFiles == |r.files| == |SelectEntries(dir, env.listing.value)|
      && (forall k :: 0 <= k < |r.files| ==> r.files[k].scanOrder == k + 1)
      && (forall k :: 0 <= k < |r.files| ==>
            (r.files[k].standard.MetadataError? <==> env.probe(SelectEntries(dir, env.listing.value)[k]).standard.stat.None?))
  {
    var entries := SelectEntries(dir, env.listing.value);
    forall k | 0 <= k < |entries|
      ensures Records(entries, env.probe)[k] == RecordFor(k + 1, entries[k], env.probe)
    {
      RecordsAt(entries, env.probe, k);
    }
  }

  /** A listed name (never empty, never holding '/') is the basename recorded for its entry. */
  lemma RecordedBasenameIsListedName(dir: string, item: ListedItem, probe: string -> EntryProbe, order: nat)
    requires item.name != [] && '/' !in item.name
    requires probe(PosixPath.Join(dir, item.name)).standard.stat.Some?
    ensures RecordFor(order, PosixPath.Join(dir, item.name), probe).standard.basename == item.name
  {
    BasenameOfJoin(dir, item.name);
  }

  /** The schema documentation goes to `<database name without extension>_schema.json` unless named. */
  function SchemaFileName(dbPath: string, schemaArg: Option<string>): (name: string)
    ensures schemaArg.Some? && schemaArg.value != [] ==> name == schemaArg.value
    ensures (schemaArg.None? || schemaArg.value == []) ==> EndsWith(name, "_schema.json") && StartsWith(dbPath, name[..|name| - 12])
    ensures (schemaArg.None? || schemaArg.value == []) ==> name == SplitExt(dbPath).0 + "_schema.json"
  {
    if schemaArg.Some? && schemaArg.value != [] then schemaArg.value
    else
      var base := SplitExt(dbPath).0;
      assert StartsWith(dbPath, base) by { assert dbPath == base + SplitExt(dbPath).1; }
      var name := base + "_schema.json";
      assert name[..|name| - 12] == base;
      name
  }

  /** For a database named `<stem>.<ext>` the default schema file is `<stem>_schema.json`. */
  lemma SchemaNameForDb(stem: string, ext: string)
    requires stem != [] && stem[|stem| - 1] != '.' && stem[|stem| - 1] != '/'
    requires ext != [] && '/' !in ext && '.' !in ext
    ensures SchemaFileName(stem + "." + ext, None) == stem + "_schema.json"
  {
    var p := stem + "." + ext;
    var dot := |stem|;
    assert p[dot] == '.';
    forall j | dot < j < |p| ensures p[j] != '.' && p[j] != '/' {
      assert p[j] == ext[j - dot - 1];
    }
    assert p[dot - 1] == stem[dot - 1];
    assert RFind(p, '.') == dot;
    assert RFind(p, '/') < dot - 1;
    assert p[..dot] == stem;
  }
}
