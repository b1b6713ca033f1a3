/**
 * `insert_scan_data_to_db` (dirscans/build_lustre_json.py): the scan results
 * written into the relational schema of `create_database_schema`, with the
 * SQLite engine replaced by in-memory tables (`RelationalTables`). This module
 * says which columns each record fills.
 */
module ScanDatabase {
  import opened Wrappers
  import opened RelationalTables
  import opened StandardMetadata
  import opened LustreMetadata
  import opened Scan

  /** The `files` columns after `scan_id`; a column is `None` (NULL) when the record lacks that key. */
  datatype FileColumns = FileColumns(
    scanOrder: nat,
    path: Option<string>, basename: Option<string>, sizeBytes: Option<nat>,
    sizeHuman: Option<SizeText>, fileType: Option<string>,
    symlinkTarget: Option<string>, errorMessage: Option<string>)

  /** The `lustre_metadata` columns after the foreign key. */
  datatype LustreColumns = LustreColumns(
    stripeInfoRaw: Option<string>,
    stripeCount: Option<StripeValue>, stripeSize: Option<StripeValue>,
    stripeOffset: Option<StripeValue>, pool: Option<StripeValue>,
    layoutRaw: Option<string>,
    layoutYaml: Option<string>,          // the JSON text of the parsed layout, kept as its YAML source
    ostIndices: Option<seq<nat>>,        // the JSON list, NULL when empty
    fid: Option<string>,
    componentCount: Option<nat>,
    components: Option<seq<Component>>,
    filesystemInfo: Option<string>,
    userQuota: Option<string>)

  /** The columns of a child row after `file_id`. */
  datatype ChildData =
    | PermissionsData(permissions: Permissions)
    | OwnershipData(ownership: Ownership)
    | TimestampsData(times: Times)
    | InodeData(inode: Inode)
    | ChecksumsData(checksums: Checksums)
    | LustreData(lustre: LustreColumns)
    | XattrData(xattrs: XattrRecord)
    | AclData(acl: AclRecord)

  /** The `files` columns of a record: the standard metadata's keys, or only its error. */
  function FileColumnsOf(rec: FileRecord): (c: FileColumns)
    ensures c.scanOrder == rec.scanOrder
    ensures c.errorMessage.Some? <==> rec.standard.MetadataError?
    ensures c.path.Some? <==> rec.standard.Metadata?
    ensures rec.standard.Metadata? ==> c.sizeBytes == Some(rec.standard.sizeBytes) && c.fileType == Some(TypeLabel(rec.standard.fileType))
  {
    match rec.standard
    case MetadataError(e) => FileColumns(rec.scanOrder, None, None, None, None, None, None, Some(e))
    case Metadata(path, base, size, human, t, _, _, _, _, link, _) =>
      FileColumns(rec.scanOrder, Some(path), Some(base), Some(size), Some(human), Some(TypeLabel(t)),
                  if link.Some? then link.value else None, None)
  }

  /** `stripe_parsed.get(key)`. */
  function StripeColumn(parsed: Option<StripeData>, key: string): Option<StripeValue>
  {
    if parsed.Some? && key in parsed.value then Some(parsed.value[key]) else None
  }

  /**
   * The `lustre_metadata` row: the JSON-encoded columns (`layout_yaml`,
   * `ost_indices`) are NULL when the value is falsy, as the insert's
   * `if ... else None` makes them.
   */
  function LustreColumnsOf(r: LustreRecord): LustreColumns
  {
    LustreColumns(
      r.stripeInfoRaw,
      StripeColumn(r.stripeParsed, CountKey), StripeColumn(r.stripeParsed, SizeKey),
      StripeColumn(r.stripeParsed, OffsetKey), StripeColumn(r.stripeParsed, PoolKey),
      if r.layout.Some? && r.layout.value.LayoutRaw? then Some(r.layout.value.text) else None,
      if r.layout.Some? && r.layout.value.LayoutYaml? && r.layout.value.truthy then Some(r.layout.value.source) else None,
      if r.ostIndices.Some? && r.ostIndices.value != [] then r.ostIndices else None,
      r.fid, r.componentCount, r.components, r.filesystemInfo, r.userQuota)
  }

  /**
   * The sub-dict a child table is filled from, when it is non-empty. The four
   * standard sub-dicts exist exactly when stat succeeded; `checksums` is a
   * three-key dict (never empty) whenever present; the other three are dicts
   * that may be empty.
   */
  function SubRecord(rec: FileRecord, tn: ChildTable): Option<ChildData>
  {
    var std := rec.standard;
    match tn
    case PermissionsTable => if std.Metadata? then Some(PermissionsData(std.permissions)) else None
    case OwnershipTable => if std.Metadata? then Some(OwnershipData(std.ownership)) else None
    case TimestampsTable => if std.Metadata? then Some(TimestampsData(std.timestamps)) else None
    case InodesTable => if std.Metadata? then Some(InodeData(std.inode)) else None
    case ChecksumsTable =>
      if std.Metadata? && std.checksums.Some? then Some(ChecksumsData(std.checksums.value)) else None
    case LustreTable => if !rec.lustre.IsEmpty() then Some(LustreData(LustreColumnsOf(rec.lustre))) else None
    case XattrTable => if !rec.xattrs.IsEmpty() then Some(XattrData(rec.xattrs)) else None
    case AclTable => if !rec.acl.IsEmpty() then Some(AclData(rec.acl)) else None
  }

  const AllChildTables: set<ChildTable> :=
    {PermissionsTable, OwnershipTable, TimestampsTable, InodesTable, ChecksumsTable, LustreTable, XattrTable, AclTable}

  lemma AllChildTablesListed()
    ensures forall tn :: tn in AllChildTables
  {
    forall tn ensures tn in AllChildTables {
      assert tn == TableAt(Position(tn));
    }
  }

  /** What a record writes: its `files` columns and its non-empty sub-dicts, by table. */
  function Plan(rec: FileRecord): (p: Planned<FileColumns, ChildData>)
    ensures p.file == FileColumnsOf(rec)
    ensures forall tn :: (tn in p.subs <==> SubRecord(rec, tn).Some?)
    ensures forall tn :: tn in p.subs ==> SubRecord(rec, tn) == Some(p.subs[tn])
  {
    var subs := map tn | tn in AllChildTables && SubRecord(rec, tn).Some? :: SubRecord(rec, tn).value;
    AllChildTablesListed();
    Planned(FileColumnsOf(rec), subs)
  }

  /** The plans of the records, in order. */
  function PlanAll(recs: seq<FileRecord>): (ps: seq<Planned<FileColumns, ChildData>>)
    ensures |ps| == |recs|
  {
    if recs == [] then [] else PlanAll(recs[..|recs| - 1]) + [Plan(recs[|recs| - 1])]
  }

  lemma {:induction false} PlanAllAt(recs: seq<FileRecord>, k: nat)
    requires k < |recs|
    ensures PlanAll(recs)[k] == Plan(recs[k])
  {
    if k < |recs| - 1 {
      PlanAllAt(recs[..|recs| - 1], k);
    }
  }

  type DbTables = Tables<ScanInfo, FileColumns, ChildData>

  /** `insert_scan_data_to_db(cursor, results)` as a function of the tables before it. */
  function InsertResults(t: DbTables, results: ScanResults): DbTables
  {
    InsertSpec(t, results.info, PlanAll(results.files))
  }

  /** `insert_scan_data_to_db(cursor, results)`. */
  method InsertScanData(db: Store<ScanInfo, FileColumns, ChildData>, results: ScanResults)
    modifies db
    ensures db.Snapshot() == InsertResults(old(db.Snapshot()), results)
    ensures old(db.Valid()) ==> db.Valid()
  {
    ghost var before := db.Snapshot();
    var scanId := db.InsertScan(results.info);
    ghost var start := db.Snapshot();
    var i := 0;
    while i < |results.files|
      invariant 0 <= i <= |results.files|
      invariant db.Snapshot() == InsertFiles(start, scanId, PlanAll(results.files[..i]))
    {
      assert results.files[..i + 1][..i] == results.files[..i];
      db.InsertFileRecord(scanId, Plan(results.files[i]));
      i := i + 1;
    }
    assert results.files[..i] == results.files;
    if before.Valid() {
      InsertKeepsValid(before, results.info, PlanAll(results.files));
    }
  }

  // ---------------------------------------------------------------------
  // What the insert stores for each record
  // ---------------------------------------------------------------------

  /**
   * The k-th record of the results gets the `files` row with id (next free id
   * + k), pointing at the new scan, holding the record's columns.
   */
  lemma RecordFileRow(t: DbTables, results: ScanResults, k: nat)
    requires k < |results.files|
    ensures var u := InsertResults(t, results);
      var scanId := NextId(ScanIds(t.scans));
      |u.files| == |t.files| + |results.files| &&
      u.files[|t.files| + k] == Row(NextId(Ids(t.files)) + k, scanId, FileColumnsOf(results.files[k]))
  {
    InsertSpecFileRow(t, results.info, PlanAll(results.files), k);
    PlanAllAt(results.files, k);
  }

  /**
   * Child table `tn` gains, in record order, one row per record whose sub-dict
   * for it is non-empty, holding that sub-dict and the record's `files` id:
   * the pair (file id of record k, d) is among the new rows exactly when
   * record k's sub-dict is `d`.
   */
  lemma RecordChildRow(t: DbTables, results: ScanResults, tn: ChildTable, k: nat, d: ChildData)
    requires k < |results.files|
    ensures var u := InsertResults(t, results);
      |t.Rows(tn)| <= |u.Rows(tn)| &&
      ((NextId(Ids(t.files)) + k, d) in Payload(u.Rows(tn)[|t.Rows(tn)|..]) <==> SubRecord(results.files[k], tn) == Some(d))
  {
    InsertSpecChildRow(t, results.info, PlanAll(results.files), tn, k, d);
    PlanAllAt(results.files, k);
  }

  /**
   * For a record the scan produced, the four standard sub-dicts exist exactly
   * when stat succeeded; `checksums` (three keys, so never empty) exactly for
   * non-empty regular files; the Lustre, xattr and ACL dicts exactly when a
   * collector found something.
   */
  lemma SubRecordPresence(order: nat, path: string, probe: string -> EntryProbe, tn: ChildTable)
    ensures var rec := RecordFor(order, path, probe);
      && (tn in {PermissionsTable, OwnershipTable, TimestampsTable, InodesTable} ==>
            (SubRecord(rec, tn).Some? <==> probe(path).standard.stat.Some?))
      && (tn == ChecksumsTable ==>
            (SubRecord(rec, tn).Some? <==> probe(path).standard.stat.Some? && rec.standard.fileType == Regular && rec.standard.sizeBytes > 0))
      && (tn == LustreTable ==> (SubRecord(rec, tn).Some? <==> !rec.lustre.IsEmpty()))
      && (tn == XattrTable ==> (SubRecord(rec, tn).Some? <==> !rec.xattrs.IsEmpty()))
      && (tn == AclTable ==> (SubRecord(rec, tn).Some? <==> !rec.acl.IsEmpty()))
  {
  }

  /** A record whose stat failed and whose other collectors found nothing writes only a `files` row with its error. */
  lemma ErrorOnlyRecordHasNoChildRows(rec: FileRecord)
    requires rec.standard.MetadataError? && rec.lustre.IsEmpty() && rec.xattrs.IsEmpty() && rec.acl.IsEmpty()
    ensures Plan(rec).subs == map[]
    ensures Plan(rec).file.errorMessage == Some(rec.standard.error)
  {
  }
}
