/**
 * The table layer behind `insert_scan_data_to_db` (dirscans/build_lustre_json.py):
 * a `scan_info` table, a `files` table whose rows point at a scan through
 * `scan_id`, and eight child tables whose rows point at a file through
 * `file_id`. Every table has an `INTEGER PRIMARY KEY`, so SQLite gives an
 * inserted row one more than the largest id present (1 in an empty table),
 * and `cursor.lastrowid` is that id. This layer never looks inside a row's
 * other columns: they are type parameters here, and the concrete columns are
 * defined in `ScanDatabase`.
 */
module RelationalTables {

  /** A `scan_info` row: its id and its other columns. */
  datatype ScanRow<S> = ScanRow(id: nat, columns: S)

  /** A row of `files` or of a child table: its id, the id of the row it belongs to, and its other columns. */
  datatype Row<C> = Row(id: nat, parent: nat, columns: C)

  /** The tables that hang off `files` through `file_id`, in the order rows are written. */
  datatype ChildTable =
    | PermissionsTable | OwnershipTable | TimestampsTable | InodesTable
    | ChecksumsTable | LustreTable | XattrTable | AclTable

  const ChildTableCount := 8

  /** The child table written `i`-th (from 0). */
  function TableAt(i: nat): ChildTable
    requires i < ChildTableCount
  {
    if i == 0 then PermissionsTable
    else if i == 1 then OwnershipTable
    else if i == 2 then TimestampsTable
    else if i == 3 then InodesTable
    else if i == 4 then ChecksumsTable
    else if i == 5 then LustreTable
    else if i == 6 then XattrTable
    else AclTable
  }

  /** The position of a child table in the write order. */
  function Position(tn: ChildTable): (i: nat)
    ensures i < ChildTableCount && TableAt(i) == tn
  {
    match tn
    case PermissionsTable => 0
    case OwnershipTable => 1
    case TimestampsTable => 2
    case InodesTable => 3
    case ChecksumsTable => 4
    case LustreTable => 5
    case XattrTable => 6
    case AclTable => 7
  }

  /**
   * What one file record writes: its `files` columns, and the columns of each
   * child table whose sub-dict is non-empty (a table absent from `subs` gets
   * no row).
   */
  datatype Planned<F, D> = Planned(file: F, subs: map<ChildTable, D>)

  /** The contents of every table. */
  datatype Tables<S, F, D> = Tables(
    scans: seq<ScanRow<S>>,
    files: seq<Row<F>>,
    permissions: seq<Row<D>>,
    ownership: seq<Row<D>>,
    timestamps: seq<Row<D>>,
    inodes: seq<Row<D>>,
    checksums: seq<Row<D>>,
    lustre: seq<Row<D>>,
    xattrs: seq<Row<D>>,
    acls: seq<Row<D>>)
  {
    /** The rows of one child table. */
    function Rows(tn: ChildTable): seq<Row<D>>
    {
      match tn
      case PermissionsTable => permissions
      case OwnershipTable => ownership
      case TimestampsTable => timestamps
      case InodesTable => inodes
      case ChecksumsTable => checksums
      case LustreTable => lustre
      case XattrTable => xattrs
      case AclTable => acls
    }

    /** The same tables with one child table replaced. */
    function WithRows(tn: ChildTable, rows: seq<Row<D>>): Tables<S, F, D>
    {
      match tn
      case PermissionsTable => this.(permissions := rows)
      case OwnershipTable => this.(ownership := rows)
      case TimestampsTable => this.(timestamps := rows)
      case InodesTable => this.(inodes := rows)
      case ChecksumsTable => this.(checksums := rows)
      case LustreTable => this.(lustre := rows)
      case XattrTable => this.(xattrs := rows)
      case AclTable => this.(acls := rows)
    }

    /** Ids increase within each table and every foreign key names an existing row. */
    predicate Valid()
    {
      && Increasing(ScanIds(scans))
      && Increasing(Ids(files))
      && (forall k :: 0 <= k < |files| ==> files[k].parent in ScanIds(scans))
      && (forall tn :: Increasing(Ids(Rows(tn))))
      && (forall tn, k :: 0 <= k < |Rows(tn)| ==> Rows(tn)[k].parent in Ids(files))
    }
  }

  /** The tables right after `CREATE TABLE`: all empty. */
  function EmptyTables<S, F, D>(): (t: Tables<S, F, D>)
    ensures t.scans == [] && t.files == [] && forall tn :: t.Rows(tn) == []
    ensures t.Valid()
  {
    Tables([], [], [], [], [], [], [], [], [], [])
  }

  predicate Increasing(ids: seq<nat>)
  {
    forall j, k :: 0 <= j < k < |ids| ==> ids[j] < ids[k]
  }

  function ScanIds<S>(rows: seq<ScanRow<S>>): (ids: seq<nat>)
    ensures |ids| == |rows|
  {
    if rows == [] then [] else ScanIds(rows[..|rows| - 1]) + [rows[|rows| - 1].id]
  }

  function Ids<C>(rows: seq<Row<C>>): (ids: seq<nat>)
    ensures |ids| == |rows|
  {
    if rows == [] then [] else Ids(rows[..|rows| - 1]) + [rows[|rows| - 1].id]
  }

  /** The ids of the rows, position by position. */
  lemma {:induction false} IdsAt<C>(rows: seq<Row<C>>, k: nat)
    requires k < |rows|
    ensures Ids(rows)[k] == rows[k].id
  {
    if k < |rows| - 1 {
      IdsAt(rows[..|rows| - 1], k);
    }
  }

  lemma {:induction false} ScanIdsAt<S>(rows: seq<ScanRow<S>>, k: nat)
    requires k < |rows|
    ensures ScanIds(rows)[k] == rows[k].id
  {
    if k < |rows| - 1 {
      ScanIdsAt(rows[..|rows| - 1], k);
    }
  }

  /** The id SQLite gives the next row: one more than the largest (here: the last) id, or 1. */
  function NextId(ids: seq<nat>): (id: nat)
    ensures id >= 1
  {
    if ids == [] then 1 else ids[|ids| - 1] + 1
  }

  /** In increasing ids the next id is above every id present, so it is fresh. */
  lemma NextIdAbove(ids: seq<nat>)
    requires Increasing(ids)
    ensures forall k :: 0 <= k < |ids| ==> ids[k] < NextId(ids)
  {
  }

  /** Increasing ids followed by a larger id stay increasing. */
  lemma IncreasingAppend(ids: seq<nat>, id: nat)
    requires Increasing(ids) && forall k :: 0 <= k < |ids| ==> ids[k] < id
    ensures Increasing(ids + [id])
  {
  }

  lemma IdsAppend<C>(rows: seq<Row<C>>, row: Row<C>)
    ensures Ids(rows + [row]) == Ids(rows) + [row.id]
  {
    assert (rows + [row])[..|rows|] == rows;
  }

  // ---------------------------------------------------------------------
  // The insert, as a function of the tables before it
  // ---------------------------------------------------------------------

  /** The row a record adds to child table `tn`: one exactly when its sub-dict is non-empty. */
  function Added<F, D>(rows: seq<Row<D>>, tn: ChildTable, fileId: nat, p: Planned<F, D>): (added: seq<Row<D>>)
    ensures |added| <= 1
  {
    if tn in p.subs then [Row(NextId(Ids(rows)), fileId, p.subs[tn])] else []
  }

  /** One `if sub: cursor.execute(INSERT ...)` of a child table. */
  function AppendChild<S, F, D>(t: Tables<S, F, D>, tn: ChildTable, fileId: nat, p: Planned<F, D>): Tables<S, F, D>
  {
    t.WithRows(tn, t.Rows(tn) + Added(t.Rows(tn), tn, fileId, p))
  }

  /** The child inserts of the first `j` tables, in write order. */
  function AppendChildren<S, F, D>(t: Tables<S, F, D>, j: nat, fileId: nat, p: Planned<F, D>): Tables<S, F, D>
    requires j <= ChildTableCount
  {
    if j == 0 then t
    else AppendChild(AppendChildren(t, j - 1, fileId, p), TableAt(j - 1), fileId, p)
  }

  /** The body of the loop over `results['files']`: the `files` row, then each child table in turn. */
  function InsertFile<S, F, D>(t: Tables<S, F, D>, scanId: nat, p: Planned<F, D>): Tables<S, F, D>
  {
    var fileId := NextId(Ids(t.files));
    AppendChildren(t.(files := t.files + [Row(fileId, scanId, p.file)]), ChildTableCount, fileId, p)
  }

  /** The loop over the records, in order. */
  function InsertFiles<S, F, D>(t: Tables<S, F, D>, scanId: nat, ps: seq<Planned<F, D>>): Tables<S, F, D>
  {
    if ps == [] then t
    else InsertFile(InsertFiles(t, scanId, ps[..|ps| - 1]), scanId, ps[|ps| - 1])
  }

  /** The whole insert: one `scan_info` row, then every record under its id. */
  function InsertSpec<S, F, D>(t: Tables<S, F, D>, scan: S, ps: seq<Planned<F, D>>): Tables<S, F, D>
  {
    var scanId := NextId(ScanIds(t.scans));
    InsertFiles(t.(scans := t.scans + [ScanRow(scanId, scan)]), scanId, ps)
  }

  // ---------------------------------------------------------------------
  // The tables as a mutable store
  // ---------------------------------------------------------------------

  /** An open database: one sequence of rows per table, appended to by the inserts. */
  class Store<S, F, D> {
    var scanInfo: seq<ScanRow<S>>
    var files: seq<Row<F>>
    var filePermissions: seq<Row<D>>
    var fileOwnership: seq<Row<D>>
    var fileTimestamps: seq<Row<D>>
    var fileInodes: seq<Row<D>>
    var fileChecksums: seq<Row<D>>
    var lustreMetadata: seq<Row<D>>
    var extendedAttributes: seq<Row<D>>
    var aclInfo: seq<Row<D>>

    function Snapshot(): Tables<S, F, D>
      reads this
    {
      Tables(scanInfo, files, filePermissions, fileOwnership, fileTimestamps, fileInodes,
             fileChecksums, lustreMetadata, extendedAttributes, aclInfo)
    }

    predicate Valid()
      reads this
    {
      Snapshot().Valid()
    }

    /** A fresh database after `create_database_schema`: every table empty. */
    constructor ()
      ensures Snapshot() == EmptyTables() && Valid()
    {
      scanInfo, files := [], [];
      filePermissions, fileOwnership, fileTimestamps, fileInodes := [], [], [], [];
      fileChecksums, lustreMetadata, extendedAttributes, aclInfo := [], [], [], [];
    }

    /** `INSERT INTO scan_info`; the new row's id is `cursor.lastrowid`. */
    method InsertScan(scan: S) returns (scanId: nat)
      modifies this
      ensures scanId == NextId(ScanIds(old(scanInfo)))
      ensures Snapshot() == old(Snapshot()).(scans := old(scanInfo) + [ScanRow(scanId, scan)])
    {
      scanId := NextId(ScanIds(scanInfo));
      scanInfo := scanInfo + [ScanRow(scanId, scan)];
    }

    /** `INSERT INTO <child table>` with the current `file_id`, when the sub-dict is non-empty. */
    method InsertChild(tn: ChildTable, fileId: nat, p: Planned<F, D>)
      modifies this
      ensures Snapshot() == AppendChild(old(Snapshot()), tn, fileId, p)
    {
      if tn !in p.subs {
        return;
      }
      var d := p.subs[tn];
      match tn
      case PermissionsTable =>
        filePermissions := filePermissions + [Row(NextId(Ids(filePermissions)), fileId, d)];
      case OwnershipTable =>
        fileOwnership := fileOwnership + [Row(NextId(Ids(fileOwnership)), fileId, d)];
      case TimestampsTable =>
        fileTimestamps := fileTimestamps + [Row(NextId(Ids(fileTimestamps)), fileId, d)];
      case InodesTable =>
        fileInodes := fileInodes + [Row(NextId(Ids(fileInodes)), fileId, d)];
      case ChecksumsTable =>
        fileChecksums := fileChecksums + [Row(NextId(Ids(fileChecksums)), fileId, d)];
      case LustreTable =>
        lustreMetadata := lustreMetadata + [Row(NextId(Ids(lustreMetadata)), fileId, d)];
      case XattrTable =>
        extendedAttributes := extendedAttributes + [Row(NextId(Ids(extendedAttributes)), fileId, d)];
      case AclTable =>
        aclInfo := aclInfo + [Row(NextId(Ids(aclInfo)), fileId, d)];
    }

    /** One pass of the loop over `results['files']`: the `files` row, then the eight child inserts. */
    method InsertFileRecord(scanId: nat, p: Planned<F, D>)
      modifies this
      ensures Snapshot() == InsertFile(old(Snapshot()), scanId, p)
    {
      var fileId := NextId(Ids(files));
      files := files + [Row(fileId, scanId, p.file)];
      ghost var withFile := Snapshot();
      for j := 0 to ChildTableCount
        invariant Snapshot() == AppendChildren(withFile, j, fileId, p)
      {
        InsertChild(TableAt(j), fileId, p);
      }
    }
  }

  // ---------------------------------------------------------------------
  // Properties of the insert
  // ---------------------------------------------------------------------

  /** Appending to one child table changes that table only. */
  lemma AppendChildEffect<S, F, D>(t: Tables<S, F, D>, tn: ChildTable, fileId: nat, p: Planned<F, D>)
    ensures var u := AppendChild(t, tn, fileId, p);
      && u.scans == t.scans && u.files == t.files
      && u.Rows(tn) == t.Rows(tn) + Added(t.Rows(tn), tn, fileId, p)
      && forall other :: other != tn ==> u.Rows(other) == t.Rows(other)
  {
  }

  /** Each of the first `j` tables gains its row; the others are untouched. */
  lemma {:induction false} AppendChildrenEffect<S, F, D>(t: Tables<S, F, D>, j: nat, fileId: nat, p: Planned<F, D>, tn: ChildTable)
    requires j <= ChildTableCount
    ensures var u := AppendChildren(t, j, fileId, p);
      && u.scans == t.scans && u.files == t.files
      && u.Rows(tn) == t.Rows(tn) + (if Position(tn) < j then Added(t.Rows(tn), tn, fileId, p) else [])
  {
    if j > 0 {
      var prev := AppendChildren(t, j - 1, fileId, p);
      AppendChildrenEffect(t, j - 1, fileId, p, tn);
      AppendChildEffect(prev, TableAt(j - 1), fileId, p);
      if Position(tn) == j - 1 {
        assert prev.Rows(tn) == t.Rows(tn);
      }
    }
  }

  /** One record adds one `files` row and, per child table, one row exactly when its sub-dict is non-empty. */
  lemma InsertFileEffect<S, F, D>(t: Tables<S, F, D>, scanId: nat, p: Planned<F, D>, tn: ChildTable)
    ensures var u := InsertFile(t, scanId, p);
      var fileId := NextId(Ids(t.files));
      && u.scans == t.scans
      && u.files == t.files + [Row(fileId, scanId, p.file)]
      && u.Rows(tn) == t.Rows(tn) + Added(t.Rows(tn), tn, fileId, p)
  {
    var fileId := NextId(Ids(t.files));
    AppendChildrenEffect(t.(files := t.files + [Row(fileId, scanId, p.file)]), ChildTableCount, fileId, p, tn);
  }

  /** Every table before an insert is a prefix of the table after it, and the scans are untouched. */
  lemma {:induction false} InsertFilesKeepsRows<S, F, D>(t: Tables<S, F, D>, scanId: nat, ps: seq<Planned<F, D>>, tn: ChildTable)
    ensures var u := InsertFiles(t, scanId, ps);
      && u.scans == t.scans
      && |u.files| == |t.files| + |ps| && u.files[..|t.files|] == t.files
      && |t.Rows(tn)| <= |u.Rows(tn)| && u.Rows(tn)[..|t.Rows(tn)|] == t.Rows(tn)
  {
    if ps != [] {
      var prev := InsertFiles(t, scanId, ps[..|ps| - 1]);
      InsertFilesKeepsRows(t, scanId, ps[..|ps| - 1], tn);
      InsertFileEffect(prev, scanId, ps[|ps| - 1], tn);
      var u := InsertFiles(t, scanId, ps);
      assert u.files[..|t.files|] == prev.files[..|t.files|];
      assert u.Rows(tn)[..|t.Rows(tn)|] == prev.Rows(tn)[..|t.Rows(tn)|];
    }
  }

  /** Each record takes the next `files` id: after `n` records the next free id has moved on by `n`. */
  lemma {:induction false} NextFileIdAfter<S, F, D>(t: Tables<S, F, D>, scanId: nat, ps: seq<Planned<F, D>>)
    ensures NextId(Ids(InsertFiles(t, scanId, ps).files)) == NextId(Ids(t.files)) + |ps|
  {
    if ps != [] {
      var n := |ps| - 1;
      var prev := InsertFiles(t, scanId, ps[..n]);
      NextFileIdAfter(t, scanId, ps[..n]);
      InsertFileEffect(prev, scanId, ps[n], AclTable);
    }
  }

  /** The new `files` rows are the records in order, with consecutive ids from the next free id, all pointing at the scan. */
  lemma {:induction false} InsertFilesRows<S, F, D>(t: Tables<S, F, D>, scanId: nat, ps: seq<Planned<F, D>>, k: nat)
    requires k < |ps|
    ensures var u := InsertFiles(t, scanId, ps);
      |u.files| == |t.files| + |ps| &&
      u.files[|t.files| + k] == Row(NextId(Ids(t.files)) + k, scanId, ps[k].file)
  {
    var n := |ps| - 1;
    var prev := InsertFiles(t, scanId, ps[..n]);
    InsertFilesKeepsRows(t, scanId, ps[..n], AclTable);
    if k < n {
      InsertFilesRows(t, scanId, ps[..n], k);
    } else {
      NextFileIdAfter(t, scanId, ps[..n]);
    }
    FilesRowsExtend(t, prev, InsertFiles(t, scanId, ps), scanId, ps, n, k);
  }

  /** The induction step of `InsertFilesRows`, stated over the tables before and after the last record. */
  lemma FilesRowsExtend<S, F, D>(t: Tables<S, F, D>, prev: Tables<S, F, D>, u: Tables<S, F, D>,
                                 scanId: nat, ps: seq<Planned<F, D>>, n: nat, k: nat)
    requires n == |ps| - 1 && k <= n
    requires u == InsertFile(prev, scanId, ps[n])
    requires |prev.files| == |t.files| + n
    requires k < n ==> prev.files[|t.files| + k] == Row(NextId(Ids(t.files)) + k, scanId, ps[..n][k].file)
    requires k == n ==> NextId(Ids(prev.files)) == NextId(Ids(t.files)) + n
    ensures |u.files| == |t.files| + |ps|
    ensures u.files[|t.files| + k] == Row(NextId(Ids(t.files)) + k, scanId, ps[k].file)
  {
    InsertFileEffect(prev, scanId, ps[n], AclTable);
    if k < n {
      assert ps[..n][k] == ps[k];
    }
  }

  /** The (file id, columns) pair one record gives a child table, if any. */
  function Own<F, D>(tn: ChildTable, p: Planned<F, D>, fileId: nat): seq<(nat, D)>
  {
    if tn in p.subs then [(fileId, p.subs[tn])] else []
  }

  /** The (file id, columns) pairs a child table should gain, record by record. */
  function Expected<F, D>(tn: ChildTable, ps: seq<Planned<F, D>>, firstFileId: nat): (pairs: seq<(nat, D)>)
    ensures |pairs| <= |ps|
  {
    if ps == [] then []
    else
      var n := |ps| - 1;
      Expected(tn, ps[..n], firstFileId) + Own(tn, ps[n], firstFileId + n)
  }

  /** The (file id, columns) pairs of some rows. */
  function Payload<D>(rows: seq<Row<D>>): (pairs: seq<(nat, D)>)
    ensures |pairs| == |rows|
  {
    if rows == [] then [] else Payload(rows[..|rows| - 1]) + [(rows[|rows| - 1].parent, rows[|rows| - 1].columns)]
  }

  lemma {:induction false} PayloadAppend<D>(a: seq<Row<D>>, b: seq<Row<D>>)
    ensures Payload(a + b) == Payload(a) + Payload(b)
  {
    if b != [] {
      var n := |b| - 1;
      PayloadAppend(a, b[..n]);
      assert (a + b)[..|a + b| - 1] == a + b[..n];
    } else {
      assert a + b == a;
    }
  }

  lemma SuffixOfAppend<T>(a: seq<T>, b: seq<T>, start: nat)
    requires start <= |a|
    ensures (a + b)[start..] == a[start..] + b
  {
  }

  /** One record extends the pairs of any suffix of a child table by its own pair. */
  lemma InsertFileChildStep<S, F, D>(t: Tables<S, F, D>, scanId: nat, p: Planned<F, D>, tn: ChildTable, start: nat)
    requires start <= |t.Rows(tn)|
    ensures var u := InsertFile(t, scanId, p);
      start <= |u.Rows(tn)| &&
      Payload(u.Rows(tn)[start..]) == Payload(t.Rows(tn)[start..]) + Own(tn, p, NextId(Ids(t.files)))
  {
    var fileId := NextId(Ids(t.files));
    InsertFileEffect(t, scanId, p, tn);
    var added := Added(t.Rows(tn), tn, fileId, p);
    SuffixOfAppend(t.Rows(tn), added, start);
    PayloadAppend(t.Rows(tn)[start..], added);
    assert Payload(added) == Own(tn, p, fileId);
  }

  /**
   * The rows a child table gains are exactly the non-empty sub-dicts of the
   * records, in record order, each carrying the id of its record's `files` row.
   */
  lemma {:induction false} InsertFilesChildRows<S, F, D>(t: Tables<S, F, D>, scanId: nat, ps: seq<Planned<F, D>>, tn: ChildTable)
    ensures var u := InsertFiles(t, scanId, ps);
      |t.Rows(tn)| <= |u.Rows(tn)| &&
      Payload(u.Rows(tn)[|t.Rows(tn)|..]) == Expected(tn, ps, NextId(Ids(t.files)))
  {
    if ps == [] {
      var rest := t.Rows(tn)[|t.Rows(tn)|..];
      assert rest == [];
      assert Payload(rest) == [];
    } else {
      var n := |ps| - 1;
      var prev := InsertFiles(t, scanId, ps[..n]);
      InsertFilesChildRows(t, scanId, ps[..n], tn);
      NextFileIdAfter(t, scanId, ps[..n]);
      var u := InsertFiles(t, scanId, ps);
      assert u == InsertFile(prev, scanId, ps[n]);
      InsertFileChildStep(prev, scanId, ps[n], tn, |t.Rows(tn)|);
      ChildRowsExtend(t, prev, u, scanId, ps, tn, n);
    }
  }

  /** The induction step of `InsertFilesChildRows`, stated over the payloads before and after the last record. */
  lemma ChildRowsExtend<S, F, D>(t: Tables<S, F, D>, prev: Tables<S, F, D>, u: Tables<S, F, D>,
                                 scanId: nat, ps: seq<Planned<F, D>>, tn: ChildTable, n: nat)
    requires n == |ps| - 1
    requires NextId(Ids(prev.files)) == NextId(Ids(t.files)) + n
    requires |t.Rows(tn)| <= |prev.Rows(tn)| <= |u.Rows(tn)|
    requires Payload(prev.Rows(tn)[|t.Rows(tn)|..]) == Expected(tn, ps[..n], NextId(Ids(t.files)))
    requires Payload(u.Rows(tn)[|t.Rows(tn)|..]) == Payload(prev.Rows(tn)[|t.Rows(tn)|..]) + Own(tn, ps[n], NextId(Ids(prev.files)))
    ensures Payload(u.Rows(tn)[|t.Rows(tn)|..]) == Expected(tn, ps, NextId(Ids(t.files)))
  {
    ExpectedStep(tn, ps, NextId(Ids(t.files)), n);
  }

  lemma ExpectedStep<F, D>(tn: ChildTable, ps: seq<Planned<F, D>>, f: nat, n: nat)
    requires n == |ps| - 1
    ensures Expected(tn, ps, f) == Expected(tn, ps[..n], f) + Own(tn, ps[n], f + n)
  {
  }

  /** A record contributes a row to a child table exactly when that sub-dict is non-empty, with those columns. */
  lemma {:induction false} ExpectedHasRecord<F, D>(tn: ChildTable, ps: seq<Planned<F, D>>, firstFileId: nat, k: nat, d: D)
    requires k < |ps|
    ensures (firstFileId + k, d) in Expected(tn, ps, firstFileId) <==> tn in ps[k].subs && ps[k].subs[tn] == d
  {
    var n := |ps| - 1;
    ExpectedIds(tn, ps[..n], firstFileId);
    if k < n {
      ExpectedHasRecord(tn, ps[..n], firstFileId, k, d);
      assert ps[..n][k] == ps[k];
    }
  }

  lemma {:induction false} ExpectedIds<F, D>(tn: ChildTable, ps: seq<Planned<F, D>>, firstFileId: nat)
    ensures forall pair :: pair in Expected(tn, ps, firstFileId) ==> firstFileId <= pair.0 < firstFileId + |ps|
  {
    if ps != [] {
      ExpectedIds(tn, ps[..|ps| - 1], firstFileId);
    }
  }

  /** One record keeps child table `tn` valid. */
  lemma ChildTableKeepsValid<S, F, D>(t: Tables<S, F, D>, scanId: nat, p: Planned<F, D>, tn: ChildTable)
    requires t.Valid()
    ensures var u := InsertFile(t, scanId, p);
      && Increasing(Ids(u.Rows(tn)))
      && forall k :: 0 <= k < |u.Rows(tn)| ==> u.Rows(tn)[k].parent in Ids(u.files)
  {
    var u := InsertFile(t, scanId, p);
    var fileId := NextId(Ids(t.files));
    InsertFileEffect(t, scanId, p, tn);
    IdsAppend(t.files, Row(fileId, scanId, p.file));
    var rows := t.Rows(tn);
    if tn in p.subs {
      var row := Row(NextId(Ids(rows)), fileId, p.subs[tn]);
      IdsAppend(rows, row);
      NextIdAbove(Ids(rows));
      IncreasingAppend(Ids(rows), row.id);
    } else {
      assert u.Rows(tn) == rows;
    }
    forall k | 0 <= k < |u.Rows(tn)| ensures u.Rows(tn)[k].parent in Ids(u.files) {
      if k < |rows| {
        assert u.Rows(tn)[k] == rows[k];
        var j :| 0 <= j < |t.files| && Ids(t.files)[j] == rows[k].parent;
        assert Ids(u.files)[j] == rows[k].parent;
      } else {
        assert u.Rows(tn)[k].parent == fileId == Ids(u.files)[|t.files|];
      }
    }
  }

  /** One record keeps the ids increasing and every foreign key resolvable. */
  lemma InsertFileKeepsValid<S, F, D>(t: Tables<S, F, D>, scanId: nat, p: Planned<F, D>)
    requires t.Valid() && scanId in ScanIds(t.scans)
    ensures InsertFile(t, scanId, p).Valid()
  {
    var u := InsertFile(t, scanId, p);
    var fileId := NextId(Ids(t.files));
    InsertFileEffect(t, scanId, p, AclTable);
    IdsAppend(t.files, Row(fileId, scanId, p.file));
    NextIdAbove(Ids(t.files));
    IncreasingAppend(Ids(t.files), fileId);
    forall tn ensures Increasing(Ids(u.Rows(tn))) {
      ChildTableKeepsValid(t, scanId, p, tn);
    }
    forall tn, k | 0 <= k < |u.Rows(tn)| ensures u.Rows(tn)[k].parent in Ids(u.files) {
      ChildTableKeepsValid(t, scanId, p, tn);
    }
    forall k | 0 <= k < |u.files| ensures u.files[k].parent in ScanIds(u.scans) {
      if k < |t.files| {
        assert u.files[k] == t.files[k];
      }
    }
  }

  lemma {:induction false} InsertFilesKeepsValid<S, F, D>(t: Tables<S, F, D>, scanId: nat, ps: seq<Planned<F, D>>)
    requires t.Valid() && scanId in ScanIds(t.scans)
    ensures InsertFiles(t, scanId, ps).Valid()
  {
    if ps != [] {
      var prev := InsertFiles(t, scanId, ps[..|ps| - 1]);
      InsertFilesKeepsValid(t, scanId, ps[..|ps| - 1]);
      InsertFilesKeepsRows(t, scanId, ps[..|ps| - 1], AclTable);
      InsertFileKeepsValid(prev, scanId, ps[|ps| - 1]);
    }
  }

  /** A whole insert keeps the ids increasing and every foreign key resolvable. */
  lemma InsertKeepsValid<S, F, D>(t: Tables<S, F, D>, scan: S, ps: seq<Planned<F, D>>)
    requires t.Valid()
    ensures InsertSpec(t, scan, ps).Valid()
  {
    var scanId := NextId(ScanIds(t.scans));
    var t0 := t.(scans := t.scans + [ScanRow(scanId, scan)]);
    assert ScanIds(t0.scans) == ScanIds(t.scans) + [scanId] by {
      assert t0.scans[..|t.scans|] == t.scans;
    }
    NextIdAbove(ScanIds(t.scans));
    IncreasingAppend(ScanIds(t.scans), scanId);
    assert forall tn :: t0.Rows(tn) == t.Rows(tn);
    assert t0.Valid();
    InsertFilesKeepsValid(t0, scanId, ps);
  }

  /** An insert adds exactly one `scan_info` row, whose id is the next free one, and keeps the earlier scans. */
  lemma InsertAddsOneScan<S, F, D>(t: Tables<S, F, D>, scan: S, ps: seq<Planned<F, D>>)
    ensures InsertSpec(t, scan, ps).scans == t.scans + [ScanRow(NextId(ScanIds(t.scans)), scan)]
    ensures |InsertSpec(t, scan, ps).files| == |t.files| + |ps|
  {
    var scanId := NextId(ScanIds(t.scans));
    InsertFilesKeepsRows(t.(scans := t.scans + [ScanRow(scanId, scan)]), scanId, ps, AclTable);
  }

  /** The k-th of the inserted records gets the `files` row with id (next free id + k), pointing at the new scan. */
  lemma InsertSpecFileRow<S, F, D>(t: Tables<S, F, D>, scan: S, ps: seq<Planned<F, D>>, k: nat)
    requires k < |ps|
    ensures var u := InsertSpec(t, scan, ps);
      |u.files| == |t.files| + |ps| &&
      u.files[|t.files| + k] == Row(NextId(Ids(t.files)) + k, NextId(ScanIds(t.scans)), ps[k].file)
  {
    var scanId := NextId(ScanIds(t.scans));
    InsertFilesRows(t.(scans := t.scans + [ScanRow(scanId, scan)]), scanId, ps, k);
  }

  /** Child table `tn` gains the pair (file id of record k, d) exactly when record k's sub-dict for `tn` is `d`. */
  lemma InsertSpecChildRow<S, F, D>(t: Tables<S, F, D>, scan: S, ps: seq<Planned<F, D>>, tn: ChildTable, k: nat, d: D)
    requires k < |ps|
    ensures var u := InsertSpec(t, scan, ps);
      |t.Rows(tn)| <= |u.Rows(tn)| &&
      ((NextId(Ids(t.files)) + k, d) in Payload(u.Rows(tn)[|t.Rows(tn)|..]) <==> tn in ps[k].subs && ps[k].subs[tn] == d)
  {
    var scanId := NextId(ScanIds(t.scans));
    var t0 := t.(scans := t.scans + [ScanRow(scanId, scan)]);
    InsertFilesChildRows(t0, scanId, ps, tn);
    ExpectedHasRecord(tn, ps, NextId(Ids(t.files)), k, d);
  }
}
