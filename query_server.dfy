/**
 * The assistant's database tools (aiAssistant/mcp_server.py): how
 * `run_sql_query` shapes what a query returns, and which files of the scan
 * folder `get_available_directories` opens.
 *
 * The SQLite engine is left abstract: a query's execution is given as the
 * column names and rows it fetches, or the error it raises; a database's
 * first `scan_info.directory` row likewise. The response is the structure
 * handed to `json.dumps`, not its text.
 */
module QueryServer {
  import opened Wrappers
  import opened Strings
  import opened Dicts

  /** What executing the query on an existing database gives. */
  datatype Execution<V> =
    | SqlFailed(message: string)                         // a `sqlite3.Error`
    | OtherFailure(message: string)                      // any other exception
    | Fetched(columns: Option<seq<string>>, rows: seq<seq<V>>)  // `cursor.description` names, `fetchall()`

  datatype Response<V> =
    | MissingDatabase(text: string)
    | NoResults
    | Success(rowCount: nat, columns: seq<string>, results: seq<Dict<V>>, note: Option<string>)
    | Failed(text: string)

  const RowLimit: nat := 100

  // ------------------------------------------------------------ rows

  /** The dict for the first `n` values of a row: each value stored under its column's name. */
  function RowPrefix<V>(columns: seq<string>, row: seq<V>, n: nat): (d: Dict<V>)
    requires n <= |row| && n <= |columns|
    ensures d.Valid()
    decreases n
  {
    if n == 0 then Empty() else RowPrefix(columns, row, n - 1).Put(columns[n - 1], row[n - 1])
  }

  /** `row_dict`; `None` where a row has more values than there are column names (an `IndexError`). */
  function RowDictOf<V>(columns: seq<string>, row: seq<V>): Option<Dict<V>>
  {
    if |row| <= |columns| then Some(RowPrefix(columns, row, |row|)) else None
  }

  /** The inner loop over `enumerate(row)`. */
  method BuildRowDict<V>(columns: seq<string>, row: seq<V>) returns (d: Option<Dict<V>>)
    ensures d == RowDictOf(columns, row)
  {
    var rowDict: Dict<V> := Empty();
    for i := 0 to |row|
      invariant i <= |columns| && rowDict == RowPrefix(columns, row, i)
    {
      if i >= |columns| {
        return None;
      }
      rowDict := rowDict.Put(columns[i], row[i]);
    }
    return Some(rowDict);
  }

  /**
   * A row dict has a key for each column name among the row's positions, and
   * with duplicate names the value of the last such position wins.
   */
  lemma {:induction false} RowDictLastWins<V>(columns: seq<string>, row: seq<V>, n: nat, i: nat)
    requires n <= |row| && n <= |columns| && i < n
    requires forall i' :: i < i' < n ==> columns[i'] != columns[i]
    ensures columns[i] in RowPrefix(columns, row, n).values
    ensures RowPrefix(columns, row, n).values[columns[i]] == row[i]
    decreases n
  {
    if i < n - 1 {
      RowDictLastWins(columns, row, n - 1, i);
    }
  }

  /** No key other than a column name of the row's positions appears. */
  lemma {:induction false} RowDictKeys<V>(columns: seq<string>, row: seq<V>, n: nat, k: string)
    requires n <= |row| && n <= |columns|
    ensures k in RowPrefix(columns, row, n).values <==> exists i :: 0 <= i < n && columns[i] == k
    decreases n
  {
    if n > 0 {
      RowDictKeys(columns, row, n - 1, k);
      var prev := RowPrefix(columns, row, n - 1);
      assert RowPrefix(columns, row, n).values == prev.values[columns[n - 1] := row[n - 1]];
      if exists i :: 0 <= i < n && columns[i] == k {
        var i :| 0 <= i < n && columns[i] == k;
        assert i == n - 1 || (0 <= i < n - 1 && columns[i] == k);
      }
    }
  }

  /** Every row formatted; `None` if any row raises. */
  function FormatRows<V>(columns: seq<string>, rows: seq<seq<V>>): (r: Option<seq<Dict<V>>>)
    ensures r.Some? ==> |r.value| == |rows| && forall i :: 0 <= i < |rows| ==> RowDictOf(columns, rows[i]) == Some(r.value[i])
    ensures r.None? ==> exists i :: 0 <= i < |rows| && RowDictOf(columns, rows[i]).None?
    decreases |rows|
  {
    if rows == [] then Some([])
    else
      match (RowDictOf(columns, rows[|rows| - 1]), FormatRows(columns, rows[..|rows| - 1]))
      case (Some(d), Some(ds)) => Some(ds + [d])
      case (None, _) => None
      case (_, None) => None
  }

  /** The outer loop appending each row dict to `formatted_results`. */
  method FormatAll<V>(columns: seq<string>, rows: seq<seq<V>>) returns (formatted: Option<seq<Dict<V>>>)
    ensures formatted == FormatRows(columns, rows)
  {
    var acc: seq<Dict<V>> := [];
    for i := 0 to |rows|
      invariant FormatRows(columns, rows[..i]) == Some(acc)
    {
      assert rows[..i + 1][..i] == rows[..i];
      var d := BuildRowDict(columns, rows[i]);
      if d.None? {
        assert FormatRows(columns, rows[..i + 1]).None?;
        FormatRowsNonePrefix(columns, rows, i + 1);
        return None;
      }
      acc := acc + [d.value];
    }
    assert rows[..|rows|] == rows;
    return Some(acc);
  }

  lemma FormatRowsNonePrefix<V>(columns: seq<string>, rows: seq<seq<V>>, n: nat)
    requires n <= |rows| && FormatRows(columns, rows[..n]).None?
    ensures FormatRows(columns, rows).None?
  {
    var i :| 0 <= i < n && RowDictOf(columns, rows[..n][i]).None?;
    assert rows[..n][i] == rows[i];
  }

  // -------------------------------------------------------- the response

  function Min(a: nat, b: nat): nat
  {
    if a < b then a else b
  }

  function NoteFor(total: nat): string
  {
    "Results limited to first 100 rows. Total rows: " + NatToString(total)
  }

  /** `run_sql_query` for database `db`, whether its file exists, and what executing the query gives. */
  function QueryResponse<V>(db: string, dbExists: bool, execution: Execution<V>): Response<V>
  {
    if !dbExists then MissingDatabase("Error: Database " + db + ".sqlite3 does not exist in ../dirscans")
    else
      match execution
      case SqlFailed(message) => Failed("SQL Error: " + message)
      case OtherFailure(message) => Failed("Error running SQL query: " + message)
      case Fetched(cols, rows) =>
        var columns := cols.GetOr([]);
        if rows == [] then NoResults
        else
          match FormatRows(columns, rows)
          case None => Failed("Error running SQL query: list index out of range")
          case Some(formatted) =>
            Success(|rows|, columns, formatted[..Min(RowLimit, |formatted|)],
                    if |rows| > RowLimit then Some(NoteFor(|rows|)) else None)
  }

  method RunSqlQuery<V>(db: string, dbExists: bool, execution: Execution<V>) returns (response: Response<V>)
    ensures response == QueryResponse(db, dbExists, execution)
  {
    if !dbExists {
      return MissingDatabase("Error: Database " + db + ".sqlite3 does not exist in ../dirscans");
    }
    match execution {
      case SqlFailed(message) => return Failed("SQL Error: " + message);
      case OtherFailure(message) => return Failed("Error running SQL query: " + message);
      case Fetched(cols, rows) =>
        var columns := if cols.Some? then cols.value else [];
        if |rows| == 0 {
          return NoResults;
        }
        var formatted := FormatAll(columns, rows);
        if formatted.None? {
          return Failed("Error running SQL query: list index out of range");
        }
        var note := None;
        if |rows| > RowLimit {
          note := Some(NoteFor(|rows|));
        }
        response := Success(|rows|, columns, formatted.value[..Min(RowLimit, |formatted.value|)], note);
    }
  }

  /** A missing database answers the same whatever the query would have done: it is never run. */
  lemma MissingDatabaseNotQueried<V>(db: string, e1: Execution<V>, e2: Execution<V>)
    ensures QueryResponse(db, false, e1) == QueryResponse(db, false, e2)
    ensures QueryResponse(db, false, e1).MissingDatabase?
  {
  }

  /** Zero fetched rows give the fixed no-results answer, and only they do among successful fetches. */
  lemma NoResultsIffEmpty<V>(db: string, columns: Option<seq<string>>, rows: seq<seq<V>>)
    ensures QueryResponse(db, true, Fetched(columns, rows)) == NoResults <==> rows == []
  {
  }

  /**
   * A successful answer counts every fetched row, carries the first
   * min(100, n) of them in order, and has a note exactly when more than 100
   * were fetched; the total in the note reads back as n.
   */
  lemma SuccessShape<V>(db: string, columns: Option<seq<string>>, rows: seq<seq<V>>)
    requires QueryResponse(db, true, Fetched(columns, rows)).Success?
    ensures var r := QueryResponse(db, true, Fetched(columns, rows));
      r.rowCount == |rows| && |r.results| == Min(RowLimit, |rows|) &&
      (forall i :: 0 <= i < |r.results| ==> RowDictOf(r.columns, rows[i]) == Some(r.results[i])) &&
      (r.note.Some? <==> |rows| > RowLimit) &&
      (r.note.Some? ==> DigitsValue(r.note.value[|NoteFor(0)| - 1..]) == |rows|)
  {
    var r := QueryResponse(db, true, Fetched(columns, rows));
    if r.note.Some? {
      var prefix := "Results limited to first 100 rows. Total rows: ";
      assert |NoteFor(0)| - 1 == |prefix|;
      assert r.note.value[|prefix|..] == NatToString(|rows|);
      NatToStringRoundTrip(|rows|);
    }
  }

  // ------------------------------------------------- available directories

  /** What reading a database's `scan_info` gives. */
  datatype DirectoryProbe<V> = ProbeFailed(message: string) | NoRow | FirstRow(directory: V)

  datatype DirectoryList<V> = Directories(values: seq<V>) | ErrorText(text: string)

  /** The `.sqlite3` files of the listing, in listing order. */
  function SqliteFiles(listing: seq<string>): (r: seq<string>)
    ensures forall f :: f in r <==> f in listing && EndsWith(f, ".sqlite3")
    ensures |r| <= |listing|
  {
    if listing == [] then []
    else (if EndsWith(listing[0], ".sqlite3") then [listing[0]] else []) + SqliteFiles(listing[1..])
  }

  /** The directories of the given databases in order, stopping at the first that raises. */
  function DirectoriesOf<V>(files: seq<string>, probe: string -> DirectoryProbe<V>): DirectoryList<V>
    decreases |files|
  {
    if files == [] then Directories([])
    else
      match probe(files[0])
      case ProbeFailed(message) => ErrorText("Error getting available directories: " + message)
      case NoRow => DirectoriesOf(files[1..], probe)
      case FirstRow(d) =>
        match DirectoriesOf(files[1..], probe)
        case Directories(ds) => Directories([d] + ds)
        case ErrorText(t) => ErrorText(t)
  }

  /** `get_available_directories`; `listing` is `Err` with the message where `os.listdir` raises. */
  function AvailableDirectories<V>(listing: Result<seq<string>>, probe: string -> DirectoryProbe<V>): DirectoryList<V>
  {
    match listing
    case Err(message) => ErrorText("Error getting available directories: " + message)
    case Ok(names) => DirectoriesOf(SqliteFiles(names), probe)
  }

  datatype Result<T> = Ok(value: T) | Err(message: string)

  method GetAvailableDirectories<V>(listing: Result<seq<string>>, probe: string -> DirectoryProbe<V>)
    returns (r: DirectoryList<V>)
    ensures r == AvailableDirectories(listing, probe)
  {
    if listing.Err? {
      return ErrorText("Error getting available directories: " + listing.message);
    }
    var files := SqliteFiles(listing.value);
    var directories: seq<V> := [];
    var i := 0;
    while i < |files|
      invariant 0 <= i <= |files|
      invariant DirectoriesOf(files, probe) == Prepend(directories, DirectoriesOf(files[i..], probe))
    {
      assert files[i..][1..] == files[i + 1..];
      match probe(files[i]) {
        case ProbeFailed(message) =>
          return ErrorText("Error getting available directories: " + message);
        case NoRow =>
        case FirstRow(d) =>
          PrependAssoc(directories, d, DirectoriesOf(files[i + 1..], probe));
          directories := directories + [d];
      }
      i := i + 1;
    }
    return Directories(directories);
  }

  function Prepend<V>(ds: seq<V>, r: DirectoryList<V>): DirectoryList<V>
  {
    match r
    case Directories(rest) => Directories(ds + rest)
    case ErrorText(t) => ErrorText(t)
  }

  lemma PrependAssoc<V>(ds: seq<V>, d: V, r: DirectoryList<V>)
    ensures Prepend(ds, Prepend([d], r)) == Prepend(ds + [d], r)
  {
    if r.Directories? {
      assert ds + ([d] + r.values) == (ds + [d]) + r.values;
    }
  }

  /** Only `.sqlite3` files are opened: the answer does not depend on what any other file would give. */
  lemma OnlySqliteFilesOpened<V>(names: seq<string>, p1: string -> DirectoryProbe<V>, p2: string -> DirectoryProbe<V>)
    requires forall f :: f in names && EndsWith(f, ".sqlite3") ==> p1(f) == p2(f)
    ensures AvailableDirectories(Ok(names), p1) == AvailableDirectories(Ok(names), p2)
  {
    SameProbes(SqliteFiles(names), p1, p2);
  }

  lemma {:induction false} SameProbes<V>(files: seq<string>, p1: string -> DirectoryProbe<V>, p2: string -> DirectoryProbe<V>)
    requires forall f :: f in files ==> p1(f) == p2(f)
    ensures DirectoriesOf(files, p1) == DirectoriesOf(files, p2)
    decreases |files|
  {
    if files != [] {
      assert files[0] in files;
      assert forall f :: f in files[1..] ==> f in files;
      SameProbes(files[1..], p1, p2);
    }
  }
}
