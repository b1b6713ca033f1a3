# HPCDesktop-FileBrowser: scanners, reports and browser state in Dafny

This project models the sequential logic of HPCDesktop-FileBrowser: a
Qt file browser for HPC file systems, plus the command-line scanners
and assistant tools that come with it. Every file system call, shell
command, database engine and clock is an input of the model. The model
covers:

- **The Lustre metadata scanner** (`dirscans/build_lustre_json.py`):
  - how `st_mode` is classified and its permission bits decoded;
  - owner-name fallback and checksum gating;
  - the unit `format_bytes` picks;
  - the outcomes of `run_command`;
  - parsing of `lfs getstripe` output (stripe keys, OST indices, components);
  - the flat `scan_directory` loop;
  - `insert_scan_data_to_db`, modelled as in-memory tables with autoincrement ids
    (modules `StandardMetadata`, `LustreMetadata`, `Scan`, `RelationalTables`, `ScanDatabase`).
- **The directory report** (`dirscans/build_directory_json.py`):
  - per-directory file counts and byte totals over an `os.walk`;
  - the report totals;
  - the output file name;
  - removal of earlier reports (module `DirectoryReport`).
- **The folder-size action** (`foldersize_actions.py`):
  - finding the report for the folder on display;
  - its file-name check;
  - the direct subdirectories' counts;
  - the resizer's early exits (module `FolderSize`).
- **The file display panel** (`file_display.py`):
  - `truncate_filename`;
  - the directories-first listing order;
  - the error rows;
  - the widget state: `current_path`, labels, page and items (module `DisplayPanel`).
- **The browser window** (`filebrowser.py`):
  - the `'path'` expansion over the configuration tree;
  - the fallback configuration;
  - the "up" button guard and navigation (module `Browser`).
- **The assistant's tools**:
  - the shape of a `run_sql_query` response and the `.sqlite3` filter of
    `get_available_directories` (`aiAssistant/mcp_server.py`, module `QueryServer`);
  - the API-key search (`aiAssistant/ai_assistant.py`, module `ApiKey`).

Shared modules model the Python built-ins the code relies on:

- `Wrappers`: `Option`.
- `Strings`: strip, split, `int()`, `str(n)`, `lower()`.
- `PosixPath`: `basename`, `dirname`, `join`, `splitext`, `expanduser`.
- `Glob`: `*`/`?` matching with the hidden-file rule.
- `Dicts`: insertion-ordered dicts.

Where the code mutates an object, the model is a class:

- `ReportFolder` (the script folder's file set);
- `FileDisplay`;
- `FileBrowser`;
- `Store` (the open database).

Where the code is a loop, the model is a method with invariants, proved
equal to a specification function. Lemmas then state the promised
properties of that function.

## Model

| member | source | states |
|---|---|---|
| StandardMetadata.ClassifyMode | dirscans/build_lustre_json.py:57-74 | each of the seven labels is chosen exactly when the mode's format field is that type; `unknown` exactly when it is none of them |
| StandardMetadata.TypeLabelInjective | dirscans/build_lustre_json.py:59-74 | the stored labels are pairwise distinct, so a label identifies one type |
| StandardMetadata.DecodePermissions | dirscans/build_lustre_json.py:93-107 | each of the twelve booleans equals whether its `S_I*` bit is set; the octal text has 3 characters and the symbolic text 10 |
| StandardMetadata.OctalFieldDigits | dirscans/build_lustre_json.py:94 | for a mode with a type bit, `oct(mode)[-3:]` is the three octal digits of `mode mod 0o1000` |
| StandardMetadata.OctalAgreesWithFlags | dirscans/build_lustre_json.py:94-104 | the octal text's three digits are the user, group and other triads of the permission booleans, so setuid/setgid/sticky are excluded |
| StandardMetadata.SymbolicAgreesWithFlags | dirscans/build_lustre_json.py:95-107 | `stat.filemode` shows every permission flag and special bit in its own position, consistent with the booleans |
| StandardMetadata.ExecCharShowsFlags | dirscans/build_lustre_json.py:95 | an execute position of `filemode` determines both the execute bit and the special bit |
| StandardMetadata.OwnerName | dirscans/build_lustre_json.py:77-85 | a found passwd/group name is used as is; a missing one gives the decimal digits that read back as the id |
| StandardMetadata.FileHash | dirscans/build_lustre_json.py:36-49 | a file over 100 MiB gets no digest; any file up to and including 100 MiB gets the digest |
| StandardMetadata.ChecksumsFor | dirscans/build_lustre_json.py:137-143 | `checksums` is present iff the type is regular and the size is positive; its three digests are all absent above the ceiling and all present at or below it |
| StandardMetadata.UnitUnique | dirscans/build_lustre_json.py:258-271 | at most one unit index is the largest k ≤ 5 with bytes ≥ 1024^k |
| StandardMetadata.UnitMonotone | dirscans/build_lustre_json.py:258-271 | a larger size never picks a smaller unit |
| StandardMetadata.FormatBytes | dirscans/build_lustre_json.py:258-271 | "0 B" iff the size is 0; otherwise the unit is the largest one the size reaches (PB at most), and the integer part is bytes / 1024^unit, at least 1 and below 1024 except in PB |
| StandardMetadata.FormatBytesIsHumanSize | dirscans/build_lustre_json.py:258-271 | the loop's result is the closed-form human size |
| StandardMetadata.CollectStandard | dirscans/build_lustre_json.py:52-148 | a failed stat gives only the error text; otherwise the path, its basename, type, size, human size, permissions, times and inode follow the stat; a found user or group name is kept and a missing one becomes the id's digits; the symlink target is present iff the type is symlink, and the checksums are present iff the file is regular and non-empty, each digest absent above 100 MiB. `os.stat` follows links, so the symlink label and the target key never occur in practice |
| LustreMetadata.RunCommand | dirscans/build_lustre_json.py:21-33 | success gives the stripped stdout; `None` exactly on failure with errors ignored or on a timeout; otherwise the `Error:`/`Exception:` text |
| LustreMetadata.CollectorOutputIsStdout | dirscans/build_lustre_json.py:156-157 | with errors ignored, a non-empty result always comes from a successful command and is its stripped stdout |
| LustreMetadata.LineKey | dirscans/build_lustre_json.py:166-172 | a line sets a key only if it contains ':'; `stripe_count` iff it contains "stripe_count:", `stripe_size` iff it contains "stripe_size:" but not the first marker, `stripe_offset` iff it contains "stripe_offset:" but neither earlier marker, `pool` iff it contains "pool:" and none of the others (the comparison with "pool:" never excludes a line) |
| LustreMetadata.PoolGuardAlwaysHolds | dirscans/build_lustre_json.py:172 | the comparison with "pool:" never excludes a line, since the field holds no ':' |
| LustreMetadata.NumberLineSets | dirscans/build_lustre_json.py:166-171 | a `stripe_count: n`, `stripe_size: n` or `stripe_offset: n` line stores n under its own key |
| LustreMetadata.Classify | dirscans/build_lustre_json.py:164-173 | after stripping, a line without a marker is ignored; a marker line sets the key of its first marker, to the stripped text between the first and second ':' for `pool` and to `int()` of that text for the numeric keys; a numeric key whose text is not an integer is the `ValueError` that abandons the parse |
| LustreMetadata.FinishStripe | dirscans/build_lustre_json.py:175-176 | `stripe_parsed` is never an empty dict |
| LustreMetadata.ParseStripeInfo | dirscans/build_lustre_json.py:161-178 | the stripe loop gives the specified parse of the `lfs getstripe -v` text |
| LustreMetadata.ApplyLines | dirscans/build_lustre_json.py:164-178 | the loop over line effects gives the specified final dict |
| LustreMetadata.InvalidDropsAll | dirscans/build_lustre_json.py:167-178 | one non-integer value discards every field, earlier ones included |
| LustreMetadata.NoInvalidSucceeds | dirscans/build_lustre_json.py:164-176 | without such a line the parse succeeds |
| LustreMetadata.LastLineWins | dirscans/build_lustre_json.py:164-173 | the last line setting a key decides its value |
| LustreMetadata.UnsetKeyAbsent | dirscans/build_lustre_json.py:164-173 | a key no line sets is absent |
| LustreMetadata.OnlyStripeKeys | dirscans/build_lustre_json.py:164-173 | only the four stripe keys can appear |
| LustreMetadata.OstFromTokens | dirscans/build_lustre_json.py:192 | the comprehension yields at most one index per token |
| LustreMetadata.OstIndicesRoundTrip | dirscans/build_lustre_json.py:190-192 | a whitespace-separated list of decimal indices reads back as itself |
| LustreMetadata.OstIndexHasToken | dirscans/build_lustre_json.py:192 | every index comes from an all-digit token with that value |
| LustreMetadata.DigitTokenListed | dirscans/build_lustre_json.py:192 | every all-digit token contributes its value |
| LustreMetadata.CollectComponents | dirscans/build_lustre_json.py:205-212 | the component loop gives the components below the count with non-empty detail, in id order |
| LustreMetadata.ComponentsSound | dirscans/build_lustre_json.py:206-212 | each component has an id below the count and that id's detail text |
| LustreMetadata.ComponentsIncreasing | dirscans/build_lustre_json.py:206-212 | component ids strictly increase |
| LustreMetadata.ComponentsComplete | dirscans/build_lustre_json.py:206-212 | every id below the count with non-empty detail is listed |
| LustreMetadata.Output | dirscans/build_lustre_json.py:156-157 | a command's output is kept iff it succeeded and printed something, and then it is the stripped stdout |
| LustreMetadata.ComponentCount | dirscans/build_lustre_json.py:200-202 | a count is recorded iff the output is all digits |
| LustreMetadata.CollectLustre | dirscans/build_lustre_json.py:151-226 | `components` is only present alongside `component_count` and is never empty |
| LustreMetadata.StripeFieldsAgree | dirscans/build_lustre_json.py:156-178 | `stripe_info_raw` is the verbose output whenever there is one, and `stripe_parsed` is parsed from that same text |
| LustreMetadata.LayoutRecorded | dirscans/build_lustre_json.py:181-187 | a layout is recorded iff `-y` printed something; text that fails to load as YAML is kept raw |
| LustreMetadata.QuotaFiltered | dirscans/build_lustre_json.py:222-224 | a quota report is kept iff it does not say "not supported" in any letter case |
| LustreMetadata.NoLustreToolsGivesEmptyRecord | dirscans/build_lustre_json.py:151-226 | when every `lfs` command fails the record is the empty dict, not an error |
| LustreMetadata.NonNumericCountSkipsComponents | dirscans/build_lustre_json.py:200-214 | a non-digit component count records neither a count nor components |
| LustreMetadata.CollectXattrs | dirscans/build_lustre_json.py:229-243 | each attribute key is present iff its command printed something, holding that stripped output |
| LustreMetadata.CollectAcl | dirscans/build_lustre_json.py:246-255 | the ACL is kept iff it is non-empty and does not report "Operation not supported" |
| Scan.SelectEntries | dirscans/build_lustre_json.py:744-748 | never more entries than listed items |
| Scan.Records | dirscans/build_lustre_json.py:752-763 | one record per entry |
| Scan.RecordsAt | dirscans/build_lustre_json.py:752-761 | the record at position k is the entry's own record numbered k + 1 |
| Scan.ScanDirectory | dirscans/build_lustre_json.py:726-772 | the scan loop gives the specified results: `None` for a non-directory or a failed listing, otherwise the records and the total |
| Scan.SelectScanned | dirscans/build_lustre_json.py:744-748 | the listing loop keeps the joined paths of files and links in listing order |
| Scan.CollectRecords | dirscans/build_lustre_json.py:752-763 | the enumerate loop numbers the records from 1 |
| Scan.EntriesAreScannedItems | dirscans/build_lustre_json.py:744-748 | exactly the files and links are scanned, each under its joined path; the k-th entry is the k-th file or link of the listing, whose positions increase |
| Scan.TotalIsScannedCount | dirscans/build_lustre_json.py:765 | `total_files` is the number of listed files and links |
| Scan.ScanNumbering | dirscans/build_lustre_json.py:752-765 | a completed scan numbers its records 1..n in entry order and records total n |
| Scan.RecordedBasenameIsListedName | dirscans/build_lustre_json.py:745-748 | the basename recorded for an entry (line 89) is the name listed |
| Scan.SchemaFileName | dirscans/build_lustre_json.py:847-850 | a given non-empty schema name is used; otherwise the name is the database path without its extension (a prefix of the path) followed by `_schema.json` |
| Scan.SchemaNameForDb | dirscans/build_lustre_json.py:849-850 | for `<stem>.<ext>` the default schema file is `<stem>_schema.json` |
| ScanDatabase.FileColumnsOf | dirscans/build_lustre_json.py:447-463 | the `files` row carries the scan order; it has an error message iff the stat failed and a path iff it succeeded |
| ScanDatabase.Plan | dirscans/build_lustre_json.py:466-571 | a record writes a child row to a table iff that sub-dict is non-empty, with its columns |
| ScanDatabase.PlanAllAt | dirscans/build_lustre_json.py:446 | the plans follow the records one by one |
| ScanDatabase.InsertScanData | dirscans/build_lustre_json.py:426-571 | the insert leaves the tables equal to the specified insert and keeps them valid |
| ScanDatabase.RecordFileRow | dirscans/build_lustre_json.py:443-465 | the k-th record gets the `files` row with id (next free id + k), pointing at the new scan |
| ScanDatabase.RecordChildRow | dirscans/build_lustre_json.py:465-571 | a child table gains (file id of record k, columns) iff record k's sub-dict for it is those columns |
| ScanDatabase.SubRecordPresence | dirscans/build_lustre_json.py:466-571 | which child rows a scanned entry gets follows from what its collectors found |
| ScanDatabase.ErrorOnlyRecordHasNoChildRows | dirscans/build_lustre_json.py:447-571 | an error-only record writes only its `files` row, carrying the error |
| RelationalTables.Position | dirscans/build_lustre_json.py:466-571 | every child table has one position in the write order |
| RelationalTables.EmptyTables | dirscans/build_lustre_json.py:274-423 | freshly created tables are empty and valid |
| RelationalTables.NextIdAbove | dirscans/build_lustre_json.py:443-465 | the next id is above every existing id, so it is fresh |
| RelationalTables.Store.constructor | dirscans/build_lustre_json.py:832-836 | a new database is empty and valid |
| RelationalTables.Store.InsertScan | dirscans/build_lustre_json.py:431-443 | appends one `scan_info` row with the next id and returns that id |
| RelationalTables.Store.InsertChild | dirscans/build_lustre_json.py:468-482 | appends the child row iff the sub-dict is non-empty; nothing else changes |
| RelationalTables.Store.InsertFileRecord | dirscans/build_lustre_json.py:446-571 | one pass of the record loop: the `files` row, then the child rows in table order |
| RelationalTables.AppendChildrenEffect | dirscans/build_lustre_json.py:466-571 | each child table gains its row, and no other table changes |
| RelationalTables.InsertFileEffect | dirscans/build_lustre_json.py:446-571 | one record adds one `files` row and, per child table, one row iff its sub-dict is non-empty |
| RelationalTables.InsertFilesKeepsRows | dirscans/build_lustre_json.py:446 | earlier rows are kept as a prefix and scans are untouched |
| RelationalTables.NextFileIdAfter | dirscans/build_lustre_json.py:465 | after n records the next free `files` id has moved on by n |
| RelationalTables.InsertFilesRows | dirscans/build_lustre_json.py:446-465 | the new `files` rows are the records in order, with consecutive ids, all pointing at the scan |
| RelationalTables.ExpectedHasRecord | dirscans/build_lustre_json.py:466-571 | a record contributes a child row iff that sub-dict is non-empty, with those columns |
| RelationalTables.InsertFilesChildRows | dirscans/build_lustre_json.py:446-571 | the rows a child table gains are exactly the expected (file id, columns) pairs in record order |
| RelationalTables.InsertKeepsValid | dirscans/build_lustre_json.py:426-571 | ids stay increasing and every foreign key names an existing row |
| RelationalTables.InsertAddsOneScan | dirscans/build_lustre_json.py:429-443 | exactly one `scan_info` row is added with the next id, and one `files` row per record |
| RelationalTables.InsertSpecFileRow | dirscans/build_lustre_json.py:443-465 | the k-th record's `files` row has id (next free id + k) and `scan_id` = the new scan's id |
| RelationalTables.InsertSpecChildRow | dirscans/build_lustre_json.py:465-571 | child rows carry `file_id` = their record's `lastrowid`, one exactly for each non-empty sub-dict |
| DirectoryReport.SumSizes | dirscans/build_directory_json.py:39-46 | the size loop gives the sum over files, counting unreadable files as 0 |
| DirectoryReport.Readable | dirscans/build_directory_json.py:40-46 | the readable files are listed files whose size can be read |
| DirectoryReport.SizeOfAppend | dirscans/build_directory_json.py:39-46 | the total over two file lists is the sum of their totals |
| DirectoryReport.SizeOfReadable | dirscans/build_directory_json.py:42-46 | `total_size_bytes` is the sum of sizes of exactly the files whose size can be read |
| DirectoryReport.NothingReadable | dirscans/build_directory_json.py:34-52 | a directory whose files are all unreadable still counts all of them, with 0 bytes |
| DirectoryReport.DirectoryInfo | dirscans/build_directory_json.py:31-61 | the result dict keeps its order and keys in step |
| DirectoryReport.GetDirectoryInfo | dirscans/build_directory_json.py:31-61 | the walk loop gives the specified dict |
| DirectoryReport.EntryPerVisitedRoot | dirscans/build_directory_json.py:34-49 | a root has an entry iff the walk visits it |
| DirectoryReport.EntryOfLastVisit | dirscans/build_directory_json.py:34-52 | a root's entry is the file count and readable size of its last visit |
| DirectoryReport.TotalsOverWalk | dirscans/build_directory_json.py:101-115 | with distinct roots, `total_paths` is the number of roots and the summary totals are the walk's file and byte sums |
| DirectoryReport.MakeReport | dirscans/build_directory_json.py:99-103 | `total_paths` equals the number of entries of `paths` |
| DirectoryReport.Mangle | dirscans/build_directory_json.py:90 | same length, with every '/', '\\' and ':' replaced by '_' and other characters kept |
| DirectoryReport.OutputName | dirscans/build_directory_json.py:89-90 | the name starts with the timestamp and ends with ".json" |
| DirectoryReport.GlobbedReports | dirscans/build_directory_json.py:92-96 | the files deleted as written are a subset of the folder |
| DirectoryReport.GlobRemovesOtherReports | dirscans/build_directory_json.py:92-96 | analysing "b" deletes the report written for "a/b" |
| DirectoryReport.OwnReports | dirscans/build_directory_json.py:92-96 | the corrected deletion set is a subset of the folder |
| DirectoryReport.OwnReportsExact | dirscans/build_directory_json.py:90-96 | a report is deleted by the corrected rule iff it was written for a directory with the same mangled name |
| DirectoryReport.OwnReportsWithinGlob | dirscans/build_directory_json.py:92 | the corrected rule deletes nothing the glob would keep |
| DirectoryReport.ReportFolder.BuildReport | dirscans/build_directory_json.py:77-122 | as written: a non-directory changes nothing; otherwise every file the glob `*_<mangled>.json` selects is removed, other directories' reports included, and a successful write adds the new file with the report and totals |
| DirectoryReport.ReportFolder.BuildReportCorrected | dirscans/build_directory_json.py:77-122 | the same run with the corrected removal: only this directory's own earlier reports are removed |
| DirectoryReport.ReportFolder.ReplaceReports | dirscans/build_directory_json.py:83-122 | once the files to remove are known: the walk is collected, those files are removed, then the new report is written, or nothing more when the write fails |
| FolderSize.PathLastPart | foldersize_actions.py:17 | never longer than the path |
| FolderSize.PathLastPartEmpty | foldersize_actions.py:17-19 | the action stops at this guard iff the path is all slashes |
| FolderSize.SameNameAsWriter | foldersize_actions.py:17 | without a trailing '/', the consumer's name equals the mangled name the report writer uses (dirscans/build_directory_json.py line 90) |
| FolderSize.GlobSelectsReportName | foldersize_actions.py:27-28 | the consumer's glob selects every report name with that mangled part |
| FolderSize.ReportNameAccepted | foldersize_actions.py:34 | every report name the writer produces passes the filename check |
| FolderSize.ConsumerFindsReport | foldersize_actions.py:27-34 | the report written for a directory (dirscans/build_directory_json.py line 90) is selected by the glob and passes the name check when that same directory is on display |
| FolderSize.CollectDirectSubdirs | foldersize_actions.py:45-55 | the path-key loop gives the specified map |
| FolderSize.DirectSubdirsKeys | foldersize_actions.py:46-55 | a name is a key iff some path key differs from the analysed directory, starts with it, and leaves that name with no '/' after leading slashes are removed |
| FolderSize.DirectSubdirsValue | foldersize_actions.py:54-55 | the last path key naming a folder sets its count, a missing count being 0 |
| FolderSize.PrefixIsNotASeparator | foldersize_actions.py:48-52 | "/database" is a direct child "base" of "/data" |
| FolderSize.SelfIsNotAChild | foldersize_actions.py:48 | the analysed directory is never its own child |
| FolderSize.GrandchildIsNotAChild | foldersize_actions.py:52 | a deeper path is not a direct child |
| FolderSize.MissingCountIsZero | foldersize_actions.py:54 | an entry without `file_count` counts 0 |
| FolderSize.ChooseReport | foldersize_actions.py:30-62 | the file loop ends at the first report that applies, or at the first that raises an exception other than the three caught ones, or after the last file |
| FolderSize.FirstApplicableIsFirst | foldersize_actions.py:30-62 | when every earlier file is skipped, a file naming a direct subdirectory is applied and one raising an uncaught exception ends the handler |
| FolderSize.RaisesBeforeApplying | foldersize_actions.py:36-62 | a `PermissionError` or other uncaught exception in a file before any applicable one leaves the handler without applying anything |
| FolderSize.NoneApplicable | foldersize_actions.py:30-62 | the loop runs out of files iff every file is skipped: it fails the name check, raises a caught exception, or names no subdirectory |
| FolderSize.Globbed | foldersize_actions.py:28 | only listing entries the pattern selects are candidates |
| FolderSize.GlobbedComplete | foldersize_actions.py:28 | every listing entry the pattern selects is a candidate |
| FolderSize.GlobbedAppend | foldersize_actions.py:28-30 | candidates keep listing order: globbing two parts of a listing gives the first part's matches, then the second's |
| FolderSize.ResizeGuard | foldersize_actions.py:67-77 | the resizer goes past its guards iff two counts differ |
| FolderSize.OnFolderSizeZeroClicked | foldersize_actions.py:10-77 | nothing is applied when the path is empty, all slashes, or the scan folder is missing, or no report applies; an uncaught exception ends the handler; otherwise the chosen counts go to the resizer |
| FolderSize.AppliedCountsNonEmpty | foldersize_actions.py:57-68 | an applied count map is never empty, so the first guard of the resizer never fires on it |
| DisplayPanel.TruncateFilename | file_display.py:207-218 | a name that fits is unchanged; with side ≤ 0 the result is "..."; otherwise it is the first side characters, "...", and the last side characters, 2·side+3 long and at most max_length |
| DisplayPanel.TruncateAtFifteen | file_display.py:184-218 | a name over 15 characters shows as its first 6, "...", its last 6 |
| DisplayPanel.LexTotal | file_display.py:172 | the string order is total |
| DisplayPanel.LexTrans | file_display.py:172 | the string order is transitive |
| DisplayPanel.KeyLeTotal | file_display.py:172 | the sort key order is total |
| DisplayPanel.KeyLeTrans | file_display.py:172 | the sort key order is transitive |
| DisplayPanel.Insert | file_display.py:172 | inserting adds exactly the one entry |
| DisplayPanel.SortEntries | file_display.py:172 | the sorted entries are a permutation of the listing |
| DisplayPanel.InsertSorted | file_display.py:172 | inserting into a sorted list keeps it sorted |
| DisplayPanel.SortEntriesSorted | file_display.py:172 | directories come first, each group by lower-cased name |
| DisplayPanel.SortEntriesStable | file_display.py:172 | entries with equal keys keep their listing order |
| DisplayPanel.EntriesOf | file_display.py:161-166 | one entry per listed name, with its joined path and directory flag |
| DisplayPanel.ItemsOf | file_display.py:174-176 | one item per entry, in order |
| DisplayPanel.ListingDirectoriesFirst | file_display.py:160-176 | a successful listing shows one row per entry of the sorted list, which is a permutation of the entries, sorted by key (directories first, then by lowered name) and stable for equal keys; texts are at most 15 characters |
| DisplayPanel.SortIsStablePermutation | file_display.py:169-170 | the sort is a permutation into key order that keeps equal keys in listing order |
| DisplayPanel.FileDisplay.constructor | file_display.py:254-259 | starts with no path and the welcome texts |
| DisplayPanel.FileDisplay.LoadDirectoryContents | file_display.py:139-179 | switches to the list page and shows the error row or the sorted items; the path and labels are untouched |
| DisplayPanel.FileDisplay.SetFilesystem | file_display.py:125-137 | records the name, sets `current_path` to the user-expanded path, updates both labels and loads that path |
| DisplayPanel.FileDisplay.OnItemDoubleClicked | file_display.py:233-251 | a directory item moves `current_path` to its path and reloads; a file item or error row leaves `current_path` unchanged |
| DisplayPanel.FileDisplay.ClearDisplay | file_display.py:254-259 | `current_path` becomes "" with the welcome page and texts |
| DisplayPanel.FileDisplay.Refresh | file_display.py:261-265 | with an empty path nothing changes; otherwise the same path is reloaded |
| DisplayPanel.FileDisplay.GetCurrentPath | file_display.py:267-269 | returns `current_path` |
| Browser.ExpandAt | filebrowser.py:43-58 | the expanded tree has the same addresses, keys and container kinds; every `'path'` value is `expandvars` of the old one; all other leaves are unchanged |
| Browser.ChildExpand | filebrowser.py:50-58 | one level of the expansion keeps keys and container kinds and expands each child |
| Browser.NonStringPathFails | filebrowser.py:48 | a non-string `'path'` anywhere makes the expansion fail |
| Browser.LoadConfig | filebrowser.py:27-41 | a missing or malformed file gives `{"toplevel": []}`; any other read error escapes; a decoded file is expanded |
| Browser.CanGoUpIff | filebrowser.py:130-131 | up is enabled iff the path is not all slashes and its parent exists (the same test at lines 142-143) |
| Browser.NavigateUpStopsAtRoot | filebrowser.py:130-131 | a root path never enables up |
| Browser.FileBrowser.LoadFilesystemConfig | filebrowser.py:27-41 | the configuration is the expanded file or the fallback; an escaping exception is reported as not loaded |
| Browser.FileBrowser.OnFilesystemSelected | filebrowser.py:122-135 | the up button follows the expanded path's guard and the display shows that filesystem |
| Browser.FileBrowser.OnDirectoryChanged | filebrowser.py:137-144 | the up button follows the new path's guard |
| Browser.FileBrowser.OnNavigateUp | filebrowser.py:146-153 | with a non-empty path whose parent differs and exists, `current_path` becomes the parent; otherwise nothing changes |
| QueryServer.BuildRowDict | aiAssistant/mcp_server.py:56-58 | the per-row loop gives the row dict, or fails when a row is longer than the columns |
| QueryServer.RowDictLastWins | aiAssistant/mcp_server.py:57-58 | with duplicate column names the value of the last position wins |
| QueryServer.RowDictKeys | aiAssistant/mcp_server.py:57-58 | the keys are exactly the column names of the row's positions |
| QueryServer.FormatRows | aiAssistant/mcp_server.py:54-59 | one dict per row, each that row's dict, or a failure exactly when some row fails |
| QueryServer.FormatAll | aiAssistant/mcp_server.py:54-59 | the outer loop gives the specified list |
| QueryServer.RunSqlQuery | aiAssistant/mcp_server.py:28-79 | the handler gives the specified response for every outcome of the execution |
| QueryServer.MissingDatabaseNotQueried | aiAssistant/mcp_server.py:32-34 | a missing database gives the error whatever the query would have done |
| QueryServer.NoResultsIffEmpty | aiAssistant/mcp_server.py:50-51 | the no-results text is returned iff there are no rows |
| QueryServer.SuccessShape | aiAssistant/mcp_server.py:53-70 | `row_count` is the total, `results` the first min(100, n) row dicts in order, and a note stating n iff n > 100 |
| QueryServer.SqliteFiles | aiAssistant/mcp_server.py:87 | a file is kept iff it is listed and ends with ".sqlite3" |
| QueryServer.GetAvailableDirectories | aiAssistant/mcp_server.py:82-104 | the loop gives the specified directory list or error text |
| QueryServer.OnlySqliteFilesOpened | aiAssistant/mcp_server.py:87-100 | only `.sqlite3` files are opened: what other files would answer does not matter |
| ApiKey.MatchAt | aiAssistant/ai_assistant.py:23 | a captured key is non-empty and has no '"' |
| ApiKey.ReadApiKey | aiAssistant/ai_assistant.py:19-34 | a returned key is non-empty and has no '"' |
| ApiKey.MatchAtComplete | aiAssistant/ai_assistant.py:23 | text reading "OpenAI", whitespace, '=', whitespace, then a quoted key matches at that position and captures the key |
| ApiKey.MatchAtSound | aiAssistant/ai_assistant.py:23 | every match reads that way |
| ApiKey.SearchFromSound | aiAssistant/ai_assistant.py:23-25 | a found key is the capture at the leftmost matching position |
| ApiKey.FindKeyLeftmost | aiAssistant/ai_assistant.py:23-25 | the leftmost match is the one returned |
| ApiKey.FindKeyNone | aiAssistant/ai_assistant.py:23-28 | nothing is returned iff the pattern matches nowhere |
| ApiKey.MatchAtShift | aiAssistant/ai_assistant.py:23 | text before a position does not change whether the pattern matches there |
| ApiKey.EmptyKeySkipped | aiAssistant/ai_assistant.py:23 | `OpenAI=""` matches nothing, and the search continues with the text after it |
| ApiKey.NoCapitalONoKey | aiAssistant/ai_assistant.py:23 | the match is case-sensitive: text without a capital 'O' yields no key |
| ApiKey.UnanchoredMatch | aiAssistant/ai_assistant.py:23 | `XOpenAI = "k"` yields k |
| ApiKey.LineBreaksAroundEquals | aiAssistant/ai_assistant.py:23 | line breaks are accepted on both sides of '=' |
| Strings.SplitJoin | dirscans/build_lustre_json.py:163-167 | splitting on a separator and joining back gives the text |
| Strings.ParseIntOfNat | dirscans/build_lustre_json.py:167 | `int()` reads a decimal with surrounding whitespace as its value |
| Strings.NatToStringRoundTrip | dirscans/build_lustre_json.py:80-85 | `str(n)` reads back as n |
| Strings.SplitWsJoinSpaced | dirscans/build_lustre_json.py:192 | `split()` of space-joined tokens gives the tokens back |
| Strings.Lower | file_display.py:172 | lower-casing maps each character on its own |
| PosixPath.DirnameFixedPoint | filebrowser.py:130-131 | a path is its own parent iff it is all slashes |
| PosixPath.BasenameOfJoin | dirscans/build_lustre_json.py:746 | the basename (line 89) of a joined name is that name |
| PosixPath.SplitExt | dirscans/build_lustre_json.py:849 | stem and extension concatenate to the path; the extension is empty or a single dot-suffix without '/' |
| PosixPath.ExpandUser | file_display.py:130 | a path not starting with '~' is unchanged |
| Glob.LiteralMatches | dirscans/build_directory_json.py:92 | a pattern without wildcards matches exactly itself |
| Glob.StarLiteralMatches | dirscans/build_directory_json.py:92 | `*` followed by literal text matches exactly the names ending with that text |
| Dicts.Dict.Put | aiAssistant/mcp_server.py:58 | assigning a key keeps the insertion order, appending only a new key, and sets the value |

## Left out

- The I/O is not modelled. Subprocesses (`lfs`, `getfattr`, `getfacl`, `hostname`, `id`), shell quoting and the 30-second timeout are command outcomes given as inputs. `os.stat`, `os.walk`, `os.listdir`, `os.path.getsize`, `os.access`, `pwd`/`grp`, `expandvars` and the existence checks are inputs too.
- Hash digests are opaque values; the chunked reading in `get_file_hash` is not modelled.
- Clocks are not modelled: `datetime.now()`, the ISO timestamps and the float times are given values.
- `yaml.safe_load` is reduced to whether the text loads and whether the loaded document is truthy, which decides if the `layout_yaml` column is stored or left NULL.
- The `%.1f` rendering in `format_bytes` is not modelled.
- The SQLite engine is not modelled: query execution, `fetchall`/`fetchone`, `connect` and `commit`. The schema text written by `create_database_schema` and `create_database_schema_json` is not modelled either.
- JSON texts are not modelled: reading, writing, `json.dumps` and the response string.
- The Qt widgets are not modelled: icons, tooltips, signals, painting and the float icon-size interpolation.
- The OpenAI/MCP network client, the chat worker thread and the MCP transport are not modelled.
- `get_db_metadata` is not part of this model.
- StandardMetadata.FormatBytes: states only the integer part and the unit of the printed size, not the rounded fraction.
- Strings.IsSpace: Python's `str.isspace`, `strip()` and regex `\s` also accept whitespace above U+00A0, such as U+2000–U+200A and U+3000; the model stops at U+00A0.
- ApiKey.MatchAt: covers whitespace only up to U+00A0, for the same reason.
- Strings.ParseInt: accepts only a sign and ASCII digits; `int()` also takes underscores and Unicode digits.
- Strings.Lower: lower-cases ASCII letters only, so the sort key of non-ASCII names is not modelled.
- FolderSize.IsScanFileName: `\d` is limited to ASCII digits.
- Glob.Matches: `[...]` character classes are treated as literal text. Neither the directory names in the report pattern nor the timestamps use them.
- DirectoryReport.GetDirectoryInfo: takes the walk as given. `os.walk` error handling, the `PermissionError`/`FileNotFoundError` exits and symlinked directories are not modelled.
- DisplayPanel.SortEntries: modelled by its stable sorted result, as an insertion sort on values rather than CPython's in-place Timsort.
- Browser.ExpandAt: `_expand_config_paths` is modelled on values, because `json.load` trees share no nodes.
- Browser.NonStringPathFails: a `TypeError` from `expandvars` is modelled as failure of the whole expansion. Values already replaced before the error are not kept.
- FolderSize.OnFolderSizeZeroClicked: ends at the resizer's guards. Past them the code reads `zoom_levels` and `_render_svg_centered` (foldersize_actions.py:80, 114), which the display does not define, so the item loop is not modelled. Neither is the candidate property "only `is_dir` items whose name is in the map are touched".
- FolderSize.Load: an exception the handler does not catch is one outcome, `Raises`, whatever its type and wherever in the `try` block it happens; it ends the handler, and the Qt event loop's handling of it is not modelled. Reports are well-typed `ScanData` when they load.
- Strings.IsDigits: ASCII digits only. Python's `str.isdigit()` (build_lustre_json.py:192, 200) also accepts characters such as '²', on which the following `int()` raises; that exception is not modelled.
- Browser.FileBrowser.OnNavigateUp: stops after setting `current_path`, because `update_breadcrumb` (filebrowser.py:153) is not defined by the display, so the reload after it is never reached.
- Scan.ScanDirectory: a collector never fails in this model. Its failures are error records, as `get_standard_metadata` makes them.

## Findings

| source | as written | input that shows it | evidently intended | confidence | as-written member | corrected member |
|---|---|---|---|---|---|---|
| dirscans/build_directory_json.py:92-96 | earlier reports are found with the glob `*_<mangled dir>.json` and deleted | analysing `b` also deletes `20240101_120000_a_b.json`, the report written for `a/b`, because `*` absorbs `20240101_120000_a` | delete only the earlier reports of the same directory: a 15-character timestamp, '_', then exactly the mangled name and ".json" | not executed | DirectoryReport.GlobRemovesOtherReports | DirectoryReport.OwnReportsExact |
