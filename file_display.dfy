/**
 * The file display panel (file_display.py): middle truncation of long names,
 * the directories-first listing order, and the `current_path` field the panel
 * and the main window navigate with.
 *
 * The filesystem is given as what the checks of `load_directory_contents`
 * find at a path, and `os.path.isdir` as a function of the joined entry path.
 */
module DisplayPanel {
  import opened Wrappers
  import opened Strings
  import PosixPath

  // --------------------------------------------------------- truncation

  /** `truncate_filename`: names longer than `maxLength` keep `side` characters at each end around "...". */
  function TruncateFilename(filename: string, maxLength: int): (r: string)
    ensures |r| <= if maxLength < 3 then 3 else maxLength
    ensures |filename| <= maxLength ==> r == filename
    ensures |filename| > maxLength && (maxLength - 3) / 2 <= 0 ==> r == "..."
    ensures |filename| > maxLength && (maxLength - 3) / 2 > 0 ==>
      var side := (maxLength - 3) / 2;
      |r| == 2 * side + 3 && maxLength - 1 <= |r| <= maxLength &&
      r[..side] == filename[..side] && r[side..side + 3] == "..." &&
      r[side + 3..] == filename[|filename| - side..]
  {
    if |filename| <= maxLength then filename
    else
      var side := (maxLength - 3) / 2;
      if side <= 0 then "..."
      else filename[..side] + "..." + filename[|filename| - side..]
  }

  /** With the panel's limit of 15, a longer name shows as its first 6 and last 6 characters around "...". */
  lemma TruncateAtFifteen(filename: string)
    requires |filename| > 15
    ensures TruncateFilename(filename, 15) == filename[..6] + "..." + filename[|filename| - 6..]
    ensures |TruncateFilename(filename, 15)| == 15
  {
    var r := TruncateFilename(filename, 15);
    assert r == r[..6] + r[6..9] + r[9..];
  }

  // ------------------------------------------------------------ ordering

  /** One listed entry: its name, whether it is a directory, and its joined path. */
  datatype Entry = Entry(name: string, isDir: bool, path: string)

  /** Python's `<=` on strings: code point by code point, a proper prefix first. */
  predicate LexLe(s: string, t: string)
    decreases |s|
  {
    s == [] || (t != [] && (s[0] < t[0] || (s[0] == t[0] && LexLe(s[1..], t[1..]))))
  }

  lemma {:induction false} LexRefl(s: string)
    ensures LexLe(s, s)
    decreases |s|
  {
    if s != [] {
      LexRefl(s[1..]);
    }
  }

  lemma {:induction false} LexTotal(s: string, t: string)
    ensures LexLe(s, t) || LexLe(t, s)
    decreases |s|
  {
    if s != [] && t != [] && s[0] == t[0] {
      LexTotal(s[1..], t[1..]);
    }
  }

  lemma {:induction false} LexTrans(s: string, t: string, u: string)
    requires LexLe(s, t) && LexLe(t, u)
    ensures LexLe(s, u)
    decreases |s|
  {
    if s != [] && t != [] && u != [] && s[0] == t[0] == u[0] {
      LexTrans(s[1..], t[1..], u[1..]);
    }
  }

  /** The sort key `(not is_dir, name.lower())`. */
  function KeyOf(e: Entry): (bool, string)
  {
    (!e.isDir, Lower(e.name))
  }

  /** `KeyOf(a) <= KeyOf(b)` as Python compares tuples: `False` before `True`, then the lowered names. */
  predicate KeyLe(a: Entry, b: Entry)
  {
    if a.isDir != b.isDir then a.isDir else LexLe(Lower(a.name), Lower(b.name))
  }

  lemma KeyLeTotal(a: Entry, b: Entry)
    ensures KeyLe(a, b) || KeyLe(b, a)
  {
    LexTotal(Lower(a.name), Lower(b.name));
  }

  lemma KeyLeTrans(a: Entry, b: Entry, c: Entry)
    requires KeyLe(a, b) && KeyLe(b, c)
    ensures KeyLe(a, c)
  {
    if a.isDir == b.isDir == c.isDir {
      LexTrans(Lower(a.name), Lower(b.name), Lower(c.name));
    }
  }

  /** Entries with the same key are in order both ways. */
  lemma KeyLeSameKey(a: Entry, b: Entry)
    requires KeyOf(a) == KeyOf(b)
    ensures KeyLe(a, b)
  {
    LexRefl(Lower(a.name));
  }

  predicate Sorted(s: seq<Entry>)
  {
    forall i, j :: 0 <= i < j < |s| ==> KeyLe(s[i], s[j])
  }

  /** Places `x` before the first entry whose key is not smaller, so it stays ahead of equal keys. */
  function Insert(x: Entry, t: seq<Entry>): (r: seq<Entry>)
    ensures multiset(r) == multiset(t) + multiset{x}
    ensures |r| == |t| + 1
  {
    if t == [] || KeyLe(x, t[0]) then [x] + t
    else
      assert t == [t[0]] + t[1..];
      [t[0]] + Insert(x, t[1..])
  }

  /** `entries.sort(key=...)`: Python's sort is stable, so this is an insertion of each entry ahead of its equals. */
  function SortEntries(s: seq<Entry>): (r: seq<Entry>)
    ensures multiset(r) == multiset(s)
    ensures |r| == |s|
  {
    if s == [] then []
    else
      assert s == [s[0]] + s[1..];
      Insert(s[0], SortEntries(s[1..]))
  }

  lemma {:induction false} InsertSorted(x: Entry, t: seq<Entry>)
    requires Sorted(t)
    ensures Sorted(Insert(x, t))
    decreases |t|
  {
    var r := Insert(x, t);
    if t == [] {
    } else if KeyLe(x, t[0]) {
      forall i, j | 0 <= i < j < |r| ensures KeyLe(r[i], r[j]) {
        if i == 0 && j > 1 {
          KeyLeTrans(x, t[0], t[j - 1]);
        }
      }
    } else {
      KeyLeTotal(x, t[0]);
      var rest := Insert(x, t[1..]);
      InsertSorted(x, t[1..]);
      HeadBelowInsert(x, t);
      assert r == [t[0]] + rest;
      forall i, j | 0 <= i < j < |r| ensures KeyLe(r[i], r[j]) {
        if i > 0 {
          assert r[i] == rest[i - 1] && r[j] == rest[j - 1];
        } else {
          assert r[j] == rest[j - 1];
        }
      }
    }
  }

  lemma HeadBelowInsert(x: Entry, t: seq<Entry>)
    requires t != [] && Sorted(t) && KeyLe(t[0], x)
    ensures forall k :: 0 <= k < |Insert(x, t[1..])| ==> KeyLe(t[0], Insert(x, t[1..])[k])
  {
    var rest := Insert(x, t[1..]);
    forall k | 0 <= k < |rest| ensures KeyLe(t[0], rest[k]) {
      assert rest[k] in multiset(rest);
      if rest[k] != x {
        assert rest[k] in multiset(t[1..]);
        var m :| 0 <= m < |t[1..]| && t[1..][m] == rest[k];
        assert t[m + 1] == rest[k];
      }
    }
  }

  /** The listing is in key order: every directory before every file, each group by lowered name. */
  lemma {:induction false} SortEntriesSorted(s: seq<Entry>)
    ensures Sorted(SortEntries(s))
    decreases |s|
  {
    if s != [] {
      SortEntriesSorted(s[1..]);
      InsertSorted(s[0], SortEntries(s[1..]));
    }
  }

  /** The entries whose key is `k`, in order. */
  function WithKey(s: seq<Entry>, k: (bool, string)): (r: seq<Entry>)
    ensures forall i :: 0 <= i < |r| ==> KeyOf(r[i]) == k
  {
    if s == [] then []
    else (if KeyOf(s[0]) == k then [s[0]] else []) + WithKey(s[1..], k)
  }

  lemma {:induction false} InsertWithKey(x: Entry, t: seq<Entry>, k: (bool, string))
    ensures WithKey(Insert(x, t), k) == (if KeyOf(x) == k then [x] else []) + WithKey(t, k)
    decreases |t|
  {
    if t == [] || KeyLe(x, t[0]) {
      assert ([x] + t)[1..] == t;
    } else {
      if KeyOf(t[0]) == KeyOf(x) {
        KeyLeSameKey(x, t[0]);
      }
      InsertWithKey(x, t[1..], k);
      assert ([t[0]] + Insert(x, t[1..]))[1..] == Insert(x, t[1..]);
    }
  }

  /** Stability: entries with equal keys, such as "A" and "a" of the same kind, keep their listing order. */
  lemma {:induction false} SortEntriesStable(s: seq<Entry>, k: (bool, string))
    ensures WithKey(SortEntries(s), k) == WithKey(s, k)
    decreases |s|
  {
    if s != [] {
      SortEntriesStable(s[1..], k);
      InsertWithKey(s[0], SortEntries(s[1..]), k);
    }
  }

  /** The sort rearranges its input into key order, keeping equal keys in their order. */
  lemma SortIsStablePermutation(s: seq<Entry>)
    ensures multiset(SortEntries(s)) == multiset(s)
    ensures Sorted(SortEntries(s))
    ensures forall k :: WithKey(SortEntries(s), k) == WithKey(s, k)
  {
    SortEntriesSorted(s);
    forall k ensures WithKey(SortEntries(s), k) == WithKey(s, k) {
      SortEntriesStable(s, k);
    }
  }

  // ----------------------------------------------------------- listing

  /** What the checks of `load_directory_contents` find at a path, in the order they are made. */
  datatype PathState =
    | Missing                      // `os.path.exists` is false
    | NotADirectory                // `os.path.isdir` is false
    | NotReadable                  // `os.access(path, os.R_OK)` is false
    | ListingDenied                // `os.listdir` raises `PermissionError`
    | ListingFailed(error: string) // any other exception, with its text
    | Listing(names: seq<string>)  // `os.listdir` in its own order

  /** A row of the icon list: an error row, or a named entry carrying its data. */
  datatype ListItem =
    | ErrorItem(message: string)
    | FileItem(text: string, name: string, path: string, isDir: bool)

  /** The entries collected from a listing, before sorting. */
  function EntriesOf(path: string, names: seq<string>, isDirAt: string -> bool): (r: seq<Entry>)
    ensures |r| == |names|
    ensures forall i :: 0 <= i < |r| ==>
      r[i] == Entry(names[i], isDirAt(PosixPath.Join(path, names[i])), PosixPath.Join(path, names[i]))
  {
    seq(|names|, i requires 0 <= i < |names| =>
      Entry(names[i], isDirAt(PosixPath.Join(path, names[i])), PosixPath.Join(path, names[i])))
  }

  /** `add_file_item`: the name is shown truncated to 15 characters; the full name and path stay in the item. */
  function ItemOf(e: Entry): ListItem
  {
    FileItem(TruncateFilename(e.name, 15), e.name, e.path, e.isDir)
  }

  function ItemsOf(entries: seq<Entry>): (r: seq<ListItem>)
    ensures |r| == |entries|
    ensures forall i :: 0 <= i < |r| ==> r[i] == ItemOf(entries[i])
  {
    seq(|entries|, i requires 0 <= i < |entries| => ItemOf(entries[i]))
  }

  /** The rows shown after loading `path`. */
  function ListingItems(path: string, state: PathState, isDirAt: string -> bool): seq<ListItem>
  {
    match state
    case Missing => [ErrorItem("Path does not exist: " + path)]
    case NotADirectory => [ErrorItem("Path is not a directory: " + path)]
    case NotReadable => [ErrorItem("Permission denied: " + path)]
    case ListingDenied => [ErrorItem("Permission denied reading directory: " + path)]
    case ListingFailed(error) => [ErrorItem("Error loading directory: " + error)]
    case Listing(names) => ItemsOf(SortEntries(EntriesOf(path, names, isDirAt)))
  }

  /**
   * A loaded listing shows one row per listed name: the entries rearranged
   * (a permutation), in key order and stably, so every directory row comes
   * before every file row; each row's text is at most 15 characters.
   */
  lemma ListingDirectoriesFirst(path: string, names: seq<string>, isDirAt: string -> bool)
    ensures ListingItems(path, Listing(names), isDirAt) == ItemsOf(SortEntries(EntriesOf(path, names, isDirAt)))
    ensures var items := ItemsOf(SortEntries(EntriesOf(path, names, isDirAt)));
      (forall i :: 0 <= i < |items| ==> items[i].FileItem? && |items[i].text| <= 15) &&
      (forall i, j :: 0 <= i < j < |items| && items[j].isDir ==> items[i].isDir)
    ensures multiset(SortEntries(EntriesOf(path, names, isDirAt))) == multiset(EntriesOf(path, names, isDirAt))
    ensures Sorted(SortEntries(EntriesOf(path, names, isDirAt)))
    ensures forall k :: WithKey(SortEntries(EntriesOf(path, names, isDirAt)), k) == WithKey(EntriesOf(path, names, isDirAt), k)
  {
    ListingIsSortedEntries(path, names, isDirAt);
    SortIsStablePermutation(EntriesOf(path, names, isDirAt));
    DirectoryRowsFirst(SortEntries(EntriesOf(path, names, isDirAt)));
  }

  /** A loaded listing shows the sorted entries, one row each. */
  lemma ListingIsSortedEntries(path: string, names: seq<string>, isDirAt: string -> bool)
    ensures ListingItems(path, Listing(names), isDirAt) == ItemsOf(SortEntries(EntriesOf(path, names, isDirAt)))
  {
  }

  /** The rows of a sorted listing: directories first, texts at most 15 characters. */
  lemma DirectoryRowsFirst(sorted: seq<Entry>)
    requires Sorted(sorted)
    ensures var items := ItemsOf(sorted);
      (forall i :: 0 <= i < |items| ==> items[i].FileItem? && |items[i].text| <= 15) &&
      (forall i, j :: 0 <= i < j < |items| && items[j].isDir ==> items[i].isDir)
  {
    var items := ItemsOf(sorted);
    forall i, j | 0 <= i < j < |items| && items[j].isDir ensures items[i].isDir {
      assert KeyLe(sorted[i], sorted[j]);
    }
  }

  // ------------------------------------------------------------ the panel

  class FileDisplay {
    var currentPath: string
    var currentFilesystemName: string
    var locationText: string
    var pathText: string
    /** The page of the stacked content widget: 0 is the welcome page, 1 the icon list. */
    var page: nat
    var items: seq<ListItem>

    constructor()
      ensures currentPath == "" && currentFilesystemName == "" && page == 0 && items == []
      ensures locationText == "No filesystem selected"
      ensures pathText == "Select a filesystem from the sidebar to begin browsing"
    {
      currentPath := "";
      currentFilesystemName := "";
      locationText := "No filesystem selected";
      pathText := "Select a filesystem from the sidebar to begin browsing";
      page := 0;
      items := [];
    }

    /** `load_directory_contents`: show the list page with the error row or the sorted entries of `path`. */
    method LoadDirectoryContents(path: string, state: PathState, isDirAt: string -> bool)
      modifies this
      ensures page == 1 && items == ListingItems(path, state, isDirAt)
      ensures currentPath == old(currentPath) && currentFilesystemName == old(currentFilesystemName)
      ensures locationText == old(locationText) && pathText == old(pathText)
    {
      var rows: seq<ListItem>;
      match state {
        case Missing => rows := [ErrorItem("Path does not exist: " + path)];
        case NotADirectory => rows := [ErrorItem("Path is not a directory: " + path)];
        case NotReadable => rows := [ErrorItem("Permission denied: " + path)];
        case ListingDenied => rows := [ErrorItem("Permission denied reading directory: " + path)];
        case ListingFailed(error) => rows := [ErrorItem("Error loading directory: " + error)];
        case Listing(names) =>
          var entries := CollectEntries(path, names, isDirAt);
          rows := AddItems(SortEntries(entries));
      }
      page := 1;
      items := rows;
    }

    /** The loop calling `add_file_item` for each sorted entry. */
    static method AddItems(sorted: seq<Entry>) returns (rows: seq<ListItem>)
      ensures rows == ItemsOf(sorted)
    {
      rows := [];
      for i := 0 to |sorted|
        invariant rows == ItemsOf(sorted[..i])
      {
        rows := rows + [ItemOf(sorted[i])];
      }
      assert sorted[..|sorted|] == sorted;
    }

    /** The loop over `os.listdir`, pairing each name with `isdir` of its joined path. */
    static method CollectEntries(path: string, names: seq<string>, isDirAt: string -> bool) returns (entries: seq<Entry>)
      ensures entries == EntriesOf(path, names, isDirAt)
    {
      entries := [];
      for i := 0 to |names|
        invariant entries == EntriesOf(path, names[..i], isDirAt)
      {
        var entryPath := PosixPath.Join(path, names[i]);
        entries := entries + [Entry(names[i], isDirAt(entryPath), entryPath)];
      }
      assert names[..|names|] == names;
    }

    /** `set_filesystem`: record the name, move to the `~`-expanded path and load it. */
    method SetFilesystem(name: string, path: string, homes: string -> Option<string>,
                         fs: string -> PathState, isDirAt: string -> bool)
      modifies this
      ensures currentFilesystemName == name
      ensures currentPath == PosixPath.ExpandUser(path, homes)
      ensures locationText == "Filesystem: " + name && pathText == "Path: " + currentPath
      ensures page == 1 && items == ListingItems(currentPath, fs(currentPath), isDirAt)
    {
      currentFilesystemName := name;
      var expanded := PosixPath.ExpandUser(path, homes);
      currentPath := expanded;
      locationText := "Filesystem: " + name;
      pathText := "Path: " + expanded;
      LoadDirectoryContents(expanded, fs(expanded), isDirAt);
    }

    /**
     * `on_item_double_clicked`: a directory row moves into its path and
     * announces it; a file row announces the file; an error row carries no
     * data and does nothing.
     */
    method OnItemDoubleClicked(item: ListItem, fs: string -> PathState, isDirAt: string -> bool)
      returns (directoryChanged: Option<string>, fileSelected: Option<string>)
      modifies this
      ensures item.ErrorItem? ==>
        directoryChanged.None? && fileSelected.None? &&
        currentPath == old(currentPath) && items == old(items) && page == old(page) && pathText == old(pathText)
      ensures item.FileItem? && item.isDir ==>
        currentPath == item.path && pathText == "Path: " + item.path &&
        page == 1 && items == ListingItems(item.path, fs(item.path), isDirAt) &&
        directoryChanged == Some(item.path) && fileSelected.None?
      ensures item.FileItem? && !item.isDir ==>
        currentPath == old(currentPath) && items == old(items) && page == old(page) && pathText == old(pathText) &&
        directoryChanged.None? && fileSelected == Some(item.path)
      ensures currentFilesystemName == old(currentFilesystemName) && locationText == old(locationText)
    {
      directoryChanged, fileSelected := None, None;
      if item.ErrorItem? {
        return;
      }
      if item.isDir {
        currentPath := item.path;
        pathText := "Path: " + item.path;
        LoadDirectoryContents(item.path, fs(item.path), isDirAt);
        directoryChanged := Some(item.path);
      } else {
        fileSelected := Some(item.path);
      }
    }

    /** `clear_display`: forget the path and return to the welcome page; the rows stay behind it. */
    method ClearDisplay()
      modifies this
      ensures currentPath == "" && page == 0
      ensures locationText == "No filesystem selected"
      ensures pathText == "Select a filesystem from the sidebar to begin browsing"
      ensures items == old(items) && currentFilesystemName == old(currentFilesystemName)
    {
      currentPath := "";
      locationText := "No filesystem selected";
      pathText := "Select a filesystem from the sidebar to begin browsing";
      page := 0;
    }

    /** `refresh`: reload the current path, and do nothing while there is none. */
    method Refresh(fs: string -> PathState, isDirAt: string -> bool)
      modifies this
      ensures old(currentPath) == "" ==> unchanged(this)
      ensures old(currentPath) != "" ==>
        page == 1 && items == ListingItems(currentPath, fs(currentPath), isDirAt) &&
        currentPath == old(currentPath) && pathText == old(pathText) && locationText == old(locationText)
    {
      if currentPath != "" {
        LoadDirectoryContents(currentPath, fs(currentPath), isDirAt);
      }
    }

    /** `get_current_path`. */
    function GetCurrentPath(): (p: string)
      reads this
      ensures p == currentPath
    {
      currentPath
    }
  }
}
