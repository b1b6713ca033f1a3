/**
 * The main window (filebrowser.py): loading the filesystem configuration with
 * `$VAR` expansion of every `path` member, the fallback configuration, and
 * the guard that enables going up to the parent directory.
 *
 * `os.path.expandvars` and `os.path.exists` are parameters; a configuration
 * is a JSON value as `json.load` returns it, so it shares no sub-tree.
 */
module Browser {
  import opened Wrappers
  import opened Strings
  import PosixPath
  import DisplayPanel

  /** A JSON value; an object keeps its members in file order. */
  datatype Json =
    | JNull
    | JBool(b: bool)
    | JNumber(n: int)
    | JString(s: string)
    | JArray(items: seq<Json>)
    | JObject(members: seq<(string, Json)>)

  // -------------------------------------------------------- expansion

  /**
   * `_expand_config_paths`: replace the value of each `path` member by its
   * expansion and descend into every array and object. `None` where
   * `expandvars` is handed a `path` value that is not a string and raises
   * `TypeError`.
   */
  function Expand(j: Json, expandVars: string -> string): Option<Json>
    decreases j, 1
  {
    match j
    case JArray(items) =>
      (match ExpandItems(items, expandVars)
       case None => None
       case Some(xs) => Some(JArray(xs)))
    case JObject(members) =>
      (match ExpandMembers(members, expandVars)
       case None => None
       case Some(ms) => Some(JObject(ms)))
    case _ => Some(j)
  }

  function ExpandItems(items: seq<Json>, expandVars: string -> string): Option<seq<Json>>
    decreases items, 0
  {
    if items == [] then Some([])
    else
      match (Expand(items[0], expandVars), ExpandItems(items[1..], expandVars))
      case (Some(x), Some(xs)) => Some([x] + xs)
      case _ => None
  }

  /** The new value of one member: the expansion for `path`, the expanded tree otherwise. */
  function ExpandMember(m: (string, Json), expandVars: string -> string): Option<Json>
    decreases m, 0
  {
    if m.0 == "path" then
      (if m.1.JString? then Some(JString(expandVars(m.1.s))) else None)
    else Expand(m.1, expandVars)
  }

  function ExpandMembers(members: seq<(string, Json)>, expandVars: string -> string): Option<seq<(string, Json)>>
    decreases members, 0
  {
    if members == [] then Some([])
    else
      match (ExpandMember(members[0], expandVars), ExpandMembers(members[1..], expandVars))
      case (Some(v), Some(ms)) => Some([(members[0].0, v)] + ms)
      case _ => None
  }

  // ---------------------------------------------- addressing a sub-tree

  /** One step down a JSON tree: an array element or an object member, by position. */
  datatype Step = Item(i: nat) | Member(i: nat)

  function Child(j: Json, step: Step): Option<Json>
  {
    match (j, step)
    case (JArray(items), Item(i)) => if i < |items| then Some(items[i]) else None
    case (JObject(ms), Member(i)) => if i < |ms| then Some(ms[i].1) else None
    case _ => None
  }

  /** The key of the member a step selects, if it selects one. */
  function StepKey(j: Json, step: Step): Option<string>
  {
    match (j, step)
    case (JObject(ms), Member(i)) => if i < |ms| then Some(ms[i].0) else None
    case _ => None
  }

  /** The sub-tree at an address. */
  function At(j: Json, addr: seq<Step>): Option<Json>
    decreases |addr|
  {
    if addr == [] then Some(j)
    else
      match Child(j, addr[0])
      case None => None
      case Some(c) => At(c, addr[1..])
  }

  /** The key under which the sub-tree at an address is stored, when its last step is an object member. */
  function LastKey(j: Json, addr: seq<Step>): Option<string>
    decreases |addr|
  {
    if addr == [] then None
    else
      match Child(j, addr[0])
      case None => None
      case Some(c) => if |addr| == 1 then StepKey(j, addr[0]) else LastKey(c, addr[1..])
  }

  predicate IsContainer(j: Json)
  {
    j.JArray? || j.JObject?
  }

  lemma {:induction false} ExpandItemsAt(items: seq<Json>, expandVars: string -> string, xs: seq<Json>)
    requires ExpandItems(items, expandVars) == Some(xs)
    ensures |xs| == |items|
    ensures forall i :: 0 <= i < |items| ==> Expand(items[i], expandVars) == Some(xs[i])
    decreases |items|
  {
    if items != [] {
      ExpandItemsAt(items[1..], expandVars, xs[1..]);
      forall i | 1 <= i < |items| ensures Expand(items[i], expandVars) == Some(xs[i]) {
        assert items[1..][i - 1] == items[i];
      }
    }
  }

  lemma {:induction false} ExpandMembersAt(members: seq<(string, Json)>, expandVars: string -> string, ms: seq<(string, Json)>)
    requires ExpandMembers(members, expandVars) == Some(ms)
    ensures |ms| == |members|
    ensures forall i :: 0 <= i < |members| ==>
      ms[i].0 == members[i].0 && ExpandMember(members[i], expandVars) == Some(ms[i].1)
    decreases |members|
  {
    if members != [] {
      ExpandMembersAt(members[1..], expandVars, ms[1..]);
      forall i | 1 <= i < |members|
        ensures ms[i].0 == members[i].0 && ExpandMember(members[i], expandVars) == Some(ms[i].1)
      {
        assert members[1..][i - 1] == members[i];
      }
    }
  }

  /** One step down an expanded tree reaches the expansion of the same child, under the same key. */
  lemma ChildExpand(j: Json, expandVars: string -> string, r: Json, step: Step)
    requires Expand(j, expandVars) == Some(r)
    ensures Child(j, step).Some? <==> Child(r, step).Some?
    ensures StepKey(r, step) == StepKey(j, step)
    ensures (j.JArray? <==> r.JArray?) && (j.JObject? <==> r.JObject?)
    ensures !IsContainer(j) ==> r == j
    ensures Child(j, step).Some? ==>
      if StepKey(j, step) == Some("path") then
        Child(j, step).value.JString? && Child(r, step) == Some(JString(expandVars(Child(j, step).value.s)))
      else Expand(Child(j, step).value, expandVars) == Child(r, step)
  {
    match j
    case JArray(items) =>
      ExpandItemsAt(items, expandVars, r.items);
    case JObject(members) =>
      ExpandMembersAt(members, expandVars, r.members);
    case _ =>
  }

  /**
   * Expansion keeps the shape of the tree and changes only `path` members:
   * the same addresses exist, under the same keys and with the same kind of
   * container; every `path` value was a string and is now its expansion;
   * every other scalar is unchanged.
   */
  lemma {:induction false} ExpandAt(j: Json, expandVars: string -> string, r: Json, addr: seq<Step>)
    requires Expand(j, expandVars) == Some(r)
    ensures At(j, addr).Some? <==> At(r, addr).Some?
    ensures LastKey(r, addr) == LastKey(j, addr)
    ensures At(j, addr).Some? ==>
      (At(j, addr).value.JArray? <==> At(r, addr).value.JArray?) &&
      (At(j, addr).value.JObject? <==> At(r, addr).value.JObject?)
    ensures At(j, addr).Some? && LastKey(j, addr) == Some("path") ==>
      At(j, addr).value.JString? && At(r, addr) == Some(JString(expandVars(At(j, addr).value.s)))
    ensures At(j, addr).Some? && LastKey(j, addr) != Some("path") && !IsContainer(At(j, addr).value) ==>
      At(r, addr) == At(j, addr)
    decreases |addr|
  {
    if addr == [] {
      ChildExpand(j, expandVars, r, Item(0));
    } else {
      ChildExpand(j, expandVars, r, addr[0]);
      if Child(j, addr[0]).Some? {
        var c := Child(j, addr[0]).value;
        var c' := Child(r, addr[0]).value;
        if StepKey(j, addr[0]) == Some("path") {
          if |addr| > 1 {
            assert Child(c, addr[1]).None? && Child(c', addr[1]).None?;
          }
        } else {
          ExpandAt(c, expandVars, c', addr[1..]);
        }
      }
    }
  }

  /** A `path` member anywhere whose value is not a string makes the whole load raise. */
  lemma NonStringPathFails(j: Json, expandVars: string -> string, addr: seq<Step>)
    requires At(j, addr).Some? && LastKey(j, addr) == Some("path") && !At(j, addr).value.JString?
    ensures Expand(j, expandVars).None?
  {
    if Expand(j, expandVars).Some? {
      ExpandAt(j, expandVars, Expand(j, expandVars).value, addr);
    }
  }

  // ---------------------------------------------------- configuration

  /**
   * What reading `filesystems.json` gives: `Unreadable` is any exception other
   * than `FileNotFoundError` and `JSONDecodeError` (a `PermissionError`, an
   * `IsADirectoryError`, a `UnicodeDecodeError`), which the loader does not catch.
   */
  datatype ConfigFile = NotFound | InvalidJson | Unreadable | Parsed(json: Json)

  /** `{"toplevel": []}`. */
  function EmptyConfig(): Json
  {
    JObject([("toplevel", JArray([]))])
  }

  /**
   * `load_filesystem_config`: a missing or undecodable file gives the empty
   * configuration; a decoded one is expanded. `None` stands for an exception
   * that escapes the loader: one raised while reading the file, or the
   * `TypeError` of the expansion.
   */
  function LoadConfig(file: ConfigFile, expandVars: string -> string): (r: Option<Json>)
    ensures (file.NotFound? || file.InvalidJson?) ==> r == Some(EmptyConfig())
    ensures file.Unreadable? ==> r.None?
    ensures file.Parsed? ==> r == Expand(file.json, expandVars)
  {
    match file
    case NotFound => Some(EmptyConfig())
    case InvalidJson => Some(EmptyConfig())
    case Unreadable => None
    case Parsed(j) => Expand(j, expandVars)
  }

  // ------------------------------------------------------ going up

  /** The test enabling the up button: the parent differs from the path and exists. */
  predicate CanGoUp(path: string, pathExists: string -> bool)
  {
    PosixPath.Dirname(path) != path && pathExists(PosixPath.Dirname(path))
  }

  /** A path can go up exactly when it is not empty or all '/' and its parent exists, so "/" never can. */
  lemma CanGoUpIff(path: string, pathExists: string -> bool)
    ensures CanGoUp(path, pathExists) <==> !PosixPath.AllSlashes(path) && pathExists(PosixPath.Dirname(path))
  {
    PosixPath.DirnameFixedPoint(path);
  }

  /** The window's own state: the configuration and whether up-navigation is enabled. */
  class FileBrowser {
    var filesystemConfig: Json
    var upEnabled: bool
    var display: DisplayPanel.FileDisplay

    constructor(display: DisplayPanel.FileDisplay)
      ensures this.display == display && filesystemConfig == EmptyConfig() && !upEnabled
    {
      this.display := display;
      filesystemConfig := EmptyConfig();
      upEnabled := false;
    }

    /** `load_filesystem_config`; answers false where an exception escapes it. */
    method LoadFilesystemConfig(file: ConfigFile, expandVars: string -> string) returns (loaded: bool)
      modifies this`filesystemConfig
      ensures loaded <==> LoadConfig(file, expandVars).Some?
      ensures loaded ==> filesystemConfig == LoadConfig(file, expandVars).value
    {
      match file {
        case NotFound => filesystemConfig := EmptyConfig();
        case InvalidJson => filesystemConfig := EmptyConfig();
        case Unreadable => return false;
        case Parsed(j) =>
          var expanded := Expand(j, expandVars);
          if expanded.None? {
            return false;
          }
          filesystemConfig := expanded.value;
      }
      return true;
    }

    /** `on_filesystem_selected`: set the up button for the `~`-expanded path, then show the filesystem. */
    method OnFilesystemSelected(name: string, path: string, homes: string -> Option<string>, pathExists: string -> bool,
                                fs: string -> DisplayPanel.PathState, isDirAt: string -> bool)
      modifies this`upEnabled, display
      ensures upEnabled == CanGoUp(PosixPath.ExpandUser(path, homes), pathExists)
      ensures display.currentPath == PosixPath.ExpandUser(path, homes)
      ensures display.currentFilesystemName == name
      ensures display.items == DisplayPanel.ListingItems(display.currentPath, fs(display.currentPath), isDirAt)
    {
      var expanded := PosixPath.ExpandUser(path, homes);
      upEnabled := CanGoUp(expanded, pathExists);
      display.SetFilesystem(name, path, homes, fs, isDirAt);
    }

    /** `on_directory_changed`: set the up button for the new path. */
    method OnDirectoryChanged(newPath: string, pathExists: string -> bool)
      modifies this`upEnabled
      ensures upEnabled == CanGoUp(newPath, pathExists)
    {
      upEnabled := CanGoUp(newPath, pathExists);
    }

    /**
     * `on_navigate_up`: with a current path whose parent differs and exists,
     * store the parent as the current path; the display has no
     * `update_breadcrumb`, so the call after it raises before anything is
     * reloaded. Answers whether that point was reached.
     */
    method OnNavigateUp(pathExists: string -> bool) returns (reachedBreadcrumb: bool)
      modifies display`currentPath
      ensures var p := old(display.currentPath);
        reachedBreadcrumb <==> p != "" && CanGoUp(p, pathExists)
      ensures reachedBreadcrumb ==> display.currentPath == PosixPath.Dirname(old(display.currentPath))
      ensures !reachedBreadcrumb ==> display.currentPath == old(display.currentPath)
    {
      var currentPath := display.GetCurrentPath();
      reachedBreadcrumb := false;
      if currentPath != "" {
        var parentPath := PosixPath.Dirname(currentPath);
        if parentPath != currentPath && pathExists(parentPath) {
          display.currentPath := parentPath;
          reachedBreadcrumb := true;
        }
      }
    }
  }

  /** Going up from a path made only of '/' never changes it. */
  lemma NavigateUpStopsAtRoot(path: string, pathExists: string -> bool)
    requires PosixPath.AllSlashes(path)
    ensures !CanGoUp(path, pathExists)
  {
    CanGoUpIff(path, pathExists);
  }
}
