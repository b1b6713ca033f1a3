/**
 * The parts of Python's `posixpath` used by the scanner and the browser:
 * `basename`, `dirname`, two-argument `join`, `splitext` and `expanduser`.
 * The password database and `$HOME` are a parameter.
 */
module PosixPath {
  import opened Wrappers
  import opened Strings

  predicate AllSlashes(s: string)
  {
    forall i :: 0 <= i < |s| ==> s[i] == '/'
  }

  /** `os.path.basename(p)`: everything after the last '/'. */
  function Basename(p: string): (b: string)
    ensures '/' !in b
    ensures EndsWith(p, b)
  {
    p[RFind(p, '/') + 1..]
  }

  /** `os.path.dirname(p)`: the text up to the last '/', without trailing '/' unless it is all '/'. */
  function Dirname(p: string): (d: string)
    ensures StartsWith(p, d)
  {
    var head := p[..RFind(p, '/') + 1];
    if head != [] && !AllSlashes(head) then RStripChar(head, '/') else head
  }

  /** A path is its own parent exactly when it is empty or made only of '/', so "/" has no parent to go up to. */
  lemma DirnameFixedPoint(p: string)
    ensures Dirname(p) == p <==> AllSlashes(p)
  {
    var i := RFind(p, '/') + 1;
    var head := p[..i];
    if AllSlashes(p) {
      if p != [] {
        assert p[|p| - 1] == '/';
        assert i == |p|;
        assert head == p;
      }
    } else {
      if head != [] && !AllSlashes(head) {
        var r := RStripChar(head, '/');
        assert r == [] || r[|r| - 1] != '/';
        assert head[|head| - 1] == '/';
        assert |r| < |head| <= |p|;
      } else {
        assert head != p;
      }
    }
  }

  /** `os.path.join(a, b)` for two components. */
  function Join(a: string, b: string): (p: string)
    ensures EndsWith(p, b)
  {
    if StartsWith(b, "/") then b
    else if a == [] || EndsWith(a, "/") then a + b
    else a + "/" + b
  }

  /** The basename of a joined name is the name itself. */
  lemma BasenameOfJoin(dir: string, name: string)
    requires name != [] && '/' !in name
    ensures Basename(Join(dir, name)) == name
  {
    var p := Join(dir, name);
    assert p[|p| - |name|..] == name;
    var k := RFind(p, '/');
    forall j | |p| - |name| <= j < |p| ensures p[j] != '/' {
      assert p[j] == name[j - (|p| - |name|)];
    }
    if |p| > |name| {
      assert p[|p| - |name| - 1] == '/';
    } else {
      assert p == name;
    }
    assert k == |p| - |name| - 1;
  }

  /**
   * `os.path.splitext(p)`: the extension is the text from the last '.' of the
   * last component, unless that component is only dots before it.
   */
  function SplitExt(p: string): (r: (string, string))
    ensures r.0 + r.1 == p
    ensures r.1 == [] || (r.1[0] == '.' && '/' !in r.1 && '.' !in r.1[1..])
  {
    var sepIndex := RFind(p, '/');
    var dotIndex := RFind(p, '.');
    if dotIndex > sepIndex && exists k :: sepIndex < k < dotIndex && p[k] != '.' then
      assert p == p[..dotIndex] + p[dotIndex..];
      assert forall j :: dotIndex < j < |p| ==> p[j] != '.' && p[j] != '/';
      assert forall c :: c in p[dotIndex..][1..] ==> c != '.' && c != '/';
      (p[..dotIndex], p[dotIndex..])
    else
      assert p + [] == p;
      (p, [])
  }

  /**
   * `os.path.expanduser(p)`: a leading `~` or `~name` up to the first '/' is
   * replaced by that user's home without trailing '/'. `homes("")` is the
   * current user's home (`$HOME`); a missing home leaves `p` as it is.
   */
  function ExpandUser(p: string, homes: string -> Option<string>): (r: string)
    ensures !StartsWith(p, "~") ==> r == p
    ensures r != []  || p == []
  {
    if !StartsWith(p, "~") then p
    else
      var i := if '/' in p[1..] then 1 + IndexOf(p[1..], '/') else |p|;
      var name := p[1..i];
      match homes(name)
      case None => p
      case Some(home) =>
        var expanded := RStripChar(home, '/') + p[i..];
        if expanded == [] then "/" else expanded
  }
}
