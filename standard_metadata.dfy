/**
 * The standard-attributes collector of the Lustre metadata scanner
 * (`get_standard_metadata`, `get_file_hash` and `format_bytes` in
 * dirscans/build_lustre_json.py).
 *
 * What the operating system reports (the `os.stat` result, the passwd and
 * group entries, `readlink`, and the digests of the file's content) is given
 * as a `StandardProbe`; the collector's own decisions are modelled here.
 */
module StandardMetadata {
  import opened Wrappers
  import opened Strings
  import opened PosixPath

  // ---------------------------------------------------------------------
  // Arithmetic on st_mode
  // ---------------------------------------------------------------------

  lemma DivModUnique(m: int, d: int, q: int, r: int)
    requires d > 0 && 0 <= r < d && m == d * q + r
    ensures m / d == q && m % d == r
  {
    var q', r' := m / d, m % d;
    assert d * q + r == d * q' + r';
    if q > q' {
      assert d * (q - q') == d * q - d * q';
      MulAtLeast(d, q - q');
    } else if q < q' {
      assert d * (q' - q) == d * q' - d * q;
      MulAtLeast(d, q' - q);
    }
  }

  lemma MulAtLeast(a: int, b: int)
    requires a > 0 && b >= 1
    ensures a * b >= a
  {
    assert a * b == a * (b - 1) + a;
  }

  /** Dividing twice is dividing by the product. */
  lemma DivDiv(m: nat, a: nat, b: nat)
    requires a > 0 && b > 0
    ensures m / a / b == m / (a * b)
  {
    var q, r := m / a, m % a;
    var q2, r2 := q / b, q % b;
    MulAdd(a, b * q2, r2);
    MulAssoc(a, b, q2);
    assert m == (a * b) * q2 + (a * r2 + r);
    MulMono(a, r2, b - 1);
    MulAdd(a, b - 1, 1);
    DivModUnique(m, a * b, q2, a * r2 + r);
  }

  lemma MulAdd(a: int, x: int, y: int)
    ensures a * (x + y) == a * x + a * y
  {
  }

  lemma MulAssoc(a: int, b: int, c: int)
    ensures a * (b * c) == (a * b) * c
  {
  }

  lemma MulMono(a: nat, x: int, y: int)
    requires x <= y
    ensures a * x <= a * y
  {
    MulAdd(a, x, y - x);
  }

  /** One octal digit is the sum of its three bits. */
  lemma OctalDigitBits(x: nat)
    ensures x % 8 == 4 * ((x / 4) % 2) + 2 * ((x / 2) % 2) + x % 2
  {
    var q, r := x / 8, x % 8;
    assert x == 8 * q + r;
    DivModUnique(x, 4, 2 * q + r / 4, r % 4);
    DivModUnique(x, 2, 4 * q + r / 2, r % 2);
    DivModUnique(2 * q + r / 4, 2, q, r / 4);
    DivModUnique(4 * q + r / 2, 2, 2 * q + r / 4, (r / 2) % 2);
  }

  // ---------------------------------------------------------------------
  // File type
  // ---------------------------------------------------------------------

  /** The file-type field of st_mode: `(mode & S_IFMT) >> 12`. */
  function FormatField(mode: nat): nat
  {
    (mode / 4096) % 16  // 4096 = 0o10000
  }

  // The S_IFMT values of the seven POSIX file types, shifted right by 12 bits.
  const IFREG: nat := 8    // 0o10
  const IFDIR: nat := 4    // 0o04
  const IFLNK: nat := 10   // 0o12
  const IFBLK: nat := 6    // 0o06
  const IFCHR: nat := 2    // 0o02
  const IFIFO: nat := 1    // 0o01
  const IFSOCK: nat := 12  // 0o14

  datatype FileType = Regular | Directory | Symlink | BlockDevice | CharacterDevice | Fifo | Socket | Unknown

  /** The label the scanner stores for each type. */
  function TypeLabel(t: FileType): string
  {
    match t
    case Regular => "regular"
    case Directory => "directory"
    case Symlink => "symlink"
    case BlockDevice => "block_device"
    case CharacterDevice => "character_device"
    case Fifo => "fifo"
    case Socket => "socket"
    case Unknown => "unknown"
  }

  /**
   * The `S_ISREG`, `S_ISDIR`, ... chain: the type tests are tried in a fixed
   * order and `Unknown` is the catch-all, so every mode gets exactly one label.
   */
  function ClassifyMode(mode: nat): (t: FileType)
    ensures t == Regular <==> FormatField(mode) == IFREG
    ensures t == Directory <==> FormatField(mode) == IFDIR
    ensures t == Symlink <==> FormatField(mode) == IFLNK
    ensures t == BlockDevice <==> FormatField(mode) == IFBLK
    ensures t == CharacterDevice <==> FormatField(mode) == IFCHR
    ensures t == Fifo <==> FormatField(mode) == IFIFO
    ensures t == Socket <==> FormatField(mode) == IFSOCK
    ensures t == Unknown <==> FormatField(mode) !in {IFREG, IFDIR, IFLNK, IFBLK, IFCHR, IFIFO, IFSOCK}
  {
    var f := FormatField(mode);
    if f == IFREG then Regular
    else if f == IFDIR then Directory
    else if f == IFLNK then Symlink
    else if f == IFBLK then BlockDevice
    else if f == IFCHR then CharacterDevice
    else if f == IFIFO then Fifo
    else if f == IFSOCK then Socket
    else Unknown
  }

  /** The seven labels are distinct, so the label determines the type. */
  lemma {:induction false} TypeLabelInjective(t: FileType, u: FileType)
    requires TypeLabel(t) == TypeLabel(u)
    ensures t == u
  {
    match t
    case Regular => assert TypeLabel(u)[0] == 'r';
    case Directory => assert TypeLabel(u)[0] == 'd';
    case Symlink => assert TypeLabel(u)[..2] == "sy";
    case BlockDevice => assert TypeLabel(u)[0] == 'b';
    case CharacterDevice => assert TypeLabel(u)[0] == 'c';
    case Fifo => assert TypeLabel(u)[0] == 'f';
    case Socket => assert TypeLabel(u)[..2] == "so";
    case Unknown => assert TypeLabel(u)[0] == 'u';
  }

  // ---------------------------------------------------------------------
  // Permissions
  // ---------------------------------------------------------------------

  // The single-bit S_I* permission flags.
  const S_ISUID: nat := 2048  // 0o4000
  const S_ISGID: nat := 1024  // 0o2000
  const S_ISVTX: nat := 512   // 0o1000
  const S_IRUSR: nat := 256   // 0o400
  const S_IWUSR: nat := 128   // 0o200
  const S_IXUSR: nat := 64    // 0o100
  const S_IRGRP: nat := 32    // 0o40
  const S_IWGRP: nat := 16    // 0o20
  const S_IXGRP: nat := 8     // 0o10
  const S_IROTH: nat := 4     // 0o4
  const S_IWOTH: nat := 2     // 0o2
  const S_IXOTH: nat := 1     // 0o1

  /** `bool(mode & flag)` for a single-bit flag. */
  predicate HasFlag(mode: nat, flag: nat)
    requires flag > 0
  {
    (mode / flag) % 2 == 1
  }

  datatype Permissions = Permissions(
    octal: string,
    symbolic: string,
    userReadable: bool, userWritable: bool, userExecutable: bool,
    groupReadable: bool, groupWritable: bool, groupExecutable: bool,
    otherReadable: bool, otherWritable: bool, otherExecutable: bool,
    setuid: bool, setgid: bool, sticky: bool)

  /** Octal digits of `n`, most significant first, as `oct()` prints them after "0o". */
  function OctalDigits(n: nat): (s: string)
    ensures s != [] && s[|s| - 1] == DigitChar(n % 8)
  {
    if n < 8 then [DigitChar(n)] else OctalDigits(n / 8) + [DigitChar(n % 8)]
  }

  /** `oct(mode)[-3:]`. */
  function OctalField(mode: nat): (s: string)
    ensures |s| == 3
  {
    var full := "0o" + OctalDigits(mode);
    full[|full| - 3..]
  }

  /**
   * Once a type bit (or any bit from 64 = 0o100 up) is set, `oct(mode)[-3:]` is the
   * owner, group and other digits, so setuid, setgid and sticky never appear.
   */
  lemma {:induction false} OctalFieldDigits(mode: nat)
    requires mode >= 64
    ensures OctalField(mode) == [DigitChar((mode / 64) % 8), DigitChar((mode / 8) % 8), DigitChar(mode % 8)]
  {
    var d1 := OctalDigits(mode / 8);
    DivDiv(mode, 8, 8);
    assert mode / 8 >= 8;
    assert d1 == OctalDigits(mode / 8 / 8) + [DigitChar((mode / 8) % 8)];
    var d2 := OctalDigits(mode / 8 / 8);
    var full := "0o" + OctalDigits(mode);
    assert full == "0o" + d2 + [DigitChar((mode / 8) % 8)] + [DigitChar(mode % 8)];
    assert full[|full| - 3] == d2[|d2| - 1];
  }

  /** The execute position of a triad of `stat.filemode`, which also shows the special bit. */
  function ExecChar(x: bool, special: bool, withX: char, withoutX: char): char
  {
    if special then (if x then withX else withoutX) else (if x then 'x' else '-')
  }

  /** The first character of `stat.filemode` (CPython's C implementation). */
  function TypeChar(t: FileType): char
  {
    match t
    case Regular => '-'
    case Directory => 'd'
    case Symlink => 'l'
    case BlockDevice => 'b'
    case CharacterDevice => 'c'
    case Fifo => 'p'
    case Socket => 's'
    case Unknown => '?'
  }

  /** `stat.filemode`: the type character, then the user, group and other triads. */
  function FileMode(t: FileType, ur: bool, uw: bool, ux: bool, gr: bool, gw: bool, gx: bool,
                    or: bool, ow: bool, ox: bool, su: bool, sg: bool, st: bool): (s: string)
    ensures |s| == 10
  {
    [TypeChar(t),
     if ur then 'r' else '-', if uw then 'w' else '-', ExecChar(ux, su, 's', 'S'),
     if gr then 'r' else '-', if gw then 'w' else '-', ExecChar(gx, sg, 's', 'S'),
     if or then 'r' else '-', if ow then 'w' else '-', ExecChar(ox, st, 't', 'T')]
  }

  /** The digit a triad of permission flags stands for. */
  function TriadValue(r: bool, w: bool, x: bool): (v: nat)
    ensures v < 8
  {
    (if r then 4 else 0) + (if w then 2 else 0) + (if x then 1 else 0)
  }

  /** The `permissions` sub-record: `oct(mode)[-3:]`, `stat.filemode(mode)` and the twelve `bool(mode & S_I*)` flags. */
  function DecodePermissions(mode: nat): (p: Permissions)
    ensures p.userReadable == HasFlag(mode, S_IRUSR) && p.userWritable == HasFlag(mode, S_IWUSR)
    ensures p.userExecutable == HasFlag(mode, S_IXUSR)
    ensures p.groupReadable == HasFlag(mode, S_IRGRP) && p.groupWritable == HasFlag(mode, S_IWGRP)
    ensures p.groupExecutable == HasFlag(mode, S_IXGRP)
    ensures p.otherReadable == HasFlag(mode, S_IROTH) && p.otherWritable == HasFlag(mode, S_IWOTH)
    ensures p.otherExecutable == HasFlag(mode, S_IXOTH)
    ensures p.setuid == HasFlag(mode, S_ISUID) && p.setgid == HasFlag(mode, S_ISGID)
    ensures p.sticky == HasFlag(mode, S_ISVTX)
    ensures |p.octal| == 3 && |p.symbolic| == 10
  {
    PermissionsOf(OctalField(mode), ClassifyMode(mode),
                  HasFlag(mode, S_IRUSR), HasFlag(mode, S_IWUSR), HasFlag(mode, S_IXUSR),
                  HasFlag(mode, S_IRGRP), HasFlag(mode, S_IWGRP), HasFlag(mode, S_IXGRP),
                  HasFlag(mode, S_IROTH), HasFlag(mode, S_IWOTH), HasFlag(mode, S_IXOTH),
                  HasFlag(mode, S_ISUID), HasFlag(mode, S_ISGID), HasFlag(mode, S_ISVTX))
  }

  /** The sub-record for an octal string, a file type and the twelve flags. */
  function PermissionsOf(octal: string, t: FileType, ur: bool, uw: bool, ux: bool, gr: bool, gw: bool, gx: bool,
                         or: bool, ow: bool, ox: bool, su: bool, sg: bool, st: bool): Permissions
  {
    Permissions(octal, FileMode(t, ur, uw, ux, gr, gw, gx, or, ow, ox, su, sg, st),
                ur, uw, ux, gr, gw, gx, or, ow, ox, su, sg, st)
  }

  /**
   * The octal string and the nine rwx flags describe the same bits: each
   * octal digit is 4·read + 2·write + 1·execute of its class.
   */
  lemma OctalAgreesWithFlags(mode: nat)
    requires mode >= 64
    ensures var p := DecodePermissions(mode);
      p.octal == [DigitChar(TriadValue(p.userReadable, p.userWritable, p.userExecutable)),
                  DigitChar(TriadValue(p.groupReadable, p.groupWritable, p.groupExecutable)),
                  DigitChar(TriadValue(p.otherReadable, p.otherWritable, p.otherExecutable))]
  {
    OctalFieldDigits(mode);
    TriadBits(mode, 64);
    TriadBits(mode, 8);
    TriadBits(mode, 1);
  }

  /** The three flags at `unit`·4, ·2, ·1 add up to the octal digit at `unit`. */
  lemma TriadBits(mode: nat, unit: nat)
    requires unit > 0
    ensures (mode / unit) % 8 ==
      TriadValue(HasFlag(mode, unit * 4), HasFlag(mode, unit * 2), HasFlag(mode, unit))
  {
    var x := mode / unit;
    OctalDigitBits(x);
    DivDiv(mode, unit, 4);
    DivDiv(mode, unit, 2);
    assert unit * 4 == 4 * unit && unit * 2 == 2 * unit;
  }

  /** `stat.filemode` shows each flag in its own position. */
  lemma SymbolicAgreesWithFlags(mode: nat)
    ensures SymbolicShowsFlags(DecodePermissions(mode), ClassifyMode(mode))
  {
    FileModeShowsFlags(OctalField(mode), ClassifyMode(mode),
                       HasFlag(mode, S_IRUSR), HasFlag(mode, S_IWUSR), HasFlag(mode, S_IXUSR),
                       HasFlag(mode, S_IRGRP), HasFlag(mode, S_IWGRP), HasFlag(mode, S_IXGRP),
                       HasFlag(mode, S_IROTH), HasFlag(mode, S_IWOTH), HasFlag(mode, S_IXOTH),
                       HasFlag(mode, S_ISUID), HasFlag(mode, S_ISGID), HasFlag(mode, S_ISVTX));
  }

  /**
   * The ten characters of `p.symbolic` show the type and all twelve flags: 'r'
   * and 'w' in place, the execute position 'x' or the special letter when the
   * execute bit is set, an 's'/'S' (or 't'/'T') exactly when the special bit is.
   */
  predicate OneOf(c: char, a: char, b: char)
  {
    c == a || c == b
  }

  predicate SymbolicShowsFlags(p: Permissions, t: FileType)
  {
    && |p.symbolic| == 10
    && p.symbolic[0] == TypeChar(t)
    && UserShown(p) && GroupShown(p) && OtherShown(p)
  }

  predicate UserShown(p: Permissions)
    requires |p.symbolic| == 10
  {
    && (p.symbolic[1] == 'r' <==> p.userReadable)
    && (p.symbolic[2] == 'w' <==> p.userWritable)
    && (OneOf(p.symbolic[3], 'x', 's') <==> p.userExecutable)
    && (OneOf(p.symbolic[3], 's', 'S') <==> p.setuid)
  }

  predicate GroupShown(p: Permissions)
    requires |p.symbolic| == 10
  {
    && (p.symbolic[4] == 'r' <==> p.groupReadable)
    && (p.symbolic[5] == 'w' <==> p.groupWritable)
    && (OneOf(p.symbolic[6], 'x', 's') <==> p.groupExecutable)
    && (OneOf(p.symbolic[6], 's', 'S') <==> p.setgid)
  }

  predicate OtherShown(p: Permissions)
    requires |p.symbolic| == 10
  {
    && (p.symbolic[7] == 'r' <==> p.otherReadable)
    && (p.symbolic[8] == 'w' <==> p.otherWritable)
    && (OneOf(p.symbolic[9], 'x', 't') <==> p.otherExecutable)
    && (OneOf(p.symbolic[9], 't', 'T') <==> p.sticky)
  }

  lemma FileModeShowsFlags(octal: string, t: FileType, ur: bool, uw: bool, ux: bool, gr: bool, gw: bool, gx: bool,
                           or: bool, ow: bool, ox: bool, su: bool, sg: bool, st: bool)
    ensures SymbolicShowsFlags(PermissionsOf(octal, t, ur, uw, ux, gr, gw, gx, or, ow, ox, su, sg, st), t)
  {
    var p := PermissionsOf(octal, t, ur, uw, ux, gr, gw, gx, or, ow, ox, su, sg, st);
    UserFlagsShown(p, ur, uw, ux, su);
    GroupFlagsShown(p, gr, gw, gx, sg);
    OtherFlagsShown(p, or, ow, ox, st);
  }

  lemma UserFlagsShown(p: Permissions, r: bool, w: bool, x: bool, special: bool)
    requires |p.symbolic| == 10
    requires p.userReadable == r && p.userWritable == w && p.userExecutable == x && p.setuid == special
    requires p.symbolic[1] == (if r then 'r' else '-') && p.symbolic[2] == (if w then 'w' else '-')
    requires p.symbolic[3] == ExecChar(x, special, 's', 'S')
    ensures UserShown(p)
  {
    ExecCharShowsFlags(x, special, 's', 'S');
  }

  lemma GroupFlagsShown(p: Permissions, r: bool, w: bool, x: bool, special: bool)
    requires |p.symbolic| == 10
    requires p.groupReadable == r && p.groupWritable == w && p.groupExecutable == x && p.setgid == special
    requires p.symbolic[4] == (if r then 'r' else '-') && p.symbolic[5] == (if w then 'w' else '-')
    requires p.symbolic[6] == ExecChar(x, special, 's', 'S')
    ensures GroupShown(p)
  {
    ExecCharShowsFlags(x, special, 's', 'S');
  }

  lemma OtherFlagsShown(p: Permissions, r: bool, w: bool, x: bool, special: bool)
    requires |p.symbolic| == 10
    requires p.otherReadable == r && p.otherWritable == w && p.otherExecutable == x && p.sticky == special
    requires p.symbolic[7] == (if r then 'r' else '-') && p.symbolic[8] == (if w then 'w' else '-')
    requires p.symbolic[9] == ExecChar(x, special, 't', 'T')
    ensures OtherShown(p)
  {
    ExecCharShowsFlags(x, special, 't', 'T');
  }

  /** The execute position tells both the execute bit and the special bit. */
  lemma ExecCharShowsFlags(x: bool, special: bool, withX: char, withoutX: char)
    requires withX != withoutX && !OneOf(withX, 'x', '-') && !OneOf(withoutX, 'x', '-')
    ensures OneOf(ExecChar(x, special, withX, withoutX), 'x', withX) <==> x
    ensures OneOf(ExecChar(x, special, withX, withoutX), withX, withoutX) <==> special
  {
  }

  // ---------------------------------------------------------------------
  // Ownership
  // ---------------------------------------------------------------------

  datatype Ownership = Ownership(uid: nat, gid: nat, username: string, groupname: string)

  /**
   * `pwd.getpwuid(id).pw_name`, or `str(id)` on a `KeyError`: a lookup miss
   * yields the decimal text of the id, never an error.
   */
  function OwnerName(id: nat, entry: Option<string>): (name: string)
    ensures entry.Some? ==> name == entry.value
    ensures entry.None? ==> IsDigits(name) && DigitsValue(name) == id
  {
    NatToStringRoundTrip(id);
    match entry
    case Some(n) => n
    case None => NatToString(id)
  }

  // ---------------------------------------------------------------------
  // Checksums
  // ---------------------------------------------------------------------

  /** Files larger than this many bytes are not hashed (100 MiB). */
  const HashCeiling: nat := 100 * 1024 * 1024

  datatype Checksums = Checksums(md5: Option<string>, sha1: Option<string>, sha256: Option<string>)

  /**
   * `get_file_hash`: `None` above the ceiling; otherwise the digest of the
   * content, which is itself `None` when the file cannot be read.
   */
  function FileHash(size: nat, digest: Option<string>): (h: Option<string>)
    ensures size > HashCeiling ==> h == None
    ensures size <= HashCeiling ==> h == digest
  {
    if size > HashCeiling then None else digest
  }

  /**
   * The `checksums` sub-record: present exactly for non-empty regular files;
   * every digest is `None` above 100 MiB, and a file of exactly 100 MiB is
   * still hashed.
   */
  function ChecksumsFor(t: FileType, size: nat, md5: Option<string>, sha1: Option<string>, sha256: Option<string>)
    : (c: Option<Checksums>)
    ensures c.Some? <==> t == Regular && size > 0
    ensures c.Some? && size > HashCeiling ==> c.value == Checksums(None, None, None)
    ensures c.Some? && size <= HashCeiling ==> c.value == Checksums(md5, sha1, sha256)
  {
    if t == Regular && size > 0 then
      Some(Checksums(FileHash(size, md5), FileHash(size, sha1), FileHash(size, sha256)))
    else None
  }

  // ---------------------------------------------------------------------
  // format_bytes
  // ---------------------------------------------------------------------

  const Units: seq<string> := ["B", "KB", "MB", "GB", "TB", "PB"]

  function Pow1024(k: nat): (p: nat)
    ensures p >= 1
  {
    if k == 0 then 1 else 1024 * Pow1024(k - 1)
  }

  lemma {:induction false} Pow1024Monotone(j: nat, k: nat)
    requires j <= k
    ensures Pow1024(j) <= Pow1024(k)
    decreases k
  {
    if j < k {
      Pow1024Monotone(j, k - 1);
    }
  }

  /** `k` is the largest unit index, at most 5 (PB), with `bytes >= 1024^k`. */
  predicate IsUnitFor(bytes: nat, k: nat)
  {
    k < |Units| && Pow1024(k) <= bytes && (k == |Units| - 1 || bytes < Pow1024(k + 1))
  }

  /** The rendered size without the `%.1f` formatting: "0 B", or the integer part and the unit. */
  datatype SizeText = ZeroBytes | Scaled(whole: nat, unitIndex: nat)

  /** The unit `format_bytes` settles on, counting up from `k`. */
  function UnitFrom(bytes: nat, k: nat): (u: nat)
    requires k < |Units| && Pow1024(k) <= bytes
    ensures IsUnitFor(bytes, u) && u >= k
    decreases |Units| - k
  {
    if k < |Units| - 1 && bytes >= Pow1024(k + 1) then UnitFrom(bytes, k + 1) else k
  }

  /** What `format_bytes(bytes)` shows, up to the rounding of the fraction. */
  function HumanSize(bytes: nat): (t: SizeText)
  {
    if bytes == 0 then ZeroBytes
    else
      var k := UnitFrom(bytes, 0);
      Scaled(bytes / Pow1024(k), k)
  }

  /** Only one unit index satisfies the rule. */
  lemma UnitUnique(bytes: nat, j: nat, k: nat)
    requires IsUnitFor(bytes, j) && IsUnitFor(bytes, k)
    ensures j == k
  {
    if j < k {
      Pow1024Monotone(j + 1, k);
    } else if k < j {
      Pow1024Monotone(k + 1, j);
    }
  }

  /** A larger size never picks a smaller unit. */
  lemma UnitMonotone(b1: nat, b2: nat, k1: nat, k2: nat)
    requires b1 <= b2 && IsUnitFor(b1, k1) && IsUnitFor(b2, k2)
    ensures k1 <= k2
  {
    if k2 < k1 {
      Pow1024Monotone(k2 + 1, k1);
    }
  }

  /**
   * `format_bytes`: "0 B" for zero; otherwise divide by 1024 while the value is
   * at least 1024 and a larger unit exists. The value is kept as its integer
   * part (dividing a float by 1024 and flooring once equals repeated integer
   * division, and the comparisons against 1024 agree).
   */
  method FormatBytes(bytes: nat) returns (text: SizeText)
    ensures text == ZeroBytes <==> bytes == 0
    ensures text.Scaled? ==> IsUnitFor(bytes, text.unitIndex) && text.whole == bytes / Pow1024(text.unitIndex)
    ensures text.Scaled? ==> 1 <= text.whole && (text.unitIndex < |Units| - 1 ==> text.whole < 1024)
  {
    if bytes == 0 {
      return ZeroBytes;
    }
    var unitIndex := 0;
    var size := bytes;
    while size >= 1024 && unitIndex < |Units| - 1
      invariant unitIndex < |Units|
      invariant size == bytes / Pow1024(unitIndex)
      invariant Pow1024(unitIndex) <= bytes
    {
      DivDiv(bytes, Pow1024(unitIndex), 1024);
      assert Pow1024(unitIndex + 1) == Pow1024(unitIndex) * 1024;
      size := size / 1024;
      unitIndex := unitIndex + 1;
      DivLowerBound(bytes, Pow1024(unitIndex));
    }
    if unitIndex < |Units| - 1 {
      DivUpperBound(bytes, Pow1024(unitIndex), 1024);
      assert Pow1024(unitIndex + 1) == Pow1024(unitIndex) * 1024;
    }
    DivLowerBound(bytes, Pow1024(unitIndex));
    text := Scaled(size, unitIndex);
  }

  lemma DivLowerBound(m: nat, d: nat)
    requires d > 0
    ensures m / d >= 1 <==> m >= d
  {
  }

  lemma DivUpperBound(m: nat, d: nat, c: nat)
    requires d > 0 && c > 0
    ensures m / d < c <==> m < d * c
  {
    var q, r := m / d, m % d;
    assert m == d * q + r;
    if q < c {
      assert q <= c - 1;
      assert d * q <= d * (c - 1);
    } else {
      assert d * q >= d * c;
    }
  }

  /** `FormatBytes` and `HumanSize` agree. */
  lemma FormatBytesIsHumanSize(bytes: nat, text: SizeText)
    requires text == ZeroBytes <==> bytes == 0
    requires text.Scaled? ==> IsUnitFor(bytes, text.unitIndex) && text.whole == bytes / Pow1024(text.unitIndex)
    ensures text == HumanSize(bytes)
  {
    if bytes > 0 {
      UnitUnique(bytes, text.unitIndex, UnitFrom(bytes, 0));
    }
  }

  // ---------------------------------------------------------------------
  // The collector
  // ---------------------------------------------------------------------

  /** The float timestamps and their ISO renderings, as the platform reports them. */
  datatype Times = Times(accessTime: real, modifyTime: real, changeTime: real, accessIso: string, modifyIso: string, changeIso: string)

  datatype Stat = Stat(mode: nat, uid: nat, gid: nat, size: nat, ino: nat, dev: nat, nlink: nat, times: Times)

  datatype Inode = Inode(number: nat, device: nat, links: nat)

  /** What the platform answers for one path. */
  datatype StandardProbe = StandardProbe(
    stat: Option<Stat>,
    statError: string,            // `str(e)` of the OSError when `stat` is None
    passwdName: Option<string>,   // pwd.getpwuid(uid).pw_name, None on KeyError
    groupName: Option<string>,    // grp.getgrgid(gid).gr_name, None on KeyError
    linkTarget: Option<string>,   // os.readlink, None on OSError
    md5: Option<string>, sha1: Option<string>, sha256: Option<string>)  // content digests, None when unreadable

  /** The `standard_metadata` record; a failed `os.stat` leaves only `error`. */
  datatype StandardRecord =
    | MetadataError(error: string)
    | Metadata(
        path: string, basename: string, sizeBytes: nat, sizeHuman: SizeText,
        fileType: FileType, permissions: Permissions, ownership: Ownership,
        timestamps: Times, inode: Inode,
        symlinkTarget: Option<Option<string>>,   // the key exists only for symlinks
        checksums: Option<Checksums>)            // the key exists only for non-empty regular files

  const StatErrorPrefix: string := "Could not get standard metadata: "

  /** `get_standard_metadata(path)`. */
  function CollectStandard(path: string, probe: StandardProbe): (m: StandardRecord)
    ensures probe.stat.None? <==> m.MetadataError?
    ensures m.MetadataError? ==> m.error == StatErrorPrefix + probe.statError
    ensures m.Metadata? ==>
      && m.fileType == ClassifyMode(probe.stat.value.mode)
      && m.sizeBytes == probe.stat.value.size
      && m.sizeHuman == HumanSize(m.sizeBytes)
      && EndsWith(path, m.basename) && '/' !in m.basename
      && (m.symlinkTarget.Some? <==> m.fileType == Symlink)
      && (m.checksums.Some? <==> m.fileType == Regular && m.sizeBytes > 0)
      && m.ownership.uid == probe.stat.value.uid && m.ownership.gid == probe.stat.value.gid
      && (probe.passwdName.None? ==> IsDigits(m.ownership.username) && DigitsValue(m.ownership.username) == m.ownership.uid)
      && (probe.groupName.None? ==> IsDigits(m.ownership.groupname) && DigitsValue(m.ownership.groupname) == m.ownership.gid)
    ensures m.Metadata? ==>
      && m.path == path && m.basename == Basename(path)
      && m.permissions == DecodePermissions(probe.stat.value.mode)
      && m.timestamps == probe.stat.value.times
      && m.inode == Inode(probe.stat.value.ino, probe.stat.value.dev, probe.stat.value.nlink)
    ensures m.Metadata? ==>
      && m.ownership.username == OwnerName(probe.stat.value.uid, probe.passwdName)
      && m.ownership.groupname == OwnerName(probe.stat.value.gid, probe.groupName)
      && (probe.passwdName.Some? ==> m.ownership.username == probe.passwdName.value)
      && (probe.groupName.Some? ==> m.ownership.groupname == probe.groupName.value)
    ensures m.Metadata? ==>
      && (m.symlinkTarget.Some? ==> m.symlinkTarget.value == probe.linkTarget)
      && m.checksums == ChecksumsFor(m.fileType, m.sizeBytes, probe.md5, probe.sha1, probe.sha256)
  {
    match probe.stat
    case None => MetadataError(StatErrorPrefix + probe.statError)
    case Some(st) =>
      var t := ClassifyMode(st.mode);
      Metadata(
        path, Basename(path), st.size, HumanSize(st.size), t,
        DecodePermissions(st.mode),
        Ownership(st.uid, st.gid, OwnerName(st.uid, probe.passwdName), OwnerName(st.gid, probe.groupName)),
        st.times, Inode(st.ino, st.dev, st.nlink),
        if t == Symlink then Some(probe.linkTarget) else None,
        ChecksumsFor(t, st.size, probe.md5, probe.sha1, probe.sha256))
  }
}
