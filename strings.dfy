/**
 * The pieces of Python's `str` behaviour the scanner and its consumers rely on:
 * whitespace stripping, `in`, `startswith`/`endswith`, `split(sep)`, `split()`,
 * `replace` of one character, `isdigit`, `int()`, `str()` of a natural number
 * and ASCII `lower()`.
 */
module Strings {
  import opened Wrappers

  /** Python's `str.isspace` on the characters below U+0100. */
  predicate IsSpace(c: char)
  {
    ('\t' <= c <= '\r') || ('\U{1C}' <= c <= ' ') || c == '\U{85}' || c == '\U{A0}'
  }

  /** `s.lstrip()`: drop leading whitespace. */
  function LStrip(s: string): (r: string)
    ensures |r| <= |s| && r == s[|s| - |r|..]
    ensures r == [] || !IsSpace(r[0])
    ensures forall i :: 0 <= i < |s| - |r| ==> IsSpace(s[i])
  {
    if s != [] && IsSpace(s[0]) then LStrip(s[1..]) else s
  }

  /** `s.rstrip()`: drop trailing whitespace. */
  function RStrip(s: string): (r: string)
    ensures |r| <= |s| && r == s[..|r|]
    ensures r == [] || !IsSpace(r[|r| - 1])
    ensures forall i :: |r| <= i < |s| ==> IsSpace(s[i])
  {
    if s != [] && IsSpace(s[|s| - 1]) then RStrip(s[..|s| - 1]) else s
  }

  /** `s.strip()`. */
  function Strip(s: string): (r: string)
    ensures r == [] || (!IsSpace(r[0]) && !IsSpace(r[|r| - 1]))
    ensures |r| <= |s|
  {
    RStrip(LStrip(s))
  }

  /** `s.rstrip(c)` for a single character `c`. */
  function RStripChar(s: string, c: char): (r: string)
    ensures |r| <= |s| && r == s[..|r|]
    ensures r == [] || r[|r| - 1] != c
    ensures forall i :: |r| <= i < |s| ==> s[i] == c
  {
    if s != [] && s[|s| - 1] == c then RStripChar(s[..|s| - 1], c) else s
  }

  /** `s.lstrip(c)` for a single character `c`. */
  function LStripChar(s: string, c: char): (r: string)
    ensures |r| <= |s| && r == s[|s| - |r|..]
    ensures r == [] || r[0] != c
    ensures forall i :: 0 <= i < |s| - |r| ==> s[i] == c
  {
    if s != [] && s[0] == c then LStripChar(s[1..], c) else s
  }

  predicate OccursAt(s: string, pat: string, i: nat)
  {
    i + |pat| <= |s| && s[i..i + |pat|] == pat
  }

  /** Python's `pat in s` for strings. */
  predicate Contains(s: string, pat: string)
  {
    exists i: nat | i <= |s| :: OccursAt(s, pat, i)
  }

  /** Every character of a pattern found in `s` occurs in `s`. */
  lemma ContainsChar(s: string, pat: string, c: char)
    requires Contains(s, pat) && c in pat
    ensures c in s
  {
    var i: nat :| i <= |s| && OccursAt(s, pat, i);
    var k :| 0 <= k < |pat| && pat[k] == c;
    assert s[i + k] == pat[k];
  }

  /** Stripping only removes characters. */
  lemma StripChar(s: string, c: char)
    requires c in Strip(s)
    ensures c in s
  {
    var l := LStrip(s);
    var k :| 0 <= k < |Strip(s)| && Strip(s)[k] == c;
    assert Strip(s)[k] == l[k];
    assert l[k] == s[|s| - |l| + k];
  }

  predicate StartsWith(s: string, prefix: string)
  {
    |prefix| <= |s| && s[..|prefix|] == prefix
  }

  predicate EndsWith(s: string, suffix: string)
  {
    |suffix| <= |s| && s[|s| - |suffix|..] == suffix
  }

  /** `s.replace(a, b)` for single characters. */
  function ReplaceChar(s: string, a: char, b: char): (r: string)
    ensures |r| == |s|
    ensures forall i :: 0 <= i < |s| ==> r[i] == (if s[i] == a then b else s[i])
  {
    if s == [] then [] else [if s[0] == a then b else s[0]] + ReplaceChar(s[1..], a, b)
  }

  /** Index of the first `c` in `s`. */
  function IndexOf(s: string, c: char): (i: nat)
    requires c in s
    ensures i < |s| && s[i] == c && c !in s[..i]
  {
    if s[0] == c then 0 else 1 + IndexOf(s[1..], c)
  }

  /** Index of the last `c` in `s`, or -1 (Python's `rfind`). */
  function RFind(s: string, c: char): (i: int)
    ensures -1 <= i < |s|
    ensures i >= 0 ==> s[i] == c
    ensures forall j :: i < j < |s| ==> s[j] != c
  {
    if s == [] then -1 else if s[|s| - 1] == c then |s| - 1 else RFind(s[..|s| - 1], c)
  }

  /** Python's `s.split(sep)` for a one-character separator. */
  function Split(s: string, sep: char): (parts: seq<string>)
    ensures |parts| >= 1
    ensures forall k :: 0 <= k < |parts| ==> sep !in parts[k]
    ensures sep !in s ==> parts == [s]
    ensures StartsWith(s, parts[0])
    decreases |s|
  {
    if sep !in s then [s]
    else
      var i := IndexOf(s, sep);
      [s[..i]] + Split(s[i + 1..], sep)
  }

  /** `sep.join(parts)`. */
  function Join(parts: seq<string>, sep: char): string
    requires |parts| >= 1
  {
    if |parts| == 1 then parts[0] else parts[0] + [sep] + Join(parts[1..], sep)
  }

  /** Splitting and joining again gives back the string. */
  lemma {:induction false} SplitJoin(s: string, sep: char)
    ensures Join(Split(s, sep), sep) == s
    decreases |s|
  {
    if sep in s {
      var i := IndexOf(s, sep);
      var rest := Split(s[i + 1..], sep);
      SplitJoin(s[i + 1..], sep);
      assert Split(s, sep) == [s[..i]] + rest;
      JoinCons(s[..i], rest, sep);
      assert s == s[..i] + [sep] + s[i + 1..];
    }
  }

  lemma JoinCons(first: string, rest: seq<string>, sep: char)
    requires |rest| >= 1
    ensures Join([first] + rest, sep) == first + [sep] + Join(rest, sep)
  {
    assert ([first] + rest)[1..] == rest;
  }

  /** The text between the first and the second `sep` (or the end): `s.split(sep)[1]`. */
  function SecondField(s: string, sep: char): (f: string)
    requires sep in s
    ensures sep !in f
    ensures StartsWith(s[IndexOf(s, sep) + 1..], f)
  {
    var i := IndexOf(s, sep);
    assert Split(s, sep) == [s[..i]] + Split(s[i + 1..], sep);
    Split(s, sep)[1]
  }

  /** Length of the longest prefix of `s` holding no whitespace. */
  function TokenLength(s: string): (n: nat)
    ensures n <= |s|
    ensures forall i :: 0 <= i < n ==> !IsSpace(s[i])
    ensures n == |s| || IsSpace(s[n])
  {
    if s == [] || IsSpace(s[0]) then 0 else 1 + TokenLength(s[1..])
  }

  predicate IsToken(t: string)
  {
    t != [] && forall c :: c in t ==> !IsSpace(c)
  }

  /** The leading run of non-whitespace of a string that starts with one. */
  lemma FirstToken(t: string)
    requires t != [] && !IsSpace(t[0])
    ensures IsToken(t[..TokenLength(t)])
  {
    var n := TokenLength(t);
    forall c | c in t[..n]
      ensures !IsSpace(c)
    {
      var i :| 0 <= i < n && t[..n][i] == c;
      assert t[i] == c;
    }
  }

  /** Python's `s.split()` with no argument: the maximal runs of non-whitespace. */
  function SplitWs(s: string): (tokens: seq<string>)
    ensures forall k :: 0 <= k < |tokens| ==> IsToken(tokens[k])
    decreases |s|
  {
    var t := LStrip(s);
    if t == [] then []
    else
      var n := TokenLength(t);
      FirstToken(t);
      var rest := SplitWs(t[n..]);
      ConsTokens(t[..n], rest);
      [t[..n]] + rest
  }

  lemma ConsTokens(t: string, rest: seq<string>)
    requires IsToken(t) && forall k :: 0 <= k < |rest| ==> IsToken(rest[k])
    ensures forall k :: 0 <= k < |[t] + rest| ==> IsToken(([t] + rest)[k])
  {
  }

  /** Joins tokens with single spaces. */
  function JoinSpaced(tokens: seq<string>): string
  {
    if tokens == [] then [] else if |tokens| == 1 then tokens[0] else tokens[0] + " " + JoinSpaced(tokens[1..])
  }

  /** `split()` undoes joining whitespace-free tokens with spaces. */
  lemma {:induction false} SplitWsJoinSpaced(tokens: seq<string>)
    requires forall k :: 0 <= k < |tokens| ==> IsToken(tokens[k])
    ensures SplitWs(JoinSpaced(tokens)) == tokens
  {
    if |tokens| == 1 {
      SplitWsCons(tokens[0], []);
      assert tokens[0] + [] == tokens[0];
      assert SplitWs([]) == [];
    } else if |tokens| > 1 {
      var rest := JoinSpaced(tokens[1..]);
      SplitWsJoinSpaced(tokens[1..]);
      JoinSpacedCons(tokens);
      SplitWsJoinStep(tokens[0], rest, tokens[1..]);
      HeadTail(tokens);
    }
  }

  lemma JoinSpacedCons(tokens: seq<string>)
    requires |tokens| > 1
    ensures JoinSpaced(tokens) == tokens[0] + (" " + JoinSpaced(tokens[1..]))
  {
    assert tokens[0] + " " + JoinSpaced(tokens[1..]) == tokens[0] + (" " + JoinSpaced(tokens[1..]));
  }

  lemma HeadTail<T>(s: seq<T>)
    requires s != []
    ensures s == [s[0]] + s[1..]
  {
  }

  lemma SplitWsJoinStep(t0: string, rest: string, tail: seq<string>)
    requires IsToken(t0) && SplitWs(rest) == tail
    ensures SplitWs(t0 + (" " + rest)) == [t0] + tail
  {
    SplitWsCons(t0, " " + rest);
    SplitWsLeadingSpace(rest);
  }

  lemma SplitWsLeadingSpace(rest: string)
    ensures SplitWs(" " + rest) == SplitWs(rest)
  {
    assert (" " + rest)[1..] == rest;
    assert LStrip(" " + rest) == LStrip(rest);
  }

  /** A token followed by whitespace (or nothing) is split off first. */
  lemma SplitWsCons(t: string, tail: string)
    requires IsToken(t)
    requires tail == [] || IsSpace(tail[0])
    ensures SplitWs(t + tail) == [t] + SplitWs(tail)
  {
    assert t[0] in t;
    assert LStrip(t + tail) == t + tail;
    TokenLengthOfToken(t, tail);
    assert (t + tail)[|t|..] == tail;
  }

  lemma TokenLengthOfToken(t: string, tail: string)
    requires IsToken(t)
    requires tail == [] || IsSpace(tail[0])
    ensures TokenLength(t + tail) == |t|
    ensures (t + tail)[..|t|] == t
  {
    assert (t + tail)[..|t|] == t;
  }

  predicate IsDigit(c: char)
  {
    '0' <= c <= '9'
  }

  /** Python's `s.isdigit()` on ASCII text: non-empty and all decimal digits. */
  predicate IsDigits(s: string)
  {
    s != [] && forall i :: 0 <= i < |s| ==> IsDigit(s[i])
  }

  function DigitValue(c: char): nat
    requires IsDigit(c)
  {
    (c as int - '0' as int) as nat
  }

  function DigitChar(d: nat): (c: char)
    requires d < 10
    ensures IsDigit(c) && DigitValue(c) == d
  {
    ('0' as int + d) as char
  }

  /** The number a string of decimal digits denotes. */
  function DigitsValue(s: string): nat
    requires forall i :: 0 <= i < |s| ==> IsDigit(s[i])
  {
    if s == [] then 0 else 10 * DigitsValue(s[..|s| - 1]) + DigitValue(s[|s| - 1])
  }

  /** Python's `str(n)` for a natural number. */
  function NatToString(n: nat): (s: string)
    ensures IsDigits(s)
    ensures s[0] == '0' ==> n == 0
  {
    if n < 10 then [DigitChar(n)] else NatToString(n / 10) + [DigitChar(n % 10)]
  }

  /** Reading back the decimal text of `n` gives `n`. */
  lemma {:induction false} NatToStringRoundTrip(n: nat)
    ensures DigitsValue(NatToString(n)) == n
  {
    if n >= 10 {
      NatToStringRoundTrip(n / 10);
      var s := NatToString(n);
      assert s[..|s| - 1] == NatToString(n / 10);
    }
  }

  /** Distinct numbers print differently. */
  lemma NatToStringInjective(m: nat, n: nat)
    requires NatToString(m) == NatToString(n)
    ensures m == n
  {
    NatToStringRoundTrip(m);
    NatToStringRoundTrip(n);
  }

  /**
   * Python's `int(s)` on a `str`: surrounding whitespace is ignored, then an
   * optional sign and at least one decimal digit; anything else is a
   * `ValueError`, here `None`.
   */
  function ParseInt(s: string): (r: Option<int>)
    ensures r.Some? ==> Strip(s) != []
  {
    var t := Strip(s);
    if t == [] then None
    else if (t[0] == '+' || t[0] == '-') && IsDigits(t[1..]) then
      Some(if t[0] == '-' then -(DigitsValue(t[1..]) as int) else DigitsValue(t[1..]) as int)
    else if IsDigits(t) then Some(DigitsValue(t) as int)
    else None
  }

  /** `int(str(n)) == n`, with any surrounding whitespace. */
  lemma ParseIntOfNat(n: nat, pre: string, post: string)
    requires forall c :: c in pre + post ==> IsSpace(c)
    ensures ParseInt(pre + NatToString(n) + post) == Some(n)
  {
    var d := NatToString(n);
    StripAround(pre, d, post);
    NatToStringRoundTrip(n);
    assert !IsSpace(d[0]) && d[0] != '+' && d[0] != '-';
  }

  lemma StripAround(pre: string, d: string, post: string)
    requires forall c :: c in pre + post ==> IsSpace(c)
    requires d != [] && !IsSpace(d[0]) && !IsSpace(d[|d| - 1])
    ensures Strip(pre + d + post) == d
  {
    var s := pre + d + post;
    LStripDrops(pre, d + post);
    assert s == pre + (d + post);
    RStripDrops(d, post);
  }

  lemma LStripDrops(pre: string, rest: string)
    requires forall c :: c in pre ==> IsSpace(c)
    requires rest != [] && !IsSpace(rest[0])
    ensures LStrip(pre + rest) == rest
    decreases |pre|
  {
    if pre != [] {
      assert pre[0] in pre;
      assert (pre + rest)[1..] == pre[1..] + rest;
      assert forall c :: c in pre[1..] ==> c in pre;
      LStripDrops(pre[1..], rest);
    } else {
      assert pre + rest == rest;
    }
  }

  lemma RStripDrops(rest: string, post: string)
    requires forall c :: c in post ==> IsSpace(c)
    requires rest != [] && !IsSpace(rest[|rest| - 1])
    ensures RStrip(rest + post) == rest
    decreases |post|
  {
    if post != [] {
      assert post[|post| - 1] in post;
      assert (rest + post)[..|rest + post| - 1] == rest + post[..|post| - 1];
      assert forall c :: c in post[..|post| - 1] ==> c in post;
      RStripDrops(rest, post[..|post| - 1]);
    } else {
      assert rest + post == rest;
    }
  }

  /** ASCII `c.lower()`. */
  function LowerChar(c: char): char
  {
    if 'A' <= c <= 'Z' then (c as int + 32) as char else c
  }

  /** ASCII `s.lower()`. */
  function Lower(s: string): (r: string)
    ensures |r| == |s|
    ensures forall i :: 0 <= i < |s| ==> r[i] == LowerChar(s[i])
  {
    if s == [] then [] else [LowerChar(s[0])] + Lower(s[1..])
  }
}
