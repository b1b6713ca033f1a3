/**
 * Reading the assistant's API key (aiAssistant/ai_assistant.py): the first
 * match of `OpenAI\s*=\s*"([^"]+)"` anywhere in the configuration text gives
 * the key. Reading the file is a parameter: its text, or `None` when it is
 * missing or cannot be read.
 */
module ApiKey {
  import opened Wrappers
  import opened Strings

  /** The end of the run of whitespace (`\s`) starting at `i`. */
  function SkipSpace(s: string, i: nat): (j: nat)
    requires i <= |s|
    ensures i <= j <= |s| && (j == |s| || !IsSpace(s[j]))
    ensures forall k :: i <= k < j ==> IsSpace(s[k])
    decreases |s| - i
  {
    if i < |s| && IsSpace(s[i]) then SkipSpace(s, i + 1) else i
  }

  /** The end of the run of characters other than '"' (`[^"]`) starting at `i`. */
  function SkipKey(s: string, i: nat): (j: nat)
    requires i <= |s|
    ensures i <= j <= |s| && (j == |s| || s[j] == '"')
    ensures forall k :: i <= k < j ==> s[k] != '"'
    ensures '"' !in s[i..j]
    decreases |s| - i
  {
    if i < |s| && s[i] != '"' then
      var j := SkipKey(s, i + 1);
      assert s[i..j] == [s[i]] + s[i + 1..j];
      j
    else i
  }

  /** The quoted key starting at `b`: '"', at least one other character, '"'. */
  function KeyFrom(s: string, b: nat): (k: Option<string>)
    requires b <= |s|
    ensures k.Some? ==> k.value != [] && '"' !in k.value
  {
    if b == |s| || s[b] != '"' then None
    else
      var c := SkipKey(s, b + 1);
      if c == b + 1 || c == |s| then None else Some(s[b + 1..c])
  }

  /** The rest of a match starting at `a`: '=', whitespace, the quoted key. */
  function AfterEquals(s: string, a: nat): (k: Option<string>)
    requires a <= |s|
    ensures k.Some? ==> k.value != [] && '"' !in k.value
  {
    if a == |s| || s[a] != '=' then None else KeyFrom(s, SkipSpace(s, a + 1))
  }

  /**
   * The captured key when the pattern matches at position `i`. Each run is
   * taken whole: a shorter run would be followed by a character of the run,
   * which is neither '=' nor '"', so no other way of matching exists.
   */
  function MatchAt(s: string, i: nat): (k: Option<string>)
    requires i <= |s|
    ensures k.Some? ==> k.value != [] && '"' !in k.value
  {
    if !OccursAt(s, "OpenAI", i) then None else AfterEquals(s, SkipSpace(s, i + 6))
  }

  /** `re.search` from position `i` on: the match at the first position that has one. */
  function SearchFrom(s: string, i: nat): Option<string>
    requires i <= |s|
    decreases |s| - i
  {
    if MatchAt(s, i).Some? then MatchAt(s, i)
    else if i == |s| then None
    else SearchFrom(s, i + 1)
  }

  /** The key found in the configuration text. */
  function FindKey(content: string): Option<string>
  {
    SearchFrom(content, 0)
  }

  /** `read_api_key_from_config`: no file, an unreadable file or no match all give `None`. */
  function ReadApiKey(content: Option<string>): (key: Option<string>)
    ensures key.Some? ==> key.value != [] && '"' !in key.value
  {
    match content
    case None => None
    case Some(text) => FindKeySome(text); FindKey(text)
  }

  // ----------------------------------------------------------- search

  lemma {:induction false} NoMatchBetween(s: string, i: nat, j: nat)
    requires i <= j <= |s|
    requires forall k :: i <= k < j ==> MatchAt(s, k).None?
    ensures SearchFrom(s, i) == SearchFrom(s, j)
    decreases j - i
  {
    if i < j {
      NoMatchBetween(s, i + 1, j);
    }
  }

  /** A found key is the capture at the leftmost position where the pattern matches. */
  lemma {:induction false} SearchFromSound(s: string, j: nat)
    requires j <= |s| && SearchFrom(s, j).Some?
    ensures exists i :: j <= i <= |s| && MatchAt(s, i) == SearchFrom(s, j) &&
                        forall i' :: j <= i' < i ==> MatchAt(s, i').None?
    decreases |s| - j
  {
    if MatchAt(s, j).None? {
      SearchFromSound(s, j + 1);
      var i :| j + 1 <= i <= |s| && MatchAt(s, i) == SearchFrom(s, j + 1) &&
        forall i' :: j + 1 <= i' < i ==> MatchAt(s, i').None?;
      assert forall i' :: j <= i' < i ==> MatchAt(s, i').None?;
    }
  }

  /** The leftmost match is the one found. */
  lemma FindKeyLeftmost(s: string, i: nat)
    requires i <= |s| && MatchAt(s, i).Some?
    requires forall i' :: 0 <= i' < i ==> MatchAt(s, i').None?
    ensures FindKey(s) == MatchAt(s, i)
  {
    NoMatchBetween(s, 0, i);
  }

  /** Nothing is found exactly when the pattern matches nowhere. */
  lemma FindKeyNone(s: string)
    ensures FindKey(s).None? <==> forall i :: 0 <= i <= |s| ==> MatchAt(s, i).None?
  {
    if FindKey(s).Some? {
      SearchFromSound(s, 0);
    } else if exists i :: 0 <= i <= |s| && MatchAt(s, i).Some? {
      var i :| 0 <= i <= |s| && MatchAt(s, i).Some? && forall i' :: 0 <= i' < i ==> MatchAt(s, i').None? by {
        LeastMatch(s, |s|);
      }
      FindKeyLeftmost(s, i);
    }
  }

  lemma {:induction false} LeastMatch(s: string, n: nat)
    requires n <= |s| && exists i :: 0 <= i <= n && MatchAt(s, i).Some?
    ensures exists i :: 0 <= i <= n && MatchAt(s, i).Some? && forall i' :: 0 <= i' < i ==> MatchAt(s, i').None?
    decreases n
  {
    if n > 0 && exists i :: 0 <= i <= n - 1 && MatchAt(s, i).Some? {
      LeastMatch(s, n - 1);
    } else if n > 0 {
      assert MatchAt(s, n).Some?;
    }
  }

  lemma FindKeySome(s: string)
    ensures FindKey(s).Some? ==> FindKey(s).value != [] && '"' !in FindKey(s).value
  {
    if FindKey(s).Some? {
      SearchFromSound(s, 0);
    }
  }

  // --------------------------------------------- the pattern as text

  predicate AllSpace(w: string)
  {
    forall k :: 0 <= k < |w| ==> IsSpace(w[k])
  }

  /** '"', the key, '"'. */
  function QuotedText(key: string): string
  {
    "\"" + key + "\""
  }

  /** '=', whitespace, then the quoted key. */
  function EqualsText(w2: string, key: string): string
  {
    "=" + w2 + QuotedText(key)
  }

  /** The text of one match: "OpenAI", whitespace, then the rest from '=' on. */
  function MatchText(w1: string, w2: string, key: string): string
  {
    "OpenAI" + w1 + EqualsText(w2, key)
  }

  lemma OccursAtConcat(s: string, x: string, y: string, i: nat)
    ensures OccursAt(s, x + y, i) <==> OccursAt(s, x, i) && OccursAt(s, y, i + |x|)
  {
    if OccursAt(s, x, i) && OccursAt(s, y, i + |x|) {
      assert s[i..i + |x + y|] == s[i..i + |x|] + s[i + |x|..i + |x| + |y|];
    }
    if OccursAt(s, x + y, i) {
      assert s[i..i + |x|] == (x + y)[..|x|];
      assert s[i + |x|..i + |x| + |y|] == (x + y)[|x|..];
    }
  }

  lemma OccursAtFirst(s: string, pat: string, i: nat)
    requires pat != []
    ensures OccursAt(s, pat, i) ==> s[i] == pat[0]
  {
    if OccursAt(s, pat, i) {
      assert s[i..i + |pat|][0] == s[i];
    }
  }

  lemma {:induction false} SkipSpaceExact(s: string, i: nat, w: string)
    requires AllSpace(w) && OccursAt(s, w, i)
    requires i + |w| == |s| || !IsSpace(s[i + |w|])
    ensures SkipSpace(s, i) == i + |w|
    decreases |w|
  {
    if w != [] {
      OccursAtFirst(s, w, i);
      OccursAtConcat(s, [w[0]], w[1..], i);
      assert [w[0]] + w[1..] == w;
      SkipSpaceExact(s, i + 1, w[1..]);
    }
  }

  lemma {:induction false} SkipKeyExact(s: string, i: nat, key: string)
    requires '"' !in key && OccursAt(s, key, i)
    requires i + |key| < |s| && s[i + |key|] == '"'
    ensures SkipKey(s, i) == i + |key|
    decreases |key|
  {
    if key != [] {
      OccursAtFirst(s, key, i);
      OccursAtConcat(s, [key[0]], key[1..], i);
      assert [key[0]] + key[1..] == key;
      SkipKeyExact(s, i + 1, key[1..]);
    }
  }

  lemma KeyFromComplete(s: string, b: nat, key: string)
    requires key != [] && '"' !in key && b <= |s| && OccursAt(s, QuotedText(key), b)
    ensures KeyFrom(s, b) == Some(key)
  {
    OccursAtConcat(s, "\"" + key, "\"", b);
    OccursAtConcat(s, "\"", key, b);
    OccursAtFirst(s, "\"", b);
    OccursAtFirst(s, "\"", b + 1 + |key|);
    SkipKeyExact(s, b + 1, key);
  }

  lemma AfterEqualsComplete(s: string, a: nat, w2: string, key: string)
    requires AllSpace(w2) && key != [] && '"' !in key && a <= |s| && OccursAt(s, EqualsText(w2, key), a)
    ensures AfterEquals(s, a) == Some(key)
  {
    var b := a + 1 + |w2|;
    assert OccursAt(s, "=" + w2, a) && OccursAt(s, QuotedText(key), b) by {
      OccursAtConcat(s, "=" + w2, QuotedText(key), a);
    }
    assert s[a] == '=' && OccursAt(s, w2, a + 1) by {
      OccursAtConcat(s, "=", w2, a);
      OccursAtFirst(s, "=", a);
    }
    assert s[b] == '"' by {
      OccursAtFirst(s, QuotedText(key), b);
    }
    assert SkipSpace(s, a + 1) == b by {
      SkipSpaceExact(s, a + 1, w2);
    }
    KeyFromComplete(s, b, key);
  }

  /** Whenever the text at `i` reads as a match, the pattern matches there and captures that key. */
  lemma MatchAtComplete(s: string, i: nat, w1: string, w2: string, key: string)
    requires AllSpace(w1) && AllSpace(w2) && key != [] && '"' !in key
    requires i <= |s| && OccursAt(s, MatchText(w1, w2, key), i)
    ensures MatchAt(s, i) == Some(key)
  {
    var a := i + 6 + |w1|;
    assert OccursAt(s, "OpenAI" + w1, i) && OccursAt(s, EqualsText(w2, key), a) by {
      OccursAtConcat(s, "OpenAI" + w1, EqualsText(w2, key), i);
    }
    assert OccursAt(s, "OpenAI", i) && OccursAt(s, w1, i + 6) by {
      OccursAtConcat(s, "OpenAI", w1, i);
    }
    assert s[a] == '=' by {
      OccursAtFirst(s, EqualsText(w2, key), a);
    }
    assert SkipSpace(s, i + 6) == a by {
      SkipSpaceExact(s, i + 6, w1);
    }
    AfterEqualsComplete(s, a, w2, key);
  }

  lemma KeyFromSound(s: string, b: nat)
    requires b <= |s| && KeyFrom(s, b).Some?
    ensures OccursAt(s, QuotedText(KeyFrom(s, b).value), b)
  {
    var c := SkipKey(s, b + 1);
    assert s[b..c + 1] == [s[b]] + s[b + 1..c] + [s[c]];
  }

  lemma AfterEqualsSound(s: string, a: nat)
    requires a <= |s| && AfterEquals(s, a).Some?
    ensures exists w2 :: AllSpace(w2) && OccursAt(s, EqualsText(w2, AfterEquals(s, a).value), a)
  {
    var b := SkipSpace(s, a + 1);
    var key := AfterEquals(s, a).value;
    var w2 := s[a + 1..b];
    assert OccursAt(s, QuotedText(key), b) by {
      KeyFromSound(s, b);
    }
    assert OccursAt(s, "=" + w2, a) by {
      assert s[a..b] == [s[a]] + w2;
    }
    assert AllSpace(w2) by {
      forall k | 0 <= k < |w2| ensures IsSpace(w2[k]) {
        assert w2[k] == s[a + 1 + k];
      }
    }
    assert OccursAt(s, EqualsText(w2, key), a) by {
      OccursAtConcat(s, "=" + w2, QuotedText(key), a);
    }
  }

  /** Every match reads as "OpenAI", whitespace, '=', whitespace and the quoted key. */
  lemma MatchAtSound(s: string, i: nat)
    requires i <= |s| && MatchAt(s, i).Some?
    ensures exists w1, w2 :: AllSpace(w1) && AllSpace(w2) &&
                             OccursAt(s, MatchText(w1, w2, MatchAt(s, i).value), i)
  {
    var a := SkipSpace(s, i + 6);
    var key := MatchAt(s, i).value;
    assert AfterEquals(s, a) == Some(key);
    AfterEqualsSound(s, a);
    var w2 :| AllSpace(w2) && OccursAt(s, EqualsText(w2, key), a);
    var w1 := s[i + 6..a];
    assert OccursAt(s, "OpenAI" + w1, i) by {
      assert OccursAt(s, "OpenAI", i);
      assert s[i..a] == s[i..i + 6] + w1;
    }
    assert AllSpace(w1) by {
      forall k | 0 <= k < |w1| ensures IsSpace(w1[k]) {
        assert w1[k] == s[i + 6 + k];
      }
    }
    assert OccursAt(s, MatchText(w1, w2, key), i) by {
      OccursAtConcat(s, "OpenAI" + w1, EqualsText(w2, key), i);
    }
  }

  // ------------------------------------------------------ consequences

  lemma {:induction false} SkipSpaceShift(p: string, t: string, j: nat)
    requires j <= |t|
    ensures SkipSpace(p + t, |p| + j) == |p| + SkipSpace(t, j)
    decreases |t| - j
  {
    if j < |t| {
      assert (p + t)[|p| + j] == t[j];
      if IsSpace(t[j]) {
        SkipSpaceShift(p, t, j + 1);
      }
    }
  }

  lemma {:induction false} SkipKeyShift(p: string, t: string, j: nat)
    requires j <= |t|
    ensures SkipKey(p + t, |p| + j) == |p| + SkipKey(t, j)
    decreases |t| - j
  {
    if j < |t| {
      assert (p + t)[|p| + j] == t[j];
      if t[j] != '"' {
        SkipKeyShift(p, t, j + 1);
      }
    }
  }

  lemma KeyFromShift(p: string, t: string, b: nat)
    requires b <= |t|
    ensures KeyFrom(p + t, |p| + b) == KeyFrom(t, b)
  {
    if b < |t| {
      assert (p + t)[|p| + b] == t[b];
      SkipKeyShift(p, t, b + 1);
      var c := SkipKey(t, b + 1);
      assert (p + t)[|p| + b + 1..|p| + c] == t[b + 1..c];
    }
  }

  lemma AfterEqualsShift(p: string, t: string, a: nat)
    requires a <= |t|
    ensures AfterEquals(p + t, |p| + a) == AfterEquals(t, a)
  {
    if a < |t| {
      assert (p + t)[|p| + a] == t[a];
      SkipSpaceShift(p, t, a + 1);
      KeyFromShift(p, t, SkipSpace(t, a + 1));
    }
  }

  /** Text before a position does not affect whether the pattern matches there. */
  lemma MatchAtShift(p: string, t: string, j: nat)
    requires j <= |t|
    ensures MatchAt(p + t, |p| + j) == MatchAt(t, j)
  {
    var s := p + t;
    var i := |p| + j;
    assert OccursAt(s, "OpenAI", i) <==> OccursAt(t, "OpenAI", j) by {
      if i + 6 <= |s| {
        assert s[i..i + 6] == t[j..j + 6];
      }
    }
    if OccursAt(t, "OpenAI", j) {
      SkipSpaceShift(p, t, j + 6);
      AfterEqualsShift(p, t, SkipSpace(t, j + 6));
    }
  }

  lemma {:induction false} SearchFromShift(p: string, t: string, j: nat)
    requires j <= |t|
    ensures SearchFrom(p + t, |p| + j) == SearchFrom(t, j)
    decreases |t| - j
  {
    MatchAtShift(p, t, j);
    if j < |t| {
      SearchFromShift(p, t, j + 1);
    }
  }

  /** `OpenAI=""` captures nothing, and the search goes on to the text after it. */
  lemma EmptyKeySkipped(t: string)
    ensures FindKey("OpenAI=\"\"" + t) == FindKey(t)
  {
    var p := "OpenAI=\"\"";
    var s := p + t;
    assert s[..9] == p;
    assert s[0..6] == "OpenAI";
    assert SkipSpace(s, 6) == 6;
    assert SkipSpace(s, 7) == 7;
    assert SkipKey(s, 8) == 8;
    assert MatchAt(s, 0).None?;
    forall k | 1 <= k < 9 ensures MatchAt(s, k).None? {
      OccursAtFirst(s, "OpenAI", k);
      assert s[k] == p[k] && p[k] != 'O';
    }
    NoMatchBetween(s, 0, 9);
    SearchFromShift(p, t, 0);
  }

  /** The pattern is case-sensitive: text without a capital 'O' has no key. */
  lemma NoCapitalONoKey(s: string)
    requires 'O' !in s
    ensures FindKey(s).None?
  {
    forall i | 0 <= i <= |s| ensures MatchAt(s, i).None? {
      OccursAtFirst(s, "OpenAI", i);
      if i < |s| {
        assert s[i] in s;
      }
    }
    FindKeyNone(s);
  }

  /** The pattern is unanchored: a key preceded by other text on the same line is still found. */
  lemma UnanchoredMatch(key: string)
    requires key != [] && '"' !in key
    ensures FindKey("XOpenAI = \"" + key + "\"") == Some(key)
  {
    var s := "XOpenAI = \"" + key + "\"";
    var m := MatchText(" ", " ", key);
    assert s == "X" + m;
    OccursAtConcat(s, "X", m, 0);
    MatchAtComplete(s, 1, " ", " ", key);
    OccursAtFirst(s, "OpenAI", 0);
    FindKeyLeftmost(s, 1);
  }

  /** Line breaks count as whitespace on both sides of '='. */
  lemma LineBreaksAroundEquals(key: string)
    requires key != [] && '"' !in key
    ensures FindKey("OpenAI\n=\n\"" + key + "\"") == Some(key)
  {
    var s := "OpenAI\n=\n\"" + key + "\"";
    assert s == MatchText("\n", "\n", key);
    assert OccursAt(s, s, 0);
    MatchAtComplete(s, 0, "\n", "\n", key);
    FindKeyLeftmost(s, 0);
  }
}
