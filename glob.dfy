/**
 * The name filter of Python's `glob.glob` for the one-level patterns the
 * report writer and its consumer build: `*` matches any run of characters,
 * `?` any single character, every other character itself; a pattern that
 * does not begin with '.' never selects a name that does.
 */
module Glob {
  import opened Strings

  /** `fnmatch` of `name` against `pat` for the wildcards `*` and `?`. */
  predicate Matches(pat: string, name: string)
    decreases |pat| + |name|
  {
    if pat == [] then name == []
    else if pat[0] == '*' then Matches(pat[1..], name) || (name != [] && Matches(pat, name[1..]))
    else name != [] && (pat[0] == '?' || pat[0] == name[0]) && Matches(pat[1..], name[1..])
  }

  /** Whether a directory entry called `name` is in the result of the glob. */
  predicate Selects(pat: string, name: string)
  {
    Matches(pat, name) && (name != [] && name[0] == '.' ==> StartsWith(pat, "."))
  }

  predicate NoWildcards(s: string)
  {
    forall i :: 0 <= i < |s| ==> s[i] != '*' && s[i] != '?'
  }

  /** A pattern without wildcards matches only itself. */
  lemma {:induction false} LiteralMatches(s: string, name: string)
    requires NoWildcards(s)
    ensures Matches(s, name) <==> name == s
    decreases |s|
  {
    if s != [] && name != [] {
      LiteralMatches(s[1..], name[1..]);
      assert name == s <==> (s[0] == name[0] && s[1..] == name[1..]) by {
        if s[0] == name[0] && s[1..] == name[1..] {
          assert name == [name[0]] + name[1..] && s == [s[0]] + s[1..];
        }
      }
    }
  }

  lemma EndsWithTail(name: string, s: string)
    requires name != []
    ensures EndsWith(name, s) <==> name == s || EndsWith(name[1..], s)
  {
    if |s| < |name| {
      assert name[|name| - |s|..] == name[1..][|name| - 1 - |s|..];
    }
  }

  /** `*` followed by a literal text selects exactly the names ending with that text. */
  lemma {:induction false} StarLiteralMatches(s: string, name: string)
    requires NoWildcards(s)
    ensures Matches("*" + s, name) <==> EndsWith(name, s)
    decreases |name|
  {
    var p := "*" + s;
    assert p[0] == '*' && p[1..] == s;
    LiteralMatches(s, name);
    if name != [] {
      StarLiteralMatches(s, name[1..]);
      EndsWithTail(name, s);
    }
  }
}
