/**
 * The command-driven collectors of the Lustre metadata scanner
 * (dirscans/build_lustre_json.py): `run_command`, `get_lustre_metadata`,
 * `get_extended_attributes` and `get_acl_info`.
 *
 * Each external command (`lfs ...`, `getfattr`, `getfacl`) is represented by
 * how it ended (`CommandOutcome`); what the scanner makes of that outcome is
 * modelled here.
 */
module LustreMetadata {
  import opened Wrappers
  import opened Strings

  // ---------------------------------------------------------------------
  // run_command
  // ---------------------------------------------------------------------

  /** How a shell command ended: it exited, hit the 30 s timeout, or could not be run. */
  datatype CommandOutcome =
    | Exited(returnCode: int, stdout: string, stderr: string)
    | TimedOut
    | Raised(message: string)

  predicate Succeeded(o: CommandOutcome)
  {
    o.Exited? && o.returnCode == 0
  }

  /**
   * `run_command(cmd, ignore_errors)`: the stripped stdout of a successful
   * command; otherwise `None`, unless errors are not ignored, in which case a
   * failed exit or an exception is reported as text (a timeout never is).
   */
  function RunCommand(o: CommandOutcome, ignoreErrors: bool): (r: Option<string>)
    ensures Succeeded(o) ==> r == Some(Strip(o.stdout))
    ensures r.None? <==> !Succeeded(o) && (ignoreErrors || o.TimedOut?)
    ensures !Succeeded(o) && r.Some? ==>
      (o.Exited? && r.value == "Error: " + Strip(o.stderr)) || (o.Raised? && r.value == "Exception: " + o.message)
  {
    match o
    case Exited(code, out, err) =>
      if code == 0 then Some(Strip(out))
      else if !ignoreErrors then Some("Error: " + Strip(err))
      else None
    case TimedOut => None
    case Raised(msg) => if ignoreErrors then None else Some("Exception: " + msg)
  }

  /** Python truthiness of an optional string: present and non-empty. */
  predicate Present(o: Option<string>)
  {
    o.Some? && o.value != []
  }

  /** The collectors call `run_command` with errors ignored: a present result is always a successful command's output. */
  lemma CollectorOutputIsStdout(o: CommandOutcome)
    requires Present(RunCommand(o, true))
    ensures Succeeded(o) && RunCommand(o, true).value == Strip(o.stdout)
    ensures !IsSpace(RunCommand(o, true).value[0])
  {
  }

  // ---------------------------------------------------------------------
  // Stripe parsing (`lfs getstripe -v`)
  // ---------------------------------------------------------------------

  datatype StripeValue = Number(n: int) | Text(s: string)

  /** The `stripe_data` dict. */
  type StripeData = map<string, StripeValue>

  const CountKey: string := "stripe_count"
  const SizeKey: string := "stripe_size"
  const OffsetKey: string := "stripe_offset"
  const PoolKey: string := "pool"

  /** `line.split(':')[1]`: the text between the first and the second ':'. */
  function FieldOf(line: string): string
    requires ':' in line
  {
    SecondField(line, ':')
  }

  /**
   * Which key a (stripped) line sets: the tests run in the order count, size,
   * offset, pool, and the first that matches wins. The pool test also compares
   * the value with "pool:", which can never be equal (see `PoolGuardAlwaysHolds`).
   */
  function LineKey(line: string): (key: Option<string>)
    ensures key.Some? ==> ':' in line
    ensures key == Some(CountKey) <==> Contains(line, "stripe_count:")
    ensures key == Some(SizeKey) <==> !Contains(line, "stripe_count:") && Contains(line, "stripe_size:")
    ensures key == Some(OffsetKey) <==>
      !Contains(line, "stripe_count:") && !Contains(line, "stripe_size:") && Contains(line, "stripe_offset:")
    ensures key == Some(PoolKey) <==>
      !Contains(line, "stripe_count:") && !Contains(line, "stripe_size:") && !Contains(line, "stripe_offset:")
      && Contains(line, "pool:")
    ensures key.Some? <==>
      Contains(line, "stripe_count:") || Contains(line, "stripe_size:") || Contains(line, "stripe_offset:")
      || Contains(line, "pool:")
  {
    if Contains(line, "stripe_count:") then
      ContainsChar(line, "stripe_count:", ':');
      Some(CountKey)
    else if Contains(line, "stripe_size:") then
      ContainsChar(line, "stripe_size:", ':');
      Some(SizeKey)
    else if Contains(line, "stripe_offset:") then
      ContainsChar(line, "stripe_offset:", ':');
      Some(OffsetKey)
    else if Contains(line, "pool:") then
      ContainsChar(line, "pool:", ':');
      PoolGuardAlwaysHolds(line);
      if "pool:" != Strip(FieldOf(line)) then Some(PoolKey) else None
    else None
  }

  /** The value a line stores under its key; `None` is the `ValueError` of `int()`. */
  function LineValue(line: string): Option<StripeValue>
    requires LineKey(line).Some?
  {
    var field := FieldOf(line);
    if LineKey(line).value == PoolKey then Some(Text(Strip(field)))
    else match ParseInt(field)
      case Some(v) => Some(Number(v))
      case None => None
  }

  /** The comparison with "pool:" is always true: the field holds no ':'. */
  lemma PoolGuardAlwaysHolds(line: string)
    requires ':' in line
    ensures "pool:" != Strip(FieldOf(line))
  {
    var f := FieldOf(line);
    if "pool:" == Strip(f) {
      assert "pool:"[4] == ':';
      StripChar(f, ':');
    }
  }

  /** What one line of `lfs getstripe -v` does to the dict. */
  datatype LineEffect = Ignored | Sets(key: string, value: StripeValue) | Invalid

  /** The effect of a line, after stripping it; `Invalid` is the `ValueError` that abandons the parse. */
  function Classify(rawLine: string): (e: LineEffect)
    ensures e.Sets? ==> e.key in {CountKey, SizeKey, OffsetKey, PoolKey}
    ensures e.Ignored? <==> LineKey(Strip(rawLine)).None?
    ensures e.Sets? ==> Some(e.key) == LineKey(Strip(rawLine))
    ensures e.Sets? && e.key == PoolKey ==> e.value == Text(Strip(FieldOf(Strip(rawLine))))
    ensures e.Sets? && e.key != PoolKey ==>
      ParseInt(FieldOf(Strip(rawLine))).Some? && e.value == Number(ParseInt(FieldOf(Strip(rawLine))).value)
    ensures e.Invalid? <==>
      LineKey(Strip(rawLine)).Some? && LineKey(Strip(rawLine)).value != PoolKey
      && ParseInt(FieldOf(Strip(rawLine))).None?
  {
    var line := Strip(rawLine);
    if LineKey(line).None? then Ignored
    else match LineValue(line)
      case None => Invalid
      case Some(v) => Sets(LineKey(line).value, v)
  }

  /** The three numeric keys; `lfs getstripe -v` prints each as `<key>: <n>`. */
  predicate NumericKey(name: string)
  {
    name == CountKey || name == SizeKey || name == OffsetKey
  }

  /**
   * A `<key>: <n>` line, as `lfs getstripe -v` prints it, stores `n` under
   * that key: none of the tests before the key's own one matches it.
   */
  lemma NumberLineSets(name: string, n: nat)
    requires NumericKey(name)
    ensures Classify(name + ": " + NatToString(n)) == Sets(name, Number(n))
  {
    NumberLineStripped(name, n);
    NumberLineValue(name, n);
  }

  lemma NumberLineValue(name: string, n: nat)
    requires NumericKey(name)
    ensures LineKey(name + ": " + NatToString(n)) == Some(name)
    ensures LineValue(name + ": " + NatToString(n)) == Some(Number(n))
  {
    NumberLineField(name, n);
    NumberLineKey(name, n);
    ParseIntOfNat(n, " ", []);
    assert " " + NatToString(n) + [] == " " + NatToString(n);
  }

  /** A numeric line holds exactly one ':', right after the key. */
  lemma NumberLineColon(name: string, n: nat)
    requires NumericKey(name)
    ensures var line := name + ": " + NatToString(n);
      |name| < |line| && line[|name|] == ':'
      && forall k :: 0 <= k < |line| && line[k] == ':' ==> k == |name|
  {
    var digits := NatToString(n);
    var line := name + ": " + digits;
    forall k | 0 <= k < |line| ensures line[k] == ':' ==> k == |name| {
      if k < |name| {
        assert line[k] == name[k];
      } else if k > |name| + 1 {
        assert line[k] == digits[k - |name| - 2];
        assert IsDigit(digits[k - |name| - 2]);
      }
    }
  }

  /** Where a line holds a single ':', a marker `m + ":"` can only end there. */
  lemma MarkerBeforeColon(line: string, m: string, c: nat, i: nat)
    requires m != [] && ':' !in m
    requires forall k :: 0 <= k < |line| && line[k] == ':' ==> k == c
    ensures OccursAt(line, m + ":", i) ==> i + |m| == c && line[i] == m[0]
  {
    if OccursAt(line, m + ":", i) {
      assert line[i + |m|] == (m + ":")[|m|];
      assert line[i] == (m + ":")[0];
    }
  }

  lemma NumberLineKey(name: string, n: nat)
    requires NumericKey(name)
    ensures LineKey(name + ": " + NatToString(n)) == Some(name)
  {
    var line := name + ": " + NatToString(n);
    NumberLineColon(name, n);
    var marker := name + ":";
    assert Contains(line, marker) by {
      assert OccursAt(line, marker, 0) by { assert line[..|name| + 1] == marker; }
    }
    assert marker == "stripe_count:" || marker == "stripe_size:" || marker == "stripe_offset:";
    if name != CountKey {
      assert !Contains(line, "stripe_count:") by {
        forall i: nat | i <= |line| ensures !OccursAt(line, "stripe_count:", i) {
          MarkerBeforeColon(line, "stripe_count", |name|, i);
          assert "stripe_count" + ":" == "stripe_count:";
          assert line[1] == 't';
        }
      }
    }
    if name == OffsetKey {
      assert !Contains(line, "stripe_size:") by {
        forall i: nat | i <= |line| ensures !OccursAt(line, "stripe_size:", i) {
          MarkerBeforeColon(line, "stripe_size", |name|, i);
          assert "stripe_size" + ":" == "stripe_size:";
          assert line[2] == 'r';
        }
      }
    }
  }

  lemma NumberLineStripped(name: string, n: nat)
    requires NumericKey(name)
    ensures Strip(name + ": " + NatToString(n)) == name + ": " + NatToString(n)
  {
    var line := name + ": " + NatToString(n);
    var digits := NatToString(n);
    assert line[|line| - 1] == digits[|digits| - 1];
    assert IsDigit(digits[|digits| - 1]);
    StripAround([], line, []);
    assert [] + line + [] == line;
  }

  lemma NumberLineField(name: string, n: nat)
    requires NumericKey(name)
    ensures ':' in name + ": " + NatToString(n)
    ensures FieldOf(name + ": " + NatToString(n)) == " " + NatToString(n)
  {
    var digits := NatToString(n);
    var line := name + ": " + digits;
    NumberLineColon(name, n);
    var tail := ": " + digits;
    assert line == name + tail;
    assert line[|name| + 1..] == tail[1..];
    assert tail[1..] == " " + digits;
    OnlyColonField(line, |name|);
  }

  /** With a single ':' in the line, field 1 is all the text after it. */
  lemma OnlyColonField(line: string, c: nat)
    requires c < |line| && line[c] == ':'
    requires forall k :: 0 <= k < |line| && line[k] == ':' ==> k == c
    ensures ':' in line && FieldOf(line) == line[c + 1..]
  {
    assert IndexOf(line, ':') == c;
    var rest := line[c + 1..];
    assert ':' !in rest by {
      forall k | 0 <= k < |rest| ensures rest[k] != ':' {
        assert rest[k] == line[c + 1 + k];
      }
    }
    assert Split(line, ':') == [line[..c]] + Split(line[c + 1..], ':');
  }

  /** The effect of every line, in order (classifying is pure, so doing it up front changes nothing). */
  function ClassifyAll(lines: seq<string>): seq<LineEffect>
  {
    seq(|lines|, i requires 0 <= i < |lines| => Classify(lines[i]))
  }

  /** The stripe loop after its first `n` lines. */
  function ParsePrefix(effects: seq<LineEffect>, n: nat): Option<StripeData>
    requires n <= |effects|
  {
    if n == 0 then Some(map[])
    else match ParsePrefix(effects, n - 1)
      case None => None
      case Some(d) =>
        match effects[n - 1]
        case Ignored => Some(d)
        case Invalid => None
        case Sets(k, v) => Some(d[k := v])
  }

  /** The dict after every line, absent when it is empty or a value failed to parse. */
  function FinishStripe(effects: seq<LineEffect>): (r: Option<StripeData>)
    ensures r.Some? ==> r.value != map[]
  {
    match ParsePrefix(effects, |effects|)
    case None => None
    case Some(d) => if d == map[] then None else Some(d)
  }

  /** `stripe_parsed`: the filled dict, absent when it is empty or a value failed to parse. */
  function StripeParsed(info: string): Option<StripeData>
  {
    FinishStripe(ClassifyAll(Split(info, '\n')))
  }

  /** The loop of `get_lustre_metadata` over the lines of `lfs getstripe -v`. */
  method ParseStripeInfo(info: string) returns (parsed: Option<StripeData>)
    ensures parsed == StripeParsed(info)
  {
    var lines := Split(info, '\n');
    parsed := ApplyLines(ClassifyAll(lines));
  }

  /** The body of that loop, over the effects of the lines in order. */
  method ApplyLines(effects: seq<LineEffect>) returns (parsed: Option<StripeData>)
    ensures parsed == FinishStripe(effects)
  {
    var stripeData: StripeData := map[];
    var i := 0;
    while i < |effects|
      invariant 0 <= i <= |effects|
      invariant ParsePrefix(effects, i) == Some(stripeData)
    {
      var effect := effects[i];
      if effect.Invalid? {
        InvalidDropsAll(effects, i, |effects|);
        return None;
      }
      if effect.Sets? {
        stripeData := stripeData[effect.key := effect.value];
      }
      i := i + 1;
    }
    if stripeData == map[] {
      return None;
    }
    return Some(stripeData);
  }

  /** A line whose value fails to parse discards every field, earlier ones included. */
  lemma {:induction false} InvalidDropsAll(effects: seq<LineEffect>, j: nat, n: nat)
    requires j < n <= |effects| && effects[j] == Invalid
    ensures ParsePrefix(effects, n) == None
  {
    if n - 1 > j {
      InvalidDropsAll(effects, j, n - 1);
    }
  }

  /** Without an invalid line the parse succeeds. */
  lemma {:induction false} NoInvalidSucceeds(effects: seq<LineEffect>, n: nat)
    requires n <= |effects|
    requires forall i :: 0 <= i < n ==> effects[i] != Invalid
    ensures ParsePrefix(effects, n).Some?
  {
    if n > 0 {
      NoInvalidSucceeds(effects, n - 1);
    }
  }

  /** The last line that sets a key decides its value. */
  lemma {:induction false} LastLineWins(effects: seq<LineEffect>, j: nat, n: nat)
    requires j < n <= |effects| && effects[j].Sets?
    requires forall i :: j < i < n ==> !(effects[i].Sets? && effects[i].key == effects[j].key)
    requires ParsePrefix(effects, n).Some?
    ensures effects[j].key in ParsePrefix(effects, n).value
    ensures ParsePrefix(effects, n).value[effects[j].key] == effects[j].value
  {
    if n - 1 > j {
      LastLineWins(effects, j, n - 1);
    }
  }

  /** A key that no line sets never appears. */
  lemma {:induction false} UnsetKeyAbsent(effects: seq<LineEffect>, n: nat, key: string)
    requires n <= |effects|
    requires forall i :: 0 <= i < n ==> !(effects[i].Sets? && effects[i].key == key)
    requires ParsePrefix(effects, n).Some?
    ensures key !in ParsePrefix(effects, n).value
  {
    if n > 0 {
      UnsetKeyAbsent(effects, n - 1, key);
    }
  }

  /** Only the four stripe keys can appear. */
  lemma {:induction false} OnlyStripeKeys(effects: seq<LineEffect>, n: nat)
    requires n <= |effects|
    requires forall i :: 0 <= i < n && effects[i].Sets? ==> effects[i].key in {CountKey, SizeKey, OffsetKey, PoolKey}
    requires ParsePrefix(effects, n).Some?
    ensures ParsePrefix(effects, n).value.Keys <= {CountKey, SizeKey, OffsetKey, PoolKey}
  {
    if n > 0 {
      OnlyStripeKeys(effects, n - 1);
    }
  }

  // ---------------------------------------------------------------------
  // OST indices (`lfs getstripe -O`)
  // ---------------------------------------------------------------------

  /** `int(x.strip())` when `x.strip().isdigit()`. */
  function TokenIndex(token: string): Option<nat>
  {
    var t := Strip(token);
    if IsDigits(t) then Some(DigitsValue(t)) else None
  }

  /** `[int(x.strip()) for x in tokens if x.strip().isdigit()]`. */
  function OstFromTokens(tokens: seq<string>): (indices: seq<nat>)
    ensures |indices| <= |tokens|
  {
    if tokens == [] then []
    else
      (if TokenIndex(tokens[0]).Some? then [TokenIndex(tokens[0]).value] else []) + OstFromTokens(tokens[1..])
  }

  /** `ost_indices` from the output of `lfs getstripe -O`. */
  function OstIndices(info: string): seq<nat>
  {
    OstFromTokens(SplitWs(info))
  }

  /** A whitespace-separated list of decimal indices reads back as itself. */
  lemma OstIndicesRoundTrip(indices: seq<nat>)
    ensures OstIndices(JoinSpaced(Decimals(indices))) == indices
  {
    var tokens := Decimals(indices);
    forall k | 0 <= k < |tokens| ensures IsToken(tokens[k]) {
      assert IsDigits(tokens[k]);
      forall c | c in tokens[k] ensures !IsSpace(c) {
        var m :| 0 <= m < |tokens[k]| && tokens[k][m] == c;
      }
    }
    SplitWsJoinSpaced(tokens);
    OstFromDecimals(indices);
  }

  function Decimals(indices: seq<nat>): (tokens: seq<string>)
    ensures |tokens| == |indices|
    ensures forall k :: 0 <= k < |indices| ==> tokens[k] == NatToString(indices[k])
  {
    if indices == [] then [] else [NatToString(indices[0])] + Decimals(indices[1..])
  }

  lemma {:induction false} OstFromDecimals(indices: seq<nat>)
    ensures OstFromTokens(Decimals(indices)) == indices
  {
    if indices != [] {
      var t := NatToString(indices[0]);
      StripAround([], t, []);
      assert [] + t + [] == t;
      NatToStringRoundTrip(indices[0]);
      assert Decimals(indices)[1..] == Decimals(indices[1..]);
      OstFromDecimals(indices[1..]);
    }
  }

  /** Every index comes from a token that is all digits. */
  lemma {:induction false} OstIndexHasToken(tokens: seq<string>, k: nat)
    requires k < |OstFromTokens(tokens)|
    ensures exists j :: 0 <= j < |tokens| && TokenIndex(tokens[j]) == Some(OstFromTokens(tokens)[k])
  {
    var head := if TokenIndex(tokens[0]).Some? then [TokenIndex(tokens[0]).value] else [];
    assert OstFromTokens(tokens) == head + OstFromTokens(tokens[1..]);
    if k < |head| {
      assert TokenIndex(tokens[0]) == Some(OstFromTokens(tokens)[k]);
    } else {
      OstIndexHasToken(tokens[1..], k - |head|);
      var j :| 0 <= j < |tokens[1..]| && TokenIndex(tokens[1..][j]) == Some(OstFromTokens(tokens[1..])[k - |head|]);
      assert TokenIndex(tokens[j + 1]) == Some(OstFromTokens(tokens)[k]);
    }
  }

  /** Every token that is all digits gives an index. */
  lemma {:induction false} DigitTokenListed(tokens: seq<string>, j: nat)
    requires j < |tokens| && TokenIndex(tokens[j]).Some?
    ensures TokenIndex(tokens[j]).value in OstFromTokens(tokens)
  {
    var head := if TokenIndex(tokens[0]).Some? then [TokenIndex(tokens[0]).value] else [];
    assert OstFromTokens(tokens) == head + OstFromTokens(tokens[1..]);
    if j > 0 {
      assert tokens[1..][j - 1] == tokens[j];
      DigitTokenListed(tokens[1..], j - 1);
    }
  }

  // ---------------------------------------------------------------------
  // Composite-layout components
  // ---------------------------------------------------------------------

  datatype Component = Component(id: nat, info: string)

  /** The components with ids below `n` whose detail command printed something, in id order. */
  function ComponentsBelow(n: nat, detail: nat -> Option<string>): seq<Component>
  {
    if n == 0 then []
    else ComponentsBelow(n - 1, detail)
         + (if Present(detail(n - 1)) then [Component(n - 1, detail(n - 1).value)] else [])
  }

  /** The `for i in range(count)` loop of `get_lustre_metadata`. */
  method CollectComponents(count: nat, detail: nat -> Option<string>) returns (components: seq<Component>)
    ensures components == ComponentsBelow(count, detail)
  {
    components := [];
    var i := 0;
    while i < count
      invariant i <= count
      invariant components == ComponentsBelow(i, detail)
    {
      var info := detail(i);
      if Present(info) {
        components := components + [Component(i, info.value)];
      }
      i := i + 1;
    }
  }

  /**
   * A component is listed exactly for each id below the count whose detail is
   * non-empty, carrying that detail, in increasing id order.
   */
  lemma ComponentsListed(n: nat, detail: nat -> Option<string>)
    ensures var cs := ComponentsBelow(n, detail);
      && (forall k :: 0 <= k < |cs| ==> cs[k].id < n && Present(detail(cs[k].id)) && cs[k].info == detail(cs[k].id).value)
      && (forall k, l :: 0 <= k < l < |cs| ==> cs[k].id < cs[l].id)
      && (forall i :: 0 <= i < n && Present(detail(i)) ==> exists k :: 0 <= k < |cs| && cs[k].id == i)
  {
    ComponentsSound(n, detail);
    ComponentsIncreasing(n, detail);
    ComponentsComplete(n, detail);
  }

  /** Every component carries an id below `n` and that id's non-empty detail. */
  predicate SoundComponents(cs: seq<Component>, n: nat, detail: nat -> Option<string>)
  {
    forall k :: 0 <= k < |cs| ==> cs[k].id < n && Present(detail(cs[k].id)) && cs[k].info == detail(cs[k].id).value
  }

  lemma {:induction false} ComponentsSound(n: nat, detail: nat -> Option<string>)
    ensures SoundComponents(ComponentsBelow(n, detail), n, detail)
  {
    if n > 0 {
      ComponentsSound(n - 1, detail);
      var prev := ComponentsBelow(n - 1, detail);
      var cs := ComponentsBelow(n, detail);
      forall k | 0 <= k < |cs|
        ensures cs[k].id < n && Present(detail(cs[k].id)) && cs[k].info == detail(cs[k].id).value
      {
        if k < |prev| {
          assert cs[k] == prev[k];
        }
      }
    }
  }

  /** The component ids increase along the list. */
  predicate IncreasingComponents(cs: seq<Component>)
  {
    forall k, l :: 0 <= k < l < |cs| ==> cs[k].id < cs[l].id
  }

  /** Every id below `n` with a non-empty detail has a component. */
  predicate CompleteComponents(cs: seq<Component>, n: nat, detail: nat -> Option<string>)
  {
    forall i :: 0 <= i < n && Present(detail(i)) ==> exists k :: 0 <= k < |cs| && cs[k].id == i
  }

  lemma {:induction false} ComponentsIncreasing(n: nat, detail: nat -> Option<string>)
    ensures IncreasingComponents(ComponentsBelow(n, detail))
  {
    if n > 0 {
      ComponentsIncreasing(n - 1, detail);
      ComponentsSound(n - 1, detail);
      var prev := ComponentsBelow(n - 1, detail);
      var cs := ComponentsBelow(n, detail);
      forall k, l | 0 <= k < l < |cs|
        ensures cs[k].id < cs[l].id
      {
        assert cs[k] == prev[k];
        if l < |prev| {
          assert cs[l] == prev[l];
        } else {
          assert cs[l].id == n - 1;
        }
      }
    }
  }

  lemma {:induction false} ComponentsComplete(n: nat, detail: nat -> Option<string>)
    ensures CompleteComponents(ComponentsBelow(n, detail), n, detail)
  {
    if n > 0 {
      ComponentsComplete(n - 1, detail);
      var prev := ComponentsBelow(n - 1, detail);
      var cs := ComponentsBelow(n, detail);
      forall i | 0 <= i < n && Present(detail(i)) ensures exists k :: 0 <= k < |cs| && cs[k].id == i {
        if i < n - 1 {
          var k :| 0 <= k < |prev| && prev[k].id == i;
          assert cs[k] == prev[k];
        } else {
          assert cs[|prev|].id == i;
        }
      }
    }
  }

  // ---------------------------------------------------------------------
  // The collectors
  // ---------------------------------------------------------------------

  /** How each `lfs` command ended for one path. */
  datatype LustreProbe = LustreProbe(
    getstripeVerbose: CommandOutcome,   // lfs getstripe -v
    getstripeYaml: CommandOutcome,      // lfs getstripe -y
    yamlLoads: bool,                    // whether yaml.safe_load accepts that output
    yamlTruthy: bool,                   // whether the loaded document is truthy (not null, false, 0 or empty)
    getstripeOsts: CommandOutcome,      // lfs getstripe -O
    path2fid: CommandOutcome,           // lfs path2fid
    componentCount: CommandOutcome,     // lfs getstripe --component-count
    componentDetail: nat -> CommandOutcome,  // lfs getstripe --component-id i
    df: CommandOutcome,                 // lfs df
    quota: CommandOutcome)              // lfs quota -u $(id -u)

  /**
   * `layout_yaml` (the parsed document, kept here as the text it came from and
   * whether it is truthy) or `layout_raw`.
   */
  datatype Layout = LayoutYaml(source: string, truthy: bool) | LayoutRaw(text: string)

  /** The `lustre_metadata` dict; a `None` field is an absent key. */
  datatype LustreRecord = LustreRecord(
    stripeInfoRaw: Option<string>,
    stripeParsed: Option<StripeData>,
    layout: Option<Layout>,
    ostIndices: Option<seq<nat>>,
    fid: Option<string>,
    componentCount: Option<nat>,
    components: Option<seq<Component>>,
    filesystemInfo: Option<string>,
    userQuota: Option<string>)
  {
    /** The dict is `{}`. */
    predicate IsEmpty()
    {
      this == LustreRecord(None, None, None, None, None, None, None, None, None)
    }
  }

  /** `'not supported' not in quota_info.lower()`. */
  predicate QuotaSupported(quota: string)
  {
    !Contains(Lower(quota), "not supported")
  }

  /** A command's output as the collectors keep it: only when it succeeded and printed something. */
  function Output(o: CommandOutcome): (r: Option<string>)
    ensures r.Some? <==> Succeeded(o) && Strip(o.stdout) != []
    ensures r.Some? ==> r.value == Strip(o.stdout)
  {
    var out := RunCommand(o, true);
    if Present(out) then out else None
  }

  /** The component count when `lfs getstripe --component-count` printed only digits. */
  function ComponentCount(o: CommandOutcome): (n: Option<nat>)
    ensures n.Some? <==> Output(o).Some? && IsDigits(Output(o).value)
  {
    var out := Output(o);
    if out.Some? && IsDigits(out.value) then Some(DigitsValue(out.value)) else None
  }

  /** The components of a layout with `count` components, from `lfs getstripe --component-id`. */
  function Components(p: LustreProbe, count: nat): seq<Component>
  {
    ComponentsBelow(count, (i: nat) => Output(p.componentDetail(i)))
  }

  /** `get_lustre_metadata(filepath)`: each probe in turn, adding a key only when it produced something. */
  function CollectLustre(p: LustreProbe): (r: LustreRecord)
    ensures r.components.Some? ==> r.componentCount.Some? && r.components.value != []
  {
    var stripe := Output(p.getstripeVerbose);
    var layout := Output(p.getstripeYaml);
    var osts := Output(p.getstripeOsts);
    var quota := Output(p.quota);
    var n := ComponentCount(p.componentCount);
    var cs := if n.Some? then Components(p, n.value) else [];
    LustreRecord(
      stripe,
      if stripe.Some? then StripeParsed(stripe.value) else None,
      if layout.None? then None else if p.yamlLoads then Some(LayoutYaml(layout.value, p.yamlTruthy)) else Some(LayoutRaw(layout.value)),
      if osts.Some? then Some(OstIndices(osts.value)) else None,
      Output(p.path2fid),
      n,
      if cs != [] then Some(cs) else None,
      Output(p.df),
      if quota.Some? && QuotaSupported(quota.value) then quota else None)
  }

  /** The raw stripe text is kept whenever the verbose listing printed something, and parsed from that text. */
  lemma StripeFieldsAgree(p: LustreProbe)
    ensures CollectLustre(p).stripeInfoRaw == Output(p.getstripeVerbose)
    ensures CollectLustre(p).stripeParsed.Some? ==>
      CollectLustre(p).stripeInfoRaw.Some? && CollectLustre(p).stripeParsed == StripeParsed(CollectLustre(p).stripeInfoRaw.value)
  {
  }

  /** The layout is recorded exactly when `lfs getstripe -y` printed something; YAML that fails to load is kept raw. */
  lemma LayoutRecorded(p: LustreProbe)
    ensures CollectLustre(p).layout.Some? <==> Output(p.getstripeYaml).Some?
    ensures CollectLustre(p).layout.Some? && !p.yamlLoads ==> CollectLustre(p).layout == Some(LayoutRaw(Output(p.getstripeYaml).value))
  {
  }

  /** A quota report is kept only when it does not say, in any letter case, that quotas are not supported. */
  lemma QuotaFiltered(p: LustreProbe)
    ensures CollectLustre(p).userQuota.Some? <==> Output(p.quota).Some? && QuotaSupported(Output(p.quota).value)
    ensures CollectLustre(p).userQuota.Some? ==> CollectLustre(p).userQuota == Output(p.quota)
  {
  }

  /** When every `lfs` command fails or is missing, the record is the empty dict, not an error. */
  lemma NoLustreToolsGivesEmptyRecord(p: LustreProbe)
    requires !Succeeded(p.getstripeVerbose) && !Succeeded(p.getstripeYaml) && !Succeeded(p.getstripeOsts)
    requires !Succeeded(p.path2fid) && !Succeeded(p.componentCount) && !Succeeded(p.df) && !Succeeded(p.quota)
    ensures CollectLustre(p).IsEmpty()
  {
  }

  /** A non-digit component count (such as an error text) records neither a count nor components. */
  lemma NonNumericCountSkipsComponents(p: LustreProbe)
    requires Output(p.componentCount).Some? && !IsDigits(Output(p.componentCount).value)
    ensures CollectLustre(p).componentCount == None && CollectLustre(p).components == None
  {
  }

  /** The `extended_attributes` dict (`getfattr -d`, `getfattr -n security.selinux`). */
  datatype XattrRecord = XattrRecord(allAttributes: Option<string>, selinux: Option<string>)
  {
    predicate IsEmpty() { allAttributes.None? && selinux.None? }
  }

  /** `get_extended_attributes`: each key only when its command printed something. */
  function CollectXattrs(all: CommandOutcome, selinux: CommandOutcome): (r: XattrRecord)
    ensures r.allAttributes.Some? <==> Present(RunCommand(all, true))
    ensures r.selinux.Some? <==> Present(RunCommand(selinux, true))
    ensures r.allAttributes.Some? ==> r.allAttributes.value == Strip(all.stdout)
    ensures r.selinux.Some? ==> r.selinux.value == Strip(selinux.stdout)
  {
    var a := RunCommand(all, true);
    var s := RunCommand(selinux, true);
    XattrRecord(if Present(a) then a else None, if Present(s) then s else None)
  }

  /** The `acl_info` dict (`getfacl`). */
  datatype AclRecord = AclRecord(posixAcl: Option<string>)
  {
    predicate IsEmpty() { posixAcl.None? }
  }

  /** `get_acl_info`: the ACL text unless it is empty or reports "Operation not supported". */
  function CollectAcl(getfacl: CommandOutcome): (r: AclRecord)
    ensures r.posixAcl.Some? <==> Present(RunCommand(getfacl, true)) && !Contains(Strip(getfacl.stdout), "Operation not supported")
    ensures r.posixAcl.Some? ==> r.posixAcl.value == Strip(getfacl.stdout)
  {
    var acl := RunCommand(getfacl, true);
    AclRecord(if Present(acl) && !Contains(acl.value, "Operation not supported") then acl else None)
  }
}
