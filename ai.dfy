/**
 * The post-processing src/logic/ai.js applies to what the content generator replies: reading an
 * alignment score, splitting a strategy update into strategy and commentary, sanitising and
 * repairing a round result (with the catch-all fallback of `processRound`), and parsing the
 * "User Patterns" / "General Patterns" voting analysis. Every reply of the generator is an input;
 * `JSON.parse` is a function parameter.
 */
module Ai {
  import opened Wrappers
  import opened Text

  /**
   * An option record as the generator supplies it: `text`, `alignment` (None for a missing or
   * null score) and `explanation`, and an `id` only when the record carries one.
   */
  datatype Candidate = Candidate(id: Option<string>, text: string, alignment: Option<int>, explanation: string)

  // ----- scoreAlignment: the first run of one to three digits -----

  datatype Score = Score(alignment: Option<int>, explanation: string)

  /** The index of the first digit at or after `i`. */
  function FirstDigitFrom(s: string, i: nat): (k: Option<nat>)
    requires i <= |s|
    ensures k.Some? ==> i <= k.value < |s| && IsDigit(s[k.value])
    ensures k.Some? ==> forall j :: i <= j < k.value ==> !IsDigit(s[j])
    ensures k.None? ==> forall j :: i <= j < |s| ==> !IsDigit(s[j])
    decreases |s| - i
  {
    if i == |s| then None
    else if IsDigit(s[i]) then Some(i)
    else FirstDigitFrom(s, i + 1)
  }

  /** What `\d{1,3}` takes from a string that starts with a digit: up to three digits, greedily. */
  function DigitRun(t: string): (run: string)
    requires |t| > 0 && IsDigit(t[0])
    ensures 1 <= |run| <= 3 && AllDigits(run) && StartsWith(t, run)
    ensures |run| < 3 ==> |run| == |t| || !IsDigit(t[|run|])
  {
    if |t| >= 2 && IsDigit(t[1]) then
      if |t| >= 3 && IsDigit(t[2]) then t[..3] else t[..2]
    else t[..1]
  }

  /**
   * `scoreAlignment` after the reply arrives: the score is the first one-to-three digit run of
   * the reply, read as a decimal and not clamped, or None when the reply holds no digit; the
   * explanation is the trimmed reply.
   */
  function ScoreAlignment(content: string): (r: Score)
    ensures r.alignment.None? <==> forall i :: 0 <= i < |content| ==> !IsDigit(content[i])
    ensures r.alignment.Some? ==> 0 <= r.alignment.value <= 999
    ensures r.explanation == Trim(content)
  {
    var first := FirstDigitFrom(content, 0);
    var score := if first.None? then None else Some(DigitsValue(DigitRun(content[first.value..])) as int);
    Score(score, Trim(content))
  }

  /**
   * A number of at most three digits written after text without digits, and not followed by a
   * digit, is read back exactly.
   */
  lemma ScoreReadsWrittenNumber(prefix: string, n: nat, suffix: string)
    requires n <= 999
    requires forall i :: 0 <= i < |prefix| ==> !IsDigit(prefix[i])
    requires suffix == [] || !IsDigit(suffix[0])
    ensures ScoreAlignment(prefix + NatToString(n) + suffix).alignment == Some(n as int)
  {
    var digits := NatToString(n);
    var content := prefix + digits + suffix;
    assert content == prefix + (digits + suffix);
    FirstDigitAfter(prefix, digits + suffix);
    assert content[|prefix|..] == digits + suffix;
    RunOfWrittenNumber(n, suffix);
    DigitsValueOfNatToString(n);
  }

  /**
   * A run of more than three digits is read as its first three: the score is the value of the
   * first three digits after the digit-free prefix, whatever follows them.
   */
  lemma ScoreReadsFirstThreeDigits(prefix: string, d: string, rest: string)
    requires forall i :: 0 <= i < |prefix| ==> !IsDigit(prefix[i])
    requires |d| == 3 && AllDigits(d)
    ensures ScoreAlignment(prefix + d + rest).alignment == Some(DigitsValue(d) as int)
  {
    var content := prefix + d + rest;
    assert content == prefix + (d + rest);
    assert (d + rest)[0] == d[0];
    FirstDigitAfter(prefix, d + rest);
    assert content[|prefix|..] == d + rest;
    var t := d + rest;
    assert t[1] == d[1] && t[2] == d[2] && t[..3] == d;
  }

  /**
   * Any run of one to three digits after a digit-free prefix, leading zeros included, is read
   * as its decimal value when no digit follows it.
   */
  lemma ScoreReadsDigitRun(prefix: string, d: string, suffix: string)
    requires forall i :: 0 <= i < |prefix| ==> !IsDigit(prefix[i])
    requires 1 <= |d| <= 3 && AllDigits(d)
    requires |d| < 3 ==> suffix == [] || !IsDigit(suffix[0])
    ensures ScoreAlignment(prefix + d + suffix).alignment == Some(DigitsValue(d) as int)
  {
    var content := prefix + d + suffix;
    var t := d + suffix;
    assert content == prefix + t;
    assert t[0] == d[0];
    FirstDigitAfter(prefix, t);
    assert content[|prefix|..] == t;
    RunOfDigits(d, suffix);
  }

  /** `\d{1,3}` takes exactly a run of one to three digits that no digit follows. */
  lemma RunOfDigits(d: string, suffix: string)
    requires 1 <= |d| <= 3 && AllDigits(d)
    requires |d| < 3 ==> suffix == [] || !IsDigit(suffix[0])
    ensures DigitRun(d + suffix) == d
  {
    var t := d + suffix;
    assert t[0] == d[0];
    if |d| == 1 {
      assert t[..1] == d;
      if |t| >= 2 { assert t[1] == suffix[0]; }
    } else if |d| == 2 {
      assert t[1] == d[1] && t[..2] == d;
      if |t| >= 3 { assert t[2] == suffix[0]; }
    } else {
      assert t[1] == d[1] && t[2] == d[2] && t[..3] == d;
    }
  }

  /** The first digit of a text is the first digit after a digit-free prefix. */
  lemma FirstDigitAfter(prefix: string, rest: string)
    requires forall i :: 0 <= i < |prefix| ==> !IsDigit(prefix[i])
    requires |rest| > 0 && IsDigit(rest[0])
    ensures FirstDigitFrom(prefix + rest, 0) == Some(|prefix|)
  {
    var content := prefix + rest;
    assert content[|prefix|] == rest[0];
    forall j | 0 <= j < |prefix| ensures !IsDigit(content[j]) {
      assert content[j] == prefix[j];
    }
  }

  /** The digit run of a written number of at most three digits is that number's text. */
  lemma RunOfWrittenNumber(n: nat, suffix: string)
    requires n <= 999
    requires suffix == [] || !IsDigit(suffix[0])
    ensures DigitRun(NatToString(n) + suffix) == NatToString(n)
  {
    var digits := NatToString(n);
    var t := digits + suffix;
    if |digits| == 1 {
      assert |t| == 1 || t[1] == suffix[0];
    } else if |digits| == 2 {
      assert t[1] == digits[1];
      assert |t| == 2 || t[2] == suffix[0];
    } else {
      assert t[1] == digits[1] && t[2] == digits[2];
    }
  }

  // ----- updateStrategy: first line is the strategy, the rest is commentary -----

  datatype StrategyUpdate = StrategyUpdate(newStrategy: string, commentary: string)

  /**
   * `updateStrategy` after the reply arrives: the reply is trimmed and split into lines; the
   * strategy is the trimmed first line, the commentary the other lines joined by single spaces
   * and trimmed. Neither holds a line break and both are trimmed.
   */
  function SplitStrategy(reply: string): (r: StrategyUpdate)
    ensures '\n' !in r.newStrategy && '\n' !in r.commentary
    ensures Trimmed(r.newStrategy) && Trimmed(r.commentary)
  {
    var lines := Split(Trim(reply), "\n");
    forall i | 0 <= i < |lines| ensures '\n' !in lines[i] {
      FreeOfChar(lines[i], '\n');
    }
    JoinWithout(lines[1..], " ", '\n');
    StrategyUpdate(Trim(lines[0]), Trim(Join(lines[1..], " ")))
  }

  /** A one-line reply is all strategy and no commentary. */
  lemma OneLineReplyHasNoCommentary(reply: string)
    requires '\n' !in Trim(reply)
    ensures SplitStrategy(reply) == StrategyUpdate(Trim(reply), "")
  {
    SplitWithoutSeparator(Trim(reply), '\n');
    TrimKeepsTrimmed(Trim(reply));
  }

  /**
   * For every reply: the strategy is the trimmed first line of the trimmed reply, and the
   * commentary is the remaining lines joined by single spaces, then trimmed.
   */
  lemma SplitStrategyLines(reply: string, first: string, rest: string)
    requires Trim(reply) == first + "\n" + rest && '\n' !in first
    ensures SplitStrategy(reply) == StrategyUpdate(Trim(first), Trim(Join(Split(rest, "\n"), " ")))
  {
    SplitAtFirst(first, '\n', rest);
    assert first + "\n" + rest == first + ['\n'] + rest;
    var lines := Split(Trim(reply), "\n");
    assert lines == [first] + Split(rest, "\n");
    assert lines[1..] == Split(rest, "\n");
  }

  // ----- processRound: sanitising the reply -----

  /** A C0 or C1 control character: `[\x00-\x1F\x7F-\x9F]`. */
  predicate IsControl(c: char) {
    c as int <= 0x1F || (0x7F <= c as int <= 0x9F)
  }

  predicate IsNoBreakSpace(c: char) {
    c as int == 0xA0
  }

  /**
   * `replace(/```json\n?|\n?```/g, '')`: the scan tries, at each position, "```json" with an
   * optional line feed, then "```" with an optional leading line feed, and drops what matched.
   * Text without a backtick is left as it is.
   */
  function StripFences(s: string): (r: string)
    ensures forall c :: c in r ==> c in s
    ensures '`' !in s ==> r == s
    decreases |s|
  {
    NoFenceWithoutBacktick(s);
    if StartsWith(s, "```json\n") then StripFences(s[8..])
    else if StartsWith(s, "```json") then StripFences(s[7..])
    else if StartsWith(s, "\n```") then StripFences(s[4..])
    else if StartsWith(s, "```") then StripFences(s[3..])
    else if s == [] then []
    else [s[0]] + StripFences(s[1..])
  }

  /** No fence starts in text without a backtick. */
  lemma NoFenceWithoutBacktick(s: string)
    ensures '`' !in s ==>
              !StartsWith(s, "```json\n") && !StartsWith(s, "```json") && !StartsWith(s, "\n```") && !StartsWith(s, "```")
  {
    if '`' !in s && |s| >= 3 {
      assert s[..3][0] == s[0] && s[..3][1] == s[1];
    }
    if '`' !in s && |s| >= 7 {
      assert s[..7][0] == s[0];
    }
    if '`' !in s && |s| >= 8 {
      assert s[..8][0] == s[0];
    }
    if '`' !in s && |s| >= 4 {
      assert s[..4][1] == s[1];
    }
  }

  /** A JSON reply wrapped in a fenced code block loses exactly the fences. */
  lemma FencedJsonUnwrapped(t: string)
    requires '`' !in t
    ensures StripFences("```json\n" + t + "\n```") == t
  {
    var s := "```json\n" + t + "\n```";
    assert s[..8] == "```json\n";
    assert s[8..] == t + "\n```";
    ClosingFenceStripped(t);
  }

  /** A closing fence after text without backticks is dropped, and the text kept. */
  lemma {:induction false} ClosingFenceStripped(t: string)
    requires '`' !in t
    ensures StripFences(t + "\n```") == t
    decreases |t|
  {
    var s := t + "\n```";
    if t == [] {
      assert s == "\n```";
      DifferentFirstChar(s, "```json\n");
      DifferentFirstChar(s, "```json");
      assert s[..4] == "\n```";
      assert s[4..] == [];
    } else {
      assert s[0] == t[0];
      DifferentFirstChar(s, "```json\n");
      DifferentFirstChar(s, "```json");
      DifferentFirstChar(s, "```");
      assert s[1] != '`' by {
        if |t| >= 2 {
          assert s[1] == t[1];
        } else {
          assert s[1] == '\n';
        }
      }
      assert s[..4][1] == s[1];
      assert s[1..] == t[1..] + "\n```";
      ClosingFenceStripped(t[1..]);
      assert [t[0]] + t[1..] == t;
    }
  }

  /** `replace(/[\x00-\x1F\x7F-\x9F]/g, '')`: the control characters go and every other one stays. */
  function DropControls(s: string): (r: string)
    ensures forall c :: c in r <==> c in s && !IsControl(c)
    ensures (forall i :: 0 <= i < |s| ==> !IsControl(s[i])) ==> r == s
  {
    if s == [] then []
    else if IsControl(s[0]) then DropControls(s[1..])
    else [s[0]] + DropControls(s[1..])
  }

  /** The removal works character by character: it keeps the order and count of what stays. */
  lemma {:induction false} DropControlsAppend(a: string, b: string)
    ensures DropControls(a + b) == DropControls(a) + DropControls(b)
    decreases |a|
  {
    if a != [] {
      var t := a[1..];
      var kept := if IsControl(a[0]) then [] else [a[0]];
      assert DropControls(a + b) == kept + DropControls(t + b) by {
        assert a + b == [a[0]] + (t + b);
        DropControlsCons(a[0], t + b);
      }
      assert DropControls(a) == kept + DropControls(t) by {
        assert a == [a[0]] + t;
        DropControlsCons(a[0], t);
      }
      DropControlsAppend(t, b);
    } else {
      assert a + b == b;
    }
  }

  /** One step of the replace: the first character goes when it is a control character. */
  lemma DropControlsCons(c: char, t: string)
    ensures DropControls([c] + t) == (if IsControl(c) then [] else [c]) + DropControls(t)
  {
    assert ([c] + t)[0] == c && ([c] + t)[1..] == t;
  }


  /** One character: a control character goes, any other stays. */
  lemma DropControlsOne(c: char)
    ensures DropControls([c]) == if IsControl(c) then [] else [c]
  {
    assert [c][1..] == [];
  }

  /** `replace(/^\uFEFF/, '')`: one byte-order mark at the very start goes; otherwise nothing changes. */
  function DropByteOrderMark(s: string): (r: string)
    ensures |s| > 0 && s[0] as int == 0xFEFF ==> s == [s[0]] + r
    ensures !(|s| > 0 && s[0] as int == 0xFEFF) ==> r == s
  {
    if |s| > 0 && s[0] as int == 0xFEFF then s[1..] else s
  }

  /** `replace(/\u00A0/g, ' ')`: each no-break space becomes a space, in place. */
  function NoBreakSpacesToSpaces(s: string): (r: string)
    ensures |r| == |s|
    ensures forall i :: 0 <= i < |s| ==> r[i] == (if IsNoBreakSpace(s[i]) then ' ' else s[i])
    ensures forall c :: c in r ==> !IsNoBreakSpace(c)
  {
    if s == [] then []
    else [if IsNoBreakSpace(s[0]) then ' ' else s[0]] + NoBreakSpacesToSpaces(s[1..])
  }

  /** `s` starts with `\s*[}\]]`. */
  predicate ClosesAfterSpaces(s: string)
    decreases |s|
  {
    |s| > 0 && (s[0] == '}' || s[0] == ']' || (IsSpace(s[0]) && ClosesAfterSpaces(s[1..])))
  }

  /**
   * `replace(/,(\s*[}\]])/g, '$1')`: a comma that only white space separates from a closing
   * brace or bracket is dropped; the white space and the bracket stay. Every character other
   * than a comma stays, and text without commas is left as it is.
   */
  function DropTrailingCommas(s: string): (r: string)
    ensures forall c :: c in r ==> c in s
    ensures forall c :: c in s && c != ',' ==> c in r
    ensures ',' !in s ==> r == s
  {
    if s == [] then []
    else if s[0] == ',' && ClosesAfterSpaces(s[1..]) then DropTrailingCommas(s[1..])
    else [s[0]] + DropTrailingCommas(s[1..])
  }

  /**
   * What happens at any one comma: it goes exactly when white space and a closing bracket
   * follow it, and the text on either side is treated as if the comma were not there.
   */
  lemma {:induction false} DropTrailingCommasAtComma(a: string, b: string)
    ensures DropTrailingCommas(a + "," + b)
            == DropTrailingCommas(a) + (if ClosesAfterSpaces(b) then "" else ",") + DropTrailingCommas(b)
    decreases |a|
  {
    var mid: string := if ClosesAfterSpaces(b) then "" else ",";
    if a == [] {
      DropCons(',', b);
      assert a + "," + b == [','] + b;
    } else {
      var t := a[1..] + "," + b;
      ClosesThroughComma(a[1..], b);
      DropTrailingCommasAtComma(a[1..], b);
      DropCons(a[0], t);
      DropCons(a[0], a[1..]);
      var head: string := if a[0] == ',' && ClosesAfterSpaces(a[1..]) then [] else [a[0]];
      ConsAtComma(a, b);
      calc {
        DropTrailingCommas(a + "," + b);
        DropTrailingCommas([a[0]] + t);
        head + DropTrailingCommas(t);
        head + (DropTrailingCommas(a[1..]) + mid + DropTrailingCommas(b));
        { Regroup(head, DropTrailingCommas(a[1..]), mid, DropTrailingCommas(b)); }
        (head + DropTrailingCommas(a[1..])) + mid + DropTrailingCommas(b);
        DropTrailingCommas(a) + mid + DropTrailingCommas(b);
      }
    }
  }

  /** The first character of `a` heads the text `a` + "," + `b`, and of `a` itself. */
  lemma ConsAtComma(a: string, b: string)
    requires a != []
    ensures a + "," + b == [a[0]] + (a[1..] + "," + b)
    ensures a == [a[0]] + a[1..]
  {
  }

  /** Concatenation regrouped around a middle part. */
  lemma Regroup(h: string, x: string, m: string, y: string)
    ensures h + (x + m + y) == (h + x) + m + y
  {
  }

  /** One step of the scan: the first character goes only when it is a comma before a bracket. */
  lemma DropCons(c: char, t: string)
    ensures DropTrailingCommas([c] + t) == (if c == ',' && ClosesAfterSpaces(t) then [] else [c]) + DropTrailingCommas(t)
  {
    assert ([c] + t)[1..] == t;
  }

  /** A comma stops the look-ahead: it is neither white space nor a closing bracket. */
  lemma {:induction false} ClosesThroughComma(x: string, b: string)
    ensures ClosesAfterSpaces(x + "," + b) == ClosesAfterSpaces(x)
    decreases |x|
  {
    if x == [] {
      assert (x + "," + b)[0] == ',';
    } else {
      assert (x + "," + b)[0] == x[0];
      assert (x + "," + b)[1..] == x[1..] + "," + b;
      ClosesThroughComma(x[1..], b);
    }
  }

  /** A trailing comma before a closing bracket is dropped and everything else kept. */
  lemma {:induction false} TrailingCommaDropped(a: string, b: string)
    requires ',' !in a && ',' !in b && ClosesAfterSpaces(b)
    ensures DropTrailingCommas(a + "," + b) == a + b
    decreases |a|
  {
    if a == [] {
      assert a + "," + b == [','] + b;
      DropsCommaBeforeClose(b);
    } else {
      var t := a[1..] + "," + b;
      assert a[0] in a;
      assert ',' !in a[1..] by {
        forall k | 0 <= k < |a[1..]| ensures a[1..][k] != ',' { assert a[1..][k] == a[k + 1]; }
      }
      calc {
        DropTrailingCommas(a + "," + b);
        { assert a + "," + b == [a[0]] + t; }
        DropTrailingCommas([a[0]] + t);
        { KeepsNonComma(a[0], t); }
        [a[0]] + DropTrailingCommas(t);
        { TrailingCommaDropped(a[1..], b); }
        [a[0]] + (a[1..] + b);
        { assert [a[0]] + a[1..] == a; }
        a + b;
      }
    }
  }

  /** A character other than a comma is kept in front of what follows. */
  lemma KeepsNonComma(c: char, t: string)
    requires c != ','
    ensures DropTrailingCommas([c] + t) == [c] + DropTrailingCommas(t)
  {
    assert ([c] + t)[1..] == t;
  }

  /** A comma followed by white space and a closing bracket is dropped. */
  lemma DropsCommaBeforeClose(b: string)
    requires ',' !in b && ClosesAfterSpaces(b)
    ensures DropTrailingCommas([','] + b) == b
  {
    assert ([','] + b)[1..] == b;
  }

  /**
   * The sanitiser `processRound` runs before `JSON.parse`: its output holds no control
   * character, no no-break space, and no white space at either end.
   */
  function Sanitize(content: string): (r: string)
    ensures forall c :: c in r ==> !IsControl(c) && !IsNoBreakSpace(c)
    ensures Trimmed(r)
  {
    var noControls := DropControls(StripFences(content));
    var spaced := NoBreakSpacesToSpaces(DropByteOrderMark(noControls));
    Trim(DropTrailingCommas(spaced))
  }

  // ----- processRound: repair and fallback -----

  /** What the chat call gave back: a message content, a reply without a message, or an error. */
  datatype Reply = Replied(content: string) | NoMessage | Failed(message: string)

  /**
   * The fields of the parsed reply that `processRound` inspects. A field is None when absent,
   * null, or (for `options`) not an array.
   */
  datatype RawRound = RawRound(
    newStrategy: Option<string>,
    newCompanyProfile: Option<string>,
    newScenario: Option<string>,
    options: Option<seq<Candidate>>)

  /** The current values `processRound` is called with; "" stands for a missing value. */
  datatype RoundInputs = RoundInputs(strategy: string, profile: string, scenario: string)

  datatype RoundResult = RoundResult(newStrategy: string, newProfile: string, newScenario: string, options: seq<Candidate>)

  /** JavaScript truthiness of a text field. */
  predicate Truthy(v: Option<string>) {
    v.Some? && v.value != ""
  }

  /** `v || otherwise`. */
  function Or(v: Option<string>, otherwise: string): (r: string)
    ensures Truthy(v) ==> r == v.value
    ensures !Truthy(v) ==> r == otherwise
  {
    if Truthy(v) then v.value else otherwise
  }

  const WaitingScenario: string := "Waiting for first scenario..."

  /** The option a missing or non-array `options` field is replaced by. */
  const PlaceholderOption: Candidate := Candidate(None, "Option 1", Some(0), "Waiting for AI response...")

  /**
   * The field-by-field repair of a parsed round: each missing field falls back to the current
   * value (the scenario to the waiting text when there is none), and a non-array `options`
   * becomes the single placeholder option; an array, even an empty one, is kept as it is.
   * `newProfile` here is the repaired `newCompany_Profile`.
   */
  function Repair(raw: RawRound, current: RoundInputs): (r: RoundResult)
    ensures Truthy(raw.newStrategy) ==> r.newStrategy == raw.newStrategy.value
    ensures !Truthy(raw.newStrategy) ==> r.newStrategy == current.strategy
    ensures Truthy(raw.newCompanyProfile) ==> r.newProfile == raw.newCompanyProfile.value
    ensures !Truthy(raw.newCompanyProfile) ==> r.newProfile == current.profile
    ensures Truthy(raw.newScenario) ==> r.newScenario == raw.newScenario.value
    ensures !Truthy(raw.newScenario) && current.scenario != "" ==> r.newScenario == current.scenario
    ensures !Truthy(raw.newScenario) && current.scenario == "" ==> r.newScenario == WaitingScenario
    ensures raw.options.Some? ==> r.options == raw.options.value
    ensures raw.options.None? ==> r.options == [PlaceholderOption]
  {
    RoundResult(
      Or(raw.newStrategy, current.strategy),
      Or(raw.newCompanyProfile, current.profile),
      Or(raw.newScenario, if current.scenario != "" then current.scenario else WaitingScenario),
      if raw.options.Some? then raw.options.value else [PlaceholderOption])
  }

  /** The try block of `processRound`: a result, or the message of the error it throws. */
  function Attempt(
    current: RoundInputs, reply: Reply, parse: string -> Result<RawRound, string>, profile: Result<string, string>
  ): (r: Result<RoundResult, string>)
    ensures reply.Failed? ==> r == Failure(reply.message)
    ensures reply.NoMessage? ==> r == Failure("Invalid response from OpenAI API")
    ensures r.Success? <==> ParsedReply(reply, parse).Some? && profile.Success?
  {
    match reply
    case Failed(message) => Failure(message)
    case NoMessage => Failure("Invalid response from OpenAI API")
    case Replied(content) =>
      match parse(Sanitize(Trim(content)))
      case Failure(parseError) =>
        Failure("Failed to parse GPT response: Failed to parse GPT response: " + parseError)
      case Success(raw) =>
        var fixed := Repair(raw, current);
        match profile
        case Failure(profileError) => Failure("Failed to parse GPT response: " + profileError)
        case Success(generated) =>
          var newProfile := Trim(generated);
          Success(fixed.(newProfile := if newProfile != "" then newProfile else fixed.newProfile))
  }

  /** The value the catch-all returns: the current state and one zero-aligned option. */
  function Fallback(current: RoundInputs, message: string): (r: RoundResult)
    ensures IsFallback(r, current)
    ensures r.options[0].id.None? && r.options[0].explanation == "Error: " + message
  {
    RoundResult(
      current.strategy, current.profile,
      if current.scenario != "" then current.scenario else WaitingScenario,
      [Candidate(None, "Option 1", Some(0), "Error: " + message)])
  }

  /** The shape of every fallback result. */
  predicate IsFallback(r: RoundResult, current: RoundInputs) {
    && r.newStrategy == current.strategy
    && r.newProfile == current.profile
    && r.newScenario == (if current.scenario != "" then current.scenario else WaitingScenario)
    && |r.options| == 1
    && r.options[0].text == "Option 1"
    && r.options[0].alignment == Some(0)
  }

  /** The reply parsed, when the chat call answered and `JSON.parse` accepted its sanitised content. */
  function ParsedReply(reply: Reply, parse: string -> Result<RawRound, string>): (p: Option<RawRound>)
    ensures p.Some? <==> reply.Replied? && parse(Sanitize(Trim(reply.content))).Success?
    ensures p.Some? ==> parse(Sanitize(Trim(reply.content))) == Success(p.value)
  {
    if reply.Replied? && parse(Sanitize(Trim(reply.content))).Success? then
      Some(parse(Sanitize(Trim(reply.content))).value)
    else None
  }

  /**
   * `processRound` after the calls return. It never fails: any error (no reply, a reply with no
   * message, unparseable content, a failing profile call) yields the fallback. Otherwise the
   * strategy, scenario and options are the repaired ones and the profile is the generated one
   * when it is not empty, else the repaired `newCompany_Profile`. The scenario is never empty
   * and a current strategy or profile is never lost.
   */
  function ProcessRound(
    current: RoundInputs, reply: Reply, parse: string -> Result<RawRound, string>, profile: Result<string, string>
  ): (r: RoundResult)
    ensures ParsedReply(reply, parse).None? || profile.Failure? ==> IsFallback(r, current)
    ensures ParsedReply(reply, parse).Some? && profile.Success? ==>
              var fixed := Repair(ParsedReply(reply, parse).value, current);
              && r.newStrategy == fixed.newStrategy
              && r.newScenario == fixed.newScenario
              && r.options == fixed.options
              && r.newProfile == (if Trim(profile.value) != "" then Trim(profile.value) else fixed.newProfile)
    ensures r.newScenario != ""
    ensures current.strategy != "" ==> r.newStrategy != ""
    ensures current.profile != "" ==> r.newProfile != ""
  {
    match Attempt(current, reply, parse, profile)
    case Success(result) => result
    case Failure(message) => Fallback(current, message)
  }

  // ----- analyzeVotingPatterns: parsing the analysis text -----

  datatype UserPattern = UserPattern(user: string, pattern: string, frequency: string)

  datatype Analysis = Analysis(userPatterns: seq<UserPattern>, generalPatterns: seq<string>)

  /** What `analyzeVotingPatterns` returns when the call fails. */
  const AnalysisError: Analysis := Analysis([], ["Error analyzing patterns"])

  const UserHeader: string := "User Patterns:"
  const GeneralHeader: string := "General Patterns:"

  /**
   * The greedy part of `(.+) \((.+)\)$` on `r`: the largest `j <= hi`, `j >= 1`, at which
   * " (" starts.
   */
  function LastOpenFrom(r: string, hi: nat): (j: Option<nat>)
    requires hi + 2 <= |r|
    ensures j.Some? ==> 1 <= j.value <= hi && r[j.value..j.value + 2] == " ("
    ensures j.Some? ==> forall k :: j.value < k <= hi ==> !(r[k] == ' ' && r[k + 1] == '(')
    ensures j.None? ==> forall k :: 1 <= k <= hi ==> !(r[k] == ' ' && r[k + 1] == '(')
    decreases hi
  {
    if hi == 0 then None
    else if r[hi..hi + 2] == " (" then Some(hi)
    else LastOpenFrom(r, hi - 1)
  }

  /** `(.+) \((.+)\)$` on `r`: the pattern and the frequency. */
  function MatchTail(r: string): (t: Option<(string, string)>)
    ensures t.Some? ==> |t.value.0| >= 1 && |t.value.1| >= 1 && r == t.value.0 + " (" + t.value.1 + ")"
  {
    if |r| < 5 || r[|r| - 1] != ')' then None
    else match LastOpenFrom(r, |r| - 4)
      case None => None
      case Some(j) =>
        assert r == r[..j] + " (" + r[j + 2..|r| - 1] + ")";
        Some((r[..j], r[j + 2..|r| - 1]))
  }

  /** The lazy part of `^- (.+?): `: the smallest user end `i >= start` at which the rest matches. */
  function LazyFrom(line: string, start: nat): Option<UserPattern>
    requires 3 <= start
    decreases |line| - start
  {
    if start + 2 > |line| then None
    else if line[start..start + 2] == ": " && MatchTail(line[start + 2..]).Some? then
      var tail := MatchTail(line[start + 2..]).value;
      Some(UserPattern(Trim(line[2..start]), Trim(tail.0), Trim(tail.1)))
    else LazyFrom(line, start + 1)
  }

  /**
   * One user-pattern line matched against `/^- (.+?): (.+) \((.+)\)$/`, groups trimmed. A `.`
   * matches no line terminator, so a line holding one does not match. A match means the line
   * is "- user: pattern (frequency)" with three non-empty parts, and the result is those parts
   * trimmed.
   */
  function MatchUserLine(line: string): (m: Option<UserPattern>)
    ensures m.Some? ==> StartsWith(line, "- ") && !HasLineTerminator(line)
    ensures m.Some? ==>
              exists u, p, f :: |u| >= 1 && |p| >= 1 && |f| >= 1
                && line == "- " + u + ": " + p + " (" + f + ")"
                && m.value == UserPattern(Trim(u), Trim(p), Trim(f))
  {
    if !StartsWith(line, "- ") || HasLineTerminator(line) then None
    else
      var m := LazyFrom(line, 3);
      LazyMatchShape(line, 3);
      m
  }

  /** A lazy match splits the line into "- ", the user, ": " and a matched tail. */
  lemma {:induction false} LazyMatchShape(line: string, start: nat)
    requires 3 <= start && StartsWith(line, "- ")
    ensures LazyFrom(line, start).Some? ==>
              exists u, p, f :: |u| >= 1 && |p| >= 1 && |f| >= 1
                && line == "- " + u + ": " + p + " (" + f + ")"
                && LazyFrom(line, start).value == UserPattern(Trim(u), Trim(p), Trim(f))
    decreases |line| - start
  {
    if start + 2 <= |line| {
      if line[start..start + 2] == ": " && MatchTail(line[start + 2..]).Some? {
        var tail := MatchTail(line[start + 2..]).value;
        LineFromParts(line, start, tail.0, tail.1);
      } else {
        LazyMatchShape(line, start + 1);
      }
    }
  }

  /** A line cut after "- ", at the ": " and around the " (" is the four parts put together. */
  lemma LineFromParts(line: string, start: nat, pattern: string, frequency: string)
    requires 3 <= start && start + 2 <= |line| && StartsWith(line, "- ")
    requires line[start..start + 2] == ": " && line[start + 2..] == pattern + " (" + frequency + ")"
    ensures line == "- " + line[2..start] + ": " + pattern + " (" + frequency + ")"
  {
    assert line == line[..2] + line[2..start] + line[start..start + 2] + line[start + 2..];
  }

  /** Scanning for " (" from the right skips a frequency that has no "(". */
  lemma {:induction false} LastOpenSkipsFrequency(r: string, p: nat, hi: nat)
    requires 1 <= p <= hi && hi + 2 <= |r| && r[p..p + 2] == " ("
    requires forall k :: p + 2 <= k < hi + 2 ==> r[k] != '('
    ensures LastOpenFrom(r, hi) == Some(p)
    decreases hi
  {
    if hi > p {
      assert r[hi + 1] != '(';
      assert r[hi..hi + 2] != " (";
      LastOpenSkipsFrequency(r, p, hi - 1);
    }
  }

  /** Scanning for ": " from the left skips a user name that has no ":". */
  lemma {:induction false} LazySkipsUser(line: string, u: nat, start: nat)
    requires 3 <= start <= u && u + 2 <= |line|
    requires forall k :: 2 <= k < u ==> line[k] != ':'
    ensures LazyFrom(line, start) == LazyFrom(line, u)
    decreases u - start
  {
    if start < u {
      assert line[start] != ':';
      assert line[start..start + 2] != ": ";
      LazySkipsUser(line, u, start + 1);
    }
  }

  lemma NoTerminatorInConcat(a: string, b: string)
    requires !HasLineTerminator(a) && !HasLineTerminator(b)
    ensures !HasLineTerminator(a + b)
  {
    forall i | 0 <= i < |a + b| ensures !IsLineTerminator((a + b)[i]) {
      if i < |a| {
        assert (a + b)[i] == a[i];
      } else {
        assert (a + b)[i] == b[i - |a|];
      }
    }
  }

  /** The greedy tail match reads back a pattern and a frequency without "(". */
  lemma TailRoundTrip(pattern: string, frequency: string)
    requires pattern != [] && frequency != [] && '(' !in frequency
    ensures MatchTail(pattern + " (" + frequency + ")") == Some((pattern, frequency))
  {
    var r := pattern + " (" + frequency + ")";
    var p := |pattern|;
    assert |r| == p + 3 + |frequency| && r[|r| - 1] == ')';
    assert r[p..p + 2] == " (";
    forall k | p + 2 <= k < |r| - 2 ensures r[k] != '(' {
      assert r[k] == frequency[k - p - 2];
    }
    MatchTailAt(r, p);
    assert r[..p] == pattern;
    assert r[p + 2..|r| - 1] == frequency;
  }

  /** The tail splits at the last " (" when no "(" follows it before the closing ")". */
  lemma MatchTailAt(r: string, p: nat)
    requires 1 <= p && p + 4 <= |r| && r[|r| - 1] == ')' && r[p..p + 2] == " ("
    requires forall k :: p + 2 <= k < |r| - 2 ==> r[k] != '('
    ensures MatchTail(r) == Some((r[..p], r[p + 2..|r| - 1]))
  {
    LastOpenSkipsFrequency(r, p, |r| - 4);
  }

  /**
   * A line written in the requested format "- user: pattern (frequency)" is read back, provided
   * the user has no ":", the frequency no "(", and no part a line terminator.
   */
  lemma UserLineRoundTrip(user: string, pattern: string, frequency: string)
    requires user != [] && pattern != [] && frequency != []
    requires ':' !in user && '(' !in frequency
    requires !HasLineTerminator(user) && !HasLineTerminator(pattern) && !HasLineTerminator(frequency)
    ensures MatchUserLine("- " + user + ": " + pattern + " (" + frequency + ")")
            == Some(UserPattern(Trim(user), Trim(pattern), Trim(frequency)))
  {
    var tail := pattern + " (" + frequency + ")";
    var line := "- " + user + ": " + tail;
    assert line == "- " + user + ": " + pattern + " (" + frequency + ")";
    TailHasNoTerminator(pattern, frequency);
    UserLineHasNoTerminator(user, tail);
    var u := 2 + |user|;
    UserLineParts(user, tail);
    LazySkipsUser(line, u, 3);
    TailRoundTrip(pattern, frequency);
  }

  /**
   * Conversely, every line "- user: pattern (frequency)" with three non-empty parts and no line
   * terminator matches, whatever ":" or "(" the parts hold.
   */
  lemma UserLineMatches(user: string, pattern: string, frequency: string)
    requires user != [] && pattern != [] && frequency != []
    requires !HasLineTerminator("- " + user + ": " + pattern + " (" + frequency + ")")
    ensures MatchUserLine("- " + user + ": " + pattern + " (" + frequency + ")").Some?
  {
    var tail := pattern + " (" + frequency + ")";
    var line := "- " + user + ": " + tail;
    assert line == "- " + user + ": " + pattern + " (" + frequency + ")";
    var u := 2 + |user|;
    assert line[..2] == "- ";
    assert line[u..u + 2] == ": ";
    assert line[u + 2..] == tail;
    TailMatches(pattern, frequency);
    LazyReaches(line, 3, u);
  }

  /** A tail "pattern (frequency)" with both parts non-empty matches. */
  lemma TailMatches(pattern: string, frequency: string)
    requires pattern != [] && frequency != []
    ensures MatchTail(pattern + " (" + frequency + ")").Some?
  {
    var r := pattern + " (" + frequency + ")";
    var k := |pattern|;
    assert r[k] == ' ' && r[k + 1] == '(';
    assert r[|r| - 1] == ')';
  }

  /** The lazy scan finds a match at the latest where the user name ends at a ": " before a matching tail. */
  lemma {:induction false} LazyReaches(line: string, start: nat, u: nat)
    requires 3 <= start <= u && u + 2 <= |line|
    requires line[u..u + 2] == ": " && MatchTail(line[u + 2..]).Some?
    ensures LazyFrom(line, start).Some?
    decreases u - start
  {
    if start < u && !(line[start..start + 2] == ": " && MatchTail(line[start + 2..]).Some?) {
      LazyReaches(line, start + 1, u);
    }
  }

  /** A tail built from parts without line terminators has none. */
  lemma TailHasNoTerminator(pattern: string, frequency: string)
    requires !HasLineTerminator(pattern) && !HasLineTerminator(frequency)
    ensures !HasLineTerminator(pattern + " (" + frequency + ")")
  {
    assert !HasLineTerminator(" (") && !HasLineTerminator(")");
    NoTerminatorInConcat(pattern, " (");
    NoTerminatorInConcat(pattern + " (", frequency);
    NoTerminatorInConcat(pattern + " (" + frequency, ")");
  }

  /** A line built from parts without line terminators has none. */
  lemma UserLineHasNoTerminator(user: string, tail: string)
    requires !HasLineTerminator(user) && !HasLineTerminator(tail)
    ensures !HasLineTerminator("- " + user + ": " + tail)
  {
    assert !HasLineTerminator("- ") && !HasLineTerminator(": ");
    NoTerminatorInConcat("- ", user);
    NoTerminatorInConcat("- " + user, ": ");
    NoTerminatorInConcat("- " + user + ": ", tail);
  }

  /** Where the user name and the tail sit in a user-pattern line. */
  lemma UserLineParts(user: string, tail: string)
    requires ':' !in user
    ensures var line := "- " + user + ": " + tail;
            var u := 2 + |user|;
            && StartsWith(line, "- ")
            && u + 2 <= |line|
            && line[2..u] == user
            && line[u..u + 2] == ": "
            && line[u + 2..] == tail
            && (forall k :: 2 <= k < u ==> line[k] != ':')
  {
    var line := "- " + user + ": " + tail;
    var u := 2 + |user|;
    forall k | 2 <= k < u ensures line[k] != ':' {
      assert line[k] == user[k - 2];
    }
    assert line[u..u + 2] == ": ";
    assert line[u + 2..] == tail;
    assert line[2..u] == user;
  }

  /** `filter(Boolean)` after a `map` that yields null for a miss: the hits, in order. */
  function Present<T>(s: seq<Option<T>>): (r: seq<T>)
    ensures |r| <= |s|
  {
    if s == [] then [] else (if s[0].Some? then [s[0].value] else []) + Present(s[1..])
  }

  /** A value survives the filter exactly when some element holds it. */
  lemma {:induction false} PresentMembers<T>(s: seq<Option<T>>, x: T)
    ensures x in Present(s) <==> Some(x) in s
    decreases |s|
  {
    if s != [] {
      PresentMembers(s[1..], x);
      assert s == [s[0]] + s[1..];
    }
  }

  /** Every user-pattern line matched, the lines that do not match dropped; the order stays. */
  function UserPatterns(lines: seq<string>): (r: seq<UserPattern>)
    ensures |r| <= |lines|
  {
    Present(MatchLines(lines))
  }

  /** The `map` step: each line matched, null for a miss. */
  function MatchLines(lines: seq<string>): (r: seq<Option<UserPattern>>)
    ensures |r| == |lines|
    ensures forall i :: 0 <= i < |lines| ==> r[i] == MatchUserLine(lines[i])
  {
    seq(|lines|, i requires 0 <= i < |lines| => MatchUserLine(lines[i]))
  }

  /** A pattern is in the result exactly when some line matches to it. */
  lemma UserPatternsMembers(lines: seq<string>, m: UserPattern)
    ensures m in UserPatterns(lines) <==> exists i :: 0 <= i < |lines| && MatchUserLine(lines[i]) == Some(m)
  {
    PresentMembers(MatchLines(lines), m);
    if m in UserPatterns(lines) {
      MatchedLineOf(lines, m);
    }
    if exists i :: 0 <= i < |lines| && MatchUserLine(lines[i]) == Some(m) {
      var i :| 0 <= i < |lines| && MatchUserLine(lines[i]) == Some(m);
      assert MatchLines(lines)[i] == Some(m);
    }
  }

  /** A pattern in the result comes from some line. */
  lemma MatchedLineOf(lines: seq<string>, m: UserPattern)
    requires Some(m) in MatchLines(lines)
    ensures exists i :: 0 <= i < |lines| && MatchUserLine(lines[i]) == Some(m)
  {
    var matched := MatchLines(lines);
    var i :| 0 <= i < |matched| && matched[i] == Some(m);
    assert MatchUserLine(lines[i]) == Some(m);
  }


  /** `replace(/^- /, '')`: a leading "- " goes; otherwise the line stays. */
  function DropDash(line: string): (r: string)
    ensures StartsWith(line, "- ") ==> line == "- " + r
    ensures !StartsWith(line, "- ") ==> r == line
  {
    if StartsWith(line, "- ") then line[2..] else line
  }

  /**
   * The general-pattern lines without a leading "- ", trimmed, empty ones dropped.
   */
  function GeneralPatterns(lines: seq<string>): (r: seq<string>)
    ensures |r| <= |lines|
    ensures forall i :: 0 <= i < |r| ==> r[i] != "" && Trimmed(r[i])
  {
    if lines == [] then []
    else
      var rest := GeneralPatterns(lines[1..]);
      var p := PatternOf(lines[0]);
      if p != "" then [p] + rest else rest
  }

  /** The pattern one general-pattern line reads as; "" when it reads as none. */
  function PatternOf(line: string): (r: string)
    ensures Trimmed(r) && |r| <= |line|
    ensures StartsWith(line, "- ") ==> |r| <= |line| - 2
  {
    Trim(DropDash(line))
  }

  /** A pattern is read exactly when it is non-empty and some line reads as it. */
  lemma {:induction false} GeneralPatternsMembers(lines: seq<string>, p: string)
    ensures p in GeneralPatterns(lines) <==>
              p != "" && exists i :: 0 <= i < |lines| && PatternOf(lines[i]) == p
    decreases |lines|
  {
    if lines != [] {
      var tail := lines[1..];
      GeneralPatternsMembers(tail, p);
      assert GeneralPatterns(lines) == (if PatternOf(lines[0]) != "" then [PatternOf(lines[0])] else []) + GeneralPatterns(tail);
      if p in GeneralPatterns(tail) {
        var i :| 0 <= i < |tail| && PatternOf(tail[i]) == p;
        assert lines[i + 1] == tail[i];
      }
      if p != "" && exists i :: 0 <= i < |lines| && PatternOf(lines[i]) == p {
        var i :| 0 <= i < |lines| && PatternOf(lines[i]) == p;
        if i > 0 {
          assert tail[i - 1] == lines[i];
        }
      }
    }
  }

  /** Lines written as "- pattern", with trimmed non-empty patterns, are read back in order. */
  lemma {:induction false} DashedLinesReadBack(lines: seq<string>, ps: seq<string>)
    requires |lines| == |ps|
    requires forall i :: 0 <= i < |ps| ==> ps[i] != "" && Trimmed(ps[i]) && lines[i] == "- " + ps[i]
    ensures GeneralPatterns(lines) == ps
    decreases |ps|
  {
    if ps != [] {
      DashedLineReadBack(ps[0]);
      calc {
        GeneralPatterns(lines);
        [PatternOf(lines[0])] + GeneralPatterns(lines[1..]);
        { DashedLinesReadBack(lines[1..], ps[1..]); }
        [ps[0]] + ps[1..];
        ps;
      }
    }
  }

  /** One line "- pattern" reads as its trimmed non-empty pattern. */
  lemma DashedLineReadBack(p: string)
    requires p != "" && Trimmed(p)
    ensures PatternOf("- " + p) == p
  {
    var line := "- " + p;
    assert StartsWith(line, "- ") && line[2..] == p;
    TrimKeepsTrimmed(p);
  }

  /** The lines of a section after its header line. */
  function BodyLines(section: string): seq<string> {
    Split(section, "\n")[1..]
  }

  /** One step of the loop over sections: a section under a header replaces that list. */
  function ReadSection(a: Analysis, section: string): (r: Analysis)
    ensures StartsWith(section, UserHeader) ==>
              r.userPatterns == UserPatterns(BodyLines(section)) && r.generalPatterns == a.generalPatterns
    ensures StartsWith(section, GeneralHeader) ==>
              r.generalPatterns == GeneralPatterns(BodyLines(section)) && r.userPatterns == a.userPatterns
    ensures !StartsWith(section, UserHeader) && !StartsWith(section, GeneralHeader) ==> r == a
  {
    HeadersExclusive(section);
    if StartsWith(section, UserHeader) then a.(userPatterns := UserPatterns(BodyLines(section)))
    else if StartsWith(section, GeneralHeader) then a.(generalPatterns := GeneralPatterns(BodyLines(section)))
    else a
  }

  /** The loop over all sections, from an analysis with both lists empty. */
  function ReadSections(sections: seq<string>): (a: Analysis)
    ensures forall i :: 0 <= i < |a.generalPatterns| ==> a.generalPatterns[i] != "" && Trimmed(a.generalPatterns[i])
  {
    if sections == [] then Analysis([], [])
    else ReadSection(ReadSections(sections[..|sections| - 1]), sections[|sections| - 1])
  }

  /** The last section that starts with `header`. */
  function LastSection(sections: seq<string>, header: string): (s: Option<string>)
    ensures s.Some? ==> s.value in sections && StartsWith(s.value, header)
    ensures s.None? ==> forall i :: 0 <= i < |sections| ==> !StartsWith(sections[i], header)
  {
    if sections == [] then None
    else if StartsWith(sections[|sections| - 1], header) then Some(sections[|sections| - 1])
    else LastSection(sections[..|sections| - 1], header)
  }

  lemma HeadersExclusive(s: string)
    ensures !(StartsWith(s, UserHeader) && StartsWith(s, GeneralHeader))
  {
    if StartsWith(s, UserHeader) {
      assert s[0] == UserHeader[0] == 'U';
    }
  }

  /**
   * Each list comes from the last section under its header alone: a later section of a kind
   * replaces an earlier one, and a list with no section stays empty.
   */
  lemma {:induction false} LatestSectionWins(sections: seq<string>)
    ensures ReadSections(sections).userPatterns ==
            (match LastSection(sections, UserHeader)
             case None => []
             case Some(s) => UserPatterns(BodyLines(s)))
    ensures ReadSections(sections).generalPatterns ==
            (match LastSection(sections, GeneralHeader)
             case None => []
             case Some(s) => GeneralPatterns(BodyLines(s)))
  {
    if sections != [] {
      HeadersExclusive(sections[|sections| - 1]);
      LatestSectionWins(sections[..|sections| - 1]);
    }
  }

  /**
   * `analyzeVotingPatterns` after the call: None stands for a failed call (or a reply without
   * content) and gives the error analysis; otherwise the trimmed reply is cut at blank lines and
   * read section by section. General patterns are never empty and always trimmed.
   */
  function AnalyzeVotingPatterns(reply: Option<string>): (a: Analysis)
    ensures reply.None? ==> a == AnalysisError
    ensures forall i :: 0 <= i < |a.generalPatterns| ==> a.generalPatterns[i] != "" && Trimmed(a.generalPatterns[i])
    ensures reply.Some? ==> |a.userPatterns| <= |Trim(reply.value)|
  {
    match reply
    case None => AnalysisError
    case Some(content) =>
      var sections := Split(Trim(content), "\n\n");
      var a := ReadSections(sections);
      UserPatternsBounded(sections);
      a
  }

  /** The user patterns number at most the lines after the header of the section they come from. */
  lemma UserPatternsBounded(sections: seq<string>)
    ensures |ReadSections(sections).userPatterns| <= |Join(sections, "\n\n")|
  {
    LatestSectionWins(sections);
    var last := LastSection(sections, UserHeader);
    if last.Some? {
      var s := last.value;
      var lines := Split(s, "\n");
      LinesFewerThanChars(s);
      JoinLongerThanParts(sections, "\n\n", s);
    }
  }

  /** A section has no more lines after its header than it has characters. */
  lemma LinesFewerThanChars(s: string)
    ensures |BodyLines(s)| <= |s|
  {
    var lines := Split(s, "\n");
    JoinLength(lines, "\n");
  }

  /** Joining with a one-character separator: at least one character per separator. */
  lemma {:induction false} JoinLength(parts: seq<string>, sep: string)
    requires |parts| >= 1
    ensures |Join(parts, sep)| >= (|parts| - 1) * |sep|
    decreases |parts|
  {
    if |parts| > 1 {
      JoinLength(parts[1..], sep);
    }
  }

  /** Every joined part is no longer than the joined whole. */
  lemma {:induction false} JoinLongerThanParts(parts: seq<string>, sep: string, p: string)
    requires p in parts
    ensures |p| <= |Join(parts, sep)|
    decreases |parts|
  {
    if |parts| > 1 && p != parts[0] {
      JoinLongerThanParts(parts[1..], sep, p);
    }
  }

  /** A one-section reply under neither header yields no pattern at all. */
  lemma NoHeaderYieldsNothing(content: string)
    requires '\n' !in Trim(content)
    requires !StartsWith(Trim(content), UserHeader) && !StartsWith(Trim(content), GeneralHeader)
    ensures AnalyzeVotingPatterns(Some(content)) == Analysis([], [])
  {
    SplitNoBlankLine(Trim(content));
    assert Split(Trim(content), "\n\n") == [Trim(content)];
    assert ReadSections([Trim(content)]) == ReadSection(ReadSections([]), Trim(content));
  }

  /** The reply the analysis prompt asks for when there is too little data. */
  const InsufficientData: string := "Insufficient data for vote analysis."

  /** That reply yields no pattern at all. */
  lemma InsufficientDataYieldsNothing()
    ensures AnalyzeVotingPatterns(Some(InsufficientData)) == Analysis([], [])
  {
    InsufficientDataIsTrimmed();
    InsufficientDataIsOneLine();
    DifferentFirstChar(InsufficientData, UserHeader);
    DifferentFirstChar(InsufficientData, GeneralHeader);
    NoHeaderYieldsNothing(InsufficientData);
  }

  lemma InsufficientDataIsTrimmed()
    ensures Trim(InsufficientData) == InsufficientData
  {
    assert !IsSpace(InsufficientData[0]) && !IsSpace(InsufficientData[|InsufficientData| - 1]);
    TrimKeepsTrimmed(InsufficientData);
  }

  lemma InsufficientDataIsOneLine()
    ensures '\n' !in InsufficientData
  {
  }

  /** Text without line feeds is one section. */
  lemma SplitNoBlankLine(s: string)
    requires '\n' !in s
    ensures Split(s, "\n\n") == [s]
  {
    forall j: nat | j <= |s| ensures !OccursAt(s, "\n\n", j) {
      if j + 2 <= |s| {
        assert s[j] != '\n';
        assert s[j..j + 2][0] == s[j];
      }
    }
  }
}
