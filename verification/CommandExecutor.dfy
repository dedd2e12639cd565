/** Running a matched command: parsing its arguments, carrying out its actions through the gateway
    one call after the other, and reporting how far it came. */
module CommandExecutor {
  import opened Wrappers
  import opened Text
  import opened CommandDefinition
  import CommandTokenizer

  const MIN_INT64 := -9223372036854775808
  const MAX_INT64 := 9223372036854775807
  const SECOND_NANOS := 1000000000

  // ---------------------------------------------------------------------------------------
  // Arguments

  // A parsed argument; the zero value stands for an optional argument that was left out.
  datatype Value = Value(raw: string, display: string, integer: int, seconds: int, member: string, present: bool)

  const ABSENT := Value("", "", 0, 0, "", false)

  /** strconv.ParseInt(s, 10, 64) */
  function ParseInt(s: string): (n: Option<int>)
    ensures n.Some? ==> MIN_INT64 <= n.value <= MAX_INT64
  {
    var negative := s != "" && s[0] == '-';
    var digits := if s != "" && (s[0] == '-' || s[0] == '+') then s[1..] else s;
    if digits == "" || !AllDigits(digits) then None
    else
      var magnitude: int := DecimalValue(digits);
      var n := if negative then -magnitude else magnitude;
      if MIN_INT64 <= n <= MAX_INT64 then Some(n) else None
  }

  function FormatInt(n: int): string {
    if n < 0 then "-" + Decimal(-n) else Decimal(n)
  }

  lemma SignedDigits(sign: string, digits: string)
    requires digits != "" && AllDigits(digits) && (sign == "" || sign == "-" || sign == "+")
    ensures var n: int := DecimalValue(digits);
            ParseInt(sign + digits) ==
            if sign == "-" then (if MIN_INT64 <= -n then Some(-n) else None) else if n <= MAX_INT64 then Some(n) else None
  {
    hide DecimalValue;
    var s := sign + digits;
    if sign == "" {
      assert s == digits && IsDigit(s[0]);
    } else {
      assert s[0] == sign[0] && s[1..] == digits;
    }
  }

  // Nothing but signed digits is a number.
  lemma NumbersAreSignedDigits(s: string)
    requires ParseInt(s).Some?
    ensures exists sign, digits :: s == sign + digits && (sign == "" || sign == "-" || sign == "+") && digits != "" && AllDigits(digits)
  {
    hide DecimalValue;
    if s[0] == '-' || s[0] == '+' {
      assert s == [s[0]] + s[1..];
    } else {
      assert s == "" + s;
    }
  }

  lemma FormatIntRoundTrip(n: int)
    requires MIN_INT64 <= n <= MAX_INT64
    ensures ParseInt(FormatInt(n)) == Some(n)
  {
    hide Decimal, DecimalValue, ParseInt;
    var magnitude := if n < 0 then -n else n;
    DecimalRoundTrip(magnitude);
    SignedDigits(if n < 0 then "-" else "", Decimal(magnitude));
    assert "" + Decimal(magnitude) == Decimal(magnitude);
  }

  /** `parseDuration` is time.ParseDuration, in nanoseconds. */
  function ParseDurationSeconds(parseDuration: string -> Option<int>, s: string): Option<int> {
    if ParseInt(s).Some? then ParseInt(s)
    else if s != "" && s[|s| - 1] == 'd' then
      match ParseInt(s[..|s| - 1])
      case Some(days) => if days <= 0 || days > MAX_MUTE_SECONDS / 86400 then None else Some(days * 86400)
      case None => None
    else
      match parseDuration(s)
      case Some(nanos) => if nanos <= 0 || nanos % SECOND_NANOS != 0 then None else Some(nanos / SECOND_NANOS)
      case None => None
  }

  /** Seconds and days as they are written. */
  lemma DurationNotations(parseDuration: string -> Option<int>, n: nat)
    ensures n <= MAX_INT64 ==> ParseDurationSeconds(parseDuration, FormatInt(n)) == Some(n)
    ensures 1 <= n <= 30 ==> ParseDurationSeconds(parseDuration, FormatInt(n) + "d") == Some(86400 * n)
  {
    if n <= MAX_INT64 {
      FormatIntRoundTrip(n);
    }
    var days := FormatInt(n) + "d";
    assert days[..|days| - 1] == FormatInt(n);
    DaysAreNoNumber(Decimal(n));
  }

  /** A duration is a number of seconds, or one to thirty days, or whole seconds in Go's notation. */
  lemma ParseDurationIff(parseDuration: string -> Option<int>, s: string, seconds: int)
    ensures ParseDurationSeconds(parseDuration, s) == Some(seconds) <==>
            if ParseInt(s).Some? then ParseInt(s).value == seconds
            else if exists text :: s == text + "d"
            then exists days :: 1 <= days <= 30 && ParseInt(s[..|s| - 1]) == Some(days) && seconds == 86400 * days
            else seconds > 0 && parseDuration(s) == Some(SECOND_NANOS * seconds)
  {
    hide ParseInt;
    if s != "" && s[|s| - 1] == 'd' {
      assert s == s[..|s| - 1] + "d";
    }
    if text :| s == text + "d" {
      assert s[|s| - 1] == 'd';
    }
  }

  lemma DaysAreNoNumber(digits: string)
    ensures ParseInt(digits + "d").None?
  {
    var s := digits + "d";
    assert !IsDigit(s[|s| - 1]);
    assert |s| > 1 ==> s[1..][|s| - 2] == s[|s| - 1];
  }

  predicate ValidQQ(s: string) {
    1 <= |s| <= 32 && AllDigits(s) && exists k :: 0 <= k < |s| && s[k] != '0'
  }

  lemma ValidQQIff(s: string)
    ensures ValidQQ(s) <==> |s| <= 32 && AllDigits(s) && DecimalValue(s) > 0
  {
    if AllDigits(s) {
      PositiveIff(s);
    }
  }

  function FindOption(options: seq<FixedOption>, value: string): Option<FixedOption> {
    if options == [] then None else if options[0].value == value then Some(options[0]) else FindOption(options[1..], value)
  }

  function ParseValue(parseDuration: string -> Option<int>, p: Parameter, raw: string): Option<Value> {
    match p.kind
    case TextParameter =>
      if |raw| < p.minLength || |raw| > p.maxLength then None else Some(Value(raw, raw, 0, 0, "", true))
    case IntegerParameter =>
      (match ParseInt(raw)
       case Some(n) =>
         if n < p.minimum || n > p.maximum then None else Some(Value(FormatInt(n), FormatInt(n), n, 0, "", true))
       case None => None)
    case DurationParameter =>
      (match ParseDurationSeconds(parseDuration, raw)
       case Some(seconds) =>
         if seconds < p.minimumSeconds || seconds > p.maximumSeconds then None
         else Some(Value(FormatInt(seconds), FormatInt(seconds) + "s", 0, seconds, "", true))
       case None => None)
    case MemberParameter =>
      var member := if raw != "" && raw[0] == '@' then raw[1..] else raw;
      if !ValidQQ(member) then None else Some(Value(member, member, 0, 0, member, true))
    case OptionParameter =>
      (match FindOption(p.options, raw)
       case Some(option) => Some(Value(raw, option.caption, 0, 0, "", true))
       case None => None)
    case OtherParameter => None
  }

  /** parseValue, which reads one argument by the type of its parameter. */
  method ParseArgument(parseDuration: string -> Option<int>, p: Parameter, raw: string) returns (r: Option<Value>)
    ensures r == ParseValue(parseDuration, p, raw)
  {
    hide ParseInt, ParseDurationSeconds, FormatInt, ValidQQ;
    var value := Value(raw, raw, 0, 0, "", true);
    match p.kind {
      case TextParameter =>
        if |raw| < p.minLength || |raw| > p.maxLength {
          return None;
        }
      case IntegerParameter =>
        var parsed := ParseInt(raw);
        if parsed.None? || parsed.value < p.minimum || parsed.value > p.maximum {
          return None;
        }
        value := value.(integer := parsed.value, raw := FormatInt(parsed.value), display := FormatInt(parsed.value));
      case DurationParameter =>
        var seconds := ParseDurationSeconds(parseDuration, raw);
        if seconds.None? || seconds.value < p.minimumSeconds || seconds.value > p.maximumSeconds {
          return None;
        }
        value := value.(seconds := seconds.value, raw := FormatInt(seconds.value), display := FormatInt(seconds.value) + "s");
      case MemberParameter =>
        var member := if "@" <= raw then raw[1..] else raw;
        if !ValidQQ(member) {
          return None;
        }
        value := value.(member := member, raw := member, display := member);
      case OptionParameter =>
        var found := false;
        for k := 0 to |p.options|
          invariant !found && value == Value(raw, raw, 0, 0, "", true)
          invariant FindOption(p.options, raw) == FindOption(p.options[k..], raw)
        {
          if p.options[k].value == raw {
            value, found := value.(display := p.options[k].caption), true;
            break;
          }
        }
        if !found {
          return None;
        }
      case OtherParameter =>
        return None;
    }
    r := Some(value);
  }

  /** What an argument may be: absent only if optional, and within its parameter's limits otherwise. */
  predicate WithinLimits(p: Parameter, v: Value) {
    if !v.present then !p.required && v == ABSENT
    else
      match p.kind
      case TextParameter => p.minLength <= |v.raw| <= p.maxLength
      case IntegerParameter => p.minimum <= v.integer <= p.maximum && v.raw == FormatInt(v.integer)
      case DurationParameter => p.minimumSeconds <= v.seconds <= p.maximumSeconds && v.raw == FormatInt(v.seconds)
      case MemberParameter => ValidQQ(v.member) && v.raw == v.member
      case OptionParameter => exists k :: 0 <= k < |p.options| && p.options[k].value == v.raw
      case OtherParameter => false
  }

  lemma ParsedIsWithinLimits(parseDuration: string -> Option<int>, p: Parameter, raw: string)
    requires ParseValue(parseDuration, p, raw).Some?
    ensures ParseValue(parseDuration, p, raw).value.present
    ensures WithinLimits(p, ParseValue(parseDuration, p, raw).value)
  {
    hide ParseInt, ParseDurationSeconds, FormatInt, ValidQQ;
    if p.kind == OptionParameter {
      FirstOption(p.options, raw);
    }
  }

  /** Exactly the arguments within the limits of their parameter are accepted, and they keep their
      meaning: the text, the number, the seconds, the member without its `@`, the first option's caption. */
  lemma AcceptedIff(parseDuration: string -> Option<int>, p: Parameter, raw: string)
    ensures var v := ParseValue(parseDuration, p, raw);
            match p.kind
            case TextParameter => (v.Some? <==> p.minLength <= |raw| <= p.maxLength) && (v.Some? ==> v.value.raw == v.value.display == raw)
            case IntegerParameter =>
              (v.Some? <==> ParseInt(raw).Some? && p.minimum <= ParseInt(raw).value <= p.maximum) &&
              (v.Some? ==> v.value.integer == ParseInt(raw).value && v.value.raw == v.value.display == FormatInt(v.value.integer))
            case DurationParameter =>
              var seconds := ParseDurationSeconds(parseDuration, raw);
              (v.Some? <==> seconds.Some? && p.minimumSeconds <= seconds.value <= p.maximumSeconds) &&
              (v.Some? ==> v.value.seconds == seconds.value && v.value.display == v.value.raw + "s" == FormatInt(seconds.value) + "s")
            case MemberParameter =>
              (v.Some? <==> exists member :: (raw == member || raw == "@" + member) && ValidQQ(member)) &&
              (v.Some? ==> v.value.raw == v.value.display == v.value.member && (raw == v.value.member || raw == "@" + v.value.member))
            case OptionParameter =>
              (v.Some? <==> exists k :: FirstWith(p.options, k, raw)) &&
              (forall k :: FirstWith(p.options, k, raw) ==> v.Some? && v.value.raw == raw && v.value.display == p.options[k].caption)
            case OtherParameter => v.None?
  {
    hide ParseInt, ParseDurationSeconds, FormatInt;
    if p.kind == MemberParameter {
      assert raw != "" && raw[0] == '@' ==> raw == "@" + raw[1..];
      if member :| (raw == member || raw == "@" + member) && ValidQQ(member) {
        assert IsDigit(member[0]);
        assert raw == "@" + member ==> raw[1..] == member;
      }
    }
    if p.kind == OptionParameter {
      FirstOption(p.options, raw);
    }
  }

  predicate FirstWith(options: seq<FixedOption>, k: int, value: string) {
    0 <= k < |options| && options[k].value == value && forall j :: 0 <= j < k ==> options[j].value != value
  }

  lemma {:induction false} FirstOption(options: seq<FixedOption>, value: string)
    ensures FindOption(options, value).Some? <==> exists k :: FirstWith(options, k, value)
    ensures forall k :: FirstWith(options, k, value) ==> FindOption(options, value) == Some(options[k])
  {
    if options != [] && options[0].value == value {
      assert FirstWith(options, 0, value);
    } else if options != [] {
      var rest := options[1..];
      FirstOption(rest, value);
      forall k | FirstWith(rest, k, value)
        ensures FirstWith(options, k + 1, value)
      {
        assert forall j :: 1 <= j < k + 1 ==> options[j] == rest[j - 1];
      }
      forall k | FirstWith(options, k, value)
        ensures FirstWith(rest, k - 1, value)
      {
        assert forall j :: 0 <= j < k - 1 ==> options[j + 1] == rest[j];
      }
    }
  }

  /** The argument for a parameter, by position, in a message split into tokens. */
  function Argument(parseDuration: string -> Option<int>, d: Definition, tokens: seq<string>, k: nat): Option<Value>
    requires k < |d.parameters|
  {
    if k + 1 < |tokens| then ParseValue(parseDuration, d.parameters[k], tokens[k + 1])
    else if d.parameters[k].required then None
    else Some(ABSENT)
  }

  /** The message can be parsed: it names the command, and each parameter has a value or may lack it. */
  ghost predicate Parsable(parseDuration: string -> Option<int>, d: Definition, message: string) {
    1 <= |message| <= MAX_MESSAGE_RUNES && CommandTokenizer.Tokens(message).Some? &&
    var tokens := CommandTokenizer.Tokens(message).value;
    tokens != [] && tokens[0] == d.name && |tokens| - 1 <= |d.parameters| &&
    forall k :: 0 <= k < |d.parameters| ==> Argument(parseDuration, d, tokens, k).Some?
  }

  /** The parsed values are those of the message's tokens, one for each parameter. */
  ghost predicate ValuesOf(parseDuration: string -> Option<int>, d: Definition, tokens: seq<string>, n: nat, values: map<string, Value>)
    requires n <= |d.parameters|
  {
    (forall k :: 0 <= k < n ==>
      d.parameters[k].name in values && Argument(parseDuration, d, tokens, k) == Some(values[d.parameters[k].name])) &&
    forall name :: name in values ==> exists k :: 0 <= k < n && d.parameters[k].name == name
  }

  method ParseMessage(parseDuration: string -> Option<int>, d: Definition, message: string) returns (r: Option<map<string, Value>>)
    ensures r.Some? <==> Parsable(parseDuration, d, message)
    ensures r.Some? && Distinct(ParameterNames(d.parameters)) ==>
      ValuesOf(parseDuration, d, CommandTokenizer.Tokens(message).value, |d.parameters|, r.value)
  {
    hide ParseValue, CommandTokenizer.Tokens;
    if !RuneText(message, 1, MAX_MESSAGE_RUNES) {
      return None;
    }
    var tokenized := CommandTokenizer.Tokenize(message);
    if tokenized.None? || |tokenized.value| == 0 || tokenized.value[0] != d.name {
      return None;
    }
    var tokens := tokenized.value;
    if |tokens| - 1 > |d.parameters| {
      return None;
    }
    var values: map<string, Value> := map[];
    for k := 0 to |d.parameters|
      invariant forall j :: 0 <= j < k ==> Argument(parseDuration, d, tokens, j).Some?
      invariant Distinct(ParameterNames(d.parameters)) ==> ValuesOf(parseDuration, d, tokens, k, values)
    {
      var p := d.parameters[k];
      var value := ABSENT;
      if k + 1 >= |tokens| {
        if p.required {
          assert Argument(parseDuration, d, tokens, k).None?;
          return None;
        }
      } else {
        var parsed := ParseArgument(parseDuration, p, tokens[k + 1]);
        if parsed.None? {
          assert Argument(parseDuration, d, tokens, k).None?;
          return None;
        }
        value := parsed.value;
      }
      assert Argument(parseDuration, d, tokens, k) == Some(value);
      ghost var before := values;
      values := values[p.name := value];
      if Distinct(ParameterNames(d.parameters)) {
        OneMoreValue(parseDuration, d, tokens, k, before, value);
      }
    }
    r := Some(values);
  }

  lemma OneMoreValue(parseDuration: string -> Option<int>, d: Definition, tokens: seq<string>, k: nat, values: map<string, Value>, v: Value)
    requires k < |d.parameters| && Distinct(ParameterNames(d.parameters))
    requires ValuesOf(parseDuration, d, tokens, k, values) && Argument(parseDuration, d, tokens, k) == Some(v)
    ensures ValuesOf(parseDuration, d, tokens, k + 1, values[d.parameters[k].name := v])
  {
    hide Argument;
    forall j | 0 <= j < k
      ensures d.parameters[j].name != d.parameters[k].name
    {
      assert ParameterNames(d.parameters)[j] != ParameterNames(d.parameters)[k];
    }
  }

  /** Every parsed value is within its parameter's limits, and required arguments are present. */
  lemma ValuesAreWithinLimits(parseDuration: string -> Option<int>, d: Definition, tokens: seq<string>, values: map<string, Value>, k: nat)
    requires ValuesOf(parseDuration, d, tokens, |d.parameters|, values) && k < |d.parameters|
    ensures d.parameters[k].name in values && WithinLimits(d.parameters[k], values[d.parameters[k].name])
    ensures values[d.parameters[k].name].present <==> k + 1 < |tokens|
  {
    assert Argument(parseDuration, d, tokens, k) == Some(values[d.parameters[k].name]);
    if k + 1 < |tokens| {
      ParsedIsWithinLimits(parseDuration, d.parameters[k], tokens[k + 1]);
    }
  }

  // ---------------------------------------------------------------------------------------
  // The plan of a command: every gateway call it would make

  datatype Effect =
    | Replied(group: string, text: string)
    | Mentioned(group: string, member: string)
    | Muted(group: string, member: string, seconds: int)
    | Sent(group: string, text: string)

  datatype Sender = Sender(group: string, qq: string)

  function ValueAt(values: map<string, Value>, name: string): Value {
    if name in values then values[name] else ABSENT
  }

  function PieceValue(p: Piece, sender: Sender, values: map<string, Value>): string {
    match p
    case Rune(c) => [c]
    case Variable(name) =>
      if name == "sender_qq" then sender.qq else if name == "group_id" then sender.group else ValueAt(values, name).raw
  }

  function RenderPieces(pieces: seq<Piece>, sender: Sender, values: map<string, Value>): string {
    if pieces == [] then "" else PieceValue(pieces[0], sender, values) + RenderPieces(pieces[1..], sender, values)
  }

  function RenderTemplate(template: string, sender: Sender, values: map<string, Value>): string {
    RenderPieces(Pieces(template), sender, values)
  }

  lemma {:induction false} RenderConcat(a: seq<Piece>, b: seq<Piece>, sender: Sender, values: map<string, Value>)
    ensures RenderPieces(a + b, sender, values) == RenderPieces(a, sender, values) + RenderPieces(b, sender, values)
  {
    hide PieceValue;
    if a == [] {
      assert a + b == b;
    } else {
      RenderConcat(a[1..], b, sender, values);
      assert (a + b)[1..] == a[1..] + b;
    }
  }

  /** A variable is replaced by the sender, the group, or the argument as it was given; the text
      around it is rendered as if it stood alone. */
  lemma VariableRenders(before: string, name: string, after: string, sender: Sender, values: map<string, Value>)
    requires VariableText(name)
    ensures RenderTemplate(before + ("{{" + name + "}}" + after), sender, values) ==
            RenderTemplate(before, sender, values) +
            (if name == "sender_qq" then sender.qq
             else if name == "group_id" then sender.group
             else if name in values then values[name].raw else "") +
            RenderTemplate(after, sender, values)
  {
    hide Pieces, VariableText, RenderPieces;
    VariableIsFound(before, name, after);
    RenderConcat(Pieces(before) + [Variable(name)], Pieces(after), sender, values);
    RenderConcat(Pieces(before), [Variable(name)], sender, values);
    RenderVariable(name, sender, values);
  }

  lemma RenderVariable(name: string, sender: Sender, values: map<string, Value>)
    ensures RenderPieces([Variable(name)], sender, values) ==
            if name == "sender_qq" then sender.qq
            else if name == "group_id" then sender.group
            else if name in values then values[name].raw else ""
  {
    assert [Variable(name)][1..] == [];
  }

  /** A template without variables renders to itself. */
  lemma PlainTemplateRenders(template: string, sender: Sender, values: map<string, Value>)
    requires forall k :: 0 <= k < |Pieces(template)| ==> Pieces(template)[k].Rune?
    ensures RenderTemplate(template, sender, values) == template
  {
    PlainPiecesRender(Pieces(template), sender, values);
    PiecesSpellTemplate(template);
  }

  lemma {:induction false} PlainPiecesRender(pieces: seq<Piece>, sender: Sender, values: map<string, Value>)
    requires forall k :: 0 <= k < |pieces| ==> pieces[k].Rune?
    ensures RenderPieces(pieces, sender, values) == Spell(pieces)
  {
    if pieces != [] {
      PlainPiecesRender(pieces[1..], sender, values);
    }
  }

  function MuteSeconds(a: Action, values: map<string, Value>): int {
    if a.duration.kind == Given then ValueAt(values, a.duration.parameter).seconds else a.duration.seconds
  }

  function Sends(groups: seq<string>, text: string): (effects: seq<Effect>)
    ensures |effects| == |groups| && forall k :: 0 <= k < |groups| ==> effects[k] == Effect.Sent(groups[k], text)
  {
    seq(|groups|, k requires 0 <= k < |groups| => Effect.Sent(groups[k], text))
  }

  function EffectsOf(a: Action, sender: Sender, values: map<string, Value>): seq<Effect> {
    match a.kind
    case ReplyText => [Replied(sender.group, RenderTemplate(a.template, sender, values))]
    case MentionMember =>
      [Mentioned(sender.group, if a.target == ByParameter then ValueAt(values, a.memberParameter).member else sender.qq)]
    case MuteMember => [Muted(sender.group, ValueAt(values, a.memberParameter).member, MuteSeconds(a, values))]
    case SendGroupText => Sends(a.groups, RenderTemplate(a.template, sender, values))
    case OtherAction => []
  }

  /** The effects of the first `n` actions, in order. */
  function Plan(actions: seq<Action>, n: nat, sender: Sender, values: map<string, Value>): seq<Effect>
    requires n <= |actions|
  {
    if n == 0 then [] else Plan(actions, n - 1, sender, values) + EffectsOf(actions[n - 1], sender, values)
  }

  lemma {:induction false} PlanGrows(actions: seq<Action>, m: nat, n: nat, sender: Sender, values: map<string, Value>)
    requires m <= n <= |actions|
    ensures Plan(actions, m, sender, values) <= Plan(actions, n, sender, values)
    decreases n
  {
    hide EffectsOf;
    if m < n {
      PlanGrows(actions, m, n - 1, sender, values);
    }
  }

  // ---------------------------------------------------------------------------------------
  // Execution

  // How a gateway call failed: whether its outcome is unknown, and whether the gateway was unavailable.
  datatype Failure = Failure(indefinite: bool, unavailable: bool)

  datatype StepResult = StepSuccess | StepFailed | StepUnknown | StepSkipped

  datatype Step = Step(kind: ActionType, result: StepResult, code: string)

  datatype RunResult = Succeeded | Denied | ParseError | Failed | Partial | Unknown

  datatype Run = Run(result: RunResult, steps: seq<Step>, code: string)

  function ClassifyActionError(failure: Failure): (StepResult, string) {
    if failure.indefinite then (StepUnknown, "action_outcome_unknown")
    else if failure.unavailable then (StepFailed, "dependency_unavailable")
    else (StepFailed, "action_failed")
  }

  function SkippedSteps(actions: seq<Action>): (steps: seq<Step>)
    ensures |steps| == |actions| && forall k :: 0 <= k < |actions| ==> steps[k] == Step(actions[k].kind, StepSkipped, "")
  {
    seq(|actions|, k requires 0 <= k < |actions| => Step(actions[k].kind, StepSkipped, ""))
  }

  /** The calls before the first one that the gateway fails, of `n` calls. */
  function Confirmed(answers: nat -> Option<Failure>, n: nat): (m: nat)
    ensures m <= n && (forall k :: 0 <= k < m ==> answers(k).None?) && (m < n ==> answers(m).Some?)
  {
    if n == 0 then 0
    else
      var m := Confirmed(answers, n - 1);
      if m < n - 1 then m else if answers(n - 1).None? then n else n - 1
  }

  /** Of an action's effects, those confirmed when its first call is call number `start`. */
  method ExecuteAction(a: Action, sender: Sender, values: map<string, Value>, answers: nat -> Option<Failure>, start: nat)
    returns (calls: seq<Effect>, completed: nat, failure: Option<Failure>)
    requires a.kind != OtherAction
    ensures var effects := EffectsOf(a, sender, values);
            if failure.Some? then completed < |effects| && calls == effects[..completed + 1]
            else completed == |effects| && calls == effects
    ensures forall k :: start <= k < start + completed ==> answers(k).None?
    ensures failure.Some? ==> answers(start + completed) == failure
  {
    calls := [];
    if a.kind == SendGroupText {
      var message := RenderTemplate(a.template, sender, values);
      completed := 0;
      for k := 0 to |a.groups|
        invariant completed == k && calls == Sends(a.groups, message)[..k]
        invariant forall j :: start <= j < start + k ==> answers(j).None?
      {
        calls := calls + [Effect.Sent(a.groups[k], message)];
        if answers(start + k).Some? {
          return calls, completed, answers(start + k);
        }
        completed := completed + 1;
      }
      failure := None;
      return;
    }
    match a.kind {
      case ReplyText => calls := [Replied(sender.group, RenderTemplate(a.template, sender, values))];
      case MentionMember =>
        var member := sender.qq;
        if a.target == ByParameter {
          member := ValueAt(values, a.memberParameter).member;
        }
        calls := [Mentioned(sender.group, member)];
      case MuteMember =>
        var seconds := a.duration.seconds;
        if a.duration.kind == Given {
          seconds := ValueAt(values, a.duration.parameter).seconds;
        }
        calls := [Muted(sender.group, ValueAt(values, a.memberParameter).member, seconds)];
    }
    failure := answers(start);
    completed := if failure.Some? then 0 else 1;
  }

  /** How a run through the actions ends: `calls` are the gateway calls made, all but the last of
      which, or all, were confirmed. */
  ghost predicate Performed(actions: seq<Action>, sender: Sender, values: map<string, Value>, answers: nat -> Option<Failure>,
                            run: Run, calls: seq<Effect>, n: nat)
    requires n <= |actions|
  {
    var plan := Plan(actions, |actions|, sender, values);
    var confirmed := Confirmed(answers, |plan|);
    // The calls are the plan up to and including the first failure; nothing is tried after it.
    calls == plan[..if confirmed < |plan| then confirmed + 1 else confirmed] &&
    // The first `n` actions are the ones that succeeded as a whole.
    |Plan(actions, n, sender, values)| <= confirmed &&
    (n < |actions| ==> confirmed < |Plan(actions, n + 1, sender, values)|) &&
    // Steps are successes, then at most one failure, then skipped.
    |run.steps| == |actions| && (forall k :: 0 <= k < |actions| ==> run.steps[k].kind == actions[k].kind) &&
    (forall k :: 0 <= k < n ==> run.steps[k].result == StepSuccess) &&
    (n < |actions| ==>
      answers(confirmed).Some? && run.steps[n].code == run.code &&
      run.code == (if answers(confirmed).value.indefinite then "action_outcome_unknown"
                   else if answers(confirmed).value.unavailable then "dependency_unavailable" else "action_failed") &&
      run.steps[n].result == if answers(confirmed).value.indefinite then StepUnknown else StepFailed) &&
    (forall k :: n < k < |actions| ==> run.steps[k].result == StepSkipped) &&
    // The result tells how much of the plan was confirmed.
    (run.result == Succeeded <==> confirmed == |plan|) &&
    (run.result == Partial <==> 0 < confirmed < |plan|) &&
    (run.result == Unknown <==> confirmed == 0 < |plan| && answers(0).Some? && answers(0).value.indefinite) &&
    (run.result == Failed <==> confirmed == 0 < |plan| && answers(0).Some? && !answers(0).value.indefinite)
  }

  lemma ConfirmedIs(answers: nat -> Option<Failure>, n: nat, m: nat)
    requires m <= n && (forall k :: 0 <= k < m ==> answers(k).None?) && (m < n ==> answers(m).Some?)
    ensures Confirmed(answers, n) == m
  {
  }

  lemma PlanNext(actions: seq<Action>, n: nat, sender: Sender, values: map<string, Value>)
    requires n < |actions|
    ensures Plan(actions, n + 1, sender, values) == Plan(actions, n, sender, values) + EffectsOf(actions[n], sender, values)
    ensures Plan(actions, n + 1, sender, values) <= Plan(actions, |actions|, sender, values)
  {
    PlanGrows(actions, n + 1, |actions|, sender, values);
  }

  predicate EachHasEffects(actions: seq<Action>) {
    forall k :: 0 <= k < |actions| ==>
      actions[k].kind != OtherAction && (actions[k].kind == SendGroupText ==> actions[k].groups != [])
  }

  /** The actions of a valid definition all have effects. */
  lemma ValidActionsHaveEffects(d: Definition)
    requires ValidDefinition(d)
    ensures EachHasEffects(d.actions) && d.actions != []
  {
    forall k | 0 <= k < |d.actions|
      ensures d.actions[k].kind != OtherAction && (d.actions[k].kind == SendGroupText ==> d.actions[k].groups != [])
    {
      assert ValidAction(d.actions[k], d.permission, TypeMap(d.parameters));
    }
  }

  method RunActions(actions: seq<Action>, sender: Sender, values: map<string, Value>, answers: nat -> Option<Failure>)
    returns (run: Run, calls: seq<Effect>, n: nat)
    requires actions != [] && EachHasEffects(actions)
    ensures n <= |actions| && Performed(actions, sender, values, answers, run, calls, n)
  {
    hide EffectsOf, Plan, Performed, Confirmed;
    var steps := SkippedSteps(actions);
    calls := [];
    var successfulEffects := 0;
    NoPlan(actions, sender, values);
    for i := 0 to |actions|
      invariant calls == Plan(actions, i, sender, values) && successfulEffects == |calls|
      invariant forall k :: 0 <= k < successfulEffects ==> answers(k).None?
      invariant StepsBefore(actions, steps, i)
      invariant i > 0 ==> successfulEffects > 0
    {
      var effects, completed, failure := ExecuteAction(actions[i], sender, values, answers, successfulEffects);
      PlanNext(actions, i, sender, values);
      ghost var made := successfulEffects;
      var before := calls;
      calls := calls + effects;
      successfulEffects := successfulEffects + completed;
      if failure.None? {
        HasEffects(actions[i], sender, values);
        steps := steps[i := steps[i].(result := StepSuccess)];
      } else {
        var (stepResult, code) := ClassifyActionError(failure.value);
        steps := steps[i := steps[i].(result := stepResult, code := code)];
        var result := if successfulEffects > 0 then Partial else if stepResult == StepUnknown then Unknown else Failed;
        run, n := Run(result, steps, code), i;
        FailedRun(actions, sender, values, answers, run, before, completed, i);
        return;
      }
    }
    run, n := Run(Succeeded, steps, ""), |actions|;
    WholeRun(actions, sender, values, answers, run);
  }

  lemma NoPlan(actions: seq<Action>, sender: Sender, values: map<string, Value>)
    ensures Plan(actions, 0, sender, values) == []
  {
  }

  lemma HasEffects(a: Action, sender: Sender, values: map<string, Value>)
    requires a.kind != OtherAction && (a.kind == SendGroupText ==> a.groups != [])
    ensures EffectsOf(a, sender, values) != []
  {
  }

  /** Before action `i` all steps have succeeded; from it on all are still skipped. */
  ghost predicate StepsBefore(actions: seq<Action>, steps: seq<Step>, i: nat) {
    |steps| == |actions| && forall k :: 0 <= k < |actions| ==>
      steps[k] == Step(actions[k].kind, if k < i then StepSuccess else StepSkipped, "")
  }

  lemma WholeRun(actions: seq<Action>, sender: Sender, values: map<string, Value>, answers: nat -> Option<Failure>, run: Run)
    requires run.result == Succeeded && StepsBefore(actions, run.steps, |actions|)
    requires var plan := Plan(actions, |actions|, sender, values);
             plan != [] && forall k :: 0 <= k < |plan| ==> answers(k).None?
    ensures Performed(actions, sender, values, answers, run, Plan(actions, |actions|, sender, values), |actions|)
  {
    var plan := Plan(actions, |actions|, sender, values);
    ConfirmedIs(answers, |plan|, |plan|);
  }

  lemma FailedRun(actions: seq<Action>, sender: Sender, values: map<string, Value>, answers: nat -> Option<Failure>,
                  run: Run, before: seq<Effect>, completed: nat, i: nat)
    requires i < |actions| && before == Plan(actions, i, sender, values)
    requires completed < |EffectsOf(actions[i], sender, values)|
    requires forall k :: 0 <= k < |before| + completed ==> answers(k).None?
    requires answers(|before| + completed).Some?
    requires var (stepResult, code) := ClassifyActionError(answers(|before| + completed).value);
             run.code == code && |run.steps| == |actions| &&
             run.steps[i] == Step(actions[i].kind, stepResult, code) &&
             StepsBefore(actions, run.steps[i := Step(actions[i].kind, StepSkipped, "")], i) &&
             run.result == (if |before| + completed > 0 then Partial else if stepResult == StepUnknown then Unknown else Failed)
    ensures Performed(actions, sender, values, answers, run,
                      before + EffectsOf(actions[i], sender, values)[..completed + 1], i)
  {
    hide EffectsOf, Plan;
    var plan := Plan(actions, |actions|, sender, values);
    PlanNext(actions, i, sender, values);
    ConfirmedIs(answers, |plan|, |before| + completed);
    var steps := run.steps[i := Step(actions[i].kind, StepSkipped, "")];
    assert forall k :: 0 <= k < |actions| && k != i ==> run.steps[k] == steps[k];
    var whole := before + EffectsOf(actions[i], sender, values);
    assert before + EffectsOf(actions[i], sender, values)[..completed + 1] == whole[..|before| + completed + 1];
    assert plan[..|whole|] == whole;
    assert plan[..|before| + completed + 1] == whole[..|before| + completed + 1];
  }

  // ---------------------------------------------------------------------------------------
  // The whole of one execution

  datatype SenderRole = OwnerRole | AdminRole | MemberRole | OtherRole

  predicate TriggerAllowed(permission: TriggerPermission, role: SenderRole, allowlisted: bool) {
    match permission
    case Everyone => true
    case GroupAdmin => role == OwnerRole || role == AdminRole
    case MaintenanceAllowlist => allowlisted
    case OtherPermission => false
  }

  ghost predicate MembersAllowed(parameters: seq<Parameter>, values: map<string, Value>, qq: string) {
    forall k :: 0 <= k < |parameters| ==> MemberAllowed(parameters[k], ValueAt(values, parameters[k].name), qq)
  }

  // The sender may be named as a member only where the parameter allows it.
  predicate MemberAllowed(p: Parameter, v: Value, qq: string) {
    p.kind == MemberParameter && v.present && v.member == qq ==> p.allowTriggerer
  }

  method MemberArgumentsAllowed(parameters: seq<Parameter>, values: map<string, Value>, qq: string) returns (allowed: bool)
    ensures allowed <==> MembersAllowed(parameters, values, qq)
  {
    for k := 0 to |parameters|
      invariant forall j :: 0 <= j < k ==> MemberAllowed(parameters[j], ValueAt(values, parameters[j].name), qq)
    {
      var p := parameters[k];
      var value := ValueAt(values, p.name);
      if p.kind == MemberParameter && value.present && value.member == qq && !p.allowTriggerer {
        return false;
      }
    }
    allowed := true;
  }

  /** Nothing was sent and every step is skipped. */
  predicate NothingDone(actions: seq<Action>, run: Run, calls: seq<Effect>) {
    calls == [] && run.steps == SkippedSteps(actions)
  }

  predicate ValidContext(sender: Sender, role: SenderRole) {
    Identifier(sender.group) && ValidQQ(sender.qq) && role != OtherRole
  }

  /** Executes a command that the registry matched.  It is carried out, as `Performed` says, exactly
      when the context is valid, the trigger allowed, the arguments parse and may be used by the
      sender, and the gateway is there; `values` are the arguments where it came to parsing them. */
  method Execute(parseDuration: string -> Option<int>, d: Definition, sender: Sender, role: SenderRole, allowlisted: bool,
                 message: string, available: bool, answers: nat -> Option<Failure>)
    returns (run: Run, calls: seq<Effect>, values: map<string, Value>, n: nat)
    requires ValidDefinition(d)
    ensures var triggered := ValidContext(sender, role) &&
              (d.permission == Everyone || (d.permission == GroupAdmin && (role == OwnerRole || role == AdminRole)) ||
               (d.permission == MaintenanceAllowlist && allowlisted));
            var parsed := triggered && Parsable(parseDuration, d, message) && MembersAllowed(d.parameters, values, sender.qq);
            (if parsed && available
             then n <= |d.actions| && Performed(d.actions, sender, values, answers, run, calls, n)
             else NothingDone(d.actions, run, calls) &&
                  run.result == (if parsed then Failed else if ValidContext(sender, role) && !triggered then Denied else ParseError) &&
                  run.code == (if parsed then "dependency_unavailable"
                               else if !ValidContext(sender, role) then "invalid_trigger_context"
                               else if !triggered then "trigger_forbidden" else "argument_parse_failed")) &&
            (triggered && Parsable(parseDuration, d, message) ==>
              ValuesOf(parseDuration, d, CommandTokenizer.Tokens(message).value, |d.parameters|, values))
  {
    hide ValidActions, ValidScope, Parsable, ValuesOf, Performed, MembersAllowed, ValidParameters, CommandName;
    values, n := map[], 0;
    var steps := SkippedSteps(d.actions);
    calls := [];
    if !Identifier(sender.group) || !ValidQQ(sender.qq) || role == OtherRole {
      run := Run(ParseError, steps, "invalid_trigger_context");
      return;
    }
    if !TriggerAllowed(d.permission, role, allowlisted) {
      run := Run(Denied, steps, "trigger_forbidden");
      return;
    }
    var parsed := ParseMessage(parseDuration, d, message);
    if parsed.None? {
      run := Run(ParseError, steps, "argument_parse_failed");
      return;
    }
    values := parsed.value;
    NamesAreDistinct(d);
    var allowed := MemberArgumentsAllowed(d.parameters, parsed.value, sender.qq);
    if !allowed {
      run := Run(ParseError, steps, "argument_parse_failed");
      return;
    }
    if !available {
      run := Run(Failed, steps, "dependency_unavailable");
      return;
    }
    ValidActionsHaveEffects(d);
    run, calls, n := RunActions(d.actions, sender, parsed.value, answers);
  }

  lemma NamesAreDistinct(d: Definition)
    requires ValidDefinition(d)
    ensures Distinct(ParameterNames(d.parameters))
  {
  }

  // ---------------------------------------------------------------------------------------
  // What a validated command can do

  predicate StaysInGroup(e: Effect, group: string) {
    (e.Replied? || e.Mentioned?) && e.group == group
  }

  /** A command for everyone only replies and mentions, in the group where it was triggered. */
  lemma {:induction false} EveryoneStaysInGroup(d: Definition, n: nat, sender: Sender, values: map<string, Value>)
    requires ValidDefinition(d) && d.permission == Everyone && n <= |d.actions|
    ensures forall k :: 0 <= k < |Plan(d.actions, n, sender, values)| ==>
              StaysInGroup(Plan(d.actions, n, sender, values)[k], sender.group)
  {
    hide ValidDefinition, RenderTemplate;
    if n > 0 {
      EveryoneStaysInGroup(d, n - 1, sender, values);
      EveryoneIsUnprivileged(d, n - 1);
    }
  }

  /** A valid command that mutes or sends to other groups is only triggered by an owner or an
      administrator of the group, or by an allowlisted maintainer. */
  lemma PrivilegeNeedsTrust(d: Definition, k: nat, role: SenderRole, allowlisted: bool)
    requires ValidDefinition(d) && k < |d.actions| && Privileged(d.actions[k]) && TriggerAllowed(d.permission, role, allowlisted)
    ensures role == OwnerRole || role == AdminRole || allowlisted
  {
    assert ValidAction(d.actions[k], d.permission, TypeMap(d.parameters));
  }

  /** A mute lasts between a second and thirty days exactly when its duration is fixed or its
      duration argument was given: an optional duration left out mutes for no time at all. */
  lemma MuteIsBoundedIff(parseDuration: string -> Option<int>, d: Definition, tokens: seq<string>, values: map<string, Value>, k: nat)
    requires ValidDefinition(d) && ValuesOf(parseDuration, d, tokens, |d.parameters|, values)
    requires k < |d.actions| && d.actions[k].kind == MuteMember
    ensures var a := d.actions[k];
            1 <= MuteSeconds(a, values) <= MAX_MUTE_SECONDS <==>
            a.duration.kind == Fixed || ValueAt(values, a.duration.parameter).present
  {
    hide ValuesOf, WithinLimits, ValidScope;
    var a := d.actions[k];
    assert ValidAction(a, d.permission, TypeMap(d.parameters));
    if a.duration.kind == Given {
      TypeLookup(d.parameters, a.duration.parameter, DurationParameter);
      var i :| 0 <= i < |d.parameters| && d.parameters[i].name == a.duration.parameter && d.parameters[i].kind == DurationParameter;
      ValuesAreWithinLimits(parseDuration, d, tokens, values, i);
      DurationLimits(d.parameters[i], values[a.duration.parameter]);
    }
  }

  /** A mute or a mention by parameter names a member exactly when that argument was given: an
      optional member left out makes it name nobody. */
  lemma MemberIsNamedIff(parseDuration: string -> Option<int>, d: Definition, tokens: seq<string>, values: map<string, Value>, k: nat)
    requires ValidDefinition(d) && ValuesOf(parseDuration, d, tokens, |d.parameters|, values)
    requires k < |d.actions| &&
             (d.actions[k].kind == MuteMember || (d.actions[k].kind == MentionMember && d.actions[k].target == ByParameter))
    ensures var v := ValueAt(values, d.actions[k].memberParameter);
            (ValidQQ(v.member) <==> v.present) && (!v.present ==> v.member == "")
  {
    hide ValuesOf, WithinLimits, ValidScope, ValidQQ;
    var a := d.actions[k];
    assert ValidAction(a, d.permission, TypeMap(d.parameters));
    TypeLookup(d.parameters, a.memberParameter, MemberParameter);
    var i :| 0 <= i < |d.parameters| && d.parameters[i].name == a.memberParameter && d.parameters[i].kind == MemberParameter;
    ValuesAreWithinLimits(parseDuration, d, tokens, values, i);
    MemberLimits(d.parameters[i], values[a.memberParameter]);
  }

  /** Every variable in a template of a valid command stands for something: the sender, the group, or
      a parameter, whose argument was read. */
  lemma VariablesHaveValues(parseDuration: string -> Option<int>, d: Definition, tokens: seq<string>, values: map<string, Value>,
                            k: nat, before: string, name: string, after: string)
    requires ValidDefinition(d) && ValuesOf(parseDuration, d, tokens, |d.parameters|, values) && k < |d.actions|
    requires d.actions[k].template == before + ("{{" + name + "}}" + after) && VariableText(name)
    ensures name == "sender_qq" || name == "group_id" || name in values
  {
    hide ValidScope, VariableText, Pieces, HoldsBraces, Argument, ValidParameters, CommandName;
    var a := d.actions[k];
    assert ValidAction(a, d.permission, TypeMap(d.parameters));
    VariableIsFound(before, name, after);
    var pieces := Pieces(a.template);
    assert pieces[|Pieces(before)|] == Variable(name);
    assert a.template != "";
    assert AllowedVariable(name, TypeMap(d.parameters).Keys);
    TypeMapNames(d.parameters, name);
    if name in TypeMap(d.parameters) {
      var j :| 0 <= j < |d.parameters| && ParameterNames(d.parameters)[j] == name;
      assert d.parameters[j].name in values;
    }
  }

  lemma MemberLimits(p: Parameter, v: Value)
    requires p.kind == MemberParameter && WithinLimits(p, v)
    ensures (ValidQQ(v.member) <==> v.present) && (!v.present ==> v.member == "")
  {
  }

  lemma DurationLimits(p: Parameter, v: Value)
    requires ValidParameter(p) && p.kind == DurationParameter && WithinLimits(p, v)
    ensures v.present ==> 1 <= v.seconds <= MAX_MUTE_SECONDS
    ensures !v.present ==> v.seconds == 0
  {
  }

  const WHO_PARAMETER :=
    Parameter("who", "who", MemberParameter, true, 0, 0, 0, 0, 0, 0, false, [])
  const TIME_PARAMETER :=
    Parameter("time", "time", DurationParameter, false, 0, 0, 0, 0, 60, 3600, false, [])
  const MUTE_ACTION :=
    Action(MuteMember, "", NoMention, "who", DurationSource(Given, 0, "time"), [])
  const MUTE_DEFINITION :=
    Definition("/m", "mute", "", Global([]), GroupAdmin, [WHO_PARAMETER, TIME_PARAMETER], [MUTE_ACTION])

  /** The command `/m @7` with an optional duration: valid, and it mutes for zero seconds. */
  lemma MuteForNoTimeExample(parseDuration: string -> Option<int>)
    ensures ValidDefinition(MUTE_DEFINITION)
    ensures exists values ::
              ValuesOf(parseDuration, MUTE_DEFINITION, ["/m", "@7"], 2, values) && MuteSeconds(MUTE_ACTION, values) == 0
  {
    MuteDefinitionIsValid();
    var seven := Value("7", "7", 0, 0, "7", true);
    var tokens := ["/m", "@7"];
    SevenIsParsed(parseDuration);
    assert Argument(parseDuration, MUTE_DEFINITION, tokens, 1) == Some(ABSENT);
    OneMoreValue(parseDuration, MUTE_DEFINITION, tokens, 0, map[], seven);
    OneMoreValue(parseDuration, MUTE_DEFINITION, tokens, 1, map["who" := seven], ABSENT);
    assert MuteSeconds(MUTE_ACTION, map["who" := seven]["time" := ABSENT]) == 0;
  }

  const ANYBODY_PARAMETER := WHO_PARAMETER.(required := false)
  const MENTION_ACTION :=
    Action(MentionMember, "", ByParameter, "who", DurationSource(NoDuration, 0, ""), [])
  const MENTION_DEFINITION :=
    Definition("/m", "mention", "", Global([]), Everyone, [ANYBODY_PARAMETER], [MENTION_ACTION])

  /** The command `/m` with an optional member: valid, and it mentions the empty member. */
  lemma MentionNobodyExample(parseDuration: string -> Option<int>, sender: Sender)
    ensures ValidDefinition(MENTION_DEFINITION)
    ensures exists values ::
              ValuesOf(parseDuration, MENTION_DEFINITION, ["/m"], 1, values) &&
              EffectsOf(MENTION_ACTION, sender, values) == [Mentioned(sender.group, "")]
  {
    MentionDefinitionIsValid();
    var tokens := ["/m"];
    assert Argument(parseDuration, MENTION_DEFINITION, tokens, 0) == Some(ABSENT);
    OneMoreValue(parseDuration, MENTION_DEFINITION, tokens, 0, map[], ABSENT);
    assert EffectsOf(MENTION_ACTION, sender, map["who" := ABSENT]) == [Mentioned(sender.group, "")];
  }

  lemma MentionDefinitionIsValid()
    ensures ValidDefinition(MENTION_DEFINITION)
  {
    var parameters, actions := MENTION_DEFINITION.parameters, MENTION_DEFINITION.actions;
    assert ValidParameter(ANYBODY_PARAMETER);
    assert ParameterNames(parameters)[0] == "who";
    TypeOfName(parameters, 0);
    assert ValidAction(MENTION_ACTION, Everyone, TypeMap(parameters));
    assert actions[..0] == [] && TotalTargets(actions) == 0 && TotalTemplateRunes(actions) == 0;
  }

  lemma SevenIsParsed(parseDuration: string -> Option<int>)
    ensures ParseValue(parseDuration, WHO_PARAMETER, "@7") == Some(Value("7", "7", 0, 0, "7", true))
  {
    assert "@7"[1..] == "7";
    assert "7"[0] != '0' && AllDigits("7");
    assert ValidQQ("7");
  }

  lemma MuteDefinitionIsValid()
    ensures ValidDefinition(MUTE_DEFINITION)
  {
    var parameters, actions := MUTE_DEFINITION.parameters, MUTE_DEFINITION.actions;
    assert ValidParameter(WHO_PARAMETER) && ValidParameter(TIME_PARAMETER);
    assert ParameterNames(parameters)[0] == "who" && ParameterNames(parameters)[1] == "time";
    TypeOfName(parameters, 0);
    TypeOfName(parameters, 1);
    assert ValidAction(MUTE_ACTION, GroupAdmin, TypeMap(parameters));
    assert actions[..0] == [] && TotalTargets(actions) == 0 && TotalTemplateRunes(actions) == 0;
  }
}
