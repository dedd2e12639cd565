/** Definitions of custom commands and their validation: a validator that collects issues, against
    a declarative reading of what a valid definition is. */
module CommandDefinition {
  import opened Wrappers
  import opened Text

  const MAX_PARAMETERS := 10
  const MAX_ACTIONS := 10
  const MAX_SCOPE_GROUPS := 100
  const MAX_ACTION_TARGETS := 10
  const MAX_TOTAL_ACTION_TARGETS := 20
  const MAX_TOTAL_TEMPLATE_RUNES := 10000
  const MAX_MESSAGE_RUNES := 2000
  const MAX_MUTE_SECONDS := 2592000

  datatype Scope = Global(ids: seq<string>) | Groups(ids: seq<string>) | OtherScope(ids: seq<string>)

  datatype TriggerPermission = Everyone | GroupAdmin | MaintenanceAllowlist | OtherPermission

  datatype ParameterType = TextParameter | IntegerParameter | DurationParameter | MemberParameter | OptionParameter | OtherParameter

  datatype FixedOption = FixedOption(value: string, caption: string)

  datatype Parameter = Parameter(
    name: string, displayName: string, kind: ParameterType, required: bool,
    minLength: int, maxLength: int, minimum: int, maximum: int, minimumSeconds: int, maximumSeconds: int,
    allowTriggerer: bool, options: seq<FixedOption>)

  datatype Mention = NoMention | Triggerer | ByParameter | OtherMention

  datatype DurationKind = NoDuration | Fixed | Given | OtherDuration

  datatype DurationSource = DurationSource(kind: DurationKind, seconds: int, parameter: string)

  datatype ActionType = ReplyText | MentionMember | MuteMember | SendGroupText | OtherAction

  datatype Action = Action(
    kind: ActionType, template: string, target: Mention, memberParameter: string, duration: DurationSource, groups: seq<string>)

  datatype Definition = Definition(
    name: string, displayName: string, description: string, scope: Scope, permission: TriggerPermission,
    parameters: seq<Parameter>, actions: seq<Action>)

  datatype Issue = Issue(path: string, code: string)

  // ---------------------------------------------------------------------------------------
  // Names and texts

  predicate LowerLetter(c: char) {
    'a' <= c <= 'z'
  }

  predicate NameRune(c: char) {
    LowerLetter(c) || IsDigit(c) || c == '_' || c == '-'
  }

  // ^/[a-z](?:[a-z0-9_-]{0,31})$
  predicate CommandName(s: string) {
    2 <= |s| <= 33 && s[0] == '/' && LowerLetter(s[1]) && forall k :: 2 <= k < |s| ==> NameRune(s[k])
  }

  // ^[a-z][a-z0-9_]{0,31}$
  predicate ParameterName(s: string) {
    1 <= |s| <= 32 && LowerLetter(s[0]) && forall k :: 1 <= k < |s| ==> NameRune(s[k]) && s[k] != '-'
  }

  // ^[a-z0-9][a-z0-9_-]{0,31}$
  predicate OptionValue(s: string) {
    1 <= |s| <= 32 && (LowerLetter(s[0]) || IsDigit(s[0])) && forall k :: 1 <= k < |s| ==> NameRune(s[k])
  }

  predicate RuneText(s: string, minimum: nat, maximum: nat) {
    minimum <= |s| <= maximum
  }

  predicate Identifier(s: string) {
    RuneText(s, 1, 256)
  }

  predicate HoldsBraces(s: string) {
    Contains(s, "{{") || Contains(s, "}}")
  }

  predicate FixedGroupID(s: string) {
    Identifier(s) && !HoldsBraces(s)
  }

  predicate Distinct(names: seq<string>) {
    forall i, j :: 0 <= i < j < |names| ==> names[i] != names[j]
  }

  // ---------------------------------------------------------------------------------------
  // Templates

  datatype Piece = Rune(c: char) | Variable(name: string)

  function VariableName(s: string): (name: string)
    ensures name <= s
  {
    if s != "" && (LowerLetter(s[0]) || IsDigit(s[0]) || s[0] == '_') then [s[0]] + VariableName(s[1..]) else ""
  }

  /** The variable `{{name}}` that the text starts with. */
  function LeadingVariable(s: string): (name: Option<string>)
    ensures name.Some? ==> |name.value| > 0 && |name.value| + 4 <= |s|
    ensures name.Some? ==> "{{" <= s && name.value <= s[2..] && "}}" <= s[2 + |name.value|..]
  {
    if "{{" <= s && |s| > 2 && LowerLetter(s[2]) then
      var name := VariableName(s[2..]);
      if "}}" <= s[2 + |name|..] then Some(name) else None
    else None
  }

  function Pieces(s: string): seq<Piece>
    decreases |s|
  {
    if s == "" then []
    else
      match LeadingVariable(s)
      case Some(name) => [Variable(name)] + Pieces(s[|name| + 4..])
      case None => [Rune(s[0])] + Pieces(s[1..])
  }

  function PieceText(p: Piece): string {
    match p
    case Rune(c) => [c]
    case Variable(name) => "{{" + name + "}}"
  }

  function Spell(pieces: seq<Piece>): string {
    if pieces == [] then "" else PieceText(pieces[0]) + Spell(pieces[1..])
  }

  lemma VariableSplits(s: string)
    requires LeadingVariable(s).Some?
    ensures var name := LeadingVariable(s).value; s == PieceText(Variable(name)) + s[|name| + 4..]
  {
    hide VariableName;
    var name := LeadingVariable(s).value;
    var n := |name|;
    assert s[..2] == "{{" && s[2..2 + n] == name && s[2 + n..4 + n] == "}}";
    assert s == s[..2] + s[2..2 + n] + s[2 + n..4 + n] + s[n + 4..];
  }

  lemma UnfoldPieces(s: string)
    requires s != ""
    ensures LeadingVariable(s).Some? ==>
      Pieces(s) == [Variable(LeadingVariable(s).value)] + Pieces(s[|LeadingVariable(s).value| + 4..])
    ensures LeadingVariable(s).None? ==> Pieces(s) == [Rune(s[0])] + Pieces(s[1..])
  {
  }

  lemma SpellNext(p: Piece, pieces: seq<Piece>)
    ensures Spell([p] + pieces) == PieceText(p) + Spell(pieces)
  {
    assert ([p] + pieces)[1..] == pieces;
  }

  /** The pieces are a partition of the template. */
  lemma {:induction false} PiecesSpellTemplate(s: string)
    ensures Spell(Pieces(s)) == s
    decreases |s|
  {
    if s != "" {
      hide Pieces, Spell, LeadingVariable;
      UnfoldPieces(s);
      if LeadingVariable(s).Some? {
        VariableSplits(s);
        var name := LeadingVariable(s).value;
        PiecesSpellTemplate(s[|name| + 4..]);
        SpellNext(Variable(name), Pieces(s[|name| + 4..]));
      } else {
        PiecesSpellTemplate(s[1..]);
        SpellNext(Rune(s[0]), Pieces(s[1..]));
      }
    }
  }

  // [a-z][a-z0-9_]*
  predicate VariableText(name: string) {
    name != "" && LowerLetter(name[0]) && forall k :: 0 <= k < |name| ==> LowerLetter(name[k]) || IsDigit(name[k]) || name[k] == '_'
  }

  lemma {:induction false} NameStops(name: string, rest: string)
    requires rest == "" || rest[0] == '{' || rest[0] == '}'
    ensures VariableName(name + rest) == VariableName(name)
  {
    if name == "" {
      assert name + rest == rest;
    } else {
      assert (name + rest)[1..] == name[1..] + rest;
      NameStops(name[1..], rest);
    }
  }

  lemma {:induction false} WholeName(name: string)
    requires forall k :: 0 <= k < |name| ==> LowerLetter(name[k]) || IsDigit(name[k]) || name[k] == '_'
    ensures VariableName(name) == name
  {
    if name != "" {
      WholeName(name[1..]);
    }
  }

  // What a text starts with does not depend on a brace that opens behind it.
  lemma LeadingStays(s: string, rest: string)
    requires s != "" && "{{" <= rest
    ensures LeadingVariable(s + rest) == LeadingVariable(s)
  {
    hide VariableName;
    var whole := s + rest;
    if "{{" <= whole && |whole| > 2 && LowerLetter(whole[2]) {
      assert |s| > 2;
      assert whole[2..] == s[2..] + rest;
      NameStops(s[2..], rest);
      var n := |VariableName(s[2..])|;
      var tail := s[2 + n..];
      assert whole[2 + n..] == tail + rest;
      assert rest[0] == '{' && rest[1] == '{';
      assert |tail| >= 2 ==> (tail + rest)[..2] == tail[..2];
      assert |tail| < 2 ==> (tail + rest)[|tail|] == '{';
      assert "}}" <= tail + rest <==> "}}" <= tail;
      assert s[..2] == whole[..2];
    }
  }

  lemma VariableLeads(name: string, rest: string)
    requires VariableText(name)
    ensures LeadingVariable("{{" + name + "}}" + rest) == Some(name)
    ensures ("{{" + name + "}}" + rest)[|name| + 4..] == rest
  {
    hide VariableName;
    var s := "{{" + name + "}}" + rest;
    assert s[2..] == name + ("}}" + rest);
    NameStops(name, "}}" + rest);
    WholeName(name);
    assert s[2 + |name|..] == "}}" + rest;
  }

  /** Every `{{name}}` in a template is found, whatever is around it. */
  lemma {:induction false} VariableIsFound(before: string, name: string, after: string)
    requires VariableText(name)
    ensures Pieces(before + ("{{" + name + "}}" + after)) == Pieces(before) + [Variable(name)] + Pieces(after)
    decreases |before|
  {
    hide Pieces, LeadingVariable, VariableText;
    var rest := "{{" + name + "}}" + after;
    if before == "" {
      assert before + rest == rest;
      VariableLeads(name, after);
      UnfoldPieces(rest);
      NoPieces();
      assert [] + [Variable(name)] + Pieces(after) == [Variable(name)] + Pieces(after);
    } else {
      var s := before + rest;
      assert "{{" <= rest;
      LeadingStays(before, rest);
      UnfoldPieces(before);
      UnfoldPieces(s);
      var n := if LeadingVariable(before).Some? then |LeadingVariable(before).value| + 4 else 1;
      LeadingFits(before);
      assert s[n..] == before[n..] + rest;
      VariableIsFound(before[n..], name, after);
    }
  }

  lemma NoPieces()
    ensures Pieces("") == []
  {
  }

  lemma LeadingFits(s: string)
    ensures LeadingVariable(s).Some? ==> |LeadingVariable(s).value| + 4 <= |s|
  {
  }

  /** The text between the variables, joined. */
  function Remainder(pieces: seq<Piece>): string {
    if pieces == [] then "" else (if pieces[0].Rune? then [pieces[0].c] else "") + Remainder(pieces[1..])
  }

  predicate AllowedVariable(name: string, names: set<string>) {
    name == "sender_qq" || name == "group_id" || name in names
  }

  predicate ValidTemplate(template: string, names: set<string>) {
    var pieces := Pieces(template);
    (forall k :: 0 <= k < |pieces| && pieces[k].Variable? ==> AllowedVariable(pieces[k].name, names)) &&
    !HoldsBraces(Remainder(pieces))
  }

  // ---------------------------------------------------------------------------------------
  // What a valid definition is

  predicate ValidScope(scope: Scope) {
    |scope.ids| <= MAX_SCOPE_GROUPS && (scope.Global? ==> scope.ids == []) && (scope.Groups? ==> scope.ids != []) &&
    !scope.OtherScope? && (forall k :: 0 <= k < |scope.ids| ==> Identifier(scope.ids[k])) && Distinct(scope.ids)
  }

  function OptionValues(options: seq<FixedOption>): (values: seq<string>)
    ensures |values| == |options| && forall k :: 0 <= k < |options| ==> values[k] == options[k].value
  {
    seq(|options|, k requires 0 <= k < |options| => options[k].value)
  }

  predicate ValidOptions(options: seq<FixedOption>) {
    (forall k :: 0 <= k < |options| ==> OptionValue(options[k].value) && RuneText(options[k].caption, 1, 100)) &&
    Distinct(OptionValues(options))
  }

  /** Each type of parameter has its own limits, and none of the others'. */
  predicate ValidLimits(p: Parameter) {
    (p.kind == TextParameter || (p.minLength == 0 && p.maxLength == 0)) &&
    (p.kind == IntegerParameter || (p.minimum == 0 && p.maximum == 0)) &&
    (p.kind == DurationParameter || (p.minimumSeconds == 0 && p.maximumSeconds == 0)) &&
    (p.kind == MemberParameter || !p.allowTriggerer) &&
    (p.kind == OptionParameter || p.options == []) &&
    match p.kind
    case TextParameter => 0 <= p.minLength <= p.maxLength && 1 <= p.maxLength <= 500
    case IntegerParameter => -1000000000 <= p.minimum <= p.maximum <= 1000000000
    case DurationParameter => 1 <= p.minimumSeconds <= p.maximumSeconds <= MAX_MUTE_SECONDS
    case MemberParameter => true
    case OptionParameter => 1 <= |p.options| <= 30 && ValidOptions(p.options)
    case OtherParameter => false
  }

  predicate ValidParameter(p: Parameter) {
    ParameterName(p.name) && RuneText(p.displayName, 1, 64) && ValidLimits(p)
  }

  function ParameterNames(parameters: seq<Parameter>): (names: seq<string>)
    ensures |names| == |parameters| && forall k :: 0 <= k < |parameters| ==> names[k] == parameters[k].name
  {
    seq(|parameters|, k requires 0 <= k < |parameters| => parameters[k].name)
  }

  predicate HasParameter(parameters: seq<Parameter>, name: string, kind: ParameterType) {
    exists k :: 0 <= k < |parameters| && parameters[k].name == name && parameters[k].kind == kind
  }

  predicate ValidParameters(parameters: seq<Parameter>) {
    |parameters| <= MAX_PARAMETERS && Distinct(ParameterNames(parameters)) &&
    (forall k :: 0 <= k < |parameters| ==> ValidParameter(parameters[k])) &&
    forall i, j :: 0 <= i < j < |parameters| && parameters[j].required ==> parameters[i].required
  }

  /** The types by name, where the first parameter with a name counts. */
  function TypeMap(parameters: seq<Parameter>): map<string, ParameterType> {
    if parameters == [] then map[]
    else
      var types, p := TypeMap(parameters[..|parameters| - 1]), parameters[|parameters| - 1];
      if p.name in types then types else types[p.name := p.kind]
  }

  // The type of a name in a Go map, which is no type for a missing name.
  predicate TypeIs(types: map<string, ParameterType>, name: string, kind: ParameterType) {
    name in types && types[name] == kind
  }

  predicate ValidDuration(duration: DurationSource, types: map<string, ParameterType>) {
    match duration.kind
    case Fixed => 1 <= duration.seconds <= MAX_MUTE_SECONDS && duration.parameter == ""
    case Given => duration.seconds == 0 && TypeIs(types, duration.parameter, DurationParameter)
    case _ => false
  }

  predicate ValidTargets(groups: seq<string>) {
    1 <= |groups| <= MAX_ACTION_TARGETS && (forall k :: 0 <= k < |groups| ==> FixedGroupID(groups[k])) && Distinct(groups)
  }

  predicate Privileged(a: Action) {
    a.kind == MuteMember || a.kind == SendGroupText
  }

  /** Each kind of action uses its own fields and no others. */
  predicate ValidAction(a: Action, permission: TriggerPermission, types: map<string, ParameterType>) {
    (Privileged(a) ==> permission != Everyone) &&
    match a.kind
    case ReplyText =>
      RuneText(a.template, 1, 2000) && ValidTemplate(a.template, types.Keys) &&
      a.target == NoMention && a.memberParameter == "" && a.duration.kind == NoDuration && a.groups == []
    case MentionMember =>
      a.template == "" && a.duration.kind == NoDuration && a.groups == [] &&
      ((a.target == Triggerer && a.memberParameter == "") ||
       (a.target == ByParameter && TypeIs(types, a.memberParameter, MemberParameter)))
    case MuteMember =>
      a.template == "" && a.target == NoMention && a.groups == [] &&
      TypeIs(types, a.memberParameter, MemberParameter) && ValidDuration(a.duration, types)
    case SendGroupText =>
      RuneText(a.template, 1, 2000) && ValidTemplate(a.template, types.Keys) &&
      a.target == NoMention && a.memberParameter == "" && a.duration.kind == NoDuration && ValidTargets(a.groups)
    case OtherAction => false
  }

  function TotalTargets(actions: seq<Action>): nat {
    if actions == [] then 0 else TotalTargets(actions[..|actions| - 1]) + |actions[|actions| - 1].groups|
  }

  function TotalTemplateRunes(actions: seq<Action>): nat {
    if actions == [] then 0 else TotalTemplateRunes(actions[..|actions| - 1]) + |actions[|actions| - 1].template|
  }

  predicate ValidActions(d: Definition) {
    1 <= |d.actions| <= MAX_ACTIONS &&
    (forall k :: 0 <= k < |d.actions| ==> ValidAction(d.actions[k], d.permission, TypeMap(d.parameters))) &&
    TotalTargets(d.actions) <= MAX_TOTAL_ACTION_TARGETS && TotalTemplateRunes(d.actions) <= MAX_TOTAL_TEMPLATE_RUNES
  }

  predicate ValidDefinition(d: Definition) {
    CommandName(d.name) && RuneText(d.displayName, 1, 64) && RuneText(d.description, 0, 500) && ValidScope(d.scope) &&
    d.permission != OtherPermission && ValidParameters(d.parameters) && ValidActions(d)
  }

  // ---------------------------------------------------------------------------------------
  // The validator

  method ValidateScope(scope: Scope) returns (issues: seq<Issue>)
    ensures issues == [] <==> ValidScope(scope)
  {
    issues := [];
    if scope.OtherScope? {
      return [Issue("scope.type", "invalid_scope")];
    }
    if |scope.ids| > MAX_SCOPE_GROUPS || (scope.Groups? && |scope.ids| == 0) || (scope.Global? && |scope.ids| != 0) {
      issues := issues + [Issue("scope.group_ids", "invalid_scope_groups")];
    }
    var seen: set<string> := {};
    for k := 0 to |scope.ids|
      invariant forall id :: id in seen <==> id in scope.ids[..k]
      invariant issues == [] <==>
        |scope.ids| <= MAX_SCOPE_GROUPS && (scope.Global? ==> scope.ids == []) && (scope.Groups? ==> scope.ids != []) &&
        (forall j :: 0 <= j < k ==> Identifier(scope.ids[j])) && Distinct(scope.ids[..k])
    {
      var path := "scope.group_ids[" + Decimal(k) + "]";
      DistinctNext(scope.ids, k);
      if !Identifier(scope.ids[k]) {
        issues := issues + [Issue(path, "invalid_identifier")];
      }
      if scope.ids[k] in seen {
        issues := issues + [Issue(path, "duplicate_group")];
      }
      seen := seen + {scope.ids[k]};
    }
    assert scope.ids[..|scope.ids|] == scope.ids;
  }

  lemma DistinctNext(names: seq<string>, k: nat)
    requires k < |names|
    ensures Distinct(names[..k + 1]) <==> Distinct(names[..k]) && names[k] !in names[..k]
    ensures names[..k + 1] == names[..k] + [names[k]]
  {
    var front, more := names[..k], names[..k + 1];
    if Distinct(front) && names[k] !in front {
      forall i, j | 0 <= i < j < |more|
        ensures more[i] != more[j]
      {
        assert front[i] == more[i];
        assert j < k ==> front[j] == more[j];
      }
    }
    if Distinct(more) {
      forall i | 0 <= i < |front|
        ensures front[i] != more[k]
      {
        assert more[i] != more[k];
      }
      forall i, j | 0 <= i < j < |front|
        ensures front[i] != front[j]
      {
        assert more[i] != more[j];
      }
    }
  }

  method ValidateOptions(options: seq<FixedOption>, path: string) returns (issues: seq<Issue>)
    ensures issues == [] <==> ValidOptions(options)
  {
    issues := [];
    var seen: set<string> := {};
    ghost var values := OptionValues(options);
    for k := 0 to |options|
      invariant forall value :: value in seen <==> value in values[..k]
      invariant issues == [] <==>
        (forall j :: 0 <= j < k ==> OptionValue(options[j].value) && RuneText(options[j].caption, 1, 100)) && Distinct(values[..k])
    {
      var optionPath := path + ".options[" + Decimal(k) + "]";
      DistinctNext(values, k);
      if !OptionValue(options[k].value) || !RuneText(options[k].caption, 1, 100) {
        issues := issues + [Issue(optionPath, "invalid_fixed_option")];
      }
      if options[k].value in seen {
        issues := issues + [Issue(optionPath + ".value", "duplicate_fixed_option")];
      }
      seen := seen + {options[k].value};
    }
    assert values[..|options|] == values;
  }

  method ValidateParameter(p: Parameter, path: string) returns (issues: seq<Issue>)
    ensures issues == [] <==> ValidParameter(p)
  {
    issues := [];
    if !ParameterName(p.name) {
      issues := issues + [Issue(path + ".name", "invalid_parameter_name")];
    }
    if !RuneText(p.displayName, 1, 64) {
      issues := issues + [Issue(path + ".display_name", "invalid_length")];
    }
    match p.kind {
      case TextParameter =>
        if p.minLength < 0 || p.minLength > 500 || p.maxLength < 1 || p.maxLength > 500 || p.minLength > p.maxLength ||
           p.minimum != 0 || p.maximum != 0 || p.minimumSeconds != 0 || p.maximumSeconds != 0 || p.allowTriggerer || |p.options| != 0
        {
          issues := issues + [Issue(path, "invalid_text_parameter")];
        }
      case IntegerParameter =>
        if p.minimum < -1000000000 || p.maximum > 1000000000 || p.minimum > p.maximum || p.minLength != 0 || p.maxLength != 0 ||
           p.minimumSeconds != 0 || p.maximumSeconds != 0 || p.allowTriggerer || |p.options| != 0
        {
          issues := issues + [Issue(path, "invalid_integer_parameter")];
        }
      case DurationParameter =>
        if p.minimumSeconds < 1 || p.maximumSeconds > MAX_MUTE_SECONDS || p.minimumSeconds > p.maximumSeconds || p.minLength != 0 ||
           p.maxLength != 0 || p.minimum != 0 || p.maximum != 0 || p.allowTriggerer || |p.options| != 0
        {
          issues := issues + [Issue(path, "invalid_duration_parameter")];
        }
      case MemberParameter =>
        if p.minLength != 0 || p.maxLength != 0 || p.minimum != 0 || p.maximum != 0 || p.minimumSeconds != 0 ||
           p.maximumSeconds != 0 || |p.options| != 0
        {
          issues := issues + [Issue(path, "invalid_member_parameter")];
        }
      case OptionParameter =>
        if |p.options| < 1 || |p.options| > 30 || p.minLength != 0 || p.maxLength != 0 || p.minimum != 0 || p.maximum != 0 ||
           p.minimumSeconds != 0 || p.maximumSeconds != 0 || p.allowTriggerer
        {
          issues := issues + [Issue(path, "invalid_fixed_options")];
        }
        var more := ValidateOptions(p.options, path);
        issues := issues + more;
      case OtherParameter =>
        issues := issues + [Issue(path + ".type", "invalid_parameter_type")];
    }
  }

  lemma {:induction false} TypeMapNames(parameters: seq<Parameter>, name: string)
    ensures name in TypeMap(parameters) <==> name in ParameterNames(parameters)
  {
    if parameters != [] {
      var n := |parameters| - 1;
      TypeMapNames(parameters[..n], name);
      assert ParameterNames(parameters) == ParameterNames(parameters[..n]) + [parameters[n].name];
    }
  }

  lemma TypesNext(parameters: seq<Parameter>, n: nat)
    requires n < |parameters|
    ensures var p, types := parameters[n], TypeMap(parameters[..n]);
            TypeMap(parameters[..n + 1]) == (if p.name in types then types else types[p.name := p.kind]) &&
            (p.name in types <==> p.name in ParameterNames(parameters)[..n])
  {
    assert parameters[..n + 1][..n] == parameters[..n];
    TypeMapNames(parameters[..n], parameters[n].name);
    assert ParameterNames(parameters[..n]) == ParameterNames(parameters)[..n];
  }

  ghost predicate RequiredFirst(parameters: seq<Parameter>, n: nat)
    requires n <= |parameters|
  {
    forall i, j :: 0 <= i < j < n && parameters[j].required ==> parameters[i].required
  }

  method ValidateParameters(parameters: seq<Parameter>) returns (issues: seq<Issue>, types: map<string, ParameterType>)
    ensures issues == [] <==> ValidParameters(parameters)
    ensures types == TypeMap(parameters)
  {
    hide ValidParameter, TypeMap;
    issues, types := [], map[];
    NoTypes(parameters);
    if |parameters| > MAX_PARAMETERS {
      issues := [Issue("parameters", "too_many_parameters")];
    }
    var optionalSeen := false;
    ghost var names := ParameterNames(parameters);
    for k := 0 to |parameters|
      invariant optionalSeen <==> exists j :: 0 <= j < k && !parameters[j].required
      invariant types == TypeMap(parameters[..k])
      invariant issues == [] <==>
        |parameters| <= MAX_PARAMETERS && Distinct(names[..k]) && RequiredFirst(parameters, k) &&
        forall j :: 0 <= j < k ==> ValidParameter(parameters[j])
    {
      var p := parameters[k];
      var path := "parameters[" + Decimal(k) + "]";
      DistinctNext(names, k);
      TypesNext(parameters, k);
      if !p.required {
        optionalSeen := true;
      } else if optionalSeen {
        issues := issues + [Issue(path + ".required", "required_after_optional")];
      }
      if p.name in types {
        issues := issues + [Issue(path + ".name", "duplicate_parameter")];
      } else {
        types := types[p.name := p.kind];
      }
      var more := ValidateParameter(p, path);
      issues := issues + more;
    }
    assert names[..|parameters|] == names && parameters[..|parameters|] == parameters;
  }

  lemma NoTypes(parameters: seq<Parameter>)
    ensures TypeMap(parameters[..0]) == map[]
  {
  }

  lemma {:induction false} TypeOfName(parameters: seq<Parameter>, k: nat)
    requires Distinct(ParameterNames(parameters)) && k < |parameters|
    ensures TypeIs(TypeMap(parameters), parameters[k].name, parameters[k].kind)
  {
    var n := |parameters| - 1;
    var names, front := ParameterNames(parameters), parameters[..n];
    assert ParameterNames(front) == names[..n];
    assert names == names[..n + 1];
    DistinctNext(names, n);
    TypeMapNames(front, parameters[n].name);
    if k < n {
      TypeOfName(front, k);
      assert names[k] != names[n];
    }
  }

  /** For distinct names a type lookup is a search through the parameters. */
  lemma TypeLookup(parameters: seq<Parameter>, name: string, kind: ParameterType)
    requires Distinct(ParameterNames(parameters))
    ensures TypeIs(TypeMap(parameters), name, kind) <==> HasParameter(parameters, name, kind)
  {
    hide TypeMap, Distinct;
    TypeMapNames(parameters, name);
    if name in TypeMap(parameters) {
      var k :| 0 <= k < |parameters| && ParameterNames(parameters)[k] == name;
      TypeOfName(parameters, k);
    }
    if HasParameter(parameters, name, kind) {
      var k :| 0 <= k < |parameters| && parameters[k].name == name && parameters[k].kind == kind;
      TypeOfName(parameters, k);
    }
  }

  method ValidateTemplate(template: string, types: map<string, ParameterType>, path: string) returns (issues: seq<Issue>)
    ensures issues == [] <==> ValidTemplate(template, types.Keys)
  {
    issues := [];
    var allowed := {"sender_qq", "group_id"} + types.Keys;
    var pieces := Pieces(template);
    for k := 0 to |pieces|
      invariant issues == [] <==>
        forall j :: 0 <= j < k && pieces[j].Variable? ==> AllowedVariable(pieces[j].name, types.Keys)
    {
      if pieces[k].Variable? && pieces[k].name !in allowed {
        issues := issues + [Issue(path, "unknown_template_variable")];
      }
    }
    var remainder := Remainder(pieces);
    if Contains(remainder, "{{") || Contains(remainder, "}}") {
      issues := issues + [Issue(path, "invalid_template")];
    }
  }

  method ValidateTargets(groups: seq<string>) returns (valid: bool)
    ensures valid <==> ValidTargets(groups)
  {
    valid := 1 <= |groups| <= MAX_ACTION_TARGETS;
    var seen: set<string> := {};
    for k := 0 to |groups|
      invariant forall id :: id in seen <==> id in groups[..k]
      invariant valid <==>
        1 <= |groups| <= MAX_ACTION_TARGETS && (forall j :: 0 <= j < k ==> FixedGroupID(groups[j])) && Distinct(groups[..k])
    {
      DistinctNext(groups, k);
      if !Identifier(groups[k]) || Contains(groups[k], "{{") || Contains(groups[k], "}}") {
        valid := false;
      }
      if groups[k] in seen {
        valid := false;
      }
      seen := seen + {groups[k]};
    }
    assert groups[..|groups|] == groups;
  }

  method ValidateAction(a: Action, permission: TriggerPermission, types: map<string, ParameterType>, path: string)
    returns (issues: seq<Issue>)
    ensures issues == [] <==> ValidAction(a, permission, types)
  {
    hide ValidTemplate, ValidTargets;
    issues := [];
    match a.kind {
      case ReplyText =>
        if !RuneText(a.template, 1, 2000) || a.target != NoMention || a.memberParameter != "" ||
           a.duration.kind != NoDuration || |a.groups| != 0
        {
          issues := issues + [Issue(path, "invalid_reply_action")];
        }
        var more := ValidateTemplate(a.template, types, path + ".template");
        issues := issues + more;
      case MentionMember =>
        var valid := a.template == "" && a.duration.kind == NoDuration && |a.groups| == 0;
        if a.target == Triggerer {
          valid := valid && a.memberParameter == "";
        } else if a.target == ByParameter {
          valid := valid && TypeIs(types, a.memberParameter, MemberParameter);
        } else {
          valid := false;
        }
        if !valid {
          issues := issues + [Issue(path, "invalid_mention_action")];
        }
      case MuteMember =>
        var valid := a.template == "" && a.target == NoMention && |a.groups| == 0 && TypeIs(types, a.memberParameter, MemberParameter);
        if a.duration.kind == Fixed {
          valid := valid && a.duration.seconds >= 1 && a.duration.seconds <= MAX_MUTE_SECONDS && a.duration.parameter == "";
        } else if a.duration.kind == Given {
          valid := valid && a.duration.seconds == 0 && TypeIs(types, a.duration.parameter, DurationParameter);
        } else {
          valid := false;
        }
        if !valid {
          issues := issues + [Issue(path, "invalid_mute_action")];
        }
        if permission == Everyone {
          issues := issues + [Issue(path, "privilege_escalation")];
        }
      case SendGroupText =>
        var targets := ValidateTargets(a.groups);
        if !(RuneText(a.template, 1, 2000) && a.target == NoMention && a.memberParameter == "" &&
             a.duration.kind == NoDuration && targets)
        {
          issues := issues + [Issue(path, "invalid_group_send_action")];
        }
        if permission == Everyone {
          issues := issues + [Issue(path, "privilege_escalation")];
        }
        var more := ValidateTemplate(a.template, types, path + ".template");
        issues := issues + more;
      case OtherAction =>
        issues := issues + [Issue(path + ".type", "invalid_action_type")];
    }
  }

  method ValidateActions(d: Definition, types: map<string, ParameterType>) returns (issues: seq<Issue>)
    requires types == TypeMap(d.parameters)
    ensures issues == [] <==> ValidActions(d)
  {
    hide ValidAction, TypeMap;
    issues := [];
    if |d.actions| < 1 || |d.actions| > MAX_ACTIONS {
      issues := issues + [Issue("actions", "invalid_action_count")];
    }
    var totalTargets, totalTemplateRunes := 0, 0;
    for k := 0 to |d.actions|
      invariant totalTargets == TotalTargets(d.actions[..k]) && totalTemplateRunes == TotalTemplateRunes(d.actions[..k])
      invariant issues == [] <==>
        1 <= |d.actions| <= MAX_ACTIONS && forall j :: 0 <= j < k ==> ValidAction(d.actions[j], d.permission, types)
    {
      assert d.actions[..k + 1][..k] == d.actions[..k];
      totalTargets := totalTargets + |d.actions[k].groups|;
      totalTemplateRunes := totalTemplateRunes + |d.actions[k].template|;
      var more := ValidateAction(d.actions[k], d.permission, types, "actions[" + Decimal(k) + "]");
      issues := issues + more;
    }
    assert d.actions[..|d.actions|] == d.actions;
    if totalTargets > MAX_TOTAL_ACTION_TARGETS {
      issues := issues + [Issue("actions", "too_many_targets")];
    }
    if totalTemplateRunes > MAX_TOTAL_TEMPLATE_RUNES {
      issues := issues + [Issue("actions", "templates_too_large")];
    }
  }

  /** A definition has no issues exactly when it is valid. */
  method ValidateDefinition(d: Definition) returns (issues: seq<Issue>)
    ensures issues == [] <==> ValidDefinition(d)
  {
    hide ValidActions, ValidScope, CommandName;
    issues := [];
    if !CommandName(d.name) {
      issues := issues + [Issue("name", "invalid_command_name")];
    }
    if !RuneText(d.displayName, 1, 64) {
      issues := issues + [Issue("display_name", "invalid_length")];
    }
    if !RuneText(d.description, 0, 500) {
      issues := issues + [Issue("description", "invalid_length")];
    }
    var scopeIssues := ValidateScope(d.scope);
    issues := issues + scopeIssues;
    if d.permission == OtherPermission {
      issues := issues + [Issue("trigger_permission", "invalid_permission")];
    }
    var parameterIssues, types := ValidateParameters(d.parameters);
    issues := issues + parameterIssues;
    var actionIssues := ValidateActions(d, types);
    issues := issues + actionIssues;
  }

  /** A command that everyone may trigger neither mutes nor sends to other groups. */
  lemma EveryoneIsUnprivileged(d: Definition, k: nat)
    requires ValidDefinition(d) && d.permission == Everyone && k < |d.actions|
    ensures d.actions[k].kind == ReplyText || d.actions[k].kind == MentionMember
  {
    assert ValidAction(d.actions[k], d.permission, TypeMap(d.parameters));
  }
}
