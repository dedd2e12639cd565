/** The registry of active custom commands: whole snapshots, replaced under a lock, that map names
    to commands and ids to names. */
module CommandRegistry {
  import opened Wrappers
  import opened CommandDefinition
  import opened CommandTokenizer

  datatype Status = Draft | Active | Disabled | OtherStatus

  datatype Command = Command(id: string, definition: Definition, enabled: bool, status: Status, version: nat)

  datatype RegistryError = InvalidInput | Conflict

  datatype Snapshot = Snapshot(byName: map<string, Command>, byID: map<string, string>, builtins: set<string>)

  /** A command that may be stored: its enabled flag says what its status says. */
  predicate Storable(c: Command) {
    Identifier(c.id) && c.version > 0 && ValidDefinition(c.definition) &&
    match c.status
    case Active => c.enabled
    case Draft => !c.enabled
    case Disabled => !c.enabled
    case OtherStatus => false
  }

  method CompileStoredCommand(c: Command) returns (ok: bool)
    ensures ok <==> Storable(c)
  {
    hide ValidDefinition, Identifier;
    if !Identifier(c.id) || c.version == 0 || c.status == OtherStatus {
      return false;
    }
    var issues := ValidateDefinition(c.definition);
    ok := issues == [] && c.enabled == (c.status == Active);
  }

  predicate Runs(c: Command) {
    c.enabled && c.status == Active
  }

  // `Runs`, for a command that may be stored.
  lemma StorableRunsIff(c: Command)
    requires Storable(c)
    ensures Runs(c) <==> c.status == Active
  {
  }

  function Put(s: Snapshot, c: Command): Snapshot {
    s.(byName := s.byName[c.definition.name := c], byID := s.byID[c.id := c.definition.name])
  }

  function Drop(s: Snapshot, id: string): Snapshot {
    if id in s.byID then s.(byName := s.byName - {s.byID[id]}, byID := s.byID - {id}) else s
  }

  /** The snapshot under construction after the first `n` commands of a replacement. */
  function Replaced(builtins: set<string>, commands: seq<Command>, n: nat): Result<Snapshot, RegistryError>
    requires n <= |commands|
  {
    if n == 0 then Ok(Snapshot(map[], map[], builtins))
    else
      match Replaced(builtins, commands, n - 1)
      case Err(e) => Err(e)
      case Ok(s) =>
        var c := commands[n - 1];
        if !Storable(c) then Err(InvalidInput)
        else if !Runs(c) then Ok(s)
        else if c.definition.name in builtins || c.definition.name in s.byName then Err(Conflict)
        else Ok(Put(s, c))
  }

  function Upserted(s: Snapshot, c: Command): Result<Snapshot, RegistryError> {
    if !Storable(c) then Err(InvalidInput)
    else
      var next := Drop(s, c.id);
      if !Runs(c) then Ok(next)
      else if c.definition.name in next.builtins then Err(Conflict)
      else if c.definition.name in next.byName && next.byName[c.definition.name].id != c.id then Err(Conflict)
      else Ok(Put(next, c))
  }

  method InScope(scope: Scope, group: string) returns (reached: bool)
    ensures reached <==> scope.Global? || group in scope.ids
  {
    if scope.Global? {
      return true;
    }
    for k := 0 to |scope.ids|
      invariant forall j :: 0 <= j < k ==> scope.ids[j] != group
    {
      if scope.ids[k] == group {
        return true;
      }
    }
    reached := false;
  }

  class Registry {
    var snapshot: Snapshot

    constructor (builtins: set<string>)
      ensures snapshot == Snapshot(map[], map[], builtins)
    {
      snapshot := Snapshot(map[], map[], builtins);
    }

    method Replace(commands: seq<Command>) returns (error: Option<RegistryError>)
      modifies this
      ensures match Replaced(old(snapshot).builtins, commands, |commands|)
              case Ok(next) => error == None && snapshot == next
              case Err(e) => error == Some(e) && snapshot == old(snapshot)
    {
      hide Storable, Put;
      var next := Snapshot(map[], map[], snapshot.builtins);
      for n := 0 to |commands|
        invariant Replaced(snapshot.builtins, commands, n) == Ok(next)
        invariant snapshot == old(snapshot) && next.builtins == snapshot.builtins
      {
        var command := commands[n];
        BuiltinsStay(next, command);
        var storable := CompileStoredCommand(command);
        if !storable {
          RefusedStaysRefused(snapshot.builtins, commands, n + 1, |commands|);
          return Some(InvalidInput);
        }
        if !command.enabled || command.status != Active {
          continue;
        }
        if command.definition.name in next.builtins || command.definition.name in next.byName {
          RefusedStaysRefused(snapshot.builtins, commands, n + 1, |commands|);
          return Some(Conflict);
        }
        next := Put(next, command);
      }
      snapshot := next;
      error := None;
    }

    method Upsert(command: Command) returns (error: Option<RegistryError>)
      modifies this
      ensures match Upserted(old(snapshot), command)
              case Ok(next) => error == None && snapshot == next
              case Err(e) => error == Some(e) && snapshot == old(snapshot)
    {
      hide Storable;
      var storable := CompileStoredCommand(command);
      if !storable {
        return Some(InvalidInput);
      }
      var next := snapshot;
      if command.id in next.byID {
        next := next.(byName := next.byName - {next.byID[command.id]}, byID := next.byID - {command.id});
      }
      if command.enabled && command.status == Active {
        var name := command.definition.name;
        if name in next.builtins {
          return Some(Conflict);
        }
        if name in next.byName && next.byName[name].id != command.id {
          return Some(Conflict);
        }
        next := Put(next, command);
      }
      snapshot := next;
      error := None;
    }

    method Remove(id: string)
      modifies this
      ensures snapshot == Drop(old(snapshot), id)
    {
      if id !in snapshot.byID {
        return;
      }
      snapshot := snapshot.(byName := snapshot.byName - {snapshot.byID[id]}, byID := snapshot.byID - {id});
    }

    method Conflicts(name: string, excluding: string) returns (conflict: bool)
      ensures conflict <==> Conflicting(snapshot, name, excluding)
      ensures Consistent(snapshot) ==>
        (conflict <==> name in snapshot.builtins || NameTaken(Contents(snapshot) - {excluding}, name))
    {
      if Consistent(snapshot) {
        ConflictIsTakenName(snapshot, name, excluding);
      }
      if name in snapshot.builtins {
        return true;
      }
      conflict := name in snapshot.byName && snapshot.byName[name].id != excluding;
    }

    method Match(message: string, group: string) returns (found: Option<Command>)
      ensures found == Matched(snapshot, message, group)
    {
      var fields := RoutedFields(message);
      if |fields| == 0 || fields[0] !in snapshot.byName {
        return None;
      }
      var reached := InScope(snapshot.byName[fields[0]].definition.scope, group);
      found := if reached then Some(snapshot.byName[fields[0]]) else None;
    }
  }

  predicate Conflicting(s: Snapshot, name: string, excluding: string) {
    name in s.builtins || (name in s.byName && s.byName[name].id != excluding)
  }

  function Matched(s: Snapshot, message: string, group: string): Option<Command> {
    var fields := RoutedFields(message);
    if fields != [] && fields[0] in s.byName && 
       (s.byName[fields[0]].definition.scope.Global? || group in s.byName[fields[0]].definition.scope.ids)
    then Some(s.byName[fields[0]]) else None
  }

  lemma BuiltinsStay(s: Snapshot, c: Command)
    ensures Put(s, c).builtins == s.builtins
  {
  }

  lemma {:induction false} RefusedStaysRefused(builtins: set<string>, commands: seq<Command>, n: nat, m: nat)
    requires n <= m <= |commands| && Replaced(builtins, commands, n).Err?
    ensures Replaced(builtins, commands, m) == Replaced(builtins, commands, n)
    decreases m
  {
    hide Storable, Put;
    if n < m {
      RefusedStaysRefused(builtins, commands, n, m - 1);
    }
  }

  // ---------------------------------------------------------------------------------------
  // The registry as a plain map from ids to active commands

  /** The two maps are inverse to each other, and no builtin is shadowed. */
  ghost predicate Consistent(s: Snapshot) {
    (forall name :: name in s.byName ==>
      s.byName[name].definition.name == name && s.byName[name].id in s.byID && s.byID[s.byName[name].id] == name &&
      name !in s.builtins && Storable(s.byName[name]) && Runs(s.byName[name])) &&
    forall id :: id in s.byID ==> s.byID[id] in s.byName && s.byName[s.byID[id]].id == id
  }

  function Contents(s: Snapshot): map<string, Command> {
    map id | id in s.byID && s.byID[id] in s.byName :: s.byName[s.byID[id]]
  }

  predicate NameTaken(m: map<string, Command>, name: string) {
    exists id :: id in m && m[id].definition.name == name
  }

  function UpsertedMap(m: map<string, Command>, builtins: set<string>, c: Command): Result<map<string, Command>, RegistryError> {
    var others := m - {c.id};
    if !Storable(c) then Err(InvalidInput)
    else if c.status != Active then Ok(others)
    else if c.definition.name in builtins || NameTaken(others, c.definition.name) then Err(Conflict)
    else Ok(others[c.id := c])
  }

  /** Replacing adds the running commands to an empty map, one by one. */
  function ReplacedMap(builtins: set<string>, commands: seq<Command>, n: nat): Result<map<string, Command>, RegistryError>
    requires n <= |commands|
  {
    if n == 0 then Ok(map[])
    else
      match ReplacedMap(builtins, commands, n - 1)
      case Err(e) => Err(e)
      case Ok(m) =>
        if Storable(commands[n - 1]) && commands[n - 1].status != Active then Ok(m) else UpsertedMap(m, builtins, commands[n - 1])
  }

  lemma NameTakenIff(s: Snapshot, name: string)
    requires Consistent(s)
    ensures NameTaken(Contents(s), name) <==> name in s.byName
  {
    if name in s.byName {
      assert Contents(s)[s.byName[name].id].definition.name == name;
    }
  }

  lemma PutIsUpdate(s: Snapshot, c: Command)
    requires Consistent(s) && Storable(c) && Runs(c) && c.id !in s.byID
    requires c.definition.name !in s.byName && c.definition.name !in s.builtins
    ensures Consistent(Put(s, c)) && Contents(Put(s, c)) == Contents(s)[c.id := c]
  {
    hide Storable, Runs;
    var t := Put(s, c);
    assert forall id :: id in s.byID ==> t.byName[t.byID[id]] == s.byName[s.byID[id]];
  }

  lemma DropIsRemoval(s: Snapshot, id: string)
    requires Consistent(s)
    ensures Consistent(Drop(s, id)) && Contents(Drop(s, id)) == Contents(s) - {id}
  {
    hide Storable, Runs;
    var t := Drop(s, id);
    forall other | other in t.byID
      ensures t.byID[other] in t.byName && t.byName[t.byID[other]] == s.byName[s.byID[other]]
    {
    }
  }

  lemma UpsertRefines(s: Snapshot, c: Command)
    requires Consistent(s)
    ensures match UpsertedMap(Contents(s), s.builtins, c)
            case Err(e) => Upserted(s, c) == Err(e)
            case Ok(m) => Upserted(s, c).Ok? && Consistent(Upserted(s, c).value) && Contents(Upserted(s, c).value) == m
  {
    hide Storable, Runs;
    if Storable(c) {
      StorableRunsIff(c);
    }
    var next := Drop(s, c.id);
    DropIsRemoval(s, c.id);
    NameTakenIff(next, c.definition.name);
    if Runs(c) && Storable(c) && c.definition.name !in next.builtins && c.definition.name !in next.byName {
      PutIsUpdate(next, c);
    }
  }

  /** A name conflicts exactly if it is a builtin's or another active command's. */
  lemma ConflictIsTakenName(s: Snapshot, name: string, excluding: string)
    requires Consistent(s)
    ensures Conflicting(s, name, excluding) <==> name in s.builtins || NameTaken(Contents(s) - {excluding}, name)
  {
    hide Storable;
    if name in s.byName && s.byName[name].id != excluding {
      var id := s.byName[name].id;
      assert id in Contents(s) - {excluding} && (Contents(s) - {excluding})[id].definition.name == name;
    }
  }

  /** The check before a command is stored predicts its activation: upserting a running command
      fails exactly if its name conflicts. */
  lemma ConflictPredictsUpsert(s: Snapshot, c: Command)
    requires Consistent(s) && Storable(c) && Runs(c)
    ensures Upserted(s, c).Ok? <==> !Conflicting(s, c.definition.name, c.id)
    ensures Conflicting(s, c.definition.name, c.id) ==> Upserted(s, c) == Err(Conflict)
  {
    hide Storable, Consistent;
    UpsertRefines(s, c);
    ConflictIsTakenName(s, c.definition.name, c.id);
  }

  predicate DistinctRunningIDs(commands: seq<Command>, n: nat)
    requires n <= |commands|
  {
    forall i, j :: 0 <= i < j < n && Runs(commands[i]) && Runs(commands[j]) ==> commands[i].id != commands[j].id
  }

  /** Of the first `n` commands, the running ones are those in the snapshot. */
  ghost predicate ListedAmong(s: Snapshot, commands: seq<Command>, n: nat)
    requires n <= |commands|
  {
    (forall id :: id in s.byID ==> exists k :: 0 <= k < n && Runs(commands[k]) && commands[k].id == id) &&
    forall k :: 0 <= k < n && Runs(commands[k]) ==>
      commands[k].definition.name in s.byName && s.byName[commands[k].definition.name] == commands[k]
  }

  lemma {:induction false} ReplaceLists(builtins: set<string>, commands: seq<Command>, n: nat)
    requires n <= |commands| && Replaced(builtins, commands, n).Ok?
    ensures ListedAmong(Replaced(builtins, commands, n).value, commands, n)
    ensures Replaced(builtins, commands, n).value.builtins == builtins
  {
    hide Storable, ValidDefinition;
    if n > 0 {
      ReplaceLists(builtins, commands, n - 1);
    }
  }

  lemma UnstorableIsRefused(m: map<string, Command>, builtins: set<string>, c: Command)
    requires !Storable(c)
    ensures UpsertedMap(m, builtins, c) == Err(InvalidInput)
  {
  }

  lemma AddDistinct(s: Snapshot, builtins: set<string>, c: Command)
    requires Consistent(s) && s.builtins == builtins && c.id !in s.byID && Storable(c) && Runs(c)
    ensures if c.definition.name in builtins || c.definition.name in s.byName
            then UpsertedMap(Contents(s), builtins, c) == Err(Conflict)
            else Consistent(Put(s, c)) && UpsertedMap(Contents(s), builtins, c) == Ok(Contents(Put(s, c)))
  {
    hide Storable, Consistent;
    NameTakenIff(s, c.definition.name);
    assert Contents(s) - {c.id} == Contents(s);
    if c.definition.name !in builtins && c.definition.name !in s.byName {
      PutIsUpdate(s, c);
    }
  }

  /** Replacing with distinct ids is the same on the plain map, errors included. */
  lemma {:induction false} ReplaceRefines(builtins: set<string>, commands: seq<Command>, n: nat)
    requires n <= |commands| && DistinctRunningIDs(commands, n)
    ensures match Replaced(builtins, commands, n)
            case Err(e) => ReplacedMap(builtins, commands, n) == Err(e)
            case Ok(s) => Consistent(s) && ReplacedMap(builtins, commands, n) == Ok(Contents(s))
  {
    hide Storable, Put, UpsertedMap;
    if n == 0 {
      assert Contents(Replaced(builtins, commands, n).value) == map[];
    } else {
      ReplaceRefines(builtins, commands, n - 1);
      var c := commands[n - 1];
      if Replaced(builtins, commands, n - 1).Ok? {
        var s := Replaced(builtins, commands, n - 1).value;
        ReplaceLists(builtins, commands, n - 1);
        if Storable(c) {
          StorableRunsIff(c);
        }
        if !Storable(c) {
          UnstorableIsRefused(Contents(s), builtins, c);
        } else if Runs(c) {
          AddDistinct(s, builtins, c);
        }
      }
    }
  }

  lemma {:induction false} NamesDiffer(builtins: set<string>, commands: seq<Command>, i: nat, j: nat, n: nat)
    requires i < j < n <= |commands| && Replaced(builtins, commands, n).Ok? && Runs(commands[i]) && Runs(commands[j])
    ensures commands[i].definition.name != commands[j].definition.name
    decreases n
  {
    hide Storable, ValidDefinition;
    if j < n - 1 {
      NamesDiffer(builtins, commands, i, j, n - 1);
    } else {
      ReplaceLists(builtins, commands, n - 1);
    }
  }

  /** A successful replacement leaves inverse maps exactly when its running commands have distinct ids. */
  lemma ReplaceIsConsistentIff(builtins: set<string>, commands: seq<Command>)
    requires Replaced(builtins, commands, |commands|).Ok?
    ensures Consistent(Replaced(builtins, commands, |commands|).value) <==> DistinctRunningIDs(commands, |commands|)
  {
    hide Storable, Put, Replaced, ReplacedMap;
    var n := |commands|;
    if DistinctRunningIDs(commands, n) {
      ReplaceRefines(builtins, commands, n);
    } else {
      var i, j :| 0 <= i < j < n && Runs(commands[i]) && Runs(commands[j]) && commands[i].id == commands[j].id;
      NamesDiffer(builtins, commands, i, j, n);
      ReplaceLists(builtins, commands, n);
    }
  }

  // ---------------------------------------------------------------------------------------
  // Any sequence of operations

  datatype Operation = Replacing(commands: seq<Command>) | Upserting(command: Command) | Removing(id: string)

  function Apply(s: Snapshot, op: Operation): Snapshot {
    match op
    case Replacing(commands) => (match Replaced(s.builtins, commands, |commands|) case Ok(next) => next case Err(_) => s)
    case Upserting(c) => (match Upserted(s, c) case Ok(next) => next case Err(_) => s)
    case Removing(id) => Drop(s, id)
  }

  function ApplyMap(m: map<string, Command>, builtins: set<string>, op: Operation): map<string, Command> {
    match op
    case Replacing(commands) => (match ReplacedMap(builtins, commands, |commands|) case Ok(next) => next case Err(_) => m)
    case Upserting(c) => (match UpsertedMap(m, builtins, c) case Ok(next) => next case Err(_) => m)
    case Removing(id) => m - {id}
  }

  function After(builtins: set<string>, ops: seq<Operation>): Snapshot {
    if ops == [] then Snapshot(map[], map[], builtins) else Apply(After(builtins, ops[..|ops| - 1]), ops[|ops| - 1])
  }

  function MapAfter(builtins: set<string>, ops: seq<Operation>): map<string, Command> {
    if ops == [] then map[] else ApplyMap(MapAfter(builtins, ops[..|ops| - 1]), builtins, ops[|ops| - 1])
  }

  predicate ReplacesDistinctIDs(op: Operation) {
    op.Replacing? ==> DistinctRunningIDs(op.commands, |op.commands|)
  }

  lemma ApplyRefines(s: Snapshot, op: Operation)
    requires Consistent(s) && ReplacesDistinctIDs(op)
    ensures Consistent(Apply(s, op)) && Apply(s, op).builtins == s.builtins
    ensures Contents(Apply(s, op)) == ApplyMap(Contents(s), s.builtins, op)
  {
    hide Consistent, Contents, Replaced, ReplacedMap, Put, Storable, Runs;
    match op
    case Replacing(commands) =>
      ReplaceRefines(s.builtins, commands, |commands|);
      if Replaced(s.builtins, commands, |commands|).Ok? {
        ReplaceLists(s.builtins, commands, |commands|);
      }
    case Upserting(c) =>
      UpsertRefines(s, c);
      BuiltinsStay(Drop(s, c.id), c);
    case Removing(id) => DropIsRemoval(s, id);
  }

  /** After any operations whose replacements have distinct ids, the registry is the plain map. */
  lemma {:induction false} RegistryRefinesMap(builtins: set<string>, ops: seq<Operation>)
    requires forall k :: 0 <= k < |ops| ==> ReplacesDistinctIDs(ops[k])
    ensures Consistent(After(builtins, ops)) && After(builtins, ops).builtins == builtins
    ensures Contents(After(builtins, ops)) == MapAfter(builtins, ops)
  {
    if ops == [] {
      assert Contents(After(builtins, ops)) == map[];
    } else {
      hide Consistent, Contents, Apply, ApplyMap, ReplacesDistinctIDs;
      RegistryRefinesMap(builtins, ops[..|ops| - 1]);
      ApplyRefines(After(builtins, ops[..|ops| - 1]), ops[|ops| - 1]);
    }
  }

  /** Match finds a command exactly when an active one has the first field as its name and is in scope. */
  lemma MatchFindsActive(s: Snapshot, message: string, group: string, c: Command)
    requires Consistent(s)
    ensures Matched(s, message, group) == Some(c) <==>
            c.id in Contents(s) && Contents(s)[c.id] == c && RoutedFields(message) != [] &&
            RoutedFields(message)[0] == c.definition.name &&
            (c.definition.scope.Global? || group in c.definition.scope.ids)
  {
    hide Storable;
  }

  /** The parser sees the command that the registry selected. */
  lemma MatchAgreesWithParser(s: Snapshot, message: string, group: string)
    requires Consistent(s) && Matched(s, message, group).Some? && Tokens(message).Some?
    ensures Tokens(message).value != []
    ensures Tokens(message).value[0] == Matched(s, message, group).value.definition.name
  {
    hide Tokens, RoutedFields, Storable;
    var name := RoutedFields(message)[0];
    StoredNameIsPlain(s.byName[name]);
    RoutedNameIsFirstToken(message, name);
  }

  lemma StoredNameIsPlain(c: Command)
    requires Storable(c)
    ensures forall k :: 0 <= k < |c.definition.name| ==> PlainRune(c.definition.name[k])
  {
    hide ValidScope, ValidParameters, ValidActions;
    var name := c.definition.name;
    assert CommandName(name);
    forall k | 0 <= k < |name|
      ensures PlainRune(name[k])
    {
      assert k >= 2 ==> NameRune(name[k]);
    }
  }

  /** Replacing with a repeated id leaves a name that its id no longer leads to. */
  lemma RepeatedIDExample(builtins: set<string>, c: Command, d: Command)
    requires Storable(c) && Runs(c) && Storable(d) && Runs(d) && c.id == d.id && c.definition.name != d.definition.name
    requires c.definition.name !in builtins && d.definition.name !in builtins
    ensures Replaced(builtins, [c, d], 2).Ok? && !Consistent(Replaced(builtins, [c, d], 2).value)
  {
    hide Storable;
    assert Replaced(builtins, [c, d], 0).Ok?;
    assert Replaced(builtins, [c, d], 1) == Ok(Put(Snapshot(map[], map[], builtins), c));
    assert Replaced(builtins, [c, d], 2).Ok?;
    var s := Replaced(builtins, [c, d], 2).value;
    assert c.definition.name in s.byName && s.byName[c.definition.name] == c;
  }
}
