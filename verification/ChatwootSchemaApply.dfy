// Turning an additive analysis into requests, sending them, and the environment that adopts the result.
module ChatwootSchemaApply {
  import opened Wrappers
  import opened ChatwootMetadata
  import opened ChatwootAnalysis
  import opened Sorting

  datatype Command = KeepTable(key: string) | NewTable(key: string, name: string, fields: seq<RemoteField>)
                   | NewField(id: nat, field: RemoteField)
  datatype ApplyError = DuplicateAction | UnknownTable | PlanBlocked | PlanDrift | MissingBinding | InvalidField | UnsupportedType

  // The type a field is created with.
  function TransportType(f: FieldSpec): nat {
    if f.kind == CHECKBOX && NUMBER in f.compatible then NUMBER
    else if f.kind == SINGLE_SELECT && TEXT in f.compatible then TEXT
    else if f.kind == DATETIME && NUMBER in f.compatible then NUMBER
    else f.kind
  }

  function MutationField(f: FieldSpec): RemoteField { RemoteField(f.name, TransportType(f), f.primary) }

  function MutationFields(specs: seq<FieldSpec>): seq<RemoteField> {
    seq(|specs|, i requires 0 <= i < |specs| => MutationField(specs[i]))
  }

  function TableOf(bp: Blueprint, key: string): Option<TableSpec> {
    if bp == [] then None else if bp[0].key == key then Some(bp[0]) else TableOf(bp[1..], key)
  }

  function FieldOf(specs: seq<FieldSpec>, name: string): Option<FieldSpec> {
    if specs == [] then None else if specs[0].name == name then Some(specs[0]) else FieldOf(specs[1..], name)
  }

  predicate Creatable(specs: seq<FieldSpec>) { forall f <- specs :: TransportType(f) in FIELD_TYPES }

  function Enrich(bp: Blueprint, bindings: map<string, Finding>, a: Action): Result<Command, ApplyError> {
    var table := TableOf(bp, a.key);
    if table.None? then Err(UnknownTable) else
    match a
    case BindEnv(key) => if key in bindings && bindings[key].Bound? then Ok(KeepTable(key)) else Err(MissingBinding)
    case CreateTable(key) =>
      if Creatable(table.value.fields) then Ok(NewTable(key, table.value.createName, MutationFields(table.value.fields)))
      else Err(UnsupportedType)
    case CreateField(key, name) =>
      if key !in bindings || !bindings[key].Bound? then Err(MissingBinding) else
      var field := FieldOf(table.value.fields, name);
      if field.None? || field.value.primary then Err(InvalidField)
      else if !Creatable([field.value]) then Err(UnsupportedType)
      else Ok(NewField(bindings[key].id, MutationField(field.value)))
  }

  // Planning ---------------------------------------------------------------------------------------------

  // The order in which actions run is that of a comparison of texts; here it may be any comparison.
  type Order = (Action, Action) -> bool

  predicate Reviewed(actions: seq<Action>, keys: set<string>) { forall a <- actions :: a.key in keys }

  predicate Repeats(actions: seq<Action>) { exists i, j | 0 <= i < j < |actions| :: actions[i] == actions[j] }

  // The planned commands answer the sorted actions one for one.
  ghost predicate Answers(bp: Blueprint, bindings: map<string, Finding>, order: seq<Action>, commands: seq<Command>) {
    |commands| == |order| && forall j | 0 <= j < |order| :: Enrich(bp, bindings, order[j]) == Ok(commands[j])
  }

  ghost predicate Enrichable(bp: Blueprint, bindings: map<string, Finding>, actions: seq<Action>) {
    forall a <- actions :: Enrich(bp, bindings, a).Ok?
  }

  method NormalizeSafeActions(bp: Blueprint, actions: seq<Action>) returns (r: Result<(), ApplyError>)
    ensures r.Ok? <==> !Repeats(actions) && forall a <- actions :: TableOf(bp, a.key).Some?
  {
    var seen: set<Action> := {};
    for i := 0 to |actions|
      invariant forall j | 0 <= j < i :: actions[j] in seen && TableOf(bp, actions[j].key).Some?
      invariant forall a <- seen :: a in actions[..i]
      invariant forall j, k | 0 <= j < k < i :: actions[j] != actions[k]
    {
      if TableOf(bp, actions[i].key).None? {
        assert actions[i] in actions;
        return Err(UnknownTable);
      }
      if actions[i] in seen { return Err(DuplicateAction); }
      seen := seen + {actions[i]};
    }
    r := Ok(());
  }

  method BuildPlan(bp: Blueprint, analysis: Analysis, bindings: map<string, Finding>, reviewed: set<string>, before: Order)
    returns (r: Result<seq<Command>, ApplyError>)
    ensures r.Ok? <==> !Repeats(analysis.actions) && (forall a <- analysis.actions :: TableOf(bp, a.key).Some?)
                       && (analysis.decision == Ready
                           || (analysis.decision == Additive && Reviewed(analysis.actions, reviewed)
                               && Enrichable(bp, bindings, analysis.actions)))
    ensures r.Ok? && analysis.decision == Ready ==> r.value == []
    ensures r.Ok? && analysis.decision != Ready ==> Answers(bp, bindings, Sort(analysis.actions, before), r.value)
  {
    var safe := NormalizeSafeActions(bp, analysis.actions);
    if safe.Err? { return Err(safe.error); }
    var order := Sort(analysis.actions, before);
    SortKeeps(analysis.actions, before);
    if analysis.decision == Ready { return Ok([]); }
    if analysis.decision != Additive { return Err(PlanBlocked); }
    if !Reviewed(order, reviewed) { return Err(PlanDrift); }
    var commands := [];
    for j := 0 to |order|
      invariant |commands| == j && forall k | 0 <= k < j :: Enrich(bp, bindings, order[k]) == Ok(commands[k])
    {
      var command := Enrich(bp, bindings, order[j]);
      if command.Err? {
        assert order[j] in analysis.actions;
        return Err(command.error);
      }
      commands := commands + [command.value];
    }
    r := Ok(commands);
  }

  lemma {:induction false} SortKeeps(s: seq<Action>, before: Order)
    ensures forall b :: b in Sort(s, before) <==> b in s
    ensures Distinct(s) ==> Distinct(Sort(s, before))
  {
    forall b ensures b in Sort(s, before) <==> b in s { SortHas(s, before, b); }
    if Distinct(s) { SortDistinct(s, before); }
  }

  // Execution --------------------------------------------------------------------------------------------

  datatype State = State(remote: seq<RemoteTable>, nextId: nat, created: map<string, nat>)

  function WithField(remote: seq<RemoteTable>, id: nat, field: RemoteField): seq<RemoteTable> {
    seq(|remote|, t requires 0 <= t < |remote| =>
      if remote[t].id == id then remote[t].(fields := remote[t].fields + [field]) else remote[t])
  }

  function Execute(s: State, c: Command): State {
    match c
    case KeepTable(_) => s
    case NewTable(key, name, fields) =>
      State(s.remote + [RemoteTable(s.nextId, name, fields)], s.nextId + 1, s.created[key := s.nextId])
    case NewField(id, field) => s.(remote := WithField(s.remote, id, field))
  }

  function Run(s: State, commands: seq<Command>): State
    decreases |commands|
  {
    if commands == [] then s else Execute(Run(s, commands[..|commands| - 1]), commands[|commands| - 1])
  }

  class LarkBase {
    var tables: seq<RemoteTable>
    var nextId: nat

    constructor (tables: seq<RemoteTable>, nextId: nat)
      ensures this.tables == tables && this.nextId == nextId
    {
      this.tables, this.nextId := tables, nextId;
    }

    method CreateTable(name: string, fields: seq<RemoteField>) returns (id: nat)
      modifies this
      ensures id == old(nextId) && nextId == id + 1 && tables == old(tables) + [RemoteTable(id, name, fields)]
    {
      id := nextId;
      tables, nextId := tables + [RemoteTable(id, name, fields)], nextId + 1;
    }

    method CreateField(id: nat, field: RemoteField)
      modifies this`tables
      ensures tables == WithField(old(tables), id, field)
    {
      tables := WithField(tables, id, field);
    }

    method Apply(commands: seq<Command>) returns (created: map<string, nat>)
      modifies this
      ensures State(tables, nextId, created) == Run(State(old(tables), old(nextId), map[]), commands)
    {
      created := map[];
      for j := 0 to |commands|
        invariant State(tables, nextId, created) == Run(State(old(tables), old(nextId), map[]), commands[..j])
      {
        assert commands[..j + 1][..j] == commands[..j] && commands[..j + 1][j] == commands[j];
        match commands[j] {
          case KeepTable(_) =>
          case NewTable(key, name, fields) =>
            var id := CreateTable(name, fields);
            created := created[key := id];
          case NewField(id, field) =>
            CreateField(id, field);
        }
      }
      assert commands[..|commands|] == commands;
    }
  }

  // The environment after a run ------------------------------------------------------------------------------

  function BindingIds(bindings: map<string, Finding>): map<string, nat> {
    map key | key in bindings && bindings[key].Bound? :: bindings[key].id
  }

  // A created id goes before a bound one, and that before the one configured so far.
  function PostRefs(refs: map<string, nat>, bindings: map<string, Finding>, created: map<string, nat>): map<string, nat> {
    refs + BindingIds(bindings) + created
  }

  datatype EnvEntry = EnvEntry(key: string, id: nat)

  // One entry per blueprint table, each of which must be bound.
  method EnvironmentUpdates(bp: Blueprint, bindings: map<string, Finding>) returns (r: Result<seq<EnvEntry>, ApplyError>)
    ensures r.Ok? <==> forall i | 0 <= i < |bp| :: bp[i].key in bindings && bindings[bp[i].key].Bound?
    ensures r.Ok? ==> |r.value| == |bp|
    ensures r.Ok? ==> forall i | 0 <= i < |bp| :: bp[i].key in bindings && r.value[i] == EnvEntry(bp[i].key, BindingId(bindings, bp[i].key))
  {
    var entries := [];
    for i := 0 to |bp|
      invariant |entries| == i
      invariant forall j | 0 <= j < i :: bp[j].key in bindings && bindings[bp[j].key].Bound?
      invariant forall j | 0 <= j < i :: entries[j] == EnvEntry(bp[j].key, BindingId(bindings, bp[j].key))
    {
      if bp[i].key !in bindings || !bindings[bp[i].key].Bound? { return Err(MissingBinding); }
      entries := entries + [EnvEntry(bp[i].key, bindings[bp[i].key].id)];
    }
    r := Ok(entries);
  }

  function BindingId(bindings: map<string, Finding>, key: string): nat {
    if key in bindings && bindings[key].Bound? then bindings[key].id else 0
  }

  function Adopt(entries: seq<EnvEntry>): map<string, nat> {
    if entries == [] then map[] else Adopt(entries[1..])[entries[0].key := entries[0].id]
  }

  // What a run of commands leaves ---------------------------------------------------------------------------

  function FieldsFor(commands: seq<Command>, id: nat): seq<RemoteField>
    decreases |commands|
  {
    if commands == [] then [] else
    var last := commands[|commands| - 1];
    FieldsFor(commands[..|commands| - 1], id) + if last.NewField? && last.id == id then [last.field] else []
  }

  ghost predicate Came(commands: seq<Command>, created: map<string, nat>, t: RemoteTable, j: nat) {
    && j < |commands| && commands[j].NewTable? && commands[j].key in created
    && t == RemoteTable(created[commands[j].key], commands[j].name, commands[j].fields)
  }

  ghost predicate OldTables(remote: seq<RemoteTable>, commands: seq<Command>, s: State) {
    |remote| <= |s.remote| && forall t | 0 <= t < |remote| ::
      s.remote[t] == RemoteTable(remote[t].id, remote[t].name, remote[t].fields + FieldsFor(commands, remote[t].id))
  }

  // Every new table came from a command...
  ghost predicate SomeCame(commands: seq<Command>, created: map<string, nat>, t: RemoteTable) {
    exists j :: Came(commands, created, t, j)
  }

  // ...every command for a table made one...
  ghost predicate Made(from: nat, commands: seq<Command>, s: State, j: nat) {
    exists u :: from <= u < |s.remote| && Came(commands, s.created, s.remote[u], j)
  }

  // ...and only commands record an id.
  ghost predicate Named(commands: seq<Command>, key: string) {
    exists j :: 0 <= j < |commands| && commands[j].NewTable? && commands[j].key == key
  }

  ghost predicate AllCame(from: nat, commands: seq<Command>, s: State) {
    forall u | from <= u < |s.remote| :: SomeCame(commands, s.created, s.remote[u])
  }

  ghost predicate AllMade(from: nat, commands: seq<Command>, s: State) {
    forall j | 0 <= j < |commands| && commands[j].NewTable? :: Made(from, commands, s, j)
  }

  ghost predicate OnlyNamed(commands: seq<Command>, s: State) { forall key <- s.created :: Named(commands, key) }

  ghost predicate FreshIds(s: State) { UniqueIds(s.remote) && forall t | 0 <= t < |s.remote| :: s.remote[t].id < s.nextId }

  ghost predicate DistinctTables(commands: seq<Command>) {
    forall i, j | 0 <= i < j < |commands| && commands[i].NewTable? && commands[j].NewTable? :: commands[i].key != commands[j].key
  }

  ghost predicate OldIdsOnly(commands: seq<Command>, next: nat) {
    forall j | 0 <= j < |commands| && commands[j].NewField? :: commands[j].id < next
  }

  lemma {:induction false} RunIds(s: State, commands: seq<Command>)
    requires FreshIds(s)
    ensures var r := Run(s, commands);
      FreshIds(r) && s.nextId <= r.nextId && |s.remote| <= |r.remote|
      && forall u | |s.remote| <= u < |r.remote| :: s.nextId <= r.remote[u].id
    decreases |commands|
  {
    if commands != [] { RunIds(s, commands[..|commands| - 1]); }
  }

  lemma {:induction false} RunOld(s: State, commands: seq<Command>)
    requires FreshIds(s) && OldIdsOnly(commands, s.nextId)
    ensures OldTables(s.remote, commands, Run(s, commands))
    decreases |commands|
  {
    if commands != [] {
      RunIds(s, commands[..|commands| - 1]);
      RunOld(s, commands[..|commands| - 1]);
    }
  }

  lemma {:induction false} RunNew(s: State, commands: seq<Command>)
    requires FreshIds(s) && OldIdsOnly(commands, s.nextId) && DistinctTables(commands) && s.created == map[]
    ensures var r := Run(s, commands);
      AllCame(|s.remote|, commands, r) && AllMade(|s.remote|, commands, r) && OnlyNamed(commands, r)
    decreases |commands|
  {
    if commands != [] {
      var n := |commands| - 1;
      var before := Run(s, commands[..n]);
      RunIds(s, commands[..n]);
      RunNew(s, commands[..n]);
      NamedStep(commands, before);
      forall j, u | |s.remote| <= u < |before.remote| && Came(commands[..n], before.created, before.remote[u], j)
        ensures Came(commands, Execute(before, commands[n]).created, Execute(before, commands[n]).remote[u], j)
      {
        CameStep(commands, before, u, j, s.nextId);
      }
      AllCameStep(|s.remote|, commands, before);
      AllMadeStep(|s.remote|, commands, before);
    }
  }

  lemma {:induction false} NamedStep(commands: seq<Command>, s: State)
    requires commands != [] && OnlyNamed(commands[..|commands| - 1], s)
    ensures OnlyNamed(commands, Execute(s, commands[|commands| - 1]))
  {
    var n := |commands| - 1;
    forall key <- Execute(s, commands[n]).created ensures Named(commands, key) {
      if key in s.created {
        var j :| 0 <= j < n && commands[..n][j].NewTable? && commands[..n][j].key == key;
        assert commands[j].key == key;
      } else {
        assert commands[n].key == key;
      }
    }
  }

  lemma {:induction false} CameStep(commands: seq<Command>, s: State, u: nat, j: nat, next: nat)
    requires commands != [] && DistinctTables(commands) && OldIdsOnly(commands, next)
    requires u < |s.remote| && next <= s.remote[u].id
    requires Came(commands[..|commands| - 1], s.created, s.remote[u], j)
    ensures var r := Execute(s, commands[|commands| - 1]); Came(commands, r.created, r.remote[u], j)
  {
    assert commands[..|commands| - 1][j] == commands[j];
  }

  lemma {:induction false} AllCameStep(from: nat, commands: seq<Command>, s: State)
    requires commands != [] && from <= |s.remote| && AllCame(from, commands[..|commands| - 1], s)
    requires var n := |commands| - 1; var r := Execute(s, commands[n]);
      forall j, u | from <= u < |s.remote| && Came(commands[..n], s.created, s.remote[u], j) ::
        Came(commands, r.created, r.remote[u], j)
    ensures AllCame(from, commands, Execute(s, commands[|commands| - 1]))
  {
    var n := |commands| - 1;
    var r := Execute(s, commands[n]);
    forall u | from <= u < |r.remote| ensures SomeCame(commands, r.created, r.remote[u]) {
      if u < |s.remote| {
        assert SomeCame(commands[..n], s.created, s.remote[u]);
        var j :| Came(commands[..n], s.created, s.remote[u], j);
      } else {
        assert Came(commands, r.created, r.remote[u], n);
      }
    }
  }

  lemma {:induction false} AllMadeStep(from: nat, commands: seq<Command>, s: State)
    requires commands != [] && from <= |s.remote| && AllMade(from, commands[..|commands| - 1], s)
    requires var n := |commands| - 1; var r := Execute(s, commands[n]);
      forall j, u | from <= u < |s.remote| && Came(commands[..n], s.created, s.remote[u], j) ::
        Came(commands, r.created, r.remote[u], j)
    ensures AllMade(from, commands, Execute(s, commands[|commands| - 1]))
  {
    var n := |commands| - 1;
    var r := Execute(s, commands[n]);
    forall j | 0 <= j < |commands| && commands[j].NewTable? ensures Made(from, commands, r, j) {
      if j < n {
        assert commands[..n][j] == commands[j] && Made(from, commands[..n], s, j);
        var u :| from <= u < |s.remote| && Came(commands[..n], s.created, s.remote[u], j);
      } else {
        assert Came(commands, r.created, r.remote[|s.remote|], n);
      }
    }
  }
}
