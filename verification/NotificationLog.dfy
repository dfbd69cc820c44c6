// Planning and applying the Notification Log schema: one table, its fields and its views, created
// additively against a remote base that any earlier run may have left half done.
module NotificationLog {
  import opened Wrappers

  // The contract --------------------------------------------------------------------------------

  datatype FieldSpec = FieldSpec(name: string, kind: nat, options: Option<seq<string>>)

  // A view filter is decided by its rule and the identities of the fields the rule names.
  datatype Rule = Rule(text: string, needs: seq<string>)
  datatype ViewSpec = ViewSpec(name: string, rule: Option<Rule>)
  datatype Contract = Contract(fields: seq<FieldSpec>, views: seq<ViewSpec>, defaultView: string)

  ghost predicate ValidContract(c: Contract) {
    && c.fields != []
    && (forall i, j | 0 <= i < j < |c.fields| :: c.fields[i].name != c.fields[j].name)
    && (forall i, j | 0 <= i < j < |c.views| :: c.views[i].name != c.views[j].name)
    && (exists i | 0 <= i < |c.views| :: c.views[i].name == c.defaultView)
    && (forall i | 0 <= i < |c.views| :: c.views[i].rule.Some? ==>
          forall n <- c.views[i].rule.value.needs :: exists k | 0 <= k < |c.fields| :: c.fields[k].name == n)
  }

  // The remote base -----------------------------------------------------------------------------

  datatype Field = Field(id: nat, name: string, kind: nat, primary: bool, options: seq<string>)
  datatype Filter = NoFilter | Conditions(rule: string, ids: seq<nat>)
  datatype View = View(name: string, filter: Filter)
  datatype Table = Table(fields: seq<Field>, views: seq<View>)

  // The tables of the approved name, and how many have the legacy name. Other tables play no part.
  datatype Base = Base(named: seq<Table>, legacy: nat, nextId: nat)

  datatype Error =
    | TableDuplicate | LegacyTable | UnacceptedField | FieldDuplicate | PrimaryMissing | FieldConflict
    | UnacceptedView | ViewDuplicate | FilterFieldMissing | FilterConflict
    | RequestLimitExceeded | VerificationFailed

  function FieldsNamed(fields: seq<Field>, name: string): seq<Field> {
    if fields == [] then [] else (if fields[0].name == name then [fields[0]] else []) + FieldsNamed(fields[1..], name)
  }

  function ViewsNamed(views: seq<View>, name: string): seq<View> {
    if views == [] then [] else (if views[0].name == name then [views[0]] else []) + ViewsNamed(views[1..], name)
  }

  predicate FieldExpected(c: Contract, name: string) { exists i | 0 <= i < |c.fields| :: c.fields[i].name == name }
  predicate ViewExpected(c: Contract, name: string) { exists i | 0 <= i < |c.views| :: c.views[i].name == name }

  predicate FieldMatches(f: Field, spec: FieldSpec, primary: bool) {
    f.kind == spec.kind && (primary ==> f.primary)
    && (spec.options.Some? ==> multiset(f.options) == multiset(spec.options.value))
  }

  // The identities of the fields a rule names, each of which must be there exactly once.
  function Ids(fields: seq<Field>, needs: seq<string>): Option<seq<nat>> {
    if needs == [] then Some([]) else
    var found := FieldsNamed(fields, needs[0]);
    var rest := Ids(fields, needs[1..]);
    if |found| != 1 || rest.None? then None else Some([found[0].id] + rest.value)
  }

  function Expected(spec: ViewSpec, fields: seq<Field>): Option<Filter> {
    if spec.rule.None? then Some(NoFilter) else
    var ids := Ids(fields, spec.rule.value.needs);
    if ids.None? then None else Some(Conditions(spec.rule.value.text, ids.value))
  }

  // Planning --------------------------------------------------------------------------------------

  datatype ViewState = Create | Configure | Complete
  datatype Plan = CreateTable | Existing(table: Table, fieldActions: seq<FieldSpec>, viewStates: seq<ViewState>)

  predicate FieldAccepted(c: Contract, fields: seq<Field>, i: nat)
    requires i < |c.fields|
  {
    var found := FieldsNamed(fields, c.fields[i].name);
    if found == [] then i != 0 else |found| == 1 && FieldMatches(found[0], c.fields[i], i == 0)
  }

  ghost predicate FieldsAccepted(c: Contract, fields: seq<Field>) {
    && (forall k | 0 <= k < |fields| :: FieldExpected(c, fields[k].name))
    && (forall i | 0 <= i < |c.fields| :: FieldAccepted(c, fields, i))
  }

  predicate ViewAccepted(spec: ViewSpec, t: Table) {
    var found := ViewsNamed(t.views, spec.name);
    found == [] || (|found| == 1 && Expected(spec, t.fields).Some?
                    && (found[0].filter == NoFilter || Some(found[0].filter) == Expected(spec, t.fields)))
  }

  ghost predicate ViewsAccepted(c: Contract, t: Table) {
    && (forall k | 0 <= k < |t.views| :: ViewExpected(c, t.views[k].name))
    && (forall i | 0 <= i < |c.views| :: ViewAccepted(c.views[i], t))
  }

  // The states the planner does not refuse.
  ghost predicate Accepted(c: Contract, base: Base) {
    base.legacy == 0 && |base.named| <= 1
    && (base.named != [] ==> FieldsAccepted(c, base.named[0].fields) && ViewsAccepted(c, base.named[0]))
  }

  function MissingFields(specs: seq<FieldSpec>, fields: seq<Field>): seq<FieldSpec> {
    if specs == [] then []
    else (if FieldsNamed(fields, specs[0].name) == [] then [specs[0]] else []) + MissingFields(specs[1..], fields)
  }

  function StateOf(spec: ViewSpec, t: Table): ViewState {
    var found := ViewsNamed(t.views, spec.name);
    if found == [] then Create else if Some(found[0].filter) == Expected(spec, t.fields) then Complete else Configure
  }

  function StatesOf(specs: seq<ViewSpec>, t: Table): (r: seq<ViewState>)
    ensures |r| == |specs| && forall i | 0 <= i < |r| :: r[i] == StateOf(specs[i], t)
  {
    seq(|specs|, i requires 0 <= i < |specs| => StateOf(specs[i], t))
  }

  ghost predicate ZeroDrift(c: Contract, base: Base) {
    && Accepted(c, base) && base.named != []
    && MissingFields(c.fields, base.named[0].fields) == []
    && forall i | 0 <= i < |c.views| :: StateOf(c.views[i], base.named[0]) == Complete
  }

  // One read of a view per contract view that is there.
  function PlanReads(specs: seq<ViewSpec>, t: Table): (n: nat)
    ensures n <= |specs|
  {
    if specs == [] then 0
    else (if ViewsNamed(t.views, specs[0].name) == [] then 0 else 1) + PlanReads(specs[1..], t)
  }

  // What apply does, request by request ------------------------------------------------------------

  datatype Write = TableWrite | FieldWrite(name: string) | ViewWrite(name: string) | FilterWrite(name: string)

  function NewField(id: nat, spec: FieldSpec, primary: bool): Field {
    Field(id, spec.name, spec.kind, primary, if spec.options.Some? then spec.options.value else [])
  }

  function NewFields(specs: seq<FieldSpec>, id: nat, first: bool): seq<Field> {
    if specs == [] then [] else [NewField(id, specs[0], first)] + NewFields(specs[1..], id + 1, false)
  }

  function AddTable(c: Contract, base: Base): Base {
    Base(base.named + [Table(NewFields(c.fields, base.nextId, true), [View(c.defaultView, NoFilter)])], base.legacy,
         base.nextId + |c.fields|)
  }

  function AddField(base: Base, spec: FieldSpec): Base
    requires base.named != []
  {
    var t := base.named[0];
    Base([t.(fields := t.fields + [NewField(base.nextId, spec, false)])] + base.named[1..], base.legacy, base.nextId + 1)
  }

  function AddView(t: Table, name: string): Table { t.(views := t.views + [View(name, NoFilter)]) }

  function Filtered(views: seq<View>, name: string, filter: Filter): seq<View> {
    if views == [] then []
    else [if views[0].name == name then View(name, filter) else views[0]] + Filtered(views[1..], name, filter)
  }

  function SetFilter(t: Table, name: string, filter: Filter): Table { t.(views := Filtered(t.views, name, filter)) }

  function WithTable(base: Base, t: Table): Base { base.(named := [t]) }

  // One view of the apply loop: the table after its requests, the requests, and the reads they take,
  // those of the following plan included.
  function ApplyView(c: Contract, spec: ViewSpec, state: ViewState, t: Table): (Table, seq<Write>, nat) {
    if state == Complete then (t, [], 0) else
    var created := if state == Create then AddView(t, spec.name) else t;
    var writes := if state == Create then [ViewWrite(spec.name)] else [];
    var expected := Expected(spec, t.fields);
    if spec.rule.None? || expected.None? then (created, writes, PlanReads(c.views, created)) else
    var done := SetFilter(created, spec.name, expected.value);
    (done, writes + [FilterWrite(spec.name)], 1 + PlanReads(c.views, done))
  }

  function ApplyViews(c: Contract, specs: seq<ViewSpec>, states: seq<ViewState>, t: Table): (Table, seq<Write>, nat)
    requires |states| == |specs|
  {
    if specs == [] then (t, [], 0) else
    var first := ApplyView(c, specs[0], states[0], t);
    var rest := ApplyViews(c, specs[1..], states[1..], first.0);
    (rest.0, first.1 + rest.1, first.2 + rest.2)
  }

  // Facts about names ---------------------------------------------------------------------------------

  lemma {:induction false} FieldsNamedAppend(fields: seq<Field>, f: Field, name: string)
    ensures FieldsNamed(fields + [f], name) == FieldsNamed(fields, name) + if f.name == name then [f] else []
  {
    var all, last := fields + [f], if f.name == name then [f] else [];
    if fields == [] {
      assert all == [f] && all[1..] == [];
    } else {
      FieldsNamedAppend(fields[1..], f, name);
      assert all[0] == fields[0] && all[1..] == fields[1..] + [f];
      var first := if fields[0].name == name then [fields[0]] else [];
      assert first + (FieldsNamed(fields[1..], name) + last) == (first + FieldsNamed(fields[1..], name)) + last;
    }
  }

  lemma {:induction false} ViewsNamedAppend(views: seq<View>, v: View, name: string)
    ensures ViewsNamed(views + [v], name) == ViewsNamed(views, name) + if v.name == name then [v] else []
  {
    var all, last := views + [v], if v.name == name then [v] else [];
    if views == [] {
      assert all == [v] && all[1..] == [];
    } else {
      ViewsNamedAppend(views[1..], v, name);
      assert all[0] == views[0] && all[1..] == views[1..] + [v];
      var first := if views[0].name == name then [views[0]] else [];
      assert first + (ViewsNamed(views[1..], name) + last) == (first + ViewsNamed(views[1..], name)) + last;
    }
  }

  lemma {:induction false} ViewsNamedFiltered(views: seq<View>, name: string, filter: Filter, other: string)
    ensures |ViewsNamed(Filtered(views, name, filter), other)| == |ViewsNamed(views, other)|
    ensures other != name ==> ViewsNamed(Filtered(views, name, filter), other) == ViewsNamed(views, other)
    ensures other == name ==> forall i | 0 <= i < |ViewsNamed(views, name)| ::
      ViewsNamed(Filtered(views, name, filter), name)[i].filter == filter
  {
    if views != [] { ViewsNamedFiltered(views[1..], name, filter, other); }
  }

  lemma {:induction false} FilteredNames(views: seq<View>, name: string, filter: Filter)
    ensures |Filtered(views, name, filter)| == |views|
    ensures forall i | 0 <= i < |views| :: Filtered(views, name, filter)[i].name == views[i].name
  {
    if views != [] { FilteredNames(views[1..], name, filter); }
  }

  // A new field that no rule could use before changes no filter that could be built.
  lemma {:induction false} IdsKept(fields: seq<Field>, f: Field, needs: seq<string>)
    requires Ids(fields, needs).Some? && FieldsNamed(fields, f.name) == []
    ensures Ids(fields + [f], needs) == Ids(fields, needs)
  {
    if needs != [] {
      FieldsNamedAppend(fields, f, needs[0]);
      IdsKept(fields, f, needs[1..]);
    }
  }

  lemma {:induction false} AllIdsFound(c: Contract, fields: seq<Field>, needs: seq<string>)
    requires forall i | 0 <= i < |c.fields| :: |FieldsNamed(fields, c.fields[i].name)| == 1
    requires forall n <- needs :: FieldExpected(c, n)
    ensures Ids(fields, needs).Some?
  {
    if needs != [] {
      assert FieldExpected(c, needs[0]);
      AllIdsFound(c, fields, needs[1..]);
    }
  }

  lemma {:induction false} MissingHas(specs: seq<FieldSpec>, fields: seq<Field>, i: nat)
    requires i < |specs|
    ensures FieldsNamed(fields, specs[i].name) == [] ==> specs[i] in MissingFields(specs, fields)
  {
    if i > 0 { MissingHas(specs[1..], fields, i - 1); }
  }

  // Every request leaves an accepted state --------------------------------------------------------------

  lemma {:induction false} NewFieldsAt(specs: seq<FieldSpec>, id: nat, first: bool)
    ensures |NewFields(specs, id, first)| == |specs|
    ensures forall i | 0 <= i < |specs| :: NewFields(specs, id, first)[i].name == specs[i].name
  {
    if specs != [] { NewFieldsAt(specs[1..], id + 1, false); }
  }

  lemma {:induction false} NewFieldsAbsent(specs: seq<FieldSpec>, id: nat, first: bool, name: string)
    requires forall i | 0 <= i < |specs| :: specs[i].name != name
    ensures FieldsNamed(NewFields(specs, id, first), name) == []
  {
    if specs != [] { NewFieldsAbsent(specs[1..], id + 1, false, name); }
  }

  lemma {:induction false} NewFieldsNamed(specs: seq<FieldSpec>, id: nat, first: bool, i: nat)
    requires i < |specs| && forall a, b | 0 <= a < b < |specs| :: specs[a].name != specs[b].name
    ensures FieldsNamed(NewFields(specs, id, first), specs[i].name) == [NewField(id + i, specs[i], first && i == 0)]
  {
    if i == 0 {
      NewFieldsAbsent(specs[1..], id + 1, false, specs[0].name);
    } else {
      NewFieldsNamed(specs[1..], id + 1, false, i - 1);
    }
  }

  lemma {:induction false} NewTableFields(c: Contract, id: nat)
    requires ValidContract(c)
    ensures FieldsAccepted(c, NewFields(c.fields, id, true))
    ensures forall i | 0 <= i < |c.fields| :: |FieldsNamed(NewFields(c.fields, id, true), c.fields[i].name)| == 1
  {
    var fields := NewFields(c.fields, id, true);
    NewFieldsAt(c.fields, id, true);
    forall i | 0 <= i < |c.fields|
      ensures FieldAccepted(c, fields, i) && |FieldsNamed(fields, c.fields[i].name)| == 1
    {
      NewFieldsNamed(c.fields, id, true, i);
    }
    forall k | 0 <= k < |fields| ensures FieldExpected(c, fields[k].name) {
      assert c.fields[k].name == fields[k].name;
    }
  }

  lemma {:induction false} AddTableAccepted(c: Contract, base: Base)
    requires ValidContract(c) && Accepted(c, base) && base.named == []
    ensures Accepted(c, AddTable(c, base)) && MissingFields(c.fields, AddTable(c, base).named[0].fields) == []
  {
    var t := AddTable(c, base).named[0];
    NewTableFields(c, base.nextId);
    NoneMissing(c.fields, t.fields);
    forall i | 0 <= i < |c.views| ensures ViewAccepted(c.views[i], t) {
      assert t.views[1..] == [];
      RuleReady(c, t.fields, i);
    }
    forall k | 0 <= k < |t.views| ensures ViewExpected(c, t.views[k].name) {
      var i :| 0 <= i < |c.views| && c.views[i].name == c.defaultView;
    }
  }

  lemma {:induction false} NoneMissing(specs: seq<FieldSpec>, fields: seq<Field>)
    requires forall i | 0 <= i < |specs| :: FieldsNamed(fields, specs[i].name) != []
    ensures MissingFields(specs, fields) == []
  {
    if specs != [] { NoneMissing(specs[1..], fields); }
  }

  // With every field there once, every view filter can be built.
  lemma {:induction false} RuleReady(c: Contract, fields: seq<Field>, i: nat)
    requires ValidContract(c) && i < |c.views|
    requires forall k | 0 <= k < |c.fields| :: |FieldsNamed(fields, c.fields[k].name)| == 1
    ensures Expected(c.views[i], fields).Some?
  {
    if c.views[i].rule.Some? {
      forall n <- c.views[i].rule.value.needs ensures FieldExpected(c, n) {
        var k :| 0 <= k < |c.fields| && c.fields[k].name == n;
      }
      AllIdsFound(c, fields, c.views[i].rule.value.needs);
    }
  }

  lemma {:induction false} FieldKeepsView(spec: ViewSpec, t: Table, f: Field)
    requires ViewAccepted(spec, t) && FieldsNamed(t.fields, f.name) == []
    ensures var u := t.(fields := t.fields + [f]);
      ViewAccepted(spec, u) && (StateOf(spec, t) != Create ==> StateOf(spec, u) == StateOf(spec, t))
  {
    if ViewsNamed(t.views, spec.name) != [] && spec.rule.Some? { IdsKept(t.fields, f, spec.rule.value.needs); }
  }

  lemma {:induction false} AddedFieldsAccepted(c: Contract, fields: seq<Field>, f: Field, i: nat)
    requires ValidContract(c) && FieldsAccepted(c, fields) && i < |c.fields|
    requires FieldsNamed(fields, c.fields[i].name) == [] && f == NewField(f.id, c.fields[i], false)
    ensures FieldsAccepted(c, fields + [f])
  {
    assert FieldAccepted(c, fields, i);
    forall k | 0 <= k < |fields + [f]| ensures FieldExpected(c, (fields + [f])[k].name) {
      if k == |fields| { assert c.fields[i].name == f.name; }
    }
    forall k | 0 <= k < |c.fields| ensures FieldAccepted(c, fields + [f], k) {
      FieldsNamedAppend(fields, f, c.fields[k].name);
      assert FieldAccepted(c, fields, k);
    }
  }

  lemma {:induction false} AddFieldAccepted(c: Contract, base: Base, i: nat)
    requires ValidContract(c) && Accepted(c, base) && base.named != [] && i < |c.fields|
    requires FieldsNamed(base.named[0].fields, c.fields[i].name) == []
    ensures Accepted(c, AddField(base, c.fields[i])) && AddField(base, c.fields[i]).named != []
    ensures AddField(base, c.fields[i]).named[0].views == base.named[0].views
    ensures forall j | 0 <= j < |c.views| && StateOf(c.views[j], base.named[0]) != Create ::
      StateOf(c.views[j], AddField(base, c.fields[i]).named[0]) == StateOf(c.views[j], base.named[0])
  {
    var t, u := base.named[0], AddField(base, c.fields[i]).named[0];
    var f := NewField(base.nextId, c.fields[i], false);
    AddedFieldsAccepted(c, t.fields, f, i);
    forall j | 0 <= j < |c.views|
      ensures ViewAccepted(c.views[j], u)
      ensures StateOf(c.views[j], t) != Create ==> StateOf(c.views[j], u) == StateOf(c.views[j], t)
    {
      FieldKeepsView(c.views[j], t, f);
    }
  }

  ghost predicate AllFieldsThere(c: Contract, t: Table) {
    FieldsAccepted(c, t.fields) && forall k | 0 <= k < |c.fields| :: |FieldsNamed(t.fields, c.fields[k].name)| == 1
  }

  // A table whose fields are complete and whose views are acceptable.
  ghost predicate Ready(c: Contract, t: Table) {
    AllFieldsThere(c, t) && ViewsAccepted(c, t)
  }

  // A base of one table with all its fields and acceptable views.
  ghost predicate Steady(c: Contract, base: Base) { |base.named| == 1 && base.legacy == 0 && Ready(c, base.named[0]) }

  lemma {:induction false} SteadyAccepted(c: Contract, base: Base)
    requires Steady(c, base)
    ensures Accepted(c, base) && MissingFields(c.fields, base.named[0].fields) == []
  {
    NoneMissing(c.fields, base.named[0].fields);
  }

  lemma {:induction false} AddViewReady(c: Contract, t: Table, i: nat)
    requires ValidContract(c) && Ready(c, t) && i < |c.views| && StateOf(c.views[i], t) == Create
    ensures Ready(c, AddView(t, c.views[i].name))
    ensures forall j | 0 <= j < |c.views| && j != i :: StateOf(c.views[j], AddView(t, c.views[i].name)) == StateOf(c.views[j], t)
    ensures ViewsNamed(AddView(t, c.views[i].name).views, c.views[i].name) == [View(c.views[i].name, NoFilter)]
  {
    var name := c.views[i].name;
    var u := AddView(t, name);
    forall j | 0 <= j < |c.views|
      ensures ViewAccepted(c.views[j], u) && (j != i ==> StateOf(c.views[j], u) == StateOf(c.views[j], t))
    {
      ViewsNamedAppend(t.views, View(name, NoFilter), c.views[j].name);
      assert ViewAccepted(c.views[j], t);
      RuleReady(c, t.fields, j);
      if j < i { assert c.views[j].name != c.views[i].name; }
    }
    ViewsNamedAppend(t.views, View(name, NoFilter), name);
    assert ViewAccepted(c.views[i], t);
    forall k | 0 <= k < |u.views| ensures ViewExpected(c, u.views[k].name) {
      if k == |t.views| { assert c.views[i].name == name; }
    }
  }

  lemma {:induction false} SetFilterReady(c: Contract, t: Table, i: nat)
    requires ValidContract(c) && Ready(c, t) && i < |c.views| && ViewsNamed(t.views, c.views[i].name) != []
    ensures Expected(c.views[i], t.fields).Some?
    ensures var u := SetFilter(t, c.views[i].name, Expected(c.views[i], t.fields).value);
      && Ready(c, u) && StateOf(c.views[i], u) == Complete
      && forall j | 0 <= j < |c.views| && j != i :: StateOf(c.views[j], u) == StateOf(c.views[j], t)
  {
    RuleReady(c, t.fields, i);
    var name, filter := c.views[i].name, Expected(c.views[i], t.fields).value;
    var u := SetFilter(t, name, filter);
    assert ViewAccepted(c.views[i], t);
    ViewsNamedFiltered(t.views, name, filter, name);
    forall j | 0 <= j < |c.views|
      ensures ViewAccepted(c.views[j], u) && (j != i ==> StateOf(c.views[j], u) == StateOf(c.views[j], t))
    {
      ViewsNamedFiltered(t.views, name, filter, c.views[j].name);
      assert ViewAccepted(c.views[j], t);
      if j < i { assert c.views[j].name != c.views[i].name; }
    }
    FilteredNames(t.views, name, filter);
    forall k | 0 <= k < |u.views| ensures ViewExpected(c, u.views[k].name) {
      assert ViewExpected(c, t.views[k].name);
    }
  }

  // What one view of the apply loop comes to: its requests, and a table whose other views are as they were.
  ghost predicate Completes(c: Contract, t: Table, u: Table, i: nat) {
    && i < |c.views| && Ready(c, u) && u.fields == t.fields && StateOf(c.views[i], u) == Complete
    && forall j | 0 <= j < |c.views| && j != i :: StateOf(c.views[j], u) == StateOf(c.views[j], t)
  }

  lemma {:induction false} ConfigureCompletes(c: Contract, t: Table, i: nat)
    requires ValidContract(c) && Ready(c, t) && i < |c.views| && StateOf(c.views[i], t) == Configure
    ensures var step := ApplyView(c, c.views[i], Configure, t);
      Completes(c, t, step.0, i) && step.1 == ViewNeeds(c.views[i], Configure) && step.2 <= 1 + |c.views|
  {
    assert ViewAccepted(c.views[i], t);
    SetFilterReady(c, t, i);
  }

  lemma {:induction false} CreateCompletes(c: Contract, t: Table, i: nat)
    requires ValidContract(c) && Ready(c, t) && i < |c.views| && StateOf(c.views[i], t) == Create
    ensures var step := ApplyView(c, c.views[i], Create, t);
      Completes(c, t, step.0, i) && step.1 == ViewNeeds(c.views[i], Create) && step.2 <= 1 + |c.views|
  {
    RuleReady(c, t.fields, i);
    AddViewReady(c, t, i);
    var u := AddView(t, c.views[i].name);
    if c.views[i].rule.Some? {
      SetFilterReady(c, u, i);
    } else {
      assert StateOf(c.views[i], u) == Complete;
    }
  }

  // One view of the apply loop completes that view and touches no other.
  lemma {:induction false} ApplyViewCompletes(c: Contract, t: Table, i: nat)
    requires ValidContract(c) && Ready(c, t) && i < |c.views|
    ensures Completes(c, t, ApplyView(c, c.views[i], StateOf(c.views[i], t), t).0, i)
    ensures ApplyView(c, c.views[i], StateOf(c.views[i], t), t).1 == ViewNeeds(c.views[i], StateOf(c.views[i], t))
    ensures ApplyView(c, c.views[i], StateOf(c.views[i], t), t).2 <= 1 + |c.views|
  {
    match StateOf(c.views[i], t)
    case Complete =>
    case Configure => ConfigureCompletes(c, t, i);
    case Create => CreateCompletes(c, t, i);
  }

  lemma {:induction false} ApplyViewsStep(c: Contract, t: Table, states: seq<ViewState>, from: nat)
    requires from < |c.views| == |states|
    ensures var first := ApplyView(c, c.views[from], states[from], t);
      var rest := ApplyViews(c, c.views[from + 1..], states[from + 1..], first.0);
      ApplyViews(c, c.views[from..], states[from..], t) == (rest.0, first.1 + rest.1, first.2 + rest.2)
  {
    assert c.views[from..][1..] == c.views[from + 1..] && states[from..][1..] == states[from + 1..];
  }

  ghost predicate CompleteUpTo(c: Contract, t: Table, n: nat)
    requires n <= |c.views|
  {
    forall j | 0 <= j < n :: StateOf(c.views[j], t) == Complete
  }

  ghost predicate StatesFrom(c: Contract, t: Table, states: seq<ViewState>, from: nat)
    requires |states| == |c.views|
  {
    forall j | from <= j < |c.views| :: StateOf(c.views[j], t) == states[j]
  }

  // What the apply loop over the views from index `from` on comes to.
  ghost predicate Settles(c: Contract, t: Table, states: seq<ViewState>, from: nat, r: (Table, seq<Write>, nat))
    requires from <= |c.views| == |states|
  {
    && Ready(c, r.0) && r.0.fields == t.fields && CompleteUpTo(c, r.0, |c.views|)
    && r.1 == AllViewNeeds(c.views[from..], states[from..])
    && r.2 <= (|c.views| - from) * (1 + |c.views|)
  }

  lemma {:induction false} TimesOneMore(k: nat, n: nat)
    ensures (k + 1) * n == k * n + n
  {
  }

  lemma {:induction false} SettlesStep(c: Contract, t: Table, u: Table, states: seq<ViewState>, from: nat, n: nat,
                    rest: (Table, seq<Write>, nat))
    requires from < |c.views| == |states| && u.fields == t.fields && n <= 1 + |c.views|
    requires Settles(c, u, states, from + 1, rest)
    ensures Settles(c, t, states, from, (rest.0, ViewNeeds(c.views[from], states[from]) + rest.1, n + rest.2))
  {
    assert c.views[from..][1..] == c.views[from + 1..] && states[from..][1..] == states[from + 1..];
    TimesOneMore(|c.views| - from - 1, 1 + |c.views|);
  }

  lemma {:induction false} ApplyViewsCompletes(c: Contract, t: Table, states: seq<ViewState>, from: nat)
    requires ValidContract(c) && Ready(c, t) && from <= |c.views| == |states|
    requires CompleteUpTo(c, t, from) && StatesFrom(c, t, states, from)
    ensures Settles(c, t, states, from, ApplyViews(c, c.views[from..], states[from..], t))
    decreases |c.views| - from
  {
    if from < |c.views| {
      ApplyViewCompletes(c, t, from);
      var first := ApplyView(c, c.views[from], states[from], t);
      ApplyViewsStep(c, t, states, from);
      ApplyViewsCompletes(c, first.0, states, from + 1);
      SettlesStep(c, t, first.0, states, from, first.2, ApplyViews(c, c.views[from + 1..], states[from + 1..], first.0));
    }
  }

  // Filling in the missing fields -------------------------------------------------------------------

  function AddFields(base: Base, specs: seq<FieldSpec>): (r: Base)
    requires base.named != []
    ensures r.named != [] && r.named[0].views == base.named[0].views
    decreases |specs|
  {
    if specs == [] then base else AddFields(AddField(base, specs[0]), specs[1..])
  }

  // The first missing field is one of the contract, and creating it leaves the others missing.
  lemma {:induction false} FirstMissing(specs: seq<FieldSpec>, fields: seq<Field>, f: Field) returns (i: nat)
    requires MissingFields(specs, fields) != [] && f.name == MissingFields(specs, fields)[0].name
    requires forall a, b | 0 <= a < b < |specs| :: specs[a].name != specs[b].name
    ensures i < |specs| && specs[i] == MissingFields(specs, fields)[0] && FieldsNamed(fields, specs[i].name) == []
    ensures MissingFields(specs, fields + [f]) == MissingFields(specs, fields)[1..]
  {
    FieldsNamedAppend(fields, f, specs[0].name);
    if FieldsNamed(fields, specs[0].name) == [] {
      i := 0;
      MissingUnchanged(specs[1..], fields, f);
    } else {
      var k := FirstMissing(specs[1..], fields, f);
      i := k + 1;
    }
  }

  lemma {:induction false} MissingUnchanged(specs: seq<FieldSpec>, fields: seq<Field>, f: Field)
    requires forall i | 0 <= i < |specs| :: specs[i].name != f.name
    ensures MissingFields(specs, fields + [f]) == MissingFields(specs, fields)
  {
    if specs != [] {
      FieldsNamedAppend(fields, f, specs[0].name);
      MissingUnchanged(specs[1..], fields, f);
    }
  }

  // One field creation from an accepted base: accepted again, one field fewer to create.
  lemma {:induction false} FieldStep(c: Contract, base: Base)
    requires ValidContract(c) && Accepted(c, base) && base.named != []
    requires MissingFields(c.fields, base.named[0].fields) != []
    ensures var missing := MissingFields(c.fields, base.named[0].fields);
      var next := AddField(base, missing[0]);
      && Accepted(c, next) && MissingFields(c.fields, next.named[0].fields) == missing[1..]
      && StatesOf(c.views, next.named[0]) == StatesOf(c.views, base.named[0])
  {
    var missing := MissingFields(c.fields, base.named[0].fields);
    var i := FirstMissing(c.fields, base.named[0].fields, NewField(base.nextId, missing[0], false));
    AddFieldAccepted(c, base, i);
  }

  lemma {:induction false} NothingMissing(c: Contract, base: Base)
    requires Accepted(c, base) && base.named != [] && MissingFields(c.fields, base.named[0].fields) == []
    ensures Ready(c, base.named[0])
  {
    var t := base.named[0];
    forall k | 0 <= k < |c.fields| ensures |FieldsNamed(t.fields, c.fields[k].name)| == 1 {
      assert FieldAccepted(c, t.fields, k);
      MissingHas(c.fields, t.fields, k);
    }
  }

  lemma {:induction false} FieldsFill(c: Contract, base: Base)
    requires ValidContract(c) && Accepted(c, base) && base.named != []
    ensures var done := AddFields(base, MissingFields(c.fields, base.named[0].fields));
      Accepted(c, done) && Ready(c, done.named[0]) && StatesOf(c.views, done.named[0]) == StatesOf(c.views, base.named[0])
    decreases |MissingFields(c.fields, base.named[0].fields)|
  {
    var missing := MissingFields(c.fields, base.named[0].fields);
    if missing == [] {
      NothingMissing(c, base);
    } else {
      FieldStep(c, base);
      FieldsFill(c, AddField(base, missing[0]));
    }
  }

  // The whole run -------------------------------------------------------------------------------------

  function PlanReadsOf(c: Contract, base: Base): nat {
    if base.named == [] then 0 else PlanReads(c.views, base.named[0])
  }

  function PlanOf(c: Contract, base: Base): Plan {
    if base.named == [] then CreateTable
    else Existing(base.named[0], MissingFields(c.fields, base.named[0].fields), StatesOf(c.views, base.named[0]))
  }

  predicate NothingToDo(plan: Plan) {
    plan.Existing? && plan.fieldActions == [] && forall i | 0 <= i < |plan.viewStates| :: plan.viewStates[i] == Complete
  }

  function Started(c: Contract, base: Base): (r: Base)
    ensures r.named != []
  {
    if base.named == [] then AddTable(c, base) else base
  }

  function Filled(c: Contract, base: Base): (r: Base)
    requires base.named != []
    ensures r.named != [] && r.named[0].views == base.named[0].views
  {
    AddFields(base, MissingFields(c.fields, base.named[0].fields))
  }

  // The loop over the views, once the fields are there.
  function Configured(c: Contract, filled: Base): (Table, seq<Write>, nat)
    requires filled.named != []
  {
    ApplyViews(c, c.views, StatesOf(c.views, filled.named[0]), filled.named[0])
  }

  // The run of a table that needs something: its end and the view reads it makes.
  function Completed(c: Contract, start: Base): Base
    requires start.named != []
  {
    WithTable(Filled(c, start), Configured(c, Filled(c, start)).0)
  }

  function CompletingReads(c: Contract, start: Base): nat
    requires start.named != []
  {
    var filled := Filled(c, start);
    PlanReadsOf(c, filled) + Configured(c, filled).2 + PlanReadsOf(c, Completed(c, start))
  }

  // The base after any run, and the view reads it makes.
  function Final(c: Contract, base: Base): Base {
    var start := Started(c, base);
    if NothingToDo(PlanOf(c, start)) then start else Completed(c, start)
  }

  function StartReads(c: Contract, base: Base): nat {
    PlanReadsOf(c, base) + if base.named == [] then PlanReadsOf(c, Started(c, base)) else 0
  }

  function Reads(c: Contract, base: Base): nat {
    var start := Started(c, base);
    StartReads(c, base) + if NothingToDo(PlanOf(c, start)) then 0 else CompletingReads(c, start)
  }

  // What is missing, in closed form: each request the run sends, in the order it sends them.
  function FieldNeeds(missing: seq<FieldSpec>): seq<Write> {
    seq(|missing|, i requires 0 <= i < |missing| => FieldWrite(missing[i].name))
  }

  function ViewNeeds(spec: ViewSpec, state: ViewState): seq<Write> {
    match state
    case Complete => []
    case Configure => [FilterWrite(spec.name)]
    case Create => [ViewWrite(spec.name)] + if spec.rule.Some? then [FilterWrite(spec.name)] else []
  }

  function AllViewNeeds(specs: seq<ViewSpec>, states: seq<ViewState>): seq<Write>
    requires |specs| == |states|
  {
    if specs == [] then [] else ViewNeeds(specs[0], states[0]) + AllViewNeeds(specs[1..], states[1..])
  }

  function StartNeeds(base: Base): seq<Write> { if base.named == [] then [TableWrite] else [] }

  function CompletingNeeds(c: Contract, start: Base): seq<Write>
    requires start.named != []
  {
    FieldNeeds(MissingFields(c.fields, start.named[0].fields)) + AllViewNeeds(c.views, StatesOf(c.views, start.named[0]))
  }

  function Needed(c: Contract, base: Base): seq<Write> {
    StartNeeds(base) + CompletingNeeds(c, Started(c, base))
  }

  lemma {:induction false} StartAccepted(c: Contract, base: Base)
    requires ValidContract(c) && Accepted(c, base)
    ensures Accepted(c, Started(c, base)) && |Started(c, base).named| == 1
  {
    if base.named == [] { AddTableAccepted(c, base); }
  }

  // From every accepted base the run ends with nothing left to do, within the bound on view reads.
  lemma {:induction false} RunReachesZeroDrift(c: Contract, base: Base)
    requires ValidContract(c) && Accepted(c, base)
    ensures ZeroDrift(c, Final(c, base))
    ensures Reads(c, base) <= |c.views| * |c.views| + 4 * |c.views|
  {
    var start := Started(c, base);
    StartAccepted(c, base);
    if NothingToDo(PlanOf(c, start)) {
      IdleIsZeroDrift(c, start);
    } else {
      FieldsFill(c, start);
      var filled := Filled(c, start);
      ViewsFill(c, filled);
      assert |c.views| * (1 + |c.views|) == |c.views| * |c.views| + |c.views|;
    }
  }

  lemma {:induction false} IdleIsZeroDrift(c: Contract, base: Base)
    requires Accepted(c, base) && NothingToDo(PlanOf(c, base))
    ensures ZeroDrift(c, base)
  {
    var states := StatesOf(c.views, base.named[0]);
    forall i | 0 <= i < |c.views| ensures StateOf(c.views[i], base.named[0]) == Complete {
      assert states[i] == Complete;
    }
  }

  lemma {:induction false} LoopSettles(c: Contract, filled: Base)
    requires ValidContract(c) && filled.named != [] && Ready(c, filled.named[0])
    ensures var t, states := filled.named[0], StatesOf(c.views, filled.named[0]);
      Settles(c, t, states, 0, Configured(c, filled)) && Configured(c, filled).1 == AllViewNeeds(c.views, states)
  {
    var t, states := filled.named[0], StatesOf(c.views, filled.named[0]);
    ApplyViewsCompletes(c, t, states, 0);
    assert c.views[0..] == c.views && states[0..] == states;
  }

  lemma {:induction false} ViewsFill(c: Contract, filled: Base)
    requires ValidContract(c) && Accepted(c, filled) && filled.named != [] && Ready(c, filled.named[0])
    ensures ZeroDrift(c, WithTable(filled, Configured(c, filled).0))
    ensures Configured(c, filled).1 == AllViewNeeds(c.views, StatesOf(c.views, filled.named[0]))
    ensures Configured(c, filled).2 <= |c.views| * (1 + |c.views|)
  {
    LoopSettles(c, filled);
    CompleteIsZeroDrift(c, filled, Configured(c, filled).0);
  }

  lemma {:induction false} CompleteIsZeroDrift(c: Contract, base: Base, t: Table)
    requires base.legacy == 0 && Ready(c, t) && CompleteUpTo(c, t, |c.views|)
    ensures ZeroDrift(c, WithTable(base, t))
  {
    NoneMissing(c.fields, t.fields);
  }

  // A second run finds nothing to do and sends nothing.
  lemma {:induction false} SecondRunIsIdle(c: Contract, base: Base)
    requires ValidContract(c) && Accepted(c, base)
    ensures NothingToDo(PlanOf(c, Final(c, base))) && Needed(c, Final(c, base)) == []
    ensures Final(c, Final(c, base)) == Final(c, base)
  {
    RunReachesZeroDrift(c, base);
    var t := Final(c, base).named[0];
    NothingNeeded(c.views, StatesOf(c.views, t));
  }

  lemma {:induction false} NothingNeeded(specs: seq<ViewSpec>, states: seq<ViewState>)
    requires |specs| == |states| && forall i | 0 <= i < |states| :: states[i] == Complete
    ensures AllViewNeeds(specs, states) == []
  {
    if specs != [] { NothingNeeded(specs[1..], states[1..]); }
  }

  // Every request at most once, each for something that was not there -----------------------------------

  ghost predicate Distinct(writes: seq<Write>) { forall i, j | 0 <= i < j < |writes| :: writes[i] != writes[j] }

  lemma {:induction false} ViewNeedsHave(specs: seq<ViewSpec>, states: seq<ViewState>, w: Write)
    requires |specs| == |states|
    ensures w in AllViewNeeds(specs, states) <==> exists i :: 0 <= i < |specs| && w in ViewNeeds(specs[i], states[i])
  {
    if specs != [] {
      ViewNeedsHave(specs[1..], states[1..], w);
      if w in AllViewNeeds(specs[1..], states[1..]) {
        var i :| 0 <= i < |specs[1..]| && w in ViewNeeds(specs[1..][i], states[1..][i]);
        assert w in ViewNeeds(specs[i + 1], states[i + 1]);
      }
      if i :| 0 <= i < |specs| && w in ViewNeeds(specs[i], states[i]) && i > 0 {
        assert w in ViewNeeds(specs[1..][i - 1], states[1..][i - 1]);
      }
    }
  }

  lemma {:induction false} DistinctConcat(a: seq<Write>, b: seq<Write>)
    requires Distinct(a) && Distinct(b) && forall w <- a :: w !in b
    ensures Distinct(a + b)
  {
    forall i, j | 0 <= i < j < |a + b| ensures (a + b)[i] != (a + b)[j] {
      if i < |a| <= j {
        assert a[i] in a && b[j - |a|] in b;
      }
    }
  }

  function NameOf(w: Write): string {
    match w
    case TableWrite => ""
    case FieldWrite(name) => name
    case ViewWrite(name) => name
    case FilterWrite(name) => name
  }

  lemma {:induction false} ViewNeedsDistinct(specs: seq<ViewSpec>, states: seq<ViewState>)
    requires |specs| == |states| && forall i, j | 0 <= i < j < |specs| :: specs[i].name != specs[j].name
    ensures Distinct(AllViewNeeds(specs, states))
  {
    if specs != [] {
      ViewNeedsDistinct(specs[1..], states[1..]);
      var first, rest := ViewNeeds(specs[0], states[0]), AllViewNeeds(specs[1..], states[1..]);
      forall w <- first ensures w !in rest {
        assert NameOf(w) == specs[0].name;
        ViewNeedsHave(specs[1..], states[1..], w);
      }
      DistinctConcat(first, rest);
    }
  }

  lemma {:induction false} MissingIsAbsent(specs: seq<FieldSpec>, fields: seq<Field>, m: FieldSpec)
    requires m in MissingFields(specs, fields)
    ensures m in specs && FieldsNamed(fields, m.name) == []
  {
    if m in MissingFields(specs[1..], fields) {
      MissingIsAbsent(specs[1..], fields, m);
      assert specs == [specs[0]] + specs[1..];
    }
  }

  lemma {:induction false} FieldNeedsDistinct(specs: seq<FieldSpec>, fields: seq<Field>)
    requires forall i, j | 0 <= i < j < |specs| :: specs[i].name != specs[j].name
    ensures Distinct(FieldNeeds(MissingFields(specs, fields)))
  {
    if specs != [] {
      FieldNeedsDistinct(specs[1..], fields);
      if FieldsNamed(fields, specs[0].name) == [] {
        var rest := MissingFields(specs[1..], fields);
        forall k | 0 <= k < |rest| ensures rest[k].name != specs[0].name {
          assert rest[k] in rest;
          MissingIsAbsent(specs[1..], fields, rest[k]);
          var i :| 0 <= i < |specs[1..]| && specs[1..][i] == rest[k];
          assert specs[i + 1] == rest[k];
        }
        assert MissingFields(specs, fields) == [specs[0]] + rest;
        assert FieldNeeds([specs[0]] + rest) == [FieldWrite(specs[0].name)] + FieldNeeds(rest);
        DistinctConcat([FieldWrite(specs[0].name)], FieldNeeds(rest));
      } else {
        assert MissingFields(specs, fields) == MissingFields(specs[1..], fields);
      }
    }
  }

  // The run creates each table, field and view at most once, and configures each view at most once...
  lemma {:induction false} NothingRequestedTwice(c: Contract, base: Base)
    requires ValidContract(c)
    ensures Distinct(Needed(c, base))
  {
    var t := Started(c, base).named[0];
    var fields, views := FieldNeeds(MissingFields(c.fields, t.fields)), AllViewNeeds(c.views, StatesOf(c.views, t));
    FieldNeedsDistinct(c.fields, t.fields);
    ViewNeedsDistinct(c.views, StatesOf(c.views, t));
    ViewNeedKinds(c.views, StatesOf(c.views, t));
    DistinctConcat(fields, views);
    assert forall w <- fields + views :: w != TableWrite;
    DistinctConcat(StartNeeds(base), fields + views);
  }

  lemma {:induction false} ViewNeedKinds(specs: seq<ViewSpec>, states: seq<ViewState>)
    requires |specs| == |states|
    ensures forall w <- AllViewNeeds(specs, states) :: w.ViewWrite? || w.FilterWrite?
  {
    forall w <- AllViewNeeds(specs, states) ensures w.ViewWrite? || w.FilterWrite? {
      ViewNeedsHave(specs, states, w);
    }
  }

  // Each kind of request comes from its own part of the run.
  lemma {:induction false} NeededByKind(c: Contract, base: Base, w: Write)
    ensures var t := Started(c, base).named[0];
      w in Needed(c, base) <==>
      match w
      case TableWrite => base.named == []
      case FieldWrite(_) => w in FieldNeeds(MissingFields(c.fields, t.fields))
      case _ => w in AllViewNeeds(c.views, StatesOf(c.views, t))
  {
    var t := Started(c, base).named[0];
    var first := if base.named == [] then [TableWrite] else [];
    var second, third := FieldNeeds(MissingFields(c.fields, t.fields)), AllViewNeeds(c.views, StatesOf(c.views, t));
    ViewNeedsHave(c.views, StatesOf(c.views, t), w);
    assert w in first + (second + third) <==> w in first || w in second || w in third;
  }

  // ...and does so exactly for what the base did not have.
  lemma {:induction false} FieldRequestedExactlyWhenMissing(c: Contract, base: Base, i: nat)
    requires i < |c.fields|
    ensures FieldWrite(c.fields[i].name) in Needed(c, base) <==>
      FieldsNamed(Started(c, base).named[0].fields, c.fields[i].name) == []
  {
    NeededByKind(c, base, FieldWrite(c.fields[i].name));
    FieldNeedAt(c, Started(c, base).named[0], i);
  }

  lemma {:induction false} ViewRequestedExactlyWhenIncomplete(c: Contract, base: Base, i: nat)
    requires ValidContract(c) && Accepted(c, base) && i < |c.views|
    ensures ViewWrite(c.views[i].name) in Needed(c, base) <==>
      ViewsNamed(Started(c, base).named[0].views, c.views[i].name) == []
    ensures FilterWrite(c.views[i].name) in Needed(c, base) <==>
      c.views[i].rule.Some? && StateOf(c.views[i], Started(c, base).named[0]) != Complete
  {
    NeededByKind(c, base, ViewWrite(c.views[i].name));
    NeededByKind(c, base, FilterWrite(c.views[i].name));
    StartAccepted(c, base);
    ViewNeedAt(c, Started(c, base).named[0], i);
  }

  lemma {:induction false} FieldNeedAt(c: Contract, t: Table, i: nat)
    requires i < |c.fields|
    ensures FieldWrite(c.fields[i].name) in FieldNeeds(MissingFields(c.fields, t.fields)) <==>
      FieldsNamed(t.fields, c.fields[i].name) == []
  {
    var missing := MissingFields(c.fields, t.fields);
    if FieldsNamed(t.fields, c.fields[i].name) == [] {
      MissingHas(c.fields, t.fields, i);
      var k :| 0 <= k < |missing| && missing[k] == c.fields[i];
      assert FieldNeeds(missing)[k] == FieldWrite(c.fields[i].name);
    }
    if k :| 0 <= k < |missing| && FieldNeeds(missing)[k] == FieldWrite(c.fields[i].name) {
      assert missing[k] in missing;
      MissingIsAbsent(c.fields, t.fields, missing[k]);
    }
  }

  lemma {:induction false} ViewNeedOwn(specs: seq<ViewSpec>, states: seq<ViewState>, i: nat, w: Write)
    requires |specs| == |states| && i < |specs| && NameOf(w) == specs[i].name && (w.ViewWrite? || w.FilterWrite?)
    requires forall j | 0 <= j < |specs| && j != i :: specs[j].name != specs[i].name
    ensures w in AllViewNeeds(specs, states) <==> w in ViewNeeds(specs[i], states[i])
  {
    ViewNeedsHave(specs, states, w);
    forall j | 0 <= j < |specs| && w in ViewNeeds(specs[j], states[j]) ensures j == i {
      assert NameOf(w) == specs[j].name;
    }
  }

  lemma {:induction false} OtherNames(c: Contract, i: nat)
    requires ValidContract(c) && i < |c.views|
    ensures forall j | 0 <= j < |c.views| && j != i :: c.views[j].name != c.views[i].name
  {
  }

  // A view to configure has a rule: without one it would be complete already.
  lemma {:induction false} ConfigureHasRule(spec: ViewSpec, t: Table)
    requires ViewAccepted(spec, t) && StateOf(spec, t) == Configure
    ensures spec.rule.Some?
  {
  }

  lemma {:induction false} ViewNeedAt(c: Contract, t: Table, i: nat)
    requires ValidContract(c) && ViewsAccepted(c, t) && i < |c.views|
    ensures ViewWrite(c.views[i].name) in AllViewNeeds(c.views, StatesOf(c.views, t)) <==> StateOf(c.views[i], t) == Create
    ensures FilterWrite(c.views[i].name) in AllViewNeeds(c.views, StatesOf(c.views, t)) <==>
      c.views[i].rule.Some? && StateOf(c.views[i], t) != Complete
  {
    var name, states := c.views[i].name, StatesOf(c.views, t);
    OtherNames(c, i);
    ViewNeedOwn(c.views, states, i, ViewWrite(name));
    ViewNeedOwn(c.views, states, i, FilterWrite(name));
    if states[i] == Configure { ConfigureHasRule(c.views[i], t); }
  }
}
