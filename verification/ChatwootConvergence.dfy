// An additive plan, carried out in any order, leaves a base that reads as ready.
module ChatwootConvergence {
  import opened Wrappers
  import opened ChatwootMetadata
  import opened ChatwootAnalysis
  import opened ChatwootSchemaApply
  import opened Sorting

  ghost predicate Sound(bp: Blueprint, remote: seq<RemoteTable>, next: nat) {
    ValidBlueprint(bp) && UniqueIds(remote) && forall t | 0 <= t < |remote| :: remote[t].id < next
  }

  ghost predicate AdditiveAt(bp: Blueprint, refs: map<string, nat>, remote: seq<RemoteTable>) {
    Survey(bp, refs, remote).Ok? && Survey(bp, refs, remote).value.decision == Additive
  }

  function ActionsAt(bp: Blueprint, refs: map<string, nat>, remote: seq<RemoteTable>): seq<Action> {
    var r := Survey(bp, refs, remote);
    if r.Ok? then r.value.actions else []
  }

  lemma {:induction false} ValidIsKeyed(bp: Blueprint)
    requires ValidBlueprint(bp)
    ensures Keyed(bp)
  {
    forall i, j | 0 <= i < j < |bp| ensures bp[i].key != bp[j].key { assert Apart(bp[i], bp[j]); }
  }

  // What discovery lists is a blueprint key.
  lemma {:induction false} ListedKey(bp: Blueprint, refs: map<string, nat>, remote: seq<RemoteTable>, key: string) returns (i: nat)
    requires ValidBlueprint(bp) && !Unfiled(Discover(bp, refs, remote), key)
    ensures i < |bp| && bp[i].key == key && Filed(Discover(bp, refs, remote), key, FindAt(bp, refs, remote, i))
  {
    if forall k | 0 <= k < |bp| :: bp[k].key != key { OthersUnfiled(bp, refs, remote, key); }
    i :| 0 <= i < |bp| && bp[i].key == key;
    ValidIsKeyed(bp);
    DiscoveredOnce(bp, refs, remote, i);
  }

  lemma {:induction false} TableOfKey(bp: Blueprint, i: nat)
    requires i < |bp| && Keyed(bp)
    ensures TableOf(bp, bp[i].key) == Some(bp[i])
  {
    if i > 0 {
      assert bp[0].key != bp[i].key;
      TableOfKey(bp[1..], i - 1);
    }
  }

  lemma {:induction false} FieldOfName(specs: seq<FieldSpec>, k: nat)
    requires k < |specs| && forall i, j | 0 <= i < j < |specs| :: specs[i].name != specs[j].name
    ensures FieldOf(specs, specs[k].name) == Some(specs[k])
  {
    if k > 0 {
      assert specs[0].name != specs[k].name;
      FieldOfName(specs[1..], k - 1);
    }
  }

  // A field is created with a type that the blueprint accepts for it.
  lemma {:induction false} TransportFits(t: TableSpec, k: nat)
    requires ValidTable(t) && k < |t.fields|
    ensures TransportType(t.fields[k]) in t.fields[k].compatible && TransportType(t.fields[k]) in FIELD_TYPES
    ensures Fits(t.fields[k], Some(MutationField(t.fields[k])))
  {
    assert t.fields[k].kind in FIELD_TYPES;
    assert FIELD_TYPES[0] == TEXT && FIELD_TYPES[1] == NUMBER;
  }

  lemma {:induction false} AllCreatable(t: TableSpec)
    requires ValidTable(t)
    ensures Creatable(t.fields)
  {
    forall f <- t.fields ensures TransportType(f) in FIELD_TYPES {
      var k :| 0 <= k < |t.fields| && t.fields[k] == f;
      TransportFits(t, k);
    }
  }

  // What an additive analysis says of each table -----------------------------------------------------------

  lemma {:induction false} BoundFields(bp: Blueprint, refs: map<string, nat>, remote: seq<RemoteTable>, i: nat) returns (t: nat)
    requires ValidBlueprint(bp) && UniqueIds(remote) && i < |bp| && FindAt(bp, refs, remote, i).Bound?
    ensures t < |remote| && remote[t].id == FindAt(bp, refs, remote, i).id && remote[t].name in bp[i].aliases
    ensures FieldsBound(remote, FindAt(bp, refs, remote, i)) == remote[t].fields
  {
    t := BoundIsNamed(bp[i], Configured(refs, bp[i].key), remote);
    SelectOnly(remote, IdIs(remote[t].id), t);
  }

  lemma {:induction false} AdditiveTable(bp: Blueprint, refs: map<string, nat>, remote: seq<RemoteTable>, i: nat)
    requires ValidBlueprint(bp) && AdditiveAt(bp, refs, remote) && i < |bp|
    ensures var d, f := Discover(bp, refs, remote), FindAt(bp, refs, remote, i);
      && Filed(d, bp[i].key, f) && (f.Bound? || f == Missing)
      && (f.Bound? ==> Repairable(bp[i], FieldsBound(remote, f)) && !HasDuplicate(FieldsBound(remote, f)))
  {
    ValidIsKeyed(bp);
    DiscoveredOnce(bp, refs, remote, i);
    var d := Discover(bp, refs, remote);
    CheckedTables(bp, d.bindings, ListFields(d, remote));
  }

  lemma {:induction false} ListedActions(bp: Blueprint, refs: map<string, nat>, remote: seq<RemoteTable>, a: Action)
    requires Survey(bp, refs, remote).Ok?
    ensures var d := Discover(bp, refs, remote);
      a in ActionsAt(bp, refs, remote) <==>
      match a
      case BindEnv(key) => key in d.bindEnv
      case CreateTable(key) => key in d.missing
      case CreateField(_, _) => WantedIn(bp, d.bindings, ListFields(d, remote), a)
  {
    var d := Discover(bp, refs, remote);
    var r := CheckTables(bp, d.bindings, ListFields(d, remote));
    TableActionsAt(bp, d.bindings, ListFields(d, remote), a);
    var first, second := BindActions(d.bindEnv), TableActions(d.missing);
    assert a in first + second + r.actions <==> a in first || a in second || a in r.actions;
    if a.BindEnv? && a.key in d.bindEnv {
      var k :| 0 <= k < |d.bindEnv| && d.bindEnv[k] == a.key;
      assert first[k] == a;
    }
    if a.CreateTable? && a.key in d.missing {
      var k :| 0 <= k < |d.missing| && d.missing[k] == a.key;
      assert second[k] == a;
    }
  }

  // The table and the field that an action to create a field is for.
  lemma {:induction false} WantedField(bp: Blueprint, refs: map<string, nat>, remote: seq<RemoteTable>, a: Action) returns (i: nat, k: nat)
    requires ValidBlueprint(bp) && AdditiveAt(bp, refs, remote) && a.CreateField? && a in ActionsAt(bp, refs, remote)
    ensures i < |bp| && k < |bp[i].fields| && a == CreateField(bp[i].key, bp[i].fields[k].name)
    ensures FindAt(bp, refs, remote, i).Bound? && !bp[i].fields[k].primary
    ensures Lookup(FieldsBound(remote, FindAt(bp, refs, remote, i)), bp[i].fields[k].name).None?
  {
    ListedActions(bp, refs, remote, a);
    var d := Discover(bp, refs, remote);
    var fields := ListFields(d, remote);
    i :| 0 <= i < |bp| && bp[i].key == a.key && Wanted(bp[i].fields, fields[a.key], a.name);
    k :| 0 <= k < |bp[i].fields| && bp[i].fields[k].name == a.name && !bp[i].fields[k].primary && Lookup(fields[a.key], a.name).None?;
    AdditiveTable(bp, refs, remote, i);
  }

  lemma {:induction false} FieldIsWanted(bp: Blueprint, refs: map<string, nat>, remote: seq<RemoteTable>, i: nat, k: nat)
    requires ValidBlueprint(bp) && AdditiveAt(bp, refs, remote) && i < |bp| && k < |bp[i].fields|
    requires FindAt(bp, refs, remote, i).Bound? && !bp[i].fields[k].primary
    requires Lookup(FieldsBound(remote, FindAt(bp, refs, remote, i)), bp[i].fields[k].name).None?
    ensures CreateField(bp[i].key, bp[i].fields[k].name) in ActionsAt(bp, refs, remote)
  {
    var a := CreateField(bp[i].key, bp[i].fields[k].name);
    AdditiveTable(bp, refs, remote, i);
    ListedActions(bp, refs, remote, a);
    var d := Discover(bp, refs, remote);
    assert Wanted(bp[i].fields, ListFields(d, remote)[a.key], a.name);
  }

  // The plan can be made -----------------------------------------------------------------------------------

  lemma {:induction false} FieldEnriches(bp: Blueprint, bindings: map<string, Finding>, i: nat, k: nat)
    requires Keyed(bp) && i < |bp| && ValidTable(bp[i]) && k < |bp[i].fields| && !bp[i].fields[k].primary
    requires bp[i].key in bindings && bindings[bp[i].key].Bound?
    ensures Enrich(bp, bindings, CreateField(bp[i].key, bp[i].fields[k].name))
      == Ok(NewField(bindings[bp[i].key].id, MutationField(bp[i].fields[k])))
  {
    TableOfKey(bp, i);
    FieldOfName(bp[i].fields, k);
    TransportFits(bp[i], k);
  }

  lemma {:induction false} TableEnriches(bp: Blueprint, bindings: map<string, Finding>, i: nat)
    requires Keyed(bp) && i < |bp| && ValidTable(bp[i])
    ensures Enrich(bp, bindings, CreateTable(bp[i].key))
      == Ok(NewTable(bp[i].key, bp[i].createName, MutationFields(bp[i].fields)))
  {
    TableOfKey(bp, i);
    AllCreatable(bp[i]);
  }

  lemma {:induction false} ActionEnriches(bp: Blueprint, refs: map<string, nat>, remote: seq<RemoteTable>, a: Action)
    requires ValidBlueprint(bp) && AdditiveAt(bp, refs, remote) && a in ActionsAt(bp, refs, remote)
    ensures TableOf(bp, a.key).Some? && Enrich(bp, Discover(bp, refs, remote).bindings, a).Ok?
  {
    var bindings := Discover(bp, refs, remote).bindings;
    ValidIsKeyed(bp);
    if a.CreateField? {
      var i, k := WantedField(bp, refs, remote, a);
      AdditiveTable(bp, refs, remote, i);
      FieldEnriches(bp, bindings, i, k);
      TableOfKey(bp, i);
    } else {
      ListedActions(bp, refs, remote, a);
      var i := ListedKey(bp, refs, remote, a.key);
      TableOfKey(bp, i);
      if a.CreateTable? { TableEnriches(bp, bindings, i); }
    }
  }

  lemma {:induction false} DiscoverDistinct(bp: Blueprint, refs: map<string, nat>, remote: seq<RemoteTable>)
    requires Keyed(bp)
    ensures Distinct(Discover(bp, refs, remote).bindEnv) && Distinct(Discover(bp, refs, remote).missing)
    decreases |bp|
  {
    if bp != [] {
      var n := |bp| - 1;
      DiscoverDistinct(bp[..n], refs, remote);
      OthersUnfiled(bp[..n], refs, remote, bp[n].key);
    }
  }

  lemma {:induction false} DistinctJoin<T>(a: seq<T>, b: seq<T>)
    requires Distinct(a) && Distinct(b) && forall x <- a :: x !in b
    ensures Distinct(a + b)
  {
    forall i, j | 0 <= i < j < |a + b| ensures (a + b)[i] != (a + b)[j] {
      if i < |a| <= j { assert a[i] in a && b[j - |a|] in b; }
    }
  }

  lemma {:induction false} ActionsDistinct(bp: Blueprint, refs: map<string, nat>, remote: seq<RemoteTable>)
    requires ValidBlueprint(bp) && Survey(bp, refs, remote).Ok?
    ensures Distinct(ActionsAt(bp, refs, remote))
  {
    var d := Discover(bp, refs, remote);
    var r := CheckTables(bp, d.bindings, ListFields(d, remote));
    ValidIsKeyed(bp);
    DiscoverDistinct(bp, refs, remote);
    TableActionsDistinct(bp, d.bindings, ListFields(d, remote));
    forall a <- r.actions ensures a.CreateField? { TableActionsAt(bp, d.bindings, ListFields(d, remote), a); }
    DistinctJoin(BindActions(d.bindEnv), TableActions(d.missing));
    DistinctJoin(BindActions(d.bindEnv) + TableActions(d.missing), r.actions);
  }

  // An additive analysis can always be planned: no repeated action, none that cannot be carried out.
  lemma {:induction false} AdditiveCanBePlanned(bp: Blueprint, refs: map<string, nat>, remote: seq<RemoteTable>)
    requires ValidBlueprint(bp) && AdditiveAt(bp, refs, remote)
    ensures var actions := ActionsAt(bp, refs, remote);
      !Repeats(actions) && (forall a <- actions :: TableOf(bp, a.key).Some?)
      && Enrichable(bp, Discover(bp, refs, remote).bindings, actions)
  {
    ActionsDistinct(bp, refs, remote);
    forall a <- ActionsAt(bp, refs, remote)
      ensures TableOf(bp, a.key).Some? && Enrich(bp, Discover(bp, refs, remote).bindings, a).Ok?
    {
      ActionEnriches(bp, refs, remote, a);
    }
  }

  // The commands of a plan, in whatever order --------------------------------------------------------------

  ghost predicate Planned(bp: Blueprint, refs: map<string, nat>, remote: seq<RemoteTable>, order: seq<Action>, commands: seq<Command>) {
    && AdditiveAt(bp, refs, remote) && Distinct(order)
    && (forall a :: a in order <==> a in ActionsAt(bp, refs, remote))
    && Answers(bp, Discover(bp, refs, remote).bindings, order, commands)
  }

  lemma {:induction false} CommandOf(bp: Blueprint, refs: map<string, nat>, remote: seq<RemoteTable>, order: seq<Action>,
                         commands: seq<Command>, a: Action) returns (j: nat)
    requires Planned(bp, refs, remote, order, commands) && a in ActionsAt(bp, refs, remote)
    ensures j < |commands| == |order| && order[j] == a
    ensures Enrich(bp, Discover(bp, refs, remote).bindings, a) == Ok(commands[j])
  {
    j :| 0 <= j < |order| && order[j] == a;
  }

  lemma {:induction false} AnswerAt(bp: Blueprint, refs: map<string, nat>, remote: seq<RemoteTable>, order: seq<Action>,
                        commands: seq<Command>, j: nat)
    requires Planned(bp, refs, remote, order, commands) && j < |commands|
    ensures |order| == |commands| && order[j] in ActionsAt(bp, refs, remote)
    ensures Enrich(bp, Discover(bp, refs, remote).bindings, order[j]) == Ok(commands[j])
  {
    assert order[j] in order;
  }

  lemma {:induction false} EnrichKinds(bp: Blueprint, bindings: map<string, Finding>, a: Action)
    requires Enrich(bp, bindings, a).Ok?
    ensures Enrich(bp, bindings, a).value.NewTable? <==> a.CreateTable?
    ensures Enrich(bp, bindings, a).value.NewField? <==> a.CreateField?
  {
  }

  lemma {:induction false} TableCommand(bp: Blueprint, refs: map<string, nat>, remote: seq<RemoteTable>, order: seq<Action>,
                            commands: seq<Command>, j: nat) returns (i: nat)
    requires ValidBlueprint(bp) && Planned(bp, refs, remote, order, commands) && j < |commands| && commands[j].NewTable?
    ensures i < |bp| && FindAt(bp, refs, remote, i) == Missing && order[j] == CreateTable(bp[i].key)
    ensures commands[j] == NewTable(bp[i].key, bp[i].createName, MutationFields(bp[i].fields))
  {
    var a := order[j];
    var bindings := Discover(bp, refs, remote).bindings;
    AnswerAt(bp, refs, remote, order, commands, j);
    EnrichKinds(bp, bindings, a);
    ListedActions(bp, refs, remote, a);
    i := ListedKey(bp, refs, remote, a.key);
    ValidIsKeyed(bp);
    TableEnriches(bp, bindings, i);
  }

  lemma {:induction false} FieldCommand(bp: Blueprint, refs: map<string, nat>, remote: seq<RemoteTable>, order: seq<Action>,
                            commands: seq<Command>, j: nat) returns (i: nat, k: nat)
    requires ValidBlueprint(bp) && Planned(bp, refs, remote, order, commands) && j < |commands| && commands[j].NewField?
    ensures i < |bp| && k < |bp[i].fields| && FindAt(bp, refs, remote, i).Bound?
    ensures order[j] == CreateField(bp[i].key, bp[i].fields[k].name)
    ensures commands[j] == NewField(FindAt(bp, refs, remote, i).id, MutationField(bp[i].fields[k]))
    ensures Lookup(FieldsBound(remote, FindAt(bp, refs, remote, i)), bp[i].fields[k].name).None?
  {
    var a := order[j];
    var bindings := Discover(bp, refs, remote).bindings;
    AnswerAt(bp, refs, remote, order, commands, j);
    EnrichKinds(bp, bindings, a);
    i, k := WantedField(bp, refs, remote, a);
    ValidIsKeyed(bp);
    AdditiveTable(bp, refs, remote, i);
    FieldEnriches(bp, bindings, i, k);
  }

  lemma {:induction false} CommandsAreSafe(bp: Blueprint, refs: map<string, nat>, remote: seq<RemoteTable>, next: nat,
                               order: seq<Action>, commands: seq<Command>)
    requires Sound(bp, remote, next) && Planned(bp, refs, remote, order, commands)
    ensures OldIdsOnly(commands, next) && DistinctTables(commands)
  {
    forall j | 0 <= j < |commands| && commands[j].NewField? ensures commands[j].id < next {
      var i, k := FieldCommand(bp, refs, remote, order, commands, j);
      var t := BoundFields(bp, refs, remote, i);
    }
    forall i, j | 0 <= i < j < |commands| && commands[i].NewTable? && commands[j].NewTable?
      ensures commands[i].key != commands[j].key
    {
      var a := TableCommand(bp, refs, remote, order, commands, i);
      var b := TableCommand(bp, refs, remote, order, commands, j);
    }
  }

  // The fields a run adds to one table ------------------------------------------------------------------------

  lemma {:induction false} AddedFrom(commands: seq<Command>, id: nat, k: nat) returns (j: nat)
    requires k < |FieldsFor(commands, id)|
    ensures j < |commands| && commands[j] == NewField(id, FieldsFor(commands, id)[k])
    decreases |commands|
  {
    var n := |commands| - 1;
    if k < |FieldsFor(commands[..n], id)| { j := AddedFrom(commands[..n], id, k); } else { j := n; }
  }

  lemma {:induction false} AddedInOrder(commands: seq<Command>, id: nat, k: nat, l: nat) returns (j: nat, m: nat)
    requires k < l < |FieldsFor(commands, id)|
    ensures j < m < |commands|
    ensures commands[j] == NewField(id, FieldsFor(commands, id)[k]) && commands[m] == NewField(id, FieldsFor(commands, id)[l])
    decreases |commands|
  {
    var n := |commands| - 1;
    if l < |FieldsFor(commands[..n], id)| {
      j, m := AddedInOrder(commands[..n], id, k, l);
    } else {
      m := n;
      j := AddedFrom(commands[..n], id, k);
    }
  }

  lemma {:induction false} AddedHas(commands: seq<Command>, id: nat, j: nat)
    requires j < |commands| && commands[j].NewField? && commands[j].id == id
    ensures commands[j].field in FieldsFor(commands, id)
    decreases |commands|
  {
    var n := |commands| - 1;
    if j < n { AddedHas(commands[..n], id, j); }
  }

  lemma {:induction false} LookupJoin(a: seq<RemoteField>, b: seq<RemoteField>, name: string)
    ensures Lookup(a + b, name) == if Lookup(a, name).Some? then Lookup(a, name) else Lookup(b, name)
  {
    if a == [] {
      assert a + b == b;
    } else {
      assert (a + b)[1..] == a[1..] + b;
      LookupJoin(a[1..], b, name);
    }
  }

  lemma {:induction false} LookupOnly(fields: seq<RemoteField>, f: RemoteField)
    requires f in fields && forall g <- fields :: g.name == f.name ==> g == f
    ensures Lookup(fields, f.name) == Some(f)
  {
    if fields[0].name != f.name {
      assert f in fields[1..];
      LookupOnly(fields[1..], f);
    }
  }

  lemma {:induction false} LookupAbsent(fields: seq<RemoteField>, k: nat)
    requires k < |fields|
    ensures Lookup(fields, fields[k].name).Some?
  {
    if fields[0].name != fields[k].name { LookupAbsent(fields[1..], k - 1); }
  }

  // A new field of bound table i is one of its missing blueprint fields.
  lemma {:induction false} AddedIsMissing(bp: Blueprint, refs: map<string, nat>, remote: seq<RemoteTable>, order: seq<Action>,
                              commands: seq<Command>, i: nat, j: nat) returns (k: nat)
    requires ValidBlueprint(bp) && UniqueIds(remote) && Planned(bp, refs, remote, order, commands)
    requires i < |bp| && FindAt(bp, refs, remote, i).Bound?
    requires j < |commands| && commands[j].NewField? && commands[j].id == FindAt(bp, refs, remote, i).id
    ensures k < |bp[i].fields| && commands[j].field == MutationField(bp[i].fields[k])
    ensures order[j] == CreateField(bp[i].key, bp[i].fields[k].name)
    ensures Lookup(FieldsBound(remote, FindAt(bp, refs, remote, i)), bp[i].fields[k].name).None?
  {
    var owner, field := FieldCommand(bp, refs, remote, order, commands, j);
    if owner != i { BoundIdsDistinct(bp, refs, remote, owner, i); }
    k := field;
  }

  // A bound table is complete after the run.
  lemma {:induction false} BoundBecomesComplete(bp: Blueprint, refs: map<string, nat>, remote: seq<RemoteTable>, order: seq<Action>,
                                    commands: seq<Command>, i: nat)
    requires ValidBlueprint(bp) && UniqueIds(remote) && Planned(bp, refs, remote, order, commands)
    requires i < |bp| && FindAt(bp, refs, remote, i).Bound?
    ensures var f := FindAt(bp, refs, remote, i);
      Complete(bp[i], FieldsBound(remote, f) + FieldsFor(commands, f.id))
  {
    var f := FindAt(bp, refs, remote, i);
    var fields, added := FieldsBound(remote, f), FieldsFor(commands, f.id);
    AdditiveTable(bp, refs, remote, i);
    assert ValidTable(bp[i]);
    forall k | 0 <= k < |bp[i].fields| ensures Fits(bp[i].fields[k], Lookup(fields + added, bp[i].fields[k].name)) {
      LookupJoin(fields, added, bp[i].fields[k].name);
      assert Fixable(bp[i].fields[k], Lookup(fields, bp[i].fields[k].name));
      if Lookup(fields, bp[i].fields[k].name).None? {
        MissingIsAdded(bp, refs, remote, order, commands, i, k);
        TransportFits(bp[i], k);
      }
    }
  }

  lemma {:induction false} MissingIsAdded(bp: Blueprint, refs: map<string, nat>, remote: seq<RemoteTable>, order: seq<Action>,
                              commands: seq<Command>, i: nat, k: nat)
    requires ValidBlueprint(bp) && UniqueIds(remote) && Planned(bp, refs, remote, order, commands)
    requires i < |bp| && FindAt(bp, refs, remote, i).Bound? && k < |bp[i].fields| && !bp[i].fields[k].primary
    requires Lookup(FieldsBound(remote, FindAt(bp, refs, remote, i)), bp[i].fields[k].name).None?
    ensures Lookup(FieldsFor(commands, FindAt(bp, refs, remote, i).id), bp[i].fields[k].name) == Some(MutationField(bp[i].fields[k]))
  {
    var f, spec := FindAt(bp, refs, remote, i), bp[i].fields[k];
    FieldIsWanted(bp, refs, remote, i, k);
    AdditiveTable(bp, refs, remote, i);
    var j := CommandOf(bp, refs, remote, order, commands, CreateField(bp[i].key, spec.name));
    ValidIsKeyed(bp);
    FieldEnriches(bp, Discover(bp, refs, remote).bindings, i, k);
    AddedHas(commands, f.id, j);
    AddedAreSole(bp, refs, remote, order, commands, i, k);
    LookupOnly(FieldsFor(commands, f.id), MutationField(spec));
  }

  lemma {:induction false} SameNameSameField(t: TableSpec, k: nat, l: nat)
    requires ValidTable(t) && k < |t.fields| && l < |t.fields| && t.fields[k].name == t.fields[l].name
    ensures k == l
  {
  }

  lemma {:induction false} AddedAreSole(bp: Blueprint, refs: map<string, nat>, remote: seq<RemoteTable>, order: seq<Action>,
                            commands: seq<Command>, i: nat, k: nat)
    requires ValidBlueprint(bp) && UniqueIds(remote) && Planned(bp, refs, remote, order, commands)
    requires i < |bp| && FindAt(bp, refs, remote, i).Bound? && k < |bp[i].fields|
    ensures forall g <- FieldsFor(commands, FindAt(bp, refs, remote, i).id) ::
      g.name == bp[i].fields[k].name ==> g == MutationField(bp[i].fields[k])
  {
    var added := FieldsFor(commands, FindAt(bp, refs, remote, i).id);
    forall g <- added ensures g.name == bp[i].fields[k].name ==> g == MutationField(bp[i].fields[k]) {
      var a :| 0 <= a < |added| && added[a] == g;
      var j := AddedFrom(commands, FindAt(bp, refs, remote, i).id, a);
      var l := AddedIsMissing(bp, refs, remote, order, commands, i, j);
      if g.name == bp[i].fields[k].name { SameNameSameField(bp[i], k, l); }
    }
  }

  lemma {:induction false} BoundStaysUnambiguous(bp: Blueprint, refs: map<string, nat>, remote: seq<RemoteTable>, order: seq<Action>,
                                     commands: seq<Command>, i: nat)
    requires ValidBlueprint(bp) && UniqueIds(remote) && Planned(bp, refs, remote, order, commands)
    requires i < |bp| && FindAt(bp, refs, remote, i).Bound?
    ensures var f := FindAt(bp, refs, remote, i);
      !HasDuplicate(FieldsBound(remote, f) + FieldsFor(commands, f.id))
  {
    var f := FindAt(bp, refs, remote, i);
    var fields, added := FieldsBound(remote, f), FieldsFor(commands, f.id);
    AdditiveTable(bp, refs, remote, i);
    forall a, b | 0 <= a < |fields| && 0 <= b < |added| ensures fields[a].name != added[b].name {
      var j := AddedFrom(commands, f.id, b);
      var k := AddedIsMissing(bp, refs, remote, order, commands, i, j);
      LookupAbsent(fields, a);
    }
    forall a, b | 0 <= a < b < |added| ensures added[a].name != added[b].name {
      var j, m := AddedInOrder(commands, f.id, a, b);
      var k := AddedIsMissing(bp, refs, remote, order, commands, i, j);
      var l := AddedIsMissing(bp, refs, remote, order, commands, i, m);
    }
    NoDuplicateJoin(fields, added);
  }

  lemma {:induction false} NoDuplicateJoin(a: seq<RemoteField>, b: seq<RemoteField>)
    requires !HasDuplicate(a)
    requires forall i, j | 0 <= i < |a| && 0 <= j < |b| :: a[i].name != b[j].name
    requires forall i, j | 0 <= i < j < |b| :: b[i].name != b[j].name
    ensures !HasDuplicate(a + b)
  {
  }

  lemma {:induction false} NewTableIsComplete(t: TableSpec)
    requires ValidTable(t)
    ensures Complete(t, MutationFields(t.fields)) && !HasDuplicate(MutationFields(t.fields))
  {
    var fields := MutationFields(t.fields);
    forall k | 0 <= k < |t.fields| ensures Fits(t.fields[k], Lookup(fields, t.fields[k].name)) {
      assert fields[k] == MutationField(t.fields[k]);
      LookupOnly(fields, fields[k]);
      TransportFits(t, k);
    }
  }

  // The base after a run --------------------------------------------------------------------------------------

  function After(remote: seq<RemoteTable>, next: nat, commands: seq<Command>): State {
    Run(State(remote, next, map[]), commands)
  }

  function RefsAfter(bp: Blueprint, refs: map<string, nat>, remote: seq<RemoteTable>, next: nat, commands: seq<Command>): map<string, nat> {
    PostRefs(refs, Discover(bp, refs, remote).bindings, After(remote, next, commands).created)
  }

  lemma {:induction false} AfterShape(bp: Blueprint, refs: map<string, nat>, remote: seq<RemoteTable>, next: nat,
                          order: seq<Action>, commands: seq<Command>)
    requires Sound(bp, remote, next) && Planned(bp, refs, remote, order, commands)
    ensures var s := After(remote, next, commands);
      && UniqueIds(s.remote) && |remote| <= |s.remote| && OldTables(remote, commands, s)
      && AllCame(|remote|, commands, s) && AllMade(|remote|, commands, s) && OnlyNamed(commands, s)
  {
    CommandsAreSafe(bp, refs, remote, next, order, commands);
    var start := State(remote, next, map[]);
    RunIds(start, commands);
    RunOld(start, commands);
    RunNew(start, commands);
  }

  // A table that was not there before is one of the missing ones, under its recorded id.
  lemma {:induction false} NewTableIs(bp: Blueprint, refs: map<string, nat>, remote: seq<RemoteTable>, next: nat,
                          order: seq<Action>, commands: seq<Command>, u: nat) returns (i: nat)
    requires Sound(bp, remote, next) && Planned(bp, refs, remote, order, commands)
    requires |remote| <= u < |After(remote, next, commands).remote|
    ensures i < |bp| && FindAt(bp, refs, remote, i) == Missing
    ensures var s := After(remote, next, commands);
      bp[i].key in s.created
      && s.remote[u] == RemoteTable(s.created[bp[i].key], bp[i].createName, MutationFields(bp[i].fields))
  {
    AfterShape(bp, refs, remote, next, order, commands);
    var s := After(remote, next, commands);
    assert SomeCame(commands, s.created, s.remote[u]);
    var j :| Came(commands, s.created, s.remote[u], j);
    i := TableCommand(bp, refs, remote, order, commands, j);
  }

  lemma {:induction false} NamedBy(commands: seq<Command>, s: State, key: string) returns (j: nat)
    requires OnlyNamed(commands, s) && key in s.created
    ensures j < |commands| && commands[j].NewTable? && commands[j].key == key
  {
    assert Named(commands, key);
    j :| 0 <= j < |commands| && commands[j].NewTable? && commands[j].key == key;
  }

  lemma {:induction false} CreatedGoesFirst(refs: map<string, nat>, bindings: map<string, Finding>, created: map<string, nat>, key: string)
    requires key in created
    ensures Configured(PostRefs(refs, bindings, created), key) == Some(created[key])
  {
  }

  lemma {:induction false} CreatedIsMissing(bp: Blueprint, refs: map<string, nat>, remote: seq<RemoteTable>, next: nat,
                                order: seq<Action>, commands: seq<Command>, i: nat)
    requires Sound(bp, remote, next) && Planned(bp, refs, remote, order, commands) && i < |bp|
    requires bp[i].key in After(remote, next, commands).created
    ensures FindAt(bp, refs, remote, i) == Missing
  {
    AfterShape(bp, refs, remote, next, order, commands);
    var j := NamedBy(commands, After(remote, next, commands), bp[i].key);
    var k := TableCommand(bp, refs, remote, order, commands, j);
    SameKey(bp, i, k);
  }

  lemma {:induction false} SameKey(bp: Blueprint, i: nat, k: nat)
    requires ValidBlueprint(bp) && i < |bp| && k < |bp| && bp[i].key == bp[k].key
    ensures i == k
  {
    ValidIsKeyed(bp);
  }

  lemma {:induction false} SameName(bp: Blueprint, i: nat, k: nat)
    requires ValidBlueprint(bp) && i < |bp| && k < |bp| && bp[k].createName in bp[i].aliases
    ensures i == k
  {
    assert ValidTable(bp[k]);
    assert i != k ==> Apart(bp[k], bp[i]);
  }

  // A remote table that is alone under a configured id and alone under the blueprint's names is bound.
  lemma {:induction false} SoleIsBound(spec: TableSpec, remote: seq<RemoteTable>, t: nat)
    requires UniqueIds(remote) && t < |remote| && remote[t].name in spec.aliases
    requires forall u | 0 <= u < |remote| && u != t :: remote[u].name !in spec.aliases
    ensures Find(spec, Some(remote[t].id), remote) == Bound(remote[t].id, ConfiguredId)
    ensures FieldsBound(remote, Bound(remote[t].id, ConfiguredId)) == remote[t].fields
  {
    SelectOnly(remote, IdIs(remote[t].id), t);
    SelectOnly(remote, NameIn(spec.aliases), t);
  }

  // Before the run, no other remote table carries the names of table i.
  lemma {:induction false} SoleName(spec: TableSpec, configured: Option<nat>, remote: seq<RemoteTable>, u: nat)
    requires u < |remote| && remote[u].name in spec.aliases
    ensures Find(spec, configured, remote) != Missing
    ensures forall t | 0 <= t < |remote| && t != u && remote[t].name in spec.aliases :: Find(spec, configured, remote) == Ambiguous
  {
    SelectSome(remote, NameIn(spec.aliases), u);
    forall t | 0 <= t < |remote| && t != u && remote[t].name in spec.aliases
      ensures Find(spec, configured, remote) == Ambiguous
    {
      SelectTwo(remote, NameIn(spec.aliases), if t < u then t else u, if t < u then u else t);
    }
  }

  ghost predicate Settled(bp: Blueprint, refs: map<string, nat>, remote: seq<RemoteTable>, i: nat)
    requires i < |bp|
  {
    var f := FindAt(bp, refs, remote, i);
    f.Bound? && f.how == ConfiguredId && Complete(bp[i], FieldsBound(remote, f)) && !HasDuplicate(FieldsBound(remote, f))
  }

  // Whoever carries a name of table i after the run did so before, or is the table made for it.
  lemma {:induction false} NamesAfter(bp: Blueprint, refs: map<string, nat>, remote: seq<RemoteTable>, next: nat,
                          order: seq<Action>, commands: seq<Command>, i: nat, u: nat)
    requires Sound(bp, remote, next) && Planned(bp, refs, remote, order, commands)
    requires i < |bp| && u < |After(remote, next, commands).remote|
    requires After(remote, next, commands).remote[u].name in bp[i].aliases
    ensures u < |remote| ==> remote[u].name in bp[i].aliases && FindAt(bp, refs, remote, i) != Missing
    ensures u >= |remote| ==> FindAt(bp, refs, remote, i) == Missing && bp[i].key in After(remote, next, commands).created
    ensures u >= |remote| ==> After(remote, next, commands).remote[u].id == After(remote, next, commands).created[bp[i].key]
  {
    if u < |remote| {
      AfterShape(bp, refs, remote, next, order, commands);
      SoleName(bp[i], Configured(refs, bp[i].key), remote, u);
    } else {
      var k := NewTableIs(bp, refs, remote, next, order, commands, u);
      SameName(bp, i, k);
    }
  }

  lemma {:induction false} BoundKeepsRef(bp: Blueprint, refs: map<string, nat>, remote: seq<RemoteTable>, next: nat,
                             order: seq<Action>, commands: seq<Command>, i: nat)
    requires Sound(bp, remote, next) && Planned(bp, refs, remote, order, commands)
    requires i < |bp| && FindAt(bp, refs, remote, i).Bound?
    ensures Configured(RefsAfter(bp, refs, remote, next, commands), bp[i].key) == Some(FindAt(bp, refs, remote, i).id)
  {
    AdditiveTable(bp, refs, remote, i);
    if bp[i].key in After(remote, next, commands).created { CreatedIsMissing(bp, refs, remote, next, order, commands, i); }
  }

  lemma {:induction false} BoundAfter(bp: Blueprint, refs: map<string, nat>, remote: seq<RemoteTable>, next: nat,
                          order: seq<Action>, commands: seq<Command>, i: nat)
    requires Sound(bp, remote, next) && Planned(bp, refs, remote, order, commands)
    requires i < |bp| && FindAt(bp, refs, remote, i).Bound?
    ensures var f, after := FindAt(bp, refs, remote, i), After(remote, next, commands).remote;
      && FindAt(bp, RefsAfter(bp, refs, remote, next, commands), after, i) == Bound(f.id, ConfiguredId)
      && FieldsBound(after, Bound(f.id, ConfiguredId)) == FieldsBound(remote, f) + FieldsFor(commands, f.id)
  {
    var after := After(remote, next, commands).remote;
    AfterShape(bp, refs, remote, next, order, commands);
    var t := BoundFields(bp, refs, remote, i);
    BoundKeepsRef(bp, refs, remote, next, order, commands, i);
    forall u | 0 <= u < |after| && u != t ensures after[u].name !in bp[i].aliases {
      if after[u].name in bp[i].aliases {
        NamesAfter(bp, refs, remote, next, order, commands, i, u);
        SoleName(bp[i], Configured(refs, bp[i].key), remote, u);
      }
    }
    SoleIsBound(bp[i], after, t);
  }

  lemma {:induction false} BoundSettles(bp: Blueprint, refs: map<string, nat>, remote: seq<RemoteTable>, next: nat,
                            order: seq<Action>, commands: seq<Command>, i: nat)
    requires Sound(bp, remote, next) && Planned(bp, refs, remote, order, commands)
    requires i < |bp| && FindAt(bp, refs, remote, i).Bound?
    ensures Settled(bp, RefsAfter(bp, refs, remote, next, commands), After(remote, next, commands).remote, i)
  {
    BoundAfter(bp, refs, remote, next, order, commands, i);
    BoundBecomesComplete(bp, refs, remote, order, commands, i);
    BoundStaysUnambiguous(bp, refs, remote, order, commands, i);
  }

  // The table made for a missing one.
  lemma {:induction false} MissingIsMade(bp: Blueprint, refs: map<string, nat>, remote: seq<RemoteTable>, next: nat,
                             order: seq<Action>, commands: seq<Command>, i: nat) returns (t: nat)
    requires Sound(bp, remote, next) && Planned(bp, refs, remote, order, commands)
    requires i < |bp| && FindAt(bp, refs, remote, i) == Missing
    ensures var s := After(remote, next, commands);
      && |remote| <= t < |s.remote| && bp[i].key in s.created
      && s.remote[t] == RemoteTable(s.created[bp[i].key], bp[i].createName, MutationFields(bp[i].fields))
  {
    AfterShape(bp, refs, remote, next, order, commands);
    var s := After(remote, next, commands);
    AdditiveTable(bp, refs, remote, i);
    ListedActions(bp, refs, remote, CreateTable(bp[i].key));
    var j := CommandOf(bp, refs, remote, order, commands, CreateTable(bp[i].key));
    ValidIsKeyed(bp);
    TableEnriches(bp, Discover(bp, refs, remote).bindings, i);
    assert Made(|remote|, commands, s, j);
    t :| |remote| <= t < |s.remote| && Came(commands, s.created, s.remote[t], j);
  }

  lemma {:induction false} MadeIsSole(bp: Blueprint, refs: map<string, nat>, remote: seq<RemoteTable>, next: nat,
                          order: seq<Action>, commands: seq<Command>, i: nat, t: nat)
    requires Sound(bp, remote, next) && Planned(bp, refs, remote, order, commands)
    requires i < |bp| && FindAt(bp, refs, remote, i) == Missing && t < |After(remote, next, commands).remote|
    requires bp[i].key in After(remote, next, commands).created
    requires After(remote, next, commands).remote[t].id == After(remote, next, commands).created[bp[i].key]
    ensures var after := After(remote, next, commands).remote;
      forall u | 0 <= u < |after| && u != t :: after[u].name !in bp[i].aliases
  {
    var after := After(remote, next, commands).remote;
    AfterShape(bp, refs, remote, next, order, commands);
    forall u | 0 <= u < |after| && u != t ensures after[u].name !in bp[i].aliases {
      if after[u].name in bp[i].aliases { NamesAfter(bp, refs, remote, next, order, commands, i, u); }
    }
  }

  lemma {:induction false} MissingAfter(bp: Blueprint, refs: map<string, nat>, remote: seq<RemoteTable>, next: nat,
                            order: seq<Action>, commands: seq<Command>, i: nat)
    requires Sound(bp, remote, next) && Planned(bp, refs, remote, order, commands)
    requires i < |bp| && FindAt(bp, refs, remote, i) == Missing
    ensures var s := After(remote, next, commands);
      && bp[i].key in s.created
      && var f := Bound(s.created[bp[i].key], ConfiguredId);
      && FindAt(bp, RefsAfter(bp, refs, remote, next, commands), s.remote, i) == f
      && FieldsBound(s.remote, f) == MutationFields(bp[i].fields)
  {
    var after := After(remote, next, commands).remote;
    AfterShape(bp, refs, remote, next, order, commands);
    var t := MissingIsMade(bp, refs, remote, next, order, commands, i);
    MadeIsSole(bp, refs, remote, next, order, commands, i, t);
    CreatedGoesFirst(refs, Discover(bp, refs, remote).bindings, After(remote, next, commands).created, bp[i].key);
    assert ValidTable(bp[i]);
    SoleIsBound(bp[i], after, t);
  }

  lemma {:induction false} MissingSettles(bp: Blueprint, refs: map<string, nat>, remote: seq<RemoteTable>, next: nat,
                              order: seq<Action>, commands: seq<Command>, i: nat)
    requires Sound(bp, remote, next) && Planned(bp, refs, remote, order, commands)
    requires i < |bp| && FindAt(bp, refs, remote, i) == Missing
    ensures Settled(bp, RefsAfter(bp, refs, remote, next, commands), After(remote, next, commands).remote, i)
  {
    MissingAfter(bp, refs, remote, next, order, commands, i);
    assert ValidTable(bp[i]);
    NewTableIsComplete(bp[i]);
  }

  // When every table is settled there is nothing to report and nothing to do.
  lemma {:induction false} AllSettledIsReady(bp: Blueprint, refs: map<string, nat>, remote: seq<RemoteTable>)
    requires ValidBlueprint(bp) && forall i | 0 <= i < |bp| :: Settled(bp, refs, remote, i)
    ensures Survey(bp, refs, remote) == Ok(Analysis(Ready, [], [], []))
  {
    var d := Discover(bp, refs, remote);
    var fields := ListFields(d, remote);
    forall i | 0 <= i < |bp|
      ensures FindAt(bp, refs, remote, i).Bound? && FindAt(bp, refs, remote, i).how == ConfiguredId
      ensures bp[i].key in d.bindings && Complete(bp[i], fields[bp[i].key]) && !HasDuplicate(fields[bp[i].key])
    {
      SettledIsListed(bp, refs, remote, i);
    }
    NothingListed(bp, refs, remote);
    AllComplete(bp, d.bindings, fields);
  }

  lemma {:induction false} SettledIsListed(bp: Blueprint, refs: map<string, nat>, remote: seq<RemoteTable>, i: nat)
    requires ValidBlueprint(bp) && i < |bp| && Settled(bp, refs, remote, i)
    ensures var d := Discover(bp, refs, remote);
      bp[i].key in d.bindings && d.bindings[bp[i].key] == FindAt(bp, refs, remote, i)
  {
    ValidIsKeyed(bp);
    DiscoveredOnce(bp, refs, remote, i);
  }

  lemma {:induction false} NothingListed(bp: Blueprint, refs: map<string, nat>, remote: seq<RemoteTable>)
    requires forall i | 0 <= i < |bp| :: FindAt(bp, refs, remote, i).Bound? && FindAt(bp, refs, remote, i).how == ConfiguredId
    ensures var d := Discover(bp, refs, remote);
      d.missing == [] && d.ambiguous == [] && d.mismatched == [] && d.bindEnv == []
    decreases |bp|
  {
    if bp != [] {
      var n := |bp| - 1;
      forall i | 0 <= i < n ensures FindAt(bp[..n], refs, remote, i) == FindAt(bp, refs, remote, i) { }
      NothingListed(bp[..n], refs, remote);
    }
  }

  // The main result: an additive plan, carried out in any order, makes the base read as ready, with nothing
  // left to do, under the ids it recorded...
  lemma {:induction false} ApplyReachesReady(bp: Blueprint, refs: map<string, nat>, remote: seq<RemoteTable>, next: nat,
                                 order: seq<Action>, commands: seq<Command>)
    requires Sound(bp, remote, next) && Planned(bp, refs, remote, order, commands)
    ensures var post, after := RefsAfter(bp, refs, remote, next, commands), After(remote, next, commands).remote;
      && Survey(bp, post, after) == Ok(Analysis(Ready, [], [], []))
      && forall i | 0 <= i < |bp| :: FindAt(bp, post, after, i).Bound? && FindAt(bp, post, after, i).how == ConfiguredId
  {
    var post, after := RefsAfter(bp, refs, remote, next, commands), After(remote, next, commands).remote;
    forall i | 0 <= i < |bp| ensures Settled(bp, post, after, i) {
      TableSettles(bp, refs, remote, next, order, commands, i);
    }
    AllSettledIsReady(bp, post, after);
    forall i | 0 <= i < |bp| ensures FindAt(bp, post, after, i).Bound? && FindAt(bp, post, after, i).how == ConfiguredId {
      assert Settled(bp, post, after, i);
    }
  }

  // The field types, by Lark's numbers: a checkbox (7) and a date (5) that accept a number are made a number (2),
  // a single select (3) that accepts a text is made a text (1), and every other field has its own type.
  predicate MadeAs(spec: FieldSpec, found: Option<RemoteField>) {
    && found.Some? && found.value.name == spec.name && found.value.primary == spec.primary
    && found.value.kind ==
      if (spec.kind == 7 || spec.kind == 5) && 2 in spec.compatible then 2
      else if spec.kind == 3 && 1 in spec.compatible then 1
      else spec.kind
  }

  // The other half of the main result: a blueprint field that was not there before is there afterwards, as said
  // above, and one that was there is as it was.
  lemma {:induction false} FieldsAfter(bp: Blueprint, refs: map<string, nat>, remote: seq<RemoteTable>, next: nat,
                           order: seq<Action>, commands: seq<Command>, i: nat, k: nat)
    requires Sound(bp, remote, next) && Planned(bp, refs, remote, order, commands)
    requires i < |bp| && k < |bp[i].fields|
    ensures var post, after := RefsAfter(bp, refs, remote, next, commands), After(remote, next, commands).remote;
      var before, spec := FindAt(bp, refs, remote, i), bp[i].fields[k];
      var found, there := Lookup(FieldsBound(after, FindAt(bp, post, after, i)), spec.name), Lookup(FieldsBound(remote, before), spec.name);
      if before.Bound? && there.Some? then found == there else MadeAs(spec, found)
  {
    AdditiveTable(bp, refs, remote, i);
    var f, spec := FindAt(bp, refs, remote, i), bp[i].fields[k];
    if f.Bound? {
      BoundAfter(bp, refs, remote, next, order, commands, i);
      LookupJoin(FieldsBound(remote, f), FieldsFor(commands, f.id), spec.name);
      if Lookup(FieldsBound(remote, f), spec.name).None? {
        assert Fixable(spec, Lookup(FieldsBound(remote, f), spec.name));
        MissingIsAdded(bp, refs, remote, order, commands, i, k);
      }
    } else {
      MissingAfter(bp, refs, remote, next, order, commands, i);
      NewFieldIs(bp[i], k);
    }
  }

  lemma {:induction false} NewFieldIs(t: TableSpec, k: nat)
    requires ValidTable(t) && k < |t.fields|
    ensures Lookup(MutationFields(t.fields), t.fields[k].name) == Some(MutationField(t.fields[k]))
  {
    var fields := MutationFields(t.fields);
    assert fields[k] == MutationField(t.fields[k]);
    forall g <- fields ensures g.name == fields[k].name ==> g == fields[k] {
      var l :| 0 <= l < |fields| && fields[l] == g;
      if g.name == fields[k].name { SameNameSameField(t, k, l); }
    }
    LookupOnly(fields, fields[k]);
  }

  lemma {:induction false} TableSettles(bp: Blueprint, refs: map<string, nat>, remote: seq<RemoteTable>, next: nat,
                            order: seq<Action>, commands: seq<Command>, i: nat)
    requires Sound(bp, remote, next) && Planned(bp, refs, remote, order, commands) && i < |bp|
    ensures Settled(bp, RefsAfter(bp, refs, remote, next, commands), After(remote, next, commands).remote, i)
  {
    AdditiveTable(bp, refs, remote, i);
    if FindAt(bp, refs, remote, i).Bound? {
      BoundSettles(bp, refs, remote, next, order, commands, i);
    } else {
      MissingSettles(bp, refs, remote, next, order, commands, i);
    }
  }

  lemma {:induction false} AdoptHas(entries: seq<EnvEntry>, i: nat)
    requires i < |entries| && forall a, b | 0 <= a < b < |entries| :: entries[a].key != entries[b].key
    ensures Configured(Adopt(entries), entries[i].key) == Some(entries[i].id)
  {
    if i > 0 {
      assert entries[0].key != entries[i].key;
      AdoptHas(entries[1..], i - 1);
    }
  }

  // ...and under the environment entries it emits.
  lemma {:induction false} EmittedEnvironmentIsReady(bp: Blueprint, refs: map<string, nat>, remote: seq<RemoteTable>, entries: seq<EnvEntry>)
    requires ValidBlueprint(bp) && Survey(bp, refs, remote) == Ok(Analysis(Ready, [], [], []))
    requires forall i | 0 <= i < |bp| :: FindAt(bp, refs, remote, i).Bound? && FindAt(bp, refs, remote, i).how == ConfiguredId
    requires |entries| == |bp|
    requires forall i | 0 <= i < |bp| :: entries[i] == EnvEntry(bp[i].key, BindingId(Discover(bp, refs, remote).bindings, bp[i].key))
    ensures Survey(bp, Adopt(entries), remote) == Ok(Analysis(Ready, [], [], []))
  {
    ValidIsKeyed(bp);
    forall i | 0 <= i < |bp| ensures Configured(Adopt(entries), bp[i].key) == Configured(refs, bp[i].key) {
      DiscoveredOnce(bp, refs, remote, i);
      assert FindAt(bp, refs, remote, i).Bound?;
      forall a, b | 0 <= a < b < |entries| ensures entries[a].key != entries[b].key { assert bp[a].key != bp[b].key; }
      AdoptHas(entries, i);
      ConfiguredIdIsThat(bp[i], Configured(refs, bp[i].key), remote);
    }
    SameRefsSameDiscovery(bp, Adopt(entries), refs, remote);
  }

  lemma {:induction false} ConfiguredIdIsThat(spec: TableSpec, configured: Option<nat>, remote: seq<RemoteTable>)
    requires Find(spec, configured, remote).Bound? && Find(spec, configured, remote).how == ConfiguredId
    ensures configured == Some(Find(spec, configured, remote).id)
  {
    var t := SelectHas(remote, IdIs(configured.value), 0);
  }

  lemma {:induction false} SameRefsSameDiscovery(bp: Blueprint, a: map<string, nat>, b: map<string, nat>, remote: seq<RemoteTable>)
    requires forall i | 0 <= i < |bp| :: Configured(a, bp[i].key) == Configured(b, bp[i].key)
    ensures Discover(bp, a, remote) == Discover(bp, b, remote)
    decreases |bp|
  {
    if bp != [] {
      var n := |bp| - 1;
      forall i | 0 <= i < n ensures Configured(a, bp[..n][i].key) == Configured(b, bp[..n][i].key) {
        assert bp[..n][i] == bp[i];
      }
      SameRefsSameDiscovery(bp[..n], a, b, remote);
    }
  }

  // The whole apply -------------------------------------------------------------------------------------------

  lemma {:induction false} PlanIsPlanned(bp: Blueprint, refs: map<string, nat>, remote: seq<RemoteTable>, before: Order, commands: seq<Command>)
    requires ValidBlueprint(bp) && AdditiveAt(bp, refs, remote)
    requires Answers(bp, Discover(bp, refs, remote).bindings, Sort(ActionsAt(bp, refs, remote), before), commands)
    ensures Planned(bp, refs, remote, Sort(ActionsAt(bp, refs, remote), before), commands)
  {
    ActionsDistinct(bp, refs, remote);
    SortKeeps(ActionsAt(bp, refs, remote), before);
  }

  // A base that reads as ready is fully bound by its configured ids.
  lemma {:induction false} ReadyIsConfigured(bp: Blueprint, refs: map<string, nat>, remote: seq<RemoteTable>, i: nat)
    requires ValidBlueprint(bp) && i < |bp| && Survey(bp, refs, remote).Ok?
    requires Survey(bp, refs, remote).value.decision == Ready
    ensures FindAt(bp, refs, remote, i).Bound? && FindAt(bp, refs, remote, i).how == ConfiguredId
    ensures Survey(bp, refs, remote) == Ok(Analysis(Ready, [], [], []))
    ensures Configured(PostRefs(refs, Discover(bp, refs, remote).bindings, map[]), bp[i].key) == Configured(refs, bp[i].key)
  {
    ValidIsKeyed(bp);
    DiscoveredOnce(bp, refs, remote, i);
    ConfiguredIdIsThat(bp[i], Configured(refs, bp[i].key), remote);
  }

  // Reads the metadata, plans, sends the requests, and reads the metadata again.
  method ApplyAdditiveSchema(bp: Blueprint, base: LarkBase, refs: map<string, nat>, reviewed: set<string>, before: Order)
    returns (r: Result<seq<EnvEntry>, ApplyError>)
    requires Sound(bp, base.tables, base.nextId) && bp != []
    modifies base
    ensures var survey := Survey(bp, refs, old(base.tables));
      r.Ok? <==> survey.Ok? && (survey.value.decision == Ready
                                || (survey.value.decision == Additive && Reviewed(survey.value.actions, reviewed)))
    ensures r.Err? ==> base.tables == old(base.tables)
    ensures r.Ok? ==> Survey(bp, Adopt(r.value), base.tables) == Ok(Analysis(Ready, [], [], []))
    ensures r.Ok? && Survey(bp, refs, old(base.tables)).value.decision == Ready ==> base.tables == old(base.tables)
  {
    ghost var tables, next := base.tables, base.nextId;
    var d, survey := ReadMetadata(bp, refs, base.tables);
    if survey.Err? { return Err(PlanBlocked); }
    if survey.value.decision == Additive { AdditiveCanBePlanned(bp, refs, tables); }
    if survey.value.decision == Ready { ReadyIsConfigured(bp, refs, tables, 0); }
    var plan := BuildPlan(bp, survey.value, d.bindings, reviewed, before);
    if plan.Err? { return Err(plan.error); }
    var created := base.Apply(plan.value);
    var post := PostRefs(refs, d.bindings, created);
    if survey.value.decision == Ready {
      forall i | 0 <= i < |bp| ensures Configured(post, bp[i].key) == Configured(refs, bp[i].key) {
        ReadyIsConfigured(bp, refs, tables, i);
      }
      SameRefsSameDiscovery(bp, post, refs, tables);
    } else {
      PlanIsPlanned(bp, refs, tables, before, plan.value);
      ApplyReachesReady(bp, refs, tables, next, Sort(survey.value.actions, before), plan.value);
    }
    var d', verification := ReadMetadata(bp, post, base.tables);
    forall i | 0 <= i < |bp|
      ensures bp[i].key in d'.bindings && d'.bindings[bp[i].key].Bound?
      ensures FindAt(bp, post, base.tables, i).Bound? && FindAt(bp, post, base.tables, i).how == ConfiguredId
    {
      ReadyIsConfigured(bp, post, base.tables, i);
      SettledKey(bp, post, base.tables, i);
    }
    r := EnvironmentUpdates(bp, d'.bindings);
    EmittedEnvironmentIsReady(bp, post, base.tables, r.value);
  }

  lemma {:induction false} SettledKey(bp: Blueprint, refs: map<string, nat>, remote: seq<RemoteTable>, i: nat)
    requires ValidBlueprint(bp) && i < |bp| && FindAt(bp, refs, remote, i).Bound?
    ensures bp[i].key in Discover(bp, refs, remote).bindings
    ensures Discover(bp, refs, remote).bindings[bp[i].key] == FindAt(bp, refs, remote, i)
  {
    ValidIsKeyed(bp);
    DiscoveredOnce(bp, refs, remote, i);
  }
}
