// Finding the Chatwoot tables in a Lark base and comparing their fields with the blueprint. Names stand for
// normalized names.
module ChatwootMetadata {
  import opened Wrappers

  const TEXT := 1
  const NUMBER := 2
  const SINGLE_SELECT := 3
  const DATETIME := 5
  const CHECKBOX := 7
  const FIELD_TYPES: seq<nat> := [TEXT, NUMBER, SINGLE_SELECT, DATETIME, CHECKBOX]

  datatype FieldSpec = FieldSpec(name: string, kind: nat, compatible: seq<nat>, primary: bool)
  datatype TableSpec = TableSpec(key: string, aliases: seq<string>, createName: string, fields: seq<FieldSpec>)
  type Blueprint = seq<TableSpec>

  datatype RemoteField = RemoteField(name: string, kind: nat, primary: bool)
  datatype RemoteTable = RemoteTable(id: nat, name: string, fields: seq<RemoteField>)

  ghost predicate ValidTable(t: TableSpec) {
    && t.createName in t.aliases && t.fields != []
    && (forall i | 0 <= i < |t.fields| :: t.fields[i].primary == (i == 0))
    && (forall i | 0 <= i < |t.fields| :: t.fields[i].name != "" && t.fields[i].kind in t.fields[i].compatible)
    && (forall i | 0 <= i < |t.fields| :: t.fields[i].kind in FIELD_TYPES)
    && (forall i, j | 0 <= i < j < |t.fields| :: t.fields[i].name != t.fields[j].name)
  }

  ghost predicate Apart(t: TableSpec, u: TableSpec) {
    t.key != u.key && forall n <- t.aliases :: n !in u.aliases
  }

  ghost predicate ValidBlueprint(bp: Blueprint) {
    && (forall i | 0 <= i < |bp| :: ValidTable(bp[i]))
    && (forall i, j | 0 <= i < |bp| && 0 <= j < |bp| && i != j :: Apart(bp[i], bp[j]))
  }

  // Selecting remote tables --------------------------------------------------------------------------

  datatype Test = IdIs(id: nat) | NameIn(names: seq<string>)

  predicate Passes(t: RemoteTable, test: Test) {
    match test
    case IdIs(id) => t.id == id
    case NameIn(names) => t.name in names
  }

  function Select(remote: seq<RemoteTable>, test: Test): seq<RemoteTable> {
    if remote == [] then []
    else (if Passes(remote[0], test) then [remote[0]] else []) + Select(remote[1..], test)
  }

  lemma {:induction false} SelectNone(remote: seq<RemoteTable>, test: Test)
    requires forall t | 0 <= t < |remote| :: !Passes(remote[t], test)
    ensures Select(remote, test) == []
  {
    if remote != [] { SelectNone(remote[1..], test); }
  }

  lemma {:induction false} SelectOnly(remote: seq<RemoteTable>, test: Test, t: nat)
    requires t < |remote| && Passes(remote[t], test)
    requires forall u | 0 <= u < |remote| && u != t :: !Passes(remote[u], test)
    ensures Select(remote, test) == [remote[t]]
  {
    if t == 0 {
      SelectNone(remote[1..], test);
    } else {
      assert !Passes(remote[0], test);
      SelectOnly(remote[1..], test, t - 1);
    }
  }

  lemma {:induction false} SelectHas(remote: seq<RemoteTable>, test: Test, k: nat) returns (t: nat)
    requires k < |Select(remote, test)|
    ensures t < |remote| && remote[t] == Select(remote, test)[k] && Passes(remote[t], test)
  {
    var rest := Select(remote[1..], test);
    if !Passes(remote[0], test) {
      assert Select(remote, test) == rest;
      var u := SelectHas(remote[1..], test, k);
      t := u + 1;
    } else if k == 0 {
      t := 0;
    } else {
      assert Select(remote, test)[k] == rest[k - 1];
      var u := SelectHas(remote[1..], test, k - 1);
      t := u + 1;
    }
  }

  lemma {:induction false} SelectSome(remote: seq<RemoteTable>, test: Test, t: nat)
    requires t < |remote| && Passes(remote[t], test)
    ensures Select(remote, test) != []
  {
    if t > 0 { SelectSome(remote[1..], test, t - 1); }
  }

  lemma {:induction false} SelectTwo(remote: seq<RemoteTable>, test: Test, t: nat, u: nat)
    requires t < u < |remote| && Passes(remote[t], test) && Passes(remote[u], test)
    ensures |Select(remote, test)| > 1
  {
    if t > 0 { SelectTwo(remote[1..], test, t - 1, u - 1); } else { SelectSome(remote[1..], test, u - 1); }
  }

  // Discovery -----------------------------------------------------------------------------------------

  datatype How = ConfiguredId | RepairStaleEnv | AliasDiscovery
  datatype Finding = Bound(id: nat, how: How) | Missing | Ambiguous | Mismatched
  datatype Discovery = Discovery(bindings: map<string, Finding>, missing: seq<string>, ambiguous: seq<string>,
                                 mismatched: seq<string>, bindEnv: seq<string>)

  const NOTHING_FOUND := Discovery(map[], [], [], [], [])

  function Configured(refs: map<string, nat>, key: string): Option<nat> { if key in refs then Some(refs[key]) else None }

  function ById(remote: seq<RemoteTable>, configured: Option<nat>): seq<RemoteTable> {
    if configured.Some? then Select(remote, IdIs(configured.value)) else []
  }

  function Find(spec: TableSpec, configured: Option<nat>, remote: seq<RemoteTable>): Finding {
    var byId, byAlias := ById(remote, configured), Select(remote, NameIn(spec.aliases));
    if |byId| > 1 || |byAlias| > 1 then Ambiguous
    else if |byId| == 1 then (if byId[0].name in spec.aliases then Bound(byId[0].id, ConfiguredId) else Mismatched)
    else if |byAlias| == 1 then Bound(byAlias[0].id, if configured.Some? then RepairStaleEnv else AliasDiscovery)
    else Missing
  }

  function Record(d: Discovery, key: string, f: Finding): Discovery {
    match f
    case Bound(_, how) =>
      d.(bindings := d.bindings[key := f], bindEnv := if how == ConfiguredId then d.bindEnv else d.bindEnv + [key])
    case Missing => d.(missing := d.missing + [key])
    case Ambiguous => d.(ambiguous := d.ambiguous + [key])
    case Mismatched => d.(mismatched := d.mismatched + [key])
  }

  function FindAt(bp: Blueprint, refs: map<string, nat>, remote: seq<RemoteTable>, i: nat): Finding
    requires i < |bp|
  {
    Find(bp[i], Configured(refs, bp[i].key), remote)
  }

  function Discover(bp: Blueprint, refs: map<string, nat>, remote: seq<RemoteTable>): Discovery
    decreases |bp|
  {
    if bp == [] then NOTHING_FOUND else
    var n := |bp| - 1;
    Record(Discover(bp[..n], refs, remote), bp[n].key, FindAt(bp, refs, remote, n))
  }

  method DiscoverTables(bp: Blueprint, refs: map<string, nat>, remote: seq<RemoteTable>) returns (d: Discovery)
    ensures d == Discover(bp, refs, remote)
  {
    var bindings, missing, ambiguous, mismatched, bindEnv := map[], [], [], [], [];
    for i := 0 to |bp|
      invariant Discovery(bindings, missing, ambiguous, mismatched, bindEnv) == Discover(bp[..i], refs, remote)
    {
      assert bp[..i + 1][..i] == bp[..i] && bp[..i + 1][i] == bp[i];
      var key, configured := bp[i].key, Configured(refs, bp[i].key);
      var byId, byAlias := ById(remote, configured), Select(remote, NameIn(bp[i].aliases));
      if |byId| > 1 || |byAlias| > 1 {
        ambiguous := ambiguous + [key];
      } else if |byId| == 1 {
        if byId[0].name in bp[i].aliases {
          bindings := bindings[key := Bound(byId[0].id, ConfiguredId)];
        } else {
          mismatched := mismatched + [key];
        }
      } else if |byAlias| == 1 {
        bindings := bindings[key := Bound(byAlias[0].id, if configured.Some? then RepairStaleEnv else AliasDiscovery)];
        bindEnv := bindEnv + [key];
      } else {
        missing := missing + [key];
      }
    }
    assert bp[..|bp|] == bp;
    d := Discovery(bindings, missing, ambiguous, mismatched, bindEnv);
  }

  ghost predicate Keyed(bp: Blueprint) { forall i, j | 0 <= i < j < |bp| :: bp[i].key != bp[j].key }

  // A key found as `f` is listed where that says, and nowhere else.
  ghost predicate Filed(d: Discovery, key: string, f: Finding) {
    && (key in d.bindings <==> f.Bound?) && (f.Bound? ==> d.bindings[key] == f)
    && (key in d.missing <==> f == Missing) && (key in d.ambiguous <==> f == Ambiguous)
    && (key in d.mismatched <==> f == Mismatched) && (key in d.bindEnv <==> f.Bound? && f.how != ConfiguredId)
  }

  ghost predicate Unfiled(d: Discovery, key: string) {
    key !in d.bindings && key !in d.missing && key !in d.ambiguous && key !in d.mismatched && key !in d.bindEnv
  }

  lemma {:induction false} RecordFiles(d: Discovery, key: string, f: Finding, other: string)
    ensures Unfiled(d, key) ==> Filed(Record(d, key, f), key, f)
    ensures other != key && Unfiled(d, other) ==> Unfiled(Record(d, key, f), other)
    ensures forall g | other != key && Filed(d, other, g) :: Filed(Record(d, key, f), other, g)
  {
  }

  lemma {:induction false} OthersUnfiled(bp: Blueprint, refs: map<string, nat>, remote: seq<RemoteTable>, key: string)
    requires forall i | 0 <= i < |bp| :: bp[i].key != key
    ensures Unfiled(Discover(bp, refs, remote), key)
    decreases |bp|
  {
    if bp != [] {
      var n := |bp| - 1;
      OthersUnfiled(bp[..n], refs, remote, key);
      RecordFiles(Discover(bp[..n], refs, remote), bp[n].key, FindAt(bp, refs, remote, n), key);
    }
  }

  // Every blueprint key is found in exactly one way, and listed where that way says.
  lemma {:induction false} DiscoveredOnce(bp: Blueprint, refs: map<string, nat>, remote: seq<RemoteTable>, i: nat)
    requires Keyed(bp) && i < |bp|
    ensures Filed(Discover(bp, refs, remote), bp[i].key, FindAt(bp, refs, remote, i))
    decreases |bp|
  {
    var n := |bp| - 1;
    if i == n {
      OthersUnfiled(bp[..n], refs, remote, bp[n].key);
    } else {
      DiscoveredOnce(bp[..n], refs, remote, i);
      assert FindAt(bp[..n], refs, remote, i) == FindAt(bp, refs, remote, i);
    }
    RecordFiles(Discover(bp[..n], refs, remote), bp[n].key, FindAt(bp, refs, remote, n), bp[i].key);
  }

  // A bound table is one of the remote tables, under one of its blueprint's names.
  lemma {:induction false} BoundIsNamed(spec: TableSpec, configured: Option<nat>, remote: seq<RemoteTable>) returns (t: nat)
    requires Find(spec, configured, remote).Bound?
    ensures t < |remote| && remote[t].id == Find(spec, configured, remote).id && remote[t].name in spec.aliases
    ensures ById(remote, configured) != [] ==> ById(remote, configured) == [remote[t]] && configured == Some(remote[t].id)
  {
    var byId := ById(remote, configured);
    if |byId| == 1 {
      t := SelectHas(remote, IdIs(configured.value), 0);
    } else {
      t := SelectHas(remote, NameIn(spec.aliases), 0);
    }
  }

  // Two remote tables at least pass.
  ghost predicate Several(remote: seq<RemoteTable>, test: Test) {
    exists t, u :: 0 <= t < u < |remote| && Passes(remote[t], test) && Passes(remote[u], test)
  }

  // One and no other.
  ghost predicate Sole(remote: seq<RemoteTable>, test: Test, t: nat) {
    t < |remote| && Passes(remote[t], test) && forall u | 0 <= u < |remote| && u != t :: !Passes(remote[u], test)
  }

  ghost predicate NoneOf(remote: seq<RemoteTable>, test: Test) { forall t | 0 <= t < |remote| :: !Passes(remote[t], test) }

  lemma {:induction false} SelectCounts(remote: seq<RemoteTable>, test: Test)
    ensures |Select(remote, test)| > 1 <==> Several(remote, test)
    ensures Select(remote, test) == [] <==> NoneOf(remote, test)
    ensures |Select(remote, test)| == 1 ==> exists t: nat :: Sole(remote, test, t) && Select(remote, test) == [remote[t]]
  {
    if t, u :| 0 <= t < u < |remote| && Passes(remote[t], test) && Passes(remote[u], test) {
      SelectTwo(remote, test, t, u);
    } else if t :| 0 <= t < |remote| && Passes(remote[t], test) {
      SelectOnly(remote, test, t);
      assert Sole(remote, test, t);
    } else {
      SelectNone(remote, test);
    }
  }

  // The configured id leads to one table...
  ghost predicate FoundById(spec: TableSpec, id: nat, remote: seq<RemoteTable>, found: Finding) {
    exists t: nat :: Sole(remote, IdIs(id), t) && found == if remote[t].name in spec.aliases then Bound(id, ConfiguredId) else Mismatched
  }

  // ...or there is none under it, and one carries a name.
  ghost predicate FoundByName(spec: TableSpec, configured: Option<nat>, remote: seq<RemoteTable>, found: Finding) {
    exists t: nat :: Sole(remote, NameIn(spec.aliases), t)
      && found == Bound(remote[t].id, if configured.Some? then RepairStaleEnv else AliasDiscovery)
  }

  // How a table is found: with two candidates by id or by name it is ambiguous; else by the configured id, when the
  // table under it carries one of the names; else by its name, which repairs a configured id that leads nowhere.
  lemma {:induction false} FoundExactly(spec: TableSpec, configured: Option<nat>, remote: seq<RemoteTable>)
    ensures var byName, found := NameIn(spec.aliases), Find(spec, configured, remote);
      && (found == Ambiguous <==> (configured.Some? && Several(remote, IdIs(configured.value))) || Several(remote, byName))
      && (found == Missing <==> (configured.Some? ==> NoneOf(remote, IdIs(configured.value))) && NoneOf(remote, byName))
      && (found == Mismatched || (found.Bound? && found.how == ConfiguredId) ==>
        configured.Some? && FoundById(spec, configured.value, remote, found))
      && (found.Bound? && found.how != ConfiguredId ==>
        (configured.Some? ==> NoneOf(remote, IdIs(configured.value))) && FoundByName(spec, configured, remote, found))
  {
    SelectCounts(remote, NameIn(spec.aliases));
    if configured.Some? { SelectCounts(remote, IdIs(configured.value)); }
  }

  ghost predicate OnlyCarrier(remote: seq<RemoteTable>, names: seq<string>, t: nat) {
    && t < |remote| && remote[t].name in names
    && forall u | 0 <= u < |remote| && u != t :: remote[u].name !in names
  }

  predicate NoSuchId(remote: seq<RemoteTable>, configured: Option<nat>) {
    configured.Some? ==> forall t | 0 <= t < |remote| :: remote[t].id != configured.value
  }

  // No remote table has the configured id of either key, exactly one remote table carries a name of each, and
  // those two tables share an id.
  ghost predicate SharedAlias(bp: Blueprint, refs: map<string, nat>, remote: seq<RemoteTable>, i: nat, j: nat)
    requires i < |bp| && j < |bp|
  {
    && NoSuchId(remote, Configured(refs, bp[i].key)) && NoSuchId(remote, Configured(refs, bp[j].key))
    && exists t: nat, u: nat :: OnlyCarrier(remote, bp[i].aliases, t) && OnlyCarrier(remote, bp[j].aliases, u)
                      && remote[t].id == remote[u].id
  }

  lemma {:induction false} NamedIsBound(spec: TableSpec, configured: Option<nat>, remote: seq<RemoteTable>, t: nat)
    requires NoSuchId(remote, configured) && OnlyCarrier(remote, spec.aliases, t)
    ensures Find(spec, configured, remote).Bound? && Find(spec, configured, remote).id == remote[t].id
  {
    if configured.Some? { SelectNone(remote, IdIs(configured.value)); }
    SelectOnly(remote, NameIn(spec.aliases), t);
  }

  lemma {:induction false} BoundIsOnlyCarrier(spec: TableSpec, configured: Option<nat>, remote: seq<RemoteTable>, t: nat)
    requires Find(spec, configured, remote).Bound? && t < |remote| && remote[t].name in spec.aliases
    ensures OnlyCarrier(remote, spec.aliases, t)
  {
    forall u | 0 <= u < |remote| && u != t ensures remote[u].name !in spec.aliases {
      if remote[u].name in spec.aliases {
        SelectTwo(remote, NameIn(spec.aliases), if t < u then t else u, if t < u then u else t);
      }
    }
  }

  lemma {:induction false} NotFoundById(remote: seq<RemoteTable>, configured: Option<nat>)
    requires ById(remote, configured) == []
    ensures NoSuchId(remote, configured)
  {
    if configured.Some? {
      forall t | 0 <= t < |remote| ensures remote[t].id != configured.value {
        if remote[t].id == configured.value { SelectSome(remote, IdIs(configured.value), t); }
      }
    }
  }

  // Two tables are bound to one id exactly when neither has a configured id that exists and the remote list
  // gives one id to the two tables that carry their names.
  lemma {:induction false} SameIdExactlyWhenShared(bp: Blueprint, refs: map<string, nat>, remote: seq<RemoteTable>, i: nat, j: nat)
    requires ValidBlueprint(bp) && i < |bp| && j < |bp| && i != j
    ensures FindAt(bp, refs, remote, i).Bound? && FindAt(bp, refs, remote, j).Bound?
            && FindAt(bp, refs, remote, i).id == FindAt(bp, refs, remote, j).id
      <==> SharedAlias(bp, refs, remote, i, j)
  {
    assert Apart(bp[i], bp[j]) && Apart(bp[j], bp[i]);
    var f, g := FindAt(bp, refs, remote, i), FindAt(bp, refs, remote, j);
    if f.Bound? && g.Bound? && f.id == g.id {
      var t := BoundIsNamed(bp[i], Configured(refs, bp[i].key), remote);
      var u := BoundIsNamed(bp[j], Configured(refs, bp[j].key), remote);
      assert t != u by { assert remote[t].name !in bp[j].aliases; }
      OnlyOneById(remote, Configured(refs, bp[i].key), t, u);
      OnlyOneById(remote, Configured(refs, bp[j].key), u, t);
      NotFoundById(remote, Configured(refs, bp[i].key));
      NotFoundById(remote, Configured(refs, bp[j].key));
      BoundIsOnlyCarrier(bp[i], Configured(refs, bp[i].key), remote, t);
      BoundIsOnlyCarrier(bp[j], Configured(refs, bp[j].key), remote, u);
    }
    if SharedAlias(bp, refs, remote, i, j) {
      var t: nat, u: nat :| OnlyCarrier(remote, bp[i].aliases, t) && OnlyCarrier(remote, bp[j].aliases, u) && remote[t].id == remote[u].id;
      NamedIsBound(bp[i], Configured(refs, bp[i].key), remote, t);
      NamedIsBound(bp[j], Configured(refs, bp[j].key), remote, u);
    }
  }

  lemma {:induction false} OnlyOneById(remote: seq<RemoteTable>, configured: Option<nat>, t: nat, u: nat)
    requires t < |remote| && u < |remote| && t != u && remote[t].id == remote[u].id
    requires |ById(remote, configured)| <= 1
    ensures configured != Some(remote[t].id)
  {
    if configured == Some(remote[t].id) {
      SelectTwo(remote, IdIs(remote[t].id), if t < u then t else u, if t < u then u else t);
    }
  }

  ghost predicate UniqueIds(remote: seq<RemoteTable>) {
    forall t, u | 0 <= t < u < |remote| :: remote[t].id != remote[u].id
  }

  // With unique remote ids, the bound ids are pairwise distinct.
  lemma {:induction false} BoundIdsDistinct(bp: Blueprint, refs: map<string, nat>, remote: seq<RemoteTable>, i: nat, j: nat)
    requires ValidBlueprint(bp) && UniqueIds(remote) && i < |bp| && j < |bp| && i != j
    requires FindAt(bp, refs, remote, i).Bound? && FindAt(bp, refs, remote, j).Bound?
    ensures FindAt(bp, refs, remote, i).id != FindAt(bp, refs, remote, j).id
  {
    var t := BoundIsNamed(bp[i], Configured(refs, bp[i].key), remote);
    var u := BoundIsNamed(bp[j], Configured(refs, bp[j].key), remote);
    assert Apart(bp[i], bp[j]);
    assert t != u by { assert remote[t].name !in bp[j].aliases; }
  }

  // Without them they need not be: two tables under one id are bound by their names.
  lemma {:induction false} SharedIdIsBoundTwice(a: TableSpec, b: TableSpec, id: nat)
    requires ValidBlueprint([a, b])
    ensures var remote := [RemoteTable(id, a.createName, []), RemoteTable(id, b.createName, [])];
      FindAt([a, b], map[], remote, 0) == FindAt([a, b], map[], remote, 1) == Bound(id, AliasDiscovery)
  {
    var remote := [RemoteTable(id, a.createName, []), RemoteTable(id, b.createName, [])];
    assert Apart([a, b][0], [a, b][1]) && Apart([a, b][1], [a, b][0]);
    assert ValidTable([a, b][0]) && ValidTable([a, b][1]);
    SelectOnly(remote, NameIn(a.aliases), 0);
    SelectOnly(remote, NameIn(b.aliases), 1);
  }
}
