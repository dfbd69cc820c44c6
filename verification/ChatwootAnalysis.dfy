// Comparing the fields of the bound tables with the blueprint, and deciding what that allows.
module ChatwootAnalysis {
  import opened Wrappers
  import opened ChatwootMetadata
  import opened Sorting

  datatype Action = BindEnv(key: string) | CreateTable(key: string) | CreateField(key: string, name: string)
  datatype Problem = TypeMismatch(key: string, name: string) | PrimaryMissing(key: string, name: string)
                   | NotPrimary(key: string, name: string)
  datatype Decision = Ready | Additive | TypeBlocked | AmbiguousBlocked
  datatype Report = Report(actions: seq<Action>, types: seq<Problem>, primaries: seq<Problem>)
  datatype Analysis = Analysis(decision: Decision, actions: seq<Action>, types: seq<Problem>, primaries: seq<Problem>)
  datatype Error = DuplicateField

  const NOTHING := Report([], [], [])

  function Lookup(fields: seq<RemoteField>, name: string): Option<RemoteField> {
    if fields == [] then None else if fields[0].name == name then Some(fields[0]) else Lookup(fields[1..], name)
  }

  predicate HasDuplicate(fields: seq<RemoteField>) {
    exists i, j | 0 <= i < j < |fields| :: fields[i].name != "" && fields[i].name == fields[j].name
  }

  // One field ---------------------------------------------------------------------------------------

  // The field is there as the blueprint wants it...
  predicate Fits(spec: FieldSpec, found: Option<RemoteField>) {
    found.Some? && found.value.kind in spec.compatible && (spec.primary ==> found.value.primary)
  }

  // ...or it can be added.
  predicate Fixable(spec: FieldSpec, found: Option<RemoteField>) { if found.None? then !spec.primary else Fits(spec, found) }

  function CheckField(r: Report, key: string, spec: FieldSpec, found: Option<RemoteField>): Report {
    if found.None? then
      if spec.primary then r.(primaries := r.primaries + [PrimaryMissing(key, spec.name)])
      else r.(actions := r.actions + [CreateField(key, spec.name)])
    else
      r.(types := if found.value.kind in spec.compatible then r.types else r.types + [TypeMismatch(key, spec.name)],
         primaries := if spec.primary && !found.value.primary then r.primaries + [NotPrimary(key, spec.name)]
                      else r.primaries)
  }

  // One table, and all of them ------------------------------------------------------------------------

  function CheckFields(r: Report, key: string, specs: seq<FieldSpec>, fields: seq<RemoteField>): Report
    decreases |specs|
  {
    if specs == [] then r else
    var n := |specs| - 1;
    CheckField(CheckFields(r, key, specs[..n], fields), key, specs[n], Lookup(fields, specs[n].name))
  }

  function CheckTables(bp: Blueprint, bindings: map<string, Finding>, fields: map<string, seq<RemoteField>>): Report
    requires bindings.Keys <= fields.Keys
    decreases |bp|
  {
    if bp == [] then NOTHING else
    var n := |bp| - 1;
    var r := CheckTables(bp[..n], bindings, fields);
    if bp[n].key in bindings then CheckFields(r, bp[n].key, bp[n].fields, fields[bp[n].key]) else r
  }

  function BindActions(keys: seq<string>): seq<Action> { seq(|keys|, i requires 0 <= i < |keys| => BindEnv(keys[i])) }
  function TableActions(keys: seq<string>): seq<Action> { seq(|keys|, i requires 0 <= i < |keys| => CreateTable(keys[i])) }

  predicate DuplicateIn(bp: Blueprint, bindings: map<string, Finding>, fields: map<string, seq<RemoteField>>)
    requires bindings.Keys <= fields.Keys
  {
    exists i | 0 <= i < |bp| :: bp[i].key in bindings && HasDuplicate(fields[bp[i].key])
  }

  function Decide(d: Discovery, r: Report, actions: seq<Action>): Decision {
    if d.ambiguous != [] then AmbiguousBlocked
    else if r.types != [] || r.primaries != [] || d.mismatched != [] then TypeBlocked
    else if actions != [] then Additive
    else Ready
  }

  function Conclude(d: Discovery, r: Report): Analysis {
    var actions := BindActions(d.bindEnv) + TableActions(d.missing) + r.actions;
    Analysis(Decide(d, r, actions), actions, r.types, r.primaries)
  }

  method CheckDuplicates(fields: seq<RemoteField>) returns (duplicate: bool)
    ensures duplicate == HasDuplicate(fields)
  {
    var seen: set<string> := {};
    for i := 0 to |fields|
      invariant forall a | 0 <= a < i :: fields[a].name == "" || fields[a].name in seen
      invariant forall n <- seen :: exists a :: 0 <= a < i && fields[a].name == n && n != ""
      invariant forall a, b | 0 <= a < b < i :: fields[a].name != "" ==> fields[a].name != fields[b].name
    {
      if fields[i].name != "" {
        if fields[i].name in seen { return true; }
        seen := seen + {fields[i].name};
      }
    }
    duplicate := false;
  }

  method AnalyzeFields(r: Report, key: string, specs: seq<FieldSpec>, fields: seq<RemoteField>) returns (s: Report)
    ensures s == CheckFields(r, key, specs, fields)
  {
    s := r;
    for i := 0 to |specs|
      invariant s == CheckFields(r, key, specs[..i], fields)
    {
      assert specs[..i + 1][..i] == specs[..i] && specs[..i + 1][i] == specs[i];
      var remote := Lookup(fields, specs[i].name);
      if remote.None? {
        if specs[i].primary {
          s := s.(primaries := s.primaries + [PrimaryMissing(key, specs[i].name)]);
        } else {
          s := s.(actions := s.actions + [CreateField(key, specs[i].name)]);
        }
      } else {
        if remote.value.kind !in specs[i].compatible { s := s.(types := s.types + [TypeMismatch(key, specs[i].name)]); }
        if specs[i].primary && !remote.value.primary {
          s := s.(primaries := s.primaries + [NotPrimary(key, specs[i].name)]);
        }
      }
    }
    assert specs[..|specs|] == specs;
  }

  method AnalyzeMetadata(bp: Blueprint, d: Discovery, fields: map<string, seq<RemoteField>>) returns (r: Result<Analysis, Error>)
    requires d.bindings.Keys <= fields.Keys
    ensures r == if DuplicateIn(bp, d.bindings, fields) then Err(DuplicateField)
                 else Ok(Conclude(d, CheckTables(bp, d.bindings, fields)))
  {
    var report := NOTHING;
    for i := 0 to |bp|
      invariant report == CheckTables(bp[..i], d.bindings, fields)
      invariant forall j | 0 <= j < i :: bp[j].key in d.bindings ==> !HasDuplicate(fields[bp[j].key])
    {
      assert bp[..i + 1][..i] == bp[..i] && bp[..i + 1][i] == bp[i];
      if bp[i].key in d.bindings {
        var duplicate := CheckDuplicates(fields[bp[i].key]);
        if duplicate { return Err(DuplicateField); }
        report := AnalyzeFields(report, bp[i].key, bp[i].fields, fields[bp[i].key]);
      }
    }
    assert bp[..|bp|] == bp;
    r := Ok(Conclude(d, report));
  }

  // Reading the metadata: discovery, the fields of every bound table, and the analysis of both.
  function FieldsBound(remote: seq<RemoteTable>, f: Finding): seq<RemoteField> {
    if f.Bound? && Select(remote, IdIs(f.id)) != [] then Select(remote, IdIs(f.id))[0].fields else []
  }

  function ListFields(d: Discovery, remote: seq<RemoteTable>): map<string, seq<RemoteField>> {
    map key | key in d.bindings :: FieldsBound(remote, d.bindings[key])
  }

  function Survey(bp: Blueprint, refs: map<string, nat>, remote: seq<RemoteTable>): Result<Analysis, Error> {
    var d := Discover(bp, refs, remote);
    var fields := ListFields(d, remote);
    if DuplicateIn(bp, d.bindings, fields) then Err(DuplicateField)
    else Ok(Conclude(d, CheckTables(bp, d.bindings, fields)))
  }

  method ReadMetadata(bp: Blueprint, refs: map<string, nat>, remote: seq<RemoteTable>)
    returns (d: Discovery, r: Result<Analysis, Error>)
    ensures d == Discover(bp, refs, remote) && r == Survey(bp, refs, remote)
  {
    d := DiscoverTables(bp, refs, remote);
    r := AnalyzeMetadata(bp, d, ListFields(d, remote));
  }

  // What a report says ----------------------------------------------------------------------------------

  ghost predicate Clean(r: Report) { r.types == [] && r.primaries == [] }

  ghost predicate Wanted(specs: seq<FieldSpec>, fields: seq<RemoteField>, name: string) {
    exists k :: 0 <= k < |specs| && specs[k].name == name && !specs[k].primary && Lookup(fields, name).None?
  }

  lemma {:induction false} CheckedFields(r: Report, key: string, specs: seq<FieldSpec>, fields: seq<RemoteField>)
    ensures var s := CheckFields(r, key, specs, fields);
      Clean(s) <==> Clean(r) && forall k | 0 <= k < |specs| :: Fixable(specs[k], Lookup(fields, specs[k].name))
    decreases |specs|
  {
    if specs != [] { CheckedFields(r, key, specs[..|specs| - 1], fields); }
  }

  lemma {:induction false} CheckedActions(r: Report, key: string, specs: seq<FieldSpec>, fields: seq<RemoteField>, a: Action)
    ensures var s := CheckFields(r, key, specs, fields);
      a in s.actions <==> a in r.actions || (a.CreateField? && a.key == key && Wanted(specs, fields, a.name))
    decreases |specs|
  {
    if specs != [] {
      var n := |specs| - 1;
      CheckedActions(r, key, specs[..n], fields, a);
      if a.CreateField? {
        WantedLast(specs, fields, a.name);
      }
    }
  }

  lemma {:induction false} WantedLast(specs: seq<FieldSpec>, fields: seq<RemoteField>, name: string)
    requires specs != []
    ensures var n := |specs| - 1;
      Wanted(specs, fields, name) <==>
        (Wanted(specs[..n], fields, name) || (specs[n].name == name && !specs[n].primary && Lookup(fields, name).None?))
  {
    var n := |specs| - 1;
    if k :| 0 <= k < n && specs[k].name == name && !specs[k].primary && Lookup(fields, name).None? {
      assert specs[..n][k] == specs[k];
    }
  }

  lemma {:induction false} CheckedDistinct(r: Report, key: string, specs: seq<FieldSpec>, fields: seq<RemoteField>)
    requires Distinct(r.actions) && forall a <- r.actions :: a.key != key
    requires forall i, j | 0 <= i < j < |specs| :: specs[i].name != specs[j].name
    ensures Distinct(CheckFields(r, key, specs, fields).actions)
    decreases |specs|
  {
    if specs != [] {
      var n := |specs| - 1;
      CheckedDistinct(r, key, specs[..n], fields);
      CheckedActions(r, key, specs[..n], fields, CreateField(key, specs[n].name));
    }
  }

  // A bound table whose every field is there, or can be added.
  ghost predicate Repairable(t: TableSpec, fields: seq<RemoteField>) {
    forall k | 0 <= k < |t.fields| :: Fixable(t.fields[k], Lookup(fields, t.fields[k].name))
  }

  ghost predicate Complete(t: TableSpec, fields: seq<RemoteField>) {
    forall k | 0 <= k < |t.fields| :: Fits(t.fields[k], Lookup(fields, t.fields[k].name))
  }

  lemma {:induction false} CheckedTables(bp: Blueprint, bindings: map<string, Finding>, fields: map<string, seq<RemoteField>>)
    requires bindings.Keys <= fields.Keys
    ensures Clean(CheckTables(bp, bindings, fields)) <==>
      forall i | 0 <= i < |bp| && bp[i].key in bindings :: Repairable(bp[i], fields[bp[i].key])
    decreases |bp|
  {
    if bp != [] {
      var n := |bp| - 1;
      var before := CheckTables(bp[..n], bindings, fields);
      CheckedTables(bp[..n], bindings, fields);
      if bp[n].key in bindings { CheckedFields(before, bp[n].key, bp[n].fields, fields[bp[n].key]); }
      forall i | 0 <= i < n ensures bp[..n][i] == bp[i] { }
    }
  }

  ghost predicate WantedIn(bp: Blueprint, bindings: map<string, Finding>, fields: map<string, seq<RemoteField>>, a: Action)
    requires bindings.Keys <= fields.Keys && a.CreateField?
  {
    a.key in bindings && exists i :: 0 <= i < |bp| && bp[i].key == a.key && Wanted(bp[i].fields, fields[a.key], a.name)
  }

  lemma {:induction false} TableActionsAt(bp: Blueprint, bindings: map<string, Finding>, fields: map<string, seq<RemoteField>>, a: Action)
    requires bindings.Keys <= fields.Keys
    ensures a in CheckTables(bp, bindings, fields).actions <==> (a.CreateField? && WantedIn(bp, bindings, fields, a))
    decreases |bp|
  {
    if bp != [] {
      var n := |bp| - 1;
      TableActionsAt(bp[..n], bindings, fields, a);
      if bp[n].key in bindings {
        CheckedActions(CheckTables(bp[..n], bindings, fields), bp[n].key, bp[n].fields, fields[bp[n].key], a);
      }
      forall i | 0 <= i < n ensures bp[..n][i] == bp[i] { }
    }
  }

  lemma {:induction false} TableActionsDistinct(bp: Blueprint, bindings: map<string, Finding>, fields: map<string, seq<RemoteField>>)
    requires bindings.Keys <= fields.Keys && Keyed(bp)
    requires forall i | 0 <= i < |bp| :: ValidTable(bp[i])
    ensures Distinct(CheckTables(bp, bindings, fields).actions)
    decreases |bp|
  {
    if bp != [] {
      var n := |bp| - 1;
      var before := CheckTables(bp[..n], bindings, fields);
      TableActionsDistinct(bp[..n], bindings, fields);
      forall a <- before.actions ensures a.key != bp[n].key {
        TableActionsAt(bp[..n], bindings, fields, a);
        var i :| 0 <= i < n && bp[..n][i].key == a.key;
        assert bp[i].key != bp[n].key;
      }
      if bp[n].key in bindings { CheckedDistinct(before, bp[n].key, bp[n].fields, fields[bp[n].key]); }
    }
  }

  // A complete table adds nothing to the report.
  lemma {:induction false} CompleteAddsNothing(r: Report, key: string, specs: seq<FieldSpec>, fields: seq<RemoteField>)
    requires forall k | 0 <= k < |specs| :: Fits(specs[k], Lookup(fields, specs[k].name))
    ensures CheckFields(r, key, specs, fields) == r
    decreases |specs|
  {
    if specs != [] { CompleteAddsNothing(r, key, specs[..|specs| - 1], fields); }
  }

  lemma {:induction false} AllComplete(bp: Blueprint, bindings: map<string, Finding>, fields: map<string, seq<RemoteField>>)
    requires bindings.Keys <= fields.Keys
    requires forall i | 0 <= i < |bp| && bp[i].key in bindings :: Complete(bp[i], fields[bp[i].key])
    ensures CheckTables(bp, bindings, fields) == NOTHING
    decreases |bp|
  {
    if bp != [] {
      var n := |bp| - 1;
      forall i | 0 <= i < n && bp[..n][i].key in bindings ensures Complete(bp[..n][i], fields[bp[..n][i].key]) {
        assert bp[..n][i] == bp[i];
      }
      AllComplete(bp[..n], bindings, fields);
      if bp[n].key in bindings { CompleteAddsNothing(NOTHING, bp[n].key, bp[n].fields, fields[bp[n].key]); }
    }
  }
}
