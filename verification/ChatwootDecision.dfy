// What the reading of the Chatwoot tables decides, in terms of the remote base alone.
module ChatwootDecision {
  import opened Wrappers
  import opened ChatwootMetadata
  import opened ChatwootAnalysis
  import opened ChatwootConvergence

  ghost predicate SomeFound(bp: Blueprint, refs: map<string, nat>, remote: seq<RemoteTable>, f: Finding) {
    exists i: nat :: i < |bp| && FindAt(bp, refs, remote, i) == f
  }

  // The fields of a found table.
  function FoundFields(bp: Blueprint, refs: map<string, nat>, remote: seq<RemoteTable>, i: nat): seq<RemoteField>
    requires i < |bp|
  {
    FieldsBound(remote, FindAt(bp, refs, remote, i))
  }

  // A found table has a field of a wrong type, or its first field is missing or is not the primary one.
  ghost predicate Broken(bp: Blueprint, refs: map<string, nat>, remote: seq<RemoteTable>, i: nat) {
    i < |bp| && FindAt(bp, refs, remote, i).Bound? && exists k | 0 <= k < |bp[i].fields| ::
      Wrong(bp[i].fields[k], Lookup(FoundFields(bp, refs, remote, i), bp[i].fields[k].name))
  }

  predicate Wrong(spec: FieldSpec, found: Option<RemoteField>) {
    if found.None? then spec.primary else found.value.kind !in spec.compatible || (spec.primary && !found.value.primary)
  }

  ghost predicate SomeBroken(bp: Blueprint, refs: map<string, nat>, remote: seq<RemoteTable>) {
    exists i: nat :: Broken(bp, refs, remote, i)
  }

  // A table found by its configured id with every field there.
  ghost predicate Whole(bp: Blueprint, refs: map<string, nat>, remote: seq<RemoteTable>, i: nat)
    requires i < |bp|
  {
    var f := FindAt(bp, refs, remote, i);
    f.Bound? && f.how == ConfiguredId && forall k | 0 <= k < |bp[i].fields| ::
      Lookup(FoundFields(bp, refs, remote, i), bp[i].fields[k].name).Some?
  }

  lemma {:induction false} ListsExactly(bp: Blueprint, refs: map<string, nat>, remote: seq<RemoteTable>)
    requires ValidBlueprint(bp)
    ensures Discover(bp, refs, remote).ambiguous != [] <==> SomeFound(bp, refs, remote, Ambiguous)
    ensures Discover(bp, refs, remote).mismatched != [] <==> SomeFound(bp, refs, remote, Mismatched)
    ensures Discover(bp, refs, remote).missing != [] <==> SomeFound(bp, refs, remote, Missing)
  {
    var d := Discover(bp, refs, remote);
    ValidIsKeyed(bp);
    forall i | 0 <= i < |bp| ensures Filed(d, bp[i].key, FindAt(bp, refs, remote, i)) { DiscoveredOnce(bp, refs, remote, i); }
    if d.ambiguous != [] { var i := ListedKey(bp, refs, remote, d.ambiguous[0]); }
    if d.mismatched != [] { var i := ListedKey(bp, refs, remote, d.mismatched[0]); }
    if d.missing != [] { var i := ListedKey(bp, refs, remote, d.missing[0]); }
  }

  lemma {:induction false} WrongExactly(spec: FieldSpec, found: Option<RemoteField>)
    ensures Wrong(spec, found) <==> !Fixable(spec, found)
  {}

  lemma {:induction false} CleanExactly(bp: Blueprint, refs: map<string, nat>, remote: seq<RemoteTable>)
    requires ValidBlueprint(bp)
    ensures var d := Discover(bp, refs, remote);
      Clean(CheckTables(bp, d.bindings, ListFields(d, remote))) <==> !SomeBroken(bp, refs, remote)
  {
    var d := Discover(bp, refs, remote);
    CheckedTables(bp, d.bindings, ListFields(d, remote));
    ValidIsKeyed(bp);
    forall i | 0 <= i < |bp|
      ensures Broken(bp, refs, remote, i) <==> bp[i].key in d.bindings && !Repairable(bp[i], ListFields(d, remote)[bp[i].key])
    {
      DiscoveredOnce(bp, refs, remote, i);
      forall k | 0 <= k < |bp[i].fields|
        ensures Wrong(bp[i].fields[k], Lookup(FoundFields(bp, refs, remote, i), bp[i].fields[k].name))
          <==> !Fixable(bp[i].fields[k], Lookup(FoundFields(bp, refs, remote, i), bp[i].fields[k].name))
      {
        WrongExactly(bp[i].fields[k], Lookup(FoundFields(bp, refs, remote, i), bp[i].fields[k].name));
      }
    }
  }

  // Main result: an ambiguous table blocks everything; a mismatched one, or one with a wrong field, blocks the rest;
  // the base is ready exactly when every table is there under its configured id with every field, and otherwise
  // the reading is additive.
  lemma {:induction false} DecisionExactly(bp: Blueprint, refs: map<string, nat>, remote: seq<RemoteTable>)
    requires ValidBlueprint(bp) && Survey(bp, refs, remote).Ok?
    ensures var decision := Survey(bp, refs, remote).value.decision;
      var blocked := SomeFound(bp, refs, remote, Mismatched) || SomeBroken(bp, refs, remote);
      && (decision == AmbiguousBlocked <==> SomeFound(bp, refs, remote, Ambiguous))
      && (decision == TypeBlocked <==> !SomeFound(bp, refs, remote, Ambiguous) && blocked)
      && (decision == Ready <==> !blocked && forall i | 0 <= i < |bp| :: Whole(bp, refs, remote, i))
  {
    ListsExactly(bp, refs, remote);
    CleanExactly(bp, refs, remote);
    var blocked := SomeFound(bp, refs, remote, Mismatched) || SomeBroken(bp, refs, remote);
    if Survey(bp, refs, remote).value.decision == Ready {
      forall i | 0 <= i < |bp| ensures Whole(bp, refs, remote, i) { ReadyIsWhole(bp, refs, remote, i); }
    }
    if !blocked && forall i | 0 <= i < |bp| :: Whole(bp, refs, remote, i) { WholeIsReady(bp, refs, remote); }
  }

  lemma {:induction false} ReadyIsWhole(bp: Blueprint, refs: map<string, nat>, remote: seq<RemoteTable>, i: nat)
    requires ValidBlueprint(bp) && Survey(bp, refs, remote).Ok? && Survey(bp, refs, remote).value.decision == Ready && i < |bp|
    ensures Whole(bp, refs, remote, i)
  {
    ReadyIsConfigured(bp, refs, remote, i);
    var d := Discover(bp, refs, remote);
    CheckedTables(bp, d.bindings, ListFields(d, remote));
    ValidIsKeyed(bp);
    DiscoveredOnce(bp, refs, remote, i);
    forall k | 0 <= k < |bp[i].fields| ensures Lookup(FoundFields(bp, refs, remote, i), bp[i].fields[k].name).Some? {
      assert Repairable(bp[i], ListFields(d, remote)[bp[i].key]);
      assert Fixable(bp[i].fields[k], Lookup(FoundFields(bp, refs, remote, i), bp[i].fields[k].name));
      var a := CreateField(bp[i].key, bp[i].fields[k].name);
      TableActionsAt(bp, d.bindings, ListFields(d, remote), a);
      if Lookup(FoundFields(bp, refs, remote, i), bp[i].fields[k].name).None? {
        assert Wanted(bp[i].fields, ListFields(d, remote)[a.key], a.name);
      }
    }
  }

  lemma {:induction false} WholeIsReady(bp: Blueprint, refs: map<string, nat>, remote: seq<RemoteTable>)
    requires ValidBlueprint(bp) && Survey(bp, refs, remote).Ok? && !SomeBroken(bp, refs, remote)
    requires forall i | 0 <= i < |bp| :: Whole(bp, refs, remote, i)
    ensures Survey(bp, refs, remote).value.decision == Ready
  {
    var d := Discover(bp, refs, remote);
    ValidIsKeyed(bp);
    forall i | 0 <= i < |bp| ensures Settled(bp, refs, remote, i) {
      assert Whole(bp, refs, remote, i);
      DiscoveredOnce(bp, refs, remote, i);
      forall k | 0 <= k < |bp[i].fields|
        ensures Fits(bp[i].fields[k], Lookup(FoundFields(bp, refs, remote, i), bp[i].fields[k].name))
      {
        assert !Broken(bp, refs, remote, i);
        WrongExactly(bp[i].fields[k], Lookup(FoundFields(bp, refs, remote, i), bp[i].fields[k].name));
      }
    }
    AllSettledIsReady(bp, refs, remote);
  }

  // The reading fails exactly when a found table has two fields of one name.
  lemma {:induction false} FailsExactly(bp: Blueprint, refs: map<string, nat>, remote: seq<RemoteTable>)
    requires ValidBlueprint(bp)
    ensures Survey(bp, refs, remote).Err? <==> exists i: nat :: Doubled(bp, refs, remote, i)
  {
    var d := Discover(bp, refs, remote);
    ValidIsKeyed(bp);
    forall i | 0 <= i < |bp|
      ensures Doubled(bp, refs, remote, i) <==> bp[i].key in d.bindings && HasDuplicate(ListFields(d, remote)[bp[i].key])
    {
      DiscoveredOnce(bp, refs, remote, i);
    }
  }

  ghost predicate Doubled(bp: Blueprint, refs: map<string, nat>, remote: seq<RemoteTable>, i: nat) {
    i < |bp| && FindAt(bp, refs, remote, i).Bound? && HasDuplicate(FoundFields(bp, refs, remote, i))
  }

  // What is reported ------------------------------------------------------------------------------

  // What one field gives rise to.
  ghost predicate Complains(spec: FieldSpec, found: Option<RemoteField>, key: string, p: Problem) {
    match p
    case TypeMismatch(k, n) => k == key && n == spec.name && found.Some? && found.value.kind !in spec.compatible
    case PrimaryMissing(k, n) => k == key && n == spec.name && found.None? && spec.primary
    case NotPrimary(k, n) => k == key && n == spec.name && found.Some? && spec.primary && !found.value.primary
  }

  ghost predicate ComplainsIn(specs: seq<FieldSpec>, fields: seq<RemoteField>, key: string, p: Problem) {
    exists k: nat :: k < |specs| && Complains(specs[k], Lookup(fields, specs[k].name), key, p)
  }

  predicate Reported(r: Report, p: Problem) { if p.TypeMismatch? then p in r.types else p in r.primaries }

  lemma {:induction false} ComplainsLast(specs: seq<FieldSpec>, fields: seq<RemoteField>, key: string, p: Problem)
    requires specs != []
    ensures ComplainsIn(specs, fields, key, p) <==>
      var n := |specs| - 1;
      ComplainsIn(specs[..n], fields, key, p) || Complains(specs[n], Lookup(fields, specs[n].name), key, p)
  {
    var n := |specs| - 1;
    if k: nat :| k < n && Complains(specs[k], Lookup(fields, specs[k].name), key, p) { assert specs[..n][k] == specs[k]; }
  }

  lemma {:induction false} FieldsReported(r: Report, key: string, specs: seq<FieldSpec>, fields: seq<RemoteField>, p: Problem)
    ensures Reported(CheckFields(r, key, specs, fields), p) <==> Reported(r, p) || ComplainsIn(specs, fields, key, p)
    decreases |specs|
  {
    if specs != [] {
      FieldsReported(r, key, specs[..|specs| - 1], fields, p);
      ComplainsLast(specs, fields, key, p);
    }
  }

  ghost predicate ComplainsAt(bp: Blueprint, bindings: map<string, Finding>, fields: map<string, seq<RemoteField>>, p: Problem)
    requires bindings.Keys <= fields.Keys
  {
    exists i: nat :: i < |bp| && bp[i].key in bindings && ComplainsIn(bp[i].fields, fields[bp[i].key], bp[i].key, p)
  }

  // A problem is reported exactly when a field of a found table gives rise to it.
  lemma {:induction false} ReportedExactly(bp: Blueprint, bindings: map<string, Finding>, fields: map<string, seq<RemoteField>>, p: Problem)
    requires bindings.Keys <= fields.Keys
    ensures Reported(CheckTables(bp, bindings, fields), p) <==> ComplainsAt(bp, bindings, fields, p)
    decreases |bp|
  {
    if bp != [] {
      var n := |bp| - 1;
      ReportedExactly(bp[..n], bindings, fields, p);
      if bp[n].key in bindings {
        FieldsReported(CheckTables(bp[..n], bindings, fields), bp[n].key, bp[n].fields, fields[bp[n].key], p);
      }
      forall i | 0 <= i < n ensures bp[..n][i] == bp[i] { }
    }
  }
}
