// Planning and applying as the program does them: requests one at a time through a client whose guard
// counts the plans, the view reads and the view creations, with the base recorded after every write.
module NotificationLogApply {
  import opened Wrappers
  import opened NotificationLog
  import opened NotificationLogLimits

  method HasUnexpectedField(c: Contract, fields: seq<Field>) returns (found: bool)
    ensures !found <==> forall k | 0 <= k < |fields| :: FieldExpected(c, fields[k].name)
  {
    for k := 0 to |fields|
      invariant forall j | 0 <= j < k :: FieldExpected(c, fields[j].name)
    {
      if !FieldExpected(c, fields[k].name) { return true; }
    }
    found := false;
  }

  method HasUnexpectedView(c: Contract, views: seq<View>) returns (found: bool)
    ensures !found <==> forall k | 0 <= k < |views| :: ViewExpected(c, views[k].name)
  {
    for k := 0 to |views|
      invariant forall j | 0 <= j < k :: ViewExpected(c, views[j].name)
    {
      if !ViewExpected(c, views[k].name) { return true; }
    }
    found := false;
  }

  lemma {:induction false} MissingFrom(specs: seq<FieldSpec>, fields: seq<Field>, i: nat)
    requires i < |specs|
    ensures MissingFields(specs[i..], fields) ==
      if FieldsNamed(fields, specs[i].name) == [] then [specs[i]] + MissingFields(specs[i + 1..], fields)
      else MissingFields(specs[i + 1..], fields)
  {
    assert specs[i..][0] == specs[i] && specs[i..][1..] == specs[i + 1..];
    assert [] + MissingFields(specs[i + 1..], fields) == MissingFields(specs[i + 1..], fields);
  }

  // A field that is there must have the type, and the options if there are any, of the contract.
  method FieldConflicts(f: Field, spec: FieldSpec, primary: bool) returns (conflict: bool)
    ensures conflict == !FieldMatches(f, spec, primary)
  {
    if f.kind != spec.kind { return true; }
    if primary && !f.primary { return true; }
    if spec.options.None? { return false; }
    conflict := multiset(f.options) != multiset(spec.options.value);
  }

  // One field of the contract: whether it is missing, when it may be.
  method CompareField(c: Contract, fields: seq<Field>, i: nat) returns (missing: Result<bool, Error>)
    requires i < |c.fields|
    ensures missing.Ok? <==> FieldAccepted(c, fields, i)
    ensures missing.Ok? ==> (missing.value <==> FieldsNamed(fields, c.fields[i].name) == [])
    ensures missing == Err(PrimaryMissing) ==> i == 0 && FieldsNamed(fields, c.fields[0].name) == []
  {
    var matches := FieldsNamed(fields, c.fields[i].name);
    if |matches| > 1 { return Err(FieldDuplicate); }
    if |matches| == 0 { return if i == 0 then Err(PrimaryMissing) else Ok(true); }
    var conflict := FieldConflicts(matches[0], c.fields[i], i == 0);
    missing := if conflict then Err(FieldConflict) else Ok(false);
  }

  method CompareFields(c: Contract, fields: seq<Field>) returns (r: Result<seq<FieldSpec>, Error>)
    ensures r.Ok? <==> forall i | 0 <= i < |c.fields| :: FieldAccepted(c, fields, i)
    ensures r.Ok? ==> r.value == MissingFields(c.fields, fields)
    ensures r == Err(PrimaryMissing) ==> c.fields != [] && FieldsNamed(fields, c.fields[0].name) == []
  {
    var actions := [];
    for i := 0 to |c.fields|
      invariant forall j | 0 <= j < i :: FieldAccepted(c, fields, j)
      invariant actions + MissingFields(c.fields[i..], fields) == MissingFields(c.fields, fields)
    {
      var missing := CompareField(c, fields, i);
      if missing.Err? { return Err(missing.error); }
      MissingFrom(c.fields, fields, i);
      if missing.value {
        ghost var rest := MissingFields(c.fields[i + 1..], fields);
        assert actions + ([c.fields[i]] + rest) == (actions + [c.fields[i]]) + rest;
        actions := actions + [c.fields[i]];
      }
    }
    r := Ok(actions);
  }

  method BuildFieldActions(c: Contract, fields: seq<Field>) returns (r: Result<seq<FieldSpec>, Error>)
    ensures r.Ok? <==> FieldsAccepted(c, fields)
    ensures r.Ok? ==> r.value == MissingFields(c.fields, fields)
  {
    var unexpected := HasUnexpectedField(c, fields);
    if unexpected { return Err(UnacceptedField); }
    r := CompareFields(c, fields);
  }

  // After k of the field requests.
  ghost predicate Filling(c: Contract, base: Base, start: Base, actions: seq<FieldSpec>, k: nat) {
    && k <= |actions| && base.named != [] && start.named != [] && Accepted(c, base)
    && actions[k..] == MissingFields(c.fields, base.named[0].fields)
    && AddFields(base, actions[k..]) == AddFields(start, actions)
  }

  lemma {:induction false} FillingStep(c: Contract, base: Base, start: Base, actions: seq<FieldSpec>, k: nat)
    requires ValidContract(c) && Filling(c, base, start, actions, k) && k < |actions|
    ensures Filling(c, AddField(base, actions[k]), start, actions, k + 1)
  {
    FieldStep(c, base);
    assert actions[k..][0] == actions[k] && actions[k..][1..] == actions[k + 1..];
  }

  ghost predicate Sent(writes: seq<Write>, before: seq<Write>, actions: seq<FieldSpec>, k: nat) {
    k <= |actions| && writes == before + FieldNeeds(actions[..k])
  }

  lemma {:induction false} SentStep(writes: seq<Write>, before: seq<Write>, actions: seq<FieldSpec>, k: nat)
    requires Sent(writes, before, actions, k) && k < |actions|
    ensures Sent(writes + [FieldWrite(actions[k].name)], before, actions, k + 1)
  {
    var a, b := FieldNeeds(actions[..k + 1]), FieldNeeds(actions[..k]) + [FieldWrite(actions[k].name)];
    assert |a| == |b| && forall i | 0 <= i < |a| :: a[i] == b[i];
  }

  ghost predicate AllCreate(states: seq<ViewState>) { forall j | 0 <= j < |states| :: states[j] == Create }

  // Before the turn of view i: what is done and what is left make up the whole loop.
  ghost predicate Under(c: Contract, t: Table, states: seq<ViewState>, i: nat, writes: seq<Write>, count: nat,
                        writesBefore: seq<Write>, countBefore: nat, run: (Table, seq<Write>, nat))
  {
    && i <= |c.views| == |states| && StatesFrom(c, t, states, i)
    && var rest := ApplyViews(c, c.views[i..], states[i..], t);
      rest.0 == run.0 && writes + rest.1 == writesBefore + run.1 && count + rest.2 == countBefore + run.2
  }

  lemma {:induction false} UnderStep(c: Contract, t: Table, states: seq<ViewState>, i: nat, writes: seq<Write>, count: nat,
                           writesBefore: seq<Write>, countBefore: nat, run: (Table, seq<Write>, nat))
    requires ValidContract(c) && Ready(c, t) && i < |c.views|
    requires Under(c, t, states, i, writes, count, writesBefore, countBefore, run)
    ensures states[i] == StateOf(c.views[i], t)
    ensures var step := ApplyView(c, c.views[i], states[i], t);
      Under(c, step.0, states, i + 1, writes + step.1, count + step.2, writesBefore, countBefore, run)
      && count + step.2 <= countBefore + run.2
  {
    ApplyViewCompletes(c, t, i);
    ApplyViewsStep(c, t, states, i);
    var step := ApplyView(c, c.views[i], states[i], t);
    var rest := ApplyViews(c, c.views[i + 1..], states[i + 1..], step.0);
    JoinThree(writes, step.1, rest.1);
    forall j | i + 1 <= j < |c.views| ensures StateOf(c.views[j], step.0) == states[j] {
      assert StateOf(c.views[j], t) == states[j];
    }
  }

  lemma {:induction false} JoinThree(a: seq<Write>, b: seq<Write>, c: seq<Write>)
    ensures (a + b) + c == a + (b + c)
  {
  }

  lemma {:induction false} CreatesAll(c: Contract, t: Table)
    requires ValidContract(c) && ViewsAccepted(c, t)
    ensures AllCreate(StatesOf(c.views, t)) <==> t.views == []
  {
    var states := StatesOf(c.views, t);
    if t.views != [] {
      assert ViewExpected(c, t.views[0].name);
      var i :| 0 <= i < |c.views| && c.views[i].name == t.views[0].name;
      assert states[i] != Create;
    }
  }

  // The run in its two parts: getting a table, and completing it unless there is nothing to do.
  lemma {:induction false} RunParts(c: Contract, base: Base)
    requires ValidContract(c) && Accepted(c, base)
    ensures var start := Started(c, base);
      && Accepted(c, start) && (start.named[0].views == [] <==> base.named != [] && base.named[0].views == [])
      && PlanOf(c, start).Existing?
      && if NothingToDo(PlanOf(c, start)) then
           Final(c, base) == start && Reads(c, base) == StartReads(c, base) && Needed(c, base) == StartNeeds(base)
           && start.named[0].views != []
         else
           Final(c, base) == Completed(c, start) && Reads(c, base) == StartReads(c, base) + CompletingReads(c, start)
           && Needed(c, base) == StartNeeds(base) + CompletingNeeds(c, start)
  {
    StartAccepted(c, base);
    var start := Started(c, base);
    if NothingToDo(PlanOf(c, start)) {
      NothingNeeded(c.views, PlanOf(c, start).viewStates);
      CreatesAll(c, start.named[0]);
      assert StatesOf(c.views, start.named[0])[0] == Complete;
    }
  }

  lemma {:induction false} ZeroDriftIsIdle(c: Contract, base: Base)
    requires ZeroDrift(c, base)
    ensures NothingToDo(PlanOf(c, base))
  {
  }

  // A view that is not complete, created if it was not there, is left to configure if it has a rule.
  lemma {:induction false} TurnStates(c: Contract, i: nat, t: Table)
    requires ValidContract(c) && Ready(c, t) && i < |c.views| && StateOf(c.views[i], t) != Complete
    ensures Expected(c.views[i], t.fields).Some?
    ensures Expected(c.views[i], t.fields) == Some(NoFilter) <==> c.views[i].rule.None?
    ensures StateOf(c.views[i], t) == Create && c.views[i].rule.Some? ==>
      StateOf(c.views[i], AddView(t, c.views[i].name)) == Configure
  {
    RuleReady(c, t.fields, i);
    if StateOf(c.views[i], t) == Create { AddViewReady(c, t, i); }
  }

  lemma {:induction false} CompletingParts(c: Contract, start: Base)
    requires ValidContract(c) && Accepted(c, start) && start.named != []
    ensures var filled := Filled(c, start); var run := Configured(c, filled); var done := Completed(c, start);
      && done == WithTable(filled, run.0) && ZeroDrift(c, done)
      && CompletingReads(c, start) == PlanReadsOf(c, filled) + run.2 + PlanReadsOf(c, done)
      && CompletingNeeds(c, start) == FieldNeeds(MissingFields(c.fields, start.named[0].fields)) + run.1
  {
    FieldsFill(c, start);
    ViewsFill(c, Filled(c, start));
  }

  // Before the turn of view i: one plan for each view left to do so far.
  ghost predicate Planned(states: seq<ViewState>, i: nat, plans: nat, plansBefore: nat) {
    i <= |states| && plans + Left(states[i..]) == plansBefore + Left(states)
  }

  lemma {:induction false} PlannedStep(states: seq<ViewState>, i: nat, plans: nat, plansBefore: nat)
    requires Planned(states, i, plans, plansBefore) && i < |states|
    ensures Planned(states, i + 1, plans + if states[i] == Complete then 0 else 1, plansBefore)
  {
    assert states[i..][0] == states[i] && states[i..][1..] == states[i + 1..];
  }

  class LarkClient {
    const contract: Contract
    const readLimit: nat
    var base: Base
    // Each plan lists the tables once, and the fields and views of the table at most once.
    var plans: nat
    var viewReads: nat
    var viewCreates: nat
    var writes: seq<Write>
    // The base after each request that wrote to it.
    ghost var history: seq<Base>

    constructor (contract: Contract, readLimit: nat, base: Base)
      requires ValidContract(contract)
      ensures this.contract == contract && this.readLimit == readLimit && this.base == base
      ensures Valid() && plans == viewReads == viewCreates == 0 && writes == []
    {
      this.contract, this.readLimit, this.base := contract, readLimit, base;
      plans, viewReads, viewCreates, writes, history := 0, 0, 0, [], [];
    }

    // No request so far has left a base that the planner refuses.
    ghost predicate Safe()
      reads this
    {
      |history| == |writes| && forall b <- history :: Accepted(contract, b)
    }

    ghost predicate Valid()
      reads this
    {
      ValidContract(contract) && Safe() && viewReads <= readLimit
    }

    method GetView(name: string) returns (r: Result<Filter, Error>)
      requires base.named != [] && |ViewsNamed(base.named[0].views, name)| == 1
      modifies this`viewReads
      ensures viewReads == old(viewReads) + 1
      ensures r == if old(viewReads) < readLimit then Ok(ViewsNamed(base.named[0].views, name)[0].filter)
                   else Err(RequestLimitExceeded)
    {
      viewReads := viewReads + 1;
      if viewReads > readLimit { return Err(RequestLimitExceeded); }
      r := Ok(ViewsNamed(base.named[0].views, name)[0].filter);
    }

    // The state of one contract view, read from the base if the view is there.
    method PlanView(spec: ViewSpec) returns (r: Result<ViewState, Error>)
      requires base.named != [] && viewReads <= readLimit
      modifies this`viewReads
      ensures r.Ok? <==> ViewAccepted(spec, base.named[0]) && old(viewReads) + PlanReads([spec], base.named[0]) <= readLimit
      ensures r.Ok? ==> r.value == StateOf(spec, base.named[0])
      ensures r.Ok? ==> viewReads == old(viewReads) + PlanReads([spec], base.named[0])
    {
      var matches := ViewsNamed(base.named[0].views, spec.name);
      if |matches| > 1 { return Err(ViewDuplicate); }
      if |matches| == 0 { return Ok(Create); }
      var actual := GetView(spec.name);
      if actual.Err? { return Err(actual.error); }
      var expected := Expected(spec, base.named[0].fields);
      if expected.None? { return Err(FilterFieldMissing); }
      if actual.value == expected.value { return Ok(Complete); }
      r := if actual.value == NoFilter then Ok(Configure) else Err(FilterConflict);
    }

    method BuildViewPlans() returns (r: Result<seq<ViewState>, Error>)
      requires base.named != [] && viewReads <= readLimit
      modifies this`viewReads
      ensures r.Ok? <==> ViewsAccepted(contract, base.named[0])
                         && old(viewReads) + PlanReads(contract.views, base.named[0]) <= readLimit
      ensures r.Ok? ==> r.value == StatesOf(contract.views, base.named[0])
      ensures r.Ok? ==> viewReads == old(viewReads) + PlanReads(contract.views, base.named[0])
    {
      var t := base.named[0];
      var unexpected := HasUnexpectedView(contract, t.views);
      if unexpected { return Err(UnacceptedView); }
      var plans := [];
      for i := 0 to |contract.views|
        invariant viewReads <= readLimit
        invariant viewReads + PlanReads(contract.views[i..], t) == old(viewReads) + PlanReads(contract.views, t)
        invariant |plans| == i
        invariant forall j | 0 <= j < i :: ViewAccepted(contract.views[j], t) && plans[j] == StateOf(contract.views[j], t)
      {
        assert contract.views[i..][1..] == contract.views[i + 1..];
        var plan := PlanView(contract.views[i]);
        if plan.Err? { return Err(plan.error); }
        plans := plans + [plan.value];
      }
      r := Ok(plans);
    }

    method PlanSchema() returns (r: Result<Plan, Error>)
      requires Valid()
      modifies this`viewReads, this`plans
      ensures plans == old(plans) + 1
      ensures r.Ok? <==> Accepted(contract, base) && old(viewReads) + PlanReadsOf(contract, base) <= readLimit
      ensures r.Ok? ==> r.value == PlanOf(contract, base)
      ensures r.Ok? ==> viewReads == old(viewReads) + PlanReadsOf(contract, base)
    {
      plans := plans + 1;
      if |base.named| > 1 { return Err(TableDuplicate); }
      if base.legacy > 0 { return Err(LegacyTable); }
      if |base.named| == 0 { return Ok(CreateTable); }
      var fieldActions := BuildFieldActions(contract, base.named[0].fields);
      if fieldActions.Err? { return Err(fieldActions.error); }
      var viewPlans := BuildViewPlans();
      if viewPlans.Err? { return Err(viewPlans.error); }
      r := Ok(Existing(base.named[0], fieldActions.value, viewPlans.value));
    }

    // Changes the base by one request.
    method Send(write: Write, next: Base)
      requires Safe() && Accepted(contract, next)
      modifies this`base, this`writes, this`history
      ensures Safe() && base == next && writes == old(writes) + [write]
    {
      base, writes, history := next, writes + [write], history + [next];
    }

    method CreateFields(actions: seq<FieldSpec>)
      requires Valid() && Accepted(contract, base) && base.named != []
      requires actions == MissingFields(contract.fields, base.named[0].fields)
      modifies this`base, this`writes, this`history
      ensures Valid() && Accepted(contract, base) && base == AddFields(old(base), actions)
      ensures writes == old(writes) + FieldNeeds(actions)
    {
      ghost var start, before := base, writes;
      for k := 0 to |actions|
        invariant Valid() && Filling(contract, base, start, actions, k) && Sent(writes, before, actions, k)
      {
        CreateField(start, before, actions, k);
      }
      assert actions[..|actions|] == actions;
    }

    method CreateField(ghost start: Base, ghost before: seq<Write>, actions: seq<FieldSpec>, k: nat)
      requires Valid() && Filling(contract, base, start, actions, k) && Sent(writes, before, actions, k)
      requires k < |actions|
      modifies this`base, this`writes, this`history
      ensures Valid() && Filling(contract, base, start, actions, k + 1) && Sent(writes, before, actions, k + 1)
    {
      FillingStep(contract, base, start, actions, k);
      SentStep(writes, before, actions, k);
      Send(FieldWrite(actions[k].name), AddField(base, actions[k]));
    }

    method CreateView(i: nat) returns (r: Result<(), Error>)
      requires Valid() && Steady(contract, base) && i < |contract.views| && viewCreates < |contract.views|
      requires StateOf(contract.views[i], base.named[0]) == Create
      modifies this
      ensures Safe() && viewReads == old(viewReads) && plans == old(plans) && (r.Err? ==> base == old(base))
      ensures r.Ok? <==> old(viewCreates) + 1 < |contract.views|
      ensures r.Ok? ==> Steady(contract, base) && viewCreates == old(viewCreates) + 1
      ensures r.Ok? ==> base == WithTable(old(base), AddView(old(base).named[0], contract.views[i].name))
      ensures r.Ok? ==> writes == old(writes) + [ViewWrite(contract.views[i].name)]
    {
      viewCreates := viewCreates + 1;
      if viewCreates > |contract.views| - 1 { return Err(RequestLimitExceeded); }
      var t := AddView(base.named[0], contract.views[i].name);
      AddViewReady(contract, base.named[0], i);
      SteadyAccepted(contract, WithTable(base, t));
      Send(ViewWrite(contract.views[i].name), WithTable(base, t));
      r := Ok(());
    }

    // Reads the view's filter and sets it if it is not the expected one.
    method ConfigureFilter(i: nat, expected: Filter) returns (r: Result<(), Error>)
      requires Valid() && Steady(contract, base) && i < |contract.views|
      requires Expected(contract.views[i], base.named[0].fields) == Some(expected)
      requires StateOf(contract.views[i], base.named[0]) != Create
      modifies this`viewReads, this`base, this`writes, this`history
      ensures Safe() && (r.Err? ==> base == old(base))
      ensures r.Ok? <==> old(viewReads) < readLimit
      ensures r.Ok? ==> Steady(contract, base) && viewReads == old(viewReads) + 1
      ensures var t := old(base).named[0];
        r.Ok? ==>
          if StateOf(contract.views[i], t) == Complete then base == old(base) && writes == old(writes)
          else base == WithTable(old(base), SetFilter(t, contract.views[i].name, expected))
               && writes == old(writes) + [FilterWrite(contract.views[i].name)]
    {
      var name, t := contract.views[i].name, base.named[0];
      assert ViewAccepted(contract.views[i], t);
      var actual := GetView(name);
      if actual.Err? { return Err(actual.error); }
      if actual.value != expected {
        // The conflict branch here cannot be taken: the plan has refused such a filter already.
        assert actual.value == NoFilter;
        SetFilterReady(contract, t, i);
        SteadyAccepted(contract, WithTable(base, SetFilter(t, name, expected)));
        Send(FilterWrite(name), WithTable(base, SetFilter(t, name, expected)));
      }
      r := Ok(());
    }

    // The requests of one turn of the loop over the views.
    method BringView(i: nat, state: ViewState) returns (r: Result<(), Error>)
      requires Valid() && Steady(contract, base) && i < |contract.views| && viewCreates < |contract.views|
      requires state == StateOf(contract.views[i], base.named[0]) && state != Complete
      modifies this
      ensures Safe() && Accepted(contract, base) && plans == old(plans)
      ensures var step := ApplyView(contract, contract.views[i], state, old(base).named[0]);
        var own := if contract.views[i].rule.Some? then 1 else 0;
        && (r.Ok? <==> old(viewReads) + own <= readLimit && !(state == Create && old(viewCreates) + 1 == |contract.views|))
        && (r.Ok? ==> Steady(contract, base) && base == WithTable(old(base), step.0)
                      && writes == old(writes) + step.1 && viewReads == old(viewReads) + own
                      && viewCreates == old(viewCreates) + if state == Create then 1 else 0)
    {
      SteadyAccepted(contract, base);
      TurnStates(contract, i, base.named[0]);
      if state == Create {
        r := CreateView(i);
        if r.Err? { return; }
        SteadyAccepted(contract, base);
      }
      var expected := Expected(contract.views[i], base.named[0].fields).value;
      if expected != NoFilter {
        r := ConfigureFilter(i, expected);
        if r.Err? { return; }
        SteadyAccepted(contract, base);
      }
      r := Ok(());
    }

    // One turn of the loop over the views, the plan that follows it included.
    method ConfigureView(i: nat, state: ViewState) returns (r: Result<(), Error>)
      requires Valid() && Steady(contract, base) && i < |contract.views| && viewCreates < |contract.views|
      requires state == StateOf(contract.views[i], base.named[0])
      modifies this
      ensures Safe() && Accepted(contract, base)
      ensures var step := ApplyView(contract, contract.views[i], state, old(base).named[0]);
        && (r.Ok? <==> old(viewReads) + step.2 <= readLimit && !(state == Create && old(viewCreates) + 1 == |contract.views|))
        && (r.Ok? ==> Steady(contract, base) && base == WithTable(old(base), step.0)
                      && writes == old(writes) + step.1 && viewReads == old(viewReads) + step.2
                      && viewCreates == (old(viewCreates) + if state == Create then 1 else 0)
                      && plans == old(plans) + if state == Complete then 0 else 1)
    {
      SteadyAccepted(contract, base);
      if state == Complete { return Ok(()); }
      TurnStates(contract, i, base.named[0]);
      r := BringView(i, state);
      if r.Ok? {
        var plan := PlanSchema();
        if plan.Err? { r := Err(plan.error); }
      }
    }

    method ConfigureViews(states: seq<ViewState>) returns (r: Result<(), Error>)
      requires Valid() && Steady(contract, base) && viewCreates == 0
      requires states == StatesOf(contract.views, base.named[0])
      modifies this
      ensures Safe() && Accepted(contract, base)
      ensures var run := Configured(contract, old(base));
        && (r.Ok? <==> old(viewReads) + run.2 <= readLimit && !AllCreate(states))
        && (r.Ok? ==> Steady(contract, base) && base == WithTable(old(base), run.0)
                      && writes == old(writes) + run.1 && viewReads == old(viewReads) + run.2
                      && plans == old(plans) + Left(states))
    {
      ghost var run := Configured(contract, base);
      ghost var before, count := writes, viewReads;
      assert contract.views[0..] == contract.views && states[0..] == states;
      SteadyAccepted(contract, base);
      for i := 0 to |contract.views|
        invariant Valid() && Steady(contract, base) && base == WithTable(old(base), base.named[0])
        invariant Under(contract, base.named[0], states, i, writes, viewReads, before, count, run)
        invariant Planned(states, i, plans, old(plans))
        invariant viewCreates <= i && viewCreates < |contract.views|
        invariant viewCreates == i <==> forall j | 0 <= j < i :: states[j] == Create
      {
        UnderStep(contract, base.named[0], states, i, writes, viewReads, before, count, run);
        PlannedStep(states, i, plans, old(plans));
        ghost var step := ApplyView(contract, contract.views[i], states[i], base.named[0]);
        var turn := ConfigureView(i, states[i]);
        if turn.Err? { return turn; }
      }
      r := Ok(());
    }

    // The missing fields of a table, and the plan of the table with them.
    method FillTable(actions: seq<FieldSpec>) returns (r: Result<seq<ViewState>, Error>)
      requires Valid() && Accepted(contract, base) && base.named != []
      requires actions == MissingFields(contract.fields, base.named[0].fields)
      modifies this`base, this`writes, this`history, this`viewReads, this`plans
      ensures Safe() && Accepted(contract, base) && base == Filled(contract, old(base)) && Steady(contract, base)
      ensures writes == old(writes) + FieldNeeds(actions) && plans == old(plans) + 1
      ensures r.Ok? <==> old(viewReads) + PlanReadsOf(contract, base) <= readLimit
      ensures r.Ok? ==> viewReads == old(viewReads) + PlanReadsOf(contract, base)
      ensures r.Ok? ==> r.value == StatesOf(contract.views, base.named[0]) == StatesOf(contract.views, old(base).named[0])
    {
      FieldsFill(contract, base);
      CreateFields(actions);
      var next := PlanSchema();
      r := if next.Err? then Err(next.error) else Ok(next.value.viewStates);
    }

    // The run once there is a table, from the plan of it.
    method CompleteTable(plan: Plan) returns (r: Result<(), Error>)
      requires Valid() && viewCreates == 0 && Accepted(contract, base) && base.named != []
      requires plan == PlanOf(contract, base)
      modifies this
      ensures Safe() && Accepted(contract, base)
      ensures r.Ok? <==> old(viewReads) + CompletingReads(contract, old(base)) <= readLimit && old(base).named[0].views != []
      ensures r.Ok? ==> base == Completed(contract, old(base)) && viewReads == old(viewReads) + CompletingReads(contract, old(base))
      ensures r.Ok? ==> writes == old(writes) + CompletingNeeds(contract, old(base))
      ensures r.Ok? ==> plans == old(plans) + 2 + Left(StatesOf(contract.views, old(base).named[0]))
    {
      ghost var start := base;
      CompletingParts(contract, start);
      CreatesAll(contract, start.named[0]);
      JoinThree(writes, FieldNeeds(plan.fieldActions), Configured(contract, Filled(contract, start)).1);
      var states := FillTable(plan.fieldActions);
      if states.Err? { return Err(states.error); }
      r := ConfigureViews(states.value);
      if r.Ok? { r := VerifyZeroDrift(); }
    }

    // The plan after the run must have nothing left to do.
    method VerifyZeroDrift() returns (r: Result<(), Error>)
      requires Valid() && ZeroDrift(contract, base)
      modifies this`viewReads, this`plans
      ensures plans == old(plans) + 1
      ensures r.Ok? <==> old(viewReads) + PlanReadsOf(contract, base) <= readLimit
      ensures r.Ok? ==> viewReads == old(viewReads) + PlanReadsOf(contract, base)
    {
      var verification := PlanSchema();
      if verification.Err? { return Err(verification.error); }
      ZeroDriftIsIdle(contract, base);
      if !NothingToDo(verification.value) { return Err(VerificationFailed); }
      r := Ok(());
    }

    // The table to work on: the one that is there, or a new one.
    method StartTable() returns (r: Result<Plan, Error>)
      requires Valid()
      modifies this
      ensures Safe() && (Accepted(contract, old(base)) ==> Accepted(contract, base))
      ensures !Accepted(contract, old(base)) ==> base == old(base) && writes == old(writes)
      ensures r.Ok? <==> Accepted(contract, old(base)) && old(viewReads) + StartReads(contract, old(base)) <= readLimit
      ensures r.Ok? ==> base == Started(contract, old(base)) && r.value == PlanOf(contract, base)
      ensures r.Ok? ==> viewReads == old(viewReads) + StartReads(contract, old(base)) && viewCreates == old(viewCreates)
      ensures r.Ok? ==> writes == old(writes) + StartNeeds(old(base))
      ensures r.Ok? ==> plans == old(plans) + if old(base).named == [] then 2 else 1
    {
      r := PlanSchema();
      if r.Err? { return; }
      StartAccepted(contract, base);
      if r.value.CreateTable? {
        Send(TableWrite, AddTable(contract, base));
        r := PlanSchema();
      }
    }

    // From the base as it is to zero drift, if the planner accepts it and the guard lets the run through.
    method ApplySchema() returns (r: Result<(), Error>)
      requires Valid() && viewCreates == 0
      modifies this
      ensures Safe() && (Accepted(contract, old(base)) ==> Accepted(contract, base))
      ensures !Accepted(contract, old(base)) ==> base == old(base) && writes == old(writes)
      ensures r.Ok? <==> Accepted(contract, old(base)) && old(viewReads) + RunReads(contract, old(base)) <= readLimit
                         && (old(base).named != [] ==> old(base).named[0].views != [])
      ensures r.Ok? ==> base == Final(contract, old(base)) && ZeroDrift(contract, base)
      ensures r.Ok? ==> viewReads == old(viewReads) + RunReads(contract, old(base))
      ensures r.Ok? ==> writes == old(writes) + Needed(contract, old(base))
      ensures r.Ok? ==> plans == old(plans) + Plans(contract, old(base))
    {
      ghost var first := base;
      if Accepted(contract, first) { ReadsAre(contract, first); }
      var plan := StartTable();
      if plan.Err? { return Err(plan.error); }
      RunParts(contract, first);
      RunReachesZeroDrift(contract, first);
      if NothingToDo(plan.value) { return Ok(()); }
      JoinThree(old(writes), StartNeeds(first), CompletingNeeds(contract, base));
      r := CompleteTable(plan.value);
    }

    // The same for the program's contract and limit, from a new process: what it can do is settled by what
    // its first plan finds.
    method ApplyProgramSchema() returns (r: Result<(), Error>)
      requires Valid() && plans == viewReads == viewCreates == 0 && writes == []
      requires ProgramViews(contract) && readLimit == VIEW_READ_LIMIT
      modifies this
      ensures r.Ok? <==> Accepted(contract, old(base)) && !TooMuch(StatesOf(contract.views, Started(contract, old(base)).named[0]))
                         && (old(base).named != [] ==> old(base).named[0].views != [])
      ensures r.Ok? ==> base == Final(contract, old(base)) && ZeroDrift(contract, base)
      ensures r.Ok? ==> plans <= TABLE_READ_LIMIT
    {
      ghost var first := base;
      if Accepted(contract, first) {
        BlockedExactlyWhenTooMuch(contract, first);
        ReadsAre(contract, first);
        OtherLimitsNeverBind(contract, first);
      }
      r := ApplySchema();
    }
  }
}
