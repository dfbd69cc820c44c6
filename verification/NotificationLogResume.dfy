// A Notification Log run that stops after any of its requests, and the runs that take up from there.
module NotificationLogResume {
  import opened Wrappers
  import opened NotificationLog

  function FieldSpecOf(specs: seq<FieldSpec>, name: string): Option<FieldSpec> {
    if specs == [] then None else if specs[0].name == name then Some(specs[0]) else FieldSpecOf(specs[1..], name)
  }

  function ViewSpecOf(specs: seq<ViewSpec>, name: string): Option<ViewSpec> {
    if specs == [] then None else if specs[0].name == name then Some(specs[0]) else ViewSpecOf(specs[1..], name)
  }

  // What one request does to the base.
  function Perform(c: Contract, base: Base, w: Write): Base {
    if w.TableWrite? then AddTable(c, base)
    else if base.named == [] then base else
    match w
    case FieldWrite(name) =>
      var spec := FieldSpecOf(c.fields, name);
      if spec.None? then base else AddField(base, spec.value)
    case ViewWrite(name) => WithTable(base, AddView(base.named[0], name))
    case FilterWrite(name) =>
      var spec := ViewSpecOf(c.views, name);
      var filter := if spec.None? then None else Expected(spec.value, base.named[0].fields);
      if filter.None? then base else WithTable(base, SetFilter(base.named[0], name, filter.value))
    case TableWrite => base
  }

  function PerformAll(c: Contract, base: Base, writes: seq<Write>): Base
    decreases |writes|
  {
    if writes == [] then base else PerformAll(c, Perform(c, base, writes[0]), writes[1..])
  }

  lemma {:induction false} FieldSpecFound(specs: seq<FieldSpec>, i: nat)
    requires i < |specs| && forall a, b | 0 <= a < b < |specs| :: specs[a].name != specs[b].name
    ensures FieldSpecOf(specs, specs[i].name) == Some(specs[i])
  {
    if i > 0 { FieldSpecFound(specs[1..], i - 1); }
  }

  lemma {:induction false} ViewSpecFound(specs: seq<ViewSpec>, i: nat)
    requires i < |specs| && forall a, b | 0 <= a < b < |specs| :: specs[a].name != specs[b].name
    ensures ViewSpecOf(specs, specs[i].name) == Some(specs[i])
  {
    if i > 0 { ViewSpecFound(specs[1..], i - 1); }
  }

  // The first view left to do ------------------------------------------------------------------------

  ghost predicate FirstLeft(states: seq<ViewState>, i: nat) {
    i < |states| && states[i] != Complete && forall j | 0 <= j < i :: states[j] == Complete
  }

  lemma {:induction false} FindFirstLeft(specs: seq<ViewSpec>, states: seq<ViewState>) returns (i: nat)
    requires |specs| == |states| && AllViewNeeds(specs, states) != []
    ensures FirstLeft(states, i)
  {
    if states[0] == Complete {
      var k := FindFirstLeft(specs[1..], states[1..]);
      i := k + 1;
    } else {
      i := 0;
    }
  }

  // What is left to request is what that view needs, and then what the views after it need.
  lemma {:induction false} NeedsFrom(specs: seq<ViewSpec>, states: seq<ViewState>, i: nat)
    requires |specs| == |states| && i < |states| && forall j | 0 <= j < i :: states[j] == Complete
    ensures AllViewNeeds(specs, states) == ViewNeeds(specs[i], states[i]) + AllViewNeeds(specs[i + 1..], states[i + 1..])
  {
    if i > 0 {
      NeedsFrom(specs[1..], states[1..], i - 1);
      assert specs[1..][i..] == specs[i + 1..] && states[1..][i..] == states[i + 1..];
    }
  }

  // The state of the first view left after its next request.
  function StateAfter(spec: ViewSpec, state: ViewState): ViewState {
    if state == Create && spec.rule.Some? then Configure else Complete
  }

  function TableAfter(spec: ViewSpec, t: Table): Table {
    if StateOf(spec, t) == Create then AddView(t, spec.name)
    else if Expected(spec, t.fields).None? then t else SetFilter(t, spec.name, Expected(spec, t.fields).value)
  }

  // The table after the next request of a view: the state of that view changes and the others stay.
  ghost predicate ViewStep(c: Contract, t: Table, u: Table, i: nat) {
    && i < |c.views| && Ready(c, u) && u.fields == t.fields
    && StateOf(c.views[i], u) == StateAfter(c.views[i], StateOf(c.views[i], t))
    && forall j | 0 <= j < |c.views| && j != i :: StateOf(c.views[j], u) == StateOf(c.views[j], t)
  }

  lemma {:induction false} TableStep(c: Contract, t: Table, i: nat)
    requires ValidContract(c) && Ready(c, t) && i < |c.views| && StateOf(c.views[i], t) != Complete
    ensures Expected(c.views[i], t.fields).Some?
    ensures StateOf(c.views[i], t) == Configure ==> c.views[i].rule.Some?
    ensures ViewStep(c, t, TableAfter(c.views[i], t), i)
  {
    RuleReady(c, t.fields, i);
    assert ViewAccepted(c.views[i], t);
    if StateOf(c.views[i], t) == Create { AddViewReady(c, t, i); } else { SetFilterReady(c, t, i); }
  }

  lemma {:induction false} SteadyNeeds(c: Contract, base: Base)
    requires base.named != [] && MissingFields(c.fields, base.named[0].fields) == []
    ensures Needed(c, base) == AllViewNeeds(c.views, StatesOf(c.views, base.named[0]))
  {
    var views := AllViewNeeds(c.views, StatesOf(c.views, base.named[0]));
    assert FieldNeeds([]) + views == views && [] + views == views;
  }

  lemma {:induction false} FilledIsSteady(c: Contract, base: Base)
    requires Accepted(c, base) && base.named != [] && MissingFields(c.fields, base.named[0].fields) == []
    ensures Steady(c, base)
  {
    NothingMissing(c, base);
  }

  lemma {:induction false} PerformView(c: Contract, base: Base, i: nat)
    requires ValidContract(c) && Steady(c, base) && i < |c.views| && StateOf(c.views[i], base.named[0]) != Complete
    ensures ViewNeeds(c.views[i], StateOf(c.views[i], base.named[0])) != []
    ensures Perform(c, base, ViewNeeds(c.views[i], StateOf(c.views[i], base.named[0]))[0]) ==
      WithTable(base, TableAfter(c.views[i], base.named[0]))
  {
    TableStep(c, base.named[0], i);
    ViewSpecFound(c.views, i);
  }

  lemma {:induction false} StatesAfter(c: Contract, t: Table, u: Table, i: nat)
    requires i < |c.views| && ViewStep(c, t, u, i)
    ensures StatesOf(c.views, u) == StatesOf(c.views, t)[i := StateAfter(c.views[i], StateOf(c.views[i], t))]
  {
  }

  lemma {:induction false} WithoutFirst(a: seq<Write>, b: seq<Write>)
    requires a != []
    ensures (a + b)[0] == a[0] && (a + b)[1..] == a[1..] + b
  {
  }

  // One request fewer.
  lemma {:induction false} NeedsAfter(specs: seq<ViewSpec>, states: seq<ViewState>, i: nat)
    requires |specs| == |states| && FirstLeft(states, i)
    ensures AllViewNeeds(specs, states) != [] && ViewNeeds(specs[i], states[i]) != []
    ensures AllViewNeeds(specs, states)[0] == ViewNeeds(specs[i], states[i])[0]
    ensures AllViewNeeds(specs, states[i := StateAfter(specs[i], states[i])]) == AllViewNeeds(specs, states)[1..]
  {
    var after := states[i := StateAfter(specs[i], states[i])];
    NeedsFrom(specs, states, i);
    NeedsFrom(specs, after, i);
    assert after[i + 1..] == states[i + 1..];
    OwnNeedsAfter(specs[i], states[i]);
    WithoutFirst(ViewNeeds(specs[i], states[i]), AllViewNeeds(specs[i + 1..], states[i + 1..]));
  }

  lemma {:induction false} OwnNeedsAfter(spec: ViewSpec, state: ViewState)
    requires state != Complete
    ensures ViewNeeds(spec, state) != [] && ViewNeeds(spec, StateAfter(spec, state)) == ViewNeeds(spec, state)[1..]
  {
  }

  lemma {:induction false} NextViewRequest(c: Contract, base: Base) returns (i: nat)
    requires ValidContract(c) && Steady(c, base) && Needed(c, base) != []
    ensures FirstLeft(StatesOf(c.views, base.named[0]), i)
    ensures ViewStep(c, base.named[0], TableAfter(c.views[i], base.named[0]), i)
    ensures Perform(c, base, Needed(c, base)[0]) == WithTable(base, TableAfter(c.views[i], base.named[0]))
    ensures Steady(c, Perform(c, base, Needed(c, base)[0]))
    ensures Needed(c, Perform(c, base, Needed(c, base)[0])) == Needed(c, base)[1..]
  {
    var states := StatesOf(c.views, base.named[0]);
    SteadyAccepted(c, base);
    SteadyNeeds(c, base);
    i := FindFirstLeft(c.views, states);
    NeedsAfter(c.views, states, i);
    PerformView(c, base, i);
    TableStep(c, base.named[0], i);
    var next := WithTable(base, TableAfter(c.views[i], base.named[0]));
    SteadyAccepted(c, next);
    SteadyNeeds(c, next);
    StatesAfter(c, base.named[0], next.named[0], i);
  }

  // Main result: the first request of a run leaves an accepted base that needs exactly the other requests.
  lemma {:induction false} FirstRequest(c: Contract, base: Base)
    requires ValidContract(c) && Accepted(c, base) && Needed(c, base) != []
    ensures Accepted(c, Perform(c, base, Needed(c, base)[0]))
    ensures Needed(c, Perform(c, base, Needed(c, base)[0])) == Needed(c, base)[1..]
  {
    if base.named == [] {
      AddTableAccepted(c, base);
    } else if MissingFields(c.fields, base.named[0].fields) != [] {
      FieldRequest(c, base);
    } else {
      FilledIsSteady(c, base);
      var i := NextViewRequest(c, base);
      SteadyAccepted(c, Perform(c, base, Needed(c, base)[0]));
    }
  }

  lemma {:induction false} PerformField(c: Contract, base: Base)
    requires ValidContract(c) && base.named != [] && MissingFields(c.fields, base.named[0].fields) != []
    ensures var first := MissingFields(c.fields, base.named[0].fields)[0];
      Perform(c, base, FieldWrite(first.name)) == AddField(base, first)
  {
    var missing := MissingFields(c.fields, base.named[0].fields);
    assert missing[0] in missing;
    MissingIsAbsent(c.fields, base.named[0].fields, missing[0]);
    var k :| 0 <= k < |c.fields| && c.fields[k] == missing[0];
    FieldSpecFound(c.fields, k);
  }

  lemma {:induction false} FieldNeedsAfter(missing: seq<FieldSpec>, views: seq<Write>)
    requires missing != []
    ensures FieldNeeds(missing) + views != [] && (FieldNeeds(missing) + views)[0] == FieldWrite(missing[0].name)
    ensures (FieldNeeds(missing) + views)[1..] == FieldNeeds(missing[1..]) + views
  {
    assert FieldNeeds(missing[1..]) == FieldNeeds(missing)[1..];
  }

  lemma {:induction false} FieldRequest(c: Contract, base: Base)
    requires ValidContract(c) && Accepted(c, base) && base.named != []
    requires MissingFields(c.fields, base.named[0].fields) != []
    ensures Needed(c, base) != []
    ensures var next := Perform(c, base, Needed(c, base)[0]);
      && next == AddField(base, MissingFields(c.fields, base.named[0].fields)[0])
      && Accepted(c, next) && StatesOf(c.views, next.named[0]) == StatesOf(c.views, base.named[0])
      && Needed(c, next) == Needed(c, base)[1..]
  {
    var missing := MissingFields(c.fields, base.named[0].fields);
    var views := AllViewNeeds(c.views, StatesOf(c.views, base.named[0]));
    FieldNeedsAfter(missing, views);
    assert Needed(c, base) == FieldNeeds(missing) + views;
    PerformField(c, base);
    FieldStep(c, base);
  }

  lemma {:induction false} PrefixStep(c: Contract, base: Base, writes: seq<Write>, rest: seq<Write>, n: nat)
    requires 0 < n <= |writes| && rest == writes[1..]
    ensures PerformAll(c, base, writes[..n]) == PerformAll(c, Perform(c, base, writes[0]), rest[..n - 1])
  {
    assert writes[..n][0] == writes[0] && writes[..n][1..] == rest[..n - 1];
  }

  // Main result: a run stopped after any number of its requests leaves an accepted base, and the next run
  // sends exactly the requests that were left.
  lemma {:induction false} StoppedAnywhere(c: Contract, base: Base, n: nat)
    requires ValidContract(c) && Accepted(c, base) && n <= |Needed(c, base)|
    ensures Accepted(c, PerformAll(c, base, Needed(c, base)[..n]))
    ensures Needed(c, PerformAll(c, base, Needed(c, base)[..n])) == Needed(c, base)[n..]
    decreases n
  {
    if n > 0 {
      var needed := Needed(c, base);
      var next := Perform(c, base, needed[0]);
      FirstRequest(c, base);
      StoppedAnywhere(c, next, n - 1);
      PrefixStep(c, base, needed, Needed(c, next), n);
    }
  }

  // The run is its requests ----------------------------------------------------------------------------

  lemma {:induction false} CompleteSkipped(c: Contract, t: Table, states: seq<ViewState>, i: nat)
    requires i <= |states| == |c.views| && forall j | 0 <= j < i :: states[j] == Complete
    ensures ApplyViews(c, c.views, states, t) == ApplyViews(c, c.views[i..], states[i..], t)
  {
    if i == 0 {
      assert c.views[0..] == c.views && states[0..] == states;
    } else {
      CompleteSkipped(c, t, states, i - 1);
      ApplyViewsStep(c, t, states, i - 1);
      var rest := ApplyViews(c, c.views[i..], states[i..], t);
      assert [] + rest.1 == rest.1;
    }
  }

  // With nothing left to do, completing changes nothing.
  lemma {:induction false} IdleCompletes(c: Contract, base: Base)
    requires ValidContract(c) && Accepted(c, base) && base.named != [] && NothingToDo(PlanOf(c, base))
    ensures Completed(c, base) == base
  {
    CompleteSkipped(c, base.named[0], StatesOf(c.views, base.named[0]), |c.views|);
    assert c.views[|c.views|..] == [];
  }

  // So the end of a run of a table is its completion in any case.
  lemma {:induction false} FinalIsCompleted(c: Contract, base: Base)
    requires ValidContract(c) && Accepted(c, base)
    ensures Final(c, base) == Completed(c, Started(c, base))
  {
    StartAccepted(c, base);
    if NothingToDo(PlanOf(c, Started(c, base))) { IdleCompletes(c, Started(c, base)); }
  }

  // Turning to a view after its first request ends as turning to it before.
  lemma {:induction false} SameTurn(c: Contract, t: Table, i: nat)
    requires ValidContract(c) && Ready(c, t) && i < |c.views| && StateOf(c.views[i], t) != Complete
    ensures var u := TableAfter(c.views[i], t);
      ApplyView(c, c.views[i], StateOf(c.views[i], t), t).0 == ApplyView(c, c.views[i], StateOf(c.views[i], u), u).0
  {
    TableStep(c, t, i);
  }

  lemma {:induction false} SameLoop(c: Contract, t: Table, u: Table, i: nat)
    requires i < |c.views| && FirstLeft(StatesOf(c.views, t), i) && ViewStep(c, t, u, i)
    requires ApplyView(c, c.views[i], StateOf(c.views[i], t), t).0 == ApplyView(c, c.views[i], StateOf(c.views[i], u), u).0
    ensures ApplyViews(c, c.views, StatesOf(c.views, t), t).0 == ApplyViews(c, c.views, StatesOf(c.views, u), u).0
  {
    var states, after := StatesOf(c.views, t), StatesOf(c.views, u);
    StatesAfter(c, t, u, i);
    CompleteSkipped(c, t, states, i);
    CompleteSkipped(c, u, after, i);
    ApplyViewsStep(c, t, states, i);
    ApplyViewsStep(c, u, after, i);
    assert after[i + 1..] == states[i + 1..];
  }

  lemma {:induction false} CompletedSteady(c: Contract, base: Base)
    requires Steady(c, base)
    ensures Completed(c, base) == WithTable(base, ApplyViews(c, c.views, StatesOf(c.views, base.named[0]), base.named[0]).0)
  {
    SteadyAccepted(c, base);
  }

  lemma {:induction false} CompletedAfterView(c: Contract, base: Base)
    requires ValidContract(c) && Steady(c, base) && Needed(c, base) != []
    ensures Completed(c, Perform(c, base, Needed(c, base)[0])) == Completed(c, base)
  {
    var i := NextViewRequest(c, base);
    var t, next := base.named[0], Perform(c, base, Needed(c, base)[0]);
    SameTurn(c, t, i);
    SameLoop(c, t, next.named[0], i);
    CompletedSteady(c, base);
    CompletedSteady(c, next);
  }

  lemma {:induction false} CompletedAfterField(c: Contract, base: Base)
    requires ValidContract(c) && Accepted(c, base) && base.named != []
    requires MissingFields(c.fields, base.named[0].fields) != []
    ensures Completed(c, AddField(base, MissingFields(c.fields, base.named[0].fields)[0])) == Completed(c, base)
  {
    FieldStep(c, base);
  }

  lemma {:induction false} FinalAfterFirst(c: Contract, base: Base)
    requires ValidContract(c) && Accepted(c, base) && Needed(c, base) != []
    ensures Final(c, Perform(c, base, Needed(c, base)[0])) == Final(c, base)
  {
    if base.named == [] {
    } else if MissingFields(c.fields, base.named[0].fields) != [] {
      FieldRequest(c, base);
      CompletedAfterField(c, base);
      FinalIsCompleted(c, base);
      FinalIsCompleted(c, Perform(c, base, Needed(c, base)[0]));
    } else {
      FilledIsSteady(c, base);
      CompletedAfterView(c, base);
      FirstRequest(c, base);
      FinalIsCompleted(c, base);
      var i := NextViewRequest(c, base);
      FinalIsCompleted(c, Perform(c, base, Needed(c, base)[0]));
    }
  }

  lemma {:induction false} NothingNeededIsFinal(c: Contract, base: Base)
    requires ValidContract(c) && Accepted(c, base) && Needed(c, base) == []
    ensures Final(c, base) == base
  {
    var states := StatesOf(c.views, base.named[0]);
    forall i | 0 <= i < |states| ensures states[i] == Complete {
      ViewNeedAt(c, base.named[0], i);
      ViewNeedsHave(c.views, states, FilterWrite(c.views[i].name));
    }
    assert |FieldNeeds(MissingFields(c.fields, base.named[0].fields))| == 0;
  }

  // Main result: performing the needed requests one by one is the run.
  lemma {:induction false} RunIsItsRequests(c: Contract, base: Base)
    requires ValidContract(c) && Accepted(c, base)
    ensures PerformAll(c, base, Needed(c, base)) == Final(c, base)
    decreases |Needed(c, base)|
  {
    if Needed(c, base) == [] {
      NothingNeededIsFinal(c, base);
    } else {
      FirstRequest(c, base);
      FinalAfterFirst(c, base);
      RunIsItsRequests(c, Perform(c, base, Needed(c, base)[0]));
    }
  }

  function SentBefore(c: Contract, base: Base, cut: nat): nat {
    if cut < |Needed(c, base)| then cut else |Needed(c, base)|
  }

  // A run stopped after that many requests, or a whole run if it needs no more.
  function Stopped(c: Contract, base: Base, cut: nat): Base {
    PerformAll(c, base, Needed(c, base)[..SentBefore(c, base, cut)])
  }

  // Any number of runs, each stopped after some of its requests or not at all.
  function Interrupted(c: Contract, base: Base, cuts: seq<nat>): Base
    decreases |cuts|
  {
    if cuts == [] then base else Interrupted(c, Stopped(c, base, cuts[0]), cuts[1..])
  }

  lemma {:induction false} PerformConcat(c: Contract, base: Base, a: seq<Write>, b: seq<Write>)
    ensures PerformAll(c, base, a + b) == PerformAll(c, PerformAll(c, base, a), b)
    decreases |a|
  {
    if a == [] {
      assert a + b == b;
    } else {
      assert (a + b)[0] == a[0] && (a + b)[1..] == a[1..] + b;
      PerformConcat(c, Perform(c, base, a[0]), a[1..], b);
    }
  }

  lemma {:induction false} PerformPrefix(c: Contract, base: Base, writes: seq<Write>, n: nat)
    requires n <= |writes|
    ensures PerformAll(c, PerformAll(c, base, writes[..n]), writes[n..]) == PerformAll(c, base, writes)
  {
    PerformConcat(c, base, writes[..n], writes[n..]);
    assert writes[..n] + writes[n..] == writes;
  }

  // The base is accepted, needs exactly the requests but the first `sent`, and a whole run from it ends in
  // the very base that a whole run from the other one ends in.
  ghost predicate ResumesAt(c: Contract, base: Base, left: Base, sent: nat) {
    && Accepted(c, left) && Final(c, left) == Final(c, base)
    && sent <= |Needed(c, base)| && Needed(c, left) == Needed(c, base)[sent..]
  }

  lemma {:induction false} StoppedResumes(c: Contract, base: Base, cut: nat)
    requires ValidContract(c) && Accepted(c, base)
    ensures ResumesAt(c, base, Stopped(c, base, cut), SentBefore(c, base, cut))
  {
    StoppedAnywhere(c, base, SentBefore(c, base, cut));
    RunIsItsRequests(c, base);
    RunIsItsRequests(c, Stopped(c, base, cut));
    PerformPrefix(c, base, Needed(c, base), SentBefore(c, base, cut));
  }

  lemma {:induction false} ResumesTwice(c: Contract, base: Base, mid: Base, left: Base, n: nat, m: nat)
    requires ResumesAt(c, base, mid, n) && ResumesAt(c, mid, left, m)
    ensures ResumesAt(c, base, left, n + m)
  {
    assert Needed(c, base)[n..][m..] == Needed(c, base)[n + m..];
  }

  // Main result: this holds whatever runs were interrupted before.
  lemma {:induction false} InterruptedRunsResume(c: Contract, base: Base, cuts: seq<nat>) returns (sent: nat)
    requires ValidContract(c) && Accepted(c, base)
    ensures ResumesAt(c, base, Interrupted(c, base, cuts), sent)
    decreases |cuts|
  {
    if cuts == [] {
      sent := 0;
    } else {
      var mid := Stopped(c, base, cuts[0]);
      StoppedResumes(c, base, cuts[0]);
      var m := InterruptedRunsResume(c, mid, cuts[1..]);
      ResumesTwice(c, base, mid, Interrupted(c, mid, cuts[1..]), SentBefore(c, base, cuts[0]), m);
      sent := SentBefore(c, base, cuts[0]) + m;
    }
  }
}
