// How many requests a Notification Log run makes, and which runs the guard's limits block.
module NotificationLogLimits {
  import opened Wrappers
  import opened NotificationLog
  import opened NotificationLogResume

  const VIEW_READ_LIMIT: nat := 40

  // Counting the states of a plan ------------------------------------------------------------------------

  function Count(states: seq<ViewState>, state: ViewState): (n: nat)
    ensures n <= |states|
  {
    if states == [] then 0 else (if states[0] == state then 1 else 0) + Count(states[1..], state)
  }

  // The views left to do.
  function Left(states: seq<ViewState>): nat { Count(states, Create) + Count(states, Configure) }

  // How many of the views to create come before one to configure, over all views to configure.
  function CreatedAhead(states: seq<ViewState>): nat {
    if states == [] then 0
    else (if states[0] == Create then Count(states[1..], Configure) else 0) + CreatedAhead(states[1..])
  }

  // The views left to do that have a filter to set.
  function Ruled(specs: seq<ViewSpec>, states: seq<ViewState>): (n: nat)
    requires |specs| == |states|
  {
    if specs == [] then 0
    else (if states[0] != Complete && specs[0].rule.Some? then 1 else 0) + Ruled(specs[1..], states[1..])
  }

  // 1 + 2 + ... + k
  function Triangle(k: nat): nat { if k == 0 then 0 else k + Triangle(k - 1) }

  function There(states: seq<ViewState>): nat { |states| - Count(states, Create) }

  // The view reads of the turns over the views: one for each filter to set, and in the plan after a turn
  // one for every view there by then.
  function TurnReads(specs: seq<ViewSpec>, states: seq<ViewState>, there: nat): int
    requires |specs| == |states|
  {
    Ruled(specs, states) + Left(states) * there + Triangle(Count(states, Create)) + CreatedAhead(states)
  }

  // The view reads of a whole run, by what its first plan of the table finds.
  function RunReads(c: Contract, base: Base): int {
    var start := Started(c, base).named[0];
    var states := StatesOf(c.views, start);
    var there := There(states);
    if NothingToDo(PlanOf(c, Started(c, base))) then there
    else 2 * there + TurnReads(c.views, states, there) + |c.views|
  }

  lemma {:induction false} BusyReads(c: Contract, base: Base)
    requires base.named != [] && !NothingToDo(PlanOf(c, base))
    ensures var states := StatesOf(c.views, base.named[0]);
      RunReads(c, base) == 2 * There(states) + TurnReads(c.views, states, There(states)) + |c.views|
  {
  }

  lemma {:induction false} CountChange(states: seq<ViewState>, i: nat, state: ViewState, v: ViewState)
    requires i < |states|
    ensures Count(states[i := state], v) + (if states[i] == v then 1 else 0) == Count(states, v) + if state == v then 1 else 0
  {
    if i > 0 {
      assert states[i := state][1..] == states[1..][i - 1 := state];
      CountChange(states[1..], i - 1, state, v);
    }
  }

  lemma {:induction false} PlanReadsAre(specs: seq<ViewSpec>, t: Table)
    ensures PlanReads(specs, t) + Count(StatesOf(specs, t), Create) == |specs|
  {
    if specs != [] {
      PlanReadsAre(specs[1..], t);
      assert StatesOf(specs, t)[1..] == StatesOf(specs[1..], t);
    }
  }

  // One turn: a read for its filter, and the plan after it.
  function ReadsOfTurn(spec: ViewSpec, state: ViewState, there: nat): nat {
    if state == Complete then 0
    else (if spec.rule.Some? then 1 else 0) + there + if state == Create then 1 else 0
  }

  function ReadsOfTurns(specs: seq<ViewSpec>, states: seq<ViewState>, there: nat): nat
    requires |specs| == |states|
  {
    if specs == [] then 0
    else ReadsOfTurn(specs[0], states[0], there)
         + ReadsOfTurns(specs[1..], states[1..], there + if states[0] == Create then 1 else 0)
  }

  lemma {:induction false} TurnReadsAre(c: Contract, t: Table, i: nat)
    requires ValidContract(c) && Ready(c, t) && i < |c.views|
    ensures var step := ApplyView(c, c.views[i], StateOf(c.views[i], t), t);
      && step.2 == ReadsOfTurn(c.views[i], StateOf(c.views[i], t), PlanReads(c.views, t))
      && PlanReads(c.views, step.0) == PlanReads(c.views, t) + if StateOf(c.views[i], t) == Create then 1 else 0
  {
    var step := ApplyView(c, c.views[i], StateOf(c.views[i], t), t);
    ApplyViewCompletes(c, t, i);
    RuleReady(c, t.fields, i);
    assert StatesOf(c.views, step.0) == StatesOf(c.views, t)[i := Complete];
    CountChange(StatesOf(c.views, t), i, Complete, Create);
    PlanReadsAre(c.views, t);
    PlanReadsAre(c.views, step.0);
  }

  lemma {:induction false} TurnsFrom(specs: seq<ViewSpec>, states: seq<ViewState>, i: nat, there: nat)
    requires i < |specs| == |states|
    ensures ReadsOfTurns(specs[i..], states[i..], there) == ReadsOfTurn(specs[i], states[i], there)
      + ReadsOfTurns(specs[i + 1..], states[i + 1..], there + if states[i] == Create then 1 else 0)
  {
    assert specs[i..][1..] == specs[i + 1..] && states[i..][1..] == states[i + 1..];
  }

  ghost predicate LoopReadsAre(c: Contract, t: Table, states: seq<ViewState>, from: nat)
    requires from <= |c.views| == |states|
  {
    ApplyViews(c, c.views[from..], states[from..], t).2 == ReadsOfTurns(c.views[from..], states[from..], PlanReads(c.views, t))
  }

  lemma {:induction false} LoopReadsStep(c: Contract, t: Table, states: seq<ViewState>, from: nat,
                                         step: (Table, seq<Write>, nat))
    requires from < |c.views| == |states| && step == ApplyView(c, c.views[from], states[from], t)
    requires step.2 == ReadsOfTurn(c.views[from], states[from], PlanReads(c.views, t))
    requires PlanReads(c.views, step.0) == PlanReads(c.views, t) + if states[from] == Create then 1 else 0
    requires LoopReadsAre(c, step.0, states, from + 1)
    ensures LoopReadsAre(c, t, states, from)
  {
    ApplyViewsStep(c, t, states, from);
    TurnsFrom(c.views, states, from, PlanReads(c.views, t));
  }

  lemma {:induction false} LoopReads(c: Contract, t: Table, states: seq<ViewState>, from: nat)
    requires ValidContract(c) && Ready(c, t) && from <= |c.views| == |states| && StatesFrom(c, t, states, from)
    ensures LoopReadsAre(c, t, states, from)
    decreases |c.views| - from
  {
    if from < |c.views| {
      var step := ApplyView(c, c.views[from], states[from], t);
      ApplyViewCompletes(c, t, from);
      LoopReads(c, step.0, states, from + 1);
      TurnReadsAre(c, t, from);
      LoopReadsStep(c, t, states, from, step);
    }
  }

  lemma {:induction false} OneMoreEach(n: nat, there: nat)
    ensures (n + 1) * there == n * there + there
    ensures n * (there + 1) == n * there + n
  {
  }

  // The turns in closed form, starting from any number of views there.
  lemma {:induction false} TurnsAre(specs: seq<ViewSpec>, states: seq<ViewState>, there: nat)
    requires |specs| == |states|
    ensures ReadsOfTurns(specs, states, there) == TurnReads(specs, states, there)
  {
    if specs != [] {
      OneMoreEach(Left(states[1..]), there);
      TurnsAre(specs[1..], states[1..], there + if states[0] == Create then 1 else 0);
    }
  }

  // Main result: the view reads of a run in closed form, over what its first plan finds.
  lemma {:induction false} ReadsAre(c: Contract, base: Base)
    requires ValidContract(c) && Accepted(c, base)
    ensures Reads(c, base) == RunReads(c, base)
  {
    var start := Started(c, base);
    StartAccepted(c, base);
    PlanReadsAre(c.views, start.named[0]);
    if !NothingToDo(PlanOf(c, start)) { CompletingReadsAre(c, start); }
  }

  lemma {:induction false} CompletingReadsAre(c: Contract, start: Base)
    requires ValidContract(c) && Accepted(c, start) && start.named != []
    ensures var states := StatesOf(c.views, start.named[0]);
      CompletingReads(c, start) == There(states) + TurnReads(c.views, states, There(states)) + |c.views|
  {
    FieldsFill(c, start);
    ViewsFill(c, Filled(c, start));
    ConfiguringReadsAre(c, Filled(c, start));
    PlanReadsAre(c.views, Filled(c, start).named[0]);
    AllThere(c.views, Completed(c, start).named[0]);
  }

  lemma {:induction false} ConfiguringReadsAre(c: Contract, filled: Base)
    requires ValidContract(c) && filled.named != [] && Ready(c, filled.named[0])
    ensures var states := StatesOf(c.views, filled.named[0]);
      Configured(c, filled).2 == TurnReads(c.views, states, There(states))
  {
    var states := StatesOf(c.views, filled.named[0]);
    LoopReads(c, filled.named[0], states, 0);
    assert c.views[0..] == c.views && states[0..] == states;
    PlanReadsAre(c.views, filled.named[0]);
    TurnsAre(c.views, states, There(states));
  }

  lemma {:induction false} AllThere(specs: seq<ViewSpec>, t: Table)
    requires forall i | 0 <= i < |specs| :: StateOf(specs[i], t) == Complete
    ensures PlanReads(specs, t) == |specs|
  {
    if specs != [] { AllThere(specs[1..], t); }
  }

  // The program's six views -----------------------------------------------------------------------------

  // The default view comes first and shows every row; each of the five others has a filter.
  ghost predicate ProgramViews(c: Contract) {
    && |c.views| == 6 && c.views[0].name == c.defaultView && c.views[0].rule.None?
    && forall i | 1 <= i < 6 :: c.views[i].rule.Some?
  }

  lemma {:induction false} AllRuled(specs: seq<ViewSpec>, states: seq<ViewState>)
    requires |specs| == |states| && forall i | 0 <= i < |specs| :: specs[i].rule.Some?
    ensures Ruled(specs, states) == Left(states)
  {
    if specs != [] { AllRuled(specs[1..], states[1..]); }
  }

  lemma {:induction false} CountsFit(states: seq<ViewState>)
    ensures Left(states) <= |states|
  {
    if states != [] { CountsFit(states[1..]); }
  }

  lemma {:induction false} AheadFits(states: seq<ViewState>)
    ensures CreatedAhead(states) <= Count(states, Create) * Count(states, Configure)
  {
    if states != [] {
      AheadFits(states[1..]);
      OneMoreEach(Count(states[1..], Create), Count(states[1..], Configure));
    }
  }

  lemma {:induction false} FirstSixTriangles()
    ensures Triangle(0) == 0 && Triangle(1) == 1 && Triangle(2) == 3 && Triangle(3) == 6
    ensures Triangle(4) == 10 && Triangle(5) == 15 && Triangle(6) == 21
  {
    assert Triangle(3) == 3 + Triangle(2);
    assert Triangle(5) == 5 + Triangle(4);
  }

  // What is blocked: four views or more to configure, three and any to create, or two with enough views
  // to create ahead of them.
  predicate TooMuch(states: seq<ViewState>)
    requires states != []
  {
    var create, configure := Count(states, Create), Count(states, Configure);
    || configure >= 4
    || (configure == 3 && create >= 1)
    || (configure == 2 && CreatedAhead(states) >= (if create == 2 then 4 else 3) + if states[0] == Create then 1 else 0)
  }

  lemma {:induction false} DefaultViewState(c: Contract, t: Table)
    requires ProgramViews(c) && ViewsAccepted(c, t)
    ensures StatesOf(c.views, t)[0] != Configure
  {
    assert ViewAccepted(c.views[0], t);
  }

  // The arithmetic of six views.
  lemma {:induction false} SixViewReads(create: nat, configure: nat, ahead: nat, first: nat, left: nat, there: nat)
    requires left == create + configure && there + create == 6
    requires first <= 1 && create + configure <= 5 + first && first <= create && ahead <= create * configure
    requires first == 1 ==> ahead >= configure
    ensures 2 * there + (left - first + left * there + Triangle(create) + ahead) + 6 > VIEW_READ_LIMIT
      <==> configure >= 4 || (configure == 3 && create >= 1) || (configure == 2 && ahead >= (if create == 2 then 4 else 3) + first)
  {
    FirstSixTriangles();
    if create == 0 {
    } else if create == 1 {
    } else if create == 2 {
    } else if create == 3 {
    } else if create == 4 {
    } else if create == 5 {
    }
  }

  lemma {:induction false} SixViewTurns(c: Contract, t: Table)
    requires ProgramViews(c) && ViewsAccepted(c, t)
    ensures var states := StatesOf(c.views, t);
      2 * There(states) + TurnReads(c.views, states, There(states)) + |c.views| > VIEW_READ_LIMIT <==> TooMuch(states)
  {
    var states := StatesOf(c.views, t);
    DefaultViewState(c, t);
    CountsFit(states[1..]);
    AheadFits(states);
    AllRuled(c.views[1..], states[1..]);
    SixViewReads(Count(states, Create), Count(states, Configure), CreatedAhead(states), if states[0] == Create then 1 else 0,
                 Left(states), There(states));
  }

  // Main result: with the program's views an accepted base makes more view reads than the limit allows
  // exactly when its first plan finds too much left to configure.
  lemma {:induction false} BlockedExactlyWhenTooMuch(c: Contract, base: Base)
    requires ValidContract(c) && Accepted(c, base) && ProgramViews(c)
    ensures Reads(c, base) > VIEW_READ_LIMIT <==> TooMuch(StatesOf(c.views, Started(c, base).named[0]))
  {
    StartAccepted(c, base);
    ReadsAre(c, base);
    SixViewTurns(c, Started(c, base).named[0]);
    if NothingToDo(PlanOf(c, Started(c, base))) { NoneLeft(StatesOf(c.views, Started(c, base).named[0])); }
  }

  lemma {:induction false} NoneLeft(states: seq<ViewState>)
    requires forall i | 0 <= i < |states| :: states[i] == Complete
    ensures Count(states, Create) == Count(states, Configure) == 0
  {
    if states != [] { NoneLeft(states[1..]); }
  }

  lemma {:induction false} SixThere(specs: seq<ViewSpec>, states: seq<ViewState>)
    requires |specs| == |states| == 6 && Count(states, Create) == 0 && Ruled(specs, states) == Count(states, Configure)
    ensures 2 * There(states) + TurnReads(specs, states, There(states)) + 6 == 18 + 7 * Count(states, Configure)
  {
    AheadFits(states);
    assert There(states) == 6;
  }

  // With six views that are all there, it is four or more to configure, whatever their filters.
  lemma {:induction false} LimitBlocksFourUnconfigured(c: Contract, base: Base)
    requires ValidContract(c) && Accepted(c, base) && base.named != [] && |c.views| == 6
    requires Count(StatesOf(c.views, base.named[0]), Create) == 0
    ensures Reads(c, base) > VIEW_READ_LIMIT <==> Count(StatesOf(c.views, base.named[0]), Configure) >= 4
  {
    var states := StatesOf(c.views, base.named[0]);
    ReadsAre(c, base);
    ConfigureRuled(c, base.named[0], 0);
    assert c.views[0..] == c.views && states[0..] == states;
    SixThere(c.views, states);
    if NothingToDo(PlanOf(c, base)) { NoneLeft(states); } else { BusyReads(c, base); }
  }

  lemma {:induction false} ConfigureRuled(c: Contract, t: Table, from: nat)
    requires ViewsAccepted(c, t) && from <= |c.views| && Count(StatesOf(c.views, t)[from..], Create) == 0
    ensures Ruled(c.views[from..], StatesOf(c.views, t)[from..]) == Count(StatesOf(c.views, t)[from..], Configure)
    decreases |c.views| - from
  {
    var states := StatesOf(c.views, t);
    if from < |c.views| {
      assert states[from..][1..] == states[from + 1..] && c.views[from..][1..] == c.views[from + 1..];
      ConfigureRuled(c, t, from + 1);
      if states[from] == Configure {
        assert ViewAccepted(c.views[from], t);
        ConfigureHasRule(c.views[from], t);
      }
    }
  }

  // Bases left by the program's own runs -----------------------------------------------------------------

  // Only the first view that is not complete may be there without its filter.
  ghost predicate Tidy(states: seq<ViewState>) {
    forall j, k | 0 <= j < k < |states| && states[k] == Configure :: states[j] == Complete
  }

  ghost predicate OwnBase(c: Contract, base: Base) {
    base.named != [] ==> Tidy(StatesOf(c.views, base.named[0])) && base.named[0].views != []
  }

  lemma {:induction false} TidyConfiguresOne(states: seq<ViewState>)
    requires Tidy(states)
    ensures Count(states, Configure) <= 1
  {
    if states != [] {
      TidyConfiguresOne(states[1..]);
      if states[0] == Configure { NoConfigure(states[1..]); }
    }
  }

  lemma {:induction false} NoConfigure(states: seq<ViewState>)
    requires forall i | 0 <= i < |states| :: states[i] != Configure
    ensures Count(states, Configure) == 0
  {
    if states != [] { NoConfigure(states[1..]); }
  }

  lemma {:induction false} ViewNamedOnce(views: seq<View>, i: nat)
    requires i < |views| && forall a, b | 0 <= a < b < |views| :: views[a].name != views[b].name
    ensures ViewsNamed(views, views[i].name) == [views[i]]
  {
    if i > 0 { ViewNamedOnce(views[1..], i - 1); } else { ViewNamedNever(views[1..], views[0].name); }
  }

  lemma {:induction false} ViewNamedNever(views: seq<View>, name: string)
    requires forall i | 0 <= i < |views| :: views[i].name != name
    ensures ViewsNamed(views, name) == []
  {
    if views != [] { ViewNamedNever(views[1..], name); }
  }

  // In a new table the default view is there and complete, and the other views are to be created.
  lemma {:induction false} NewTableTidy(c: Contract, base: Base)
    requires ValidContract(c) && ProgramViews(c) && Accepted(c, base) && base.named == []
    ensures OwnBase(c, AddTable(c, base))
  {
    var t := AddTable(c, base).named[0];
    ViewNamedOnce(t.views, 0);
    forall k | 1 <= k < |c.views| ensures StateOf(c.views[k], t) == Create {
      assert c.views[0].name != c.views[k].name;
      ViewNamedNever(t.views, c.views[k].name);
    }
  }

  lemma {:induction false} TidyAfter(c: Contract, t: Table, u: Table, i: nat)
    requires Tidy(StatesOf(c.views, t)) && FirstLeft(StatesOf(c.views, t), i) && ViewStep(c, t, u, i)
    ensures Tidy(StatesOf(c.views, u))
  {
  }

  lemma {:induction false} ViewsStay(spec: ViewSpec, t: Table)
    requires t.views != []
    ensures TableAfter(spec, t).views != []
  {
  }

  lemma {:induction false} OwnStep(c: Contract, base: Base)
    requires ValidContract(c) && ProgramViews(c) && Accepted(c, base) && OwnBase(c, base) && Needed(c, base) != []
    ensures OwnBase(c, Perform(c, base, Needed(c, base)[0]))
  {
    if base.named == [] {
      NewTableTidy(c, base);
    } else if MissingFields(c.fields, base.named[0].fields) != [] {
      FieldRequest(c, base);
    } else {
      FilledIsSteady(c, base);
      var i := NextViewRequest(c, base);
      TidyAfter(c, base.named[0], TableAfter(c.views[i], base.named[0]), i);
      ViewsStay(c.views[i], base.named[0]);
    }
  }

  ghost predicate Own(c: Contract, base: Base) { Accepted(c, base) && OwnBase(c, base) }

  lemma {:induction false} OwnFirst(c: Contract, base: Base)
    requires ValidContract(c) && ProgramViews(c) && Own(c, base) && Needed(c, base) != []
    ensures Own(c, Perform(c, base, Needed(c, base)[0]))
    ensures Needed(c, Perform(c, base, Needed(c, base)[0])) == Needed(c, base)[1..]
  {
    FirstRequest(c, base);
    OwnStep(c, base);
  }

  lemma {:induction false} OwnPrefix(c: Contract, base: Base, needed: seq<Write>, n: nat)
    requires ValidContract(c) && ProgramViews(c) && Own(c, base) && needed == Needed(c, base) && n <= |needed|
    ensures Own(c, PerformAll(c, base, needed[..n]))
    decreases n
  {
    if n > 0 {
      OwnFirst(c, base);
      OwnPrefix(c, Perform(c, base, needed[0]), needed[1..], n - 1);
      PrefixStep(c, base, needed, needed[1..], n);
    }
  }

  lemma {:induction false} OwnInterrupted(c: Contract, base: Base, cuts: seq<nat>)
    requires ValidContract(c) && ProgramViews(c) && Own(c, base)
    ensures Own(c, Interrupted(c, base, cuts))
    decreases |cuts|
  {
    if cuts != [] {
      OwnPrefix(c, base, Needed(c, base), SentBefore(c, base, cuts[0]));
      OwnInterrupted(c, Stopped(c, base, cuts[0]), cuts[1..]);
    }
  }

  // Main result: from a base without the table, however many runs are stopped anywhere, the next run stays
  // within the limits on view reads and on view creations.
  lemma {:induction false} OwnRunsAreNotBlocked(c: Contract, base: Base, cuts: seq<nat>)
    requires ValidContract(c) && ProgramViews(c) && Accepted(c, base) && base.named == []
    ensures var left := Interrupted(c, base, cuts);
      && Accepted(c, left) && Reads(c, left) <= VIEW_READ_LIMIT
      && (left.named != [] ==> left.named[0].views != [])
  {
    var left := Interrupted(c, base, cuts);
    OwnInterrupted(c, base, cuts);
    if left.named == [] { NewTableTidy(c, left); }
    TidyConfiguresOne(StatesOf(c.views, Started(c, left).named[0]));
    BlockedExactlyWhenTooMuch(c, left);
  }

  // The guard's other limits -------------------------------------------------------------------------------

  const TABLE_READ_LIMIT: nat := 10
  const FIELD_READ_LIMIT: nat := 20
  const VIEW_LIST_LIMIT: nat := 20

  // The plans a run makes; each lists the tables once, and the fields and views of the table at most once.
  function Plans(c: Contract, base: Base): nat {
    var states := StatesOf(c.views, Started(c, base).named[0]);
    (if base.named == [] then 2 else 1)
    + if NothingToDo(PlanOf(c, Started(c, base))) then 0 else 2 + Left(states)
  }

  function Sending(writes: seq<Write>, kind: Write -> bool): (n: nat)
    ensures n <= |writes|
  {
    if writes == [] then 0 else (if kind(writes[0]) then 1 else 0) + Sending(writes[1..], kind)
  }

  lemma {:induction false} SendingConcat(a: seq<Write>, b: seq<Write>, kind: Write -> bool)
    ensures Sending(a + b, kind) == Sending(a, kind) + Sending(b, kind)
  {
    if a == [] {
      assert a + b == b;
    } else {
      assert (a + b)[1..] == a[1..] + b;
      SendingConcat(a[1..], b, kind);
    }
  }

  lemma {:induction false} SendingNone(writes: seq<Write>, kind: Write -> bool)
    requires forall w <- writes :: !kind(w)
    ensures Sending(writes, kind) == 0
  {
    if writes != [] { SendingNone(writes[1..], kind); }
  }

  lemma {:induction false} SendingAll(writes: seq<Write>, kind: Write -> bool)
    requires forall w <- writes :: kind(w)
    ensures Sending(writes, kind) == |writes|
  {
    if writes != [] { SendingAll(writes[1..], kind); }
  }

  predicate IsTable(w: Write) { w.TableWrite? }
  predicate IsField(w: Write) { w.FieldWrite? }
  predicate IsView(w: Write) { w.ViewWrite? }
  predicate IsFilter(w: Write) { w.FilterWrite? }

  lemma {:induction false} SendingViews(specs: seq<ViewSpec>, states: seq<ViewState>)
    requires |specs| == |states| && forall i | 0 <= i < |specs| :: states[i] == Configure ==> specs[i].rule.Some?
    ensures Sending(AllViewNeeds(specs, states), IsView) == Count(states, Create)
    ensures Sending(AllViewNeeds(specs, states), IsFilter) == Ruled(specs, states)
  {
    if specs != [] {
      var first, rest := ViewNeeds(specs[0], states[0]), AllViewNeeds(specs[1..], states[1..]);
      SendingViews(specs[1..], states[1..]);
      SendingConcat(first, rest, IsView);
      SendingConcat(first, rest, IsFilter);
    }
  }

  lemma {:induction false} MissingFewer(specs: seq<FieldSpec>, fields: seq<Field>)
    ensures |MissingFields(specs, fields)| <= |specs|
  {
    if specs != [] { MissingFewer(specs[1..], fields); }
  }

  lemma {:induction false} PrimaryThere(c: Contract, base: Base)
    requires ValidContract(c) && Accepted(c, base) && base.named != []
    ensures |MissingFields(c.fields, base.named[0].fields)| <= |c.fields| - 1
  {
    assert FieldAccepted(c, base.named[0].fields, 0);
    MissingFewer(c.fields[1..], base.named[0].fields);
  }

  lemma {:induction false} SendingNeeds(first: seq<Write>, missing: seq<FieldSpec>, views: seq<Write>, kind: Write -> bool)
    ensures Sending(first + (FieldNeeds(missing) + views), kind) ==
      Sending(first, kind) + Sending(FieldNeeds(missing), kind) + Sending(views, kind)
  {
    SendingConcat(first, FieldNeeds(missing) + views, kind);
    SendingConcat(FieldNeeds(missing), views, kind);
  }

  lemma {:induction false} RuledFits(specs: seq<ViewSpec>, states: seq<ViewState>)
    requires |specs| == |states|
    ensures Ruled(specs, states) <= |specs|
  {
    if specs != [] { RuledFits(specs[1..], states[1..]); }
  }

  // How many requests of each kind a run sends.
  lemma {:induction false} RequestsByKind(c: Contract, base: Base)
    requires ValidContract(c) && Accepted(c, base)
    ensures var t := Started(c, base).named[0]; var states := StatesOf(c.views, t);
      && Sending(Needed(c, base), IsTable) == (if base.named == [] then 1 else 0)
      && Sending(Needed(c, base), IsField) == |MissingFields(c.fields, t.fields)|
      && Sending(Needed(c, base), IsView) == Count(states, Create)
      && Sending(Needed(c, base), IsFilter) == Ruled(c.views, states)
  {
    var t := Started(c, base).named[0];
    var states := StatesOf(c.views, t);
    var missing, views := MissingFields(c.fields, t.fields), AllViewNeeds(c.views, states);
    StartAccepted(c, base);
    ConfiguredHaveRules(c, t);
    SendingViews(c.views, states);
    ViewNeedKinds(c.views, states);
    SendingNone(views, IsTable);
    SendingNone(views, IsField);
    SendingAll(FieldNeeds(missing), IsField);
    SendingNone(FieldNeeds(missing), IsTable);
    SendingNone(FieldNeeds(missing), IsView);
    SendingNone(FieldNeeds(missing), IsFilter);
    SendingNeeds(StartNeeds(base), missing, views, IsTable);
    SendingNeeds(StartNeeds(base), missing, views, IsField);
    SendingNeeds(StartNeeds(base), missing, views, IsView);
    SendingNeeds(StartNeeds(base), missing, views, IsFilter);
  }

  lemma {:induction false} ConfiguredHaveRules(c: Contract, t: Table)
    requires ViewsAccepted(c, t)
    ensures forall i | 0 <= i < |c.views| :: StatesOf(c.views, t)[i] == Configure ==> c.views[i].rule.Some?
  {
    forall i | 0 <= i < |c.views| && StatesOf(c.views, t)[i] == Configure ensures c.views[i].rule.Some? {
      assert ViewAccepted(c.views[i], t);
      ConfigureHasRule(c.views[i], t);
    }
  }

  // Main result: with the program's views no other limit ever blocks a run. Only the limit on view creations
  // can, and it does exactly when the table is there without any view.
  lemma {:induction false} OtherLimitsNeverBind(c: Contract, base: Base)
    requires ValidContract(c) && Accepted(c, base) && ProgramViews(c)
    ensures Plans(c, base) <= TABLE_READ_LIMIT <= FIELD_READ_LIMIT == VIEW_LIST_LIMIT
    ensures Sending(Needed(c, base), IsTable) <= 1
    ensures Sending(Needed(c, base), IsField) <= |c.fields| - 1
    ensures Sending(Needed(c, base), IsFilter) <= |c.views| - 1
    ensures Sending(Needed(c, base), IsView) <= |c.views| - 1 <==> base.named == [] || base.named[0].views != []
  {
    var t := Started(c, base).named[0];
    var states := StatesOf(c.views, t);
    RequestsByKind(c, base);
    StartAccepted(c, base);
    PrimaryThere(c, Started(c, base));
    RuledFits(c.views[1..], states[1..]);
    CountsFit(states);
    if base.named == [] { NewTableTidy(c, base); }
    AllCreateExactly(c, t);
    if base.named == [] { assert StateOf(c.views[0], t) != Create; CountsFit(states[1..]); }
  }

  lemma {:induction false} CountAll(states: seq<ViewState>)
    ensures Count(states, Create) == |states| <==> forall i | 0 <= i < |states| :: states[i] == Create
  {
    if states != [] {
      CountAll(states[1..]);
      assert forall i | 0 < i < |states| :: states[i] == states[1..][i - 1];
    }
  }

  lemma {:induction false} AllCreateExactly(c: Contract, t: Table)
    requires ViewsAccepted(c, t)
    ensures Count(StatesOf(c.views, t), Create) == |c.views| <==> t.views == []
  {
    CountAll(StatesOf(c.views, t));
    if t.views != [] {
      assert ViewExpected(c, t.views[0].name);
      var i :| 0 <= i < |c.views| && c.views[i].name == t.views[0].name;
      assert StatesOf(c.views, t)[i] != Create;
    }
  }

  // A base the planner accepts and the limit blocks ---------------------------------------------------------

  function SampleContract(): Contract {
    var rule := Some(Rule("equals", ["attempt_status"]));
    Contract([FieldSpec("notification_attempt_key", 1, None), FieldSpec("attempt_status", 3, Some(["sent"]))],
             [ViewSpec("0", None), ViewSpec("1", rule), ViewSpec("2", rule), ViewSpec("3", rule), ViewSpec("4", rule),
              ViewSpec("5", rule)], "0")
  }

  // All fields, the default view, three views without their filters, and two views missing.
  function SampleBase(): Base {
    Base([Table([Field(1, "notification_attempt_key", 1, true, []), Field(2, "attempt_status", 3, false, ["sent"])],
                [View("0", NoFilter), View("1", NoFilter), View("2", NoFilter), View("3", NoFilter)])], 0, 3)
  }

  lemma {:induction false} SampleIsValid()
    ensures ValidContract(SampleContract()) && ProgramViews(SampleContract())
  {
    assert SampleContract().views[0].name == "0";
    assert SampleContract().fields[1].name == "attempt_status";
  }

  lemma {:induction false} SampleFields()
    ensures var c, fields := SampleContract(), SampleBase().named[0].fields;
      && FieldsNamed(fields, c.fields[0].name) == [fields[0]] && FieldsNamed(fields, c.fields[1].name) == [fields[1]]
      && FieldsAccepted(c, fields) && Ids(fields, ["attempt_status"]) == Some([2])
  {
    var c, fields := SampleContract(), SampleBase().named[0].fields;
    assert c.fields[0].name != c.fields[1].name;
    assert fields[1..] == [fields[1]] && fields[1..][1..] == [];
    assert FieldsNamed(fields[1..], c.fields[0].name) == [];
    assert fields[0].name == c.fields[0].name && fields[1].name == c.fields[1].name;
    assert c.fields[1].name == "attempt_status" && ["attempt_status"][1..] == [];
    assert Ids(fields, []) == Some([]) && [2] + [] == [2];
  }

  // The default view complete, three views to configure, and then two to create.
  function ThreeThenTwo(i: nat): ViewState { if i == 0 then Complete else if i < 4 then Configure else Create }

  // A view that is there without a filter.
  lemma {:induction false} BareView(spec: ViewSpec, t: Table)
    requires ViewsNamed(t.views, spec.name) == [View(spec.name, NoFilter)] && Expected(spec, t.fields).Some?
    ensures ViewAccepted(spec, t) && StateOf(spec, t) == if spec.rule.None? then Complete else Configure
  {
  }

  lemma {:induction false} SampleState(i: nat)
    requires i < 6
    ensures var c, t := SampleContract(), SampleBase().named[0];
      && ViewAccepted(c.views[i], t)
      && StateOf(c.views[i], t) == ThreeThenTwo(i)
  {
    var c, t := SampleContract(), SampleBase().named[0];
    if i < 4 {
      assert t.views[i] == View(c.views[i].name, NoFilter);
      ViewNamedOnce(t.views, i);
      SampleFields();
      BareView(c.views[i], t);
    } else {
      ViewNamedNever(t.views, c.views[i].name);
    }
  }

  lemma {:induction false} ThreeThenTwoCounts(states: seq<ViewState>)
    requires |states| == 6 && forall i | 0 <= i < 6 :: states[i] == ThreeThenTwo(i)
    ensures Count(states, Create) == Count(states[1..], Create) == 2
    ensures Count(states, Configure) == Count(states[1..], Configure) == 3 && CreatedAhead(states) == 0
  {
    var rest := states[1..];
    var afterOne, afterTwo, creates := rest[1..], rest[1..][1..], rest[1..][1..][1..];
    assert creates == [Create, Create] && creates[1..] == [Create] && creates[1..][1..] == [];
    assert Count(creates[1..], Create) == 1 && Count(creates[1..], Configure) == 0 && CreatedAhead(creates[1..]) == 0;
    assert Count(creates, Create) == 2 && Count(creates, Configure) == 0 && CreatedAhead(creates) == 0;
    assert Count(afterTwo, Create) == 2 && Count(afterTwo, Configure) == 1 && CreatedAhead(afterTwo) == 0;
    assert Count(afterOne, Create) == 2 && Count(afterOne, Configure) == 2 && CreatedAhead(afterOne) == 0;
  }

  lemma {:induction false} ThreeThenTwoTurns(specs: seq<ViewSpec>, states: seq<ViewState>)
    requires |specs| == |states| == 6 && forall i | 1 <= i < 6 :: specs[i].rule.Some?
    requires forall i | 0 <= i < 6 :: states[i] == ThreeThenTwo(i)
    ensures There(states) == 4 && TurnReads(specs, states, 4) == 28
  {
    ThreeThenTwoCounts(states);
    AllRuled(specs[1..], states[1..]);
    FirstSixTriangles();
    assert Ruled(specs, states) == 5;
  }

  // Any accepted base in that state needs 42 view reads.
  lemma {:induction false} ThreeThenTwoReads(c: Contract, base: Base)
    requires ValidContract(c) && ProgramViews(c) && Accepted(c, base) && base.named != []
    requires forall i | 0 <= i < 6 :: StateOf(c.views[i], base.named[0]) == ThreeThenTwo(i)
    ensures Reads(c, base) == 42
  {
    ReadsAre(c, base);
    ThreeThenTwoTurns(c.views, StatesOf(c.views, base.named[0]));
    assert !NothingToDo(PlanOf(c, base)) by { assert PlanOf(c, base).viewStates[1] == Configure; }
    BusyReads(c, base);
  }

  lemma {:induction false} SampleAccepted()
    ensures Accepted(SampleContract(), SampleBase())
  {
    var c, t := SampleContract(), SampleBase().named[0];
    SampleFields();
    forall i | 0 <= i < 6 ensures ViewAccepted(c.views[i], t) {
      SampleState(i);
    }
    forall k | 0 <= k < |t.views| ensures ViewExpected(c, t.views[k].name) {
      assert c.views[k].name == t.views[k].name;
    }
  }

  // Three views to configure and two to create: the planner accepts the base, and the limit blocks the run.
  lemma {:induction false} SampleIsBlocked()
    ensures ValidContract(SampleContract()) && ProgramViews(SampleContract()) && Accepted(SampleContract(), SampleBase())
    ensures Reads(SampleContract(), SampleBase()) == 42 > VIEW_READ_LIMIT
  {
    SampleIsValid();
    SampleAccepted();
    forall i | 0 <= i < 6
      ensures StateOf(SampleContract().views[i], SampleBase().named[0]) == ThreeThenTwo(i)
    {
      SampleState(i);
    }
    ThreeThenTwoReads(SampleContract(), SampleBase());
  }
}
