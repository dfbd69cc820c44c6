// What a backfill plan says of the records, and what the next plan says once its updates are applied.
module DisplayConvergence {
  import opened Wrappers
  import opened Lexicographic
  import opened JsonValues
  import opened CanonicalJson
  import opened DashboardConfig
  import opened DisplayBackfill
  import Sorting

  // Every record in scope is counted once ------------------------------------------------------------------

  lemma {:induction false} CountedOnce(records: seq<Record>, outcomes: seq<Outcome>)
    requires |records| == |outcomes|
    ensures Count(outcomes, IsTarget)
      == Count(outcomes, IsConverged) + |UpdatesOf(records, outcomes)| + |ConflictsOf(records, outcomes)|
    ensures |UpdatesOf(records, outcomes)| == Count(outcomes, IsMissing) + Count(outcomes, IsAlias)
    decreases |records|
  {
    if records != [] {
      var m := |records| - 1;
      CountedOnce(records[..m], outcomes[..m]);
    }
  }

  // A record is in scope exactly when its outcome is not Skipped, and its outcome is for its own slot.
  lemma {:induction false} OutcomeOf(k: Contract, n: Names, rd: Readers, records: seq<Record>, i: nat)
    requires RunOver(k, n, rd, records).Ok? && i < |records|
    ensures SlotOf(k, n, rd, records[i]).Ok?
    ensures var o, slot := RunOver(k, n, rd, records).value.outcomes[i], SlotOf(k, n, rd, records[i]).value;
      if slot.None? then o == Skipped else !o.Skipped? && o.slot == slot.value
    decreases |records|
  {
    var m := |records| - 1;
    if i < m { OutcomeOf(k, n, rd, records[..m], i); }
  }

  // The tallies of the platforms split the totals ------------------------------------------------------------

  function SumOver(platforms: seq<Text>, n: Names, rd: Readers, records: seq<Record>, outcomes: seq<Outcome>): Tally
    requires |records| == |outcomes|
  {
    if platforms == [] then NO_TALLY
    else Plus(TallyOf(n, rd, records, outcomes, platforms[0]), SumOver(platforms[1..], n, rd, records, outcomes))
  }

  // One more record counts for its own platform and no other.
  lemma {:induction false} SumStep(platforms: seq<Text>, n: Names, rd: Readers, records: seq<Record>, outcomes: seq<Outcome>)
    requires |records| == |outcomes| && records != []
    requires forall i, j | 0 <= i < j < |platforms| :: platforms[i] != platforms[j]
    ensures var m := |records| - 1; var before := SumOver(platforms, n, rd, records[..m], outcomes[..m]);
      SumOver(platforms, n, rd, records, outcomes) ==
        if outcomes[m].Skipped? || outcomes[m].slot.platform !in platforms then before
        else Plus(before, TallyFor(n, rd, records[m], outcomes[m]))
  {
    if platforms != [] {
      SumStep(platforms[1..], n, rd, records, outcomes);
      var o := outcomes[|records| - 1];
      assert !o.Skipped? ==> (o.slot.platform in platforms <==> o.slot.platform == platforms[0] || o.slot.platform in platforms[1..]);
      assert !o.Skipped? && o.slot.platform == platforms[0] ==> o.slot.platform !in platforms[1..];
    }
  }

  ghost predicate OnKnownPlatforms(k: Contract, outcomes: seq<Outcome>) {
    forall i | 0 <= i < |outcomes| && !outcomes[i].Skipped? :: outcomes[i].slot.platform in k.platforms
  }

  lemma {:induction false} PlatformsAreKnown(k: Contract, n: Names, rd: Readers, records: seq<Record>)
    requires RunOver(k, n, rd, records).Ok?
    ensures OnKnownPlatforms(k, RunOver(k, n, rd, records).value.outcomes)
  {
    var outcomes := RunOver(k, n, rd, records).value.outcomes;
    forall i | 0 <= i < |outcomes| && !outcomes[i].Skipped? ensures outcomes[i].slot.platform in k.platforms {
      OutcomeOf(k, n, rd, records, i);
    }
  }

  function Totals(n: Names, rd: Readers, records: seq<Record>, outcomes: seq<Outcome>): Tally
    requires |records| == |outcomes|
  {
    Tally(Count(outcomes, IsTarget), Populated(n, records, outcomes), Count(outcomes, IsConverged),
          |UpdatesOf(records, outcomes)|, Empty(n, rd, records, outcomes))
  }

  lemma {:induction false} TotalsStep(n: Names, rd: Readers, records: seq<Record>, outcomes: seq<Outcome>)
    requires |records| == |outcomes| && records != []
    ensures var m := |records| - 1; var before := Totals(n, rd, records[..m], outcomes[..m]);
      Totals(n, rd, records, outcomes) ==
        if outcomes[m].Skipped? then before else Plus(before, TallyFor(n, rd, records[m], outcomes[m]))
  {
  }

  lemma {:induction false} SumIsTotal(k: Contract, n: Names, rd: Readers, records: seq<Record>, outcomes: seq<Outcome>)
    requires ValidContract(k) && |records| == |outcomes| && OnKnownPlatforms(k, outcomes)
    ensures SumOver(k.platforms, n, rd, records, outcomes) == Totals(n, rd, records, outcomes)
    decreases |records|
  {
    if records == [] {
      SumOfNothing(k.platforms, n, rd);
    } else {
      var m := |records| - 1;
      SumIsTotal(k, n, rd, records[..m], outcomes[..m]);
      SumStep(k.platforms, n, rd, records, outcomes);
      TotalsStep(n, rd, records, outcomes);
    }
  }

  lemma {:induction false} SumOfNothing(platforms: seq<Text>, n: Names, rd: Readers)
    ensures SumOver(platforms, n, rd, [], []) == NO_TALLY
  {
    if platforms != [] {
      assert TallyOf(n, rd, [], [], platforms[0]) == NO_TALLY;
      SumOfNothing(platforms[1..], n, rd);
    }
  }

  // Main result: each platform's tally is that of its own records, and together they are the plan's totals.
  lemma {:induction false} TalliesSplitTotals(k: Contract, n: Names, rd: Readers, records: seq<Record>)
    requires ValidContract(k) && RunOver(k, n, rd, records).Ok?
    ensures var run := RunOver(k, n, rd, records).value; var plan := Summary(k, n, rd, records, run);
      && (forall p <- k.platforms :: p in plan.tallies && plan.tallies[p] == TallyOf(n, rd, records, run.outcomes, p))
      && SumOver(k.platforms, n, rd, records, run.outcomes)
         == Tally(plan.targets, plan.populated, plan.converged, |plan.updates|, plan.empty)
  {
    PlatformsAreKnown(k, n, rd, records);
    SumIsTotal(k, n, rd, records, RunOver(k, n, rd, records).value.outcomes);
  }

  // Zero conflicts: one record for each slot -----------------------------------------------------------------

  ghost predicate Placed(run: Run, slot: Slot, i: nat) { i < |run.outcomes| && Places(run.outcomes[i]) && run.outcomes[i].slot == slot }

  lemma {:induction false} MatrixIsPlaced(k: Contract, n: Names, rd: Readers, records: seq<Record>)
    requires RunOver(k, n, rd, records).Ok?
    ensures var run := RunOver(k, n, rd, records).value;
      && (forall slot :: slot in run.matrix <==> exists i :: Placed(run, slot, i))
      && (forall slot, i, j :: Placed(run, slot, i) && Placed(run, slot, j) ==> i == j)
    decreases |records|
  {
    if records != [] {
      var m := |records| - 1;
      var before, run := RunOver(k, n, rd, records[..m]).value, RunOver(k, n, rd, records).value;
      MatrixIsPlaced(k, n, rd, records[..m]);
      var o := run.outcomes[m];
      forall slot, i | i != m ensures Placed(run, slot, i) <==> Placed(before, slot, i) { }
      if Places(o) {
        assert o.slot !in before.matrix;
        assert Placed(run, o.slot, m);
      }
      forall slot ensures slot in run.matrix <==> exists i :: Placed(run, slot, i) {
        if slot in before.matrix {
          var i :| Placed(before, slot, i);
          assert Placed(run, slot, i);
        }
        if i :| Placed(run, slot, i) && i != m { assert Placed(before, slot, i); }
      }
      forall slot, i, j | Placed(run, slot, i) && Placed(run, slot, j) ensures i == j {
        assert i != m ==> Placed(before, slot, i);
        assert j != m ==> Placed(before, slot, j);
      }
    }
  }

  lemma {:induction false} NoConflictPlaces(records: seq<Record>, outcomes: seq<Outcome>, i: nat)
    requires |records| == |outcomes| && i < |records| && ConflictsOf(records, outcomes) == []
    ensures !InConflict(outcomes[i])
    decreases |records|
  {
    var m := |records| - 1;
    if i < m { NoConflictPlaces(records[..m], outcomes[..m], i); }
  }

  lemma {:induction false} NoneMissing(slots: seq<Slot>, matrix: Matrix, slot: Slot)
    requires MissingOf(slots, matrix) == [] && slot in slots
    ensures slot in matrix
  {
    if slot != slots[0] { NoneMissing(slots[1..], matrix, slot); }
  }

  lemma {:induction false} SuffixSlotsHave(k: Contract, platform: Text, window: nat, l: nat, slot: Slot)
    requires l <= |k.suffixes|
    ensures slot in SuffixSlots(k, platform, window, l) <==>
      slot.platform == platform && slot.window == window && slot.suffix in k.suffixes[l..]
    decreases |k.suffixes| - l
  {
    if l < |k.suffixes| {
      SuffixSlotsHave(k, platform, window, l + 1, slot);
      assert k.suffixes[l..] == [k.suffixes[l]] + k.suffixes[l + 1..];
    }
  }

  lemma {:induction false} WindowSlotsHave(k: Contract, platform: Text, j: nat, slot: Slot)
    requires j <= |k.windows|
    ensures slot in WindowSlots(k, platform, j) <==>
      slot.platform == platform && slot.window in k.windows[j..] && slot.suffix in k.suffixes
    decreases |k.windows| - j
  {
    if j < |k.windows| {
      WindowSlotsHave(k, platform, j + 1, slot);
      SuffixSlotsHave(k, platform, k.windows[j], 0, slot);
      assert k.windows[j..] == [k.windows[j]] + k.windows[j + 1..] && k.suffixes[0..] == k.suffixes;
    }
  }

  lemma {:induction false} SlotsHave(k: Contract, i: nat, slot: Slot)
    requires i <= |k.platforms|
    ensures slot in SlotsFrom(k, i) <==>
      slot.platform in k.platforms[i..] && slot.window in k.windows && slot.suffix in k.suffixes
    decreases |k.platforms| - i
  {
    if i < |k.platforms| {
      SlotsHave(k, i + 1, slot);
      WindowSlotsHave(k, k.platforms[i], 0, slot);
      assert k.platforms[i..] == [k.platforms[i]] + k.platforms[i + 1..] && k.windows[0..] == k.windows;
    }
  }

  ghost predicate Wanted(k: Contract, slot: Slot) {
    slot.platform in k.platforms && slot.window in k.windows && slot.suffix in k.suffixes
  }

  // The record at i is in scope, in that slot.
  ghost predicate Fills(k: Contract, n: Names, rd: Readers, records: seq<Record>, slot: Slot, i: nat) {
    i < |records| && SlotOf(k, n, rd, records[i]) == Ok(Some(slot))
  }

  lemma {:induction false} FillsIsPlaced(k: Contract, n: Names, rd: Readers, records: seq<Record>, slot: Slot, i: nat)
    requires RunOver(k, n, rd, records).Ok? && ConflictsOf(records, RunOver(k, n, rd, records).value.outcomes) == []
    ensures Fills(k, n, rd, records, slot, i) <==> Placed(RunOver(k, n, rd, records).value, slot, i)
  {
    if i < |records| {
      OutcomeOf(k, n, rd, records, i);
      NoConflictPlaces(records, RunOver(k, n, rd, records).value.outcomes, i);
    }
  }

  lemma {:induction false} EverySlotFilled(k: Contract, n: Names, rd: Readers, records: seq<Record>, slot: Slot)
    requires RunOver(k, n, rd, records).Ok?
    requires Summary(k, n, rd, records, RunOver(k, n, rd, records).value).conflicts == []
    ensures Wanted(k, slot) <==> exists i :: Fills(k, n, rd, records, slot, i)
  {
    var run := RunOver(k, n, rd, records).value;
    SlotsHave(k, 0, slot);
    assert k.platforms[0..] == k.platforms;
    if Wanted(k, slot) {
      MatrixIsPlaced(k, n, rd, records);
      NoneMissing(AllSlots(k), run.matrix, slot);
      var i :| Placed(run, slot, i);
      FillsIsPlaced(k, n, rd, records, slot, i);
    }
  }

  // Zero conflicts mean that the records in scope and the slots of platform, window and metric correspond one
  // to one.
  lemma {:induction false} NoConflictsIsBijection(k: Contract, n: Names, rd: Readers, records: seq<Record>)
    requires RunOver(k, n, rd, records).Ok?
    requires Summary(k, n, rd, records, RunOver(k, n, rd, records).value).conflicts == []
    ensures forall slot :: Wanted(k, slot) <==> exists i :: Fills(k, n, rd, records, slot, i)
    ensures forall slot, i, j :: Fills(k, n, rd, records, slot, i) && Fills(k, n, rd, records, slot, j) ==> i == j
  {
    MatrixIsPlaced(k, n, rd, records);
    forall slot ensures Wanted(k, slot) <==> exists i :: Fills(k, n, rd, records, slot, i) {
      EverySlotFilled(k, n, rd, records, slot);
    }
    forall slot, i, j | Fills(k, n, rd, records, slot, i) && Fills(k, n, rd, records, slot, j) ensures i == j {
      FillsIsPlaced(k, n, rd, records, slot, i);
      FillsIsPlaced(k, n, rd, records, slot, j);
    }
  }

  // What becomes of every record -------------------------------------------------------------------------------

  // The preserved window of the record is the one of its slot.
  predicate WindowSettled(k: Contract, n: Names, r: Record, slot: Slot) {
    ReadSelect(Cell(r, n.preservedWindow)) == Ok(Some(k.windowText(slot.window)))
  }

  ghost predicate Claims(k: Contract, n: Names, rd: Readers, records: seq<Record>, slot: Slot, i: nat) {
    Fills(k, n, rd, records, slot, i) && WindowSettled(k, n, records[i], slot)
  }

  ghost predicate FirstClaim(k: Contract, n: Names, rd: Readers, records: seq<Record>, slot: Slot, i: nat) {
    Claims(k, n, rd, records, slot, i) && forall j | 0 <= j < i :: !Claims(k, n, rd, records, slot, j)
  }

  lemma {:induction false} PrefixRuns(k: Contract, n: Names, rd: Readers, records: seq<Record>, i: nat)
    requires RunOver(k, n, rd, records).Ok? && i <= |records|
    ensures RunOver(k, n, rd, records[..i]).Ok?
    ensures forall j | 0 <= j < i :: RunOver(k, n, rd, records[..i]).value.outcomes[j] == RunOver(k, n, rd, records).value.outcomes[j]
    decreases |records|
  {
    var m := |records| - 1;
    if i == |records| {
      assert records[..i] == records;
    } else {
      assert records[..m][..i] == records[..i];
      PrefixRuns(k, n, rd, records[..m], i);
    }
  }

  // One record takes its slot exactly when it claims it and it is free.
  lemma {:induction false} PlaceStep(k: Contract, n: Names, rd: Readers, matrix: Matrix, r: Record, slot: Slot)
    requires Classify(k, n, rd, matrix, r).Ok?
    ensures var after := Place(matrix, r, Classify(k, n, rd, matrix, r).value);
      && (slot in after <==> slot in matrix || (SlotOf(k, n, rd, r) == Ok(Some(slot)) && WindowSettled(k, n, r, slot)))
      && (slot in after ==> after[slot] == if slot in matrix then matrix[slot] else r.id)
  {
  }

  // A slot is taken by the first record that claims it.
  ghost predicate Unclaimed(k: Contract, n: Names, rd: Readers, records: seq<Record>, slot: Slot) {
    forall i: nat :: !Claims(k, n, rd, records, slot, i)
  }

  ghost predicate Taken(k: Contract, n: Names, rd: Readers, records: seq<Record>, matrix: Matrix, slot: Slot) {
    if slot in matrix then exists i: nat :: FirstClaim(k, n, rd, records, slot, i) && matrix[slot] == records[i].id
    else Unclaimed(k, n, rd, records, slot)
  }

  lemma {:induction false} SameClaims(k: Contract, n: Names, rd: Readers, records: seq<Record>, m: nat, slot: Slot, i: nat)
    requires i < m <= |records|
    ensures Claims(k, n, rd, records[..m], slot, i) <==> Claims(k, n, rd, records, slot, i)
  {
  }

  lemma {:induction false} TakenStep(k: Contract, n: Names, rd: Readers, records: seq<Record>, matrix: Matrix, after: Matrix, slot: Slot)
    requires records != [] && Taken(k, n, rd, records[..|records| - 1], matrix, slot)
    requires slot in after <==> slot in matrix || Claims(k, n, rd, records, slot, |records| - 1)
    requires slot in after ==> after[slot] == if slot in matrix then matrix[slot] else records[|records| - 1].id
    ensures Taken(k, n, rd, records, after, slot)
  {
    var m := |records| - 1;
    if slot in matrix {
      var i: nat :| FirstClaim(k, n, rd, records[..m], slot, i) && matrix[slot] == records[..m][i].id;
      FirstStays(k, n, rd, records, slot, i);
    } else {
      NoneBefore(k, n, rd, records, slot);
      if Claims(k, n, rd, records, slot, m) { assert FirstClaim(k, n, rd, records, slot, m); }
    }
  }

  lemma {:induction false} FirstStays(k: Contract, n: Names, rd: Readers, records: seq<Record>, slot: Slot, i: nat)
    requires records != [] && FirstClaim(k, n, rd, records[..|records| - 1], slot, i)
    ensures FirstClaim(k, n, rd, records, slot, i) && records[..|records| - 1][i] == records[i]
  {
    forall j: nat | j <= i ensures Claims(k, n, rd, records[..|records| - 1], slot, j) <==> Claims(k, n, rd, records, slot, j) {
      SameClaims(k, n, rd, records, |records| - 1, slot, j);
    }
  }

  lemma {:induction false} NoneBefore(k: Contract, n: Names, rd: Readers, records: seq<Record>, slot: Slot)
    requires records != [] && Unclaimed(k, n, rd, records[..|records| - 1], slot)
    ensures forall i: nat | i < |records| - 1 :: !Claims(k, n, rd, records, slot, i)
    ensures forall i: nat | i >= |records| :: !Claims(k, n, rd, records, slot, i)
  {
    forall i: nat | i < |records| - 1 ensures !Claims(k, n, rd, records, slot, i) {
      SameClaims(k, n, rd, records, |records| - 1, slot, i);
    }
  }

  lemma {:induction false} TakenByFirst(k: Contract, n: Names, rd: Readers, records: seq<Record>, slot: Slot)
    requires RunOver(k, n, rd, records).Ok?
    ensures Taken(k, n, rd, records, RunOver(k, n, rd, records).value.matrix, slot)
    decreases |records|
  {
    if records != [] {
      var m := |records| - 1;
      var before := RunOver(k, n, rd, records[..m]).value.matrix;
      TakenByFirst(k, n, rd, records[..m], slot);
      PlaceStep(k, n, rd, before, records[m], slot);
      TakenStep(k, n, rd, records, before, RunOver(k, n, rd, records).value.matrix, slot);
    }
  }

  lemma {:induction false} OutcomeIsClassified(k: Contract, n: Names, rd: Readers, records: seq<Record>, i: nat)
    requires RunOver(k, n, rd, records).Ok? && i < |records|
    ensures RunOver(k, n, rd, records[..i]).Ok?
    ensures Classify(k, n, rd, RunOver(k, n, rd, records[..i]).value.matrix, records[i])
      == Ok(RunOver(k, n, rd, records).value.outcomes[i])
  {
    PrefixRuns(k, n, rd, records, i);
    PrefixRuns(k, n, rd, records, i + 1);
    assert records[..i + 1][..i] == records[..i];
  }

  // A record that claims its slot first converges, is updated or conflicts by what its display shows.
  ghost predicate Shown(k: Contract, n: Names, r: Record, slot: Slot, o: Outcome) {
    var display := ReadText(Cell(r, n.display));
    var wanted := k.labelOf(slot.suffix);
    && (o == Converged(slot) <==> display == Some(wanted))
    && (o == Pending(slot, wanted, display) <==>
          display == None || (display != Some(wanted) && k.alias(slot.platform + [COLON] + slot.suffix, display.value)))
    && (o != Converged(slot) && o != Pending(slot, wanted, display) ==>
          display.Some? && o == LabelConflict(slot, display.value, wanted))
  }

  // What becomes of a record whose slot is free or taken.
  lemma {:induction false} Judged(k: Contract, n: Names, rd: Readers, matrix: Matrix, r: Record, slot: Slot)
    requires Classify(k, n, rd, matrix, r).Ok? && SlotOf(k, n, rd, r) == Ok(Some(slot))
    ensures var o := Classify(k, n, rd, matrix, r).value;
      && (!WindowSettled(k, n, r, slot) ==>
            ReadSelect(Cell(r, n.preservedWindow)).Ok? && o == WindowConflict(slot, ReadSelect(Cell(r, n.preservedWindow)).value))
      && (WindowSettled(k, n, r, slot) && slot !in matrix ==> Shown(k, n, r, slot, o))
      && (WindowSettled(k, n, r, slot) && slot in matrix ==> o == DuplicateConflict(slot, matrix[slot]))
  {
  }

  ghost predicate ClaimedBefore(k: Contract, n: Names, rd: Readers, records: seq<Record>, slot: Slot, i: nat, id: Text) {
    exists j: nat :: j < i && FirstClaim(k, n, rd, records, slot, j) && records[j].id == id
  }

  lemma {:induction false} TakenBefore(k: Contract, n: Names, rd: Readers, records: seq<Record>, slot: Slot, i: nat, matrix: Matrix)
    requires i < |records| && Taken(k, n, rd, records[..i], matrix, slot) && Claims(k, n, rd, records, slot, i)
    ensures slot !in matrix <==> FirstClaim(k, n, rd, records, slot, i)
    ensures slot in matrix ==> ClaimedBefore(k, n, rd, records, slot, i, matrix[slot])
  {
    forall j: nat | j < i ensures Claims(k, n, rd, records[..i], slot, j) <==> Claims(k, n, rd, records, slot, j) {
      SameClaims(k, n, rd, records, i, slot, j);
    }
    if slot in matrix {
      var j: nat :| FirstClaim(k, n, rd, records[..i], slot, j) && matrix[slot] == records[..i][j].id;
      assert FirstClaim(k, n, rd, records, slot, j);
    }
  }

  // Main result: what becomes of every record in scope.
  lemma {:induction false} EveryRecordJudged(k: Contract, n: Names, rd: Readers, records: seq<Record>, slot: Slot, i: nat)
    requires RunOver(k, n, rd, records).Ok? && Fills(k, n, rd, records, slot, i)
    ensures var o := RunOver(k, n, rd, records).value.outcomes[i];
      && (!WindowSettled(k, n, records[i], slot) ==>
            ReadSelect(Cell(records[i], n.preservedWindow)).Ok?
            && o == WindowConflict(slot, ReadSelect(Cell(records[i], n.preservedWindow)).value))
      && (FirstClaim(k, n, rd, records, slot, i) ==> Shown(k, n, records[i], slot, o))
      && (Claims(k, n, rd, records, slot, i) && !FirstClaim(k, n, rd, records, slot, i) ==>
            o.DuplicateConflict? && o.slot == slot && ClaimedBefore(k, n, rd, records, slot, i, o.other))
  {
    OutcomeIsClassified(k, n, rd, records, i);
    TakenByFirst(k, n, rd, records[..i], slot);
    var matrix := RunOver(k, n, rd, records[..i]).value.matrix;
    Judged(k, n, rd, matrix, records[i], slot);
    if Claims(k, n, rd, records, slot, i) { TakenBefore(k, n, rd, records, slot, i, matrix); }
  }

  // The lists hold exactly what the outcomes ask for.
  lemma {:induction false} UpdatesAre(records: seq<Record>, outcomes: seq<Outcome>, u: Update)
    requires |records| == |outcomes|
    ensures u in UpdatesOf(records, outcomes) <==>
      exists i | 0 <= i < |records| :: outcomes[i] == Pending(u.slot, u.wanted, u.previous) && records[i].id == u.id
    decreases |records|
  {
    if records != [] {
      var m := |records| - 1;
      UpdatesAre(records[..m], outcomes[..m], u);
      if i :| 0 <= i < m && outcomes[i] == Pending(u.slot, u.wanted, u.previous) && records[i].id == u.id {
        assert outcomes[..m][i] == Pending(u.slot, u.wanted, u.previous) && records[..m][i].id == u.id;
      }
    }
  }

  lemma {:induction false} ConflictsAre(records: seq<Record>, outcomes: seq<Outcome>, x: Conflict)
    requires |records| == |outcomes|
    ensures x in ConflictsOf(records, outcomes) <==>
      exists i | 0 <= i < |records| :: InConflict(outcomes[i]) && x == RecordConflict(records[i].id, outcomes[i])
    decreases |records|
  {
    if records != [] {
      var m := |records| - 1;
      ConflictsAre(records[..m], outcomes[..m], x);
      if i :| 0 <= i < m && InConflict(outcomes[i]) && x == RecordConflict(records[i].id, outcomes[i]) {
        assert InConflict(outcomes[..m][i]) && x == RecordConflict(records[..m][i].id, outcomes[..m][i]);
      }
    }
  }

  lemma {:induction false} MissingAre(slots: seq<Slot>, matrix: Matrix, x: Conflict)
    ensures x in MissingOf(slots, matrix) <==> x.MissingSlot? && x.slot in slots && x.slot !in matrix
  {
    if slots != [] {
      MissingAre(slots[1..], matrix, x);
      assert x.MissingSlot? ==> (x.slot in slots <==> x.slot == slots[0] || x.slot in slots[1..]);
    }
  }

  // Main result: an update only ever fills an empty display or corrects a reviewed alias, and it writes the
  // label of its own slot.
  lemma {:induction false} UpdatesAreReviewed(k: Contract, n: Names, rd: Readers, records: seq<Record>, u: Update)
    requires RunOver(k, n, rd, records).Ok? && u in Summary(k, n, rd, records, RunOver(k, n, rd, records).value).updates
    ensures u.wanted == k.labelOf(u.slot.suffix) && u.previous != Some(u.wanted)
    ensures u.previous == None || k.alias(u.slot.platform + [COLON] + u.slot.suffix, u.previous.value)
    ensures exists i: nat :: FirstClaim(k, n, rd, records, u.slot, i) && records[i].id == u.id
              && ReadText(Cell(records[i], n.display)) == u.previous
  {
    var outcomes := RunOver(k, n, rd, records).value.outcomes;
    UpdatesAre(records, outcomes, u);
    var i: nat :| i < |records| && outcomes[i] == Pending(u.slot, u.wanted, u.previous) && records[i].id == u.id;
    OutcomeOf(k, n, rd, records, i);
    assert Fills(k, n, rd, records, u.slot, i);
    EveryRecordJudged(k, n, rd, records, u.slot, i);
    assert FirstClaim(k, n, rd, records, u.slot, i);
  }

  // Main result: a missing slot is one that no record claims.
  lemma {:induction false} MissingAreUnclaimed(k: Contract, n: Names, rd: Readers, records: seq<Record>, slot: Slot)
    requires RunOver(k, n, rd, records).Ok?
    ensures MissingSlot(slot) in Summary(k, n, rd, records, RunOver(k, n, rd, records).value).conflicts <==>
      Wanted(k, slot) && forall i: nat :: !Claims(k, n, rd, records, slot, i)
  {
    var run := RunOver(k, n, rd, records).value;
    ConflictsAre(records, run.outcomes, MissingSlot(slot));
    MissingAre(AllSlots(k), run.matrix, MissingSlot(slot));
    SlotsHave(k, 0, slot);
    assert k.platforms[0..] == k.platforms;
    TakenByFirst(k, n, rd, records, slot);
  }

  // Applying the updates ------------------------------------------------------------------------------------------

  function UpdateFor(updates: seq<Update>, id: Text): Option<Update> {
    if updates == [] then None else if updates[0].id == id then Some(updates[0]) else UpdateFor(updates[1..], id)
  }

  function Apply(n: Names, updates: seq<Update>, r: Record): Record {
    var u := UpdateFor(updates, r.id);
    if u.None? then r else r.(fields := r.fields[n.display := Str(u.value.wanted)])
  }

  function ApplyAll(n: Names, updates: seq<Update>, records: seq<Record>): (s: seq<Record>)
    ensures |s| == |records| && forall i | 0 <= i < |s| :: s[i] == Apply(n, updates, records[i])
  {
    if records == [] then [] else [Apply(n, updates, records[0])] + ApplyAll(n, updates, records[1..])
  }

  // Sorting goes by the ids, which no update changes.
  lemma {:induction false} InsertCommutes(n: Names, updates: seq<Update>, r: Record, records: seq<Record>, before: Order)
    ensures Sorting.Insert(Apply(n, updates, r), ApplyAll(n, updates, records), ById(before))
      == ApplyAll(n, updates, Sorting.Insert(r, records, ById(before)))
  {
    if records != [] && !before(r.id, records[0].id) {
      InsertCommutes(n, updates, r, records[1..], before);
      assert ApplyAll(n, updates, records)[1..] == ApplyAll(n, updates, records[1..]);
      assert Sorting.Insert(r, records, ById(before))[1..] == Sorting.Insert(r, records[1..], ById(before));
    } else {
      assert ([r] + records)[1..] == records;
    }
  }

  lemma {:induction false} SortCommutes(n: Names, updates: seq<Update>, records: seq<Record>, before: Order)
    ensures SortRecords(ApplyAll(n, updates, records), before) == ApplyAll(n, updates, SortRecords(records, before))
  {
    if records != [] {
      SortCommutes(n, updates, records[1..], before);
      assert ApplyAll(n, updates, records)[1..] == ApplyAll(n, updates, records[1..]);
      InsertCommutes(n, updates, records[0], SortRecords(records[1..], before), before);
    }
  }

  ghost predicate DistinctIds(records: seq<Record>) { forall i, j | 0 <= i < j < |records| :: records[i].id != records[j].id }

  function IdsOf(records: seq<Record>): (ids: seq<Text>)
    ensures |ids| == |records| && forall i | 0 <= i < |ids| :: ids[i] == records[i].id
  {
    if records == [] then [] else [records[0].id] + IdsOf(records[1..])
  }

  lemma {:induction false} InsertIds(r: Record, records: seq<Record>, before: Order)
    ensures IdsOf(Sorting.Insert(r, records, ById(before))) == Sorting.Insert(r.id, IdsOf(records), before)
  {
    if records != [] && !before(r.id, records[0].id) { InsertIds(r, records[1..], before); }
  }

  lemma {:induction false} SortIds(records: seq<Record>, before: Order)
    ensures IdsOf(SortRecords(records, before)) == Sorting.Sort(IdsOf(records), before)
  {
    if records != [] {
      SortIds(records[1..], before);
      InsertIds(records[0], SortRecords(records[1..], before), before);
    }
  }

  lemma {:induction false} SortKeepsDistinct(records: seq<Record>, before: Order)
    requires DistinctIds(records)
    ensures DistinctIds(SortRecords(records, before))
  {
    SortIds(records, before);
    Sorting.SortDistinct(IdsOf(records), before);
    var sorted := SortRecords(records, before);
    forall i, j | 0 <= i < j < |sorted| ensures sorted[i].id != sorted[j].id {
      assert IdsOf(sorted)[i] != IdsOf(sorted)[j];
    }
  }

  // The update for a record is the one its own outcome asked for -------------------------------------------------

  lemma {:induction false} UpdateForLast(updates: seq<Update>, u: Update, id: Text)
    ensures UpdateFor(updates + [u], id) ==
      if UpdateFor(updates, id).Some? then UpdateFor(updates, id) else if u.id == id then Some(u) else None
  {
    if updates == [] {
      assert [] + [u] == [u] && [u][1..] == [];
    } else {
      assert (updates + [u])[0] == updates[0] && (updates + [u])[1..] == updates[1..] + [u];
      if updates[0].id != id { UpdateForLast(updates[1..], u, id); }
    }
  }

  lemma {:induction false} NoUpdate(records: seq<Record>, outcomes: seq<Outcome>, id: Text)
    requires |records| == |outcomes| && forall i | 0 <= i < |records| :: records[i].id != id
    ensures UpdateFor(UpdatesOf(records, outcomes), id).None?
    decreases |records|
  {
    if records != [] {
      var m := |records| - 1;
      NoUpdate(records[..m], outcomes[..m], id);
      var before := UpdatesOf(records[..m], outcomes[..m]);
      if outcomes[m].Pending? {
        UpdateForLast(before, Update(records[m].id, outcomes[m].wanted, outcomes[m].slot, outcomes[m].previous), id);
      } else {
        assert before + [] == before;
      }
    }
  }

  lemma {:induction false} OwnUpdate(records: seq<Record>, outcomes: seq<Outcome>, i: nat)
    requires |records| == |outcomes| && i < |records| && DistinctIds(records)
    ensures var u := UpdateFor(UpdatesOf(records, outcomes), records[i].id);
      if outcomes[i].Pending? then u.Some? && u.value.wanted == outcomes[i].wanted else u.None?
    decreases |records|
  {
    var m := |records| - 1;
    var before := UpdatesOf(records[..m], outcomes[..m]);
    var last := if outcomes[m].Pending?
      then [Update(records[m].id, outcomes[m].wanted, outcomes[m].slot, outcomes[m].previous)] else [];
    if i < m {
      OwnUpdate(records[..m], outcomes[..m], i);
    } else {
      NoUpdate(records[..m], outcomes[..m], records[m].id);
    }
    if last == [] {
      assert before + last == before;
    } else {
      UpdateForLast(before, last[0], records[i].id);
    }
  }

  // Planning again -----------------------------------------------------------------------------------------------

  // A record that was to be updated is converged now; nothing else changed.
  function Settled(o: Outcome): Outcome { if o.Pending? then Converged(o.slot) else o }

  function SettledAll(outcomes: seq<Outcome>): (s: seq<Outcome>)
    ensures |s| == |outcomes|
    decreases |outcomes|
  {
    if outcomes == [] then [] else SettledAll(outcomes[..|outcomes| - 1]) + [Settled(outcomes[|outcomes| - 1])]
  }

  lemma {:induction false} OtherCells(n: Names, updates: seq<Update>, r: Record, name: Text)
    requires name != n.display
    ensures Cell(Apply(n, updates, r), name) == Cell(r, name)
  {
  }

  lemma {:induction false} SameSlot(k: Contract, n: Names, rd: Readers, updates: seq<Update>, r: Record)
    requires ApartNames(n)
    ensures SlotOf(k, n, rd, Apply(n, updates, r)) == SlotOf(k, n, rd, r)
  {
    OtherCells(n, updates, r, n.reportType);
    OtherCells(n, updates, r, n.platform);
    OtherCells(n, updates, r, n.capability);
    OtherCells(n, updates, r, n.periodKind);
    OtherCells(n, updates, r, n.customerProfile);
    OtherCells(n, updates, r, n.customerKey);
    OtherCells(n, updates, r, n.metricKey);
    OtherCells(n, updates, r, n.numberWindow);
  }

  // The label that was written reads back as itself.
  lemma {:induction false} WrittenReadsBack(k: Contract, n: Names, updates: seq<Update>, r: Record, slot: Slot)
    requires ValidContract(k) && slot.suffix in k.suffixes
    requires UpdateFor(updates, r.id).Some? && UpdateFor(updates, r.id).value.wanted == k.labelOf(slot.suffix)
    ensures Display(n, Apply(n, updates, r)) == Some(k.labelOf(slot.suffix))
  {
  }

  // The updates hold one for this record exactly when its outcome asked for one.
  ghost predicate Matches(updates: seq<Update>, r: Record, o: Outcome) {
    var u := UpdateFor(updates, r.id);
    if o.Pending? then u.Some? && u.value.wanted == o.wanted else u.None?
  }

  lemma {:induction false} ClassifyAgain(k: Contract, n: Names, rd: Readers, matrix: Matrix, updates: seq<Update>, r: Record)
    requires ValidContract(k) && ApartNames(n) && Classify(k, n, rd, matrix, r).Ok?
    requires Matches(updates, r, Classify(k, n, rd, matrix, r).value)
    ensures Classify(k, n, rd, matrix, Apply(n, updates, r)) == Ok(Settled(Classify(k, n, rd, matrix, r).value))
  {
    SameSlot(k, n, rd, updates, r);
    OtherCells(n, updates, r, n.preservedWindow);
    OtherCells(n, updates, r, n.currentValue);
    var o := Classify(k, n, rd, matrix, r).value;
    if o.Pending? { WrittenReadsBack(k, n, updates, r, o.slot); }
  }

  lemma {:induction false} ApplyAllLast(n: Names, updates: seq<Update>, records: seq<Record>, r: Record)
    ensures ApplyAll(n, updates, records + [r]) == ApplyAll(n, updates, records) + [Apply(n, updates, r)]
  {
  }

  lemma {:induction false} SettledLast(outcomes: seq<Outcome>, o: Outcome)
    ensures SettledAll(outcomes + [o]) == SettledAll(outcomes) + [Settled(o)]
  {
    assert (outcomes + [o])[..|outcomes|] == outcomes;
  }

  lemma {:induction false} RunAgainStep(k: Contract, n: Names, rd: Readers, records: seq<Record>, r: Record, before: Run, o: Outcome,
                                        updates: seq<Update>)
    requires ValidContract(k) && ApartNames(n) && Classify(k, n, rd, before.matrix, r) == Ok(o) && Matches(updates, r, o)
    requires RunOver(k, n, rd, ApplyAll(n, updates, records)) == Ok(Run(before.matrix, SettledAll(before.outcomes)))
    ensures RunOver(k, n, rd, ApplyAll(n, updates, records + [r]))
      == Ok(Run(Place(before.matrix, r, o), SettledAll(before.outcomes + [o])))
  {
    ClassifyAgain(k, n, rd, before.matrix, updates, r);
    RunStep(k, n, rd, ApplyAll(n, updates, records), Apply(n, updates, r), Run(before.matrix, SettledAll(before.outcomes)));
    ApplyAllLast(n, updates, records, r);
    SettledLast(before.outcomes, o);
  }

  lemma {:induction false} RunSplits(k: Contract, n: Names, rd: Readers, records: seq<Record>, run: Run) returns (before: Run, o: Outcome)
    requires records != [] && RunOver(k, n, rd, records) == Ok(run)
    ensures RunOver(k, n, rd, records[..|records| - 1]) == Ok(before)
    ensures Classify(k, n, rd, before.matrix, records[|records| - 1]) == Ok(o)
    ensures run == Run(Place(before.matrix, records[|records| - 1], o), before.outcomes + [o])
  {
    before := RunOver(k, n, rd, records[..|records| - 1]).value;
    o := Classify(k, n, rd, before.matrix, records[|records| - 1]).value;
  }

  ghost predicate AllMatch(updates: seq<Update>, records: seq<Record>, outcomes: seq<Outcome>) {
    |records| == |outcomes| && forall i | 0 <= i < |records| :: Matches(updates, records[i], outcomes[i])
  }

  lemma {:induction false} MatchLast(updates: seq<Update>, records: seq<Record>, outcomes: seq<Outcome>, o: Outcome)
    requires records != [] && AllMatch(updates, records, outcomes + [o])
    ensures AllMatch(updates, records[..|records| - 1], outcomes) && Matches(updates, records[|records| - 1], o)
  {
    forall i | 0 <= i < |outcomes| ensures Matches(updates, records[..|records| - 1][i], outcomes[i]) {
      assert (outcomes + [o])[i] == outcomes[i];
    }
    assert (outcomes + [o])[|outcomes|] == o;
  }

  // Planning the records again, with the updates applied, settles each outcome.
  ghost predicate RunsAgain(k: Contract, n: Names, rd: Readers, records: seq<Record>, updates: seq<Update>, run: Run) {
    RunOver(k, n, rd, ApplyAll(n, updates, records)) == Ok(Run(run.matrix, SettledAll(run.outcomes)))
  }

  lemma {:induction false} RunAgainLast(k: Contract, n: Names, rd: Readers, records: seq<Record>, updates: seq<Update>, before: Run, o: Outcome)
    requires ValidContract(k) && ApartNames(n) && records != [] && RunsAgain(k, n, rd, records[..|records| - 1], updates, before)
    requires Classify(k, n, rd, before.matrix, records[|records| - 1]) == Ok(o) && Matches(updates, records[|records| - 1], o)
    ensures RunsAgain(k, n, rd, records, updates, Run(Place(before.matrix, records[|records| - 1], o), before.outcomes + [o]))
  {
    var m := |records| - 1;
    assert records == records[..m] + [records[m]];
    RunAgainStep(k, n, rd, records[..m], records[m], before, o, updates);
  }

  lemma {:induction false} RunAgain(k: Contract, n: Names, rd: Readers, records: seq<Record>, updates: seq<Update>, run: Run)
    requires ValidContract(k) && ApartNames(n) && RunOver(k, n, rd, records) == Ok(run)
    requires AllMatch(updates, records, run.outcomes)
    ensures RunsAgain(k, n, rd, records, updates, run)
    decreases |records|
  {
    if records != [] {
      var before, o := RunSplits(k, n, rd, records, run);
      MatchLast(updates, records, before.outcomes, o);
      RunAgain(k, n, rd, records[..|records| - 1], updates, before);
      RunAgainLast(k, n, rd, records, updates, before, o);
    }
  }

  lemma {:induction false} SettledCounts(n: Names, updates: seq<Update>, records: seq<Record>, outcomes: seq<Outcome>)
    requires |records| == |outcomes|
    ensures var again := ApplyAll(n, updates, records);
      && UpdatesOf(again, SettledAll(outcomes)) == []
      && Count(SettledAll(outcomes), IsConverged) == Count(outcomes, IsConverged) + |UpdatesOf(records, outcomes)|
      && Count(SettledAll(outcomes), IsTarget) == Count(outcomes, IsTarget)
    decreases |records|
  {
    if records != [] {
      var m := |records| - 1;
      SettledCounts(n, updates, records[..m], outcomes[..m]);
      assert ApplyAll(n, updates, records)[..m] == ApplyAll(n, updates, records[..m]);
      assert SettledAll(outcomes)[..m] == SettledAll(outcomes[..m]);
    }
  }

  lemma {:induction false} SettledConflicts(n: Names, updates: seq<Update>, records: seq<Record>, outcomes: seq<Outcome>)
    requires |records| == |outcomes|
    ensures ConflictsOf(ApplyAll(n, updates, records), SettledAll(outcomes)) == ConflictsOf(records, outcomes)
    decreases |records|
  {
    if records != [] {
      var m := |records| - 1;
      SettledConflicts(n, updates, records[..m], outcomes[..m]);
      assert ApplyAll(n, updates, records)[..m] == ApplyAll(n, updates, records[..m]);
      assert SettledAll(outcomes)[..m] == SettledAll(outcomes[..m]);
    }
  }

  // Main result: once the updates are applied, the next plan has no updates, the same conflicts, and every
  // updated record converged.
  lemma {:induction false} PlanAgain(k: Contract, n: Names, rd: Readers, records: seq<Record>, before: Order)
    requires ValidContract(k) && ApartNames(n) && DistinctIds(records)
    requires RunOver(k, n, rd, SortRecords(records, before)).Ok?
    ensures var sorted := SortRecords(records, before);
      var plan := Summary(k, n, rd, sorted, RunOver(k, n, rd, sorted).value);
      var again := SortRecords(ApplyAll(n, plan.updates, records), before);
      && RunOver(k, n, rd, again).Ok?
      && var next := Summary(k, n, rd, again, RunOver(k, n, rd, again).value);
        && next.updates == [] && next.conflicts == plan.conflicts
        && next.targets == plan.targets && next.converged == plan.converged + |plan.updates|
  {
    var sorted := SortRecords(records, before);
    var run := RunOver(k, n, rd, sorted).value;
    var updates := UpdatesOf(sorted, run.outcomes);
    SortCommutes(n, updates, records, before);
    SortKeepsDistinct(records, before);
    forall i | 0 <= i < |sorted|
      ensures Matches(updates, sorted[i], run.outcomes[i])
    {
      OwnUpdate(sorted, run.outcomes, i);
    }
    RunAgain(k, n, rd, sorted, updates, run);
    SettledCounts(n, updates, sorted, run.outcomes);
    SettledConflicts(n, updates, sorted, run.outcomes);
  }
}
