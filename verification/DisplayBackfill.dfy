// Planning the backfill of the display select field: every record of the organic dashboard scope takes its
// slot of platform, window and metric, and is converged, to be updated, or in conflict.
module DisplayBackfill {
  import opened Wrappers
  import opened Lexicographic
  import opened JsonValues
  import opened CanonicalJson
  import opened DashboardConfig
  import Sorting

  datatype Error = RecordIdMissing | CellInvalid

  datatype Record = Record(id: Text, fields: map<Text, Value>)

  datatype Names = Names(metricKey: Text, numberWindow: Text, preservedWindow: Text, display: Text, currentValue: Text,
                         reportType: Text, platform: Text, capability: Text, periodKind: Text, customerProfile: Text,
                         customerKey: Text)

  datatype Slot = Slot(platform: Text, window: nat, suffix: Text)

  // The reviewed contract, with what counts as an alias of a label.
  datatype Contract = Contract(platforms: seq<Text>, windows: seq<nat>, suffixes: seq<Text>, labelOf: Text -> Text,
                               alias: (Text, Text) -> bool, windowText: nat -> Text)

  // How JavaScript reads a cell as a number is a parameter; a number cell says only whether it is empty.
  datatype Readers = Readers(window: Value -> Result<Option<nat>, Error>, isEmpty: Value -> Result<bool, Error>)

  ghost predicate ValidContract(k: Contract) {
    && (forall i, j | 0 <= i < j < |k.platforms| :: k.platforms[i] != k.platforms[j])
    && (forall i, j | 0 <= i < j < |k.windows| :: k.windows[i] != k.windows[j])
    && (forall i, j | 0 <= i < j < |k.suffixes| :: k.suffixes[i] != k.suffixes[j])
    && (forall s <- k.suffixes :: k.labelOf(s) != [] && TrimText(k.labelOf(s)) == k.labelOf(s))
  }

  // The display field is none of the fields that decide where a record belongs.
  ghost predicate ApartNames(n: Names) {
    n.display !in [n.metricKey, n.numberWindow, n.preservedWindow, n.currentValue, n.reportType, n.platform, n.capability,
                   n.periodKind, n.customerProfile, n.customerKey]
  }

  const REPORT_TYPE := Ascii("dashboard_performance_report")
  const CAPABILITY := Ascii("organic")
  const PERIOD_KIND := Ascii("rolling_days")
  const CUSTOMER_PROFILE := Ascii("integration_workspace")
  const CUSTOMER_KEY := Ascii("chemistry_k")

  // Reading cells -------------------------------------------------------------------------------------------

  function Cell(r: Record, name: Text): Value { if name in r.fields then r.fields[name] else Undefined }

  function Named(ms: seq<Entry<Value>>): Value {
    if !Nullish(Get(ms, Ascii("text"))) then Get(ms, Ascii("text"))
    else if !Nullish(Get(ms, Ascii("name"))) then Get(ms, Ascii("name"))
    else if !Nullish(Get(ms, Ascii("value"))) then Get(ms, Ascii("value"))
    else Null
  }

  function Plain(t: Text): Option<Text> { if TrimText(t) == [] then None else Some(TrimText(t)) }

  function ReadText(v: Value): Option<Text>
    decreases v, 0
  {
    match v
    case Str(t) => Plain(t)
    case Num(numeral) => Some(numeral)
    case NegZero => Some(Ascii("0"))
    case Bool(b) => Some(if b then Ascii("true") else Ascii("false"))
    case Arr(items) => if |items| == 1 then ReadText(items[0]) else Joined(ReadTexts(items))
    case Obj(ms) => if Named(ms).Null? then None else ReadText(Named(ms))
    case _ => None
  }

  function ReadTexts(items: seq<Value>): seq<Text>
    decreases items, 0
  {
    if items == [] then []
    else (if ReadText(items[0]).Some? then [ReadText(items[0]).value] else []) + ReadTexts(items[1..])
  }

  function Joined(parts: seq<Text>): Option<Text> { if Join(parts) == [] then None else Some(Join(parts)) }

  function ReadSelect(v: Value): Result<Option<Text>, Error> {
    match v
    case Arr(items) => if items == [] then Ok(None) else if |items| > 1 then Err(CellInvalid) else ReadSelect(items[0])
    case Obj(ms) => if Named(ms).Null? then Ok(None) else ReadSelect(Named(ms))
    case _ => Ok(ReadText(v))
  }

  // One record ------------------------------------------------------------------------------------------------

  predicate Scoped(k: Contract, n: Names, r: Record) {
    && ReadText(Cell(r, n.reportType)) == Some(REPORT_TYPE)
    && ReadText(Cell(r, n.platform)).Some? && ReadText(Cell(r, n.platform)).value in k.platforms
    && ReadText(Cell(r, n.capability)) == Some(CAPABILITY) && ReadText(Cell(r, n.periodKind)) == Some(PERIOD_KIND)
    && ReadText(Cell(r, n.customerProfile)) == Some(CUSTOMER_PROFILE)
    && ReadText(Cell(r, n.customerKey)) == Some(CUSTOMER_KEY)
  }

  function Suffix(metricKey: Option<Text>, platform: Text): Option<Text> {
    if metricKey.Some? && platform + [COLON] <= metricKey.value then Some(metricKey.value[|platform| + 1..]) else None
  }

  // The slot of a record in scope; None for the others.
  function SlotOf(k: Contract, n: Names, rd: Readers, r: Record): Result<Option<Slot>, Error> {
    if TrimText(r.id) == [] then Err(RecordIdMissing)
    else if !Scoped(k, n, r) then Ok(None) else
    var platform := ReadText(Cell(r, n.platform)).value;
    var suffix := Suffix(ReadText(Cell(r, n.metricKey)), platform);
    if suffix.None? || suffix.value !in k.suffixes then Ok(None) else
    var window := rd.window(Cell(r, n.numberWindow));
    if window.Err? then Err(window.error)
    else if window.value.None? || window.value.value !in k.windows then Ok(None)
    else Ok(Some(Slot(platform, window.value.value, suffix.value)))
  }

  datatype Outcome =
    | Skipped
    | Converged(slot: Slot)
    | Pending(slot: Slot, wanted: Text, previous: Option<Text>)
    | WindowConflict(slot: Slot, preserved: Option<Text>)
    | DuplicateConflict(slot: Slot, other: Text)
    | LabelConflict(slot: Slot, current: Text, wanted: Text)

  type Matrix = map<Slot, Text>

  function Display(n: Names, r: Record): Option<Text> { ReadText(Cell(r, n.display)) }

  function Compare(k: Contract, n: Names, r: Record, slot: Slot): Outcome {
    var wanted, display := k.labelOf(slot.suffix), Display(n, r);
    if display == Some(wanted) then Converged(slot)
    else if display.None? || k.alias(slot.platform + [COLON] + slot.suffix, display.value) then Pending(slot, wanted, display)
    else LabelConflict(slot, display.value, wanted)
  }

  function Classify(k: Contract, n: Names, rd: Readers, matrix: Matrix, r: Record): Result<Outcome, Error> {
    var slot := SlotOf(k, n, rd, r);
    if slot.Err? then Err(slot.error) else if slot.value.None? then Ok(Skipped) else
    var preserved, empty := ReadSelect(Cell(r, n.preservedWindow)), rd.isEmpty(Cell(r, n.currentValue));
    if preserved.Err? then Err(preserved.error) else if empty.Err? then Err(empty.error) else
    var place := slot.value.value;
    if preserved.value != Some(k.windowText(place.window)) then Ok(WindowConflict(place, preserved.value))
    else if place in matrix then Ok(DuplicateConflict(place, matrix[place]))
    else Ok(Compare(k, n, r, place))
  }

  predicate Places(o: Outcome) { o.Converged? || o.Pending? || o.LabelConflict? }

  function Place(matrix: Matrix, r: Record, o: Outcome): Matrix { if Places(o) then matrix[o.slot := r.id] else matrix }

  // All records, in the order of their ids -----------------------------------------------------------------------

  datatype Run = Run(matrix: Matrix, outcomes: seq<Outcome>)

  function RunOver(k: Contract, n: Names, rd: Readers, records: seq<Record>): (r: Result<Run, Error>)
    ensures r.Ok? ==> |r.value.outcomes| == |records|
    decreases |records|
  {
    if records == [] then Ok(Run(map[], [])) else
    var last := records[|records| - 1];
    var before := RunOver(k, n, rd, records[..|records| - 1]);
    if before.Err? then before else
    var o := Classify(k, n, rd, before.value.matrix, last);
    if o.Err? then Err(o.error) else Ok(Run(Place(before.value.matrix, last, o.value), before.value.outcomes + [o.value]))
  }

  type Order = (Text, Text) -> bool

  function ById(before: Order): (Record, Record) -> bool { (a: Record, b: Record) => before(a.id, b.id) }

  function SortRecords(records: seq<Record>, before: Order): seq<Record> { Sorting.Sort(records, ById(before)) }

  datatype Update = Update(id: Text, wanted: Text, slot: Slot, previous: Option<Text>)
  datatype Conflict = RecordConflict(id: Text, outcome: Outcome) | MissingSlot(slot: Slot)

  predicate InConflict(o: Outcome) { o.WindowConflict? || o.DuplicateConflict? || o.LabelConflict? }

  function UpdatesOf(records: seq<Record>, outcomes: seq<Outcome>): seq<Update>
    requires |records| == |outcomes|
    decreases |records|
  {
    if records == [] then [] else
    var n := |records| - 1;
    UpdatesOf(records[..n], outcomes[..n])
    + if outcomes[n].Pending? then [Update(records[n].id, outcomes[n].wanted, outcomes[n].slot, outcomes[n].previous)] else []
  }

  function ConflictsOf(records: seq<Record>, outcomes: seq<Outcome>): seq<Conflict>
    requires |records| == |outcomes|
    decreases |records|
  {
    if records == [] then [] else
    var n := |records| - 1;
    ConflictsOf(records[..n], outcomes[..n]) + if InConflict(outcomes[n]) then [RecordConflict(records[n].id, outcomes[n])] else []
  }

  function Count(outcomes: seq<Outcome>, p: Outcome -> bool): nat
    decreases |outcomes|
  {
    if outcomes == [] then 0 else
    var n := |outcomes| - 1;
    Count(outcomes[..n], p) + if p(outcomes[n]) then 1 else 0
  }

  function AllSlots(k: Contract): seq<Slot> { SlotsFrom(k, 0) }

  function SlotsFrom(k: Contract, i: nat): seq<Slot>
    decreases |k.platforms| - i
  {
    if i >= |k.platforms| then [] else WindowSlots(k, k.platforms[i], 0) + SlotsFrom(k, i + 1)
  }

  function WindowSlots(k: Contract, platform: Text, j: nat): seq<Slot>
    decreases |k.windows| - j
  {
    if j >= |k.windows| then [] else SuffixSlots(k, platform, k.windows[j], 0) + WindowSlots(k, platform, j + 1)
  }

  function SuffixSlots(k: Contract, platform: Text, window: nat, l: nat): seq<Slot>
    decreases |k.suffixes| - l
  {
    if l >= |k.suffixes| then [] else [Slot(platform, window, k.suffixes[l])] + SuffixSlots(k, platform, window, l + 1)
  }

  function MissingOf(slots: seq<Slot>, matrix: Matrix): seq<Conflict> {
    if slots == [] then [] else (if slots[0] in matrix then [] else [MissingSlot(slots[0])]) + MissingOf(slots[1..], matrix)
  }

  // The counts of one platform.
  datatype Tally = Tally(target: nat, populated: nat, converged: nat, pending: nat, empty: nat)

  // What a record in its slot is expected to show.
  datatype Expectation = Expectation(id: Text, slot: Slot, wanted: Text)

  datatype Plan = Plan(targets: nat, converged: nat, missing: nat, aliases: nat, populated: nat, empty: nat,
                       tallies: map<Text, Tally>, expected: seq<Expectation>,
                       updates: seq<Update>, conflicts: seq<Conflict>)

  predicate IsTarget(o: Outcome) { !o.Skipped? }
  predicate IsConverged(o: Outcome) { o.Converged? }
  predicate IsMissing(o: Outcome) { o.Pending? && o.previous.None? }
  predicate IsAlias(o: Outcome) { o.Pending? && o.previous.Some? }

  function Populated(n: Names, records: seq<Record>, outcomes: seq<Outcome>): nat
    requires |records| == |outcomes|
    decreases |records|
  {
    if records == [] then 0 else
    var m := |records| - 1;
    Populated(n, records[..m], outcomes[..m]) + if IsTarget(outcomes[m]) && Display(n, records[m]).Some? then 1 else 0
  }

  function Empty(n: Names, rd: Readers, records: seq<Record>, outcomes: seq<Outcome>): nat
    requires |records| == |outcomes|
    decreases |records|
  {
    if records == [] then 0 else
    var m := |records| - 1;
    Empty(n, rd, records[..m], outcomes[..m])
    + if IsTarget(outcomes[m]) && rd.isEmpty(Cell(records[m], n.currentValue)) == Ok(true) then 1 else 0
  }

  const NO_TALLY := Tally(0, 0, 0, 0, 0)

  function Plus(a: Tally, b: Tally): Tally {
    Tally(a.target + b.target, a.populated + b.populated, a.converged + b.converged, a.pending + b.pending, a.empty + b.empty)
  }

  // What one record adds to the counts of its platform.
  function TallyFor(n: Names, rd: Readers, r: Record, o: Outcome): Tally {
    Tally(1, if Display(n, r).Some? then 1 else 0, if o.Converged? then 1 else 0, if o.Pending? then 1 else 0,
          if rd.isEmpty(Cell(r, n.currentValue)) == Ok(true) then 1 else 0)
  }

  predicate OnPlatform(o: Outcome, platform: Text) { !o.Skipped? && o.slot.platform == platform }

  function TallyOf(n: Names, rd: Readers, records: seq<Record>, outcomes: seq<Outcome>, platform: Text): Tally
    requires |records| == |outcomes|
    decreases |records|
  {
    if records == [] then NO_TALLY else
    var m := |records| - 1;
    var before := TallyOf(n, rd, records[..m], outcomes[..m], platform);
    if OnPlatform(outcomes[m], platform) then Plus(before, TallyFor(n, rd, records[m], outcomes[m])) else before
  }

  function TalliesOf(k: Contract, n: Names, rd: Readers, records: seq<Record>, outcomes: seq<Outcome>): map<Text, Tally>
    requires |records| == |outcomes|
  {
    map p | p in k.platforms :: TallyOf(n, rd, records, outcomes, p)
  }

  function ExpectedOf(k: Contract, records: seq<Record>, outcomes: seq<Outcome>): seq<Expectation>
    requires |records| == |outcomes|
    decreases |records|
  {
    if records == [] then [] else
    var m := |records| - 1;
    ExpectedOf(k, records[..m], outcomes[..m])
    + if Places(outcomes[m]) then [Expectation(records[m].id, outcomes[m].slot, k.labelOf(outcomes[m].slot.suffix))] else []
  }

  function Summary(k: Contract, n: Names, rd: Readers, records: seq<Record>, run: Run): Plan
    requires |run.outcomes| == |records|
  {
    Plan(Count(run.outcomes, IsTarget), Count(run.outcomes, IsConverged), Count(run.outcomes, IsMissing),
         Count(run.outcomes, IsAlias), Populated(n, records, run.outcomes), Empty(n, rd, records, run.outcomes),
         TalliesOf(k, n, rd, records, run.outcomes), ExpectedOf(k, records, run.outcomes),
         UpdatesOf(records, run.outcomes), ConflictsOf(records, run.outcomes) + MissingOf(AllSlots(k), run.matrix))
  }

  // What one more record adds.
  lemma {:induction false} CountStep(outcomes: seq<Outcome>, o: Outcome, p: Outcome -> bool)
    ensures Count(outcomes + [o], p) == Count(outcomes, p) + if p(o) then 1 else 0
  {
    assert (outcomes + [o])[..|outcomes|] == outcomes;
  }

  lemma {:induction false} ListStep(records: seq<Record>, outcomes: seq<Outcome>, r: Record, o: Outcome)
    requires |records| == |outcomes|
    ensures UpdatesOf(records + [r], outcomes + [o])
      == if o.Pending? then UpdatesOf(records, outcomes) + [Update(r.id, o.wanted, o.slot, o.previous)]
         else UpdatesOf(records, outcomes)
    ensures ConflictsOf(records + [r], outcomes + [o])
      == if InConflict(o) then ConflictsOf(records, outcomes) + [RecordConflict(r.id, o)] else ConflictsOf(records, outcomes)
  {
    assert (outcomes + [o])[..|outcomes|] == outcomes && (records + [r])[..|records|] == records;
  }

  lemma {:induction false} CellStep(n: Names, rd: Readers, records: seq<Record>, outcomes: seq<Outcome>, r: Record, o: Outcome)
    requires |records| == |outcomes|
    ensures Populated(n, records + [r], outcomes + [o])
      == Populated(n, records, outcomes) + if IsTarget(o) && Display(n, r).Some? then 1 else 0
    ensures Empty(n, rd, records + [r], outcomes + [o])
      == Empty(n, rd, records, outcomes) + if IsTarget(o) && rd.isEmpty(Cell(r, n.currentValue)) == Ok(true) then 1 else 0
  {
    assert (outcomes + [o])[..|outcomes|] == outcomes && (records + [r])[..|records|] == records;
  }

  function Tallied(n: Names, rd: Readers, tallies: map<Text, Tally>, r: Record, o: Outcome): map<Text, Tally> {
    if o.Skipped? || o.slot.platform !in tallies then tallies
    else tallies[o.slot.platform := Plus(tallies[o.slot.platform], TallyFor(n, rd, r, o))]
  }

  lemma {:induction false} TallyStep(k: Contract, n: Names, rd: Readers, records: seq<Record>, outcomes: seq<Outcome>, r: Record, o: Outcome)
    requires |records| == |outcomes|
    ensures TalliesOf(k, n, rd, records + [r], outcomes + [o]) == Tallied(n, rd, TalliesOf(k, n, rd, records, outcomes), r, o)
    ensures ExpectedOf(k, records + [r], outcomes + [o])
      == ExpectedOf(k, records, outcomes) + if Places(o) then [Expectation(r.id, o.slot, k.labelOf(o.slot.suffix))] else []
  {
    assert (outcomes + [o])[..|outcomes|] == outcomes && (records + [r])[..|records|] == records;
  }

  lemma {:induction false} RunStep(k: Contract, n: Names, rd: Readers, records: seq<Record>, r: Record, run: Run)
    requires RunOver(k, n, rd, records) == Ok(run) && Classify(k, n, rd, run.matrix, r).Ok?
    ensures var o := Classify(k, n, rd, run.matrix, r).value;
      RunOver(k, n, rd, records + [r]) == Ok(Run(Place(run.matrix, r, o), run.outcomes + [o]))
  {
    assert (records + [r])[..|records|] == records;
  }

  // The counts and lists after the records seen so far.
  ghost predicate Tracks(k: Contract, n: Names, rd: Readers, records: seq<Record>, outcomes: seq<Outcome>, p: Plan) {
    |records| == |outcomes|
    && p == Plan(Count(outcomes, IsTarget), Count(outcomes, IsConverged), Count(outcomes, IsMissing), Count(outcomes, IsAlias),
                 Populated(n, records, outcomes), Empty(n, rd, records, outcomes), TalliesOf(k, n, rd, records, outcomes),
                 ExpectedOf(k, records, outcomes), UpdatesOf(records, outcomes), ConflictsOf(records, outcomes))
  }

  function Added(k: Contract, n: Names, rd: Readers, p: Plan, r: Record, o: Outcome): Plan {
    Plan(p.targets + if IsTarget(o) then 1 else 0, p.converged + if IsConverged(o) then 1 else 0,
         p.missing + if IsMissing(o) then 1 else 0, p.aliases + if IsAlias(o) then 1 else 0,
         p.populated + if IsTarget(o) && Display(n, r).Some? then 1 else 0,
         p.empty + if IsTarget(o) && rd.isEmpty(Cell(r, n.currentValue)) == Ok(true) then 1 else 0,
         Tallied(n, rd, p.tallies, r, o),
         p.expected + if Places(o) then [Expectation(r.id, o.slot, k.labelOf(o.slot.suffix))] else [],
         if o.Pending? then p.updates + [Update(r.id, o.wanted, o.slot, o.previous)] else p.updates,
         if InConflict(o) then p.conflicts + [RecordConflict(r.id, o)] else p.conflicts)
  }

  lemma {:induction false} TracksStep(k: Contract, n: Names, rd: Readers, records: seq<Record>, outcomes: seq<Outcome>, p: Plan,
                                      r: Record, o: Outcome)
    requires Tracks(k, n, rd, records, outcomes, p)
    ensures Tracks(k, n, rd, records + [r], outcomes + [o], Added(k, n, rd, p, r, o))
  {
    TallyStep(k, n, rd, records, outcomes, r, o);
    CountStep(outcomes, o, IsTarget);
    CountStep(outcomes, o, IsConverged);
    CountStep(outcomes, o, IsMissing);
    CountStep(outcomes, o, IsAlias);
    ListStep(records, outcomes, r, o);
    CellStep(n, rd, records, outcomes, r, o);
  }

  // The planner as the program runs it ------------------------------------------------------------------------------

  method PlanMissing(slots: seq<Slot>, matrix: Matrix) returns (conflicts: seq<Conflict>)
    ensures conflicts == MissingOf(slots, matrix)
  {
    conflicts := [];
    for i := 0 to |slots|
      invariant conflicts + MissingOf(slots[i..], matrix) == MissingOf(slots, matrix)
    {
      ghost var rest := MissingOf(slots[i + 1..], matrix);
      assert slots[i..][0] == slots[i] && slots[i..][1..] == slots[i + 1..];
      if slots[i] !in matrix {
        assert conflicts + ([MissingSlot(slots[i])] + rest) == (conflicts + [MissingSlot(slots[i])]) + rest;
        conflicts := conflicts + [MissingSlot(slots[i])];
      } else {
        assert [] + rest == rest;
      }
    }
  }

  class Planner {
    const contract: Contract
    var matrix: Matrix
    var updates: seq<Update>
    var conflicts: seq<Conflict>
    var expected: seq<Expectation>
    var tallies: map<Text, Tally>
    var targets: nat
    var converged: nat
    var missing: nat
    var aliases: nat
    var populated: nat
    var empty: nat

    constructor (contract: Contract)
      ensures this.contract == contract && matrix == map[]
      ensures State() == Plan(0, 0, 0, 0, 0, 0, map p | p in contract.platforms :: NO_TALLY, [], [], [])
    {
      this.contract := contract;
      matrix, updates, conflicts, expected := map[], [], [], [];
      tallies := map p | p in contract.platforms :: NO_TALLY;
      targets, converged, missing, aliases, populated, empty := 0, 0, 0, 0, 0, 0;
    }

    function State(): Plan
      reads this
    {
      Plan(targets, converged, missing, aliases, populated, empty, tallies, expected, updates, conflicts)
    }

    // One turn of the loop over the records.
    method Take(n: Names, rd: Readers, record: Record) returns (r: Result<Outcome, Error>)
      modifies this
      ensures r == Classify(contract, n, rd, old(matrix), record)
      ensures r.Ok? ==>
        matrix == Place(old(matrix), record, r.value) && State() == Added(contract, n, rd, old(State()), record, r.value)
    {
      r := Classify(contract, n, rd, matrix, record);
      if r.Ok? { Book(n, rd, record, r.value); }
    }

    method Book(n: Names, rd: Readers, record: Record, o: Outcome)
      modifies this
      ensures matrix == Place(old(matrix), record, o) && State() == Added(contract, n, rd, old(State()), record, o)
    {
      if o.Skipped? { return; }
      CountRecord(n, rd, record, o);
      ListRecord(record, o);
    }

    method CountRecord(n: Names, rd: Readers, record: Record, o: Outcome)
      requires !o.Skipped?
      modifies this`targets, this`empty, this`populated, this`tallies
      ensures targets == old(targets) + 1 && tallies == Tallied(n, rd, old(tallies), record, o)
      ensures empty == old(empty) + if rd.isEmpty(Cell(record, n.currentValue)) == Ok(true) then 1 else 0
      ensures populated == old(populated) + if Display(n, record).Some? then 1 else 0
    {
      targets := targets + 1;
      if rd.isEmpty(Cell(record, n.currentValue)) == Ok(true) { empty := empty + 1; }
      if Display(n, record).Some? { populated := populated + 1; }
      if o.slot.platform in tallies {
        tallies := tallies[o.slot.platform := Plus(tallies[o.slot.platform], TallyFor(n, rd, record, o))];
      }
    }

    method ListRecord(record: Record, o: Outcome)
      requires !o.Skipped?
      modifies this`matrix, this`expected, this`converged, this`missing, this`aliases, this`updates, this`conflicts
      ensures matrix == Place(old(matrix), record, o)
      ensures expected == old(expected) + if Places(o) then [Expectation(record.id, o.slot, contract.labelOf(o.slot.suffix))] else []
      ensures converged == old(converged) + if IsConverged(o) then 1 else 0
      ensures missing == old(missing) + if IsMissing(o) then 1 else 0
      ensures aliases == old(aliases) + if IsAlias(o) then 1 else 0
      ensures updates == if o.Pending? then old(updates) + [Update(record.id, o.wanted, o.slot, o.previous)] else old(updates)
      ensures conflicts == if InConflict(o) then old(conflicts) + [RecordConflict(record.id, o)] else old(conflicts)
    {
      matrix := Place(matrix, record, o);
      if Places(o) { expected := expected + [Expectation(record.id, o.slot, contract.labelOf(o.slot.suffix))]; }
      if o.Converged? {
        converged := converged + 1;
      } else if o.Pending? {
        if o.previous.None? { missing := missing + 1; } else { aliases := aliases + 1; }
        updates := updates + [Update(record.id, o.wanted, o.slot, o.previous)];
      } else {
        conflicts := conflicts + [RecordConflict(record.id, o)];
      }
    }
  }

  method PlanBackfill(k: Contract, n: Names, rd: Readers, records: seq<Record>, before: Order) returns (r: Result<Plan, Error>)
    ensures var run := RunOver(k, n, rd, SortRecords(records, before));
      r == if run.Err? then Err(run.error) else Ok(Summary(k, n, rd, SortRecords(records, before), run.value))
  {
    var sorted := SortRecords(records, before);
    var planner := new Planner(k);
    ghost var outcomes: seq<Outcome> := [];
    for i := 0 to |sorted|
      invariant planner.contract == k && |outcomes| == i && RunOver(k, n, rd, sorted[..i]) == Ok(Run(planner.matrix, outcomes))
      invariant Tracks(k, n, rd, sorted[..i], outcomes, planner.State())
    {
      assert sorted[..i + 1] == sorted[..i] + [sorted[i]];
      ghost var run, p := Run(planner.matrix, outcomes), planner.State();
      var o := planner.Take(n, rd, sorted[i]);
      if o.Err? {
        RunFails(k, n, rd, sorted, i);
        return Err(o.error);
      }
      RunStep(k, n, rd, sorted[..i], sorted[i], run);
      TracksStep(k, n, rd, sorted[..i], outcomes, p, sorted[i], o.value);
      outcomes := outcomes + [o.value];
    }
    assert sorted[..|sorted|] == sorted;
    var absent := PlanMissing(AllSlots(k), planner.matrix);
    r := Ok(planner.State().(conflicts := planner.conflicts + absent));
  }

  // An error stops the whole run.
  lemma {:induction false} RunFails(k: Contract, n: Names, rd: Readers, records: seq<Record>, i: nat)
    requires i < |records| && RunOver(k, n, rd, records[..i]).Ok?
    requires Classify(k, n, rd, RunOver(k, n, rd, records[..i]).value.matrix, records[i]).Err?
    ensures RunOver(k, n, rd, records)
      == Err(Classify(k, n, rd, RunOver(k, n, rd, records[..i]).value.matrix, records[i]).error)
    decreases |records|
  {
    var m := |records| - 1;
    if i < m {
      assert records[..m][..i] == records[..i];
      RunFails(k, n, rd, records[..m], i);
    }
  }
}
