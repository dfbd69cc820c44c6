// Which records the display backfill is about, how their cells are read, and what its counts count.
module DisplayScope {
  import opened Wrappers
  import opened Lexicographic
  import opened JsonValues
  import opened CanonicalJson
  import opened DashboardConfig
  import opened DisplayBackfill
  import opened DisplayConvergence

  predicate Reads(r: Record, name: Text, t: Text) { ReadText(Cell(r, name)) == Some(t) }

  // The record is a rolling organic report of the one customer, on this metric of this platform.
  ghost predicate ReportsOn(k: Contract, n: Names, r: Record, platform: Text, suffix: Text) {
    && Reads(r, n.reportType, Ascii("dashboard_performance_report")) && Reads(r, n.capability, Ascii("organic"))
    && Reads(r, n.periodKind, Ascii("rolling_days")) && Reads(r, n.customerProfile, Ascii("integration_workspace"))
    && Reads(r, n.customerKey, Ascii("chemistry_k")) && Reads(r, n.platform, platform) && platform in k.platforms
    && Reads(r, n.metricKey, platform + Ascii(":") + suffix) && suffix in k.suffixes
  }

  ghost predicate FailsToRead(k: Contract, n: Names, rd: Readers, r: Record, e: Error) {
    exists platform, suffix :: ReportsOn(k, n, r, platform, suffix) && rd.window(Cell(r, n.numberWindow)) == Err(e)
  }

  // Main result: a record belongs to a slot exactly when it reports on the slot's metric over the slot's window, and
  // stops the run exactly when it has no id or reports on a metric over a window that cannot be read.
  lemma {:induction false} ScopeExactly(k: Contract, n: Names, rd: Readers, r: Record, slot: Slot, e: Error)
    ensures SlotOf(k, n, rd, r) == Ok(Some(slot)) <==>
      TrimText(r.id) != [] && ReportsOn(k, n, r, slot.platform, slot.suffix)
      && rd.window(Cell(r, n.numberWindow)) == Ok(Some(slot.window)) && slot.window in k.windows
    ensures SlotOf(k, n, rd, r) == Err(e) <==>
      if TrimText(r.id) == [] then e == RecordIdMissing else FailsToRead(k, n, rd, r, e)
  {
    assert Ascii(":") == [COLON];
    forall platform, suffix | ReportsOn(k, n, r, platform, suffix)
      ensures Suffix(ReadText(Cell(r, n.metricKey)), platform) == Some(suffix)
    {
      SuffixOf(platform, suffix);
    }
    if Scoped(k, n, r) {
      var platform := ReadText(Cell(r, n.platform)).value;
      var suffix := Suffix(ReadText(Cell(r, n.metricKey)), platform);
      if suffix.Some? && suffix.value in k.suffixes {
        var key := ReadText(Cell(r, n.metricKey)).value;
        assert key[..|platform| + 1] == platform + [COLON] && key == key[..|platform| + 1] + suffix.value;
        assert ReportsOn(k, n, r, platform, suffix.value);
      }
    }
  }

  lemma {:induction false} SuffixOf(platform: Text, suffix: Text)
    ensures Suffix(Some(platform + Ascii(":") + suffix), platform) == Some(suffix)
  {
    assert Ascii(":") == [COLON];
    var t := platform + [COLON] + suffix;
    assert t[..|platform| + 1] == platform + [COLON] && t[|platform| + 1..] == suffix;
  }

  // How a cell shows a text: as it is, alone in a list, or under the first of three names.
  lemma {:induction false} CellForms(t: Text, ms: seq<Entry<Value>>)
    ensures ReadText(Str(t)) == if TrimText(t) == [] then None else Some(TrimText(t))
    ensures ReadText(Arr([Str(t)])) == ReadText(Str(t))
    ensures Get(ms, Ascii("text")) == Str(t) ==> ReadText(Obj(ms)) == ReadText(Str(t))
    ensures Nullish(Get(ms, Ascii("text"))) && Get(ms, Ascii("name")) == Str(t) ==> ReadText(Obj(ms)) == ReadText(Str(t))
    ensures Nullish(Get(ms, Ascii("text"))) && Nullish(Get(ms, Ascii("name"))) && Get(ms, Ascii("value")) == Str(t) ==>
      ReadText(Obj(ms)) == ReadText(Str(t))
    ensures ReadText(Undefined).None? && ReadText(Null).None? && ReadText(Arr([])).None?
  {
    assert [Str(t)][0] == Str(t);
    assert Join([]) == [];
  }

  // Counts ----------------------------------------------------------------------------------------

  // How many of the numbers below m are such.
  ghost function HowMany(m: nat, such: nat -> bool): nat {
    if m == 0 then 0 else HowMany(m - 1, such) + if such(m - 1) then 1 else 0
  }

  lemma {:induction false} CountIs(found: seq<Outcome>, p: Outcome -> bool, such: nat -> bool)
    requires forall i: nat | i < |found| :: such(i) == p(found[i])
    ensures Count(found, p) == HowMany(|found|, such)
    decreases |found|
  {
    if found != [] { CountIs(found[..|found| - 1], p, such); }
  }

  // The record is in scope and shows a label...
  predicate Shows(n: Names, r: Record, o: Outcome) { !o.Skipped? && ReadText(Cell(r, n.display)).Some? }

  // ...or has no value.
  predicate HasNoValue(n: Names, rd: Readers, r: Record, o: Outcome) {
    !o.Skipped? && rd.isEmpty(Cell(r, n.currentValue)) == Ok(true)
  }

  lemma {:induction false} PopulatedIs(n: Names, records: seq<Record>, found: seq<Outcome>, such: nat -> bool)
    requires |records| == |found| && forall i: nat | i < |found| :: such(i) == Shows(n, records[i], found[i])
    ensures Populated(n, records, found) == HowMany(|found|, such)
    decreases |records|
  {
    if records != [] { PopulatedIs(n, records[..|records| - 1], found[..|records| - 1], such); }
  }

  lemma {:induction false} EmptyIs(n: Names, rd: Readers, records: seq<Record>, found: seq<Outcome>, such: nat -> bool)
    requires |records| == |found| && forall i: nat | i < |found| :: such(i) == HasNoValue(n, rd, records[i], found[i])
    ensures Empty(n, rd, records, found) == HowMany(|found|, such)
    decreases |records|
  {
    if records != [] { EmptyIs(n, rd, records[..|records| - 1], found[..|records| - 1], such); }
  }

  // The counts of a plan are those of its records by what was found for them.
  lemma {:induction false} PlanCounts(k: Contract, n: Names, rd: Readers, records: seq<Record>, run: Run)
    requires RunOver(k, n, rd, records) == Ok(run)
    ensures var p, found, m := Summary(k, n, rd, records, run), run.outcomes, |records|;
      && p.targets == HowMany(m, (i: nat) => i < m && !found[i].Skipped?)
      && p.converged == HowMany(m, (i: nat) => i < m && found[i].Converged?)
      && p.missing == HowMany(m, (i: nat) => i < m && found[i].Pending? && found[i].previous.None?)
      && p.aliases == HowMany(m, (i: nat) => i < m && found[i].Pending? && found[i].previous.Some?)
      && p.populated == HowMany(m, (i: nat) => i < m && Shows(n, records[i], found[i]))
      && p.empty == HowMany(m, (i: nat) => i < m && HasNoValue(n, rd, records[i], found[i]))
  {
    var found, m := run.outcomes, |records|;
    CountIs(found, IsTarget, (i: nat) => i < m && !found[i].Skipped?);
    CountIs(found, IsConverged, (i: nat) => i < m && found[i].Converged?);
    CountIs(found, IsMissing, (i: nat) => i < m && found[i].Pending? && found[i].previous.None?);
    CountIs(found, IsAlias, (i: nat) => i < m && found[i].Pending? && found[i].previous.Some?);
    PopulatedIs(n, records, found, (i: nat) => i < m && Shows(n, records[i], found[i]));
    EmptyIs(n, rd, records, found, (i: nat) => i < m && HasNoValue(n, rd, records[i], found[i]));
  }

  // A record is expected to show a label exactly when it holds its slot: the label of the slot's metric.
  lemma {:induction false} ExpectedAre(k: Contract, records: seq<Record>, outcomes: seq<Outcome>, x: Expectation)
    requires |records| == |outcomes|
    ensures x in ExpectedOf(k, records, outcomes) <==>
      exists i | 0 <= i < |records| :: Expects(k, records[i], outcomes[i], x)
    decreases |records|
  {
    if records != [] {
      var m := |records| - 1;
      ExpectedAre(k, records[..m], outcomes[..m], x);
      if i :| 0 <= i < m && Expects(k, records[..m][i], outcomes[..m][i], x) { assert Expects(k, records[i], outcomes[i], x); }
      if i :| 0 <= i < m && Expects(k, records[i], outcomes[i], x) { assert Expects(k, records[..m][i], outcomes[..m][i], x); }
    }
  }

  predicate Expects(k: Contract, r: Record, o: Outcome, x: Expectation) {
    (o.Converged? || o.Pending? || o.LabelConflict?) && x == Expectation(r.id, o.slot, k.labelOf(o.slot.suffix))
  }
}
