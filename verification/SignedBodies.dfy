// What the receiver of a signed chunk reads in its body.
module SignedBodies {
  import opened Wrappers
  import opened Lexicographic
  import opened JsonValues
  import opened JsonReader
  import opened CanonicalJson
  import opened SignedChunks

  // The number a decimal numeral writes.
  function NumberOf(t: Text): int {
    if t == [] then 0 else 10 * NumberOf(t[..|t| - 1]) + t[|t| - 1] as int - 48
  }

  // A numeral of digits alone, without leading zeros.
  predicate IsNumber(v: Value, n: nat) {
    && v.Num? && NumberOf(v.numeral) == n
    && (forall c <- v.numeral :: 48 <= c <= 57)
    && v.numeral != [] && (v.numeral[0] == 48 ==> |v.numeral| == 1)
  }

  lemma {:induction false} NumbersRead(n: nat)
    ensures IsNumber(Number(n), n)
    decreases n
  {
    if n >= 10 {
      NumbersRead(n / 10);
      assert Decimal(n)[..|Decimal(n)| - 1] == Decimal(n / 10);
      assert Decimal(n)[0] == Decimal(n / 10)[0];
    } else {
      assert [48 + n][..0] == [];
    }
  }

  // Documents -------------------------------------------------------------------------------------

  ghost predicate Headed(doc: Value, run: Run, fetchedAt: Text) {
    && doc.Obj?
    && Get(doc.members, Ascii("schemaVersion")) == Str(Ascii("google_ads_manager_script_signed_delivery_v1"))
    && Get(doc.members, Ascii("runId")) == Str(run.runId)
    && Get(doc.members, Ascii("mode")) == Str(run.mode)
    && Get(doc.members, Ascii("runStartedAt")) == Str(run.runStartedAt)
    && Get(doc.members, Ascii("fetchedAt")) == Str(fetchedAt)
  }

  ghost predicate Identified(doc: Value, identity: Identity) {
    && doc.Obj?
    && Get(doc.members, Ascii("managerCustomerId")) == Str(identity.managerCustomerId)
    && Get(doc.members, Ascii("customerId")) == Str(identity.customerId)
    && Get(doc.members, Ascii("customerKey")) == Str(identity.customerKey)
    && Get(doc.members, Ascii("accountKey")) == Str(identity.accountKey)
    && Get(doc.members, Ascii("sourceTimezone")) == Str(identity.sourceTimezone)
  }

  // Chunk `index` of `count` of the named dataset, with these of its `total` rows.
  ghost predicate Carries(d: Value, key: Text, index: nat, count: nat, total: nat, rows: seq<Value>) {
    && d.Obj? && Get(d.members, Ascii("key")) == Str(key)
    && IsNumber(Get(d.members, Ascii("chunkIndex")), index)
    && IsNumber(Get(d.members, Ascii("chunkCount")), count)
    && IsNumber(Get(d.members, Ascii("totalRows")), total)
    && Same(Arr(rows), Get(d.members, Ascii("rows")))
  }

  ghost predicate Lists(manifest: Value, key: Text, total: nat, count: nat) {
    && manifest.Obj? && Get(manifest.members, key).Obj?
    && IsNumber(Get(Get(manifest.members, key).members, Ascii("totalRows")), total)
    && IsNumber(Get(Get(manifest.members, key).members, Ascii("chunkCount")), count)
  }

  // The manifest lists every dataset of the run with its rows and chunks, and nothing else.
  ghost predicate ListsAll(doc: Value, datasets: seq<Dataset>) {
    && doc.Obj?
    && (forall i | 0 <= i < |datasets| ::
      Lists(Get(doc.members, Ascii("manifest")), datasets[i].key, |datasets[i].rows|, |Chunks(datasets[i])|))
    && (forall k :: ListedOnly(Get(doc.members, Ascii("manifest")), datasets, k))
  }

  ghost predicate ListedOnly(manifest: Value, datasets: seq<Dataset>, key: Text) {
    manifest.Obj? && (!Get(manifest.members, key).Undefined? ==> exists i | 0 <= i < |datasets| :: datasets[i].key == key)
  }

  ghost predicate DistinctDatasets(datasets: seq<Dataset>) {
    forall a, b | 0 <= a < b < |datasets| :: datasets[a].key != datasets[b].key
  }

  // Reading the members of a canonical object -----------------------------------------------------

  lemma {:induction false} ReadsMemberAt(ms: seq<Entry<Value>>, i: nat)
    requires DistinctKeys(ms) && i < |ms|
    ensures Get(Norm(Obj(ms)).members, ms[i].key) == if ms[i].value.Undefined? then Undefined else Norm(ms[i].value)
  {
    GetAt(ms, i);
    NormGets(ms, ms[i].key);
  }

  lemma {:induction false} TextUnder(ms: seq<Entry<Value>>, i: nat, key: Text, text: Text)
    requires DistinctKeys(ms) && i < |ms| && ms[i] == Entry(key, Str(text))
    ensures Get(Norm(Obj(ms)).members, key) == Str(text)
  {
    ReadsMemberAt(ms, i);
  }

  lemma {:induction false} NumberUnder(ms: seq<Entry<Value>>, i: nat, key: Text, n: nat)
    requires DistinctKeys(ms) && i < |ms| && ms[i] == Entry(key, Number(n))
    ensures IsNumber(Get(Norm(Obj(ms)).members, key), n)
  {
    ReadsMemberAt(ms, i);
    NumbersRead(n);
  }

  lemma {:induction false} DatasetKeysDiffer(slot: Slot)
    ensures DistinctKeys(DatasetMembers(slot))
  {
    var ms := DatasetMembers(slot);
    assert |ms[0].key| == 3 && |ms[1].key| == 10 && |ms[2].key| == 10 && |ms[3].key| == 9 && |ms[4].key| == 4;
    assert ms[1].key[5] == 73 && ms[2].key[5] == 67;
  }

  lemma {:induction false} EnvelopeKeysDiffer(run: Run, manifest: seq<Entry<Value>>, slot: Slot, fetchedAt: Text)
    ensures DistinctKeys(EnvelopeMembers(run, manifest, slot, fetchedAt))
  {
    var ms := EnvelopeMembers(run, manifest, slot, fetchedAt);
    assert |ms[0].key| == 13 && |ms[1].key| == 5 && |ms[2].key| == 4 && |ms[3].key| == 12;
    assert |ms[4].key| == 9 && |ms[5].key| == 17 && |ms[6].key| == 10 && |ms[7].key| == 11;
    assert |ms[8].key| == 10 && |ms[9].key| == 14 && |ms[10].key| == 8 && |ms[11].key| == 7;
    assert ms[6].key[0] == 99 && ms[8].key[0] == 97;
  }

  lemma {:induction false} EntryKeysDiffer(key: Text, total: nat, count: nat)
    ensures ManifestEntry(key, total, count).value.Obj? && DistinctKeys(ManifestEntry(key, total, count).value.members)
    ensures WellFormed(ManifestEntry(key, total, count).value) && Printable(ManifestEntry(key, total, count).value)
  {
    var ms := ManifestEntry(key, total, count).value.members;
    assert |ms[0].key| == 9 && |ms[1].key| == 10;
  }

  lemma {:induction false} ManifestAt(datasets: seq<Dataset>, i: nat)
    requires i < |datasets|
    ensures |Manifest(datasets)| == |datasets|
    ensures Manifest(datasets)[i] == ManifestEntry(datasets[i].key, |datasets[i].rows|, |Chunks(datasets[i])|)
  {
    if i > 0 {
      ManifestAt(datasets[1..], i - 1);
    } else if |datasets| > 1 {
      ManifestAt(datasets[1..], 0);
    }
  }

  lemma {:induction false} ManifestSound(datasets: seq<Dataset>)
    requires DistinctDatasets(datasets)
    ensures |Manifest(datasets)| == |datasets| && DistinctKeys(Manifest(datasets))
    ensures WellFormed(Obj(Manifest(datasets))) && Printable(Obj(Manifest(datasets)))
  {
    var ms := Manifest(datasets);
    if datasets != [] { ManifestAt(datasets, 0); }
    forall i | 0 <= i < |ms|
      ensures ms[i].key == datasets[i].key && WellFormed(ms[i].value) && Printable(ms[i].value)
    {
      ManifestAt(datasets, i);
      EntryKeysDiffer(datasets[i].key, |datasets[i].rows|, |Chunks(datasets[i])|);
    }
  }

  lemma {:induction false} EntryLists(manifest: seq<Entry<Value>>, i: nat, key: Text, total: nat, count: nat)
    requires DistinctKeys(manifest) && i < |manifest| && manifest[i] == ManifestEntry(key, total, count)
    ensures Lists(Norm(Obj(manifest)), key, total, count)
  {
    ReadsMemberAt(manifest, i);
    EntryKeysDiffer(key, total, count);
    var ms := ManifestEntry(key, total, count).value.members;
    ReadsMemberAt(ms, 0);
    ReadsMemberAt(ms, 1);
    NumbersRead(total);
    NumbersRead(count);
  }

  lemma {:induction false} ManifestLists(datasets: seq<Dataset>)
    requires DistinctDatasets(datasets)
    ensures forall i | 0 <= i < |datasets| ::
      Lists(Norm(Obj(Manifest(datasets))), datasets[i].key, |datasets[i].rows|, |Chunks(datasets[i])|)
    ensures forall k :: ListedOnly(Norm(Obj(Manifest(datasets))), datasets, k)
  {
    ManifestSound(datasets);
    var ms := Manifest(datasets);
    forall i | 0 <= i < |datasets|
      ensures Lists(Norm(Obj(ms)), datasets[i].key, |datasets[i].rows|, |Chunks(datasets[i])|)
    {
      ManifestAt(datasets, i);
      EntryLists(ms, i, datasets[i].key, |datasets[i].rows|, |Chunks(datasets[i])|);
    }
    forall k ensures ListedOnly(Norm(Obj(ms)), datasets, k) {
      NormGets(ms, k);
      if !Get(ms, k).Undefined? {
        var i :| 0 <= i < |ms| && ms[i] == Entry(k, Get(ms, k));
        ManifestAt(datasets, i);
        assert datasets[i].key == k;
      }
    }
  }

  lemma {:induction false} DatasetSound(slot: Slot)
    requires Mapped(slot.rows)
    ensures WellFormed(Obj(DatasetMembers(slot))) && Printable(Obj(DatasetMembers(slot)))
  {
    var ms := DatasetMembers(slot);
    DatasetKeysDiffer(slot);
    assert WellFormed(Arr(slot.rows)) && Printable(Arr(slot.rows));
    forall i | 0 <= i < |ms| ensures WellFormed(ms[i].value) && Printable(ms[i].value) {}
  }

  lemma {:induction false} RowsUnder(ms: seq<Entry<Value>>, i: nat, key: Text, rows: seq<Value>)
    requires DistinctKeys(ms) && i < |ms| && ms[i] == Entry(key, Arr(rows)) && Mapped(rows)
    ensures Same(Arr(rows), Get(Norm(Obj(ms)).members, key))
  {
    ReadsMemberAt(ms, i);
    NormIsSame(Arr(rows));
  }

  lemma {:induction false} DatasetCarries(slot: Slot)
    requires Mapped(slot.rows)
    ensures Carries(Norm(Obj(DatasetMembers(slot))), slot.key, slot.index, slot.count, slot.totalRows, slot.rows)
  {
    var ms := DatasetMembers(slot);
    DatasetKeysDiffer(slot);
    TextUnder(ms, 0, Ascii("key"), slot.key);
    NumberUnder(ms, 1, Ascii("chunkIndex"), slot.index);
    NumberUnder(ms, 2, Ascii("chunkCount"), slot.count);
    NumberUnder(ms, 3, Ascii("totalRows"), slot.totalRows);
    RowsUnder(ms, 4, Ascii("rows"), slot.rows);
  }

  lemma {:induction false} EnvelopeSound(run: Run, datasets: seq<Dataset>, slot: Slot, fetchedAt: Text)
    requires DistinctDatasets(datasets) && Mapped(slot.rows)
    ensures WellFormed(Envelope(run, Manifest(datasets), slot, fetchedAt))
    ensures Printable(Envelope(run, Manifest(datasets), slot, fetchedAt))
  {
    var ms := EnvelopeMembers(run, Manifest(datasets), slot, fetchedAt);
    EnvelopeKeysDiffer(run, Manifest(datasets), slot, fetchedAt);
    ManifestSound(datasets);
    DatasetSound(slot);
    forall i | 0 <= i < |ms| ensures WellFormed(ms[i].value) && Printable(ms[i].value) {
      assert i < 10 ==> ms[i].value.Str?;
    }
  }

  lemma {:induction false} MembersHead(ms: seq<Entry<Value>>, run: Run, fetchedAt: Text)
    requires DistinctKeys(ms) && |ms| >= 5
    requires ms[0] == Entry(Ascii("schemaVersion"), Str(Ascii("google_ads_manager_script_signed_delivery_v1")))
    requires ms[1] == Entry(Ascii("runId"), Str(run.runId)) && ms[2] == Entry(Ascii("mode"), Str(run.mode))
    requires ms[3] == Entry(Ascii("runStartedAt"), Str(run.runStartedAt)) && ms[4] == Entry(Ascii("fetchedAt"), Str(fetchedAt))
    ensures Headed(Norm(Obj(ms)), run, fetchedAt)
  {
    TextUnder(ms, 0, Ascii("schemaVersion"), Ascii("google_ads_manager_script_signed_delivery_v1"));
    TextUnder(ms, 1, Ascii("runId"), run.runId);
    TextUnder(ms, 2, Ascii("mode"), run.mode);
    TextUnder(ms, 3, Ascii("runStartedAt"), run.runStartedAt);
    TextUnder(ms, 4, Ascii("fetchedAt"), fetchedAt);
  }

  lemma {:induction false} MembersIdentify(ms: seq<Entry<Value>>, identity: Identity)
    requires DistinctKeys(ms) && |ms| >= 10
    requires ms[5] == Entry(Ascii("managerCustomerId"), Str(identity.managerCustomerId))
    requires ms[6] == Entry(Ascii("customerId"), Str(identity.customerId))
    requires ms[7] == Entry(Ascii("customerKey"), Str(identity.customerKey))
    requires ms[8] == Entry(Ascii("accountKey"), Str(identity.accountKey))
    requires ms[9] == Entry(Ascii("sourceTimezone"), Str(identity.sourceTimezone))
    ensures Identified(Norm(Obj(ms)), identity)
  {
    TextUnder(ms, 5, Ascii("managerCustomerId"), identity.managerCustomerId);
    TextUnder(ms, 6, Ascii("customerId"), identity.customerId);
    TextUnder(ms, 7, Ascii("customerKey"), identity.customerKey);
    TextUnder(ms, 8, Ascii("accountKey"), identity.accountKey);
    TextUnder(ms, 9, Ascii("sourceTimezone"), identity.sourceTimezone);
  }

  lemma {:induction false} EnvelopeHeaded(run: Run, manifest: seq<Entry<Value>>, slot: Slot, fetchedAt: Text)
    ensures Headed(Norm(Envelope(run, manifest, slot, fetchedAt)), run, fetchedAt)
  {
    EnvelopeKeysDiffer(run, manifest, slot, fetchedAt);
    MembersHead(EnvelopeMembers(run, manifest, slot, fetchedAt), run, fetchedAt);
  }

  lemma {:induction false} EnvelopeIdentified(run: Run, manifest: seq<Entry<Value>>, slot: Slot, fetchedAt: Text)
    ensures Identified(Norm(Envelope(run, manifest, slot, fetchedAt)), run.identity)
  {
    EnvelopeKeysDiffer(run, manifest, slot, fetchedAt);
    MembersIdentify(EnvelopeMembers(run, manifest, slot, fetchedAt), run.identity);
  }

  lemma {:induction false} EnvelopeHolds(run: Run, manifest: seq<Entry<Value>>, slot: Slot, fetchedAt: Text)
    ensures var doc := Norm(Envelope(run, manifest, slot, fetchedAt));
      && Get(doc.members, Ascii("manifest")) == Norm(Obj(manifest))
      && Get(doc.members, Ascii("dataset")) == Norm(Obj(DatasetMembers(slot)))
  {
    var ms := EnvelopeMembers(run, manifest, slot, fetchedAt);
    EnvelopeKeysDiffer(run, manifest, slot, fetchedAt);
    assert ms[10].key == Ascii("manifest") && ms[11].key == Ascii("dataset");
    ReadsMemberAt(ms, 10);
    ReadsMemberAt(ms, 11);
  }

  // The whole of what a body says.
  ghost predicate Says(doc: Value, run: Run, fetchedAt: Text, datasets: seq<Dataset>, slot: Slot) {
    && Headed(doc, run, fetchedAt) && Identified(doc, run.identity) && ListsAll(doc, datasets)
    && Carries(Get(doc.members, Ascii("dataset")), slot.key, slot.index, slot.count, slot.totalRows, slot.rows)
  }

  lemma {:induction false} EnvelopeReads(run: Run, datasets: seq<Dataset>, slot: Slot, fetchedAt: Text)
    requires DistinctDatasets(datasets) && Mapped(slot.rows)
    ensures Says(Norm(Envelope(run, Manifest(datasets), slot, fetchedAt)), run, fetchedAt, datasets, slot)
  {
    EnvelopeHeaded(run, Manifest(datasets), slot, fetchedAt);
    EnvelopeIdentified(run, Manifest(datasets), slot, fetchedAt);
    EnvelopeHolds(run, Manifest(datasets), slot, fetchedAt);
    ManifestLists(datasets);
    DatasetCarries(slot);
  }

  ghost predicate BodySays(body: Text, run: Run, fetchedAt: Text, datasets: seq<Dataset>, slot: Slot) {
    ReadJson(body).Some? && Says(ReadJson(body).value, run, fetchedAt, datasets, slot)
  }

  // Main result: a body is JSON text within the limit that names the run, its identity, every dataset of the
  // manifest with its counts, and the chunk with its place, counts and rows. It is refused exactly over the limit.
  lemma {:induction false} BodyReadsBack(envelope: Value, run: Run, datasets: seq<Dataset>, slot: Slot, fetchedAt: Text)
    requires envelope == Envelope(run, Manifest(datasets), slot, fetchedAt)
    requires DistinctDatasets(datasets) && Mapped(slot.rows)
    ensures Serialize(envelope).Some? && (Body(envelope).None? <==> Utf8Length(Serialize(envelope).value) > 524288)
    ensures Body(envelope).Some? ==> BodySays(Body(envelope).value, run, fetchedAt, datasets, slot)
  {
    EnvelopeSound(run, datasets, slot, fetchedAt);
    SerializedReadsBack(envelope);
    EnvelopeReads(run, datasets, slot, fetchedAt);
  }

  // Which chunks are planned ----------------------------------------------------------------------

  lemma {:induction false} ChunkMapped(chunks: seq<seq<Value>>, j: nat)
    requires Mapped(Concat(chunks)) && j < |chunks|
    ensures Mapped(chunks[j])
  {
    MappedParts(chunks[0], Concat(chunks[1..]));
    if j > 0 { ChunkMapped(chunks[1..], j - 1); }
  }

  lemma {:induction false} SlotsMapped(d: Dataset, j: nat)
    requires Mapped(d.rows) && Splits(d) && j < |Chunks(d)|
    ensures Mapped(Chunks(d)[j])
  {
    SplitIsSplit([], d.rows);
    assert [] + d.rows == d.rows;
    ChunkMapped(Chunks(d), j);
  }

  // Every chunk of every dataset has its place in the plan, datasets in order and each from index 0.
  lemma {:induction false} PlanHoldsEveryChunk(datasets: seq<Dataset>, i: nat, j: nat)
    requires i < |datasets| && j < |Chunks(datasets[i])|
    ensures |Plan(datasets)| == Total(datasets) && Total(datasets[..i]) + j < Total(datasets)
    ensures Plan(datasets)[Total(datasets[..i]) + j]
      == Slot(datasets[i].key, j, |Chunks(datasets[i])|, |datasets[i].rows|, Chunks(datasets[i])[j])
  {
    PlanLength(datasets);
    SlotsLength(datasets[0], 0);
    if i == 0 {
      SlotsCarryRows(datasets[0], 0, j);
    } else {
      var rest := datasets[1..];
      PlanHoldsEveryChunk(rest, i - 1, j);
      assert datasets[..i][0] == datasets[0] && datasets[..i][1..] == rest[..i - 1];
      assert Plan(datasets)[|Slots(datasets[0], 0)| + (Total(rest[..i - 1]) + j)] == Plan(rest)[Total(rest[..i - 1]) + j];
    }
  }

  lemma {:induction false} SlotsLength(d: Dataset, from: nat)
    requires from <= |Chunks(d)|
    ensures |Slots(d, from)| == |Chunks(d)| - from
    decreases |Chunks(d)| - from
  {
    if from < |Chunks(d)| { SlotsLength(d, from + 1); }
  }

  lemma {:induction false} PlanLength(datasets: seq<Dataset>)
    ensures |Plan(datasets)| == Total(datasets)
  {
    if datasets != [] {
      PlanLength(datasets[1..]);
      SlotsLength(datasets[0], 0);
    }
  }

  // Main result: in a planned run, chunk j of dataset i has a body that reads as that chunk.
  lemma {:induction false} PlannedBodiesRead(datasets: seq<Dataset>, run: Run, clock: nat -> Text, chunks: seq<Chunk>, i: nat, j: nat)
    requires DistinctDatasets(datasets) && forall a | 0 <= a < |datasets| :: Mapped(datasets[a].rows) && Splits(datasets[a])
    requires SlotsOf(chunks) == Plan(datasets) && PlannedSo(chunks, run, Manifest(datasets), clock)
    requires i < |datasets| && j < |Chunks(datasets[i])|
    ensures |chunks| == Total(datasets) && Total(datasets[..i]) + j < |chunks|
    ensures ChunkSays(chunks, Total(datasets[..i]) + j, datasets[i], j, run, clock, datasets)
  {
    PlanHoldsEveryChunk(datasets, i, j);
    var k := Total(datasets[..i]) + j;
    assert SlotsOf(chunks)[k] == chunks[k].slot;
    SlotsMapped(datasets[i], j);
    BodyReadsBack(chunks[k].envelope, run, datasets, chunks[k].slot, clock(k));
  }

  // Chunk k says that it is number j of the dataset's chunks.
  ghost predicate ChunkSays(chunks: seq<Chunk>, k: nat, d: Dataset, j: nat, run: Run, clock: nat -> Text, datasets: seq<Dataset>)
    requires k < |chunks| && j < |Chunks(d)|
  {
    BodySays(chunks[k].body, run, clock(k), datasets, Slot(d.key, j, |Chunks(d)|, |d.rows|, Chunks(d)[j]))
  }
}
