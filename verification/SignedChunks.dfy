// Splitting the rows of a signed delivery into chunks under a row bound and a byte bound.
module SignedChunks {
  import opened Wrappers
  import opened Lexicographic
  import opened JsonValues
  import opened CanonicalJson

  const ROWS_PER_CHUNK := 500
  const ROW_CHUNK_BYTES := 409600

  datatype SplitError = RowTooLarge

  // Bytes of a text in UTF-8; a surrogate on its own is written as the replacement character.
  function Utf8Length(t: Text): nat {
    if t == [] then 0
    else if |t| > 1 && High(t[0]) && Low(t[1]) then 4 + Utf8Length(t[2..])
    else (if t[0] < 0x80 then 1 else if t[0] < 0x800 then 2 else 3) + Utf8Length(t[1..])
  }

  function TextBytes(v: Value): nat {
    if Serialize(v).Some? then Utf8Length(Serialize(v).value) else 0
  }

  function Bytes(rows: seq<Value>): nat { TextBytes(Arr(rows)) }

  predicate Fits(rows: seq<Value>) { |rows| <= ROWS_PER_CHUNK && Bytes(rows) <= ROW_CHUNK_BYTES }

  // Rows come from mappers that produce objects of texts, flags, nulls and finite numbers only.
  ghost predicate Mapped(rows: seq<Value>) {
    forall i | 0 <= i < |rows| :: WellFormed(rows[i]) && Printable(rows[i])
  }

  // splitBoundedRows_ with the chunk read so far.
  function SplitFrom(current: seq<Value>, rest: seq<Value>): Result<seq<seq<Value>>, SplitError>
    decreases |rest|
  {
    if rest == [] then Ok(if current == [] then [] else [current]) else
    var candidate := current + [rest[0]];
    if current != [] && !Fits(candidate) then
      if Bytes([rest[0]]) > ROW_CHUNK_BYTES then Err(RowTooLarge) else
      var later := SplitFrom([rest[0]], rest[1..]);
      if later.Err? then later else Ok([current] + later.value)
    else if Bytes(candidate) > ROW_CHUNK_BYTES then Err(RowTooLarge)
    else SplitFrom(candidate, rest[1..])
  }

  function Continue(chunks: seq<seq<Value>>, r: Result<seq<seq<Value>>, SplitError>): Result<seq<seq<Value>>, SplitError> {
    if r.Ok? then Ok(chunks + r.value) else r
  }

  lemma {:induction false} ContinueTwice(a: seq<seq<Value>>, b: seq<seq<Value>>, r: Result<seq<seq<Value>>, SplitError>)
    ensures Continue(a, Continue(b, r)) == Continue(a + b, r) && Continue([], r) == r
  {
    if r.Ok? { assert a + (b + r.value) == (a + b) + r.value && [] + r.value == r.value; }
  }

  method SplitBoundedRows(rows: seq<Value>) returns (r: Result<seq<seq<Value>>, SplitError>)
    ensures r == SplitFrom([], rows)
  {
    if |rows| == 0 { return Ok([]); }
    var chunks: seq<seq<Value>> := [];
    var current: seq<Value> := [];
    ContinueTwice([], [], SplitFrom([], rows));
    for i := 0 to |rows|
      invariant Continue(chunks, SplitFrom(current, rows[i..])) == SplitFrom([], rows)
      invariant i > 0 ==> current != []
    {
      var row := rows[i];
      assert rows[i..][0] == row && rows[i..][1..] == rows[i + 1..];
      var candidate := current + [row];
      var candidateBytes := Bytes(candidate);
      if |current| > 0 && (|candidate| > ROWS_PER_CHUNK || candidateBytes > ROW_CHUNK_BYTES) {
        ContinueTwice(chunks, [current], SplitFrom([row], rows[i + 1..]));
        chunks := chunks + [current];
        current := [row];
      } else {
        current := candidate;
      }
      if Bytes(current) > ROW_CHUNK_BYTES { return Err(RowTooLarge); }
    }
    if |current| > 0 { chunks := chunks + [current]; }
    r := Ok(chunks);
  }

  // Sizes -----------------------------------------------------------------------------------------

  lemma {:induction false} Utf8Adds(a: Text, b: Text)
    requires b == [] || !Low(b[0])
    ensures Utf8Length(a + b) == Utf8Length(a) + Utf8Length(b)
    decreases |a|
  {
    if a == [] {
      assert a + b == b;
    } else if |a| > 1 && High(a[0]) && Low(a[1]) {
      assert (a + b)[2..] == a[2..] + b;
      Utf8Adds(a[2..], b);
    } else {
      assert (a + b)[1..] == a[1..] + b;
      Utf8Adds(a[1..], b);
    }
  }

  lemma {:induction false} TextStart(v: Value)
    requires WellFormed(v) && Printable(v)
    ensures Serialize(v).Some? && Serialize(v).value != [] && !Low(Serialize(v).value[0])
  {
    SerializeExactlyPrintable(v);
  }

  // The bytes of the rows with a comma after each.
  function Weight(rows: seq<Value>): nat {
    if rows == [] then 0 else TextBytes(rows[0]) + 1 + Weight(rows[1..])
  }

  lemma {:induction false} WeightAdds(a: seq<Value>, b: seq<Value>)
    ensures Weight(a + b) == Weight(a) + Weight(b)
  {
    if a == [] {
      assert a + b == b;
    } else {
      assert (a + b)[1..] == a[1..] + b;
      WeightAdds(a[1..], b);
    }
  }

  lemma {:induction false} ItemsStart(rows: seq<Value>)
    requires Mapped(rows) && rows != []
    ensures SerializeItems(rows).Some? ==> var parts := SerializeItems(rows).value;
      parts != [] && parts[0] == Serialize(rows[0]).value && parts[0] != [] && !Low(parts[0][0])
      && SerializeItems(rows[1..]) == Some(parts[1..])
  {
    TextStart(rows[0]);
  }

  // The rest of a list's text after its first part.
  lemma {:induction false} JoinBytesStep(parts: seq<Text>)
    requires parts != [] && (|parts| > 1 ==> Join(parts[1..]) != [] && !Low(Join(parts[1..])[0]))
    ensures Utf8Length(Join(parts) + [93]) ==
      Utf8Length(parts[0]) + 1 + (if |parts| == 1 then 0 else Utf8Length(Join(parts[1..]) + [93]))
  {
    var after := if |parts| == 1 then [93] else [COMMA] + (Join(parts[1..]) + [93]);
    assert Join(parts) + [93] == parts[0] + after;
    Utf8Adds(parts[0], after);
    if |parts| > 1 { Utf8Adds([COMMA], Join(parts[1..]) + [93]); }
  }

  lemma {:induction false} JoinedBytes(rows: seq<Value>)
    requires Mapped(rows)
    ensures SerializeItems(rows).Some? && |SerializeItems(rows).value| == |rows|
    ensures rows != [] ==> Join(SerializeItems(rows).value) != [] && !Low(Join(SerializeItems(rows).value)[0])
    ensures Utf8Length(Join(SerializeItems(rows).value) + [93]) == if rows == [] then 1 else Weight(rows)
  {
    if rows != [] {
      TextStart(rows[0]);
      JoinedBytes(rows[1..]);
      ItemsStart(rows);
      JoinBytesStep(SerializeItems(rows).value);
    }
  }

  // The bytes of a chunk are those of its rows, the commas between them and two brackets.
  lemma {:induction false} BytesAre(rows: seq<Value>)
    requires Mapped(rows)
    ensures Bytes(rows) == if rows == [] then 2 else 1 + Weight(rows)
  {
    JoinedBytes(rows);
    var text := Join(SerializeItems(rows).value) + [93];
    Utf8Adds([91], text);
  }

  lemma {:induction false} PartFits(a: seq<Value>, b: seq<Value>, c: seq<Value>)
    requires Mapped(a + b + c) && Fits(a + b + c) && b != []
    ensures Mapped(b) && Fits(b)
  {
    assert forall i | 0 <= i < |b| :: b[i] == (a + b + c)[|a| + i];
    BytesAre(a + b + c);
    BytesAre(b);
    WeightAdds(a + b, c);
    WeightAdds(a, b);
  }

  // Splits ----------------------------------------------------------------------------------------

  function Concat(chunks: seq<seq<Value>>): seq<Value> {
    if chunks == [] then [] else chunks[0] + Concat(chunks[1..])
  }

  // Non-empty chunks within both bounds that together are the rows in order.
  ghost predicate IsSplit(chunks: seq<seq<Value>>, rows: seq<Value>) {
    Concat(chunks) == rows && forall i | 0 <= i < |chunks| :: chunks[i] != [] && Fits(chunks[i])
  }

  lemma {:induction false} SplitIsSplit(current: seq<Value>, rest: seq<Value>)
    requires SplitFrom(current, rest).Ok? && (current != [] ==> Fits(current))
    ensures IsSplit(SplitFrom(current, rest).value, current + rest)
    decreases |rest|
  {
    if rest == [] {
      if current != [] { assert Concat([current]) == current + Concat([]); }
      assert current + rest == current;
    } else {
      var candidate := current + [rest[0]];
      if current != [] && !Fits(candidate) {
        SplitIsSplit([rest[0]], rest[1..]);
        assert [rest[0]] + rest[1..] == rest;
      } else {
        SplitIsSplit(candidate, rest[1..]);
        assert candidate + rest[1..] == current + rest;
      }
    }
  }

  lemma {:induction false} MappedParts(a: seq<Value>, b: seq<Value>)
    ensures Mapped(a + b) <==> Mapped(a) && Mapped(b)
  {
    if Mapped(a + b) {
      assert forall i | 0 <= i < |a| :: a[i] == (a + b)[i];
      assert forall i | 0 <= i < |b| :: b[i] == (a + b)[|a| + i];
    }
  }

  lemma {:induction false} SplitFailsExactly(current: seq<Value>, rest: seq<Value>)
    requires Mapped(current) && Mapped(rest) && (current != [] ==> Fits(current))
    ensures SplitFrom(current, rest).Err? <==> exists i | 0 <= i < |rest| :: Bytes([rest[i]]) > ROW_CHUNK_BYTES
    decreases |rest|
  {
    if rest != [] {
      var candidate := current + [rest[0]];
      assert rest == [rest[0]] + rest[1..];
      MappedParts([rest[0]], rest[1..]);
      MappedParts(current, [rest[0]]);
      assert candidate + [] == candidate;
      if current != [] && !Fits(candidate) {
        if Bytes([rest[0]]) <= ROW_CHUNK_BYTES { SplitFailsExactly([rest[0]], rest[1..]); }
      } else if Bytes(candidate) <= ROW_CHUNK_BYTES {
        if current == [] { assert candidate == [rest[0]]; }
        SplitFailsExactly(candidate, rest[1..]);
        PartFits(current, [rest[0]], []);
      } else {
        assert current == [] && candidate == [rest[0]];
      }
    }
  }

  // Without its first n rows, a split is still a split of no more chunks; of fewer when the rows
  // taken away cover its first chunk.
  lemma {:induction false} DropFront(chunks: seq<seq<Value>>, rows: seq<Value>, n: nat) returns (later: seq<seq<Value>>)
    requires Mapped(rows) && IsSplit(chunks, rows) && n <= |rows|
    ensures IsSplit(later, rows[n..]) && |later| <= |chunks|
    ensures chunks != [] && n >= |chunks[0]| ==> |later| < |chunks|
    decreases |chunks|
  {
    if chunks == [] {
      later := [];
    } else {
      var first := chunks[0];
      var rest := Concat(chunks[1..]);
      assert rows == first + rest;
      MappedParts(first, rest);
      if n >= |first| {
        later := DropFront(chunks[1..], rest, n - |first|);
        assert rows[n..] == rest[n - |first|..];
      } else {
        later := [first[n..]] + chunks[1..];
        assert first[..n] + first[n..] + [] == first;
        PartFits(first[..n], first[n..], []);
        assert later[1..] == chunks[1..] && rows[n..] == first[n..] + rest;
      }
    }
  }

  // Main result: no split within the bounds has fewer chunks than the one the code makes.
  lemma {:induction false} SplitIsSmallest(current: seq<Value>, rest: seq<Value>, other: seq<seq<Value>>)
    requires Mapped(current + rest) && SplitFrom(current, rest).Ok? && (current != [] ==> Fits(current))
    requires IsSplit(other, current + rest)
    ensures |SplitFrom(current, rest).value| <= |other|
    decreases |rest|
  {
    if rest == [] {
      if current != [] { assert other != []; }
    } else {
      var candidate := current + [rest[0]];
      assert candidate + rest[1..] == current + rest && [rest[0]] + rest[1..] == rest;
      if current != [] && !Fits(candidate) {
        FirstChunkEnds(current, rest, other);
        var later := DropFront(other, current + rest, |current|);
        assert (current + rest)[|current|..] == rest;
        MappedParts(current, rest);
        SplitIsSmallest([rest[0]], rest[1..], later);
      } else {
        SplitIsSmallest(candidate, rest[1..], other);
      }
    }
  }

  lemma {:induction false} FirstChunkEnds(current: seq<Value>, rest: seq<Value>, other: seq<seq<Value>>)
    requires Mapped(current + rest) && rest != [] && !Fits(current + [rest[0]]) && IsSplit(other, current + rest)
    ensures other != [] && |other[0]| <= |current|
  {
    assert other != [];
    var first := other[0];
    if |first| > |current| {
      var candidate := current + [rest[0]];
      var rows := current + rest;
      assert rows == first + Concat(other[1..]);
      MappedParts(first, Concat(other[1..]));
      assert candidate == rows[..|current| + 1] == first[..|current| + 1];
      assert [] + candidate + first[|current| + 1..] == first;
      PartFits([], candidate, first[|current| + 1..]);
    }
  }

  lemma {:induction false} FirstChunkStarts(current: seq<Value>, rest: seq<Value>)
    requires current != [] && SplitFrom(current, rest).Ok?
    ensures SplitFrom(current, rest).value != [] && current <= SplitFrom(current, rest).value[0]
    decreases |rest|
  {
    if rest != [] && Fits(current + [rest[0]]) { FirstChunkStarts(current + [rest[0]], rest[1..]); }
  }

  predicate Overfull(rows: seq<Value>) { |rows| > 500 || Bytes(rows) > 409600 }

  // Each chunk but the last is full: with the next row it would break a bound. Together with SplitIsSplit
  // this says which split is made.
  lemma {:induction false} ChunksAreFull(current: seq<Value>, rest: seq<Value>, j: nat)
    requires SplitFrom(current, rest).Ok? && j + 1 < |SplitFrom(current, rest).value|
    ensures var chunks := SplitFrom(current, rest).value;
      chunks[j + 1] != [] && Overfull(chunks[j] + [chunks[j + 1][0]])
    decreases |rest|
  {
    var candidate := current + [rest[0]];
    if current != [] && !Fits(candidate) {
      FirstChunkStarts([rest[0]], rest[1..]);
      if j > 0 { ChunksAreFull([rest[0]], rest[1..], j - 1); }
    } else {
      ChunksAreFull(candidate, rest[1..], j);
    }
  }

  // The manifest of a run -------------------------------------------------------------------------

  const CHUNKS_PER_RUN := 64
  const BODY_BYTES := 524288

  datatype Dataset = Dataset(key: Text, rows: seq<Value>)

  // The n-th of `count` chunks of one dataset.
  datatype Slot = Slot(key: Text, index: nat, count: nat, totalRows: nat, rows: seq<Value>)

  datatype Chunk = Chunk(slot: Slot, envelope: Value, body: Text)

  datatype PlanError = OneRowTooLarge | TooManyChunks | BodyTooLarge

  // Who delivers: the configured identity that every envelope repeats.
  datatype Identity = Identity(managerCustomerId: Text, customerId: Text, customerKey: Text, accountKey: Text, sourceTimezone: Text)

  datatype Run = Run(runId: Text, mode: Text, runStartedAt: Text, identity: Identity)

  // Decimal numerals.
  function Decimal(n: nat): (t: Text)
    ensures t != [] && forall i | 0 <= i < |t| :: 48 <= t[i] <= 57
  {
    if n < 10 then [48 + n] else Decimal(n / 10) + [48 + n % 10]
  }

  function Number(n: nat): Value { Num(Decimal(n)) }

  function Chunks(d: Dataset): seq<seq<Value>> {
    var r := SplitFrom([], d.rows);
    if r.Ok? then r.value else []
  }

  function Slots(d: Dataset, from: nat): seq<Slot>
    decreases |Chunks(d)| - from
  {
    if from >= |Chunks(d)| then []
    else [Slot(d.key, from, |Chunks(d)|, |d.rows|, Chunks(d)[from])] + Slots(d, from + 1)
  }

  // All chunks of a run in order: dataset by dataset, each from index 0.
  function Plan(datasets: seq<Dataset>): seq<Slot> {
    if datasets == [] then [] else Slots(datasets[0], 0) + Plan(datasets[1..])
  }

  function Total(datasets: seq<Dataset>): nat {
    if datasets == [] then 0 else |Chunks(datasets[0])| + Total(datasets[1..])
  }

  function Manifest(datasets: seq<Dataset>): seq<Entry<Value>> {
    if datasets == [] then [] else
    [ManifestEntry(datasets[0].key, |datasets[0].rows|, |Chunks(datasets[0])|)] + Manifest(datasets[1..])
  }

  function ManifestEntry(key: Text, totalRows: nat, chunkCount: nat): Entry<Value> {
    Entry(key, Obj([Entry(Ascii("totalRows"), Number(totalRows)), Entry(Ascii("chunkCount"), Number(chunkCount))]))
  }

  function DatasetMembers(slot: Slot): seq<Entry<Value>> {
    [Entry(Ascii("key"), Str(slot.key)), Entry(Ascii("chunkIndex"), Number(slot.index)),
     Entry(Ascii("chunkCount"), Number(slot.count)), Entry(Ascii("totalRows"), Number(slot.totalRows)),
     Entry(Ascii("rows"), Arr(slot.rows))]
  }

  function EnvelopeMembers(run: Run, manifest: seq<Entry<Value>>, slot: Slot, fetchedAt: Text): seq<Entry<Value>> {
    [Entry(Ascii("schemaVersion"), Str(Ascii("google_ads_manager_script_signed_delivery_v1"))),
     Entry(Ascii("runId"), Str(run.runId)), Entry(Ascii("mode"), Str(run.mode)),
     Entry(Ascii("runStartedAt"), Str(run.runStartedAt)), Entry(Ascii("fetchedAt"), Str(fetchedAt)),
     Entry(Ascii("managerCustomerId"), Str(run.identity.managerCustomerId)),
     Entry(Ascii("customerId"), Str(run.identity.customerId)), Entry(Ascii("customerKey"), Str(run.identity.customerKey)),
     Entry(Ascii("accountKey"), Str(run.identity.accountKey)),
     Entry(Ascii("sourceTimezone"), Str(run.identity.sourceTimezone)),
     Entry(Ascii("manifest"), Obj(manifest)), Entry(Ascii("dataset"), Obj(DatasetMembers(slot)))]
  }

  function Envelope(run: Run, manifest: seq<Entry<Value>>, slot: Slot, fetchedAt: Text): Value {
    Obj(EnvelopeMembers(run, manifest, slot, fetchedAt))
  }

  // The body that is signed; None stands for the thrown error when it is over the limit or not JSON.
  function Body(envelope: Value): Option<Text> {
    var text := Serialize(envelope);
    if text.Some? && Utf8Length(text.value) <= BODY_BYTES then text else None
  }

  function MakeChunk(run: Run, manifest: seq<Entry<Value>>, slot: Slot, fetchedAt: Text): (r: Option<Chunk>)
    ensures r.Some? ==> r.value.slot == slot
  {
    var envelope := Envelope(run, manifest, slot, fetchedAt);
    var body := Body(envelope);
    if body.None? then None else Some(Chunk(slot, envelope, body.value))
  }

  predicate Splits(d: Dataset) { SplitFrom([], d.rows).Ok? }

  ghost predicate AllSplit(datasets: seq<Dataset>) { forall i | 0 <= i < |datasets| :: Splits(datasets[i]) }

  ghost predicate ChunkRowsOf(datasets: seq<Dataset>, chunkRows: seq<seq<seq<Value>>>) {
    |chunkRows| <= |datasets| && forall j | 0 <= j < |chunkRows| :: Splits(datasets[j]) && chunkRows[j] == Chunks(datasets[j])
  }

  lemma {:induction false} PassSteps(datasets: seq<Dataset>, i: nat)
    requires i < |datasets|
    ensures Manifest(datasets[i..])
      == [ManifestEntry(datasets[i].key, |datasets[i].rows|, |Chunks(datasets[i])|)] + Manifest(datasets[i + 1..])
    ensures Total(datasets[i..]) == |Chunks(datasets[i])| + Total(datasets[i + 1..])
  {
    assert datasets[i..][1..] == datasets[i + 1..];
  }

  predicate Refused(run: Run, manifest: seq<Entry<Value>>, slot: Slot, fetchedAt: Text) {
    MakeChunk(run, manifest, slot, fetchedAt).None?
  }

  // The first pass: every dataset is split and counted.
  method SplitDatasets(datasets: seq<Dataset>)
    returns (ok: bool, chunkRows: seq<seq<seq<Value>>>, manifest: seq<Entry<Value>>, totalChunks: nat)
    ensures ok <==> AllSplit(datasets)
    ensures ok ==> |chunkRows| == |datasets| && ChunkRowsOf(datasets, chunkRows)
    ensures ok ==> manifest == Manifest(datasets) && totalChunks == Total(datasets)
  {
    chunkRows, manifest, totalChunks := [], [], 0;
    var i := 0;
    assert datasets[0..] == datasets;
    while i < |datasets|
      invariant 0 <= i <= |datasets| && |chunkRows| == i && ChunkRowsOf(datasets, chunkRows)
      invariant manifest + Manifest(datasets[i..]) == Manifest(datasets)
      invariant totalChunks + Total(datasets[i..]) == Total(datasets)
    {
      PassSteps(datasets, i);
      var split := SplitBoundedRows(datasets[i].rows);
      if split.Err? {
        assert !Splits(datasets[i]);
        return false, [], [], 0;
      }
      ghost var more := Manifest(datasets[i + 1..]);
      var entry := ManifestEntry(datasets[i].key, |datasets[i].rows|, |split.value|);
      assert manifest + ([entry] + more) == (manifest + [entry]) + more;
      chunkRows := chunkRows + [split.value];
      manifest := manifest + [entry];
      totalChunks := totalChunks + |split.value|;
      i := i + 1;
    }
    ok := true;
  }

  // The chunks of one dataset, after those planned so far.
  method AppendChunks(d: Dataset, groups: seq<seq<Value>>, run: Run, manifest: seq<Entry<Value>>, clock: nat -> Text,
                      planned: seq<Chunk>) returns (ok: bool, chunks: seq<Chunk>, ghost at: nat, ghost slot: Slot)
    requires groups == Chunks(d) && PlannedSo(planned, run, manifest, clock)
    ensures ok ==> PlannedSo(chunks, run, manifest, clock) && SlotsOf(chunks) == SlotsOf(planned) + Slots(d, 0)
    ensures !ok ==> |planned| <= at < |planned| + |Slots(d, 0)| && slot == Slots(d, 0)[at - |planned|]
    ensures !ok ==> Refused(run, manifest, slot, clock(at))
  {
    chunks, at, slot := planned, 0, Slot([], 0, 0, 0, []);
    var index := 0;
    assert SlotsOf(planned) + [] == SlotsOf(planned) && [] + Slots(d, 0) == Slots(d, 0);
    ghost var done: seq<Slot> := [];
    while index < |groups|
      invariant 0 <= index <= |groups| && |done| == index && |chunks| == |planned| + index
      invariant PlannedSo(chunks, run, manifest, clock)
      invariant SlotsOf(chunks) == SlotsOf(planned) + done && done + Slots(d, index) == Slots(d, 0)
    {
      var next := Slot(d.key, index, |groups|, |d.rows|, groups[index]);
      NextSlot(done, next, Slots(d, index + 1), Slots(d, 0));
      var chunk := MakeChunk(run, manifest, next, clock(|chunks|));
      if chunk.None? { return false, [], |chunks|, next; }
      AppendPlanned(chunks, chunk.value, run, manifest, clock);
      chunks := chunks + [chunk.value];
      done := done + [next];
      index := index + 1;
    }
    assert done + [] == done;
    ok := true;
  }

  // `clock` gives the time stamp of each chunk in order.
  method PlanSignedChunks(datasets: seq<Dataset>, run: Run, clock: nat -> Text) returns (r: Result<seq<Chunk>, PlanError>)
    ensures r == Err(OneRowTooLarge) <==> !AllSplit(datasets)
    ensures r == Err(TooManyChunks) <==> AllSplit(datasets) && Total(datasets) > 64
    ensures r == Err(BodyTooLarge) <==>
      AllSplit(datasets) && Total(datasets) <= 64 && !AllBodiesFit(datasets, run, Manifest(datasets), clock)
    ensures r.Ok? ==> Total(datasets) <= CHUNKS_PER_RUN && SlotsOf(r.value) == Plan(datasets)
    ensures r.Ok? ==> PlannedSo(r.value, run, Manifest(datasets), clock)
  {
    var ok, chunkRows, manifest, totalChunks := SplitDatasets(datasets);
    if !ok { return Err(OneRowTooLarge); }
    if totalChunks > CHUNKS_PER_RUN { return Err(TooManyChunks); }
    r := EmitChunks(datasets, chunkRows, run, manifest, clock);
  }

  // The second pass: every chunk gets its envelope and body.
  method EmitChunks(datasets: seq<Dataset>, chunkRows: seq<seq<seq<Value>>>, run: Run, manifest: seq<Entry<Value>>,
                    clock: nat -> Text) returns (r: Result<seq<Chunk>, PlanError>)
    requires |chunkRows| == |datasets| && ChunkRowsOf(datasets, chunkRows)
    ensures r.Err? ==> r.error == BodyTooLarge
    ensures r.Err? <==> !AllBodiesFit(datasets, run, manifest, clock)
    ensures r.Ok? ==> SlotsOf(r.value) == Plan(datasets) && PlannedSo(r.value, run, manifest, clock)
  {
    var chunks: seq<Chunk> := [];
    var i := 0;
    EmitStart(datasets, run, manifest, clock);
    while i < |datasets|
      invariant 0 <= i <= |datasets| && Emitted(datasets, i, chunks, run, manifest, clock)
    {
      var ok, more, at, slot := AppendChunks(datasets[i], chunkRows[i], run, manifest, clock, chunks);
      if !ok {
        EmitRefused(datasets, i, chunks, run, manifest, clock, at, slot);
        return Err(BodyTooLarge);
      }
      EmitStep(datasets, i, chunks, more, run, manifest, clock);
      chunks := more;
      i := i + 1;
    }
    EmitEnds(datasets, chunks, run, manifest, clock);
    r := Ok(chunks);
  }

  // The chunks of the first i datasets are emitted.
  ghost predicate Emitted(datasets: seq<Dataset>, i: nat, chunks: seq<Chunk>, run: Run, manifest: seq<Entry<Value>>, clock: nat -> Text)
    requires i <= |datasets|
  {
    PlannedSo(chunks, run, manifest, clock) && SlotsOf(chunks) + Plan(datasets[i..]) == Plan(datasets)
  }

  lemma {:induction false} EmitStart(datasets: seq<Dataset>, run: Run, manifest: seq<Entry<Value>>, clock: nat -> Text)
    ensures Emitted(datasets, 0, [], run, manifest, clock)
  {
    assert datasets[0..] == datasets && SlotsOf([]) + Plan(datasets) == Plan(datasets);
  }

  lemma {:induction false} EmitStep(datasets: seq<Dataset>, i: nat, chunks: seq<Chunk>, more: seq<Chunk>,
                                    run: Run, manifest: seq<Entry<Value>>, clock: nat -> Text)
    requires i < |datasets| && Emitted(datasets, i, chunks, run, manifest, clock)
    requires PlannedSo(more, run, manifest, clock) && SlotsOf(more) == SlotsOf(chunks) + Slots(datasets[i], 0)
    ensures Emitted(datasets, i + 1, more, run, manifest, clock)
  {
    PlanSteps(datasets, i);
    var here, later := Slots(datasets[i], 0), Plan(datasets[i + 1..]);
    assert SlotsOf(chunks) + (here + later) == (SlotsOf(chunks) + here) + later;
  }

  lemma {:induction false} EmitRefused(datasets: seq<Dataset>, i: nat, chunks: seq<Chunk>,
                                       run: Run, manifest: seq<Entry<Value>>, clock: nat -> Text, at: nat, slot: Slot)
    requires i < |datasets| && Emitted(datasets, i, chunks, run, manifest, clock)
    requires |chunks| <= at < |chunks| + |Slots(datasets[i], 0)| && slot == Slots(datasets[i], 0)[at - |chunks|]
    requires Refused(run, manifest, slot, clock(at))
    ensures !AllBodiesFit(datasets, run, manifest, clock)
  {
    PlanSteps(datasets, i);
    var here, later := Slots(datasets[i], 0), Plan(datasets[i + 1..]);
    assert Plan(datasets) == SlotsOf(chunks) + (here + later);
    assert (SlotsOf(chunks) + (here + later))[at] == here[at - |chunks|];
    assert !BodyFits(datasets, run, manifest, clock, at);
  }

  lemma {:induction false} EmitEnds(datasets: seq<Dataset>, chunks: seq<Chunk>, run: Run, manifest: seq<Entry<Value>>, clock: nat -> Text)
    requires Emitted(datasets, |datasets|, chunks, run, manifest, clock)
    ensures SlotsOf(chunks) == Plan(datasets) && AllBodiesFit(datasets, run, manifest, clock)
  {
    PlanSteps(datasets, |datasets|);
    assert SlotsOf(chunks) + [] == SlotsOf(chunks);
    PlannedFit(datasets, chunks, run, manifest, clock);
  }

  lemma {:induction false} PlannedFit(datasets: seq<Dataset>, chunks: seq<Chunk>, run: Run, manifest: seq<Entry<Value>>, clock: nat -> Text)
    requires SlotsOf(chunks) == Plan(datasets) && PlannedSo(chunks, run, manifest, clock)
    ensures AllBodiesFit(datasets, run, manifest, clock)
  {
    forall k: nat ensures BodyFits(datasets, run, manifest, clock, k) {
      if k < |Plan(datasets)| { assert Plan(datasets)[k] == chunks[k].slot; }
    }
  }

  lemma {:induction false} PlanSteps(datasets: seq<Dataset>, i: nat)
    requires i <= |datasets|
    ensures datasets[0..] == datasets
    ensures Plan(datasets[i..]) == if i == |datasets| then [] else Slots(datasets[i], 0) + Plan(datasets[i + 1..])
  {
    if i < |datasets| { assert datasets[i..][1..] == datasets[i + 1..]; }
  }

  lemma {:induction false} NextSlot(done: seq<Slot>, slot: Slot, more: seq<Slot>, all: seq<Slot>)
    requires done + ([slot] + more) == all
    ensures |done| < |all| && all[|done|] == slot && (done + [slot]) + more == all
  {}

  // Body limits are met by every chunk of the run.
  predicate BodyFits(datasets: seq<Dataset>, run: Run, manifest: seq<Entry<Value>>, clock: nat -> Text, k: nat) {
    k < |Plan(datasets)| ==> !Refused(run, manifest, Plan(datasets)[k], clock(k))
  }

  ghost predicate AllBodiesFit(datasets: seq<Dataset>, run: Run, manifest: seq<Entry<Value>>, clock: nat -> Text) {
    forall k: nat :: BodyFits(datasets, run, manifest, clock, k)
  }

  function SlotsOf(chunks: seq<Chunk>): (r: seq<Slot>)
    ensures |r| == |chunks|
  {
    seq(|chunks|, i requires 0 <= i < |chunks| => chunks[i].slot)
  }

  ghost predicate PlannedSo(chunks: seq<Chunk>, run: Run, manifest: seq<Entry<Value>>, clock: nat -> Text) {
    forall k | 0 <= k < |chunks| :: MakeChunk(run, manifest, chunks[k].slot, clock(k)) == Some(chunks[k])
  }

  lemma {:induction false} AppendPlanned(chunks: seq<Chunk>, chunk: Chunk, run: Run, manifest: seq<Entry<Value>>, clock: nat -> Text)
    requires PlannedSo(chunks, run, manifest, clock)
    requires MakeChunk(run, manifest, chunk.slot, clock(|chunks|)) == Some(chunk)
    ensures PlannedSo(chunks + [chunk], run, manifest, clock)
    ensures SlotsOf(chunks + [chunk]) == SlotsOf(chunks) + [chunk.slot]
  {
    var longer := chunks + [chunk];
    forall k | 0 <= k < |longer| ensures MakeChunk(run, manifest, longer[k].slot, clock(k)) == Some(longer[k]) {
      if k < |chunks| { assert longer[k] == chunks[k]; }
    }
  }

  // The n-th chunk of a dataset carries its rows, and the chunks of a dataset carry all of them.
  lemma {:induction false} SlotsCarryRows(d: Dataset, from: nat, k: nat)
    requires from + k < |Chunks(d)|
    ensures |Slots(d, from)| == |Chunks(d)| - from
    ensures Slots(d, from)[k] == Slot(d.key, from + k, |Chunks(d)|, |d.rows|, Chunks(d)[from + k])
    decreases |Chunks(d)| - from
  {
    if from + 1 < |Chunks(d)| { SlotsCarryRows(d, from + 1, if k > 0 then k - 1 else 0); }
  }

  // Main result: a run refused for too many chunks has no split of its datasets within the run bound.
  lemma {:induction false} RefusedRunsAreTooLarge(datasets: seq<Dataset>, splits: seq<seq<seq<Value>>>)
    requires |splits| == |datasets|
    requires forall i | 0 <= i < |datasets| ::
      Mapped(datasets[i].rows) && Splits(datasets[i]) && IsSplit(splits[i], datasets[i].rows)
    ensures Total(datasets) <= CountAll(splits)
  {
    if datasets != [] {
      var d := datasets[0];
      assert [] + d.rows == d.rows;
      SplitIsSmallest([], d.rows, splits[0]);
      RefusedRunsAreTooLarge(datasets[1..], splits[1..]);
    }
  }

  function CountAll(splits: seq<seq<seq<Value>>>): nat {
    if splits == [] then 0 else |splits[0]| + CountAll(splits[1..])
  }
}
