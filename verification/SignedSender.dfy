// Sending the planned chunks against any network: retries, idempotency keys and what a normal end of
// a run means.
module SignedSender {
  import opened Wrappers
  import opened Lexicographic
  import opened JsonValues
  import opened CanonicalJson
  import opened SignedBodies
  import opened SignedChunks

  // One answer of the network: a status, or a thrown error whose message may say "permanently".
  datatype Response = Status(code: int) | Threw(permanently: bool)

  // One request as the receiver sees it.
  datatype Attempt = Attempt(key: Text, body: Text)

  datatype Failure = DeliveryDisabled | PlanFailed(error: PlanError) | StampTooLarge | NotDelivered

  datatype Summary = Summary(chunkCount: nat)

  const MAX_ATTEMPTS := 4

  predicate Accepted(r: Response) { r.Status? && 200 <= r.code < 300 }

  predicate Retryable(r: Response) {
    match r
    case Status(code) => code == 429 || code >= 500
    case Threw(permanently) => !permanently
  }

  // Every status is accepted, retried or final: those of the 200s, 429 with the 500s and above, and the rest.
  lemma {:induction false} StatusRules(code: int)
    ensures Accepted(Status(code)) <==> code / 100 == 2
    ensures Retryable(Status(code)) <==> code / 100 >= 5 || (code / 100 == 4 && code % 100 == 29)
    ensures Retryable(Threw(false)) && !Retryable(Threw(true)) && !Accepted(Threw(false)) && !Accepted(Threw(true))
  {}

  function IdempotencyKey(runId: Text, slot: Slot): Text {
    Ascii("google-ads") + ([COLON] + (runId + ([COLON] + (slot.key + ([COLON] + Decimal(slot.index))))))
  }

  // The fields a chunk is stamped from: its body is serialized again with the time of sending.
  function Stamp(run: Run, manifest: seq<Entry<Value>>, slot: Slot, fetchedAt: Text): Option<Attempt> {
    var body := Body(Envelope(run, manifest, slot, fetchedAt));
    if body.None? then None else Some(Attempt(IdempotencyKey(run.runId, slot), body.value))
  }

  function Repeat(a: Attempt, n: nat): (r: seq<Attempt>)
    ensures |r| == n && forall i | 0 <= i < n :: r[i] == a
  {
    seq(n, i => a)
  }

  // The requests of a run that tried chunk k `tries[k]` times.
  function Requests(stamped: seq<Attempt>, tries: seq<nat>): seq<Attempt>
    requires |tries| == |stamped|
  {
    if tries == [] then []
    else Requests(stamped[..|stamped| - 1], tries[..|tries| - 1]) + Repeat(stamped[|stamped| - 1], tries[|tries| - 1])
  }

  // How a chunk's tries went, from the given point of the network's answers on.
  ghost predicate Went(network: nat -> Response, from: nat, tries: nat, delivered: bool) {
    && 1 <= tries <= MAX_ATTEMPTS
    && (forall i: nat | from <= i < from + tries - 1 :: Retryable(network(i)))
    && (delivered <==> Accepted(network(from + tries - 1)))
    && (!delivered ==> Retryable(network(from + tries - 1)) ==> tries == MAX_ATTEMPTS)
  }

  // How a run stamps its chunks; sending does not depend on more than what it gives.
  type Stamper = (Slot, Text) -> Option<Attempt>

  function StamperOf(run: Run, manifest: seq<Entry<Value>>): Stamper {
    (slot: Slot, fetchedAt: Text) => Stamp(run, manifest, slot, fetchedAt)
  }

  // The first chunks of the plan, each stamped with its time of sending.
  ghost predicate StampedFrom(plan: seq<Slot>, stamp: Stamper, clock: nat -> Text, stamped: seq<Attempt>) {
    |stamped| <= |plan| && forall k | 0 <= k < |stamped| :: stamp(plan[k], clock(k)) == Some(stamped[k])
  }

  class Sender {
    // Requests made so far, and the chunks the network acknowledged, in order.
    var log: seq<Attempt>
    var acknowledged: seq<Slot>

    constructor ()
      ensures log == [] && acknowledged == []
    {
      log, acknowledged := [], [];
    }

    // The log holds each stamped chunk as often as it was tried.
    ghost predicate AskedSoFar(stamped: seq<Attempt>, tries: seq<nat>)
      reads this
    {
      |tries| == |stamped| && log == Requests(stamped, tries) && forall k | 0 <= k < |tries| :: 1 <= tries[k] <= MAX_ATTEMPTS
    }

    // The network answers request number |log| with network(|log|).
    method DeliverSignedChunk(chunk: Attempt, slot: Slot, network: nat -> Response) returns (delivered: bool, ghost tries: nat)
      modifies this
      ensures Went(network, old(|log|), tries, delivered)
      ensures log == old(log) + Repeat(chunk, tries)
      ensures acknowledged == if delivered then old(acknowledged) + [slot] else old(acknowledged)
    {
      tries := 0;
      var attempt := 0;
      while attempt <= 3
        invariant 0 <= attempt <= 4 && tries == attempt
        invariant log == old(log) + Repeat(chunk, attempt) && acknowledged == old(acknowledged)
        invariant |log| == old(|log|) + attempt
        invariant forall i: nat | old(|log|) <= i < |log| :: Retryable(network(i))
      {
        var response := network(|log|);
        assert Repeat(chunk, attempt + 1) == Repeat(chunk, attempt) + [chunk];
        log := log + [chunk];
        tries := tries + 1;
        match response {
          case Status(code) =>
            if 200 <= code < 300 {
              acknowledged := acknowledged + [slot];
              return true, tries;
            }
            if code != 429 && code < 500 { return false, tries; }
          case Threw(permanently) =>
            if permanently { return false, tries; }
        }
        attempt := attempt + 1;
      }
      delivered := false;
    }

    // One chunk more, with the requests so far being those of the chunks stamped so far.
    method SendNext(attempt: Attempt, slot: Slot, network: nat -> Response, ghost stamped: seq<Attempt>, ghost tries: seq<nat>)
      returns (delivered: bool, ghost more: seq<nat>)
      requires AskedSoFar(stamped, tries)
      modifies this
      ensures AskedSoFar(stamped + [attempt], more)
      ensures acknowledged == if delivered then old(acknowledged) + [slot] else old(acknowledged)
    {
      ghost var n;
      delivered, n := DeliverSignedChunk(attempt, slot, network);
      RequestsGrow(stamped, tries, attempt, n);
      more := tries + [n];
    }

    // The sending loop of main: stamps and sends chunk after chunk until one fails.
    method SendAll(slots: seq<Slot>, stamp: Stamper, clock: nat -> Text, network: nat -> Response)
      returns (failure: Option<Failure>, ghost stamped: seq<Attempt>, ghost tries: seq<nat>)
      requires log == [] && acknowledged == []
      modifies this
      ensures |tries| == |stamped| && log == Requests(stamped, tries) && StampedFrom(slots, stamp, clock, stamped)
      ensures forall k | 0 <= k < |tries| :: 1 <= tries[k] <= MAX_ATTEMPTS
      ensures acknowledged <= slots
      ensures |stamped| == if failure == Some(NotDelivered) then |acknowledged| + 1 else |acknowledged|
      ensures failure.None? ==> acknowledged == slots
      ensures failure.Some? ==> failure.value == NotDelivered || failure.value == StampTooLarge
      ensures failure == Some(StampTooLarge) ==>
        |acknowledged| < |slots| && stamp(slots[|acknowledged|], clock(|acknowledged|)).None?
    {
      stamped, tries := [], [];
      var i := 0;
      while i < |slots|
        invariant 0 <= i <= |slots| && |stamped| == i && acknowledged == slots[..i]
        invariant AskedSoFar(stamped, tries) && StampedFrom(slots, stamp, clock, stamped)
      {
        var attempt := stamp(slots[i], clock(i));
        if attempt.None? { return Some(StampTooLarge), stamped, tries; }
        var delivered;
        delivered, tries := SendNext(attempt.value, slots[i], network, stamped, tries);
        stamped := stamped + [attempt.value];
        if !delivered { return Some(NotDelivered), stamped, tries; }
        assert slots[..i + 1] == slots[..i] + [slots[i]];
        i := i + 1;
      }
      failure := None;
    }

    // `clock` stamps the chunks while planning, `sendClock` while sending.
    method RunDelivery(dryRun: bool, deliveryEnabled: bool, datasets: seq<Dataset>, run: Run,
                clock: nat -> Text, sendClock: nat -> Text, network: nat -> Response)
      returns (r: Result<Summary, Failure>, ghost stamped: seq<Attempt>, ghost tries: seq<nat>)
      requires log == [] && acknowledged == []
      modifies this
      ensures |tries| == |stamped| && log == Requests(stamped, tries)
      ensures StampedFrom(Plan(datasets), StamperOf(run, Manifest(datasets)), sendClock, stamped)
      ensures forall k | 0 <= k < |tries| :: 1 <= tries[k] <= MAX_ATTEMPTS
      ensures acknowledged <= Plan(datasets)
      ensures |stamped| == if r == Err(NotDelivered) then |acknowledged| + 1 else |acknowledged|
      ensures r.Ok? && !dryRun ==> deliveryEnabled && acknowledged == Plan(datasets) && Total(datasets) <= CHUNKS_PER_RUN
      ensures dryRun || !deliveryEnabled ==> log == []
      ensures r == Err(DeliveryDisabled) <==> !dryRun && !deliveryEnabled
      ensures r == Err(StampTooLarge) ==>
        |acknowledged| < |Plan(datasets)|
        && Stamp(run, Manifest(datasets), Plan(datasets)[|acknowledged|], sendClock(|acknowledged|)).None?
    {
      stamped, tries := [], [];
      if !dryRun && !deliveryEnabled { return Err(DeliveryDisabled), [], []; }
      var planned := PlanSignedChunks(datasets, run, clock);
      if planned.Err? { return Err(PlanFailed(planned.error)), [], []; }
      var slots := SlotsOf(planned.value);
      if dryRun { return Ok(Summary(|slots|)), [], []; }
      var failure;
      failure, stamped, tries := SendAll(slots, StamperOf(run, Manifest(datasets)), sendClock, network);
      r := if failure.Some? then Err(failure.value) else Ok(Summary(|slots|));
    }
  }

  lemma {:induction false} RequestsGrow(stamped: seq<Attempt>, tries: seq<nat>, a: Attempt, n: nat)
    requires |tries| == |stamped|
    ensures Requests(stamped + [a], tries + [n]) == Requests(stamped, tries) + Repeat(a, n)
  {
    assert (stamped + [a])[..|stamped|] == stamped && (tries + [n])[..|tries|] == tries;
  }

  // Keys --------------------------------------------------------------------------------------------

  lemma {:induction false} DecimalInjective(m: nat, n: nat)
    requires Decimal(m) == Decimal(n)
    ensures m == n
    decreases m
  {
    DecimalSplits(m);
    DecimalSplits(n);
    if m >= 10 { DecimalInjective(m / 10, n / 10); }
  }

  lemma {:induction false} DecimalSplits(n: nat)
    ensures var t := Decimal(n); var last := |t| - 1;
      t[last] == 48 + n % 10 && (last == 0 <==> n < 10) && (n >= 10 ==> t[..last] == Decimal(n / 10))
  {}

  // How much of a text follows its last colon.
  function TailLength(s: Text): nat {
    if s == [] || s[|s| - 1] == COLON then 0 else 1 + TailLength(s[..|s| - 1])
  }

  lemma {:induction false} TailAfterColon(a: Text, x: Text)
    requires forall i | 0 <= i < |x| :: x[i] != COLON
    ensures TailLength(a + ([COLON] + x)) == |x|
    decreases |x|
  {
    var s := a + ([COLON] + x);
    if x != [] {
      assert s[..|s| - 1] == a + ([COLON] + x[..|x| - 1]);
      TailAfterColon(a, x[..|x| - 1]);
    }
  }

  lemma {:induction false} SplitAtLastColon(a: Text, b: Text, x: Text, y: Text)
    requires a + ([COLON] + x) == b + ([COLON] + y)
    requires (forall i | 0 <= i < |x| :: x[i] != COLON) && (forall i | 0 <= i < |y| :: y[i] != COLON)
    ensures a == b && x == y
  {
    TailAfterColon(a, x);
    TailAfterColon(b, y);
    var s := a + ([COLON] + x);
    assert a == s[..|a|] && x == s[|a| + 1..];
    var t := b + ([COLON] + y);
    assert b == t[..|b|] && y == t[|b| + 1..];
  }

  // Chunks of one run with the same idempotency key are the same chunk of the same dataset.
  lemma {:induction false} KeysIdentifyChunks(runId: Text, a: Slot, b: Slot)
    requires IdempotencyKey(runId, a) == IdempotencyKey(runId, b)
    ensures a.key == b.key && a.index == b.index
  {
    var front := Ascii("google-ads") + ([COLON] + (runId + [COLON]));
    assert IdempotencyKey(runId, a) == (front + a.key) + ([COLON] + Decimal(a.index));
    assert IdempotencyKey(runId, b) == (front + b.key) + ([COLON] + Decimal(b.index));
    SplitAtLastColon(front + a.key, front + b.key, Decimal(a.index), Decimal(b.index));
    DecimalInjective(a.index, b.index);
    assert a.key == (front + a.key)[|front|..] && b.key == (front + b.key)[|front|..];
  }

  // The parts of a text between its colons.
  function Fields(t: Text): (r: seq<Text>)
    ensures r != []
  {
    if t == [] then [[]]
    else if t[0] == COLON then [[]] + Fields(t[1..])
    else [[t[0]] + Fields(t[1..])[0]] + Fields(t[1..])[1..]
  }

  lemma {:induction false} FieldsOf(a: Text, rest: Text)
    requires forall i | 0 <= i < |a| :: a[i] != COLON
    ensures Fields(a + ([COLON] + rest)) == [a] + Fields(rest)
  {
    var t := a + ([COLON] + rest);
    if a == [] {
      assert t == [COLON] + rest && t[1..] == rest;
    } else {
      assert t[1..] == a[1..] + ([COLON] + rest);
      FieldsOf(a[1..], rest);
      assert [a[0]] + a[1..] == a;
    }
  }

  lemma {:induction false} FieldAlone(a: Text)
    requires forall i | 0 <= i < |a| :: a[i] != COLON
    ensures Fields(a) == [a]
  {
    if a != [] {
      FieldAlone(a[1..]);
      assert [a[0]] + a[1..] == a;
    }
  }

  // Read by its colons, a key names the sender, the run, the dataset and the number of the chunk.
  lemma {:induction false} KeyReads(runId: Text, slot: Slot)
    requires (forall i | 0 <= i < |runId| :: runId[i] != COLON) && forall i | 0 <= i < |slot.key| :: slot.key[i] != COLON
    ensures var fields := Fields(IdempotencyKey(runId, slot));
      |fields| == 4 && fields[0] == Ascii("google-ads") && fields[1] == runId && fields[2] == slot.key
      && IsNumber(Num(fields[3]), slot.index)
  {
    var number := Decimal(slot.index);
    FieldsOf(Ascii("google-ads"), runId + ([COLON] + (slot.key + ([COLON] + number))));
    FieldsOf(runId, slot.key + ([COLON] + number));
    FieldsOf(slot.key, number);
    FieldAlone(number);
    NumbersRead(slot.index);
  }

  lemma {:induction false} SlotsAreNumbered(d: Dataset, from: nat, k: nat)
    requires k < |Slots(d, from)|
    ensures Slots(d, from)[k].key == d.key && Slots(d, from)[k].index == from + k
    decreases |Chunks(d)| - from
  {
    if k > 0 { SlotsAreNumbered(d, from + 1, k - 1); }
  }

  lemma {:induction false} PlanKeys(datasets: seq<Dataset>, k: nat)
    requires k < |Plan(datasets)|
    ensures exists i | 0 <= i < |datasets| :: Plan(datasets)[k].key == datasets[i].key
  {
    var here := Slots(datasets[0], 0);
    if k < |here| {
      SlotsAreNumbered(datasets[0], 0, k);
    } else {
      PlanKeys(datasets[1..], k - |here|);
      var i :| 0 <= i < |datasets[1..]| && Plan(datasets[1..])[k - |here|].key == datasets[1..][i].key;
      assert datasets[i + 1].key == Plan(datasets)[k].key;
    }
  }

  // Main result: with distinct dataset keys, different chunks of a run have different keys.
  lemma {:induction false} PlanKeysDiffer(datasets: seq<Dataset>, runId: Text, j: nat, k: nat)
    requires forall a, b | 0 <= a < b < |datasets| :: datasets[a].key != datasets[b].key
    requires j < k < |Plan(datasets)|
    ensures IdempotencyKey(runId, Plan(datasets)[j]) != IdempotencyKey(runId, Plan(datasets)[k])
    decreases |datasets|
  {
    var here := Slots(datasets[0], 0);
    if k < |here| {
      SlotsAreNumbered(datasets[0], 0, j);
      SlotsAreNumbered(datasets[0], 0, k);
    } else if j >= |here| {
      PlanKeysDiffer(datasets[1..], runId, j - |here|, k - |here|);
    } else {
      SlotsAreNumbered(datasets[0], 0, j);
      PlanKeys(datasets[1..], k - |here|);
    }
    if IdempotencyKey(runId, Plan(datasets)[j]) == IdempotencyKey(runId, Plan(datasets)[k]) {
      KeysIdentifyChunks(runId, Plan(datasets)[j], Plan(datasets)[k]);
    }
  }

  // What a request log holds ------------------------------------------------------------------------

  function CountKey(log: seq<Attempt>, key: Text): nat {
    if log == [] then 0 else CountKey(log[..|log| - 1], key) + if log[|log| - 1].key == key then 1 else 0
  }

  lemma {:induction false} CountRepeat(log: seq<Attempt>, a: Attempt, n: nat, key: Text)
    ensures CountKey(log + Repeat(a, n), key) == CountKey(log, key) + if a.key == key then n else 0
  {
    if n == 0 {
      assert log + Repeat(a, 0) == log;
    } else {
      var longer := log + Repeat(a, n);
      assert longer[..|longer| - 1] == log + Repeat(a, n - 1);
      CountRepeat(log, a, n - 1, key);
    }
  }

  // Main result: for chunks with distinct keys, the log asks for each key as often as that chunk was
  // tried, so at most four times, always with the one body that was stamped for it.
  lemma {:induction false} LogIsBounded(stamped: seq<Attempt>, tries: seq<nat>, k: nat)
    requires |tries| == |stamped| && k < |stamped|
    requires forall a, b | 0 <= a < b < |stamped| :: stamped[a].key != stamped[b].key
    ensures CountKey(Requests(stamped, tries), stamped[k].key) == tries[k]
    ensures forall i | 0 <= i < |Requests(stamped, tries)| ::
      Requests(stamped, tries)[i].key == stamped[k].key ==> Requests(stamped, tries)[i] == stamped[k]
    decreases |stamped|
  {
    var n := |stamped| - 1;
    var before := Requests(stamped[..n], tries[..n]);
    CountRepeat(before, stamped[n], tries[n], stamped[k].key);
    if k < n {
      LogIsBounded(stamped[..n], tries[..n], k);
    } else {
      KeyAbsent(stamped[..n], tries[..n], stamped[k].key);
    }
  }

  lemma {:induction false} KeyAbsent(stamped: seq<Attempt>, tries: seq<nat>, key: Text)
    requires |tries| == |stamped| && forall a | 0 <= a < |stamped| :: stamped[a].key != key
    ensures CountKey(Requests(stamped, tries), key) == 0
    ensures forall i | 0 <= i < |Requests(stamped, tries)| :: Requests(stamped, tries)[i].key != key
    decreases |stamped|
  {
    if stamped != [] {
      var n := |stamped| - 1;
      KeyAbsent(stamped[..n], tries[..n], key);
      CountRepeat(Requests(stamped[..n], tries[..n]), stamped[n], tries[n], key);
    }
  }

  // Main result: whatever the network answers, the log of a run asks for each stamped chunk under its
  // own key, always with the same body, and at most four times.
  lemma {:induction false} EveryChunkTriedAtMostFourTimes(datasets: seq<Dataset>, run: Run, clock: nat -> Text,
                                       stamped: seq<Attempt>, tries: seq<nat>, k: nat)
    requires forall a, b | 0 <= a < b < |datasets| :: datasets[a].key != datasets[b].key
    requires StampedFrom(Plan(datasets), StamperOf(run, Manifest(datasets)), clock, stamped)
    requires |tries| == |stamped| && (forall i | 0 <= i < |tries| :: 1 <= tries[i] <= MAX_ATTEMPTS) && k < |stamped|
    ensures stamped[k].key == IdempotencyKey(run.runId, Plan(datasets)[k])
    ensures 1 <= CountKey(Requests(stamped, tries), stamped[k].key) <= MAX_ATTEMPTS
    ensures forall i | 0 <= i < |Requests(stamped, tries)| ::
      Requests(stamped, tries)[i].key == stamped[k].key ==> Requests(stamped, tries)[i] == stamped[k]
  {
    var plan := Plan(datasets);
    forall i | 0 <= i < |stamped| ensures stamped[i].key == IdempotencyKey(run.runId, plan[i]) {
      assert Stamp(run, Manifest(datasets), plan[i], clock(i)) == Some(stamped[i]);
    }
    forall a, b | 0 <= a < b < |stamped| ensures stamped[a].key != stamped[b].key {
      PlanKeysDiffer(datasets, run.runId, a, b);
    }
    LogIsBounded(stamped, tries, k);
  }
}
