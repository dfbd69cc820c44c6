// The local lease lock: any number of acquire, renew and release calls, by any number of owners
// and processes, interleaved one file step at a time. Calls may crash or meet an I/O error at any
// step; an operator may remove a guard file once the call that created it is over.
module LeaseLock {
  import opened Wrappers

  type Key = string
  type Owner = string
  type CallId = nat

  // What a lock file or a renewal file holds. A file that was opened but not yet written is no JSON.
  datatype Content = HalfWritten | Entry(owner: Owner, acquiredAt: int, expiresAt: int)

  datatype Op = Acquire(lease: nat) | Renew(lease: nat) | Release

  datatype Outcome =
    | Won(expiresAt: int) | Lost(expiresAt: int)
    | Renewed(expiresAt: int) | RenewRefused
    | Released | NothingToRelease | OwnerMismatch
    | GuardBusy | IoError | Crashed

  // Where a call stands: the next file step (or clock reading) it will make.
  datatype Pc =
    | WantGuard(attempt: nat)
    | AcquireClock(attempt: nat)
    | AcquireCreate(attempt: nat, now: nat)
    | AcquireWrite(now: nat)
    | AcquireRead(attempt: nat, now: nat)
    | AcquireRemove(attempt: nat)
    | RenewRead
    | RenewClock(existing: Option<Content>)
    | RenewTemp(acquiredAt: int, now: nat)
    | RenewRename(now: nat)
    | ReleaseRead
    | ReleaseRemove
    | Exit(outcome: Outcome)
    | Over(outcome: Outcome)

  // `before` is the lock file when the guard was taken, and `sample` and `latest` the first and the last clock
  // reading under it.
  datatype Call = Call(op: Op, key: Key, owner: Owner, pc: Pc, before: Option<Content>, sample: nat, latest: nat)

  // Lock files, guard files (with the call that created each) and renewal files live under
  // different names; the name of a lock file is an injective function of its key.
  datatype Disk = Disk(locks: map<Key, Content>, guards: map<Key, CallId>, temps: map<(Key, Owner), Content>)

  // `grants` records the expiry each owner was last granted and has not released.
  datatype State = State(disk: Disk, clock: nat, calls: map<CallId, Call>, grants: map<(Key, Owner), int>)

  datatype Event =
    | Tick(time: nat)
    | Start(id: CallId, op: Op, key: Key, owner: Owner)
    | Step(id: CallId)
    | Fail(id: CallId, leftover: bool)
    | Crash(id: CallId)
    | RemoveOrphan(key: Key)

  const GUARD_MAX_ATTEMPTS: nat := 100

  function Lookup<K, V>(m: map<K, V>, k: K): Option<V> {
    if k in m then Some(m[k]) else None
  }

  // Acquire may replace what it finds: nothing, an unreadable file, or a lease over at `now`.
  predicate Stale(content: Option<Content>, now: int) {
    content.Some? && content.value.Entry? ==> content.value.expiresAt <= now
  }

  predicate OwnedBy(content: Option<Content>, owner: Owner) {
    content.Some? && content.value.Entry? && content.value.owner == owner
  }

  predicate InCritical(call: Call) {
    !call.pc.WantGuard? && !call.pc.Over?
  }

  predicate Enabled(s: State, e: Event) {
    match e
    case Tick(time) => s.clock <= time
    case Start(id, _, _, _) => id !in s.calls
    case Step(id) => id in s.calls && !s.calls[id].pc.Over?
    case Fail(id, _) => id in s.calls && !s.calls[id].pc.Over?
    case Crash(id) => id in s.calls && !s.calls[id].pc.Over?
    case RemoveOrphan(key) =>
      && key in s.disk.guards
      && (s.disk.guards[key] in s.calls ==> s.calls[s.disk.guards[key]].pc.Over?)
  }

  function Goto(s: State, id: CallId, pc: Pc): State
    requires id in s.calls
  {
    s.(calls := s.calls[id := s.calls[id].(pc := pc)])
  }

  function Apply(s: State, e: Event): State
    requires Enabled(s, e)
  {
    match e
    case Tick(time) => s.(clock := time)
    case Start(id, op, key, owner) => s.(calls := s.calls[id := Call(op, key, owner, WantGuard(1), None, 0, 0)])
    case Step(id) => ApplyStep(s, id)
    case Fail(id, leftover) => ApplyFail(s, id, leftover)
    case Crash(id) => Goto(s, id, Over(Crashed))
    case RemoveOrphan(key) => s.(disk := s.disk.(guards := s.disk.guards - {key}))
  }

  // One successful file step (or clock reading) of call `id`.
  function ApplyStep(s: State, id: CallId): State
    requires id in s.calls && !s.calls[id].pc.Over?
  {
    var c := s.calls[id];
    var disk := s.disk;
    var file := Lookup(disk.locks, c.key);
    match c.pc
    case WantGuard(attempt) =>
      if c.key !in disk.guards then
        var entry := match c.op
          case Acquire(_) => AcquireClock(0)
          case Renew(_) => RenewRead
          case Release => ReleaseRead;
        s.(disk := disk.(guards := disk.guards[c.key := id]),
           calls := s.calls[id := c.(pc := entry, before := file)])
      else if attempt >= GUARD_MAX_ATTEMPTS then Goto(s, id, Over(GuardBusy))
      else Goto(s, id, WantGuard(attempt + 1))
    case AcquireClock(attempt) =>
      s.(calls := s.calls[id := c.(pc := AcquireCreate(attempt, s.clock), latest := s.clock,
                                   sample := if attempt == 0 then s.clock else c.sample)])
    case AcquireCreate(attempt, now) =>
      if file.Some? then Goto(s, id, AcquireRead(attempt, now))
      else Goto(s.(disk := disk.(locks := disk.locks[c.key := HalfWritten])), id, AcquireWrite(now))
    case AcquireWrite(now) =>
      var expiresAt := now + Lease(c);
      Goto(s.(disk := disk.(locks := disk.locks[c.key := Entry(c.owner, now, expiresAt)]),
              grants := s.grants[(c.key, c.owner) := expiresAt]), id, Exit(Won(expiresAt)))
    case AcquireRead(attempt, now) =>
      if file.None? then Goto(s, id, Exit(Lost(0)))
      else if Stale(file, now) then Goto(s, id, AcquireRemove(attempt))
      else Goto(s, id, Exit(Lost(file.value.expiresAt)))
    case AcquireRemove(attempt) =>
      Goto(s.(disk := disk.(locks := disk.locks - {c.key})), id,
           if attempt + 1 < 2 then AcquireClock(attempt + 1) else Exit(Lost(0)))
    case RenewRead => Goto(s, id, RenewClock(file))
    case RenewClock(existing) =>
      var next := if OwnedBy(existing, c.owner) && existing.value.expiresAt > s.clock
                  then RenewTemp(existing.value.acquiredAt, s.clock) else Exit(RenewRefused);
      s.(calls := s.calls[id := c.(pc := next, sample := s.clock, latest := s.clock)])
    case RenewTemp(acquiredAt, now) =>
      Goto(s.(disk := disk.(temps := disk.temps[(c.key, c.owner) := Entry(c.owner, acquiredAt, now + Lease(c))])),
           id, RenewRename(now))
    case RenewRename(now) =>
      var renewal := Lookup(disk.temps, (c.key, c.owner));
      if renewal.None? then Goto(s, id, Exit(IoError))
      else Goto(s.(disk := disk.(locks := disk.locks[c.key := renewal.value],
                                 temps := disk.temps - {(c.key, c.owner)}),
                   grants := s.grants[(c.key, c.owner) := now + Lease(c)]), id, Exit(Renewed(now + Lease(c))))
    case ReleaseRead =>
      if file.None? then Goto(s, id, Exit(NothingToRelease))
      else if !OwnedBy(file, c.owner) then Goto(s, id, Exit(OwnerMismatch))
      else Goto(s, id, ReleaseRemove)
    case ReleaseRemove =>
      Goto(s.(disk := disk.(locks := disk.locks - {c.key}),
              grants := s.grants - {(c.key, c.owner)}), id, Exit(Released))
    case Exit(outcome) =>
      Goto(s.(disk := disk.(guards := disk.guards - {c.key})), id, Over(outcome))
    case Over(_) => s
  }

  // The same step ending in an I/O error. `leftover` says whether it has left something behind all the
  // same: an exclusive guard create its file; a lock write whose closing failed the whole entry, of which the
  // caller learns nothing, instead of a half-written one; a renewal whose clean-up failed its renewal file.
  function ApplyFail(s: State, id: CallId, leftover: bool): State
    requires id in s.calls && !s.calls[id].pc.Over?
  {
    var c := s.calls[id];
    var disk := s.disk;
    match c.pc
    case WantGuard(_) =>
      Goto(if leftover && c.key !in disk.guards
           then s.(disk := disk.(guards := disk.guards[c.key := id])) else s, id, Over(IoError))
    case AcquireWrite(now) =>
      Goto(if leftover then s.(disk := disk.(locks := disk.locks[c.key := Entry(c.owner, now, now + Lease(c))])) else s,
           id, Exit(IoError))
    case RenewTemp(_, _) =>
      var temps := if leftover then disk.temps[(c.key, c.owner) := HalfWritten] else disk.temps - {(c.key, c.owner)};
      Goto(s.(disk := disk.(temps := temps)), id, Exit(IoError))
    case RenewRename(_) =>
      Goto(if leftover then s else s.(disk := disk.(temps := disk.temps - {(c.key, c.owner)})), id, Exit(IoError))
    case Exit(_) => Goto(s, id, Over(IoError))
    case _ => Goto(s, id, Exit(IoError))
  }

  function Lease(c: Call): nat {
    match c.op
    case Acquire(lease) => lease
    case Renew(lease) => lease
    case Release => 0
  }

  // Any lock, guard and renewal files may be on disk when the first call starts.
  predicate Init(s: State) {
    s.calls == map[] && s.grants == map[]
  }

  // The state after a run, or None when some event of it was not possible.
  function Run(s: State, events: seq<Event>): Option<State>
    decreases |events|
  {
    if events == [] then Some(s)
    else if Enabled(s, events[0]) then Run(Apply(s, events[0]), events[1..])
    else None
  }

  // Invariant ---------------------------------------------------------------------------------

  // What a call knows about its lock file while it holds the guard.
  predicate Knows(c: Call, file: Option<Content>, temp: Option<Content>, clock: nat) {
    && c.sample <= clock && c.latest <= clock
    && match c.pc
    case WantGuard(_) => true
    case Over(_) => true
    case AcquireClock(attempt) =>
      && c.op.Acquire?
      && ((attempt == 0 && file == c.before)
          || (attempt == 1 && file.None? && c.before.Some? && Stale(c.before, c.sample)))
    case AcquireCreate(attempt, now) =>
      && c.op.Acquire? && c.sample <= now == c.latest
      && ((attempt == 0 && file == c.before && now == c.sample)
          || (attempt == 1 && file.None? && c.before.Some? && Stale(c.before, c.sample)))
    case AcquireWrite(now) =>
      && c.op.Acquire? && c.sample <= now == c.latest && (c.before.None? ==> now == c.sample)
      && Stale(c.before, c.sample) && file == Some(HalfWritten)
    case AcquireRead(attempt, now) =>
      c.op.Acquire? && attempt == 0 && now == c.sample <= clock && file == c.before && file.Some?
    case AcquireRemove(attempt) =>
      c.op.Acquire? && attempt == 0 && file == c.before && file.Some? && Stale(file, c.sample)
    case RenewRead => c.op.Renew? && file == c.before
    case RenewClock(existing) => c.op.Renew? && file == c.before == existing
    case RenewTemp(acquiredAt, now) =>
      && c.op.Renew? && file == c.before && now == c.sample <= clock
      && OwnedBy(file, c.owner) && file.value.expiresAt > now && acquiredAt == file.value.acquiredAt
    case RenewRename(now) =>
      && c.op.Renew? && file == c.before && now == c.sample <= clock
      && OwnedBy(file, c.owner) && file.value.expiresAt > now
      && temp == Some(Entry(c.owner, file.value.acquiredAt, now + Lease(c)))
    case ReleaseRead => c.op.Release? && file == c.before
    case ReleaseRemove => c.op.Release? && file == c.before && OwnedBy(file, c.owner)
    case Exit(outcome) => Atomic(c, outcome, file)
  }

  // An entry for an owner who was not told of it, as the last reading makes it.
  predicate Unclaimed(c: Call, lease: nat, file: Content) {
    file == Entry(c.owner, c.latest, c.latest + lease)
  }

  // What a finished guarded operation did: one step from the lock file `c.before` it found when it
  // took the guard to the lock file `after` it leaves, decided at its first clock reading.
  predicate Atomic(c: Call, outcome: Outcome, after: Option<Content>) {
    match c.op
    case Acquire(lease) => (
      match outcome
      case Won(expiresAt) =>
        && Stale(c.before, c.sample) && expiresAt == c.latest + lease
        && c.sample <= c.latest && (c.before.None? ==> c.latest == c.sample)
        && after == Some(Entry(c.owner, c.latest, expiresAt))
      case Lost(expiresAt) =>
        !Stale(c.before, c.sample) && after == c.before && expiresAt == c.before.value.expiresAt
      case IoError =>
        after == c.before
        || (Stale(c.before, c.sample) && (after.None? || after == Some(HalfWritten) || Unclaimed(c, lease, after.value)))
      case _ => false)
    case Renew(lease) => (
      match outcome
      case Renewed(expiresAt) =>
        && OwnedBy(c.before, c.owner) && c.before.value.expiresAt > c.sample
        && after == Some(c.before.value.(expiresAt := expiresAt)) && expiresAt == c.sample + lease
      case RenewRefused =>
        !(OwnedBy(c.before, c.owner) && c.before.value.expiresAt > c.sample) && after == c.before
      case IoError => after == c.before
      case _ => false)
    case Release => (
      match outcome
      case Released => OwnedBy(c.before, c.owner) && after.None?
      case NothingToRelease => c.before.None? && after.None?
      case OwnerMismatch => c.before.Some? && !OwnedBy(c.before, c.owner) && after == c.before
      case IoError => after == c.before
      case _ => false)
  }

  predicate GuardHeld(s: State, id: CallId)
    requires id in s.calls
  {
    InCritical(s.calls[id]) ==> Lookup(s.disk.guards, s.calls[id].key) == Some(id)
  }

  predicate CallKnows(s: State, id: CallId)
    requires id in s.calls
  {
    var c := s.calls[id];
    Knows(c, Lookup(s.disk.locks, c.key), Lookup(s.disk.temps, (c.key, c.owner)), s.clock)
  }

  predicate GrantBacked(s: State, key: Key, owner: Owner)
    requires (key, owner) in s.grants
  {
    var expiresAt := s.grants[(key, owner)];
    expiresAt > s.clock ==>
      var file := Lookup(s.disk.locks, key);
      OwnedBy(file, owner) && file.value.expiresAt == expiresAt
  }

  ghost predicate Inv(s: State) {
    && (forall id <- s.calls :: GuardHeld(s, id) && CallKnows(s, id))
    && (forall key, owner | (key, owner) in s.grants :: GrantBacked(s, key, owner))
  }

  // A call's step changes files and grants of its own key only.
  lemma {:induction false} StepLocks(s: State, id: CallId, key: Key)
    requires id in s.calls && !s.calls[id].pc.Over? && key != s.calls[id].key
    ensures var t := ApplyStep(s, id);
      Lookup(t.disk.locks, key) == Lookup(s.disk.locks, key) && Lookup(t.disk.guards, key) == Lookup(s.disk.guards, key)
  {}

  lemma {:induction false} StepGrants(s: State, id: CallId, key: Key, owner: Owner)
    requires id in s.calls && !s.calls[id].pc.Over? && key != s.calls[id].key
    ensures var t := ApplyStep(s, id);
      && Lookup(t.disk.temps, (key, owner)) == Lookup(s.disk.temps, (key, owner))
      && Lookup(t.grants, (key, owner)) == Lookup(s.grants, (key, owner))
  {}

  lemma {:induction false} FailureFootprint(s: State, id: CallId, leftover: bool, key: Key, owner: Owner)
    requires id in s.calls && !s.calls[id].pc.Over? && key != s.calls[id].key
    ensures var t := ApplyFail(s, id, leftover);
      && Lookup(t.disk.locks, key) == Lookup(s.disk.locks, key) && t.grants == s.grants
      && Lookup(t.disk.guards, key) == Lookup(s.disk.guards, key)
      && Lookup(t.disk.temps, (key, owner)) == Lookup(s.disk.temps, (key, owner))
  {}

  lemma {:induction false} Footprint(s: State, e: Event, key: Key, owner: Owner)
    requires Enabled(s, e) && (e.Step? || e.Fail? || e.Crash?)
    requires key != s.calls[e.id].key
    ensures var t := Apply(s, e);
      && Lookup(t.disk.locks, key) == Lookup(s.disk.locks, key)
      && Lookup(t.disk.guards, key) == Lookup(s.disk.guards, key)
      && Lookup(t.disk.temps, (key, owner)) == Lookup(s.disk.temps, (key, owner))
      && Lookup(t.grants, (key, owner)) == Lookup(s.grants, (key, owner))
  {
    match e
    case Step(id) =>
      StepLocks(s, id, key);
      StepGrants(s, id, key, owner);
    case Fail(id, leftover) => FailureFootprint(s, id, leftover, key, owner);
    case _ =>
  }

  lemma {:induction false} CallsUntouched(s: State, e: Event, id: CallId)
    requires Enabled(s, e) && (e.Step? || e.Fail? || e.Crash?)
    requires id != e.id && id in s.calls
    ensures var t := Apply(s, e); t.clock == s.clock && id in t.calls && t.calls[id] == s.calls[id]
  {}

  lemma {:induction false} OthersKeepKnowing(s: State, e: Event, id: CallId)
    requires Inv(s) && Enabled(s, e) && id in s.calls
    requires e.Step? || e.Fail? || e.Crash?
    requires id != e.id
    ensures id in Apply(s, e).calls && GuardHeld(Apply(s, e), id) && CallKnows(Apply(s, e), id)
  {
    var c, d := s.calls[id], s.calls[e.id];
    assert GuardHeld(s, id) && GuardHeld(s, e.id) && CallKnows(s, id);
    CallsUntouched(s, e, id);
    if InCritical(c) {
      if c.key != d.key {
        Footprint(s, e, c.key, c.owner);
      } else {
        assert d.pc.WantGuard?;
      }
    }
  }

  lemma {:induction false} AcquirerKeepsKnowing(s: State, id: CallId)
    requires Inv(s) && Enabled(s, Step(id)) && s.calls[id].op.Acquire?
    ensures var t := ApplyStep(s, id); id in t.calls && GuardHeld(t, id) && CallKnows(t, id)
  {
    assert GuardHeld(s, id) && CallKnows(s, id);
  }

  lemma {:induction false} RenewReadKeepsKnowing(s: State, id: CallId)
    requires Inv(s) && Enabled(s, Step(id)) && s.calls[id].op.Renew?
    requires !s.calls[id].pc.RenewTemp? && !s.calls[id].pc.RenewRename?
    ensures var t := ApplyStep(s, id); id in t.calls && GuardHeld(t, id) && CallKnows(t, id)
  {
    assert GuardHeld(s, id) && CallKnows(s, id);
  }

  lemma {:induction false} RenewWriteKeepsKnowing(s: State, id: CallId)
    requires Inv(s) && Enabled(s, Step(id)) && s.calls[id].op.Renew?
    requires s.calls[id].pc.RenewTemp? || s.calls[id].pc.RenewRename?
    ensures var t := ApplyStep(s, id); id in t.calls && GuardHeld(t, id) && CallKnows(t, id)
  {
    assert GuardHeld(s, id) && CallKnows(s, id);
  }

  lemma {:induction false} RenewerKeepsKnowing(s: State, id: CallId)
    requires Inv(s) && Enabled(s, Step(id)) && s.calls[id].op.Renew?
    ensures var t := ApplyStep(s, id); id in t.calls && GuardHeld(t, id) && CallKnows(t, id)
  {
    if s.calls[id].pc.RenewTemp? || s.calls[id].pc.RenewRename? {
      RenewWriteKeepsKnowing(s, id);
    } else {
      RenewReadKeepsKnowing(s, id);
    }
  }

  lemma {:induction false} ReleaserKeepsKnowing(s: State, id: CallId)
    requires Inv(s) && Enabled(s, Step(id)) && s.calls[id].op.Release?
    ensures var t := ApplyStep(s, id); id in t.calls && GuardHeld(t, id) && CallKnows(t, id)
  {
    assert GuardHeld(s, id) && CallKnows(s, id);
  }

  lemma {:induction false} FailedAcquirerKeepsKnowing(s: State, id: CallId, leftover: bool)
    requires Inv(s) && Enabled(s, Fail(id, leftover)) && s.calls[id].op.Acquire?
    ensures var t := ApplyFail(s, id, leftover); id in t.calls && GuardHeld(t, id) && CallKnows(t, id)
  {
    assert GuardHeld(s, id) && CallKnows(s, id);
  }

  lemma {:induction false} FailedRenewerKeepsKnowing(s: State, id: CallId, leftover: bool)
    requires Inv(s) && Enabled(s, Fail(id, leftover)) && s.calls[id].op.Renew?
    ensures var t := ApplyFail(s, id, leftover); id in t.calls && GuardHeld(t, id) && CallKnows(t, id)
  {
    assert GuardHeld(s, id) && CallKnows(s, id);
  }

  lemma {:induction false} FailedReleaserKeepsKnowing(s: State, id: CallId, leftover: bool)
    requires Inv(s) && Enabled(s, Fail(id, leftover)) && s.calls[id].op.Release?
    ensures var t := ApplyFail(s, id, leftover); id in t.calls && GuardHeld(t, id) && CallKnows(t, id)
  {
    assert GuardHeld(s, id) && CallKnows(s, id);
  }

  lemma {:induction false} FailureKeepsKnowing(s: State, id: CallId, leftover: bool)
    requires Inv(s) && Enabled(s, Fail(id, leftover))
    ensures var t := ApplyFail(s, id, leftover); id in t.calls && GuardHeld(t, id) && CallKnows(t, id)
  {
    match s.calls[id].op
    case Acquire(_) => FailedAcquirerKeepsKnowing(s, id, leftover);
    case Renew(_) => FailedRenewerKeepsKnowing(s, id, leftover);
    case Release => FailedReleaserKeepsKnowing(s, id, leftover);
  }

  lemma {:induction false} StepperKeepsKnowing(s: State, e: Event)
    requires Inv(s) && Enabled(s, e)
    requires e.Step? || e.Fail? || e.Crash?
    ensures e.id in Apply(s, e).calls && GuardHeld(Apply(s, e), e.id) && CallKnows(Apply(s, e), e.id)
  {
    match e {
      case Step(id) =>
        match s.calls[id].op {
          case Acquire(_) => AcquirerKeepsKnowing(s, id);
          case Renew(_) => RenewerKeepsKnowing(s, id);
          case Release => ReleaserKeepsKnowing(s, id);
        }
      case Fail(id, leftover) => FailureKeepsKnowing(s, id, leftover);
      case Crash(id) => assert CallKnows(s, id);
    }
  }

  lemma {:induction false} StepKeepsBacked(s: State, id: CallId, key: Key, owner: Owner)
    requires Inv(s) && Enabled(s, Step(id)) && key == s.calls[id].key && (key, owner) in ApplyStep(s, id).grants
    ensures GrantBacked(ApplyStep(s, id), key, owner)
  {
    assert CallKnows(s, id);
    if (key, owner) in s.grants { assert GrantBacked(s, key, owner); }
  }

  lemma {:induction false} FailureKeepsBacked(s: State, id: CallId, leftover: bool, key: Key, owner: Owner)
    requires Inv(s) && Enabled(s, Fail(id, leftover)) && key == s.calls[id].key && (key, owner) in s.grants
    ensures GrantBacked(ApplyFail(s, id, leftover), key, owner)
  {
    assert CallKnows(s, id) && GrantBacked(s, key, owner);
  }

  lemma {:induction false} GrantsStayBacked(s: State, e: Event, key: Key, owner: Owner)
    requires Inv(s) && Enabled(s, e) && (key, owner) in Apply(s, e).grants
    ensures GrantBacked(Apply(s, e), key, owner)
  {
    if (e.Step? || e.Fail? || e.Crash?) && key != s.calls[e.id].key {
      Footprint(s, e, key, owner);
      assert GrantBacked(s, key, owner);
    } else {
      match e
      case Step(id) => StepKeepsBacked(s, id, key, owner);
      case Fail(id, leftover) => FailureKeepsBacked(s, id, leftover, key, owner);
      case _ => assert GrantBacked(s, key, owner);
    }
  }

  lemma {:induction false} InvKept(s: State, e: Event)
    requires Inv(s) && Enabled(s, e)
    ensures Inv(Apply(s, e))
  {
    var t := Apply(s, e);
    forall id <- t.calls ensures GuardHeld(t, id) && CallKnows(t, id) {
      if e.Step? || e.Fail? || e.Crash? {
        if id == e.id { StepperKeepsKnowing(s, e); } else { OthersKeepKnowing(s, e, id); }
      } else if id in s.calls {
        assert GuardHeld(s, id) && CallKnows(s, id);
      }
    }
    forall key, owner | (key, owner) in t.grants ensures GrantBacked(t, key, owner) {
      GrantsStayBacked(s, e, key, owner);
    }
  }

  lemma {:induction false} InvAfterRun(s: State, events: seq<Event>)
    requires Inv(s) && Run(s, events).Some?
    ensures Inv(Run(s, events).value)
    decreases |events|
  {
    if events != [] {
      InvKept(s, events[0]);
      InvAfterRun(Apply(s, events[0]), events[1..]);
    }
  }

  // Main results ------------------------------------------------------------------------------

  predicate Holds(s: State, key: Key, owner: Owner) {
    (key, owner) in s.grants && s.grants[(key, owner)] > s.clock
  }

  // After every run, at most one owner of a key has an unreleased grant that is not yet over.
  lemma {:induction false} MutualExclusion(s: State, events: seq<Event>, key: Key, a: Owner, b: Owner)
    requires Init(s) && Run(s, events).Some?
    ensures var t := Run(s, events).value;
      Holds(t, key, a) && Holds(t, key, b) ==> a == b
  {
    InvAfterRun(s, events);
    var t := Run(s, events).value;
    if Holds(t, key, a) && Holds(t, key, b) {
      assert GrantBacked(t, key, a) && GrantBacked(t, key, b);
    }
  }

  predicate WorksOn(s: State, id: CallId, key: Key) {
    id in s.calls && InCritical(s.calls[id]) && s.calls[id].key == key
  }

  // At most one call works on a key at a time, whatever crashed and whichever guards were removed.
  lemma {:induction false} GuardSerializes(s: State, events: seq<Event>, key: Key, i: CallId, j: CallId)
    requires Init(s) && Run(s, events).Some?
    ensures var t := Run(s, events).value;
      WorksOn(t, i, key) && WorksOn(t, j, key) ==> i == j
  {
    InvAfterRun(s, events);
    var t := Run(s, events).value;
    if WorksOn(t, i, key) && WorksOn(t, j, key) { assert GuardHeld(t, i) && GuardHeld(t, j); }
  }

  // When an operation is about to drop its guard it has done exactly one atomic step, and the two
  // defensive paths of acquire are never taken: no lock file is missing after EEXIST, and no second
  // stale file is found, so the fall-through after the loop is dead.
  lemma {:induction false} OperationsAreAtomic(s: State, events: seq<Event>, id: CallId)
    requires Init(s) && Run(s, events).Some? && id in Run(s, events).value.calls
    ensures var t := Run(s, events).value; var c := t.calls[id]; var file := Lookup(t.disk.locks, c.key);
      && (c.pc.Exit? ==> Atomic(c, c.pc.outcome, file))
      && (c.pc.AcquireRead? ==> file.Some?)
      && (c.pc.AcquireRemove? ==> c.pc.attempt == 0)
      && (c.pc.RenewRename? ==> (c.key, c.owner) in t.disk.temps)
  {
    InvAfterRun(s, events);
    assert CallKnows(Run(s, events).value, id);
  }

  // The lock table the files stand for: unreadable files count as no entry.
  function Table(locks: map<Key, Content>): map<Key, (Owner, int)> {
    map k | k in locks && locks[k].Entry? :: (locks[k].owner, locks[k].expiresAt)
  }

  // The atomic lock the files implement: a table changed by one step at a time.
  // A stranded entry is a grant that its owner was not told of.
  datatype TableStep = Stutter | Grant(key: Key, owner: Owner, until: int) | Extend(key: Key, owner: Owner, until: int)
                     | Evict(key: Key) | Drop(key: Key, owner: Owner) | Strand(key: Key, owner: Owner, until: int)

  predicate Allowed(table: map<Key, (Owner, int)>, step: TableStep, clock: nat) {
    match step
    case Stutter => true
    case Grant(k, _, _) => k !in table
    case Strand(k, _, _) => k !in table
    case Extend(k, o, _) => k in table && table[k].0 == o
    case Evict(k) => k in table && table[k].1 <= clock
    case Drop(k, o) => k in table && table[k].0 == o
  }

  function Take(table: map<Key, (Owner, int)>, step: TableStep): map<Key, (Owner, int)> {
    match step
    case Stutter => table
    case Grant(k, o, e) => table[k := (o, e)]
    case Strand(k, o, e) => table[k := (o, e)]
    case Extend(k, o, e) => table[k := (o, e)]
    case Evict(k) => table - {k}
    case Drop(k, _) => table - {k}
  }

  // The table step an event amounts to: only four of the file steps change the table, and one failure.
  function StepOf(s: State, e: Event): TableStep {
    if e.Fail? then Stranded(s, e) else if !e.Step? || e.id !in s.calls then Stutter else
    var c := s.calls[e.id];
    match c.pc
    case AcquireWrite(now) => Grant(c.key, c.owner, now + Lease(c))
    case AcquireRemove(_) => if c.key in Table(s.disk.locks) then Evict(c.key) else Stutter
    case RenewRename(now) => Extend(c.key, c.owner, now + Lease(c))
    case ReleaseRemove => Drop(c.key, c.owner)
    case _ => Stutter
  }

  function Stranded(s: State, e: Event): TableStep
    requires e.Fail?
  {
    if e.leftover && e.id in s.calls && s.calls[e.id].pc.AcquireWrite?
    then Strand(s.calls[e.id].key, s.calls[e.id].owner, s.calls[e.id].pc.now + Lease(s.calls[e.id])) else Stutter
  }

  lemma {:induction false} TableAfterRemove(locks: map<Key, Content>, k: Key)
    ensures Table(locks - {k}) == Table(locks) - {k}
  {}

  lemma {:induction false} TableAfterWrite(locks: map<Key, Content>, k: Key, file: Content)
    ensures Table(locks[k := file]) ==
      if file.Entry? then Table(locks)[k := (file.owner, file.expiresAt)] else Table(locks) - {k}
  {}

  lemma {:induction false} StepRefinesTable(s: State, e: Event)
    requires Inv(s) && Enabled(s, e)
    ensures var t := Apply(s, e); var step := StepOf(s, e);
      && Allowed(Table(s.disk.locks), step, s.clock)
      && Table(t.disk.locks) == Take(Table(s.disk.locks), step)
  {
    if e.Step? {
      var c := s.calls[e.id];
      assert CallKnows(s, e.id);
      match c.pc
      case AcquireCreate(_, now) =>
        if c.key !in s.disk.locks { TableAfterWrite(s.disk.locks, c.key, HalfWritten); }
      case AcquireWrite(now) =>
        TableAfterWrite(s.disk.locks, c.key, Entry(c.owner, now, now + Lease(c)));
      case RenewRename(now) =>
        TableAfterWrite(s.disk.locks, c.key, s.disk.temps[(c.key, c.owner)]);
      case AcquireRemove(_) => TableAfterRemove(s.disk.locks, c.key);
      case ReleaseRemove => TableAfterRemove(s.disk.locks, c.key);
      case _ =>
    } else if e.Fail? {
      FailureRefinesTable(s, e.id, e.leftover);
    }
  }

  lemma {:induction false} FailureRefinesTable(s: State, id: CallId, leftover: bool)
    requires Inv(s) && Enabled(s, Fail(id, leftover))
    ensures var t := ApplyFail(s, id, leftover); var step := StepOf(s, Fail(id, leftover));
      && Allowed(Table(s.disk.locks), step, s.clock)
      && Table(t.disk.locks) == Take(Table(s.disk.locks), step)
  {
    var c := s.calls[id];
    assert CallKnows(s, id);
    if c.pc.AcquireWrite? && leftover {
      TableAfterWrite(s.disk.locks, c.key, Entry(c.owner, c.pc.now, c.pc.now + Lease(c)));
    }
  }

  lemma {:induction false} StepChangesGrants(s: State, e: Event)
    requires Inv(s) && Enabled(s, e)
    ensures Apply(s, e).grants == match StepOf(s, e)
      case Grant(k, o, until) => s.grants[(k, o) := until]
      case Extend(k, o, until) => s.grants[(k, o) := until]
      case Drop(k, o) => s.grants - {(k, o)}
      case _ => s.grants
  {
    if e.Step? { assert CallKnows(s, e.id); }
  }

  // Every file step of every run is a step of the atomic lock, and the grants change with it.
  lemma {:induction false} FilesRefineTable(s: State, events: seq<Event>, e: Event)
    requires Init(s) && Run(s, events).Some? && Enabled(Run(s, events).value, e)
    ensures var t := Run(s, events).value; var step := StepOf(t, e); var u := Apply(t, e);
      && Allowed(Table(t.disk.locks), step, t.clock)
      && Table(u.disk.locks) == Take(Table(t.disk.locks), step)
      && (u.grants == match step
          case Grant(k, o, until) => t.grants[(k, o) := until]
          case Extend(k, o, until) => t.grants[(k, o) := until]
          case Drop(k, o) => t.grants - {(k, o)}
          case _ => t.grants)
  {
    InvAfterRun(s, events);
    StepRefinesTable(Run(s, events).value, e);
    StepChangesGrants(Run(s, events).value, e);
  }
}
