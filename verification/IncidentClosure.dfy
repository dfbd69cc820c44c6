// Closing one retained incident by three guarded SQL updates that several operators, each with its
// own recovery reference, may interleave, repeat or abandon.
module IncidentClosure {
  import opened Spaces
  import opened Wrappers

  // Rows, by the columns the statements read or write, as they are stored; the tables' primary keys are
  // the map keys and None is NULL.
  datatype Job = Job(messageId: Option<string>, jobType: Option<string>, errorCode: Option<string>,
                     errorMessage: Option<string>, retryCount: nat, status: Option<string>, updatedAt: nat)
  datatype Meta = Meta(operationId: Option<string>, workKey: Option<string>, generation: Option<int>, requestedAt: Option<int>,
                       recoveryStatus: Option<string>, recoveryReference: Option<string>, auditReference: Option<string>,
                       startedAt: Option<nat>, completedAt: Option<nat>, updatedAt: nat)
  datatype Alert = Alert(platform: Option<string>, alertType: Option<string>, severity: Option<string>,
                         errorCode: Option<string>, status: Option<string>, updatedAt: nat)

  datatype Db = Db(jobs: map<string, Job>, metas: map<string, Meta>, alerts: map<string, Alert>)

  // What the inspection query finds in tables that closing never touches.
  datatype Facts = Facts(queueRows: nat, queueAttempts: nat, generationMin: Option<int>, generationMax: Option<int>,
                         requestedMin: Option<int>, requestedMax: Option<int>, queueMessageId: Option<string>,
                         syncRows: nat, workRows: nat, phaseRows: nat, coverageRows: nat, activeLocks: nat)

  // The incident the statements are about.
  datatype Incident = Incident(dlqId: string, alertId: string, messageId: string, operationId: string, workKey: string,
                               generation: int, requestedAt: int, jobType: string, errorCode: string, errorMessage: string)

  // The row the inspection query returns, normalized.
  datatype View = View(facts: Facts, metadataRows: nat, meta: Option<Meta>, terminalRows: nat, job: Option<Job>,
                       alert: Option<Alert>)

  function Lookup<V>(m: map<string, V>, key: string): Option<V> {
    if key in m then Some(m[key]) else None
  }

  // How a text column is read: trimmed, and as nothing when it is blank. The statements compare the
  // column as it is stored.
  function OptionalText(stored: Option<string>): Option<string> {
    if stored.Some? && Trim(stored.value) != "" then Some(Trim(stored.value)) else None
  }

  function ReadJob(row: Job): Job {
    row.(jobType := OptionalText(row.jobType), errorCode := OptionalText(row.errorCode),
         errorMessage := OptionalText(row.errorMessage), status := OptionalText(row.status))
  }

  function ReadMeta(row: Meta): Meta {
    row.(recoveryStatus := OptionalText(row.recoveryStatus), recoveryReference := OptionalText(row.recoveryReference),
         auditReference := OptionalText(row.auditReference))
  }

  function ReadAlert(row: Alert): Alert {
    row.(platform := OptionalText(row.platform), alertType := OptionalText(row.alertType),
         severity := OptionalText(row.severity), errorCode := OptionalText(row.errorCode), status := OptionalText(row.status))
  }

  function Inspect(i: Incident, db: Db, facts: Facts): View {
    var meta := Lookup(db.metas, i.dlqId);
    var job := Lookup(db.jobs, i.dlqId);
    var alert := Lookup(db.alerts, i.alertId);
    View(facts.(queueMessageId := OptionalText(facts.queueMessageId)),
         if meta.Some? && meta.value.operationId == Some(i.operationId) && meta.value.workKey == Some(i.workKey) then 1 else 0,
         if meta.Some? then Some(ReadMeta(meta.value)) else None,
         if job.Some? && job.value.messageId == Some(i.messageId) then 1 else 0,
         if job.Some? then Some(ReadJob(job.value)) else None,
         if alert.Some? then Some(ReadAlert(alert.value)) else None)
  }

  predicate ExactIdentity(i: Incident, v: View) {
    && v.facts.generationMin == v.facts.generationMax == Some(i.generation)
    && v.facts.requestedMin == v.facts.requestedMax == Some(i.requestedAt)
    && v.meta.Some? && v.meta.value.generation == Some(i.generation) && v.meta.value.requestedAt == Some(i.requestedAt)
    && v.facts.queueMessageId == Some(i.messageId)
  }

  predicate ImmutableFailure(i: Incident, v: View, maximumActiveLocks: nat) {
    && v.facts.queueRows == 1 && v.facts.queueAttempts == 1 && v.metadataRows == 1 && v.terminalRows == 1
    && v.job.Some? && v.job.value.errorCode == Some(i.errorCode) && v.job.value.errorMessage == Some(i.errorMessage)
    && v.job.value.retryCount == 1 && v.job.value.jobType == Some(i.jobType)
    && v.alert.Some? && v.alert.value.alertType == Some("queue_permanent_failure")
    && v.alert.value.severity == Some("critical")
    && v.alert.value.platform == Some("chatwoot") && v.alert.value.errorCode == Some(i.errorCode)
    && v.facts.syncRows == 0 && v.facts.workRows == 0 && v.facts.phaseRows == 0 && v.facts.coverageRows == 0
    && v.facts.activeLocks <= maximumActiveLocks
  }

  predicate Open(i: Incident, v: View, maximumActiveLocks: nat) {
    && ImmutableFailure(i, v, maximumActiveLocks) && ExactIdentity(i, v)
    && v.meta.value.recoveryStatus == Some("not_started")
    && v.meta.value.recoveryReference.None? && v.meta.value.auditReference.None?
    && v.job.value.status == Some("open") && v.alert.value.status == Some("open")
  }

  predicate Matches(reference: Option<string>, ours: string) { reference == None || reference == Some(ours) }

  predicate Closable(i: Incident, v: View, reference: string) {
    && ImmutableFailure(i, v, 0) && ExactIdentity(i, v)
    && v.job.value.status in {Some("open"), Some("resolved")}
    && v.meta.value.recoveryStatus in {Some("not_started"), Some("in_progress"), Some("completed")}
    && v.alert.value.status in {Some("open"), Some("acknowledged"), Some("resolved")}
    && Matches(v.meta.value.recoveryReference, reference) && Matches(v.meta.value.auditReference, reference)
  }

  predicate Resolved(i: Incident, v: View, reference: string) {
    && ImmutableFailure(i, v, 0) && ExactIdentity(i, v)
    && v.meta.value.recoveryStatus == Some("completed")
    && v.meta.value.recoveryReference == Some(reference) && v.meta.value.auditReference == Some(reference)
    && v.job.value.status == Some("resolved") && v.alert.value.status == Some("resolved")
  }

  const REFERENCE_PREFIX := "chatwoot-source-config-recovery:"

  // The references operators may give.
  predicate IsReference(s: string) {
    && REFERENCE_PREFIX <= s && |s| == |REFERENCE_PREFIX| + 40
    && forall k | |REFERENCE_PREFIX| <= k < |s| :: '0' <= s[k] <= '9' || 'a' <= s[k] <= 'f'
  }

  // A reference is read as it is stored.
  lemma {:induction false} ReferenceIsText(s: string)
    requires IsReference(s)
    ensures OptionalText(Some(s)) == Some(s)
  {
    assert s[0] == REFERENCE_PREFIX[0] && '0' <= s[|s| - 1] <= 'f';
    assert TrimLeft(s) == s && TrimRight(s) == s;
  }

  // The three statements, with changes() -----------------------------------------------------------

  datatype Statement = CloseJob | CloseMeta | CloseAlert

  function Coalesce<T>(old_: Option<T>, fresh_: T): Option<T> {
    if old_.Some? then old_ else Some(fresh_)
  }

  predicate JobGuard(i: Incident, row: Job) {
    && row.messageId == Some(i.messageId) && row.jobType == Some(i.jobType) && row.errorCode == Some(i.errorCode)
    && row.errorMessage == Some(i.errorMessage) && row.retryCount == 1 && row.status in {Some("open"), Some("resolved")}
  }

  predicate MetaGuard(i: Incident, row: Meta, reference: string) {
    && row.operationId == Some(i.operationId) && row.workKey == Some(i.workKey)
    && row.generation == Some(i.generation) && row.requestedAt == Some(i.requestedAt)
    && row.recoveryStatus in {Some("not_started"), Some("in_progress"), Some("completed")}
    && Matches(row.recoveryReference, reference) && Matches(row.auditReference, reference)
  }

  predicate AlertGuard(i: Incident, row: Alert) {
    && row.platform == Some("chatwoot") && row.alertType == Some("queue_permanent_failure")
    && row.errorCode == Some(i.errorCode) && row.status in {Some("open"), Some("acknowledged"), Some("resolved")}
  }

  function CompletedMeta(row: Meta, reference: string, at: nat): Meta {
    row.(recoveryStatus := Some("completed"), recoveryReference := Coalesce(row.recoveryReference, reference),
         startedAt := Coalesce(row.startedAt, at), completedAt := Coalesce(row.completedAt, at),
         auditReference := Coalesce(row.auditReference, reference), updatedAt := at)
  }

  function Execute(i: Incident, db: Db, s: Statement, reference: string, at: nat): (Db, nat) {
    match s
    case CloseJob =>
      if i.dlqId in db.jobs && JobGuard(i, db.jobs[i.dlqId])
      then (db.(jobs := db.jobs[i.dlqId := db.jobs[i.dlqId].(status := Some("resolved"), updatedAt := at)]), 1)
      else (db, 0)
    case CloseMeta =>
      if i.dlqId in db.metas && MetaGuard(i, db.metas[i.dlqId], reference)
      then (db.(metas := db.metas[i.dlqId := CompletedMeta(db.metas[i.dlqId], reference, at)]), 1)
      else (db, 0)
    case CloseAlert =>
      if i.alertId in db.alerts && AlertGuard(i, db.alerts[i.alertId])
      then (db.(alerts := db.alerts[i.alertId := db.alerts[i.alertId].(status := Some("resolved"), updatedAt := at)]), 1)
      else (db, 0)
  }

  // The tables as the statements change them in place.
  class ClosureTables {
    var jobs: map<string, Job>
    var metas: map<string, Meta>
    var alerts: map<string, Alert>

    function State(): Db
      reads this
    {
      Db(jobs, metas, alerts)
    }

    constructor (db: Db)
      ensures State() == db
    {
      jobs, metas, alerts := db.jobs, db.metas, db.alerts;
    }

    method UpdateDeadLetterJobs(i: Incident, at: nat) returns (changes: nat)
      modifies this`jobs
      ensures (State(), changes) == Execute(i, old(State()), CloseJob, "", at)
    {
      changes := 0;
      if i.dlqId in jobs {
        var row := jobs[i.dlqId];
        if row.messageId == Some(i.messageId) && row.jobType == Some(i.jobType) && row.errorCode == Some(i.errorCode)
           && row.errorMessage == Some(i.errorMessage) && row.retryCount == 1
           && row.status in {Some("open"), Some("resolved")} {
          jobs := jobs[i.dlqId := row.(status := Some("resolved"), updatedAt := at)];
          changes := 1;
        }
      }
    }

    method UpdateOperationMetadata(i: Incident, reference: string, at: nat) returns (changes: nat)
      modifies this`metas
      ensures (State(), changes) == Execute(i, old(State()), CloseMeta, reference, at)
    {
      changes := 0;
      if i.dlqId in metas {
        var row := metas[i.dlqId];
        if row.operationId == Some(i.operationId) && row.workKey == Some(i.workKey)
           && row.generation == Some(i.generation) && row.requestedAt == Some(i.requestedAt)
           && row.recoveryStatus in {Some("not_started"), Some("in_progress"), Some("completed")}
           && Matches(row.recoveryReference, reference) && Matches(row.auditReference, reference) {
          row := row.(recoveryStatus := Some("completed"), updatedAt := at);
          row := row.(recoveryReference := Coalesce(row.recoveryReference, reference),
                      auditReference := Coalesce(row.auditReference, reference));
          metas := metas[i.dlqId := row.(startedAt := Coalesce(row.startedAt, at), completedAt := Coalesce(row.completedAt, at))];
          changes := 1;
        }
      }
    }

    method UpdateSystemAlerts(i: Incident, at: nat) returns (changes: nat)
      modifies this`alerts
      ensures (State(), changes) == Execute(i, old(State()), CloseAlert, "", at)
    {
      changes := 0;
      if i.alertId in alerts {
        var row := alerts[i.alertId];
        if row.platform == Some("chatwoot") && row.alertType == Some("queue_permanent_failure")
           && row.errorCode == Some(i.errorCode)
           && row.status in {Some("open"), Some("acknowledged"), Some("resolved")} {
          alerts := alerts[i.alertId := row.(status := Some("resolved"), updatedAt := at)];
          changes := 1;
        }
      }
    }

    // One operator's closure: all three statements and the check of their counts.
    method CloseIncident(i: Incident, reference: string, at: nat) returns (accepted: bool)
      modifies this
      ensures State() == Closed(i, old(State()), reference, at)
      ensures accepted <==> CountsOf(i, old(State()), reference, at) == (1, 1, 1)
    {
      var deadLetterRows := UpdateDeadLetterJobs(i, at);
      var metadataRows := UpdateOperationMetadata(i, reference, at);
      var alertRows := UpdateSystemAlerts(i, at);
      accepted := deadLetterRows == 1 && metadataRows == 1 && alertRows == 1;
    }
  }

  // Interleavings -----------------------------------------------------------------------------------

  datatype Event = Event(statement: Statement, reference: string, at: nat)

  function Do(i: Incident, db: Db, e: Event): Db { Execute(i, db, e.statement, e.reference, e.at).0 }
  function Changes(i: Incident, db: Db, e: Event): nat { Execute(i, db, e.statement, e.reference, e.at).1 }

  // One closure without interruption.
  function Closed(i: Incident, db: Db, reference: string, at: nat): Db {
    Do(i, Do(i, Do(i, db, Event(CloseJob, reference, at)), Event(CloseMeta, reference, at)), Event(CloseAlert, reference, at))
  }

  // Any statements of any operators, in any order, any number of times.
  function RunAll(i: Incident, db: Db, events: seq<Event>): Db
    decreases |events|
  {
    if events == [] then db else RunAll(i, Do(i, db, events[0]), events[1..])
  }

  // The counts of one closure that runs without interruption.
  function CountsOf(i: Incident, db: Db, reference: string, at: nat): (nat, nat, nat) {
    var a := Event(CloseJob, reference, at);
    var b := Event(CloseMeta, reference, at);
    var c := Event(CloseAlert, reference, at);
    (Changes(i, db, a), Changes(i, Do(i, db, a), b), Changes(i, Do(i, Do(i, db, a), b), c))
  }

  // The reference of the first metadata update of a run, given the one before it.
  function Winner(winner: Option<string>, events: seq<Event>): Option<string>
    decreases |events|
  {
    if events == [] then winner
    else Winner(if winner.None? && events[0].statement.CloseMeta? then Some(events[0].reference) else winner, events[1..])
  }

  // Columns as they are stored and as they are read ---------------------------------------------------

  predicate AsRead(stored: Option<string>) { OptionalText(stored) == stored }

  // A text without white space at its ends is read as it is stored.
  lemma {:induction false} PlainText(s: string)
    requires s != "" && !IsSpace(s[0]) && !IsSpace(s[|s| - 1])
    ensures OptionalText(Some(s)) == Some(s)
  {
    assert TrimLeft(s) == s && TrimRight(s) == s;
  }

  // The columns a statement compares are stored just as they are read, and no reference is stored.
  predicate JobAsRead(row: Job) { AsRead(row.jobType) && AsRead(row.errorCode) && AsRead(row.errorMessage) && AsRead(row.status) }

  predicate MetaAsRead(row: Meta) { AsRead(row.recoveryStatus) && row.recoveryReference.None? && row.auditReference.None? }

  predicate AlertAsRead(row: Alert) {
    AsRead(row.platform) && AsRead(row.alertType) && AsRead(row.errorCode) && AsRead(row.status)
  }

  ghost predicate HasRows(i: Incident, db: Db) { i.dlqId in db.jobs && i.dlqId in db.metas && i.alertId in db.alerts }

  predicate RowsAsRead(i: Incident, db: Db)
    requires i.dlqId in db.jobs && i.dlqId in db.metas && i.alertId in db.alerts
  {
    JobAsRead(db.jobs[i.dlqId]) && MetaAsRead(db.metas[i.dlqId]) && AlertAsRead(db.alerts[i.alertId])
  }

  // What every interleaving keeps of the rows of an open incident.
  predicate JobKept(first: Job, now: Job) {
    && now == first.(status := now.status, updatedAt := now.updatedAt)
    && (now.status == first.status || (JobAsRead(first) && now.status == Some("resolved")))
  }

  predicate AlertKept(first: Alert, now: Alert) {
    && now == first.(status := now.status, updatedAt := now.updatedAt)
    && (now.status == first.status || (AlertAsRead(first) && now.status == Some("resolved")))
  }

  predicate MetaKept(first: Meta, now: Meta, winner: Option<string>) {
    if MetaAsRead(first) && winner.Some? then
      now == first.(recoveryStatus := Some("completed"), recoveryReference := winner, auditReference := winner,
                    startedAt := now.startedAt, completedAt := now.completedAt, updatedAt := now.updatedAt)
    else now == first
  }

  ghost predicate Kept(i: Incident, first: Db, now: Db, winner: Option<string>) {
    && HasRows(i, first) && HasRows(i, now) && (winner.Some? ==> IsReference(winner.value))
    && JobKept(first.jobs[i.dlqId], now.jobs[i.dlqId]) && AlertKept(first.alerts[i.alertId], now.alerts[i.alertId])
    && MetaKept(first.metas[i.dlqId], now.metas[i.dlqId], winner)
  }

  // The rows a statement changes, given the first reference after it.
  function ExpectedChanges(i: Incident, first: Db, e: Event, winner: Option<string>): nat
    requires i.dlqId in first.jobs && i.dlqId in first.metas && i.alertId in first.alerts
  {
    match e.statement
    case CloseJob => if JobAsRead(first.jobs[i.dlqId]) then 1 else 0
    case CloseMeta => if MetaAsRead(first.metas[i.dlqId]) && winner == Some(e.reference) then 1 else 0
    case CloseAlert => if AlertAsRead(first.alerts[i.alertId]) then 1 else 0
  }

  // What being accepted as open says of the stored rows.
  predicate OpenJob(i: Incident, row: Job) {
    && row.messageId == Some(i.messageId) && row.retryCount == 1
    && OptionalText(row.jobType) == Some(i.jobType) && OptionalText(row.errorCode) == Some(i.errorCode)
    && OptionalText(row.errorMessage) == Some(i.errorMessage) && OptionalText(row.status) == Some("open")
  }

  predicate OpenMeta(i: Incident, row: Meta) {
    && row.operationId == Some(i.operationId) && row.workKey == Some(i.workKey)
    && row.generation == Some(i.generation) && row.requestedAt == Some(i.requestedAt)
    && OptionalText(row.recoveryStatus) == Some("not_started")
    && OptionalText(row.recoveryReference) == None && OptionalText(row.auditReference) == None
  }

  predicate OpenAlert(i: Incident, row: Alert) {
    && OptionalText(row.platform) == Some("chatwoot") && OptionalText(row.alertType) == Some("queue_permanent_failure")
    && OptionalText(row.severity) == Some("critical")
    && OptionalText(row.errorCode) == Some(i.errorCode) && OptionalText(row.status) == Some("open")
  }

  ghost predicate OpenRows(i: Incident, db: Db) {
    HasRows(i, db) && OpenJob(i, db.jobs[i.dlqId]) && OpenMeta(i, db.metas[i.dlqId]) && OpenAlert(i, db.alerts[i.alertId])
  }

  lemma {:induction false} OpenHasRows(i: Incident, db: Db, facts: Facts, maximumActiveLocks: nat)
    requires Open(i, Inspect(i, db, facts), maximumActiveLocks)
    ensures OpenRows(i, db)
  {
  }

  lemma {:induction false} JobGuardExactly(i: Incident, first: Job, now: Job)
    requires OpenJob(i, first) && JobKept(first, now)
    ensures JobGuard(i, now) <==> JobAsRead(first)
  {
    PlainText("open");
    PlainText("resolved");
  }

  lemma {:induction false} AlertGuardExactly(i: Incident, first: Alert, now: Alert)
    requires OpenAlert(i, first) && AlertKept(first, now)
    ensures AlertGuard(i, now) <==> AlertAsRead(first)
  {
    PlainText("open");
    PlainText("acknowledged");
    PlainText("resolved");
  }

  lemma {:induction false} MetaGuardExactly(i: Incident, first: Meta, now: Meta, winner: Option<string>, reference: string)
    requires OpenMeta(i, first) && MetaKept(first, now, winner) && IsReference(reference)
    ensures MetaGuard(i, now, reference) <==> MetaAsRead(first) && Matches(winner, reference)
  {
    ReferenceIsText(reference);
    PlainText("not_started");
    PlainText("in_progress");
    PlainText("completed");
  }

  lemma {:induction false} MetaStepKept(first: Meta, now: Meta, winner: Option<string>, reference: string, at: nat)
    requires MetaAsRead(first) && MetaKept(first, now, winner) && Matches(winner, reference)
    ensures MetaKept(first, CompletedMeta(now, reference, at), Some(reference))
  {
  }

  lemma {:induction false} StatementKeeps(i: Incident, first: Db, now: Db, winner: Option<string>, e: Event)
    requires OpenRows(i, first) && Kept(i, first, now, winner) && IsReference(e.reference)
    ensures var after := Winner(winner, [e]);
      Kept(i, first, Do(i, now, e), after) && Changes(i, now, e) == ExpectedChanges(i, first, e, after)
  {
    assert [e][1..] == [];
    match e.statement
    case CloseJob => JobGuardExactly(i, first.jobs[i.dlqId], now.jobs[i.dlqId]);
    case CloseAlert => AlertGuardExactly(i, first.alerts[i.alertId], now.alerts[i.alertId]);
    case CloseMeta =>
      MetaGuardExactly(i, first.metas[i.dlqId], now.metas[i.dlqId], winner, e.reference);
      if MetaGuard(i, now.metas[i.dlqId], e.reference) {
        MetaStepKept(first.metas[i.dlqId], now.metas[i.dlqId], winner, e.reference, e.at);
      }
  }

  ghost predicate AllReferences(events: seq<Event>) { forall e <- events :: IsReference(e.reference) }

  lemma {:induction false} RunKeeps(i: Incident, first: Db, now: Db, winner: Option<string>, events: seq<Event>)
    requires OpenRows(i, first) && Kept(i, first, now, winner) && AllReferences(events)
    ensures Kept(i, first, RunAll(i, now, events), Winner(winner, events))
    decreases |events|
  {
    if events != [] {
      StatementKeeps(i, first, now, winner, events[0]);
      assert [events[0]][1..] == [];
      RunKeeps(i, first, Do(i, now, events[0]), Winner(winner, [events[0]]), events[1..]);
    }
  }

  lemma {:induction false} WinnerStays(winner: Option<string>, events: seq<Event>)
    requires winner.Some?
    ensures Winner(winner, events) == winner
  {
    if events != [] { WinnerStays(winner, events[1..]); }
  }

  // When statements of a kind were run, for one reference or for any ----------------------------------

  predicate Asks(e: Event, s: Statement, reference: Option<string>) { e.statement == s && Matches(reference, e.reference) }

  function FirstAt(events: seq<Event>, s: Statement, reference: Option<string>): Option<nat> {
    if events == [] then None
    else if Asks(events[0], s, reference) then Some(events[0].at)
    else FirstAt(events[1..], s, reference)
  }

  function LastAt(events: seq<Event>, s: Statement, reference: Option<string>): Option<nat> {
    if events == [] then None
    else if LastAt(events[1..], s, reference).Some? then LastAt(events[1..], s, reference)
    else if Asks(events[0], s, reference) then Some(events[0].at)
    else None
  }

  // The rows after a run, in full.
  predicate JobIs(first: Job, now: Job, last: Option<nat>) {
    now == if JobAsRead(first) && last.Some? then first.(status := Some("resolved"), updatedAt := last.value) else first
  }

  predicate AlertIs(first: Alert, now: Alert, last: Option<nat>) {
    now == if AlertAsRead(first) && last.Some? then first.(status := Some("resolved"), updatedAt := last.value) else first
  }

  predicate MetaIs(first: Meta, now: Meta, winner: Option<string>, began: Option<nat>, last: Option<nat>) {
    now == if MetaAsRead(first) && began.Some? && last.Some? then
      first.(recoveryStatus := Some("completed"), recoveryReference := winner, auditReference := winner,
             startedAt := if first.startedAt.Some? then first.startedAt else began,
             completedAt := if first.completedAt.Some? then first.completedAt else began, updatedAt := last.value)
    else first
  }

  lemma {:induction false} JobStep(i: Incident, first: Db, now: Db, winner: Option<string>, e: Event)
    requires OpenRows(i, first) && Kept(i, first, now, winner) && IsReference(e.reference)
    ensures Kept(i, first, Do(i, now, e), Winner(winner, [e]))
    ensures Do(i, now, e).jobs[i.dlqId] == if e.statement.CloseJob? && JobAsRead(first.jobs[i.dlqId])
      then now.jobs[i.dlqId].(status := Some("resolved"), updatedAt := e.at) else now.jobs[i.dlqId]
  {
    StatementKeeps(i, first, now, winner, e);
  }

  lemma {:induction false} JobRunIs(i: Incident, first: Db, now: Db, winner: Option<string>, events: seq<Event>)
    requires OpenRows(i, first) && Kept(i, first, now, winner) && AllReferences(events)
    ensures i.dlqId in RunAll(i, now, events).jobs
    ensures var row, last := now.jobs[i.dlqId], LastAt(events, CloseJob, None);
      RunAll(i, now, events).jobs[i.dlqId] ==
        if JobAsRead(first.jobs[i.dlqId]) && last.Some? then row.(status := Some("resolved"), updatedAt := last.value) else row
    decreases |events|
  {
    if events != [] {
      JobStep(i, first, now, winner, events[0]);
      assert [events[0]][1..] == [];
      JobRunIs(i, first, Do(i, now, events[0]), Winner(winner, [events[0]]), events[1..]);
    }
  }

  lemma {:induction false} AlertStep(i: Incident, first: Db, now: Db, winner: Option<string>, e: Event)
    requires OpenRows(i, first) && Kept(i, first, now, winner) && IsReference(e.reference)
    ensures Kept(i, first, Do(i, now, e), Winner(winner, [e]))
    ensures Do(i, now, e).alerts[i.alertId] == if e.statement.CloseAlert? && AlertAsRead(first.alerts[i.alertId])
      then now.alerts[i.alertId].(status := Some("resolved"), updatedAt := e.at) else now.alerts[i.alertId]
  {
    StatementKeeps(i, first, now, winner, e);
  }

  lemma {:induction false} AlertRunIs(i: Incident, first: Db, now: Db, winner: Option<string>, events: seq<Event>)
    requires OpenRows(i, first) && Kept(i, first, now, winner) && AllReferences(events)
    ensures i.alertId in RunAll(i, now, events).alerts
    ensures var row, last := now.alerts[i.alertId], LastAt(events, CloseAlert, None);
      RunAll(i, now, events).alerts[i.alertId] ==
        if AlertAsRead(first.alerts[i.alertId]) && last.Some? then row.(status := Some("resolved"), updatedAt := last.value) else row
    decreases |events|
  {
    if events != [] {
      AlertStep(i, first, now, winner, events[0]);
      assert [events[0]][1..] == [];
      AlertRunIs(i, first, Do(i, now, events[0]), Winner(winner, [events[0]]), events[1..]);
    }
  }

  lemma {:induction false} MetaStep(i: Incident, first: Db, now: Db, winner: string, e: Event)
    requires OpenRows(i, first) && Kept(i, first, now, Some(winner)) && IsReference(e.reference)
    requires MetaAsRead(first.metas[i.dlqId]) && now.metas[i.dlqId].startedAt.Some? && now.metas[i.dlqId].completedAt.Some?
    ensures Kept(i, first, Do(i, now, e), Some(winner))
    ensures Do(i, now, e).metas[i.dlqId] == if e.statement.CloseMeta? && e.reference == winner
      then now.metas[i.dlqId].(updatedAt := e.at) else now.metas[i.dlqId]
  {
    StatementKeeps(i, first, now, Some(winner), e);
    assert [e][1..] == [];
  }

  // From the first metadata update on, later ones of its reference change the row's time of update alone.
  lemma {:induction false} MetaRunAgain(i: Incident, first: Db, now: Db, winner: string, events: seq<Event>)
    requires OpenRows(i, first) && Kept(i, first, now, Some(winner)) && AllReferences(events)
    requires MetaAsRead(first.metas[i.dlqId]) && now.metas[i.dlqId].startedAt.Some? && now.metas[i.dlqId].completedAt.Some?
    ensures i.dlqId in RunAll(i, now, events).metas
    ensures var row, last := now.metas[i.dlqId], LastAt(events, CloseMeta, Some(winner));
      RunAll(i, now, events).metas[i.dlqId] == row.(updatedAt := if last.Some? then last.value else row.updatedAt)
    decreases |events|
  {
    if events != [] {
      MetaStep(i, first, now, winner, events[0]);
      MetaRunAgain(i, first, Do(i, now, events[0]), winner, events[1..]);
    }
  }

  lemma {:induction false} MetaRunIs(i: Incident, first: Db, now: Db, events: seq<Event>)
    requires OpenRows(i, first) && Kept(i, first, now, None) && AllReferences(events)
    ensures i.dlqId in RunAll(i, now, events).metas
    ensures var winner := Winner(None, events);
      MetaIs(first.metas[i.dlqId], RunAll(i, now, events).metas[i.dlqId], winner,
             FirstAt(events, CloseMeta, None), LastAt(events, CloseMeta, winner))
    decreases |events|
  {
    if events != [] {
      var e := events[0];
      StatementKeeps(i, first, now, None, e);
      assert [e][1..] == [];
      if e.statement.CloseMeta? {
        WinnerStays(Some(e.reference), events[1..]);
        if MetaAsRead(first.metas[i.dlqId]) {
          MetaRunAgain(i, first, Do(i, now, e), e.reference, events[1..]);
        } else {
          RunKeeps(i, first, Do(i, now, e), Some(e.reference), events[1..]);
        }
      } else {
        MetaRunIs(i, first, Do(i, now, e), events[1..]);
      }
    }
  }

  // Main result: what any interleaving leaves of an open incident, in full. The row of the metadata keeps the
  // reference of the first update and its time as the times of beginning and completion; later updates of that
  // reference change only when it was updated.
  lemma {:induction false} RunIsExactly(i: Incident, db: Db, facts: Facts, events: seq<Event>, maximumActiveLocks: nat)
    requires Open(i, Inspect(i, db, facts), maximumActiveLocks) && AllReferences(events)
    ensures HasRows(i, db) && HasRows(i, RunAll(i, db, events))
    ensures var after, winner := RunAll(i, db, events), Winner(None, events);
      && JobIs(db.jobs[i.dlqId], after.jobs[i.dlqId], LastAt(events, CloseJob, None))
      && AlertIs(db.alerts[i.alertId], after.alerts[i.alertId], LastAt(events, CloseAlert, None))
      && MetaIs(db.metas[i.dlqId], after.metas[i.dlqId], winner, FirstAt(events, CloseMeta, None), LastAt(events, CloseMeta, winner))
  {
    OpenHasRows(i, db, facts, maximumActiveLocks);
    JobRunIs(i, db, db, None, events);
    AlertRunIs(i, db, db, None, events);
    MetaRunIs(i, db, db, events);
  }

  // How the rows of an interleaving are read.
  lemma {:induction false} JobReads(i: Incident, first: Job, now: Job)
    requires OpenJob(i, first) && JobKept(first, now)
    ensures var r := ReadJob(now);
      && r.messageId == Some(i.messageId) && r.retryCount == 1 && r.jobType == Some(i.jobType)
      && r.errorCode == Some(i.errorCode) && r.errorMessage == Some(i.errorMessage)
      && r.status == (if now.status == Some("resolved") then Some("resolved") else Some("open"))
    ensures now.status == Some("resolved") ==> JobAsRead(first)
  {
    PlainText("open");
    PlainText("resolved");
  }

  lemma {:induction false} AlertReads(i: Incident, first: Alert, now: Alert)
    requires OpenAlert(i, first) && AlertKept(first, now)
    ensures var r := ReadAlert(now);
      && r.platform == Some("chatwoot") && r.alertType == Some("queue_permanent_failure") && r.severity == Some("critical")
      && r.errorCode == Some(i.errorCode)
      && r.status == (if now.status == Some("resolved") then Some("resolved") else Some("open"))
    ensures now.status == Some("resolved") ==> AlertAsRead(first)
  {
    PlainText("open");
    PlainText("resolved");
  }

  lemma {:induction false} MetaReads(i: Incident, first: Meta, now: Meta, winner: Option<string>)
    requires OpenMeta(i, first) && MetaKept(first, now, winner) && (winner.Some? ==> IsReference(winner.value))
    ensures var r := ReadMeta(now); var done := MetaAsRead(first) && winner.Some?;
      && r.operationId == Some(i.operationId) && r.workKey == Some(i.workKey)
      && r.generation == Some(i.generation) && r.requestedAt == Some(i.requestedAt)
      && r.recoveryStatus == (if done then Some("completed") else Some("not_started"))
      && r.recoveryReference == r.auditReference == (if done then winner else None)
  {
    PlainText("completed");
    if winner.Some? { ReferenceIsText(winner.value); }
  }

  // Main result: after any interleaving the incident is closable for the first reference that tried to
  // update the metadata row and for no other, or for every reference when none has or when the row cannot be
  // updated. An incident may be accepted as open while locks are active; it is closable only once none is.
  lemma {:induction false} StaysClosableForTheFirst(i: Incident, db: Db, facts: Facts, events: seq<Event>, reference: string,
                                                    maximumActiveLocks: nat)
    requires Open(i, Inspect(i, db, facts), maximumActiveLocks) && AllReferences(events)
    ensures var after := Inspect(i, RunAll(i, db, events), facts); var first := Winner(None, events);
      Closable(i, after, reference) <==>
        facts.activeLocks == 0 && (first == None || first == Some(reference) || !MetaAsRead(db.metas[i.dlqId]))
  {
    OpenHasRows(i, db, facts, maximumActiveLocks);
    RunKeeps(i, db, db, None, events);
    var after := RunAll(i, db, events);
    JobReads(i, db.jobs[i.dlqId], after.jobs[i.dlqId]);
    AlertReads(i, db.alerts[i.alertId], after.alerts[i.alertId]);
    MetaReads(i, db.metas[i.dlqId], after.metas[i.dlqId], Winner(None, events));
  }

  // Main result: at most one reference ever gets a metadata count of 1, so at most one collects (1,1,1).
  lemma {:induction false} OneReferenceWins(i: Incident, db: Db, facts: Facts, before: seq<Event>, a: Event, between: seq<Event>,
                                            b: Event, maximumActiveLocks: nat)
    requires Open(i, Inspect(i, db, facts), maximumActiveLocks) && a.statement.CloseMeta? && b.statement.CloseMeta?
    requires AllReferences(before) && AllReferences(between) && IsReference(a.reference) && IsReference(b.reference)
    requires Changes(i, RunAll(i, db, before), a) == 1
    requires Changes(i, RunAll(i, Do(i, RunAll(i, db, before), a), between), b) == 1
    ensures a.reference == b.reference
  {
    var first := Winner(None, before);
    var d := RunAll(i, db, before);
    OpenHasRows(i, db, facts, maximumActiveLocks);
    RunKeeps(i, db, db, None, before);
    StatementKeeps(i, db, d, first, a);
    assert [a][1..] == [] && [b][1..] == [];
    RunKeeps(i, db, Do(i, d, a), Some(a.reference), between);
    WinnerStays(Some(a.reference), between);
    StatementKeeps(i, db, RunAll(i, Do(i, d, a), between), Some(a.reference), b);
  }

  // A full closure from any state of an open incident: what it counts and what it keeps.
  lemma {:induction false} ClosureCounts(i: Incident, first: Db, now: Db, winner: Option<string>, reference: string, at: nat)
    requires OpenRows(i, first) && Kept(i, first, now, winner) && IsReference(reference)
    ensures CountsOf(i, now, reference, at) == (1, 1, 1) <==> RowsAsRead(i, first) && Matches(winner, reference)
    ensures Kept(i, first, Closed(i, now, reference, at), if winner.None? then Some(reference) else winner)
  {
    var a, b, c := Event(CloseJob, reference, at), Event(CloseMeta, reference, at), Event(CloseAlert, reference, at);
    assert [a][1..] == [] && [b][1..] == [] && [c][1..] == [];
    StatementKeeps(i, first, now, winner, a);
    StatementKeeps(i, first, Do(i, now, a), winner, b);
    StatementKeeps(i, first, Do(i, Do(i, now, a), b), Winner(winner, [b]), c);
  }

  // A statement that changes a row leaves it resolved.
  lemma {:induction false} ClosedStatuses(i: Incident, d: Db, reference: string, at: nat)
    requires HasRows(i, d) && CountsOf(i, d, reference, at) == (1, 1, 1)
    ensures var e := Closed(i, d, reference, at);
      HasRows(i, e) && e.jobs[i.dlqId].status == e.alerts[i.alertId].status == Some("resolved")
  {
  }

  // Main result: whatever happened before, a full closure is accepted exactly for the first reference (or
  // any, when there is none yet) of an incident whose compared columns are stored as they are read, and then
  // the incident is resolved for it.
  lemma {:induction false} RerunResolves(i: Incident, db: Db, facts: Facts, events: seq<Event>, reference: string, at: nat,
                                         maximumActiveLocks: nat)
    requires Open(i, Inspect(i, db, facts), maximumActiveLocks) && AllReferences(events) && IsReference(reference)
    ensures var d := RunAll(i, db, events); var first := Winner(None, events);
      && (CountsOf(i, d, reference, at) == (1, 1, 1)
          <==> RowsAsRead(i, db) && (first == None || first == Some(reference)))
      && (Resolved(i, Inspect(i, Closed(i, d, reference, at), facts), reference)
          <==> facts.activeLocks == 0 && CountsOf(i, d, reference, at) == (1, 1, 1))
  {
    var d, first := RunAll(i, db, events), Winner(None, events);
    OpenHasRows(i, db, facts, maximumActiveLocks);
    RunKeeps(i, db, db, None, events);
    ClosureCounts(i, db, d, first, reference, at);
    if CountsOf(i, d, reference, at) == (1, 1, 1) { ClosedStatuses(i, d, reference, at); }
    var closed := Closed(i, d, reference, at);
    JobReads(i, db.jobs[i.dlqId], closed.jobs[i.dlqId]);
    AlertReads(i, db.alerts[i.alertId], closed.alerts[i.alertId]);
    MetaReads(i, db.metas[i.dlqId], closed.metas[i.dlqId], if first.None? then Some(reference) else first);
  }

  // An incident accepted as open can be closed by somebody exactly when its compared columns are stored as
  // they are read; otherwise nobody ever collects (1,1,1), whatever is run before.
  lemma {:induction false} ClosesExactlyWhenAsRead(i: Incident, db: Db, facts: Facts, maximumActiveLocks: nat)
    requires Open(i, Inspect(i, db, facts), maximumActiveLocks)
    ensures RowsAsRead(i, db) <==>
      exists events, reference, at :: AllReferences(events) && IsReference(reference)
        && CountsOf(i, RunAll(i, db, events), reference, at) == (1, 1, 1)
  {
    var sample := SampleReference();
    RerunResolves(i, db, facts, [], sample, 0, maximumActiveLocks);
    forall events, reference, at | AllReferences(events) && IsReference(reference)
      && CountsOf(i, RunAll(i, db, events), reference, at) == (1, 1, 1)
      ensures RowsAsRead(i, db)
    {
      RerunResolves(i, db, facts, events, reference, at, maximumActiveLocks);
    }
    assert RunAll(i, db, []) == db;
  }

  function SampleReference(): (s: string)
    ensures IsReference(s)
  {
    REFERENCE_PREFIX + seq(40, _ => '0')
  }

  // Two inputs the program accepts and does not finish ---------------------------------------------------

  function SampleIncident(): Incident {
    Incident("terminal:1", "alert:terminal:1", "1", "chatwoot-initial-30d-1", "chatwoot:k:1", 1, 1,
             "chatwoot.conversations.sync", "CHATWOOT_RUNTIME_CONFIG_INVALID", "CHATWOOT_BASE_URL is required")
  }

  // Its rows as the failed job left them, but for what is stored as the recovery reference.
  function SampleDb(recoveryReference: Option<string>): Db {
    var i := SampleIncident();
    Db(map[i.dlqId := Job(Some(i.messageId), Some(i.jobType), Some(i.errorCode), Some(i.errorMessage), 1, Some("open"), 1)],
       map[i.dlqId := Meta(Some(i.operationId), Some(i.workKey), Some(1), Some(1), Some("not_started"), recoveryReference,
                           None, None, None, 1)],
       map[i.alertId := Alert(Some("chatwoot"), Some("queue_permanent_failure"), Some("critical"), Some(i.errorCode),
                              Some("open"), 1)])
  }

  function SampleFacts(activeLocks: nat): Facts {
    Facts(1, 1, Some(1), Some(1), Some(1), Some(1), Some("1"), 0, 0, 0, 0, activeLocks)
  }

  lemma {:induction false} SampleTexts()
    ensures var i := SampleIncident();
      && OptionalText(Some(i.messageId)) == Some(i.messageId) && OptionalText(Some(i.jobType)) == Some(i.jobType)
      && OptionalText(Some(i.errorCode)) == Some(i.errorCode) && OptionalText(Some(i.errorMessage)) == Some(i.errorMessage)
  {
    var i := SampleIncident();
    PlainText(i.messageId);
    PlainText(i.jobType);
    PlainText(i.errorCode);
    PlainText(i.errorMessage);
  }

  lemma {:induction false} ColumnTexts()
    ensures OptionalText(Some("open")) == Some("open") && OptionalText(Some("not_started")) == Some("not_started")
    ensures OptionalText(Some("chatwoot")) == Some("chatwoot") && OptionalText(Some("critical")) == Some("critical")
    ensures OptionalText(Some("queue_permanent_failure")) == Some("queue_permanent_failure")
  {
    PlainText("open");
    PlainText("not_started");
    PlainText("chatwoot");
    PlainText("critical");
    PlainText("queue_permanent_failure");
  }

  lemma {:induction false} SampleIsOpen(recoveryReference: Option<string>, activeLocks: nat)
    requires OptionalText(recoveryReference) == None
    ensures Open(SampleIncident(), Inspect(SampleIncident(), SampleDb(recoveryReference), SampleFacts(activeLocks)), activeLocks)
  {
    SampleTexts();
    ColumnTexts();
  }

  // An empty text stored as the recovery reference: accepted as open, closable for every reference whatever
  // is run, and never closed by any.
  lemma {:induction false} BlankReferenceNeverCloses(events: seq<Event>, reference: string, at: nat)
    requires AllReferences(events) && IsReference(reference)
    ensures var i, db, facts := SampleIncident(), SampleDb(Some("")), SampleFacts(0);
      && Open(i, Inspect(i, db, facts), 0)
      && Closable(i, Inspect(i, RunAll(i, db, events), facts), reference)
      && CountsOf(i, RunAll(i, db, events), reference, at) != (1, 1, 1)
  {
    var i, db, facts := SampleIncident(), SampleDb(Some("")), SampleFacts(0);
    SampleIsOpen(Some(""), 0);
    StaysClosableForTheFirst(i, db, facts, events, reference, 0);
    RerunResolves(i, db, facts, events, reference, at, 0);
  }

  // One active lock: accepted as open where one is allowed, and closable for no reference.
  lemma {:induction false} LockedIsNotClosable(reference: string)
    ensures var i, db, facts := SampleIncident(), SampleDb(None), SampleFacts(1);
      Open(i, Inspect(i, db, facts), 1) && !Closable(i, Inspect(i, db, facts), reference)
  {
    SampleIsOpen(None, 1);
  }

  // Closing changes no other row of any table.
  lemma {:induction false} OtherRowsStay(i: Incident, db: Db, events: seq<Event>)
    ensures var after := RunAll(i, db, events);
      && after.jobs - {i.dlqId} == db.jobs - {i.dlqId}
      && after.metas - {i.dlqId} == db.metas - {i.dlqId}
      && after.alerts - {i.alertId} == db.alerts - {i.alertId}
    decreases |events|
  {
    if events != [] { OtherRowsStay(i, Do(i, db, events[0]), events[1..]); }
  }
}
