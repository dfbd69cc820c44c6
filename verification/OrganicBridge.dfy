// Bridging newer daily rows into the customer's tables: which rows are selected, how they are cut into
// chunks, and the append-only statements of each chunk.
module OrganicBridge {
  import opened Wrappers
  import opened Lexicographic
  import opened JsonValues
  import opened InsertOrIgnore
  import Sorting

  const FACEBOOK := Ascii("facebook")
  const TIKTOK := Ascii("tiktok")
  const ACCOUNT_KEY := Ascii("chemistry_k")
  const BACKFILL := Ascii("backfill")
  const ALLOWED: seq<Text> := [FACEBOOK, TIKTOK]

  datatype Daily = Daily(platform: Text, content: Text, date: Text, sourceKey: Text, metrics: seq<Text>)
  datatype Master = Master(platform: Text, content: Text, metadata: seq<Text>)
  datatype Account = Account(platform: Text, sourceAccount: Text, date: Text, sourceKey: Text, fetchedAt: int)

  // Which platforms and dates a bridge is for, with the reviewed number of rows of each.
  datatype Expected = Expected(platform: Text, dates: seq<Group>)
  datatype Group = Group(platform: Text, date: Text, count: nat)
  datatype Scope = Scope(periodEnd: Text, platforms: seq<Expected>)

  datatype Snapshot = Snapshot(observed: map<Text, Text>, accounts: map<Text, Text>, stateKeys: set<Text>)

  // The parts of a statement's key that come from a fingerprint, a clock or a number's text are parameters.
  datatype Context = Context(runOf: (Text, Text) -> Text, accountRunOf: Text -> Text, generatedAt: int, textOf: int -> Text)

  datatype Error = BoundaryMissing | CountDrift | AccountSourceInvalid | MasterDuplicate | MasterMissing

  // The dates of each platform are written in ascending order; Facebook rows are observed at the time its one
  // account row was fetched, so its last date is the end of the period.
  ghost predicate ValidScope(scope: Scope) {
    && (forall i | 0 <= i < |scope.platforms| :: scope.platforms[i].platform in ALLOWED && scope.platforms[i].dates != [])
    && (forall i, j | 0 <= i < j < |scope.platforms| :: scope.platforms[i].platform != scope.platforms[j].platform)
    && (forall i | 0 <= i < |scope.platforms| :: ValidDates(scope.platforms[i]))
    && (forall i | 0 <= i < |scope.platforms| && scope.platforms[i].platform == FACEBOOK ::
          scope.platforms[i].dates[|scope.platforms[i].dates| - 1].date == scope.periodEnd)
  }

  ghost predicate ValidDates(e: Expected) {
    && (forall j | 0 <= j < |e.dates| :: e.dates[j].platform == e.platform)
    && (forall j, l | 0 <= j < l < |e.dates| :: e.dates[j].date != e.dates[l].date)
  }

  predicate InScope(scope: Scope, platform: Text) { exists i | 0 <= i < |scope.platforms| :: scope.platforms[i].platform == platform }

  function ContentKey(platform: Text, content: Text): Text { platform + [COLON] + (ACCOUNT_KEY + [COLON] + content) }
  function KeyOf(r: Daily): Text { ContentKey(r.platform, r.content) }

  // Selecting -------------------------------------------------------------------------------------------------

  predicate Selected(r: Daily, boundaries: map<Text, Text>, scope: Scope) {
    InScope(scope, r.platform) && r.platform in boundaries && Less(boundaries[r.platform], r.date)
    && !Less(scope.periodEnd, r.date)
  }

  function Select(rows: seq<Daily>, boundaries: map<Text, Text>, scope: Scope): seq<Daily> {
    if rows == [] then []
    else (if Selected(rows[0], boundaries, scope) then [rows[0]] else []) + Select(rows[1..], boundaries, scope)
  }

  type RowOrder = (Daily, Daily) -> bool
  type GroupOrder = (Group, Group) -> bool
  type TextOrder = (Text, Text) -> bool

  function SelectSourceRows(rows: seq<Daily>, boundaries: map<Text, Text>, scope: Scope, before: RowOrder): seq<Daily> {
    Sorting.Sort(Select(rows, boundaries, scope), before)
  }

  function AddToGroup(groups: seq<Group>, platform: Text, date: Text): seq<Group> {
    if groups == [] then [Group(platform, date, 1)]
    else if groups[0].platform == platform && groups[0].date == date then [groups[0].(count := groups[0].count + 1)] + groups[1..]
    else [groups[0]] + AddToGroup(groups[1..], platform, date)
  }

  function GroupCounts(rows: seq<Daily>): seq<Group>
    decreases |rows|
  {
    if rows == [] then [] else
    var last := rows[|rows| - 1];
    AddToGroup(GroupCounts(rows[..|rows| - 1]), last.platform, last.date)
  }

  function ExpectedGroups(platforms: seq<Expected>): seq<Group> {
    if platforms == [] then [] else platforms[0].dates + ExpectedGroups(platforms[1..])
  }

  predicate CountsAgree(rows: seq<Daily>, scope: Scope, before: GroupOrder) {
    Sorting.Sort(GroupCounts(rows), before) == ExpectedGroups(scope.platforms)
  }

  function RowsOf(rows: seq<Daily>, platform: Text, date: Text): seq<Daily> {
    if rows == [] then []
    else (if rows[0].platform == platform && rows[0].date == date then [rows[0]] else []) + RowsOf(rows[1..], platform, date)
  }

  predicate AccountSelected(a: Account, boundaries: map<Text, Text>, scope: Scope) {
    a.platform == FACEBOOK && FACEBOOK in boundaries && Less(boundaries[FACEBOOK], a.date) && !Less(scope.periodEnd, a.date)
  }

  function SelectAccounts(rows: seq<Account>, boundaries: map<Text, Text>, scope: Scope): seq<Account> {
    if rows == [] then []
    else (if AccountSelected(rows[0], boundaries, scope) then [rows[0]] else []) + SelectAccounts(rows[1..], boundaries, scope)
  }

  // Indexing ----------------------------------------------------------------------------------------------------

  ghost predicate Repeated(rows: seq<Master>) {
    exists i, j :: 0 <= i < j < |rows| && rows[i].platform in ALLOWED && rows[j].platform in ALLOWED
                   && ContentKey(rows[i].platform, rows[i].content) == ContentKey(rows[j].platform, rows[j].content)
  }

  ghost predicate HasMaster(rows: seq<Master>, key: Text) {
    exists i :: 0 <= i < |rows| && rows[i].platform in ALLOWED && ContentKey(rows[i].platform, rows[i].content) == key
  }

  ghost predicate HasRow(rows: seq<Daily>, key: Text) { exists i :: 0 <= i < |rows| && KeyOf(rows[i]) == key }

  // The master rows by their key.
  ghost predicate IsIndex(index: map<Text, Master>) {
    forall k <- index :: index[k].platform in ALLOWED && ContentKey(index[k].platform, index[k].content) == k
  }

  method IndexMasterRows(rows: seq<Master>) returns (r: Result<map<Text, Master>, Error>)
    ensures r.Err? <==> Repeated(rows)
    ensures r.Ok? ==> forall k :: k in r.value <==> HasMaster(rows, k)
    ensures r.Ok? ==> IsIndex(r.value) && forall k <- r.value :: r.value[k] in rows
  {
    var index: map<Text, Master> := map[];
    for i := 0 to |rows|
      invariant forall k :: k in index <==>
        exists j :: 0 <= j < i && rows[j].platform in ALLOWED && ContentKey(rows[j].platform, rows[j].content) == k
      invariant IsIndex(index) && forall k <- index :: index[k] in rows
      invariant !Repeated(rows[..i])
    {
      if rows[i].platform in ALLOWED {
        var key := ContentKey(rows[i].platform, rows[i].content);
        if key in index { return Err(MasterDuplicate); }
        index := index[key := rows[i]];
      }
    }
    assert rows[..|rows|] == rows;
    r := Ok(index);
  }

  // The newest row of a content, the first of them if several have the newest date.
  ghost predicate IsLatest(rows: seq<Daily>, key: Text, r: Daily) {
    r in rows && KeyOf(r) == key && forall s <- rows :: KeyOf(s) == key ==> !Less(r.date, s.date)
  }

  method LatestRowsByContent(rows: seq<Daily>) returns (index: map<Text, Daily>)
    ensures forall k :: k in index <==> HasRow(rows, k)
    ensures forall k <- index :: IsLatest(rows, k, index[k])
  {
    index := map[];
    for i := 0 to |rows|
      invariant forall k :: k in index <==> exists j :: 0 <= j < i && KeyOf(rows[j]) == k
      invariant forall k <- index :: IsLatest(rows[..i], k, index[k])
    {
      var row := rows[i];
      var key := KeyOf(row);
      ghost var before := index;
      assert rows[..i + 1] == rows[..i] + [row];
      if key !in index || Less(index[key].date, row.date) { index := index[key := row]; }
      forall k <- index ensures IsLatest(rows[..i + 1], k, index[k]) {
        LatestStep(rows[..i], row, k, if k in before then Some(before[k]) else None);
      }
    }
    assert rows[..|rows|] == rows;
  }

  lemma {:induction false} LatestStep(rows: seq<Daily>, row: Daily, key: Text, current: Option<Daily>)
    requires current.Some? ==> IsLatest(rows, key, current.value)
    requires current.None? ==> forall r <- rows :: KeyOf(r) != key
    ensures KeyOf(row) == key && (current.None? || Less(current.value.date, row.date)) ==> IsLatest(rows + [row], key, row)
    ensures current.Some? && (KeyOf(row) != key || !Less(current.value.date, row.date)) ==> IsLatest(rows + [row], key, current.value)
  {
    Irreflexive(row.date);
    forall s <- rows + [row] ensures s in rows || s == row { }
    if current.Some? && KeyOf(row) == key && Less(current.value.date, row.date) {
      forall s <- rows | KeyOf(s) == key ensures !Less(row.date, s.date) {
        if Less(row.date, s.date) { Transitive(current.value.date, row.date, s.date); }
      }
    }
  }

  // Chunks ------------------------------------------------------------------------------------------------------

  // The keys of the rows, each once.
  function KeysOf(rows: seq<Daily>): seq<Text>
    decreases |rows|
  {
    if rows == [] then [] else
    var before, key := KeysOf(rows[..|rows| - 1]), KeyOf(rows[|rows| - 1]);
    if key in before then before else before + [key]
  }

  function Without(keys: seq<Text>, there: set<Text>): seq<Text> {
    if keys == [] then [] else (if keys[0] in there then [] else [keys[0]]) + Without(keys[1..], there)
  }

  function MissingKeys(rows: seq<Daily>, there: set<Text>, before: TextOrder): seq<Text> {
    Sorting.Sort(Without(KeysOf(rows), there), before)
  }

  function KeysWith(keys: seq<Text>, prefix: Text): seq<Text> {
    if keys == [] then [] else (if prefix <= keys[0] then [keys[0]] else []) + KeysWith(keys[1..], prefix)
  }

  // A platform and date with rows, and whether it is the platform's last date.
  datatype Pair = Pair(platform: Text, date: Text, last: bool)

  function PairsOf(e: Expected, j: nat): seq<Pair>
    decreases |e.dates| - j
  {
    if j >= |e.dates| then [] else [Pair(e.platform, e.dates[j].date, j == |e.dates| - 1)] + PairsOf(e, j + 1)
  }

  function Pairs(platforms: seq<Expected>): seq<Pair> {
    if platforms == [] then [] else PairsOf(platforms[0], 0) + Pairs(platforms[1..])
  }

  function DateIndex(dates: seq<Group>, date: Text): Option<nat> {
    if dates == [] then None
    else if dates[0].date == date then Some(0)
    else var rest := DateIndex(dates[1..], date); if rest.None? then None else Some(rest.value + 1)
  }

  function DatesOf(platforms: seq<Expected>, platform: Text): seq<Group> {
    if platforms == [] then []
    else if platforms[0].platform == platform then platforms[0].dates
    else DatesOf(platforms[1..], platform)
  }

  datatype Sources = Sources(rows: seq<Daily>, accounts: seq<Account>, missing: seq<Text>, masters: map<Text, Master>,
                             latest: map<Text, Daily>)

  // When the rows of a platform and date count as observed; a Facebook date other than the last has no time.
  function ObservedAt(scope: Scope, accounts: seq<Account>, c: Context, platform: Text, date: Text): Option<int> {
    if platform == FACEBOOK then
      (if date == scope.periodEnd && accounts != [] then Some(accounts[0].fetchedAt) else None)
    else
      var dates := DatesOf(scope.platforms, TIKTOK);
      var index := DateIndex(dates, date);
      if platform == TIKTOK && index.Some? then Some(c.generatedAt - |dates| + index.value) else None
  }

  function TimeText(c: Context, observed: Option<int>): Text {
    if observed.Some? then c.textOf(observed.value) else Ascii("undefined")
  }

  function CoverageRunInsert(c: Context, pair: Pair, count: nat, observed: Option<int>): Row {
    Row(CoverageRuns, [c.runOf(pair.platform, pair.date)], [], observed.Some?, [pair.platform, pair.date, c.textOf(count)])
  }

  function ContentStateInsert(m: Master, d: Daily, observed: Option<int>): Row {
    Row(States, [ContentKey(m.platform, m.content)], [m.platform, ACCOUNT_KEY, m.content], observed.Some?, m.metadata + d.metrics)
  }

  function ObservationInsert(c: Context, r: Daily, observed: Option<int>): Row {
    Row(Observations, [KeyOf(r), TimeText(c, observed), BACKFILL], [KeyOf(r), TimeText(c, observed), BACKFILL], observed.Some?,
        [r.date, r.sourceKey] + r.metrics)
  }

  function CoverageEntityInsert(c: Context, pair: Pair, r: Daily): Row {
    var run := c.runOf(pair.platform, pair.date);
    Row(CoverageEntities, [run + Ascii(":content:") + r.content], [run, Ascii("content"), r.content], true, [r.sourceKey])
  }

  function AccountInserts(c: Context, accounts: seq<Account>): seq<Row> {
    if accounts == [] then [] else
    var a := accounts[0];
    var run, external := c.accountRunOf(a.sourceKey), a.sourceAccount + [COLON] + a.date;
    [Row(CoverageRuns, [run], [], true, [a.date, a.sourceKey]),
     Row(AccountFacts, [FACEBOOK + [COLON] + ACCOUNT_KEY + [COLON] + a.date], [FACEBOOK, ACCOUNT_KEY, a.date], true, [a.sourceKey]),
     Row(CoverageEntities, [run + Ascii(":account_daily:") + external], [run, Ascii("account_daily"), external], true, [a.sourceKey])]
    + AccountInserts(c, accounts[1..])
  }

  function StateInserts(keys: seq<Text>, masters: map<Text, Master>, latest: map<Text, Daily>, observed: Option<int>): seq<Row>
    requires forall k <- keys :: k in masters && k in latest
  {
    if keys == [] then []
    else [ContentStateInsert(masters[keys[0]], latest[keys[0]], observed)] + StateInserts(keys[1..], masters, latest, observed)
  }

  function RowInserts(c: Context, pair: Pair, rows: seq<Daily>, observed: Option<int>): seq<Row> {
    if rows == [] then []
    else [ObservationInsert(c, rows[0], observed), CoverageEntityInsert(c, pair, rows[0])] + RowInserts(c, pair, rows[1..], observed)
  }

  datatype Chunk = Chunk(pair: Pair, rows: seq<Daily>, stateKeys: seq<Text>, statements: seq<Row>)

  ghost predicate Sourced(s: Sources) { forall k <- s.missing :: k in s.masters && k in s.latest }

  function StateKeysFor(pair: Pair, missing: seq<Text>): seq<Text> {
    if pair.last then KeysWith(missing, pair.platform + [COLON]) else []
  }

  lemma {:induction false} KeysWithHas(keys: seq<Text>, prefix: Text, k: Text)
    ensures k in KeysWith(keys, prefix) <==> k in keys && prefix <= k
  {
    if keys != [] {
      KeysWithHas(keys[1..], prefix, k);
      assert k in keys <==> k == keys[0] || k in keys[1..];
    }
  }

  lemma {:induction false} StateKeysSourced(pair: Pair, s: Sources)
    requires Sourced(s)
    ensures forall k <- StateKeysFor(pair, s.missing) :: k in s.masters && k in s.latest
  {
    forall k <- StateKeysFor(pair, s.missing) ensures k in s.missing { KeysWithHas(s.missing, pair.platform + [COLON], k); }
  }

  function ChunkFor(scope: Scope, c: Context, s: Sources, pair: Pair): Chunk
    requires Sourced(s)
  {
    var rows, keys := RowsOf(s.rows, pair.platform, pair.date), StateKeysFor(pair, s.missing);
    var observed := ObservedAt(scope, s.accounts, c, pair.platform, pair.date);
    var accounts := if pair.platform == FACEBOOK && pair.date == scope.periodEnd then s.accounts else [];
    StateKeysSourced(pair, s);
    Chunk(pair, rows, keys,
          [CoverageRunInsert(c, pair, |rows|, observed)] + StateInserts(keys, s.masters, s.latest, observed)
          + RowInserts(c, pair, rows, observed) + AccountInserts(c, accounts))
  }

  function ChunksFor(scope: Scope, c: Context, s: Sources, pairs: seq<Pair>): seq<Chunk>
    requires Sourced(s)
  {
    if pairs == [] then [] else [ChunkFor(scope, c, s, pairs[0])] + ChunksFor(scope, c, s, pairs[1..])
  }

  function RowsIn(chunks: seq<Chunk>): seq<Daily> { if chunks == [] then [] else chunks[0].rows + RowsIn(chunks[1..]) }

  function StatementsIn(chunks: seq<Chunk>): seq<Row> {
    if chunks == [] then [] else chunks[0].statements + StatementsIn(chunks[1..])
  }

  // Planning as the program does it -----------------------------------------------------------------------------

  method InsertStates(keys: seq<Text>, masters: map<Text, Master>, latest: map<Text, Daily>, observed: Option<int>)
    returns (statements: seq<Row>)
    requires forall k <- keys :: k in masters && k in latest
    ensures statements == StateInserts(keys, masters, latest, observed)
  {
    statements := [];
    for i := 0 to |keys|
      invariant statements + StateInserts(keys[i..], masters, latest, observed) == StateInserts(keys, masters, latest, observed)
    {
      assert keys[i..][1..] == keys[i + 1..];
      statements := statements + [ContentStateInsert(masters[keys[i]], latest[keys[i]], observed)];
    }
  }

  method InsertRows(c: Context, pair: Pair, rows: seq<Daily>, observed: Option<int>) returns (statements: seq<Row>)
    ensures statements == RowInserts(c, pair, rows, observed)
  {
    statements := [];
    for i := 0 to |rows|
      invariant statements + RowInserts(c, pair, rows[i..], observed) == RowInserts(c, pair, rows, observed)
    {
      assert rows[i..][1..] == rows[i + 1..];
      statements := statements + [ObservationInsert(c, rows[i], observed), CoverageEntityInsert(c, pair, rows[i])];
    }
  }

  method BuildSqlChunk(scope: Scope, c: Context, s: Sources, pair: Pair) returns (chunk: Chunk)
    requires Sourced(s)
    ensures chunk == ChunkFor(scope, c, s, pair)
  {
    var rows, keys := RowsOf(s.rows, pair.platform, pair.date), StateKeysFor(pair, s.missing);
    var observed := ObservedAt(scope, s.accounts, c, pair.platform, pair.date);
    StateKeysSourced(pair, s);
    var states := InsertStates(keys, s.masters, s.latest, observed);
    var observations := InsertRows(c, pair, rows, observed);
    var accounts := if pair.platform == FACEBOOK && pair.date == scope.periodEnd then s.accounts else [];
    chunk := Chunk(pair, rows, keys,
                   [CoverageRunInsert(c, pair, |rows|, observed)] + states + observations + AccountInserts(c, accounts));
  }

  method BuildChunks(scope: Scope, c: Context, s: Sources) returns (chunks: seq<Chunk>)
    requires Sourced(s)
    ensures chunks == ChunksFor(scope, c, s, Pairs(scope.platforms))
  {
    var pairs := Pairs(scope.platforms);
    chunks := [];
    for i := 0 to |pairs|
      invariant chunks + ChunksFor(scope, c, s, pairs[i..]) == ChunksFor(scope, c, s, pairs)
    {
      assert pairs[i..][1..] == pairs[i + 1..];
      var chunk := BuildSqlChunk(scope, c, s, pairs[i]);
      chunks := chunks + [chunk];
    }
  }

  // What the inputs must be like for a plan.
  ghost predicate Boundaries(scope: Scope, customer: Snapshot) {
    && (forall e <- scope.platforms :: e.platform in customer.observed)
    && (InScope(scope, FACEBOOK) ==> FACEBOOK in customer.accounts)
  }

  ghost predicate AccountsAgree(scope: Scope, accounts: seq<Account>) {
    InScope(scope, FACEBOOK) ==> |accounts| == 1 && accounts[0].date == scope.periodEnd
  }

  function AccountsFor(scope: Scope, accounts: seq<Account>, customer: Snapshot): seq<Account> {
    if InScope(scope, FACEBOOK) then SelectAccounts(accounts, customer.accounts, scope) else []
  }

  // Every key without a state row has a master row.
  ghost predicate MastersThere(missing: seq<Text>, masters: seq<Master>) {
    forall k <- missing :: HasMaster(masters, k)
  }

  lemma {:induction false} KeysOfHas(rows: seq<Daily>, key: Text)
    ensures key in KeysOf(rows) <==> HasRow(rows, key)
    decreases |rows|
  {
    if rows != [] {
      var m := |rows| - 1;
      KeysOfHas(rows[..m], key);
      if i :| 0 <= i < m && KeyOf(rows[i]) == key { assert KeyOf(rows[..m][i]) == key; }
    }
  }

  lemma {:induction false} WithoutHas(keys: seq<Text>, there: set<Text>, key: Text)
    ensures key in Without(keys, there) <==> key in keys && key !in there
  {
    if keys != [] {
      WithoutHas(keys[1..], there, key);
      assert key in keys <==> key == keys[0] || key in keys[1..];
    }
  }

  // The missing keys are those of the selected rows that the customer has no state for.
  lemma {:induction false} MissingHas(rows: seq<Daily>, there: set<Text>, before: TextOrder, key: Text)
    ensures key in MissingKeys(rows, there, before) <==> key !in there && HasRow(rows, key)
  {
    Sorting.SortHas(Without(KeysOf(rows), there), before, key);
    WithoutHas(KeysOf(rows), there, key);
    KeysOfHas(rows, key);
  }

  // A plan: the sources it was made from and its chunks.
  datatype Plan = Plan(sources: Sources, chunks: seq<Chunk>)

  ghost predicate MadeFrom(plan: Plan, scope: Scope, customer: Snapshot, daily: seq<Daily>, accounts: seq<Account>,
                           c: Context, rowOrder: RowOrder, groupOrder: GroupOrder, textOrder: TextOrder)
  {
    && plan.sources.rows == SelectSourceRows(daily, customer.observed, scope, rowOrder)
    && CountsAgree(plan.sources.rows, scope, groupOrder)
    && plan.sources.accounts == AccountsFor(scope, accounts, customer) && AccountsAgree(scope, plan.sources.accounts)
    && plan.sources.missing == MissingKeys(plan.sources.rows, customer.stateKeys, textOrder)
    && Sourced(plan.sources)
    && IsIndex(plan.sources.masters)
    && (forall k <- plan.sources.latest :: IsLatest(plan.sources.rows, k, plan.sources.latest[k]))
    && plan.chunks == ChunksFor(scope, c, plan.sources, Pairs(scope.platforms))
  }

  method CheckBoundaries(scope: Scope, customer: Snapshot) returns (there: bool)
    ensures there <==> Boundaries(scope, customer)
  {
    for i := 0 to |scope.platforms|
      invariant forall j | 0 <= j < i :: scope.platforms[j].platform in customer.observed
    {
      if scope.platforms[i].platform !in customer.observed { return false; }
    }
    there := InScope(scope, FACEBOOK) ==> FACEBOOK in customer.accounts;
  }

  method CheckMasters(missing: seq<Text>, index: map<Text, Master>, latest: map<Text, Daily>) returns (there: bool)
    ensures there <==> forall k <- missing :: k in index && k in latest
  {
    for i := 0 to |missing|
      invariant forall j | 0 <= j < i :: missing[j] in index && missing[j] in latest
    {
      if missing[i] !in index || missing[i] !in latest {
        assert missing[i] in missing;
        return false;
      }
    }
    there := true;
  }

  predicate Acceptable(scope: Scope, rows: seq<Daily>, accounts: seq<Account>, groupOrder: GroupOrder) {
    CountsAgree(rows, scope, groupOrder) && (InScope(scope, FACEBOOK) ==> |accounts| == 1 && accounts[0].date == scope.periodEnd)
  }

  // The plan from rows and accounts that are selected and acceptable.
  method PlanFrom(scope: Scope, rows: seq<Daily>, accounts: seq<Account>, masters: seq<Master>, there: set<Text>, c: Context,
                  textOrder: TextOrder)
    returns (r: Result<Plan, Error>)
    ensures r.Ok? <==> !Repeated(masters) && MastersThere(MissingKeys(rows, there, textOrder), masters)
    ensures r.Ok? ==>
      var s := r.value.sources;
      && s.rows == rows && s.accounts == accounts && s.missing == MissingKeys(rows, there, textOrder)
      && Sourced(s) && IsIndex(s.masters) && (forall k <- s.latest :: IsLatest(rows, k, s.latest[k]))
      && r.value.chunks == ChunksFor(scope, c, s, Pairs(scope.platforms))
  {
    var index := IndexMasterRows(masters);
    if index.Err? { return Err(index.error); }
    var latest := LatestRowsByContent(rows);
    var missing := MissingKeys(rows, there, textOrder);
    forall k <- missing ensures k in latest { MissingHas(rows, there, textOrder, k); }
    var complete := CheckMasters(missing, index.value, latest);
    if !complete { return Err(MasterMissing); }
    var sources := Sources(rows, accounts, missing, index.value, latest);
    var chunks := BuildChunks(scope, c, sources);
    r := Ok(Plan(sources, chunks));
  }

  method BuildScopedBridgePlan(scope: Scope, customer: Snapshot, daily: seq<Daily>, masters: seq<Master>, accounts: seq<Account>,
                               c: Context, rowOrder: RowOrder, groupOrder: GroupOrder, textOrder: TextOrder)
    returns (r: Result<Plan, Error>)
    ensures var rows := SelectSourceRows(daily, customer.observed, scope, rowOrder);
      r.Ok? <==> Boundaries(scope, customer) && Acceptable(scope, rows, AccountsFor(scope, accounts, customer), groupOrder)
                 && !Repeated(masters) && MastersThere(MissingKeys(rows, customer.stateKeys, textOrder), masters)
    ensures r.Ok? ==> MadeFrom(r.value, scope, customer, daily, accounts, c, rowOrder, groupOrder, textOrder)
  {
    var bounded := CheckBoundaries(scope, customer);
    if !bounded { return Err(BoundaryMissing); }
    var rows := SelectSourceRows(daily, customer.observed, scope, rowOrder);
    if !CountsAgree(rows, scope, groupOrder) { return Err(CountDrift); }
    var chosen := AccountsFor(scope, accounts, customer);
    if !Acceptable(scope, rows, chosen, groupOrder) { return Err(AccountSourceInvalid); }
    r := PlanFrom(scope, rows, chosen, masters, customer.stateKeys, c, textOrder);
  }
}
