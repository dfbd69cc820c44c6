// What a bridge plan covers and what running it leaves in the customer's tables.
module OrganicBridgeRuns {
  import opened Wrappers
  import opened Lexicographic
  import opened JsonValues
  import opened InsertOrIgnore
  import opened OrganicBridge
  import Sorting

  // The chunks partition the selected rows ------------------------------------------------------------------

  ghost predicate HasGroup(groups: seq<Group>, platform: Text, date: Text) {
    exists i :: 0 <= i < |groups| && groups[i].platform == platform && groups[i].date == date
  }

  lemma {:induction false} AddToGroupHas(groups: seq<Group>, p: Text, d: Text, platform: Text, date: Text)
    ensures HasGroup(AddToGroup(groups, p, d), platform, date) <==>
      (p == platform && d == date) || HasGroup(groups, platform, date)
  {
    var after := AddToGroup(groups, p, d);
    if groups == [] {
      assert after[0].platform == p && after[0].date == d;
    } else if groups[0].platform == p && groups[0].date == d {
      assert after[0].platform == p && after[0].date == d;
      forall i | 0 <= i < |groups| ensures after[i].platform == groups[i].platform && after[i].date == groups[i].date { }
    } else {
      AddToGroupHas(groups[1..], p, d, platform, date);
      HasGroupCons(groups[0], groups[1..], platform, date);
      HasGroupCons(groups[0], AddToGroup(groups[1..], p, d), platform, date);
      assert [groups[0]] + groups[1..] == groups;
    }
  }

  lemma {:induction false} HasGroupCons(g: Group, groups: seq<Group>, platform: Text, date: Text)
    ensures HasGroup([g] + groups, platform, date) <==> (g.platform == platform && g.date == date) || HasGroup(groups, platform, date)
  {
    var all := [g] + groups;
    assert all[0] == g && forall i | 0 <= i < |groups| :: all[i + 1] == groups[i];
    if i :| 0 < i < |all| && all[i].platform == platform && all[i].date == date { assert groups[i - 1] == all[i]; }
  }

  lemma {:induction false} RowHasGroup(rows: seq<Daily>, i: nat)
    requires i < |rows|
    ensures HasGroup(GroupCounts(rows), rows[i].platform, rows[i].date)
    decreases |rows|
  {
    var m := |rows| - 1;
    AddToGroupHas(GroupCounts(rows[..m]), rows[m].platform, rows[m].date, rows[i].platform, rows[i].date);
    if i < m { RowHasGroup(rows[..m], i); }
  }

  ghost predicate HasPair(pairs: seq<Pair>, platform: Text, date: Text) {
    exists i :: 0 <= i < |pairs| && pairs[i].platform == platform && pairs[i].date == date
  }

  lemma {:induction false} PairsOfAt(e: Expected, j: nat)
    requires j <= |e.dates|
    ensures |PairsOf(e, j)| == |e.dates| - j
    ensures forall i | 0 <= i < |PairsOf(e, j)| ::
      PairsOf(e, j)[i] == Pair(e.platform, e.dates[i + j].date, i + j == |e.dates| - 1)
    decreases |e.dates| - j
  {
    if j < |e.dates| { PairsOfAt(e, j + 1); }
  }

  ghost predicate ValidPlatforms(platforms: seq<Expected>) {
    && (forall i | 0 <= i < |platforms| :: ValidDates(platforms[i]))
    && (forall i, j | 0 <= i < j < |platforms| :: platforms[i].platform != platforms[j].platform)
  }

  // Every expected group has a pair...
  lemma {:induction false} GroupHasPair(platforms: seq<Expected>, g: Group)
    requires ValidPlatforms(platforms) && g in ExpectedGroups(platforms)
    ensures HasPair(Pairs(platforms), g.platform, g.date)
  {
    var first, rest := PairsOf(platforms[0], 0), Pairs(platforms[1..]);
    PairsOfAt(platforms[0], 0);
    if g in platforms[0].dates {
      var j :| 0 <= j < |platforms[0].dates| && platforms[0].dates[j] == g;
      assert (first + rest)[j] == first[j] && first[j].platform == g.platform;
    } else {
      GroupHasPair(platforms[1..], g);
      var i :| 0 <= i < |rest| && rest[i].platform == g.platform && rest[i].date == g.date;
      assert (first + rest)[|first| + i] == rest[i];
    }
  }

  // ...and no two pairs are for one platform and date.
  ghost predicate DistinctPairs(pairs: seq<Pair>) {
    forall i, j | 0 <= i < j < |pairs| :: pairs[i].platform != pairs[j].platform || pairs[i].date != pairs[j].date
  }

  lemma {:induction false} PairsHavePlatform(platforms: seq<Expected>, k: nat)
    requires k < |Pairs(platforms)|
    ensures exists i :: 0 <= i < |platforms| && platforms[i].platform == Pairs(platforms)[k].platform
  {
    PairsOfAt(platforms[0], 0);
    var first := PairsOf(platforms[0], 0);
    if k >= |first| {
      PairsHavePlatform(platforms[1..], k - |first|);
      var i :| 0 <= i < |platforms[1..]| && platforms[1..][i].platform == Pairs(platforms[1..])[k - |first|].platform;
      assert platforms[i + 1].platform == Pairs(platforms)[k].platform;
    }
  }

  lemma {:induction false} PairsAreDistinct(platforms: seq<Expected>)
    requires ValidPlatforms(platforms)
    ensures DistinctPairs(Pairs(platforms))
  {
    if platforms != [] {
      var first, rest := PairsOf(platforms[0], 0), Pairs(platforms[1..]);
      PairsOfAt(platforms[0], 0);
      PairsAreDistinct(platforms[1..]);
      forall i, j | 0 <= i < |first| && 0 <= j < |rest| ensures first[i].platform != rest[j].platform {
        PairsHavePlatform(platforms[1..], j);
      }
      forall i, j | 0 <= i < j < |first + rest|
        ensures (first + rest)[i].platform != (first + rest)[j].platform || (first + rest)[i].date != (first + rest)[j].date
      {
        if j < |first| { assert platforms[0].dates[i].date != platforms[0].dates[j].date; }
      }
    }
  }

  function FlatRows(rows: seq<Daily>, pairs: seq<Pair>): seq<Daily> {
    if pairs == [] then [] else RowsOf(rows, pairs[0].platform, pairs[0].date) + FlatRows(rows, pairs[1..])
  }

  lemma {:induction false} ChunkRowsAreFlat(scope: Scope, c: Context, s: Sources, pairs: seq<Pair>)
    requires Sourced(s)
    ensures RowsIn(ChunksFor(scope, c, s, pairs)) == FlatRows(s.rows, pairs)
  {
    if pairs != [] {
      ChunkRowsAreFlat(scope, c, s, pairs[1..]);
      assert ChunksFor(scope, c, s, pairs)[1..] == ChunksFor(scope, c, s, pairs[1..]);
    }
  }

  lemma {:induction false} RowsOfCons(row: Daily, rest: seq<Daily>, platform: Text, date: Text)
    ensures RowsOf([row] + rest, platform, date)
      == if row.platform == platform && row.date == date then [row] + RowsOf(rest, platform, date) else RowsOf(rest, platform, date)
  {
    assert ([row] + rest)[1..] == rest;
  }

  lemma {:induction false} NoPairNoRow(row: Daily, rest: seq<Daily>, pairs: seq<Pair>)
    requires !HasPair(pairs, row.platform, row.date)
    ensures FlatRows([row] + rest, pairs) == FlatRows(rest, pairs)
  {
    if pairs != [] {
      assert pairs[0].platform != row.platform || pairs[0].date != row.date;
      RowsOfCons(row, rest, pairs[0].platform, pairs[0].date);
      TailHasNoPair(pairs, row.platform, row.date);
      NoPairNoRow(row, rest, pairs[1..]);
    }
  }

  lemma {:induction false} TailHasNoPair(pairs: seq<Pair>, platform: Text, date: Text)
    requires pairs != [] && !HasPair(pairs, platform, date)
    ensures !HasPair(pairs[1..], platform, date)
  {
    forall i | 0 <= i < |pairs[1..]| ensures pairs[1..][i] == pairs[i + 1] { }
  }

  lemma {:induction false} OneMore(row: Daily, a: seq<Daily>, b: seq<Daily>, c: seq<Daily>)
    requires multiset(b) == multiset{row} + multiset(c)
    ensures multiset(a + b) == multiset{row} + multiset(a + c)
    ensures multiset(([row] + a) + c) == multiset{row} + multiset(a + c)
  {
    assert ([row] + a) + c == [row] + (a + c);
  }

  lemma {:induction false} OwnPairOnce(pairs: seq<Pair>, platform: Text, date: Text)
    requires DistinctPairs(pairs) && HasPair(pairs, platform, date)
    ensures DistinctPairs(pairs[1..])
    ensures HasPair(pairs[1..], platform, date) <==> !(pairs[0].platform == platform && pairs[0].date == date)
  {
    forall i | 0 <= i < |pairs[1..]| ensures pairs[1..][i] == pairs[i + 1] { }
    if !(pairs[0].platform == platform && pairs[0].date == date) {
      var i :| 0 <= i < |pairs| && pairs[i].platform == platform && pairs[i].date == date;
      assert pairs[1..][i - 1] == pairs[i];
    }
  }

  // A row is in the chunk of its own pair and in no other.
  lemma {:induction false} OneRowOneChunk(row: Daily, rest: seq<Daily>, pairs: seq<Pair>)
    requires DistinctPairs(pairs) && HasPair(pairs, row.platform, row.date)
    ensures multiset(FlatRows([row] + rest, pairs)) == multiset{row} + multiset(FlatRows(rest, pairs))
  {
    var here, later := RowsOf(rest, pairs[0].platform, pairs[0].date), FlatRows(rest, pairs[1..]);
    RowsOfCons(row, rest, pairs[0].platform, pairs[0].date);
    OwnPairOnce(pairs, row.platform, row.date);
    if pairs[0].platform == row.platform && pairs[0].date == row.date {
      NoPairNoRow(row, rest, pairs[1..]);
      OneMore(row, here, [row] + later, later);
    } else {
      OneRowOneChunk(row, rest, pairs[1..]);
      OneMore(row, here, FlatRows([row] + rest, pairs[1..]), later);
    }
  }

  lemma {:induction false} FlatIsAll(rows: seq<Daily>, pairs: seq<Pair>)
    requires DistinctPairs(pairs) && forall i | 0 <= i < |rows| :: HasPair(pairs, rows[i].platform, rows[i].date)
    ensures multiset(FlatRows(rows, pairs)) == multiset(rows)
  {
    if rows == [] {
      FlatOfNone(pairs);
    } else {
      FlatIsAll(rows[1..], pairs);
      OneRowOneChunk(rows[0], rows[1..], pairs);
      assert [rows[0]] + rows[1..] == rows;
    }
  }

  lemma {:induction false} FlatOfNone(pairs: seq<Pair>)
    ensures FlatRows([], pairs) == []
  {
    if pairs != [] { FlatOfNone(pairs[1..]); }
  }

  lemma {:induction false} PlanRowHasPair(scope: Scope, rows: seq<Daily>, groupOrder: GroupOrder, i: nat)
    requires ValidScope(scope) && CountsAgree(rows, scope, groupOrder) && i < |rows|
    ensures HasPair(Pairs(scope.platforms), rows[i].platform, rows[i].date)
  {
    RowHasGroup(rows, i);
    var groups := GroupCounts(rows);
    var g :| 0 <= g < |groups| && groups[g].platform == rows[i].platform && groups[g].date == rows[i].date;
    Sorting.SortHas(groups, groupOrder, groups[g]);
    assert groups[g] in groups;
    GroupHasPair(scope.platforms, groups[g]);
  }

  // Every selected row is in exactly one chunk, as often as it was selected, and nothing else is.
  lemma {:induction false} ChunksPartitionRows(scope: Scope, c: Context, s: Sources, groupOrder: GroupOrder)
    requires ValidScope(scope) && Sourced(s) && CountsAgree(s.rows, scope, groupOrder)
    ensures multiset(RowsIn(ChunksFor(scope, c, s, Pairs(scope.platforms)))) == multiset(s.rows)
  {
    var pairs := Pairs(scope.platforms);
    PairsAreDistinct(scope.platforms);
    forall i | 0 <= i < |s.rows| ensures HasPair(pairs, s.rows[i].platform, s.rows[i].date) {
      PlanRowHasPair(scope, s.rows, groupOrder, i);
    }
    FlatIsAll(s.rows, pairs);
    ChunkRowsAreFlat(scope, c, s, pairs);
  }

  // Every row of every chunk is newer than the customer's boundary and not after the period.
  lemma {:induction false} SelectedAreNewer(rows: seq<Daily>, boundaries: map<Text, Text>, scope: Scope, before: RowOrder, r: Daily)
    ensures r in SelectSourceRows(rows, boundaries, scope, before) <==> r in rows && Selected(r, boundaries, scope)
  {
    Sorting.SortHas(Select(rows, boundaries, scope), before, r);
    SelectHas(rows, boundaries, scope, r);
  }

  lemma {:induction false} SelectHas(rows: seq<Daily>, boundaries: map<Text, Text>, scope: Scope, r: Daily)
    ensures r in Select(rows, boundaries, scope) <==> r in rows && Selected(r, boundaries, scope)
  {
    if rows != [] {
      SelectHas(rows[1..], boundaries, scope, r);
      assert r in rows <==> r == rows[0] || r in rows[1..];
    }
  }

  // Every observed content has a state row ----------------------------------------------------------------------

  // A state row for the content, by its key or by its identity.
  ghost predicate HasState(db: seq<Row>, platform: Text, content: Text) {
    exists i :: 0 <= i < |db| && db[i].table == States
                && (db[i].primary == [ContentKey(platform, content)] || db[i].unique == [platform, ACCOUNT_KEY, content])
  }

  // The snapshot's keys are those of state rows that are there.
  ghost predicate TrueSnapshot(db: seq<Row>, stateKeys: set<Text>) {
    forall k <- stateKeys :: exists i :: 0 <= i < |db| && db[i].table == States && db[i].primary == [k]
  }

  lemma {:induction false} KeyStartsWithPlatform(platform: Text, content: Text)
    ensures platform + [COLON] <= ContentKey(platform, content)
  {
    assert ContentKey(platform, content)[..|platform| + 1] == platform + [COLON];
  }

  // Neither platform's name is the start of the other's, so a key tells platform and content.
  lemma {:induction false} KeyTellsContent(p: Text, a: Text, q: Text, b: Text)
    requires p in ALLOWED && q in ALLOWED && ContentKey(p, a) == ContentKey(q, b)
    ensures p == q && a == b
  {
    assert FACEBOOK[0] == 102 && TIKTOK[0] == 116;
    assert ContentKey(p, a)[0] == p[0] && ContentKey(q, b)[0] == q[0];
    var n := |p| + 1 + |ACCOUNT_KEY| + 1;
    assert ContentKey(p, a)[n..] == a && ContentKey(q, b)[n..] == b;
  }

  lemma {:induction false} LastPairAt(platforms: seq<Expected>, k: nat) returns (i: nat)
    requires ValidPlatforms(platforms) && k < |platforms| && platforms[k].dates != []
    ensures i < |Pairs(platforms)|
    ensures Pairs(platforms)[i] == Pair(platforms[k].platform, platforms[k].dates[|platforms[k].dates| - 1].date, true)
  {
    PairsOfAt(platforms[0], 0);
    var first := PairsOf(platforms[0], 0);
    if k == 0 {
      i := |first| - 1;
    } else {
      var j := LastPairAt(platforms[1..], k - 1);
      i := |first| + j;
    }
  }

  lemma {:induction false} DateIndexOf(dates: seq<Group>, j: nat)
    requires j < |dates|
    ensures DateIndex(dates, dates[j].date).Some?
  {
    if j > 0 && dates[0].date != dates[j].date { DateIndexOf(dates[1..], j - 1); }
  }

  lemma {:induction false} DatesOfPlatform(platforms: seq<Expected>, k: nat)
    requires k < |platforms| && forall i, j | 0 <= i < j < |platforms| :: platforms[i].platform != platforms[j].platform
    ensures DatesOf(platforms, platforms[k].platform) == platforms[k].dates
  {
    if k > 0 {
      assert platforms[0].platform != platforms[k].platform;
      DatesOfPlatform(platforms[1..], k - 1);
    }
  }

  // The last date of a platform has a time of observation.
  lemma {:induction false} LastIsObserved(scope: Scope, accounts: seq<Account>, c: Context, k: nat)
    requires ValidScope(scope) && AccountsAgree(scope, accounts) && k < |scope.platforms|
    ensures var e := scope.platforms[k]; ObservedAt(scope, accounts, c, e.platform, e.dates[|e.dates| - 1].date).Some?
  {
    var e := scope.platforms[k];
    assert FACEBOOK[0] == 102 && TIKTOK[0] == 116;
    if e.platform != FACEBOOK {
      DatesOfPlatform(scope.platforms, k);
      DateIndexOf(e.dates, |e.dates| - 1);
    }
  }

  lemma {:induction false} StateInsertIn(keys: seq<Text>, masters: map<Text, Master>, latest: map<Text, Daily>, observed: Option<int>, k: Text)
    requires (forall k <- keys :: k in masters && k in latest) && k in keys
    ensures ContentStateInsert(masters[k], latest[k], observed) in StateInserts(keys, masters, latest, observed)
  {
    if keys[0] != k { StateInsertIn(keys[1..], masters, latest, observed, k); }
  }

  lemma {:induction false} ChunkStatementsIn(scope: Scope, c: Context, s: Sources, pairs: seq<Pair>, i: nat, r: Row)
    requires Sourced(s) && i < |pairs| && r in ChunkFor(scope, c, s, pairs[i]).statements
    ensures r in StatementsIn(ChunksFor(scope, c, s, pairs))
  {
    var chunks := ChunksFor(scope, c, s, pairs);
    assert chunks[1..] == ChunksFor(scope, c, s, pairs[1..]);
    if i > 0 { ChunkStatementsIn(scope, c, s, pairs[1..], i - 1, r); }
  }

  // The plan holds a complete state statement for every missing key of a platform in scope.
  lemma {:induction false} MissingKeyHasStatement(scope: Scope, c: Context, s: Sources, k: nat, key: Text)
    requires ValidScope(scope) && Sourced(s) && AccountsAgree(scope, s.accounts) && k < |scope.platforms|
    requires key in s.missing && scope.platforms[k].platform + [COLON] <= key
    ensures exists r :: r in StatementsIn(ChunksFor(scope, c, s, Pairs(scope.platforms))) && r.complete
              && r == ContentStateInsert(s.masters[key], s.latest[key], Some(0))
  {
    var pairs := Pairs(scope.platforms);
    var i := LastPairAt(scope.platforms, k);
    var observed := ObservedAt(scope, s.accounts, c, pairs[i].platform, pairs[i].date);
    LastIsObserved(scope, s.accounts, c, k);
    KeysWithHas(s.missing, pairs[i].platform + [COLON], key);
    StateKeysSourced(pairs[i], s);
    StateInsertIn(StateKeysFor(pairs[i], s.missing), s.masters, s.latest, observed, key);
    var r := ContentStateInsert(s.masters[key], s.latest[key], observed);
    assert r in ChunkFor(scope, c, s, pairs[i]).statements;
    ChunkStatementsIn(scope, c, s, pairs, i, r);
  }

  lemma {:induction false} StateStays(db: seq<Row>, later: seq<Row>, platform: Text, content: Text)
    requires HasState(db, platform, content) && db <= later
    ensures HasState(later, platform, content)
  {
    var i :| 0 <= i < |db| && db[i].table == States
             && (db[i].primary == [ContentKey(platform, content)] || db[i].unique == [platform, ACCOUNT_KEY, content]);
    assert later[i] == db[i];
  }

  // Main result: after the statements have run, every content the plan observed has a state row, whether it was
  // there, is new, or clashed with another row of the same identity.
  lemma {:induction false} EveryContentHasState(plan: Plan, scope: Scope, customer: Snapshot, daily: seq<Daily>, accounts: seq<Account>,
                                    c: Context, rowOrder: RowOrder, groupOrder: GroupOrder, textOrder: TextOrder,
                                    db: seq<Row>, i: nat)
    requires ValidScope(scope) && TrueSnapshot(db, customer.stateKeys)
    requires MadeFrom(plan, scope, customer, daily, accounts, c, rowOrder, groupOrder, textOrder) && i < |plan.sources.rows|
    ensures var row := plan.sources.rows[i];
      HasState(Execute(db, StatementsIn(plan.chunks)), row.platform, row.content)
  {
    var s, row, statements := plan.sources, plan.sources.rows[i], StatementsIn(plan.chunks);
    var after, key := Execute(db, statements), KeyOf(row);
    OnlyAppends(db, statements);
    if key in customer.stateKeys {
      var j :| 0 <= j < |db| && db[j].table == States && db[j].primary == [key];
      assert HasState(db, row.platform, row.content);
      StateStays(db, after, row.platform, row.content);
    } else {
      assert HasRow(s.rows, key);
      MissingHas(s.rows, customer.stateKeys, textOrder, key);
      assert row in s.rows;
      SelectedAreNewer(daily, customer.observed, scope, rowOrder, row);
      var k :| 0 <= k < |scope.platforms| && scope.platforms[k].platform == row.platform;
      KeyStartsWithPlatform(row.platform, row.content);
      MissingKeyHasStatement(scope, c, s, k, key);
      var r :| r in statements && r.complete && r == ContentStateInsert(s.masters[key], s.latest[key], Some(0));
      KeyTellsContent(s.masters[key].platform, s.masters[key].content, row.platform, row.content);
      var j :| 0 <= j < |statements| && statements[j] == r;
      ExecutedAreIgnored(db, statements, j);
      var m :| 0 <= m < |after| && Clash(after[m], r);
      assert HasState(after, row.platform, row.content);
    }
  }

  // Which rows end with an observation ----------------------------------------------------------------------------

  // An observation of the row at that time, by its key or by its identity.
  ghost predicate HasObservation(db: seq<Row>, key: seq<Text>) {
    exists i :: 0 <= i < |db| && db[i].table == Observations && (db[i].primary == key || db[i].unique == key)
  }

  function ObservationKey(c: Context, r: Daily, observed: Option<int>): seq<Text> { [KeyOf(r), TimeText(c, observed), BACKFILL] }

  // Numbers are not written as the word for no value.
  ghost predicate NumbersHaveDigits(c: Context) { forall n :: c.textOf(n) != Ascii("undefined") }

  lemma {:induction false} AddedAreStatements(db: seq<Row>, statements: seq<Row>, r: Row)
    requires r in Execute(db, statements)
    ensures r in db || (r in statements && r.complete)
    decreases |statements|
  {
    if statements != [] { AddedAreStatements(InsertIgnoring(db, statements[0]), statements[1..], r); }
  }

  predicate WritesTime(c: Context, n: int, t: Text) { t == c.textOf(n) }

  // A statement that adds an observation gives it a time that is a number.
  ghost predicate Timed(c: Context, r: Row) {
    r.table == Observations && r.complete ==>
      r.primary == r.unique && |r.primary| == 3 && exists n: int :: WritesTime(c, n, r.primary[1])
  }

  lemma {:induction false} RowInsertsTimed(c: Context, pair: Pair, rows: seq<Daily>, observed: Option<int>)
    ensures forall r <- RowInserts(c, pair, rows, observed) :: Timed(c, r)
  {
    if rows != [] {
      RowInsertsTimed(c, pair, rows[1..], observed);
      var r := ObservationInsert(c, rows[0], observed);
      assert Timed(c, r) by {
        if r.complete { assert WritesTime(c, observed.value, r.primary[1]); }
      }
    }
  }

  lemma {:induction false} StateInsertsTimed(c: Context, keys: seq<Text>, masters: map<Text, Master>, latest: map<Text, Daily>,
                                             observed: Option<int>)
    requires forall k <- keys :: k in masters && k in latest
    ensures forall r <- StateInserts(keys, masters, latest, observed) :: Timed(c, r)
  {
    if keys != [] { StateInsertsTimed(c, keys[1..], masters, latest, observed); }
  }

  lemma {:induction false} AccountInsertsTimed(c: Context, accounts: seq<Account>)
    ensures forall r <- AccountInserts(c, accounts) :: Timed(c, r)
  {
    if accounts != [] { AccountInsertsTimed(c, accounts[1..]); }
  }

  lemma {:induction false} StatementsTimed(scope: Scope, c: Context, s: Sources, pairs: seq<Pair>)
    requires Sourced(s)
    ensures forall r <- StatementsIn(ChunksFor(scope, c, s, pairs)) :: Timed(c, r)
  {
    if pairs != [] {
      var pair := pairs[0];
      var observed := ObservedAt(scope, s.accounts, c, pair.platform, pair.date);
      StatementsTimed(scope, c, s, pairs[1..]);
      assert ChunksFor(scope, c, s, pairs)[1..] == ChunksFor(scope, c, s, pairs[1..]);
      StateKeysSourced(pair, s);
      StateInsertsTimed(c, StateKeysFor(pair, s.missing), s.masters, s.latest, observed);
      RowInsertsTimed(c, pair, RowsOf(s.rows, pair.platform, pair.date), observed);
      AccountInsertsTimed(c, if pair.platform == FACEBOOK && pair.date == scope.periodEnd then s.accounts else []);
    }
  }

  lemma {:induction false} RowsOfHas(rows: seq<Daily>, i: nat)
    requires i < |rows|
    ensures rows[i] in RowsOf(rows, rows[i].platform, rows[i].date)
  {
    if i > 0 { RowsOfHas(rows[1..], i - 1); }
  }

  lemma {:induction false} RowInsertIn(c: Context, pair: Pair, rows: seq<Daily>, observed: Option<int>, row: Daily)
    requires row in rows
    ensures ObservationInsert(c, row, observed) in RowInserts(c, pair, rows, observed)
  {
    if rows[0] != row { RowInsertIn(c, pair, rows[1..], observed, row); }
  }

  // Every row of a plan has its observation statement in it, with the time of its platform and date.
  lemma {:induction false} RowHasStatement(scope: Scope, c: Context, s: Sources, pairs: seq<Pair>, i: nat)
    requires Sourced(s) && i < |s.rows| && HasPair(pairs, s.rows[i].platform, s.rows[i].date)
    ensures var row := s.rows[i];
      ObservationInsert(c, row, ObservedAt(scope, s.accounts, c, row.platform, row.date)) in StatementsIn(ChunksFor(scope, c, s, pairs))
  {
    var row := s.rows[i];
    var observed := ObservedAt(scope, s.accounts, c, row.platform, row.date);
    var k :| 0 <= k < |pairs| && pairs[k].platform == row.platform && pairs[k].date == row.date;
    RowsOfHas(s.rows, i);
    RowInsertIn(c, pairs[k], RowsOf(s.rows, row.platform, row.date), observed, row);
    ChunkStatementsIn(scope, c, s, pairs, k, ObservationInsert(c, row, observed));
  }

  lemma {:induction false} PairIsExpected(platforms: seq<Expected>, platform: Text, date: Text) returns (k: nat, j: nat)
    requires HasPair(Pairs(platforms), platform, date)
    ensures k < |platforms| && platforms[k].platform == platform && j < |platforms[k].dates| && platforms[k].dates[j].date == date
  {
    var i :| 0 <= i < |Pairs(platforms)| && Pairs(platforms)[i].platform == platform && Pairs(platforms)[i].date == date;
    PairsOfAt(platforms[0], 0);
    var first := PairsOf(platforms[0], 0);
    if i < |first| {
      k, j := 0, i;
    } else {
      assert Pairs(platforms[1..])[i - |first|] == Pairs(platforms)[i];
      k, j := PairIsExpected(platforms[1..], platform, date);
      k := k + 1;
    }
  }

  // A row of a plan has a time exactly when it is not a Facebook row of a date before the end of the period.
  lemma {:induction false} TimedExactly(scope: Scope, accounts: seq<Account>, c: Context, platform: Text, date: Text)
    requires ValidScope(scope) && AccountsAgree(scope, accounts) && HasPair(Pairs(scope.platforms), platform, date)
    ensures ObservedAt(scope, accounts, c, platform, date).Some? <==> platform == TIKTOK || date == scope.periodEnd
  {
    var k, j := PairIsExpected(scope.platforms, platform, date);
    assert FACEBOOK[0] == 102 && TIKTOK[0] == 116;
    if platform != FACEBOOK {
      DatesOfPlatform(scope.platforms, k);
      DateIndexOf(scope.platforms[k].dates, j);
    }
  }

  lemma {:induction false} StatementLeavesKey(db: seq<Row>, statements: seq<Row>, c: Context, row: Daily, observed: Option<int>)
    requires ObservationInsert(c, row, observed) in statements && observed.Some?
    ensures HasObservation(Execute(db, statements), ObservationKey(c, row, observed))
  {
    var r := ObservationInsert(c, row, observed);
    var j :| 0 <= j < |statements| && statements[j] == r;
    ExecutedAreIgnored(db, statements, j);
    var after := Execute(db, statements);
    var m :| 0 <= m < |after| && Clash(after[m], r);
    assert after[m].primary == ObservationKey(c, row, observed) || after[m].unique == ObservationKey(c, row, observed);
  }

  lemma {:induction false} UntimedKeyIsOld(db: seq<Row>, statements: seq<Row>, c: Context, row: Daily)
    requires NumbersHaveDigits(c) && forall r <- statements :: Timed(c, r)
    requires HasObservation(Execute(db, statements), ObservationKey(c, row, None))
    ensures HasObservation(db, ObservationKey(c, row, None))
  {
    var after, key := Execute(db, statements), ObservationKey(c, row, None);
    forall r <- statements | r.table == Observations && r.complete ensures r.primary != key && r.unique != key {
      assert Timed(c, r);
      assert key[1] == Ascii("undefined");
    }
    var m :| 0 <= m < |after| && after[m].table == Observations && (after[m].primary == key || after[m].unique == key);
    AddedAreStatements(db, statements, after[m]);
    assert after[m] in db;
    var i :| 0 <= i < |db| && db[i] == after[m];
  }

  // Main result: after the statements have run, a row of the plan has its observation exactly when one was
  // there before or the row is TikTok's or of the last day of the period; the statement of a Facebook row of an
  // earlier day has no time and is ignored.
  lemma {:induction false} ObservedExactlyWhenTimed(plan: Plan, scope: Scope, customer: Snapshot, daily: seq<Daily>,
                                                    accounts: seq<Account>, c: Context, rowOrder: RowOrder, groupOrder: GroupOrder,
                                                    textOrder: TextOrder, db: seq<Row>, i: nat)
    requires ValidScope(scope) && NumbersHaveDigits(c)
    requires MadeFrom(plan, scope, customer, daily, accounts, c, rowOrder, groupOrder, textOrder) && i < |plan.sources.rows|
    ensures var row := plan.sources.rows[i];
      var key := ObservationKey(c, row, ObservedAt(scope, plan.sources.accounts, c, row.platform, row.date));
      HasObservation(Execute(db, StatementsIn(plan.chunks)), key) <==>
        HasObservation(db, key) || row.platform == TIKTOK || row.date == scope.periodEnd
  {
    var s, row, statements := plan.sources, plan.sources.rows[i], StatementsIn(plan.chunks);
    var observed := ObservedAt(scope, s.accounts, c, row.platform, row.date);
    var key, after := ObservationKey(c, row, observed), Execute(db, statements);
    PlanRowHasPair(scope, s.rows, groupOrder, i);
    TimedExactly(scope, s.accounts, c, row.platform, row.date);
    RowHasStatement(scope, c, s, Pairs(scope.platforms), i);
    StatementsTimed(scope, c, s, Pairs(scope.platforms));
    OnlyAppends(db, statements);
    if observed.Some? {
      StatementLeavesKey(db, statements, c, row, observed);
    } else if HasObservation(after, key) {
      UntimedKeyIsOld(db, statements, c, row);
    }
    if HasObservation(db, key) { ObservationStays(db, after, key); }
  }

  lemma {:induction false} ObservationStays(db: seq<Row>, later: seq<Row>, key: seq<Text>)
    requires db <= later && HasObservation(db, key)
    ensures HasObservation(later, key)
  {
    var i :| 0 <= i < |db| && db[i].table == Observations && (db[i].primary == key || db[i].unique == key);
    assert later[i] == db[i];
  }

  // What is stored ------------------------------------------------------------------------------------------------

  // The time of a row of the j-th of n TikTok days counts back from the time of the plan, so that later days
  // have later times; the Facebook rows of the last day have the time their account row was fetched.
  lemma {:induction false} TimeOfDay(scope: Scope, accounts: seq<Account>, c: Context, k: nat, j: nat)
    requires ValidScope(scope) && AccountsAgree(scope, accounts) && k < |scope.platforms| && j < |scope.platforms[k].dates|
    ensures var e := scope.platforms[k]; var time := ObservedAt(scope, accounts, c, e.platform, e.dates[j].date);
      && (e.platform == TIKTOK ==> time == Some(c.generatedAt - |e.dates| + j))
      && (e.platform == FACEBOOK && e.dates[j].date == scope.periodEnd ==> |accounts| == 1 && time == Some(accounts[0].fetchedAt))
  {
    var e := scope.platforms[k];
    assert FACEBOOK[0] == 102 && TIKTOK[0] == 116;
    DatesOfPlatform(scope.platforms, k);
    DateIndexIs(e.dates, j);
  }

  lemma {:induction false} DateIndexIs(dates: seq<Group>, j: nat)
    requires j < |dates| && forall a, b | 0 <= a < b < |dates| :: dates[a].date != dates[b].date
    ensures DateIndex(dates, dates[j].date) == Some(j)
  {
    if j > 0 {
      assert dates[0].date != dates[j].date;
      DateIndexIs(dates[1..], j - 1);
    }
  }

  lemma {:induction false} OnePlatform(platforms: seq<Expected>, k: nat, l: nat)
    requires ValidPlatforms(platforms) && k < |platforms| && l < |platforms| && platforms[k].platform == platforms[l].platform
    ensures k == l
  {
  }

  // Rows of one platform on different days have different times.
  lemma {:induction false} TimesTellDays(scope: Scope, accounts: seq<Account>, c: Context, platform: Text, a: Text, b: Text)
    requires ValidScope(scope) && AccountsAgree(scope, accounts)
    requires HasPair(Pairs(scope.platforms), platform, a) && HasPair(Pairs(scope.platforms), platform, b)
    requires ObservedAt(scope, accounts, c, platform, a).Some?
    requires ObservedAt(scope, accounts, c, platform, a) == ObservedAt(scope, accounts, c, platform, b)
    ensures a == b
  {
    TimedExactly(scope, accounts, c, platform, a);
    TimedExactly(scope, accounts, c, platform, b);
    if platform == TIKTOK {
      var k, i := PairIsExpected(scope.platforms, platform, a);
      var l, j := PairIsExpected(scope.platforms, platform, b);
      OnePlatform(scope.platforms, k, l);
      TimeOfDay(scope, accounts, c, k, i);
      TimeOfDay(scope, accounts, c, k, j);
    }
  }

  // Different numbers are written differently, and none as the word for no value.
  ghost predicate WritesNumbers(c: Context) {
    NumbersHaveDigits(c) && forall m, n | c.textOf(m) == c.textOf(n) :: m == n
  }

  // The same content on the same day.
  predicate SameDay(a: Daily, b: Daily) { a.platform == b.platform && a.content == b.content && a.date == b.date }

  ghost predicate RowsInScope(scope: Scope, rows: seq<Daily>) {
    forall i | 0 <= i < |rows| :: rows[i].platform in ALLOWED && HasPair(Pairs(scope.platforms), rows[i].platform, rows[i].date)
  }

  function TimeOf(scope: Scope, c: Context, s: Sources, row: Daily): Option<int> {
    ObservedAt(scope, s.accounts, c, row.platform, row.date)
  }

  // Two rows with a time have one observation key only if they are of one content and day.
  lemma {:induction false} KeysTellDays(scope: Scope, c: Context, s: Sources, a: Daily, b: Daily)
    requires ValidScope(scope) && AccountsAgree(scope, s.accounts) && WritesNumbers(c) && RowsInScope(scope, s.rows)
    requires a in s.rows && b in s.rows && TimeOf(scope, c, s, a).Some? && TimeOf(scope, c, s, b).Some?
    ensures ObservationKey(c, a, TimeOf(scope, c, s, a)) == ObservationKey(c, b, TimeOf(scope, c, s, b)) <==> SameDay(a, b)
  {
    if ObservationKey(c, a, TimeOf(scope, c, s, a)) == ObservationKey(c, b, TimeOf(scope, c, s, b)) {
      var x, y := ObservationKey(c, a, TimeOf(scope, c, s, a)), ObservationKey(c, b, TimeOf(scope, c, s, b));
      assert x[0] == y[0] && x[1] == y[1];
      KeyTellsContent(a.platform, a.content, b.platform, b.content);
      TimesTellDays(scope, s.accounts, c, a.platform, a.date, b.date);
    }
  }

  // Every complete observation statement of a plan is that of one of its rows, at its time.
  ghost predicate IsRowStatement(scope: Scope, c: Context, s: Sources, r: Row) {
    r.table == Observations && r.complete ==>
      exists row :: row in s.rows && TimeOf(scope, c, s, row).Some? && r == ObservationInsert(c, row, TimeOf(scope, c, s, row))
  }

  lemma {:induction false} RowsOfAre(rows: seq<Daily>, platform: Text, date: Text, row: Daily)
    requires row in RowsOf(rows, platform, date)
    ensures row in rows && row.platform == platform && row.date == date
  {
    if row in RowsOf(rows[1..], platform, date) { RowsOfAre(rows[1..], platform, date, row); }
  }

  lemma {:induction false} RowInsertsAre(scope: Scope, c: Context, s: Sources, pair: Pair, rows: seq<Daily>)
    requires forall row <- rows :: row in s.rows && row.platform == pair.platform && row.date == pair.date
    ensures forall r <- RowInserts(c, pair, rows, ObservedAt(scope, s.accounts, c, pair.platform, pair.date)) ::
      IsRowStatement(scope, c, s, r)
  {
    if rows != [] {
      assert rows[0] in rows;
      RowInsertsAre(scope, c, s, pair, rows[1..]);
      var observed := ObservedAt(scope, s.accounts, c, pair.platform, pair.date);
      assert observed == TimeOf(scope, c, s, rows[0]);
      assert IsRowStatement(scope, c, s, ObservationInsert(c, rows[0], observed));
    }
  }

  lemma {:induction false} NoObservations(scope: Scope, c: Context, s: Sources, statements: seq<Row>)
    requires forall r <- statements :: r.table != Observations
    ensures forall r <- statements :: IsRowStatement(scope, c, s, r)
  {
  }

  ghost predicate IsStateOf(keys: seq<Text>, masters: map<Text, Master>, latest: map<Text, Daily>, observed: Option<int>, r: Row) {
    r.table == States && exists k :: k in keys && k in masters && k in latest && r == ContentStateInsert(masters[k], latest[k], observed)
  }

  lemma {:induction false} StateInsertsAre(keys: seq<Text>, masters: map<Text, Master>, latest: map<Text, Daily>, observed: Option<int>)
    requires forall k <- keys :: k in masters && k in latest
    ensures forall r <- StateInserts(keys, masters, latest, observed) :: IsStateOf(keys, masters, latest, observed, r)
  {
    if keys != [] { StateInsertsAre(keys[1..], masters, latest, observed); }
  }

  lemma {:induction false} AccountInsertsAre(c: Context, accounts: seq<Account>)
    ensures forall r <- AccountInserts(c, accounts) :: r.table != Observations && r.table != States
  {
    if accounts != [] { AccountInsertsAre(c, accounts[1..]); }
  }

  lemma {:induction false} RowStatements(scope: Scope, c: Context, s: Sources, pairs: seq<Pair>)
    requires Sourced(s)
    ensures forall r <- StatementsIn(ChunksFor(scope, c, s, pairs)) :: IsRowStatement(scope, c, s, r)
  {
    if pairs != [] {
      var pair := pairs[0];
      var observed := ObservedAt(scope, s.accounts, c, pair.platform, pair.date);
      var rows := RowsOf(s.rows, pair.platform, pair.date);
      RowStatements(scope, c, s, pairs[1..]);
      assert ChunksFor(scope, c, s, pairs)[1..] == ChunksFor(scope, c, s, pairs[1..]);
      StateKeysSourced(pair, s);
      StateInsertsAre(StateKeysFor(pair, s.missing), s.masters, s.latest, observed);
      forall row <- rows ensures row in s.rows && row.platform == pair.platform && row.date == pair.date {
        RowsOfAre(s.rows, pair.platform, pair.date, row);
      }
      RowInsertsAre(scope, c, s, pair, rows);
      AccountInsertsAre(c, if pair.platform == FACEBOOK && pair.date == scope.periodEnd then s.accounts else []);
    }
  }

  lemma {:induction false} FirstWithKey(statements: seq<Row>, table: Table, key: seq<Text>) returns (m: nat)
    requires exists r :: r in statements && r.table == table && r.complete && r.primary == key
    ensures m < |statements| && statements[m].table == table && statements[m].complete && statements[m].primary == key
    ensures forall i | 0 <= i < m :: !(statements[i].table == table && statements[i].complete && statements[i].primary == key)
  {
    if statements[0].table == table && statements[0].complete && statements[0].primary == key {
      m := 0;
    } else {
      var r :| r in statements && r.table == table && r.complete && r.primary == key;
      assert r in statements[1..];
      var k := FirstWithKey(statements[1..], table, key);
      m := k + 1;
    }
  }

  // The observation of a row at a time, with its own values.
  function Observation(c: Context, row: Daily, time: int): Row {
    var key := [row.platform + Ascii(":chemistry_k:") + row.content, c.textOf(time), Ascii("backfill")];
    Row(Observations, key, key, true, [row.date, row.sourceKey] + row.metrics)
  }

  lemma {:induction false} KeyWritten(platform: Text, content: Text)
    ensures ContentKey(platform, content) == platform + Ascii(":chemistry_k:") + content
  {
    assert [COLON] + (ACCOUNT_KEY + [COLON]) == Ascii(":chemistry_k:");
    assert platform + [COLON] + (ACCOUNT_KEY + [COLON] + content) == platform + ([COLON] + (ACCOUNT_KEY + [COLON])) + content;
  }

  lemma {:induction false} InsertsObservation(c: Context, row: Daily, observed: Option<int>)
    requires observed.Some?
    ensures ObservationInsert(c, row, observed) == Observation(c, row, observed.value)
  {
    KeyWritten(row.platform, row.content);
  }

  // A row of that content and day is stored with its values.
  ghost predicate StoredDay(scope: Scope, c: Context, s: Sources, row: Daily, stored: Daily, db: seq<Row>) {
    stored in s.rows && SameDay(stored, row) && TimeOf(scope, c, s, stored).Some?
    && Observation(c, stored, TimeOf(scope, c, s, stored).value) in db
  }

  lemma {:induction false} DayIsStored(scope: Scope, c: Context, s: Sources, db: seq<Row>, row: Daily) returns (stored: Daily)
    requires ValidScope(scope) && AccountsAgree(scope, s.accounts) && Sourced(s) && WritesNumbers(c) && RowsInScope(scope, s.rows)
    requires row in s.rows && TimeOf(scope, c, s, row).Some?
    requires !HasObservation(db, ObservationKey(c, row, TimeOf(scope, c, s, row)))
    ensures StoredDay(scope, c, s, row, stored, Execute(db, StatementsIn(ChunksFor(scope, c, s, Pairs(scope.platforms)))))
  {
    var statements := StatementsIn(ChunksFor(scope, c, s, Pairs(scope.platforms)));
    var key := ObservationKey(c, row, TimeOf(scope, c, s, row));
    var i :| 0 <= i < |s.rows| && s.rows[i] == row;
    RowHasStatement(scope, c, s, Pairs(scope.platforms), i);
    RowStatements(scope, c, s, Pairs(scope.platforms));
    assert ObservationInsert(c, row, TimeOf(scope, c, s, row)).primary == key;
    var m := FirstWithKey(statements, Observations, key);
    assert IsRowStatement(scope, c, s, statements[m]);
    stored :| stored in s.rows && TimeOf(scope, c, s, stored).Some?
      && statements[m] == ObservationInsert(c, stored, TimeOf(scope, c, s, stored));
    KeysTellDays(scope, c, s, stored, row);
    NoEarlierClash(scope, c, s, statements, m);
    forall d <- db ensures !Clash(d, statements[m]) {
      var j :| 0 <= j < |db| && db[j] == d;
    }
    StoredUnlessClash(db, statements, m);
    InsertsObservation(c, stored, TimeOf(scope, c, s, stored));
  }

  lemma {:induction false} PlanInScope(plan: Plan, scope: Scope, customer: Snapshot, daily: seq<Daily>, accounts: seq<Account>,
                                       c: Context, rowOrder: RowOrder, groupOrder: GroupOrder, textOrder: TextOrder)
    requires ValidScope(scope) && MadeFrom(plan, scope, customer, daily, accounts, c, rowOrder, groupOrder, textOrder)
    ensures RowsInScope(scope, plan.sources.rows)
  {
    var rows := plan.sources.rows;
    forall i | 0 <= i < |rows|
      ensures rows[i].platform in ALLOWED && HasPair(Pairs(scope.platforms), rows[i].platform, rows[i].date)
    {
      PlanRowHasPair(scope, rows, groupOrder, i);
      var k, j := PairIsExpected(scope.platforms, rows[i].platform, rows[i].date);
    }
  }

  // Main result: where no such observation was there before, every timed content and day of a plan is stored
  // with the values of one of its rows; a row that is the only one of its content and day with its own.
  lemma {:induction false} TimedRowsAreStored(plan: Plan, scope: Scope, customer: Snapshot, daily: seq<Daily>, accounts: seq<Account>,
                                              c: Context, rowOrder: RowOrder, groupOrder: GroupOrder, textOrder: TextOrder,
                                              db: seq<Row>, row: Daily)
    requires ValidScope(scope) && WritesNumbers(c)
    requires MadeFrom(plan, scope, customer, daily, accounts, c, rowOrder, groupOrder, textOrder) && row in plan.sources.rows
    requires row.platform == TIKTOK || row.date == scope.periodEnd
    requires !HasObservation(db, ObservationKey(c, row, TimeOf(scope, c, plan.sources, row)))
    ensures TimeOf(scope, c, plan.sources, row).Some?
    ensures exists stored :: StoredDay(scope, c, plan.sources, row, stored, Execute(db, StatementsIn(plan.chunks)))
    ensures (forall other <- plan.sources.rows :: SameDay(other, row) ==> other == row) ==>
      Observation(c, row, TimeOf(scope, c, plan.sources, row).value) in Execute(db, StatementsIn(plan.chunks))
  {
    PlanInScope(plan, scope, customer, daily, accounts, c, rowOrder, groupOrder, textOrder);
    var i :| 0 <= i < |plan.sources.rows| && plan.sources.rows[i] == row;
    TimedExactly(scope, plan.sources.accounts, c, row.platform, row.date);
    var stored := DayIsStored(scope, c, plan.sources, db, row);
  }

  lemma {:induction false} NoEarlierClash(scope: Scope, c: Context, s: Sources, statements: seq<Row>, m: nat)
    requires m < |statements| && statements[m].table == Observations && statements[m].complete
    requires forall r <- statements :: IsRowStatement(scope, c, s, r)
    requires forall i | 0 <= i < m :: !(statements[i].table == Observations && statements[i].complete
                                        && statements[i].primary == statements[m].primary)
    ensures forall i | 0 <= i < m && statements[i].complete :: !Clash(statements[i], statements[m])
  {
    assert IsRowStatement(scope, c, s, statements[m]);
    forall i | 0 <= i < m && statements[i].complete ensures !Clash(statements[i], statements[m]) {
      assert IsRowStatement(scope, c, s, statements[i]);
    }
  }

  // A state statement of a plan is that of a missing content: its master row and its newest row.
  ghost predicate IsStateStatement(s: Sources, r: Row) {
    r.table == States && r.complete ==>
      exists k :: k in s.missing && k in s.masters && k in s.latest && r == ContentStateInsert(s.masters[k], s.latest[k], Some(0))
  }

  lemma {:induction false} RowInsertsHoldNoState(c: Context, pair: Pair, rows: seq<Daily>, observed: Option<int>)
    ensures forall r <- RowInserts(c, pair, rows, observed) :: r.table != States
  {
    if rows != [] { RowInsertsHoldNoState(c, pair, rows[1..], observed); }
  }

  lemma {:induction false} StateStatements(scope: Scope, c: Context, s: Sources, pairs: seq<Pair>)
    requires Sourced(s)
    ensures forall r <- StatementsIn(ChunksFor(scope, c, s, pairs)) :: IsStateStatement(s, r)
  {
    if pairs != [] {
      var pair := pairs[0];
      var observed := ObservedAt(scope, s.accounts, c, pair.platform, pair.date);
      var keys := StateKeysFor(pair, s.missing);
      StateStatements(scope, c, s, pairs[1..]);
      assert ChunksFor(scope, c, s, pairs)[1..] == ChunksFor(scope, c, s, pairs[1..]);
      StateKeysSourced(pair, s);
      StateInsertsAre(keys, s.masters, s.latest, observed);
      forall r <- StateInserts(keys, s.masters, s.latest, observed) ensures IsStateStatement(s, r) {
        assert IsStateOf(keys, s.masters, s.latest, observed, r);
        var k :| k in keys && k in s.masters && k in s.latest && r == ContentStateInsert(s.masters[k], s.latest[k], observed);
        KeysWithHas(s.missing, pair.platform + [COLON], k);
      }
      RowInsertsHoldNoState(c, pair, RowsOf(s.rows, pair.platform, pair.date), observed);
      AccountInsertsAre(c, if pair.platform == FACEBOOK && pair.date == scope.periodEnd then s.accounts else []);
    }
  }

  lemma {:induction false} StatesTellKeys(s: Sources, k: Text, l: Text)
    requires IsIndex(s.masters) && k in s.masters && l in s.masters && k in s.latest && l in s.latest
    requires Clash(ContentStateInsert(s.masters[k], s.latest[k], Some(0)), ContentStateInsert(s.masters[l], s.latest[l], Some(0)))
    ensures k == l
  {
    var a, b := s.masters[k], s.masters[l];
    if [a.platform, ACCOUNT_KEY, a.content] == [b.platform, ACCOUNT_KEY, b.content] {
      assert [a.platform, ACCOUNT_KEY, a.content][0] == a.platform && [a.platform, ACCOUNT_KEY, a.content][2] == a.content;
    }
  }

  // The state row of a content.
  function State(row: Daily, values: seq<Text>): Row {
    Row(States, [row.platform + Ascii(":chemistry_k:") + row.content], [row.platform, Ascii("chemistry_k"), row.content], true, values)
  }

  lemma {:induction false} ClashingHaveKey(s: Sources, statements: seq<Row>, key: Text)
    requires IsIndex(s.masters) && key in s.masters && key in s.latest && forall r <- statements :: IsStateStatement(s, r)
    ensures forall r <- statements | r.complete && Clash(r, ContentStateInsert(s.masters[key], s.latest[key], Some(0))) ::
      r.table == States && r.primary == [key]
  {
    forall r <- statements | r.complete && Clash(r, ContentStateInsert(s.masters[key], s.latest[key], Some(0)))
      ensures r.primary == [key]
    {
      assert IsStateStatement(s, r);
      var x :| x in s.missing && x in s.masters && x in s.latest && r == ContentStateInsert(s.masters[x], s.latest[x], Some(0));
      StatesTellKeys(s, x, key);
    }
  }

  // A missing content of a platform in scope is stored by the first of its statements.
  lemma {:induction false} StateIsStored(scope: Scope, c: Context, s: Sources, db: seq<Row>, k: nat, key: Text)
    requires ValidScope(scope) && Sourced(s) && IsIndex(s.masters) && AccountsAgree(scope, s.accounts)
    requires k < |scope.platforms| && key in s.missing && scope.platforms[k].platform + [COLON] <= key
    requires forall d <- db :: !Clash(d, ContentStateInsert(s.masters[key], s.latest[key], Some(0)))
    ensures ContentStateInsert(s.masters[key], s.latest[key], Some(0))
      in Execute(db, StatementsIn(ChunksFor(scope, c, s, Pairs(scope.platforms))))
  {
    var statements := StatementsIn(ChunksFor(scope, c, s, Pairs(scope.platforms)));
    MissingKeyHasStatement(scope, c, s, k, key);
    StateStatements(scope, c, s, Pairs(scope.platforms));
    ClashingHaveKey(s, statements, key);
    var m := FirstWithKey(statements, States, [key]);
    assert IsStateStatement(s, statements[m]);
    var l :| l in s.missing && l in s.masters && l in s.latest && statements[m] == ContentStateInsert(s.masters[l], s.latest[l], Some(0));
    assert statements[m].primary[0] == l;
    StoredUnlessClash(db, statements, m);
  }

  // Main result: every content of the plan that had no state row is stored with its master row's metadata and
  // its newest row's metrics.
  lemma {:induction false} MissingStatesAreStored(plan: Plan, scope: Scope, customer: Snapshot, daily: seq<Daily>, accounts: seq<Account>,
                                                  c: Context, rowOrder: RowOrder, groupOrder: GroupOrder, textOrder: TextOrder,
                                                  db: seq<Row>, row: Daily)
    requires ValidScope(scope) && MadeFrom(plan, scope, customer, daily, accounts, c, rowOrder, groupOrder, textOrder)
    requires row in plan.sources.rows && KeyOf(row) !in customer.stateKeys && !HasState(db, row.platform, row.content)
    ensures var key := KeyOf(row); var s := plan.sources;
      && key in s.masters && ContentKey(s.masters[key].platform, s.masters[key].content) == key
      && key in s.latest && IsLatest(s.rows, key, s.latest[key])
      && State(row, s.masters[key].metadata + s.latest[key].metrics) in Execute(db, StatementsIn(plan.chunks))
  {
    var s, key := plan.sources, KeyOf(row);
    PlanInScope(plan, scope, customer, daily, accounts, c, rowOrder, groupOrder, textOrder);
    var i :| 0 <= i < |s.rows| && s.rows[i] == row;
    assert HasRow(s.rows, key);
    MissingHas(s.rows, customer.stateKeys, textOrder, key);
    var k, j := PairIsExpected(scope.platforms, row.platform, row.date);
    KeyStartsWithPlatform(row.platform, row.content);
    KeyTellsContent(s.masters[key].platform, s.masters[key].content, row.platform, row.content);
    forall d <- db ensures !Clash(d, ContentStateInsert(s.masters[key], s.latest[key], Some(0))) {
      var e :| 0 <= e < |db| && db[e] == d;
    }
    StateIsStored(scope, c, s, db, k, key);
    KeyWritten(row.platform, row.content);
  }

  // The fact row of an account on its day.
  function AccountFact(a: Account): Row {
    Row(AccountFacts, [Ascii("facebook:chemistry_k:") + a.date], [Ascii("facebook"), Ascii("chemistry_k"), a.date], true, [a.sourceKey])
  }

  lemma {:induction false} FactWritten(a: Account)
    ensures FACEBOOK + [COLON] + ACCOUNT_KEY + [COLON] + a.date == Ascii("facebook:chemistry_k:") + a.date
  {
    assert FACEBOOK + [COLON] + ACCOUNT_KEY + [COLON] == Ascii("facebook:chemistry_k:");
  }

  ghost predicate IsFactOf(accounts: seq<Account>, r: Row) {
    r.table == AccountFacts ==> exists a :: a in accounts && r == AccountFact(a)
  }

  lemma {:induction false} AccountInsertsFacts(c: Context, accounts: seq<Account>)
    ensures forall a <- accounts :: AccountFact(a) in AccountInserts(c, accounts)
    ensures forall r <- AccountInserts(c, accounts) :: IsFactOf(accounts, r)
  {
    if accounts != [] {
      FactWritten(accounts[0]);
      AccountInsertsFacts(c, accounts[1..]);
      forall r <- AccountInserts(c, accounts[1..]) ensures IsFactOf(accounts, r) {
        assert IsFactOf(accounts[1..], r);
      }
      assert AccountInserts(c, accounts)[1] == AccountFact(accounts[0]);
      assert forall r <- AccountInserts(c, accounts[1..]) :: r in AccountInserts(c, accounts);
    }
  }

  lemma {:induction false} OthersHoldNoFact(c: Context, pair: Pair, rows: seq<Daily>, observed: Option<int>)
    ensures forall r <- RowInserts(c, pair, rows, observed) :: r.table != AccountFacts
  {
    if rows != [] { OthersHoldNoFact(c, pair, rows[1..], observed); }
  }

  lemma {:induction false} FactStatements(scope: Scope, c: Context, s: Sources, pairs: seq<Pair>)
    requires Sourced(s)
    ensures forall r <- StatementsIn(ChunksFor(scope, c, s, pairs)) :: IsFactOf(s.accounts, r)
  {
    if pairs != [] {
      var pair := pairs[0];
      var observed := ObservedAt(scope, s.accounts, c, pair.platform, pair.date);
      FactStatements(scope, c, s, pairs[1..]);
      assert ChunksFor(scope, c, s, pairs)[1..] == ChunksFor(scope, c, s, pairs[1..]);
      StateKeysSourced(pair, s);
      StateInsertsAre(StateKeysFor(pair, s.missing), s.masters, s.latest, observed);
      OthersHoldNoFact(c, pair, RowsOf(s.rows, pair.platform, pair.date), observed);
      AccountInsertsFacts(c, s.accounts);
      AccountInsertsFacts(c, []);
    }
  }

  lemma {:induction false} ChunkHoldsAccounts(scope: Scope, c: Context, s: Sources, pair: Pair, r: Row)
    requires Sourced(s) && pair.platform == FACEBOOK && pair.date == scope.periodEnd && r in AccountInserts(c, s.accounts)
    ensures r in ChunkFor(scope, c, s, pair).statements
  {
  }

  lemma {:induction false} FactHasStatement(scope: Scope, c: Context, s: Sources)
    requires ValidScope(scope) && InScope(scope, FACEBOOK) && Sourced(s) && AccountsAgree(scope, s.accounts)
    ensures AccountFact(s.accounts[0]) in StatementsIn(ChunksFor(scope, c, s, Pairs(scope.platforms)))
  {
    var k :| 0 <= k < |scope.platforms| && scope.platforms[k].platform == FACEBOOK;
    var i := LastPairAt(scope.platforms, k);
    AccountInsertsFacts(c, s.accounts);
    assert s.accounts[0] in s.accounts;
    ChunkHoldsAccounts(scope, c, s, Pairs(scope.platforms)[i], AccountFact(s.accounts[0]));
    ChunkStatementsIn(scope, c, s, Pairs(scope.platforms), i, AccountFact(s.accounts[0]));
  }

  lemma {:induction false} OnlyFact(scope: Scope, c: Context, s: Sources)
    requires Sourced(s) && |s.accounts| == 1
    ensures forall r <- StatementsIn(ChunksFor(scope, c, s, Pairs(scope.platforms))) | r.table == AccountFacts ::
      r == AccountFact(s.accounts[0])
  {
    FactStatements(scope, c, s, Pairs(scope.platforms));
    forall r <- StatementsIn(ChunksFor(scope, c, s, Pairs(scope.platforms))) | r.table == AccountFacts
      ensures r == AccountFact(s.accounts[0])
    {
      assert IsFactOf(s.accounts, r);
    }
  }

  lemma {:induction false} FactIsStored(db: seq<Row>, statements: seq<Row>, fact: Row)
    requires fact in statements && fact.complete && fact.table == AccountFacts
    requires (forall r <- statements | r.table == AccountFacts :: r == fact) && forall d <- db :: !Clash(d, fact)
    ensures fact in Execute(db, statements)
  {
    var m := FirstWithKey(statements, AccountFacts, fact.primary);
    StoredUnlessClash(db, statements, m);
  }

  // Main result: where Facebook is in scope, its one account row is stored unless its day was there before.
  lemma {:induction false} AccountFactIsStored(plan: Plan, scope: Scope, customer: Snapshot, daily: seq<Daily>, accounts: seq<Account>,
                                               c: Context, rowOrder: RowOrder, groupOrder: GroupOrder, textOrder: TextOrder,
                                               db: seq<Row>)
    requires ValidScope(scope) && InScope(scope, FACEBOOK)
    requires MadeFrom(plan, scope, customer, daily, accounts, c, rowOrder, groupOrder, textOrder)
    ensures |plan.sources.accounts| == 1 && plan.sources.accounts[0].date == scope.periodEnd
    ensures var fact := AccountFact(plan.sources.accounts[0]);
      (forall d <- db :: !Clash(d, fact)) ==> fact in Execute(db, StatementsIn(plan.chunks))
  {
    FactHasStatement(scope, c, plan.sources);
    OnlyFact(scope, c, plan.sources);
    var fact := AccountFact(plan.sources.accounts[0]);
    if forall d <- db :: !Clash(d, fact) { FactIsStored(db, StatementsIn(plan.chunks), fact); }
  }

  // The same after any number of runs cut off anywhere and one that was not.
  lemma {:induction false} RunsGiveOneResult(plan: Plan, db: seq<Row>, stops: seq<nat>)
    ensures Execute(Attempts(db, StatementsIn(plan.chunks), stops), StatementsIn(plan.chunks)) == Execute(db, StatementsIn(plan.chunks))
    ensures db <= Execute(db, StatementsIn(plan.chunks))
  {
    AttemptsThenAll(db, StatementsIn(plan.chunks), stops);
    OnlyAppends(db, StatementsIn(plan.chunks));
  }
}
