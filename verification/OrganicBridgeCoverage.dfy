// The coverage statements of a bridge plan: one run for each platform and date, one entity for each row, and both
// for the account row.
module OrganicBridgeCoverage {
  import opened Wrappers
  import opened Lexicographic
  import opened JsonValues
  import opened InsertOrIgnore
  import opened OrganicBridge
  import opened OrganicBridgeRuns
  import Sorting

  // How many rows there are of a platform and date.
  function CountOf(rows: seq<Daily>, platform: Text, date: Text): nat
    decreases |rows|
  {
    if rows == [] then 0 else
    var last := rows[|rows| - 1];
    CountOf(rows[..|rows| - 1], platform, date) + if last.platform == platform && last.date == date then 1 else 0
  }

  // A Facebook date before the end of the period has no time.
  predicate HasTime(scope: Scope, pair: Pair) { pair.platform == Ascii("tiktok") || pair.date == scope.periodEnd }

  // The run of a platform and date says how many rows it covers.
  predicate IsRun(scope: Scope, c: Context, s: Sources, pair: Pair, r: Row) {
    r == Row(CoverageRuns, [c.runOf(pair.platform, pair.date)], [], HasTime(scope, pair),
             [pair.platform, pair.date, c.textOf(CountOf(s.rows, pair.platform, pair.date))])
  }

  // An entity says which row of which run was observed.
  ghost predicate IsEntity(c: Context, s: Sources, pair: Pair, r: Row) {
    exists d :: d in s.rows && d.platform == pair.platform && d.date == pair.date && r == EntityOf(c.runOf(pair.platform, pair.date), d)
  }

  function EntityOf(run: Text, d: Daily): Row {
    Row(CoverageEntities, [run + Ascii(":content:") + d.content], [run, Ascii("content"), d.content], true, [d.sourceKey])
  }

  // Both for an account row, which goes with the last Facebook date.
  ghost predicate IsOfAccount(scope: Scope, c: Context, s: Sources, pair: Pair, r: Row) {
    pair.platform == Ascii("facebook") && pair.date == scope.periodEnd && exists a :: a in s.accounts && AccountAsks(c, a, r)
  }

  predicate AccountAsks(c: Context, a: Account, r: Row) {
    var run, external := c.accountRunOf(a.sourceKey), a.sourceAccount + Ascii(":") + a.date;
    || r == Row(CoverageRuns, [run], [], true, [a.date, a.sourceKey])
    || r == Row(CoverageEntities, [run + Ascii(":account_daily:") + external], [run, Ascii("account_daily"), external], true, [a.sourceKey])
  }

  ghost predicate Asked(scope: Scope, c: Context, s: Sources, pair: Pair, r: Row) {
    IsRun(scope, c, s, pair, r) || IsEntity(c, s, pair, r) || IsOfAccount(scope, c, s, pair, r)
  }

  predicate OfCoverage(r: Row) { r.table == CoverageRuns || r.table == CoverageEntities }

  lemma {:induction false} CountAppends(rows: seq<Daily>, more: seq<Daily>, platform: Text, date: Text)
    ensures CountOf(rows + more, platform, date) == CountOf(rows, platform, date) + CountOf(more, platform, date)
    decreases |more|
  {
    if more == [] {
      assert rows + more == rows;
    } else {
      assert (rows + more)[..|rows + more| - 1] == rows + more[..|more| - 1];
      CountAppends(rows, more[..|more| - 1], platform, date);
    }
  }

  lemma {:induction false} RowsOfCounts(rows: seq<Daily>, platform: Text, date: Text)
    ensures |RowsOf(rows, platform, date)| == CountOf(rows, platform, date)
  {
    if rows != [] {
      RowsOfCounts(rows[1..], platform, date);
      CountAppends([rows[0]], rows[1..], platform, date);
      assert [rows[0]] + rows[1..] == rows && [rows[0]][..0] == [];
    }
  }

  lemma {:induction false} RowsOfHold(rows: seq<Daily>, platform: Text, date: Text, d: Daily)
    ensures d in RowsOf(rows, platform, date) <==> d in rows && d.platform == platform && d.date == date
  {
    if rows != [] {
      RowsOfHold(rows[1..], platform, date, d);
      assert d in rows <==> d == rows[0] || d in rows[1..];
    }
  }

  lemma {:induction false} RowInsertsHold(c: Context, pair: Pair, rows: seq<Daily>, observed: Option<int>, r: Row)
    requires OfCoverage(r)
    ensures r in RowInserts(c, pair, rows, observed) <==> exists d :: d in rows && r == EntityOf(c.runOf(pair.platform, pair.date), d)
  {
    if rows != [] {
      RowInsertsHold(c, pair, rows[1..], observed, r);
      assert CoverageEntityInsert(c, pair, rows[0]) == EntityOf(c.runOf(pair.platform, pair.date), rows[0]);
      assert forall d :: d in rows <==> d == rows[0] || d in rows[1..];
    }
  }

  lemma {:induction false} AccountInsertsHold(c: Context, accounts: seq<Account>, r: Row)
    requires OfCoverage(r)
    ensures r in AccountInserts(c, accounts) <==> exists a :: a in accounts && AccountAsks(c, a, r)
  {
    if accounts != [] {
      AccountInsertsHold(c, accounts[1..], r);
      AccountHolds(c, accounts, r);
      assert forall a :: a in accounts <==> a == accounts[0] || a in accounts[1..];
    }
  }

  lemma {:induction false} AccountHolds(c: Context, accounts: seq<Account>, r: Row)
    requires OfCoverage(r) && accounts != []
    ensures r in AccountInserts(c, accounts) <==> AccountAsks(c, accounts[0], r) || r in AccountInserts(c, accounts[1..])
  {
    assert Ascii(":") == [COLON];
    var all, rest := AccountInserts(c, accounts), AccountInserts(c, accounts[1..]);
    assert all[3..] == rest && all == [all[0], all[1], all[2]] + rest;
    assert all[1].table == AccountFacts;
    assert AccountAsks(c, accounts[0], r) <==> r == all[0] || r == all[2];
  }

  lemma {:induction false} StateInsertsHoldNone(keys: seq<Text>, masters: map<Text, Master>, latest: map<Text, Daily>, observed: Option<int>, r: Row)
    requires (forall k <- keys :: k in masters && k in latest) && OfCoverage(r)
    ensures r !in StateInserts(keys, masters, latest, observed)
  {
    if keys != [] { StateInsertsHoldNone(keys[1..], masters, latest, observed, r); }
  }

  lemma {:induction false} ChunkAsks(scope: Scope, c: Context, s: Sources, pair: Pair, r: Row)
    requires Sourced(s) && OfCoverage(r)
    requires ObservedAt(scope, s.accounts, c, pair.platform, pair.date).Some? <==> HasTime(scope, pair)
    ensures r in ChunkFor(scope, c, s, pair).statements <==> Asked(scope, c, s, pair, r)
  {
    var observed := ObservedAt(scope, s.accounts, c, pair.platform, pair.date);
    var rows, keys := RowsOf(s.rows, pair.platform, pair.date), StateKeysFor(pair, s.missing);
    var accounts := if pair.platform == FACEBOOK && pair.date == scope.periodEnd then s.accounts else [];
    StateKeysSourced(pair, s);
    StateInsertsHoldNone(keys, s.masters, s.latest, observed, r);
    RowsOfCounts(s.rows, pair.platform, pair.date);
    forall d ensures d in rows <==> d in s.rows && d.platform == pair.platform && d.date == pair.date {
      RowsOfHold(s.rows, pair.platform, pair.date, d);
    }
    RowInsertsHold(c, pair, rows, observed, r);
    AccountInsertsHold(c, accounts, r);
    assert IsRun(scope, c, s, pair, r) <==> r == CoverageRunInsert(c, pair, |rows|, observed);
  }

  ghost predicate AskedByOne(scope: Scope, c: Context, s: Sources, pairs: seq<Pair>, r: Row) {
    exists i: nat :: i < |pairs| && Asked(scope, c, s, pairs[i], r)
  }

  lemma {:induction false} ChunksAsk(scope: Scope, c: Context, s: Sources, pairs: seq<Pair>, r: Row)
    requires Sourced(s) && OfCoverage(r)
    requires forall i | 0 <= i < |pairs| ::
      ObservedAt(scope, s.accounts, c, pairs[i].platform, pairs[i].date).Some? <==> HasTime(scope, pairs[i])
    ensures r in StatementsIn(ChunksFor(scope, c, s, pairs)) <==> AskedByOne(scope, c, s, pairs, r)
  {
    if pairs != [] {
      ChunkAsks(scope, c, s, pairs[0], r);
      ChunksAsk(scope, c, s, pairs[1..], r);
      assert ChunksFor(scope, c, s, pairs)[1..] == ChunksFor(scope, c, s, pairs[1..]);
      AskedCons(scope, c, s, pairs, r);
    }
  }

  lemma {:induction false} AskedCons(scope: Scope, c: Context, s: Sources, pairs: seq<Pair>, r: Row)
    requires pairs != []
    ensures AskedByOne(scope, c, s, pairs, r) <==> Asked(scope, c, s, pairs[0], r) || AskedByOne(scope, c, s, pairs[1..], r)
  {
    if i: nat :| i < |pairs[1..]| && Asked(scope, c, s, pairs[1..][i], r) { assert Asked(scope, c, s, pairs[i + 1], r); }
    if i: nat :| 0 < i < |pairs| && Asked(scope, c, s, pairs[i], r) { assert Asked(scope, c, s, pairs[1..][i - 1], r); }
  }

  // The platforms and dates of the scope, each once.
  predicate InPeriod(scope: Scope, pair: Pair) {
    exists k, j | 0 <= k < |scope.platforms| && 0 <= j < |scope.platforms[k].dates| ::
      pair == Pair(scope.platforms[k].platform, scope.platforms[k].dates[j].date, j == |scope.platforms[k].dates| - 1)
  }

  // Main result: a plan asks for coverage exactly so: one run for each platform and date of the scope, one entity for
  // each of their rows, and a run and an entity for the account row.
  lemma {:induction false} CoverageExactly(plan: Plan, scope: Scope, customer: Snapshot, daily: seq<Daily>, accounts: seq<Account>,
                                           c: Context, rowOrder: RowOrder, groupOrder: GroupOrder, textOrder: TextOrder, r: Row)
    requires ValidScope(scope) && OfCoverage(r)
    requires MadeFrom(plan, scope, customer, daily, accounts, c, rowOrder, groupOrder, textOrder)
    ensures r in StatementsIn(plan.chunks) <==> AskedByOne(scope, c, plan.sources, Pairs(scope.platforms), r)
    ensures forall i | 0 <= i < |Pairs(scope.platforms)| :: InPeriod(scope, Pairs(scope.platforms)[i])
  {
    var pairs := Pairs(scope.platforms);
    forall i | 0 <= i < |pairs|
      ensures ObservedAt(scope, plan.sources.accounts, c, pairs[i].platform, pairs[i].date).Some? <==> HasTime(scope, pairs[i])
    {
      assert HasPair(pairs, pairs[i].platform, pairs[i].date);
      TimedExactly(scope, plan.sources.accounts, c, pairs[i].platform, pairs[i].date);
    }
    ChunksAsk(scope, c, plan.sources, pairs, r);
    forall i | 0 <= i < |pairs| ensures InPeriod(scope, pairs[i]) { PairIn(scope.platforms, i); }
  }

  lemma {:induction false} PairIn(platforms: seq<Expected>, i: nat)
    requires i < |Pairs(platforms)|
    ensures InPeriod(Scope([], platforms), Pairs(platforms)[i])
  {
    var first := PairsOf(platforms[0], 0);
    PairsOfAt(platforms[0], 0);
    if i >= |first| {
      PairIn(platforms[1..], i - |first|);
      var pair := Pairs(platforms)[i];
      var k, j :| 0 <= k < |platforms[1..]| && 0 <= j < |platforms[1..][k].dates|
        && pair == Pair(platforms[1..][k].platform, platforms[1..][k].dates[j].date, j == |platforms[1..][k].dates| - 1);
      assert platforms[k + 1] == platforms[1..][k];
    }
  }

  // The reviewed counts ---------------------------------------------------------------------------

  function SumIn(groups: seq<Group>, platform: Text, date: Text): nat {
    if groups == [] then 0
    else (if groups[0].platform == platform && groups[0].date == date then groups[0].count else 0) + SumIn(groups[1..], platform, date)
  }

  lemma {:induction false} SumAppends(a: seq<Group>, b: seq<Group>, platform: Text, date: Text)
    ensures SumIn(a + b, platform, date) == SumIn(a, platform, date) + SumIn(b, platform, date)
  {
    if a == [] {
      assert a + b == b;
    } else {
      assert (a + b)[1..] == a[1..] + b;
      SumAppends(a[1..], b, platform, date);
    }
  }

  lemma {:induction false} AddToGroupAdds(groups: seq<Group>, p: Text, d: Text, platform: Text, date: Text)
    ensures SumIn(AddToGroup(groups, p, d), platform, date)
      == SumIn(groups, platform, date) + if p == platform && d == date then 1 else 0
  {
    if groups != [] && !(groups[0].platform == p && groups[0].date == d) { AddToGroupAdds(groups[1..], p, d, platform, date); }
  }

  lemma {:induction false} GroupCountsAre(rows: seq<Daily>, platform: Text, date: Text)
    ensures SumIn(GroupCounts(rows), platform, date) == CountOf(rows, platform, date)
    decreases |rows|
  {
    if rows != [] {
      var m := |rows| - 1;
      GroupCountsAre(rows[..m], platform, date);
      AddToGroupAdds(GroupCounts(rows[..m]), rows[m].platform, rows[m].date, platform, date);
    }
  }

  lemma {:induction false} InsertKeepsSum(g: Group, groups: seq<Group>, before: GroupOrder, platform: Text, date: Text)
    ensures SumIn(Sorting.Insert(g, groups, before), platform, date) == SumIn([g] + groups, platform, date)
  {
    assert ([g] + groups)[1..] == groups;
    if groups == [] {
      assert [g] + groups == [g];
    } else if !before(g, groups[0]) {
      InsertKeepsSum(g, groups[1..], before, platform, date);
      assert ([g] + groups[1..])[1..] == groups[1..];
    }
  }

  lemma {:induction false} SortKeepsSum(groups: seq<Group>, before: GroupOrder, platform: Text, date: Text)
    ensures SumIn(Sorting.Sort(groups, before), platform, date) == SumIn(groups, platform, date)
  {
    if groups != [] {
      SortKeepsSum(groups[1..], before, platform, date);
      InsertKeepsSum(groups[0], Sorting.Sort(groups[1..], before), before, platform, date);
    }
  }

  lemma {:induction false} OnlyDateCounts(dates: seq<Group>, platform: Text, date: Text, j: nat)
    requires forall i | 0 <= i < |dates| :: dates[i].platform == platform && (dates[i].date == date <==> i == j)
    ensures SumIn(dates, platform, date) == if j < |dates| then dates[j].count else 0
  {
    if dates != [] && j > 0 { OnlyDateCounts(dates[1..], platform, date, j - 1); }
    if dates != [] && j == 0 { NoDateCounts(dates[1..], platform, date); }
  }

  lemma {:induction false} NoDateCounts(dates: seq<Group>, platform: Text, date: Text)
    requires forall i | 0 <= i < |dates| :: dates[i].platform != platform || dates[i].date != date
    ensures SumIn(dates, platform, date) == 0
  {
    if dates != [] { NoDateCounts(dates[1..], platform, date); }
  }

  lemma {:induction false} ReviewedCount(platforms: seq<Expected>, k: nat, j: nat)
    requires ValidPlatforms(platforms) && k < |platforms| && j < |platforms[k].dates|
    ensures SumIn(ExpectedGroups(platforms), platforms[k].platform, platforms[k].dates[j].date) == platforms[k].dates[j].count
  {
    var platform, date := platforms[k].platform, platforms[k].dates[j].date;
    SumAppends(platforms[0].dates, ExpectedGroups(platforms[1..]), platform, date);
    if k == 0 {
      assert ValidDates(platforms[0]);
      OnlyDateCounts(platforms[0].dates, platform, date, j);
      OtherPlatformsCount(platforms[1..], platform, date);
    } else {
      assert ValidDates(platforms[0]);
      NoDateCounts(platforms[0].dates, platform, date);
      ReviewedCount(platforms[1..], k - 1, j);
    }
  }

  lemma {:induction false} OtherPlatformsCount(platforms: seq<Expected>, platform: Text, date: Text)
    requires forall i | 0 <= i < |platforms| :: ValidDates(platforms[i]) && platforms[i].platform != platform
    ensures SumIn(ExpectedGroups(platforms), platform, date) == 0
  {
    if platforms != [] {
      assert ValidDates(platforms[0]);
      SumAppends(platforms[0].dates, ExpectedGroups(platforms[1..]), platform, date);
      NoDateCounts(platforms[0].dates, platform, date);
      OtherPlatformsCount(platforms[1..], platform, date);
    }
  }

  // A plan is made only from as many rows of each platform and date as were reviewed.
  lemma {:induction false} CountsAreReviewed(rows: seq<Daily>, scope: Scope, before: GroupOrder, k: nat, j: nat)
    requires ValidScope(scope) && CountsAgree(rows, scope, before) && k < |scope.platforms| && j < |scope.platforms[k].dates|
    ensures CountOf(rows, scope.platforms[k].platform, scope.platforms[k].dates[j].date) == scope.platforms[k].dates[j].count
  {
    var platform, date := scope.platforms[k].platform, scope.platforms[k].dates[j].date;
    GroupCountsAre(rows, platform, date);
    SortKeepsSum(GroupCounts(rows), before, platform, date);
    ReviewedCount(scope.platforms, k, j);
  }
}
