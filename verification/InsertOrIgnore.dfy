// Append-only statements: INSERT OR IGNORE against tables with a primary and a unique key.
module InsertOrIgnore {
  import opened Lexicographic

  datatype Table = States | Observations | AccountFacts | CoverageRuns | CoverageEntities

  // A row with its primary key, its unique key if it has another, and whether it meets the NOT NULL rules.
  datatype Row = Row(table: Table, primary: seq<Text>, unique: seq<Text>, complete: bool, values: seq<Text>)

  predicate Clash(a: Row, b: Row) {
    a.table == b.table && (a.primary == b.primary || (a.unique != [] && a.unique == b.unique))
  }

  predicate Ignored(db: seq<Row>, r: Row) { !r.complete || exists i | 0 <= i < |db| :: Clash(db[i], r) }

  function InsertIgnoring(db: seq<Row>, r: Row): seq<Row> { if Ignored(db, r) then db else db + [r] }

  function Execute(db: seq<Row>, statements: seq<Row>): seq<Row>
    decreases |statements|
  {
    if statements == [] then db else Execute(InsertIgnoring(db, statements[0]), statements[1..])
  }

  // Runs of the statements that each stop after some of them.
  function Attempts(db: seq<Row>, statements: seq<Row>, stops: seq<nat>): seq<Row>
    decreases |stops|
  {
    if stops == [] then db
    else Attempts(Execute(db, statements[..if stops[0] < |statements| then stops[0] else |statements|]), statements, stops[1..])
  }

  // No statement changes or removes a row.
  lemma {:induction false} OnlyAppends(db: seq<Row>, statements: seq<Row>)
    ensures db <= Execute(db, statements)
    decreases |statements|
  {
    if statements != [] { OnlyAppends(InsertIgnoring(db, statements[0]), statements[1..]); }
  }

  lemma {:induction false} IgnoredStays(db: seq<Row>, later: seq<Row>, r: Row)
    requires Ignored(db, r) && db <= later
    ensures Ignored(later, r)
  {
    if r.complete {
      var i :| 0 <= i < |db| && Clash(db[i], r);
      assert Clash(later[i], r);
    }
  }

  lemma {:induction false} InsertedIsIgnored(db: seq<Row>, r: Row)
    ensures Ignored(InsertIgnoring(db, r), r)
  {
    if !Ignored(db, r) { assert Clash((db + [r])[|db|], r); }
  }

  // Once it has run, a statement does nothing more.
  lemma {:induction false} ExecutedAreIgnored(db: seq<Row>, statements: seq<Row>, i: nat)
    requires i < |statements|
    ensures Ignored(Execute(db, statements), statements[i])
    decreases |statements|
  {
    var next := InsertIgnoring(db, statements[0]);
    if i == 0 {
      InsertedIsIgnored(db, statements[0]);
      OnlyAppends(next, statements[1..]);
      IgnoredStays(next, Execute(next, statements[1..]), statements[0]);
    } else {
      ExecutedAreIgnored(next, statements[1..], i - 1);
    }
  }

  // A complete row is stored unless it clashes with a row that is there or with an earlier statement.
  lemma {:induction false} StoredUnlessClash(db: seq<Row>, statements: seq<Row>, j: nat)
    requires j < |statements| && statements[j].complete && forall d <- db :: !Clash(d, statements[j])
    requires forall m | 0 <= m < j && statements[m].complete :: !Clash(statements[m], statements[j])
    ensures statements[j] in Execute(db, statements)
    decreases |statements|
  {
    var r, next := statements[j], InsertIgnoring(db, statements[0]);
    if j == 0 {
      OnlyAppends(next, statements[1..]);
      assert next[|db|] == r && Execute(next, statements[1..])[|db|] == r;
    } else {
      forall d <- next ensures !Clash(d, r) { assert d in db || (d == statements[0] && d.complete); }
      StoredUnlessClash(next, statements[1..], j - 1);
    }
  }

  lemma {:induction false} AllIgnored(db: seq<Row>, statements: seq<Row>)
    requires forall i | 0 <= i < |statements| :: Ignored(db, statements[i])
    ensures Execute(db, statements) == db
    decreases |statements|
  {
    if statements != [] { AllIgnored(db, statements[1..]); }
  }

  lemma {:induction false} ExecuteConcat(db: seq<Row>, a: seq<Row>, b: seq<Row>)
    ensures Execute(db, a + b) == Execute(Execute(db, a), b)
    decreases |a|
  {
    if a == [] {
      assert a + b == b;
    } else {
      assert (a + b)[0] == a[0] && (a + b)[1..] == a[1..] + b;
      ExecuteConcat(InsertIgnoring(db, a[0]), a[1..], b);
    }
  }

  // Running some first statements and then all of them is running all of them.
  lemma {:induction false} PrefixThenAll(db: seq<Row>, statements: seq<Row>, k: nat)
    requires k <= |statements|
    ensures Execute(Execute(db, statements[..k]), statements) == Execute(db, statements)
  {
    var first, rest := statements[..k], statements[k..];
    var after := Execute(db, first);
    assert first + rest == statements;
    forall i | 0 <= i < |first| ensures Ignored(after, first[i]) { ExecutedAreIgnored(db, first, i); }
    AllIgnored(after, first);
    ExecuteConcat(after, first, rest);
    ExecuteConcat(db, first, rest);
  }

  // Any number of runs that stop anywhere, and then one that does not, give what one whole run gives.
  lemma {:induction false} AttemptsThenAll(db: seq<Row>, statements: seq<Row>, stops: seq<nat>)
    ensures Execute(Attempts(db, statements, stops), statements) == Execute(db, statements)
    decreases |stops|
  {
    if stops != [] {
      var k := if stops[0] < |statements| then stops[0] else |statements|;
      PrefixThenAll(db, statements, k);
      AttemptsThenAll(Execute(db, statements[..k]), statements, stops[1..]);
    }
  }

  class Database {
    var rows: seq<Row>

    constructor (rows: seq<Row>)
      ensures this.rows == rows
    {
      this.rows := rows;
    }

    method InsertRow(r: Row)
      modifies this
      ensures rows == InsertIgnoring(old(rows), r)
    {
      if r.complete {
        for i := 0 to |rows|
          invariant rows == old(rows)
          invariant forall j | 0 <= j < i :: !Clash(rows[j], r)
        {
          if Clash(rows[i], r) { return; }
        }
        rows := rows + [r];
      }
    }

    // Executes the statements in order, up to the one where the run is cut off.
    method ExecuteUpTo(statements: seq<Row>, stop: nat)
      requires stop <= |statements|
      modifies this
      ensures rows == Execute(old(rows), statements[..stop]) && old(rows) <= rows
    {
      for i := 0 to stop
        invariant Execute(rows, statements[i..stop]) == Execute(old(rows), statements[..stop])
      {
        assert statements[i..stop][0] == statements[i] && statements[i..stop][1..] == statements[i + 1..stop];
        InsertRow(statements[i]);
      }
      OnlyAppends(old(rows), statements[..stop]);
    }
  }
}
