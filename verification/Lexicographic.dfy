// The order of texts by their units: UTF-16 code units in member sorting, bytes in SQL ranges.
module Lexicographic {
  type CodeUnit = x: int | 0 <= x < 0x10000

  type Text = seq<CodeUnit>

  datatype Entry<V> = Entry(key: Text, value: V)

  predicate Less(a: Text, b: Text) {
    b != [] && (a == [] || a[0] < b[0] || (a[0] == b[0] && Less(a[1..], b[1..])))
  }

  lemma {:induction false} Irreflexive(a: Text)
    ensures !Less(a, a)
  {
    if a != [] { Irreflexive(a[1..]); }
  }

  lemma {:induction false} Transitive(a: Text, b: Text, c: Text)
    requires Less(a, b) && Less(b, c)
    ensures Less(a, c)
  {
    if a != [] && a[0] == b[0] == c[0] { Transitive(a[1..], b[1..], c[1..]); }
  }

  lemma {:induction false} Trichotomy(a: Text, b: Text)
    ensures Less(a, b) || a == b || Less(b, a)
  {
    if a != [] && b != [] && a[0] == b[0] {
      Trichotomy(a[1..], b[1..]);
      assert a == [a[0]] + a[1..] && b == [b[0]] + b[1..];
    }
  }

  // Entries by strictly increasing key.
  ghost predicate Sorted<V>(entries: seq<Entry<V>>) {
    forall i, j | 0 <= i < j < |entries| :: Less(entries[i].key, entries[j].key)
  }

  function Insert<V>(e: Entry<V>, entries: seq<Entry<V>>): seq<Entry<V>> {
    if entries == [] || Less(e.key, entries[0].key) then [e] + entries
    else [entries[0]] + Insert(e, entries[1..])
  }

  function Sort<V>(entries: seq<Entry<V>>): seq<Entry<V>> {
    if entries == [] then [] else Insert(entries[0], Sort(entries[1..]))
  }

  ghost predicate Distinct<V>(entries: seq<Entry<V>>) {
    forall i, j | 0 <= i < j < |entries| :: entries[i].key != entries[j].key
  }

  lemma {:induction false} InsertHas<V>(e: Entry<V>, entries: seq<Entry<V>>, x: Entry<V>)
    ensures x in Insert(e, entries) <==> x == e || x in entries
  {
    if entries != [] && !Less(e.key, entries[0].key) {
      InsertHas(e, entries[1..], x);
      assert entries == [entries[0]] + entries[1..];
    }
  }

  lemma {:induction false} SortHas<V>(entries: seq<Entry<V>>, x: Entry<V>)
    ensures x in Sort(entries) <==> x in entries
  {
    if entries != [] {
      SortHas(entries[1..], x);
      InsertHas(entries[0], Sort(entries[1..]), x);
      assert entries == [entries[0]] + entries[1..];
    }
  }

  lemma {:induction false} InsertSorted<V>(e: Entry<V>, entries: seq<Entry<V>>)
    requires Sorted(entries) && forall i | 0 <= i < |entries| :: entries[i].key != e.key
    ensures Sorted(Insert(e, entries))
  {
    if entries == [] || Less(e.key, entries[0].key) {
      forall j | 0 <= j < |entries| ensures Less(e.key, entries[j].key) {
        if j > 0 { Transitive(e.key, entries[0].key, entries[j].key); }
      }
    } else {
      var rest := Insert(e, entries[1..]);
      InsertSorted(e, entries[1..]);
      Trichotomy(e.key, entries[0].key);
      forall j | 0 <= j < |rest| ensures Less(entries[0].key, rest[j].key) {
        InsertHas(e, entries[1..], rest[j]);
      }
    }
  }

  lemma {:induction false} SortSorts<V>(entries: seq<Entry<V>>)
    requires Distinct(entries)
    ensures Sorted(Sort(entries))
  {
    if entries != [] {
      SortSorts(entries[1..]);
      forall i | 0 <= i < |Sort(entries[1..])| ensures Sort(entries[1..])[i].key != entries[0].key {
        SortHas(entries[1..], Sort(entries[1..])[i]);
      }
      InsertSorted(entries[0], Sort(entries[1..]));
    }
  }

  // A strictly sorted list is determined by its elements.
  lemma {:induction false} SortedUnique<V>(a: seq<Entry<V>>, b: seq<Entry<V>>)
    requires Sorted(a) && Sorted(b) && forall x :: x in a <==> x in b
    ensures a == b
    decreases |a|
  {
    assert a != [] ==> a[0] in b;
    assert b != [] ==> b[0] in a;
    if a != [] {
      HeadsAgree(a, b);
      assert a == [a[0]] + a[1..] && b == [b[0]] + b[1..];
      forall x ensures x in a[1..] <==> x in b[1..] {
        Irreflexive(a[0].key);
        if x in a[1..] { assert x in a && Less(a[0].key, x.key); }
        if x in b[1..] { assert x in b && Less(b[0].key, x.key); }
      }
      SortedUnique(a[1..], b[1..]);
    }
  }

  lemma {:induction false} HeadsAgree<V>(a: seq<Entry<V>>, b: seq<Entry<V>>)
    requires Sorted(a) && Sorted(b) && (forall x :: x in a <==> x in b) && a != [] && b != []
    ensures a[0] == b[0]
  {
    assert a[0] in b && b[0] in a;
    if a[0] != b[0] {
      assert Less(b[0].key, a[0].key) && Less(a[0].key, b[0].key);
      Transitive(a[0].key, b[0].key, a[0].key);
      Irreflexive(a[0].key);
    }
  }

  function MapValues<V, W>(f: V -> W, entries: seq<Entry<V>>): (r: seq<Entry<W>>)
    ensures |r| == |entries| && forall i | 0 <= i < |r| :: r[i] == Entry(entries[i].key, f(entries[i].value))
  {
    seq(|entries|, i requires 0 <= i < |entries| => Entry(entries[i].key, f(entries[i].value)))
  }

  lemma {:induction false} InsertCommutes<V, W>(f: V -> W, e: Entry<V>, entries: seq<Entry<V>>)
    ensures Insert(Entry(e.key, f(e.value)), MapValues(f, entries)) == MapValues(f, Insert(e, entries))
  {
    if entries != [] && !Less(e.key, entries[0].key) {
      InsertCommutes(f, e, entries[1..]);
      assert MapValues(f, entries)[1..] == MapValues(f, entries[1..]);
    }
  }

  // Sorting looks at keys only.
  lemma {:induction false} SortCommutes<V, W>(f: V -> W, entries: seq<Entry<V>>)
    ensures Sort(MapValues(f, entries)) == MapValues(f, Sort(entries))
  {
    if entries != [] {
      SortCommutes(f, entries[1..]);
      InsertCommutes(f, entries[0], Sort(entries[1..]));
      assert MapValues(f, entries)[1..] == MapValues(f, entries[1..]);
    }
  }
}
