// What the dashboard rewriters share: configurations as JSON trees, references held by texts in them, and the
// patch that carries the changed top-level members.
module DashboardConfig {
  import opened Wrappers
  import opened Lexicographic
  import opened JsonValues
  import opened CanonicalJson
  import opened Spaces

  // A tree that JSON text can hold, without the member name that assignment treats as the prototype.
  ghost predicate Config(v: Value) {
    match v
    case Undefined => false
    case NonFinite => false
    case Opaque => false
    case Num(numeral) => IsNumeral(numeral)
    case Arr(items) => forall i | 0 <= i < |items| :: Config(items[i])
    case Obj(members) =>
      && (forall i, j | 0 <= i < j < |members| :: members[i].key != members[j].key)
      && (forall i | 0 <= i < |members| :: members[i].key != PROTO && Config(members[i].value))
    case _ => true
  }

  const PROTO := Ascii("__proto__")

  lemma {:induction false} ConfigPrints(v: Value)
    requires Config(v)
    ensures WellFormed(v) && Printable(v)
    decreases v
  {
    match v
    case Arr(items) => forall i | 0 <= i < |items| ensures WellFormed(items[i]) && Printable(items[i]) { ConfigPrints(items[i]); }
    case Obj(ms) =>
      forall i | 0 <= i < |ms| ensures WellFormed(ms[i].value) && Printable(ms[i].value) { ConfigPrints(ms[i].value); }
    case _ =>
  }

  // Texts ------------------------------------------------------------------------------------------------

  function TrimTextLeft(t: Text): Text { if t != [] && IsSpaceCode(t[0]) then TrimTextLeft(t[1..]) else t }

  function TrimTextRight(t: Text): Text {
    if t != [] && IsSpaceCode(t[|t| - 1]) then TrimTextRight(t[..|t| - 1]) else t
  }

  function TrimText(t: Text): Text { TrimTextRight(TrimTextLeft(t)) }

  predicate AllSpaces(t: Text) { forall i | 0 <= i < |t| :: IsSpaceCode(t[i]) }

  // Trimming takes away white space at both ends and nothing else.
  lemma {:induction false} TrimTakesEnds(t: Text) returns (a: Text, b: Text)
    ensures t == a + TrimText(t) + b && AllSpaces(a) && AllSpaces(b)
    ensures TrimText(t) != [] ==> !IsSpaceCode(TrimText(t)[0]) && !IsSpaceCode(TrimText(t)[|TrimText(t)| - 1])
  {
    a := TrimLeftTakes(t);
    b := TrimRightTakes(TrimTextLeft(t));
    TrimLeftEnds(t);
    TrimRightEnds(TrimTextLeft(t));
  }

  lemma {:induction false} TrimLeftTakes(t: Text) returns (a: Text)
    ensures t == a + TrimTextLeft(t) && AllSpaces(a)
  {
    if t != [] && IsSpaceCode(t[0]) {
      var rest := TrimLeftTakes(t[1..]);
      a := [t[0]] + rest;
      assert t == [t[0]] + (rest + TrimTextLeft(t[1..])) == a + TrimTextLeft(t[1..]);
    } else {
      a := [];
    }
  }

  lemma {:induction false} TrimRightTakes(t: Text) returns (b: Text)
    ensures t == TrimTextRight(t) + b && AllSpaces(b)
    decreases |t|
  {
    if t != [] && IsSpaceCode(t[|t| - 1]) {
      var rest := TrimRightTakes(t[..|t| - 1]);
      b := rest + [t[|t| - 1]];
      assert t == t[..|t| - 1] + [t[|t| - 1]];
    } else {
      b := [];
    }
  }

  // A text without white space is its own trimmed form.
  lemma {:induction false} TrimPlain(t: Text)
    requires t == [] || (!IsSpaceCode(t[0]) && !IsSpaceCode(t[|t| - 1]))
    ensures TrimText(t) == t
  {
  }

  lemma {:induction false} TrimLeftEnds(t: Text)
    ensures TrimTextLeft(t) == [] || !IsSpaceCode(TrimTextLeft(t)[0])
  {
    if t != [] && IsSpaceCode(t[0]) { TrimLeftEnds(t[1..]); }
  }

  lemma {:induction false} TrimRightEnds(t: Text)
    ensures TrimTextRight(t) == [] || !IsSpaceCode(TrimTextRight(t)[|TrimTextRight(t)| - 1])
    ensures t != [] && !IsSpaceCode(t[0]) ==> TrimTextRight(t) != [] && TrimTextRight(t)[0] == t[0]
    decreases |t|
  {
    if t != [] && IsSpaceCode(t[|t| - 1]) { TrimRightEnds(t[..|t| - 1]); }
  }

  lemma {:induction false} TrimTwice(t: Text)
    ensures TrimText(TrimText(t)) == TrimText(t)
  {
    TrimLeftEnds(t);
    TrimRightEnds(TrimTextLeft(t));
    TrimPlain(TrimText(t));
  }

  // The tree holds a text that reads as x.
  function Contains(v: Value, x: Text): bool {
    match v
    case Str(t) => TrimText(t) == x
    case Arr(items) => ContainsItems(items, x)
    case Obj(ms) => ContainsMembers(ms, x)
    case _ => false
  }

  function ContainsItems(items: seq<Value>, x: Text): bool {
    items != [] && (Contains(items[0], x) || ContainsItems(items[1..], x))
  }

  function ContainsMembers(ms: seq<Entry<Value>>, x: Text): bool {
    ms != [] && (Contains(ms[0].value, x) || ContainsMembers(ms[1..], x))
  }

  lemma {:induction false} ArrCons(v: Value, items: seq<Value>, x: Text)
    ensures Contains(Arr([v] + items), x) <==> Contains(v, x) || Contains(Arr(items), x)
  {
    assert ([v] + items)[1..] == items;
  }

  lemma {:induction false} ObjCons(key: Text, v: Value, ms: seq<Entry<Value>>, x: Text)
    ensures Contains(Obj([Entry(key, v)] + ms), x) <==> Contains(v, x) || Contains(Obj(ms), x)
  {
    assert ([Entry(key, v)] + ms)[1..] == ms;
  }

  lemma {:induction false} ContainsItem(items: seq<Value>, x: Text)
    ensures ContainsItems(items, x) <==> exists i :: 0 <= i < |items| && Contains(items[i], x)
  {
    if items != [] {
      ContainsItem(items[1..], x);
      if ContainsItems(items[1..], x) {
        var i :| 0 <= i < |items[1..]| && Contains(items[1..][i], x);
        assert Contains(items[i + 1], x);
      }
      if i :| 0 < i < |items| && Contains(items[i], x) { assert Contains(items[1..][i - 1], x); }
    }
  }

  lemma {:induction false} ContainsMember(ms: seq<Entry<Value>>, x: Text)
    ensures ContainsMembers(ms, x) <==> exists i :: 0 <= i < |ms| && Contains(ms[i].value, x)
  {
    if ms != [] {
      ContainsMember(ms[1..], x);
      if ContainsMembers(ms[1..], x) {
        var i :| 0 <= i < |ms[1..]| && Contains(ms[1..][i].value, x);
        assert Contains(ms[i + 1].value, x);
      }
      if i :| 0 < i < |ms| && Contains(ms[i].value, x) { assert Contains(ms[1..][i - 1].value, x); }
    }
  }

  // The value a path of item and member positions leads to.
  function At(v: Value, path: seq<nat>): Option<Value>
    decreases |path|
  {
    if path == [] then Some(v)
    else match v
      case Arr(items) => if path[0] < |items| then At(items[path[0]], path[1..]) else None
      case Obj(ms) => if path[0] < |ms| then At(ms[path[0]].value, path[1..]) else None
      case _ => None
  }

  // A text that reads as x stands somewhere in the tree.
  ghost predicate HoldsText(v: Value, x: Text) { exists path, t :: At(v, path) == Some(Str(t)) && TrimText(t) == x }

  lemma {:induction false} HoldsBelow(v: Value, i: nat, x: Text)
    requires (v.Arr? && i < |v.items| && HoldsText(v.items[i], x)) || (v.Obj? && i < |v.members| && HoldsText(v.members[i].value, x))
    ensures HoldsText(v, x)
  {
    var below := if v.Arr? then v.items[i] else v.members[i].value;
    var path, t :| At(below, path) == Some(Str(t)) && TrimText(t) == x;
    assert ([i] + path)[1..] == path;
    assert At(v, [i] + path) == Some(Str(t));
  }

  lemma {:induction false} HoldsInside(v: Value, x: Text) returns (i: nat)
    requires HoldsText(v, x) && (v.Arr? || v.Obj?)
    ensures if v.Arr? then i < |v.items| && HoldsText(v.items[i], x) else i < |v.members| && HoldsText(v.members[i].value, x)
  {
    var path, t :| At(v, path) == Some(Str(t)) && TrimText(t) == x;
    i := path[0];
    assert At(if v.Arr? then v.items[i] else v.members[i].value, path[1..]) == Some(Str(t));
  }

  // The search for a reference finds exactly the texts that stand in the tree.
  lemma {:induction false} ContainsExactly(v: Value, x: Text)
    ensures Contains(v, x) <==> HoldsText(v, x)
    decreases v
  {
    match v
    case Str(t) =>
      if Contains(v, x) { assert At(v, []) == Some(Str(t)); }
    case Arr(items) =>
      ContainsItem(items, x);
      forall i | 0 <= i < |items| ensures Contains(items[i], x) <==> HoldsText(items[i], x) { ContainsExactly(items[i], x); }
      if i :| 0 <= i < |items| && Contains(items[i], x) { HoldsBelow(v, i, x); }
      if HoldsText(v, x) { var i := HoldsInside(v, x); }
    case Obj(ms) =>
      ContainsMember(ms, x);
      forall i | 0 <= i < |ms| ensures Contains(ms[i].value, x) <==> HoldsText(ms[i].value, x) { ContainsExactly(ms[i].value, x); }
      if i :| 0 <= i < |ms| && Contains(ms[i].value, x) { HoldsBelow(v, i, x); }
      if HoldsText(v, x) { var i := HoldsInside(v, x); }
    case _ =>
  }

  // Values with one text hold the same references.
  lemma {:induction false} SameContains(a: Value, b: Value, x: Text)
    requires Config(a) && Config(b) && Same(a, b) && Contains(a, x)
    ensures Contains(b, x)
    decreases a
  {
    match a
    case Arr(xs) =>
      ContainsItem(xs, x);
      ContainsItem(b.items, x);
      var i :| 0 <= i < |xs| && Contains(xs[i], x);
      assert Config(xs[i]) && Config(b.items[i]);
      SameContains(xs[i], b.items[i], x);
    case Obj(ms) =>
      ContainsMember(ms, x);
      ContainsMember(b.members, x);
      var i :| 0 <= i < |ms| && Contains(ms[i].value, x);
      GetAt(ms, i);
      var v := Get(b.members, ms[i].key);
      assert ms[i].key in Keys(ms) + Keys(b.members);
      var j :| 0 <= j < |b.members| && b.members[j] == Entry(ms[i].key, v);
      SameContains(ms[i].value, b.members[j].value, x);
    case _ =>
  }

  // Two configurations have one text exactly when they are the same.
  lemma {:induction false} ConfigText(a: Value, b: Value)
    requires Config(a) && Config(b)
    ensures Serialize(a).Some? && (Serialize(a) == Serialize(b) <==> Same(a, b))
  {
    ConfigPrints(a);
    ConfigPrints(b);
    SameTextExactlyWhenSame(a, b);
  }

  // Patches ------------------------------------------------------------------------------------------------

  function KeyList(ms: seq<Entry<Value>>): (r: seq<Text>)
    ensures |r| == |ms| && forall i | 0 <= i < |r| :: r[i] == ms[i].key
  {
    if ms == [] then [] else [ms[0].key] + KeyList(ms[1..])
  }

  function NewKeys(before: seq<Entry<Value>>, after: seq<Entry<Value>>): seq<Text> {
    if after == [] then []
    else (if after[0].key in KeyList(before) then [] else [after[0].key]) + NewKeys(before, after[1..])
  }

  predicate Changed(before: seq<Entry<Value>>, after: seq<Entry<Value>>, key: Text) {
    Serialize(Get(before, key)) != Serialize(Get(after, key))
  }

  function ChangesAt(keys: seq<Text>, before: seq<Entry<Value>>, after: seq<Entry<Value>>): seq<Entry<Value>> {
    if keys == [] then []
    else (if Changed(before, after, keys[0]) then [Entry(keys[0], Get(after, keys[0]))] else [])
         + ChangesAt(keys[1..], before, after)
  }

  function Patch(before: seq<Entry<Value>>, after: seq<Entry<Value>>): seq<Entry<Value>> {
    ChangesAt(KeyList(before) + NewKeys(before, after), before, after)
  }

  method ChangedTopLevelKeys(before: seq<Entry<Value>>, after: seq<Entry<Value>>) returns (patch: seq<Entry<Value>>)
    ensures patch == Patch(before, after)
  {
    patch := [];
    var keys := KeyList(before) + NewKeys(before, after);
    for i := 0 to |keys|
      invariant patch + ChangesAt(keys[i..], before, after) == Patch(before, after)
    {
      assert keys[i..][1..] == keys[i + 1..];
      if Changed(before, after, keys[i]) { patch := patch + [Entry(keys[i], Get(after, keys[i]))]; }
    }
  }

  // Setting a member keeps its place, or adds it at the end.
  function Assign(ms: seq<Entry<Value>>, key: Text, v: Value): seq<Entry<Value>> {
    if ms == [] then [Entry(key, v)]
    else if ms[0].key == key then [Entry(key, v)] + ms[1..]
    else [ms[0]] + Assign(ms[1..], key, v)
  }

  function Overlay(ms: seq<Entry<Value>>, patch: seq<Entry<Value>>): seq<Entry<Value>>
    decreases |patch|
  {
    if patch == [] then ms else Overlay(Assign(ms, patch[0].key, patch[0].value), patch[1..])
  }

  lemma {:induction false} AssignGets(ms: seq<Entry<Value>>, key: Text, v: Value, k: Text)
    ensures Get(Assign(ms, key, v), k) == if k == key then v else Get(ms, k)
    ensures key in KeyList(ms) ==> KeyList(Assign(ms, key, v)) == KeyList(ms)
  {
    if ms != [] && ms[0].key != key { AssignGets(ms[1..], key, v, k); }
  }

  lemma {:induction false} OverlayGets(ms: seq<Entry<Value>>, patch: seq<Entry<Value>>, k: Text)
    requires DistinctKeys(patch) && forall e <- patch :: e.key in KeyList(ms)
    ensures Get(Overlay(ms, patch), k) == if k in KeyList(patch) then Get(patch, k) else Get(ms, k)
    ensures KeyList(Overlay(ms, patch)) == KeyList(ms)
    decreases |patch|
  {
    if patch != [] {
      AssignGets(ms, patch[0].key, patch[0].value, k);
      OverlayGets(Assign(ms, patch[0].key, patch[0].value), patch[1..], k);
      if k in KeyList(patch[1..]) {
        var i :| 0 <= i < |patch[1..]| && patch[1..][i].key == k;
        assert patch[i + 1].key == k;
      }
      assert k in KeyList(patch) <==> k == patch[0].key || k in KeyList(patch[1..]);
    }
  }

  // A patch has exactly the changed keys, with their new values.
  lemma {:induction false} ChangesHave(keys: seq<Text>, before: seq<Entry<Value>>, after: seq<Entry<Value>>, k: Text)
    ensures var patch := ChangesAt(keys, before, after);
      && (k in KeyList(patch) <==> k in keys && Changed(before, after, k))
      && (k in KeyList(patch) ==> Get(patch, k) == Get(after, k))
  {
    if keys != [] {
      ChangesHave(keys[1..], before, after, k);
      var first := if Changed(before, after, keys[0]) then [Entry(keys[0], Get(after, keys[0]))] else [];
      var rest := ChangesAt(keys[1..], before, after);
      assert k in keys <==> k == keys[0] || k in keys[1..];
      if first == [] {
        assert first + rest == rest;
      } else {
        assert (first + rest)[1..] == rest;
        assert KeyList(first + rest) == [keys[0]] + KeyList(rest);
      }
    }
  }

  lemma {:induction false} ChangesDistinct(keys: seq<Text>, before: seq<Entry<Value>>, after: seq<Entry<Value>>)
    requires forall i, j | 0 <= i < j < |keys| :: keys[i] != keys[j]
    ensures DistinctKeys(ChangesAt(keys, before, after))
  {
    if keys != [] {
      ChangesDistinct(keys[1..], before, after);
      ChangesHave(keys[1..], before, after, keys[0]);
      var rest := ChangesAt(keys[1..], before, after);
      forall i | 0 <= i < |rest| ensures rest[i].key != keys[0] { assert KeyList(rest)[i] == rest[i].key; }
    }
  }

  lemma {:induction false} NoNewKeys(before: seq<Entry<Value>>, after: seq<Entry<Value>>)
    requires forall e <- after :: e.key in KeyList(before)
    ensures NewKeys(before, after) == []
  {
    if after != [] { NoNewKeys(before, after[1..]); }
  }

  lemma {:induction false} MembersEqual(a: seq<Entry<Value>>, b: seq<Entry<Value>>)
    requires KeyList(a) == KeyList(b) && DistinctKeys(a)
    requires forall k <- KeyList(a) :: Get(a, k) == Get(b, k)
    ensures a == b
  {
    forall i | 0 <= i < |a| ensures a[i] == b[i] {
      assert a[i].key == KeyList(a)[i] == b[i].key;
      SameKeysDistinct(a, b);
      GetAt(a, i);
      GetAt(b, i);
    }
    assert |a| == |b|;
  }

  lemma {:induction false} KeyListHas(ms: seq<Entry<Value>>, e: Entry<Value>)
    requires e in ms
    ensures e.key in KeyList(ms)
  {
    var i :| 0 <= i < |ms| && ms[i] == e;
    assert KeyList(ms)[i] == e.key;
  }

  // A patch of configurations with the same keys.
  lemma {:induction false} PatchKeys(before: seq<Entry<Value>>, after: seq<Entry<Value>>)
    requires DistinctKeys(before) && KeyList(before) == KeyList(after)
    ensures Patch(before, after) == ChangesAt(KeyList(before), before, after)
    ensures DistinctKeys(Patch(before, after)) && forall e <- Patch(before, after) :: e.key in KeyList(before)
    ensures forall k :: k in KeyList(Patch(before, after)) <==> k in KeyList(before) && Changed(before, after, k)
  {
    forall e <- after ensures e.key in KeyList(before) { KeyListHas(after, e); }
    NoNewKeys(before, after);
    assert KeyList(before) + [] == KeyList(before);
    ChangesDistinct(KeyList(before), before, after);
    var patch := Patch(before, after);
    forall k ensures k in KeyList(patch) <==> k in KeyList(before) && Changed(before, after, k) {
      ChangesHave(KeyList(before), before, after, k);
    }
    forall e <- patch ensures e.key in KeyList(before) { KeyListHas(patch, e); }
  }

  // Laying the patch over the input gives the output, when the rewrite keeps the keys and changes no value
  // without changing its text.
  lemma {:induction false} OverlayIsOutput(before: seq<Entry<Value>>, after: seq<Entry<Value>>)
    requires DistinctKeys(before) && KeyList(before) == KeyList(after)
    requires forall k <- KeyList(before) :: !Changed(before, after, k) ==> Get(before, k) == Get(after, k)
    ensures Overlay(before, Patch(before, after)) == after
    ensures forall k :: k in KeyList(Patch(before, after)) <==> k in KeyList(before) && Get(before, k) != Get(after, k)
  {
    PatchKeys(before, after);
    var patch := Patch(before, after);
    var over := Overlay(before, patch);
    OverlayGets(before, patch, []);
    forall k <- KeyList(over) ensures Get(over, k) == Get(after, k) {
      ChangesHave(KeyList(before), before, after, k);
      OverlayGets(before, patch, k);
    }
    SameKeysDistinct(before, over);
    MembersEqual(over, after);
  }

  lemma {:induction false} SameKeysDistinct(a: seq<Entry<Value>>, b: seq<Entry<Value>>)
    requires DistinctKeys(a) && KeyList(a) == KeyList(b)
    ensures DistinctKeys(b)
  {
    forall i, j | 0 <= i < j < |b| ensures b[i].key != b[j].key {
      assert KeyList(a)[i] == a[i].key && KeyList(a)[j] == a[j].key;
    }
  }
}
