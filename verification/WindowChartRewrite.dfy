// Moving a chart from the numeric window field to the preserved select field: every reference in the tree is
// renamed, presets beside a reference become texts, and field types beside it become the select type.
module WindowChartRewrite {
  import opened Wrappers
  import opened Lexicographic
  import opened JsonValues
  import opened CanonicalJson
  import opened DashboardConfig

  const SOURCE_NAME := Ascii("window_days")
  const SOURCE_ID := Ascii("fldbPCldTL")
  const TARGET_NAME := Ascii("__mkt_legacy_window_days_single_select_v1")
  const TARGET_ID := Ascii("fldMlTUP3Z")

  const PRESETS: seq<Text> := [Ascii("1"), Ascii("3"), Ascii("7"), Ascii("30")]
  const FIELD_TYPE_KEYS: seq<Text> := [Ascii("field_type"), Ascii("fieldType"), Ascii("originFieldType")]
  const VALUE_KEYS: seq<Text> := [Ascii("value"), Ascii("values"), Ascii("default_value"), Ascii("defaultValue"),
                                  Ascii("selected_value"), Ascii("selectedValue")]
  const SELECT_TYPE := Num(Ascii("3"))

  // How JavaScript reads a text as a number is a parameter: whether that number is two.
  type Reader = Text -> bool

  // The names of the fields do not read as numbers.
  ghost predicate Sensible(two: Reader) {
    forall t: Text | two(t) :: TrimText(t) != SOURCE_NAME && TrimText(t) != SOURCE_ID
  }

  // An array of one item reads as that item's text does.
  function ReadsAsTwo(two: Reader, v: Value): bool {
    match v
    case Num(numeral) => numeral == Ascii("2")
    case Str(t) => two(t)
    case Arr(items) => |items| == 1 && ReadsAsTwo(two, items[0])
    case _ => false
  }

  predicate SourceText(t: Text) { TrimText(t) == SOURCE_NAME || TrimText(t) == SOURCE_ID }
  predicate HasSource(v: Value) { Contains(v, SOURCE_NAME) || Contains(v, SOURCE_ID) }
  predicate HasTarget(v: Value) { Contains(v, TARGET_NAME) || Contains(v, TARGET_ID) }

  function Lower(c: CodeUnit): CodeUnit { if 65 <= c <= 90 then c + 32 else c }

  // The key names a field: it holds "field" in any case.
  predicate FieldKey(key: Text) { exists i | 0 <= i < |key| :: FieldAt(key, i) }

  predicate FieldAt(key: Text, i: int) {
    0 <= i <= |key| - 5 && forall c | i <= c < i + 5 :: Lower(key[c]) == Ascii("field")[c - i]
  }

  predicate SourceObject(ms: seq<Entry<Value>>) {
    exists i | 0 <= i < |ms| :: FieldKey(ms[i].key) && HasSource(ms[i].value)
  }

  function Preset(v: Value): Option<Text> {
    match v
    case Num(numeral) => if numeral in PRESETS then Some(numeral) else None
    case Str(t) => if TrimText(t) in PRESETS then Some(TrimText(t)) else None
    case _ => None
  }

  // The rewrite as a function of the tree -------------------------------------------------------------------

  function Rewrite(two: Reader, v: Value): Value
    decreases v, 0
  {
    match v
    case Arr(items) => Arr(RewriteItems(two, items))
    case Obj(ms) => Obj(RewriteMembers(two, ms, SourceObject(ms)))
    case Str(t) =>
      if TrimText(t) == SOURCE_NAME then Str(TARGET_NAME) else if TrimText(t) == SOURCE_ID then Str(TARGET_ID) else v
    case _ => v
  }

  function RewriteItems(two: Reader, items: seq<Value>): (r: seq<Value>)
    ensures |r| == |items|
    decreases items, 0
  {
    if items == [] then [] else [Rewrite(two, items[0])] + RewriteItems(two, items[1..])
  }

  function RewriteMembers(two: Reader, ms: seq<Entry<Value>>, source: bool): (r: seq<Entry<Value>>)
    ensures |r| == |ms|
    decreases ms, 0
  {
    if ms == [] then []
    else [Entry(ms[0].key, RewriteMember(two, ms[0].key, ms[0].value, source))] + RewriteMembers(two, ms[1..], source)
  }

  function RewriteMember(two: Reader, key: Text, v: Value, source: bool): Value
    decreases v, 2
  {
    if source && key in FIELD_TYPE_KEYS && ReadsAsTwo(two, v) then SELECT_TYPE
    else if source && key in VALUE_KEYS then RewritePreset(two, v)
    else Rewrite(two, v)
  }

  function RewritePreset(two: Reader, v: Value): Value
    decreases v, 1
  {
    match v
    case Arr(items) => Arr(RewritePresets(two, items))
    case _ => if Preset(v).Some? then Str(Preset(v).value) else Rewrite(two, v)
  }

  function RewritePresets(two: Reader, items: seq<Value>): (r: seq<Value>)
    ensures |r| == |items|
    decreases items, 0
  {
    if items == [] then [] else [RewritePreset(two, items[0])] + RewritePresets(two, items[1..])
  }

  // No source is left, and each kind of reference has moved to its target -------------------------------------

  ghost predicate Redirects(v: Value, r: Value) {
    && !HasSource(r)
    && (Contains(v, SOURCE_NAME) ==> Contains(r, TARGET_NAME))
    && (Contains(v, SOURCE_ID) ==> Contains(r, TARGET_ID))
  }

  lemma {:induction false} NamesArePlain()
    ensures TrimText(SOURCE_NAME) == SOURCE_NAME && TrimText(SOURCE_ID) == SOURCE_ID
    ensures TrimText(TARGET_NAME) == TARGET_NAME && TrimText(TARGET_ID) == TARGET_ID
    ensures SOURCE_NAME != TARGET_NAME && SOURCE_NAME != TARGET_ID && SOURCE_ID != TARGET_NAME && SOURCE_ID != TARGET_ID
    ensures SOURCE_NAME != SOURCE_ID
  {
    TrimPlain(SOURCE_NAME);
    TrimPlain(SOURCE_ID);
    TrimPlain(TARGET_NAME);
    TrimPlain(TARGET_ID);
    assert |SOURCE_NAME| == 11 && |SOURCE_ID| == 10 && |TARGET_ID| == 10 && |TARGET_NAME| > 11;
    assert SOURCE_ID[3] != TARGET_ID[3];
  }

  lemma {:induction false} PresetsArePlain(p: Text)
    requires p in PRESETS
    ensures TrimText(p) == p && |p| <= 2
  {
    TrimPlain(p);
  }

  lemma {:induction false} TwoHasNoSource(two: Reader, v: Value)
    requires Sensible(two) && ReadsAsTwo(two, v)
    ensures !HasSource(v)
    decreases v
  {
    match v
    case Arr(items) =>
      TwoHasNoSource(two, items[0]);
      ContainsItem(items, SOURCE_NAME);
      ContainsItem(items, SOURCE_ID);
    case _ =>
  }

  lemma {:induction false} EmptyRedirects()
    ensures Redirects(Arr([]), Arr([])) && Redirects(Obj([]), Obj([]))
  {
    assert forall x :: !ContainsItems([], x) && !ContainsMembers([], x);
  }

  lemma {:induction false} ArrRedirects(v: Value, items: seq<Value>, r: Value, results: seq<Value>)
    requires Redirects(v, r) && Redirects(Arr(items), Arr(results))
    ensures Redirects(Arr([v] + items), Arr([r] + results))
  {
    forall x ensures Contains(Arr([v] + items), x) <==> Contains(v, x) || Contains(Arr(items), x) { ArrCons(v, items, x); }
    forall x ensures Contains(Arr([r] + results), x) <==> Contains(r, x) || Contains(Arr(results), x) { ArrCons(r, results, x); }
  }

  lemma {:induction false} ObjRedirects(key: Text, v: Value, ms: seq<Entry<Value>>, r: Value, results: seq<Entry<Value>>)
    requires Redirects(v, r) && Redirects(Obj(ms), Obj(results))
    ensures Redirects(Obj([Entry(key, v)] + ms), Obj([Entry(key, r)] + results))
  {
    forall x ensures Contains(Obj([Entry(key, v)] + ms), x) <==> Contains(v, x) || Contains(Obj(ms), x) { ObjCons(key, v, ms, x); }
    forall x ensures Contains(Obj([Entry(key, r)] + results), x) <==> Contains(r, x) || Contains(Obj(results), x) {
      ObjCons(key, r, results, x);
    }
  }

  lemma {:induction false} NodeRedirects(two: Reader, v: Value)
    requires Sensible(two)
    ensures Redirects(v, Rewrite(two, v))
    decreases v, 0
  {
    NamesArePlain();
    match v
    case Arr(items) => ItemsRedirect(two, items);
    case Obj(ms) => MembersRedirect(two, ms, SourceObject(ms));
    case _ =>
  }

  lemma {:induction false} ItemsRedirect(two: Reader, items: seq<Value>)
    requires Sensible(two)
    ensures Redirects(Arr(items), Arr(RewriteItems(two, items)))
    decreases items, 0
  {
    if items == [] {
      EmptyRedirects();
      assert Arr(items) == Arr([]) == Arr(RewriteItems(two, items));
    } else {
      NodeRedirects(two, items[0]);
      ItemsRedirect(two, items[1..]);
      ArrRedirects(items[0], items[1..], Rewrite(two, items[0]), RewriteItems(two, items[1..]));
      assert [items[0]] + items[1..] == items;
    }
  }

  lemma {:induction false} MembersRedirect(two: Reader, ms: seq<Entry<Value>>, source: bool)
    requires Sensible(two)
    ensures Redirects(Obj(ms), Obj(RewriteMembers(two, ms, source)))
    decreases ms, 0
  {
    if ms == [] {
      EmptyRedirects();
      assert Obj(ms) == Obj([]) == Obj(RewriteMembers(two, ms, source));
    } else {
      MemberRedirects(two, ms[0].key, ms[0].value, source);
      MembersRedirect(two, ms[1..], source);
      ObjRedirects(ms[0].key, ms[0].value, ms[1..], RewriteMember(two, ms[0].key, ms[0].value, source),
                   RewriteMembers(two, ms[1..], source));
      assert [Entry(ms[0].key, ms[0].value)] + ms[1..] == ms;
    }
  }

  lemma {:induction false} MemberRedirects(two: Reader, key: Text, v: Value, source: bool)
    requires Sensible(two)
    ensures Redirects(v, RewriteMember(two, key, v, source))
    decreases v, 2
  {
    if source && key in FIELD_TYPE_KEYS && ReadsAsTwo(two, v) {
      TwoHasNoSource(two, v);
    } else if source && key in VALUE_KEYS {
      PresetRedirects(two, v);
    } else {
      NodeRedirects(two, v);
    }
  }

  lemma {:induction false} PresetRedirects(two: Reader, v: Value)
    requires Sensible(two)
    ensures Redirects(v, RewritePreset(two, v))
    decreases v, 1
  {
    if v.Arr? {
      PresetsRedirect(two, v.items);
    } else if Preset(v).Some? {
      PresetsArePlain(Preset(v).value);
      NamesArePlain();
    } else {
      NodeRedirects(two, v);
    }
  }

  lemma {:induction false} PresetsRedirect(two: Reader, items: seq<Value>)
    requires Sensible(two)
    ensures Redirects(Arr(items), Arr(RewritePresets(two, items)))
    decreases items, 0
  {
    if items == [] {
      EmptyRedirects();
      assert Arr(items) == Arr([]) == Arr(RewritePresets(two, items));
    } else {
      PresetRedirects(two, items[0]);
      PresetsRedirect(two, items[1..]);
      ArrRedirects(items[0], items[1..], RewritePreset(two, items[0]), RewritePresets(two, items[1..]));
      assert [items[0]] + items[1..] == items;
    }
  }

  // The rewrite goes member by member ----------------------------------------------------------------------

  lemma {:induction false} ItemAt(two: Reader, items: seq<Value>, i: nat)
    requires i < |items|
    ensures RewriteItems(two, items)[i] == Rewrite(two, items[i])
    ensures RewritePresets(two, items)[i] == RewritePreset(two, items[i])
  {
    if i > 0 { ItemAt(two, items[1..], i - 1); }
  }

  lemma {:induction false} MemberAt(two: Reader, ms: seq<Entry<Value>>, source: bool, i: nat)
    requires i < |ms|
    ensures RewriteMembers(two, ms, source)[i] == Entry(ms[i].key, RewriteMember(two, ms[i].key, ms[i].value, source))
  {
    if i > 0 { MemberAt(two, ms[1..], source, i - 1); }
  }

  // The result is a configuration again, and a tree whose text is unchanged is unchanged.
  ghost predicate Keeps(v: Value, r: Value) { Config(r) && (Same(v, r) ==> r == v) }

  lemma {:induction false} NodeKeeps(two: Reader, v: Value)
    requires Config(v)
    ensures Keeps(v, Rewrite(two, v))
    decreases v, 0
  {
    match v
    case Arr(items) =>
      var rs := RewriteItems(two, items);
      forall i | 0 <= i < |items| ensures Keeps(items[i], rs[i]) && (Nullish(items[i]) ==> rs[i] == items[i]) {
        ItemAt(two, items, i);
        NodeKeeps(two, items[i]);
      }
      ArrKeeps(items, rs);
    case Obj(ms) =>
      var rs := RewriteMembers(two, ms, SourceObject(ms));
      forall i | 0 <= i < |ms| ensures rs[i].key == ms[i].key && Keeps(ms[i].value, rs[i].value) {
        MemberAt(two, ms, SourceObject(ms), i);
        MemberKeeps(two, ms[i].key, ms[i].value, SourceObject(ms));
      }
      ObjKeeps(ms, rs);
    case _ =>
  }

  lemma {:induction false} ArrKeeps(items: seq<Value>, rs: seq<Value>)
    requires Config(Arr(items)) && |rs| == |items|
    requires forall i | 0 <= i < |items| :: Keeps(items[i], rs[i]) && (Nullish(items[i]) ==> rs[i] == items[i])
    ensures Keeps(Arr(items), Arr(rs))
  {
    if Same(Arr(items), Arr(rs)) {
      forall i | 0 <= i < |items| ensures rs[i] == items[i] { }
      assert rs == items;
    }
  }

  lemma {:induction false} ObjKeeps(ms: seq<Entry<Value>>, rs: seq<Entry<Value>>)
    requires Config(Obj(ms)) && |rs| == |ms|
    requires forall i | 0 <= i < |ms| :: rs[i].key == ms[i].key && Keeps(ms[i].value, rs[i].value)
    ensures Keeps(Obj(ms), Obj(rs))
  {
    if Same(Obj(ms), Obj(rs)) {
      forall i | 0 <= i < |ms| ensures rs[i] == ms[i] {
        GetAt(ms, i);
        GetAt(rs, i);
        assert ms[i].key in Keys(ms) + Keys(rs);
        assert Config(ms[i].value);
      }
      assert rs == ms;
    }
  }

  lemma {:induction false} MemberKeeps(two: Reader, key: Text, v: Value, source: bool)
    requires Config(v)
    ensures Keeps(v, RewriteMember(two, key, v, source))
    decreases v, 2
  {
    if source && key in FIELD_TYPE_KEYS && ReadsAsTwo(two, v) {
      assert Ascii("3")[0] == 51 && Ascii("2")[0] == 50;
    } else if source && key in VALUE_KEYS {
      PresetKeeps(two, v);
    } else {
      NodeKeeps(two, v);
    }
  }

  lemma {:induction false} PresetKeeps(two: Reader, v: Value)
    requires Config(v)
    ensures Keeps(v, RewritePreset(two, v)) && (Nullish(v) ==> RewritePreset(two, v) == v)
    decreases v, 1
  {
    if v.Arr? {
      var rs := RewritePresets(two, v.items);
      forall i | 0 <= i < |v.items| ensures Keeps(v.items[i], rs[i]) && (Nullish(v.items[i]) ==> rs[i] == v.items[i]) {
        ItemAt(two, v.items, i);
        PresetKeeps(two, v.items[i]);
      }
      ArrKeeps(v.items, rs);
    } else if Preset(v).None? {
      NodeKeeps(two, v);
    }
  }

  // Keys and array lengths -------------------------------------------------------------------------------------

  ghost predicate SameShape(a: Value, b: Value) {
    match a
    case Arr(xs) => b.Arr? && |xs| == |b.items| && forall i | 0 <= i < |xs| :: SameShape(xs[i], b.items[i])
    case Obj(ms) => b.Obj? && |ms| == |b.members|
                    && forall i | 0 <= i < |ms| :: ms[i].key == b.members[i].key && SameShape(ms[i].value, b.members[i].value)
    case _ => !b.Arr? && !b.Obj?
  }

  // Some object beside a reference gives its field type as an array that reads as two.
  ghost predicate TypedByArray(two: Reader, v: Value) {
    match v
    case Arr(items) => exists i :: 0 <= i < |items| && TypedByArray(two, items[i])
    case Obj(ms) =>
      exists i | 0 <= i < |ms| ::
        ArrayType(two, ms[i].key, ms[i].value, SourceObject(ms)) || TypedByArray(two, ms[i].value)
    case _ => false
  }

  predicate ArrayType(two: Reader, key: Text, v: Value, source: bool) {
    source && key in FIELD_TYPE_KEYS && v.Arr? && ReadsAsTwo(two, v)
  }

  lemma {:induction false} TwoHasNoObjects(two: Reader, v: Value)
    requires ReadsAsTwo(two, v)
    ensures !TypedByArray(two, v) && !v.Obj?
    decreases v
  {
    if v.Arr? { TwoHasNoObjects(two, v.items[0]); }
  }

  // Every key and every array length is kept, exactly unless a field type is given by such an array.
  lemma {:induction false} ShapeKeptExactly(two: Reader, v: Value)
    ensures SameShape(v, Rewrite(two, v)) <==> !TypedByArray(two, v)
    decreases v, 0
  {
    match v
    case Arr(items) =>
      forall i | 0 <= i < |items|
        ensures SameShape(items[i], RewriteItems(two, items)[i]) <==> !TypedByArray(two, items[i])
      {
        ItemAt(two, items, i);
        ShapeKeptExactly(two, items[i]);
      }
    case Obj(ms) =>
      var source := SourceObject(ms);
      forall i | 0 <= i < |ms|
        ensures RewriteMembers(two, ms, source)[i].key == ms[i].key
        ensures SameShape(ms[i].value, RewriteMembers(two, ms, source)[i].value) <==>
          !(ArrayType(two, ms[i].key, ms[i].value, source) || TypedByArray(two, ms[i].value))
      {
        MemberAt(two, ms, source, i);
        MemberShape(two, ms[i].key, ms[i].value, source);
      }
    case _ =>
  }

  lemma {:induction false} MemberShape(two: Reader, key: Text, v: Value, source: bool)
    ensures SameShape(v, RewriteMember(two, key, v, source)) <==>
      !(ArrayType(two, key, v, source) || TypedByArray(two, v))
    decreases v, 2
  {
    if source && key in FIELD_TYPE_KEYS && ReadsAsTwo(two, v) {
      TwoHasNoObjects(two, v);
    } else if source && key in VALUE_KEYS {
      PresetShape(two, v);
    } else {
      ShapeKeptExactly(two, v);
    }
  }

  lemma {:induction false} PresetShape(two: Reader, v: Value)
    ensures SameShape(v, RewritePreset(two, v)) <==> !TypedByArray(two, v)
    decreases v, 1
  {
    if v.Arr? {
      forall i | 0 <= i < |v.items|
        ensures SameShape(v.items[i], RewritePresets(two, v.items)[i]) <==> !TypedByArray(two, v.items[i])
      {
        ItemAt(two, v.items, i);
        PresetShape(two, v.items[i]);
      }
    } else if Preset(v).None? {
      ShapeKeptExactly(two, v);
    }
  }

  // An object beside a reference whose field type is the array [2].
  function ArrayTyped(): Value {
    Obj([Entry(Ascii("field_name"), Str(SOURCE_NAME)), Entry(Ascii("field_type"), Arr([Num(Ascii("2"))]))])
  }

  lemma {:induction false} ArrayTypedKeys()
    ensures Ascii("field_name") != Ascii("field_type") && FieldKey(Ascii("field_name"))
    ensures Ascii("field_name") != PROTO && Ascii("field_type") != PROTO
  {
    assert Ascii("field_name")[6] != Ascii("field_type")[6];
    assert PROTO[0] == 95 && Ascii("field_name")[0] == 102 && Ascii("field_type")[0] == 102;
    assert FieldAt(Ascii("field_name"), 0);
  }

  lemma {:induction false} ArrayTypedIsConfig()
    ensures Config(ArrayTyped())
  {
    ArrayTypedKeys();
  }

  lemma {:induction false} SecondMember(two: Reader, first: Entry<Value>, second: Entry<Value>, source: bool)
    ensures RewriteMembers(two, [first, second], source)[1] ==
      Entry(second.key, RewriteMember(two, second.key, second.value, source))
  {
    MemberAt(two, [first, second], source, 1);
  }

  // Its field type becomes a number, so an array length is not kept.
  lemma {:induction false} ArrayTypeLosesShape(two: Reader)
    ensures Config(ArrayTyped())
    ensures Rewrite(two, ArrayTyped()).members[1] == Entry(Ascii("field_type"), SELECT_TYPE)
    ensures !SameShape(ArrayTyped(), Rewrite(two, ArrayTyped()))
  {
    var ms := ArrayTyped().members;
    ArrayTypedIsConfig();
    assert SourceObject(ms) by {
      ArrayTypedKeys();
      TrimPlain(SOURCE_NAME);
      assert FieldKey(ms[0].key) && HasSource(ms[0].value);
    }
    SecondMember(two, ms[0], ms[1], true);
    var v := ms[1].value;
    assert ReadsAsTwo(two, v) && ms[1].key == FIELD_TYPE_KEYS[0];
    var after := Rewrite(two, ArrayTyped()).members;
    assert after[1].value == SELECT_TYPE && v.Arr?;
    assert !SameShape(v, after[1].value);
  }

  // What every leaf becomes --------------------------------------------------------------------------------------

  // The innermost object above a value, with the position of the member that leads on.
  type Holder = Option<(seq<Entry<Value>>, nat)>

  function HolderOf(above: Holder, v: Value, path: seq<nat>): Holder
    requires At(v, path).Some?
    decreases |path|
  {
    if path == [] then above
    else if v.Arr? then HolderOf(above, v.items[path[0]], path[1..])
    else HolderOf(Some((v.members, path[0])), v.members[path[0]].value, path[1..])
  }

  // Somewhere in the tree stands the name or the id of the numeric window field.
  ghost predicate Refers(v: Value) { HoldsText(v, Ascii("window_days")) || HoldsText(v, Ascii("fldbPCldTL")) }

  function LowerCase(t: Text): (r: Text)
    ensures |r| == |t| && forall i | 0 <= i < |t| :: r[i] == if 65 <= t[i] <= 90 then t[i] + 32 else t[i]
  {
    seq<CodeUnit>(|t|, i requires 0 <= i < |t| => if 65 <= t[i] <= 90 then t[i] + 32 else t[i])
  }

  predicate FieldStandsAt(key: Text, i: int) { 0 <= i <= |key| - 5 && LowerCase(key)[i..i + 5] == Ascii("field") }

  ghost predicate NamesField(key: Text) { exists i :: FieldStandsAt(key, i) }

  // A member whose key speaks of a field holds a reference.
  ghost predicate HasReference(ms: seq<Entry<Value>>) {
    exists i | 0 <= i < |ms| :: NamesField(ms[i].key) && Refers(ms[i].value)
  }

  // It is beside a reference, under one of these keys.
  ghost predicate Beside(h: Holder, keys: seq<Text>) {
    h.Some? && h.value.1 < |h.value.0| && HasReference(h.value.0) && h.value.0[h.value.1].key in keys
  }

  lemma {:induction false} NamesFieldExactly(key: Text)
    ensures FieldKey(key) <==> NamesField(key)
  {
    forall i ensures FieldAt(key, i) <==> FieldStandsAt(key, i) {
      if 0 <= i <= |key| - 5 { FieldAtExactly(key, i); }
    }
    if i :| FieldStandsAt(key, i) { assert FieldAt(key, i); }
    if FieldKey(key) {
      var i :| 0 <= i < |key| && FieldAt(key, i);
      assert FieldStandsAt(key, i);
    }
  }

  lemma {:induction false} FieldAtExactly(key: Text, i: nat)
    requires i <= |key| - 5
    ensures FieldAt(key, i) <==> FieldStandsAt(key, i)
  {
    var part := LowerCase(key)[i..i + 5];
    assert forall c | 0 <= c < 5 :: part[c] == Lower(key[i + c]);
    if FieldAt(key, i) {
      forall c | 0 <= c < 5 ensures part[c] == Ascii("field")[c] { assert Lower(key[i + c]) == Ascii("field")[c]; }
    }
    if part == Ascii("field") {
      forall c | i <= c < i + 5 ensures Lower(key[c]) == Ascii("field")[c - i] { assert part[c - i] == Ascii("field")[c - i]; }
    }
  }

  lemma {:induction false} HasReferenceExactly(ms: seq<Entry<Value>>)
    ensures SourceObject(ms) <==> HasReference(ms)
  {
    forall i | 0 <= i < |ms| ensures FieldKey(ms[i].key) && HasSource(ms[i].value) <==> NamesField(ms[i].key) && Refers(ms[i].value) {
      NamesFieldExactly(ms[i].key);
      ContainsExactly(ms[i].value, SOURCE_NAME);
      ContainsExactly(ms[i].value, SOURCE_ID);
    }
  }

  // A field type that reads as two is replaced as a whole.
  ghost predicate Retyped(two: Reader, h: Holder) {
    Beside(h, FIELD_TYPE_KEYS) && ReadsAsTwo(two, h.value.0[h.value.1].value)
  }

  predicate Leaf(v: Value) { !v.Arr? && !v.Obj? }

  function WrittenText(v: Value): Text {
    match v
    case Num(numeral) => numeral
    case Str(t) => TrimText(t)
    case _ => []
  }

  predicate WindowText(t: Text) { t == Ascii("1") || t == Ascii("3") || t == Ascii("7") || t == Ascii("30") }

  // A window number or text under a value key beside a reference becomes the text of that number, a reference
  // its target, and every other leaf stays.
  ghost function Becomes(h: Holder, leaf: Value): Value {
    if Beside(h, VALUE_KEYS) && WindowText(WrittenText(leaf)) then Str(WrittenText(leaf))
    else if leaf.Str? && WrittenText(leaf) == Ascii("window_days") then Str(Ascii("__mkt_legacy_window_days_single_select_v1"))
    else if leaf.Str? && WrittenText(leaf) == Ascii("fldbPCldTL") then Str(Ascii("fldMlTUP3Z"))
    else leaf
  }

  lemma {:induction false} TwoHasOneHolder(two: Reader, v: Value, path: seq<nat>, above: Holder)
    requires ReadsAsTwo(two, v) && At(v, path).Some?
    ensures HolderOf(above, v, path) == above
    decreases |path|
  {
    if path != [] { TwoHasOneHolder(two, v.items[path[0]], path[1..], above); }
  }

  lemma {:induction false} WindowTexts(leaf: Value)
    requires Leaf(leaf)
    ensures Preset(leaf) == if WindowText(WrittenText(leaf)) then Some(WrittenText(leaf)) else None
  {
    assert PRESETS == [Ascii("1"), Ascii("3"), Ascii("7"), Ascii("30")];
    assert |Ascii("1")| == |Ascii("3")| == |Ascii("7")| == 1 && |Ascii("30")| == 2;
  }

  lemma {:induction false} LeafOfNode(two: Reader, v: Value, path: seq<nat>, above: Holder)
    requires At(v, path).Some? && Leaf(At(v, path).value) && !Retyped(two, HolderOf(above, v, path))
    requires v.Obj? || !Beside(above, VALUE_KEYS)
    ensures At(Rewrite(two, v), path) == Some(Becomes(HolderOf(above, v, path), At(v, path).value))
    decreases |path|, 0
  {
    if path != [] {
      if v.Arr? {
        ItemAt(two, v.items, path[0]);
        if v.items[path[0]].Obj? || !Beside(above, VALUE_KEYS) { LeafOfNode(two, v.items[path[0]], path[1..], above); }
      } else {
        MemberAt(two, v.members, SourceObject(v.members), path[0]);
        LeafOfMember(two, v.members, path[0], path[1..]);
      }
    }
  }

  lemma {:induction false} LeafOfMember(two: Reader, ms: seq<Entry<Value>>, i: nat, path: seq<nat>)
    requires i < |ms| && At(ms[i].value, path).Some? && Leaf(At(ms[i].value, path).value)
    requires !Retyped(two, HolderOf(Some((ms, i)), ms[i].value, path))
    ensures At(RewriteMember(two, ms[i].key, ms[i].value, SourceObject(ms)), path)
      == Some(Becomes(HolderOf(Some((ms, i)), ms[i].value, path), At(ms[i].value, path).value))
    decreases |path|, 2
  {
    var above, v := Some((ms, i)), ms[i].value;
    HasReferenceExactly(ms);
    if Retyped(two, above) {
      TwoHasOneHolder(two, v, path, above);
    } else if Beside(above, VALUE_KEYS) {
      LeafOfPreset(two, v, path, above);
    } else {
      LeafOfNode(two, v, path, above);
    }
  }

  lemma {:induction false} LeafOfPreset(two: Reader, v: Value, path: seq<nat>, above: Holder)
    requires At(v, path).Some? && Leaf(At(v, path).value) && !Retyped(two, HolderOf(above, v, path))
    requires Beside(above, VALUE_KEYS)
    ensures At(RewritePreset(two, v), path) == Some(Becomes(HolderOf(above, v, path), At(v, path).value))
    decreases |path|, 1
  {
    if path == [] {
      WindowTexts(v);
    } else if v.Arr? {
      ItemAt(two, v.items, path[0]);
      LeafOfPreset(two, v.items[path[0]], path[1..], above);
    } else {
      LeafOfNode(two, v, path, above);
    }
  }

  // Main result: of every tree, each leaf is where it was and is what it should become, unless it is part of a
  // field type that reads as two...
  lemma {:induction false} EveryLeafBecomes(two: Reader, v: Value, path: seq<nat>)
    requires At(v, path).Some? && Leaf(At(v, path).value) && !Retyped(two, HolderOf(None, v, path))
    ensures At(Rewrite(two, v), path) == Some(Becomes(HolderOf(None, v, path), At(v, path).value))
  {
    LeafOfNode(two, v, path, None);
  }

  // ...and such a field type becomes the number three.
  lemma {:induction false} FieldTypeBecomesSelect(two: Reader, v: Value, path: seq<nat>, i: nat)
    requires At(v, path).Some? && At(v, path).value.Obj? && i < |At(v, path).value.members|
    requires Retyped(two, Some((At(v, path).value.members, i)))
    ensures At(Rewrite(two, v), path + [i]) == Some(Num(Ascii("3")))
  {
    var ms := At(v, path).value.members;
    HasReferenceExactly(ms);
    ObjectsStay(two, v, path);
    MemberAt(two, ms, SourceObject(ms), i);
    AtLast(Rewrite(two, v), path, i);
  }

  lemma {:induction false} AtLast(v: Value, path: seq<nat>, i: nat)
    requires At(v, path).Some? && At(v, path).value.Obj? && i < |At(v, path).value.members|
    ensures At(v, path + [i]) == Some(At(v, path).value.members[i].value)
    decreases |path|
  {
    if path == [] {
      assert (path + [i])[1..] == [];
    } else {
      assert (path + [i])[0] == path[0] && (path + [i])[1..] == path[1..] + [i];
      AtLast(if v.Arr? then v.items[path[0]] else v.members[path[0]].value, path[1..], i);
    }
  }

  // Every object is where it was, with its members rewritten.
  lemma {:induction false} ObjectsStay(two: Reader, v: Value, path: seq<nat>)
    requires At(v, path).Some? && At(v, path).value.Obj?
    ensures At(Rewrite(two, v), path) == Some(Rewrite(two, At(v, path).value))
    decreases |path|, 0
  {
    if path != [] {
      if v.Arr? {
        ItemAt(two, v.items, path[0]);
        ObjectsStay(two, v.items[path[0]], path[1..]);
      } else {
        var e, source := v.members[path[0]], SourceObject(v.members);
        MemberAt(two, v.members, source, path[0]);
        ObjectsOfMemberStay(two, e.key, e.value, source, path[1..]);
      }
    }
  }

  lemma {:induction false} ObjectsOfMemberStay(two: Reader, key: Text, v: Value, source: bool, path: seq<nat>)
    requires At(v, path).Some? && At(v, path).value.Obj?
    ensures At(RewriteMember(two, key, v, source), path) == Some(Rewrite(two, At(v, path).value))
    decreases |path|, 2
  {
    if source && key in FIELD_TYPE_KEYS && ReadsAsTwo(two, v) {
      TwoHoldsNoObject(two, v, path);
    } else if source && key in VALUE_KEYS {
      ObjectsOfPresetStay(two, v, path);
    } else {
      ObjectsStay(two, v, path);
    }
  }

  lemma {:induction false} TwoHoldsNoObject(two: Reader, v: Value, path: seq<nat>)
    requires ReadsAsTwo(two, v) && At(v, path).Some?
    ensures !At(v, path).value.Obj?
    decreases |path|
  {
    if path != [] { TwoHoldsNoObject(two, v.items[path[0]], path[1..]); }
  }

  lemma {:induction false} ObjectsOfPresetStay(two: Reader, v: Value, path: seq<nat>)
    requires At(v, path).Some? && At(v, path).value.Obj?
    ensures At(RewritePreset(two, v), path) == Some(Rewrite(two, At(v, path).value))
    decreases |path|, 1
  {
    if path != [] && v.Arr? {
      ItemAt(two, v.items, path[0]);
      ObjectsOfPresetStay(two, v.items[path[0]], path[1..]);
    } else {
      ObjectsStay(two, v, path);
    }
  }

  // The rewrite as the program does it, counting as it goes ------------------------------------------------------

  function Count(v: Value, x: Text): nat {
    match v
    case Str(t) => if TrimText(t) == x then 1 else 0
    case Arr(items) => CountItems(items, x)
    case Obj(ms) => CountMembers(ms, x)
    case _ => 0
  }

  function CountItems(items: seq<Value>, x: Text): nat {
    if items == [] then 0 else Count(items[0], x) + CountItems(items[1..], x)
  }

  function CountMembers(ms: seq<Entry<Value>>, x: Text): nat {
    if ms == [] then 0 else Count(ms[0].value, x) + CountMembers(ms[1..], x)
  }

  // How many numbers the rewrite turns into preset texts.
  function Converted(two: Reader, v: Value): nat
    decreases v, 0
  {
    match v
    case Arr(items) => ConvertedItems(two, items)
    case Obj(ms) => ConvertedMembers(two, ms, SourceObject(ms))
    case _ => 0
  }

  function ConvertedItems(two: Reader, items: seq<Value>): nat
    decreases items, 0
  {
    if items == [] then 0 else Converted(two, items[0]) + ConvertedItems(two, items[1..])
  }

  function ConvertedMembers(two: Reader, ms: seq<Entry<Value>>, source: bool): nat
    decreases ms, 0
  {
    if ms == [] then 0
    else ConvertedMember(two, ms[0].key, ms[0].value, source) + ConvertedMembers(two, ms[1..], source)
  }

  function ConvertedMember(two: Reader, key: Text, v: Value, source: bool): nat
    decreases v, 2
  {
    if source && key in FIELD_TYPE_KEYS && ReadsAsTwo(two, v) then 0
    else if source && key in VALUE_KEYS then ConvertedPreset(two, v)
    else Converted(two, v)
  }

  function ConvertedPreset(two: Reader, v: Value): nat
    decreases v, 1
  {
    match v
    case Arr(items) => ConvertedPresets(two, items)
    case Num(numeral) => if numeral in PRESETS then 1 else 0
    case _ => Converted(two, v)
  }

  function ConvertedPresets(two: Reader, items: seq<Value>): nat
    decreases items, 0
  {
    if items == [] then 0 else ConvertedPreset(two, items[0]) + ConvertedPresets(two, items[1..])
  }

  // A tree holds a reference exactly when it is counted.
  lemma {:induction false} CountedExactlyWhenHeld(v: Value, x: Text)
    ensures Count(v, x) > 0 <==> Contains(v, x)
    decreases v, 0
  {
    match v
    case Arr(items) => ItemsCounted(items, x);
    case Obj(ms) => MembersCounted(ms, x);
    case _ =>
  }

  lemma {:induction false} ItemsCounted(items: seq<Value>, x: Text)
    ensures CountItems(items, x) > 0 <==> ContainsItems(items, x)
    decreases items, 0
  {
    if items != [] {
      CountedExactlyWhenHeld(items[0], x);
      ItemsCounted(items[1..], x);
    }
  }

  lemma {:induction false} MembersCounted(ms: seq<Entry<Value>>, x: Text)
    ensures CountMembers(ms, x) > 0 <==> ContainsMembers(ms, x)
    decreases ms, 0
  {
    if ms != [] {
      CountedExactlyWhenHeld(ms[0].value, x);
      MembersCounted(ms[1..], x);
    }
  }

  class Counters {
    var sourceName: nat
    var sourceId: nat
    var numericPreset: nat

    constructor ()
      ensures sourceName == 0 && sourceId == 0 && numericPreset == 0
    {
      sourceName, sourceId, numericPreset := 0, 0, 0;
    }
  }

  method RewriteNode(two: Reader, v: Value, counters: Counters) returns (r: Value)
    requires Sensible(two)
    modifies counters
    ensures r == Rewrite(two, v)
    ensures counters.sourceName == old(counters.sourceName) + Count(v, SOURCE_NAME)
    ensures counters.sourceId == old(counters.sourceId) + Count(v, SOURCE_ID)
    ensures counters.numericPreset == old(counters.numericPreset) + Converted(two, v)
    decreases v, 0
  {
    NamesArePlain();
    if v.Arr? {
      var items := RewriteNodes(two, v.items, counters);
      r := Arr(items);
    } else if v.Obj? {
      var members := RewriteEntries(two, v.members, SourceObject(v.members), counters);
      r := Obj(members);
    } else if v.Str? && TrimText(v.text) == SOURCE_NAME {
      counters.sourceName := counters.sourceName + 1;
      r := Str(TARGET_NAME);
    } else if v.Str? && TrimText(v.text) == SOURCE_ID {
      counters.sourceId := counters.sourceId + 1;
      r := Str(TARGET_ID);
    } else {
      r := v;
    }
  }

  method RewriteNodes(two: Reader, items: seq<Value>, counters: Counters) returns (r: seq<Value>)
    requires Sensible(two)
    modifies counters
    ensures r == RewriteItems(two, items)
    ensures counters.sourceName == old(counters.sourceName) + CountItems(items, SOURCE_NAME)
    ensures counters.sourceId == old(counters.sourceId) + CountItems(items, SOURCE_ID)
    ensures counters.numericPreset == old(counters.numericPreset) + ConvertedItems(two, items)
    decreases items, 0
  {
    if items == [] { return []; }
    var first := RewriteNode(two, items[0], counters);
    var rest := RewriteNodes(two, items[1..], counters);
    r := [first] + rest;
  }

  method RewriteEntries(two: Reader, ms: seq<Entry<Value>>, source: bool, counters: Counters) returns (r: seq<Entry<Value>>)
    requires Sensible(two)
    modifies counters
    ensures r == RewriteMembers(two, ms, source)
    ensures counters.sourceName == old(counters.sourceName) + CountMembers(ms, SOURCE_NAME)
    ensures counters.sourceId == old(counters.sourceId) + CountMembers(ms, SOURCE_ID)
    ensures counters.numericPreset == old(counters.numericPreset) + ConvertedMembers(two, ms, source)
    decreases ms, 0
  {
    if ms == [] { return []; }
    var first := RewriteEntry(two, ms[0].key, ms[0].value, source, counters);
    var rest := RewriteEntries(two, ms[1..], source, counters);
    r := [Entry(ms[0].key, first)] + rest;
  }

  method RewriteEntry(two: Reader, key: Text, v: Value, source: bool, counters: Counters) returns (r: Value)
    requires Sensible(two)
    modifies counters
    ensures r == RewriteMember(two, key, v, source)
    ensures counters.sourceName == old(counters.sourceName) + Count(v, SOURCE_NAME)
    ensures counters.sourceId == old(counters.sourceId) + Count(v, SOURCE_ID)
    ensures counters.numericPreset == old(counters.numericPreset) + ConvertedMember(two, key, v, source)
    decreases v, 2
  {
    if source && key in FIELD_TYPE_KEYS && ReadsAsTwo(two, v) {
      TwoHasNoSource(two, v);
      CountedExactlyWhenHeld(v, SOURCE_NAME);
      CountedExactlyWhenHeld(v, SOURCE_ID);
      r := SELECT_TYPE;
    } else if source && key in VALUE_KEYS {
      r := RewritePresetValue(two, v, counters);
    } else {
      r := RewriteNode(two, v, counters);
    }
  }

  method RewritePresetValue(two: Reader, v: Value, counters: Counters) returns (r: Value)
    requires Sensible(two)
    modifies counters
    ensures r == RewritePreset(two, v)
    ensures counters.sourceName == old(counters.sourceName) + Count(v, SOURCE_NAME)
    ensures counters.sourceId == old(counters.sourceId) + Count(v, SOURCE_ID)
    ensures counters.numericPreset == old(counters.numericPreset) + ConvertedPreset(two, v)
    decreases v, 1
  {
    if v.Arr? {
      var items := RewritePresetValues(two, v.items, counters);
      r := Arr(items);
    } else if Preset(v).Some? {
      PresetHasNoSource(v);
      if !v.Str? { counters.numericPreset := counters.numericPreset + 1; }
      r := Str(Preset(v).value);
    } else {
      r := RewriteNode(two, v, counters);
    }
  }

  method RewritePresetValues(two: Reader, items: seq<Value>, counters: Counters) returns (r: seq<Value>)
    requires Sensible(two)
    modifies counters
    ensures r == RewritePresets(two, items)
    ensures counters.sourceName == old(counters.sourceName) + CountItems(items, SOURCE_NAME)
    ensures counters.sourceId == old(counters.sourceId) + CountItems(items, SOURCE_ID)
    ensures counters.numericPreset == old(counters.numericPreset) + ConvertedPresets(two, items)
    decreases items, 0
  {
    if items == [] { return []; }
    var first := RewritePresetValue(two, items[0], counters);
    var rest := RewritePresetValues(two, items[1..], counters);
    r := [first] + rest;
  }

  lemma {:induction false} PresetHasNoSource(v: Value)
    requires Preset(v).Some?
    ensures Count(v, SOURCE_NAME) == 0 && Count(v, SOURCE_ID) == 0
  {
    PresetsArePlain(Preset(v).value);
    NamesArePlain();
    assert |SOURCE_NAME| == 11 && |SOURCE_ID| == 10;
  }

  datatype Error = SourceReferenceMissing | SourceReferenceRemains | TargetReferenceMissing | RewriteEmpty
  datatype Rewritten = Rewritten(dataConfig: seq<Entry<Value>>, references: nat, numericPresets: nat, patch: seq<Entry<Value>>)

  // The three checks after the rewrite never fail: a chart is refused exactly when it holds no reference.
  lemma {:induction false} ChecksPass(two: Reader, before: seq<Entry<Value>>)
    requires Sensible(two) && Config(Obj(before)) && HasSource(Obj(before))
    ensures var after := Rewrite(two, Obj(before));
      !HasSource(after) && HasTarget(after) && Serialize(Obj(before)) != Serialize(after)
  {
    var after := Rewrite(two, Obj(before));
    NodeRedirects(two, Obj(before));
    NodeKeeps(two, Obj(before));
    ConfigText(Obj(before), after);
    assert Same(Obj(before), after) ==> after == Obj(before);
  }

  // Laying the patch over the configuration gives the rewritten one, and the patch has exactly the keys whose
  // value changed.
  lemma {:induction false} PatchIsRewrite(two: Reader, before: seq<Entry<Value>>)
    requires Config(Obj(before))
    ensures var after := Rewrite(two, Obj(before)).members;
      && Overlay(before, Patch(before, after)) == after
      && forall k :: k in KeyList(Patch(before, after)) <==> k in KeyList(before) && Get(before, k) != Get(after, k)
  {
    var source := SourceObject(before);
    var after := RewriteMembers(two, before, source);
    forall i | 0 <= i < |before|
      ensures after[i].key == before[i].key
      ensures Serialize(before[i].value) == Serialize(after[i].value) ==> after[i].value == before[i].value
    {
      MemberAt(two, before, source, i);
      MemberKeeps(two, before[i].key, before[i].value, source);
      ConfigText(before[i].value, after[i].value);
    }
    assert KeyList(before) == KeyList(after);
    SameKeysDistinct(before, after);
    forall k <- KeyList(before) ensures !Changed(before, after, k) ==> Get(before, k) == Get(after, k) {
      var i :| 0 <= i < |before| && KeyList(before)[i] == k;
      GetAt(before, i);
      GetAt(after, i);
    }
    OverlayIsOutput(before, after);
  }

  method RewriteNumberWindowChart(two: Reader, before: seq<Entry<Value>>) returns (r: Result<Rewritten, Error>)
    requires Sensible(two) && Config(Obj(before))
    ensures r.Ok? <==> HasSource(Obj(before))
    ensures r.Err? ==> r.error == SourceReferenceMissing
    ensures r.Ok? ==> Obj(r.value.dataConfig) == Rewrite(two, Obj(before)) && !HasSource(Obj(r.value.dataConfig))
    ensures r.Ok? ==> r.value.references == Count(Obj(before), SOURCE_NAME) + Count(Obj(before), SOURCE_ID)
    ensures r.Ok? ==> r.value.numericPresets == Converted(two, Obj(before))
    ensures r.Ok? ==> Overlay(before, r.value.patch) == r.value.dataConfig
  {
    var counters := new Counters();
    var after := RewriteNode(two, Obj(before), counters);
    CountedExactlyWhenHeld(Obj(before), SOURCE_NAME);
    CountedExactlyWhenHeld(Obj(before), SOURCE_ID);
    var references := counters.sourceName + counters.sourceId;
    if references < 1 { return Err(SourceReferenceMissing); }
    ChecksPass(two, before);
    if HasSource(after) { return Err(SourceReferenceRemains); }
    if !HasTarget(after) { return Err(TargetReferenceMissing); }
    if Serialize(Obj(before)) == Serialize(after) { return Err(RewriteEmpty); }
    var patch := ChangedTopLevelKeys(before, after.members);
    PatchIsRewrite(two, before);
    r := Ok(Rewritten(after.members, references, counters.numericPreset, patch));
  }
}
