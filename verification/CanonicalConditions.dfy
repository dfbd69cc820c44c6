// What the canonical rewrite of a block sends: which conditions it keeps and how, and what becomes of every leaf.
module CanonicalConditions {
  import opened Wrappers
  import opened Lexicographic
  import opened JsonValues
  import opened CanonicalJson
  import opened DashboardConfig
  import opened CanonicalRebind

  predicate Absent(v: Value) { v.Undefined? || v.Null? }

  // The conditions of a block's filter.
  predicate HasConditions(filter: Value, items: seq<Value>) {
    if Absent(filter) then items == []
    else filter.Obj? && var list := Get(filter.members, Ascii("conditions"));
      if Absent(list) then items == [] else list == Arr(items)
  }

  lemma {:induction false} ConditionsExactly(filter: Value, items: seq<Value>)
    ensures ConditionList(filter) == Some(items) <==> HasConditions(filter, items)
  {}

  // A condition's field under either spelling of its member.
  function FieldName(c: Value): Value {
    if !c.Obj? then Undefined
    else if Absent(Get(c.members, Ascii("field_name"))) then Get(c.members, Ascii("fieldName"))
    else Get(c.members, Ascii("field_name"))
  }

  predicate IsDisplay(t: Text) {
    t == Ascii("__mkt_legacy_display_name_single_select_v1") || t == Ascii("__mkt_legacy_display_name_single_select_v2")
  }

  predicate IsWindow(t: Text) {
    t == Ascii("__mkt_legacy_window_days_single_select_v1") || t == Ascii("__mkt_legacy_window_days_single_select_v2")
  }

  predicate NeedsNoValue(operator: Text) { operator == Ascii("isEmpty") || operator == Ascii("isNotEmpty") }

  // Conditions on the display fields and on the metric key are dropped.
  predicate Stays(c: Value) {
    FieldName(c).Str? && var field := TrimText(FieldName(c).text); !IsDisplay(field) && field != Ascii("metric_key")
  }

  // A condition as a request carries it.
  predicate SentAs(c: Value, sent: Value) {
    && c.Obj? && FieldName(c).Str? && Get(c.members, Ascii("operator")).Str?
    && var field, operator := TrimText(FieldName(c).text), TrimText(Get(c.members, Ascii("operator")).text);
    && sent == Obj([Entry(Ascii("field_name"), Str(field)), Entry(Ascii("operator"), Str(operator))]
                   + if NeedsNoValue(operator) then [] else [Entry(Ascii("value"), Get(c.members, Ascii("value")))])
  }

  // One condition is sent for each that stays, in order.
  predicate KeptAre(items: seq<Value>, kept: seq<Value>) {
    if items == [] then kept == []
    else if Stays(items[0]) then kept != [] && SentAs(items[0], kept[0]) && KeptAre(items[1..], kept[1..])
    else KeptAre(items[1..], kept)
  }

  lemma {:induction false} Valueless(operator: Text)
    ensures operator in VALUELESS <==> NeedsNoValue(operator)
  {
    assert VALUELESS[0] == Ascii("isEmpty") && VALUELESS[1] == Ascii("isNotEmpty");
  }

  lemma {:induction false} LegacyNames(t: Text)
    ensures t in LEGACY_DISPLAY <==> IsDisplay(t)
    ensures t in LEGACY_WINDOW <==> IsWindow(t)
  {
    assert LEGACY_DISPLAY[0] == Ascii("__mkt_legacy_display_name_single_select_v1");
    assert LEGACY_DISPLAY[1] == Ascii("__mkt_legacy_display_name_single_select_v2");
    assert LEGACY_WINDOW[0] == Ascii("__mkt_legacy_window_days_single_select_v1");
    assert LEGACY_WINDOW[1] == Ascii("__mkt_legacy_window_days_single_select_v2");
  }

  lemma {:induction false} SentExactly(c: Value)
    requires SanitizeCondition(c).Some?
    ensures SentAs(c, SanitizeCondition(c).value)
    ensures Retained(SanitizeCondition(c).value) <==> Stays(c)
  {
    var field, operator := TrimText(FieldOf(c.members).text), TrimText(Get(c.members, OPERATOR).text);
    Valueless(operator);
    LegacyNames(field);
    ConditionGets(field, operator, Get(c.members, VALUE));
  }

  lemma {:induction false} KeptStep(items: seq<Value>, clean: seq<Value>)
    requires items != [] && clean != [] && KeptAre(items[1..], Retain(clean[1..]))
    requires SentAs(items[0], clean[0]) && (Retained(clean[0]) <==> Stays(items[0]))
    ensures KeptAre(items, Retain(clean))
  {
    if Retained(clean[0]) {
      assert Retain(clean) == [clean[0]] + Retain(clean[1..]);
      assert Retain(clean)[1..] == Retain(clean[1..]);
    } else {
      assert Retain(clean) == Retain(clean[1..]);
    }
  }

  lemma {:induction false} KeptConditions(items: seq<Value>, clean: seq<Value>)
    requires SanitizeConditions(items) == Some(clean)
    ensures KeptAre(items, Retain(clean))
  {
    if items != [] {
      KeptConditions(items[1..], clean[1..]);
      SentExactly(items[0]);
      KeptStep(items, clean);
    }
  }

  // The whole of a bound filter: both members, the conjunction, the kept conditions and the one on the metric.
  ghost predicate BoundFilter(filter: Value, items: seq<Value>, key: Text) {
    exists kept :: KeptAre(items, kept)
      && filter == Obj([Entry(Ascii("conjunction"), Str(Ascii("and"))),
                        Entry(Ascii("conditions"), Arr(kept + [MetricIs(key)]))])
  }

  function MetricIs(key: Text): Value {
    Obj([Entry(Ascii("field_name"), Str(Ascii("metric_key"))), Entry(Ascii("operator"), Str(Ascii("is"))),
         Entry(Ascii("value"), Str(key))])
  }

  lemma {:induction false} MetricIsThat(key: Text)
    ensures MetricCondition(key) == MetricIs(key)
  {
    KeysDiffer();
  }

  // Main result: binding keeps the other conditions in their order, cleaned of what a response added, and ends the
  // filter with the one on the metric; conditions are joined by `and`, and every other member stays as it was.
  lemma {:induction false} BoundExactly(key: Text, before: seq<Entry<Value>>)
    requires Bound(Some(key), before).Some?
    ensures var bound := Bound(Some(key), before).value.0;
      && (exists items :: HasConditions(Get(before, Ascii("filter")), items) && BoundFilter(Get(bound, Ascii("filter")), items, key))
      && (forall k | k != Ascii("filter") :: Get(bound, k) == Get(before, k))
      && KeyList(bound) == KeyList(before) + (if Ascii("filter") in KeyList(before) then [] else [Ascii("filter")])
  {
    var items := ConditionList(Get(before, FILTER)).value;
    var clean := SanitizeConditions(items).value;
    var kept := Retain(clean);
    ConditionsExactly(Get(before, FILTER), items);
    KeptConditions(items, clean);
    MetricIsThat(key);
    var bound := Bound(Some(key), before).value.0;
    forall k ensures Get(bound, k) == if k == FILTER then FilterOf(kept + [MetricCondition(key)]) else Get(before, k) {
      AssignGets(before, FILTER, FilterOf(kept + [MetricCondition(key)]), k);
    }
    assert BoundFilter(Get(bound, FILTER), items, key);
    AssignKeys(before, FILTER, FilterOf(kept + [MetricCondition(key)]));
  }

  lemma {:induction false} AssignKeys(ms: seq<Entry<Value>>, key: Text, v: Value)
    ensures KeyList(Assign(ms, key, v)) == KeyList(ms) + (if key in KeyList(ms) then [] else [key])
  {
    if ms == [] {
      assert KeyList([Entry(key, v)]) == [key];
    } else if ms[0].key == key {
      assert ([Entry(key, v)] + ms[1..])[1..] == ms[1..];
      assert key == KeyList(ms)[0];
    } else {
      AssignKeys(ms[1..], key, v);
      assert ([ms[0]] + Assign(ms[1..], key, v))[1..] == Assign(ms[1..], key, v);
      assert KeyList(ms) == [ms[0].key] + KeyList(ms[1..]);
    }
  }

  // Leaves ----------------------------------------------------------------------------------------

  predicate Leaf(v: Value) { !v.Arr? && !v.Obj? }

  // The key of the nearest member around a place.
  function KeyAt(v: Value, path: seq<nat>, above: Text): Text
    requires At(v, path).Some?
    decreases |path|
  {
    if path == [] then above
    else if v.Arr? then KeyAt(v.items[path[0]], path[1..], above)
    else KeyAt(v.members[path[0]].value, path[1..], v.members[path[0]].key)
  }

  predicate HoldsValues(key: Text) {
    || key == Ascii("value") || key == Ascii("values") || key == Ascii("default_value") || key == Ascii("defaultValue")
    || key == Ascii("selected_value") || key == Ascii("selectedValue")
  }

  predicate IsWindowValue(t: Text) { t == Ascii("1") || t == Ascii("3") || t == Ascii("7") || t == Ascii("30") }

  function Renewed(key: Text, leaf: Value): Value {
    if leaf.Str? && IsWindow(TrimText(leaf.text)) then Str(Ascii("window_days"))
    else if leaf.Str? && HoldsValues(key) && IsWindowValue(TrimText(leaf.text)) then Num(TrimText(leaf.text))
    else leaf
  }

  lemma {:induction false} ValueNames(t: Text)
    ensures t in VALUE_KEYS <==> HoldsValues(t)
    ensures t in WINDOW_VALUES <==> IsWindowValue(t)
  {
    assert VALUE_KEYS[0] == Ascii("value") && VALUE_KEYS[1] == Ascii("values") && VALUE_KEYS[2] == Ascii("default_value");
    assert VALUE_KEYS[3] == Ascii("defaultValue") && VALUE_KEYS[4] == Ascii("selected_value") && VALUE_KEYS[5] == Ascii("selectedValue");
    assert WINDOW_VALUES[0] == Ascii("1") && WINDOW_VALUES[1] == Ascii("3") && WINDOW_VALUES[2] == Ascii("7") && WINDOW_VALUES[3] == Ascii("30");
  }

  lemma {:induction false} LeafRenewed(leaf: Value, key: Text)
    requires Leaf(leaf)
    ensures ReplaceWindow(leaf, key) == Renewed(key, leaf)
  {
    if leaf.Str? {
      LegacyNames(TrimText(leaf.text));
      ValueNames(TrimText(leaf.text));
      ValueNames(key);
    }
  }

  // Replacing rewrites each leaf by its own text and the key it stands under, and keeps the shape.
  lemma {:induction false} EveryLeafRenewed(v: Value, above: Text, path: seq<nat>)
    requires At(v, path).Some?
    ensures At(ReplaceWindow(v, above), path).Some?
    ensures var was, becomes := At(v, path).value, At(ReplaceWindow(v, above), path).value;
      match was
      case Arr(items) => becomes.Arr? && |becomes.items| == |items|
      case Obj(ms) => becomes.Obj? && KeyList(becomes.members) == KeyList(ms)
      case _ => becomes == Renewed(KeyAt(v, path, above), was)
    decreases |path|
  {
    if path == [] {
      if v.Obj? { ReplacedKeys(v.members); } else if !v.Arr? { LeafRenewed(v, above); }
    } else if v.Arr? {
      ReplaceItemsAt(v.items, above, path[0]);
      EveryLeafRenewed(v.items[path[0]], above, path[1..]);
    } else {
      ReplaceMembersAt(v.members, path[0]);
      EveryLeafRenewed(v.members[path[0]].value, v.members[path[0]].key, path[1..]);
    }
  }

  lemma {:induction false} ReplaceMembersAt(ms: seq<Entry<Value>>, i: nat)
    requires i < |ms|
    ensures ReplaceMembers(ms)[i] == Entry(ms[i].key, ReplaceWindow(ms[i].value, ms[i].key))
  {
    if i > 0 { ReplaceMembersAt(ms[1..], i - 1); }
  }

  lemma {:induction false} ReplacedKeys(ms: seq<Entry<Value>>)
    ensures KeyList(ReplaceMembers(ms)) == KeyList(ms)
  {
    forall i | 0 <= i < |ms| ensures KeyList(ReplaceMembers(ms))[i] == KeyList(ms)[i] { ReplaceMembersAt(ms, i); }
  }

  ghost predicate NamesWindow(before: seq<Entry<Value>>) {
    exists x :: IsWindow(x) && HoldsText(Obj(before), x)
  }

  lemma {:induction false} NamesWindowExactly(before: seq<Entry<Value>>)
    ensures HasAny(Obj(before), LEGACY_WINDOW) <==> NamesWindow(before)
  {
    forall i | 0 <= i < |LEGACY_WINDOW| ensures Contains(Obj(before), LEGACY_WINDOW[i]) <==> HoldsText(Obj(before), LEGACY_WINDOW[i]) {
      ContainsExactly(Obj(before), LEGACY_WINDOW[i]);
      LegacyNames(LEGACY_WINDOW[i]);
    }
    if x :| IsWindow(x) && HoldsText(Obj(before), x) { LegacyNames(x); }
  }

  // Main result: a rewritten block is the bound one with the leaves renewed, if the block named a window field, and
  // the bound one otherwise.
  lemma {:induction false} OutputLeaf(metric: Option<Text>, before: seq<Entry<Value>>, path: seq<nat>)
    requires Rebind(metric, before).Ok? && Bound(metric, before).Some?
    requires At(Obj(Bound(metric, before).value.0), path).Some? && Leaf(At(Obj(Bound(metric, before).value.0), path).value)
    ensures var bound := Obj(Bound(metric, before).value.0); var leaf := At(bound, path).value;
      At(Obj(Rebind(metric, before).value.dataConfig), path)
      == Some(if NamesWindow(before) then Renewed(KeyAt(bound, path, []), leaf) else leaf)
    ensures metric.None? ==> Bound(metric, before).value.0 == before
  {
    NamesWindowExactly(before);
    EveryLeafRenewed(Obj(Bound(metric, before).value.0), [], path);
  }
}
