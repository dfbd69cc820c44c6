// The canonical rewrite of a dashboard block: an Organic metric is bound by its key, and references to the
// retired window fields become references to the number field.
module CanonicalRebind {
  import opened Wrappers
  import opened Lexicographic
  import opened JsonValues
  import opened CanonicalJson
  import opened DashboardConfig

  const FILTER := Ascii("filter")
  const CONJUNCTION := Ascii("conjunction")
  const CONDITIONS := Ascii("conditions")
  const FIELD_NAME := Ascii("field_name")
  const FIELD_NAME_CAMEL := Ascii("fieldName")
  const OPERATOR := Ascii("operator")
  const VALUE := Ascii("value")
  const METRIC_KEY := Ascii("metric_key")
  const WINDOW_DAYS := Ascii("window_days")
  const IS := Ascii("is")
  const AND := Ascii("and")

  const LEGACY_DISPLAY: seq<Text> := [Ascii("__mkt_legacy_display_name_single_select_v1"),
                                      Ascii("__mkt_legacy_display_name_single_select_v2")]
  const LEGACY_WINDOW: seq<Text> := [Ascii("__mkt_legacy_window_days_single_select_v1"),
                                     Ascii("__mkt_legacy_window_days_single_select_v2")]
  const VALUELESS: seq<Text> := [Ascii("isEmpty"), Ascii("isNotEmpty")]
  const WINDOW_VALUES: seq<Text> := [Ascii("1"), Ascii("3"), Ascii("7"), Ascii("30")]
  const VALUE_KEYS: seq<Text> := [VALUE, Ascii("values"), Ascii("default_value"), Ascii("defaultValue"),
                                  Ascii("selected_value"), Ascii("selectedValue")]
  const FILTER_KEYS: seq<Text> := [CONJUNCTION, CONDITIONS]
  const CONDITION_KEYS: seq<Text> := [FIELD_NAME, FIELD_NAME_CAMEL, OPERATOR, VALUE]

  // Reading the filter -----------------------------------------------------------------------------------

  function RequireText(v: Value): Option<Text> {
    if v.Str? && TrimText(v.text) != [] then Some(TrimText(v.text)) else None
  }

  function FieldOf(ms: seq<Entry<Value>>): Value {
    if Nullish(Get(ms, FIELD_NAME)) then Get(ms, FIELD_NAME_CAMEL) else Get(ms, FIELD_NAME)
  }

  function Condition(field: Text, operator: Text, v: Value): Value {
    Obj([Entry(FIELD_NAME, Str(field)), Entry(OPERATOR, Str(operator))] + if operator in VALUELESS then [] else [Entry(VALUE, v)])
  }

  // Only what a request may carry is kept of a condition; one that needs a value must have it.
  function SanitizeCondition(c: Value): Option<Value> {
    if !c.Obj? then None else
    var field, operator := RequireText(FieldOf(c.members)), RequireText(Get(c.members, OPERATOR));
    if field.None? || operator.None? then None
    else if operator.value !in VALUELESS && Nullish(Get(c.members, VALUE)) then None
    else Some(Condition(field.value, operator.value, Get(c.members, VALUE)))
  }

  function SanitizeConditions(items: seq<Value>): Option<seq<Value>> {
    if items == [] then Some([]) else
    var first, rest := SanitizeCondition(items[0]), SanitizeConditions(items[1..]);
    if first.None? || rest.None? then None else Some([first.value] + rest.value)
  }

  function ConditionList(filter: Value): Option<seq<Value>> {
    if Nullish(filter) then Some([])
    else if !filter.Obj? then None
    else if Nullish(Get(filter.members, CONDITIONS)) then Some([])
    else if Get(filter.members, CONDITIONS).Arr? then Some(Get(filter.members, CONDITIONS).items)
    else None
  }

  function CountOther(ms: seq<Entry<Value>>, keys: seq<Text>): nat {
    if ms == [] then 0 else (if ms[0].key in keys then 0 else 1) + CountOther(ms[1..], keys)
  }

  function CountOthers(items: seq<Value>): Option<nat> {
    if items == [] then Some(0) else
    var rest := CountOthers(items[1..]);
    if !items[0].Obj? || rest.None? then None else Some(CountOther(items[0].members, CONDITION_KEYS) + rest.value)
  }

  // How many members a response added to the filter and its conditions.
  function CountMetadata(filter: Value): Option<nat> {
    if Nullish(filter) then Some(0) else
    var conditions := ConditionList(filter);
    var inside := if conditions.Some? then CountOthers(conditions.value) else None;
    if inside.None? then None else Some(CountOther(filter.members, FILTER_KEYS) + inside.value)
  }

  method CountFilterResponseMetadata(filter: Value) returns (r: Result<nat, Error>)
    ensures r == if CountMetadata(filter).Some? then Ok(CountMetadata(filter).value) else Err(FilterInvalid)
  {
    if Nullish(filter) { return Ok(0); }
    var conditions := ConditionList(filter);
    if conditions.None? { return Err(FilterInvalid); }
    var items, count := conditions.value, CountOther(filter.members, FILTER_KEYS);
    for i := 0 to |items|
      invariant CountOthers(items).Some? <==> CountOthers(items[i..]).Some?
      invariant CountOthers(items).Some? ==>
        count + CountOthers(items[i..]).value == CountOther(filter.members, FILTER_KEYS) + CountOthers(items).value
    {
      assert items[i..][0] == items[i] && items[i..][1..] == items[i + 1..];
      if !items[i].Obj? { return Err(FilterInvalid); }
      count := count + CountOther(items[i].members, CONDITION_KEYS);
    }
    r := Ok(count);
  }

  // Binding --------------------------------------------------------------------------------------------------

  function MetricCondition(key: Text): Value { Condition(METRIC_KEY, IS, Str(key)) }

  predicate Retained(c: Value) {
    c.Obj? && Get(c.members, FIELD_NAME).Str?
    && Get(c.members, FIELD_NAME).text !in LEGACY_DISPLAY && Get(c.members, FIELD_NAME).text != METRIC_KEY
  }

  function Retain(items: seq<Value>): seq<Value> {
    if items == [] then [] else (if Retained(items[0]) then [items[0]] else []) + Retain(items[1..])
  }

  function FilterOf(conditions: seq<Value>): Value {
    Obj([Entry(CONJUNCTION, Str(AND)), Entry(CONDITIONS, Arr(conditions))])
  }

  function Bind(ms: seq<Entry<Value>>, key: Text): Option<seq<Entry<Value>>> {
    var conditions := ConditionList(Get(ms, FILTER));
    if conditions.None? then None else
    var clean := SanitizeConditions(conditions.value);
    if clean.None? then None else Some(Assign(ms, FILTER, FilterOf(Retain(clean.value) + [MetricCondition(key)])))
  }

  // Replacing the window fields ------------------------------------------------------------------------------

  function ReplaceWindow(v: Value, parent: Text): Value
    decreases v, 0
  {
    match v
    case Arr(items) => Arr(ReplaceItems(items, parent))
    case Obj(ms) => Obj(ReplaceMembers(ms))
    case Str(t) =>
      if TrimText(t) in LEGACY_WINDOW then Str(WINDOW_DAYS)
      else if parent in VALUE_KEYS && TrimText(t) in WINDOW_VALUES then Num(TrimText(t))
      else v
    case _ => v
  }

  function ReplaceItems(items: seq<Value>, parent: Text): (r: seq<Value>)
    ensures |r| == |items|
    decreases items, 0
  {
    if items == [] then [] else [ReplaceWindow(items[0], parent)] + ReplaceItems(items[1..], parent)
  }

  function ReplaceMembers(ms: seq<Entry<Value>>): (r: seq<Entry<Value>>)
    ensures |r| == |ms|
    decreases ms, 0
  {
    if ms == [] then [] else [Entry(ms[0].key, ReplaceWindow(ms[0].value, ms[0].key))] + ReplaceMembers(ms[1..])
  }

  predicate HasAny(v: Value, names: seq<Text>) { exists i | 0 <= i < |names| :: Contains(v, names[i]) }

  // The rewrite ------------------------------------------------------------------------------------------------

  datatype Error = FilterInvalid | LegacyReferenceRemains
  datatype Rebound = Rebound(dataConfig: seq<Entry<Value>>, changed: bool, removals: nat, patch: seq<Entry<Value>>)

  // The configuration with the metric bound, if the block has one, and the members removed for it.
  function Bound(metric: Option<Text>, before: seq<Entry<Value>>): Option<(seq<Entry<Value>>, nat)> {
    if metric.None? then Some((before, 0)) else
    var removals, bound := CountMetadata(Get(before, FILTER)), Bind(before, metric.value);
    if removals.None? || bound.None? then None else Some((bound.value, removals.value))
  }

  function Replaced(before: seq<Entry<Value>>, bound: seq<Entry<Value>>): seq<Entry<Value>> {
    if HasAny(Obj(before), LEGACY_WINDOW) then ReplaceMembers(bound) else bound
  }

  function Rebind(metric: Option<Text>, before: seq<Entry<Value>>): Result<Rebound, Error> {
    var bound := Bound(metric, before);
    if bound.None? then Err(FilterInvalid) else
    var after := Replaced(before, bound.value.0);
    if HasAny(Obj(after), LEGACY_DISPLAY + LEGACY_WINDOW) then Err(LegacyReferenceRemains)
    else Ok(Rebound(after, Serialize(Obj(before)) != Serialize(Obj(after)), bound.value.1, Patch(before, after)))
  }

  // Facts about the constants -----------------------------------------------------------------------------------

  lemma {:induction false} KeysDiffer()
    ensures FIELD_NAME != OPERATOR && FIELD_NAME != VALUE && OPERATOR != VALUE && CONJUNCTION != CONDITIONS
    ensures FIELD_NAME !in VALUE_KEYS && OPERATOR !in VALUE_KEYS && CONDITIONS !in VALUE_KEYS && VALUE in VALUE_KEYS
    ensures METRIC_KEY != WINDOW_DAYS && METRIC_KEY !in LEGACY_DISPLAY && WINDOW_DAYS !in LEGACY_DISPLAY
    ensures IS !in VALUELESS && WINDOW_DAYS !in VALUELESS
    ensures FIELD_NAME in CONDITION_KEYS && OPERATOR in CONDITION_KEYS && VALUE in CONDITION_KEYS
    ensures CONJUNCTION in FILTER_KEYS && CONDITIONS in FILTER_KEYS
  {
    assert |FIELD_NAME| == 10 && |OPERATOR| == 8 && |VALUE| == 5 && |CONJUNCTION| == 11 && |CONDITIONS| == 10;
    assert |METRIC_KEY| == 10 && |WINDOW_DAYS| == 11 && |IS| == 2;
    assert FIELD_NAME[0] == 102 && CONDITIONS[0] == 99 && OPERATOR[0] == 111;
    assert VALUE_KEYS[0] == VALUE && |VALUE_KEYS| == 6;
    assert VALUE_KEYS[1] != OPERATOR && |VALUE_KEYS[2]| == 13 && |VALUE_KEYS[3]| == 12 && |VALUE_KEYS[4]| == 14 && |VALUE_KEYS[5]| == 13;
    assert |LEGACY_DISPLAY[0]| == 42 && |LEGACY_DISPLAY[1]| == 42;
    assert |VALUELESS[0]| == 7 && |VALUELESS[1]| == 10 && VALUELESS[1][0] == 105;
    assert CONDITION_KEYS[0] == FIELD_NAME && CONDITION_KEYS[2] == OPERATOR && CONDITION_KEYS[3] == VALUE;
    assert FILTER_KEYS[0] == CONJUNCTION && FILTER_KEYS[1] == CONDITIONS;
  }

  lemma {:induction false} LegacyArePlain(t: Text)
    requires t in LEGACY_WINDOW || t in LEGACY_DISPLAY
    ensures TrimText(t) == t && |t| >= 41 && t !in VALUELESS && t !in WINDOW_VALUES
  {
    TrimPlain(t);
    assert |VALUELESS[0]| == 7 && |VALUELESS[1]| == 10;
    assert |WINDOW_VALUES[0]| == 1 && |WINDOW_VALUES[1]| == 1 && |WINDOW_VALUES[2]| == 1 && |WINDOW_VALUES[3]| == 2;
  }

  lemma {:induction false} WindowDaysIsPlain()
    ensures TrimText(WINDOW_DAYS) == WINDOW_DAYS && WINDOW_DAYS !in LEGACY_WINDOW && |WINDOW_DAYS| == 11
  {
    TrimPlain(WINDOW_DAYS);
    assert |LEGACY_WINDOW[0]| == 41 && |LEGACY_WINDOW[1]| == 41;
  }

  // Conditions that are already as a request carries them ------------------------------------------------------

  predicate Clean(c: Value) { SanitizeCondition(c) == Some(c) }

  predicate Proper(field: Text, operator: Text, v: Value) {
    TrimText(field) == field != [] && TrimText(operator) == operator != [] && (operator in VALUELESS || !Nullish(v))
  }

  lemma {:induction false} ConditionGets(field: Text, operator: Text, v: Value)
    ensures var ms := Condition(field, operator, v).members;
      && Get(ms, FIELD_NAME) == Str(field) && Get(ms, OPERATOR) == Str(operator) && FieldOf(ms) == Str(field)
      && Get(ms, VALUE) == if operator in VALUELESS then Undefined else v
  {
    KeysDiffer();
    var ms := Condition(field, operator, v).members;
    assert ms[0] == Entry(FIELD_NAME, Str(field));
    assert ms[1..][0] == Entry(OPERATOR, Str(operator));
    var rest := if operator in VALUELESS then [] else [Entry(VALUE, v)];
    assert ms[1..][1..] == rest;
    assert Get(rest, VALUE) == if operator in VALUELESS then Undefined else v;
  }

  lemma {:induction false} ProperIsClean(field: Text, operator: Text, v: Value)
    requires Proper(field, operator, v)
    ensures Clean(Condition(field, operator, v))
  {
    ConditionGets(field, operator, v);
  }

  lemma {:induction false} SanitizedIsProper(c: Value) returns (field: Text, operator: Text, v: Value)
    requires SanitizeCondition(c).Some?
    ensures Proper(field, operator, v) && SanitizeCondition(c) == Some(Condition(field, operator, v))
  {
    field, operator := RequireText(FieldOf(c.members)).value, RequireText(Get(c.members, OPERATOR)).value;
    v := Get(c.members, VALUE);
    TrimTwice(FieldOf(c.members).text);
    TrimTwice(Get(c.members, OPERATOR).text);
  }

  // What is sent for a condition is sent unchanged when it comes back.
  lemma {:induction false} SanitizedIsClean(c: Value)
    requires SanitizeCondition(c).Some?
    ensures Clean(SanitizeCondition(c).value)
  {
    var field, operator, v := SanitizedIsProper(c);
    ProperIsClean(field, operator, v);
  }

  lemma {:induction false} SanitizeKeepsClean(items: seq<Value>)
    requires forall c <- items :: Clean(c)
    ensures SanitizeConditions(items) == Some(items)
  {
    if items != [] {
      assert items[0] in items;
      SanitizeKeepsClean(items[1..]);
      assert [items[0]] + items[1..] == items;
    }
  }

  lemma {:induction false} SanitizedAreClean(items: seq<Value>)
    requires SanitizeConditions(items).Some?
    ensures forall c <- SanitizeConditions(items).value :: Clean(c)
  {
    if items != [] {
      SanitizedIsClean(items[0]);
      SanitizedAreClean(items[1..]);
    }
  }

  lemma {:induction false} RetainHas(items: seq<Value>, c: Value)
    ensures c in Retain(items) <==> c in items && Retained(c)
  {
    if items != [] {
      RetainHas(items[1..], c);
      assert c in items <==> c == items[0] || c in items[1..];
    }
  }

  lemma {:induction false} RetainAll(items: seq<Value>, last: Value)
    requires (forall c <- items :: Retained(c)) && !Retained(last)
    ensures Retain(items + [last]) == items
  {
    if items == [] {
      assert [] + [last] == [last] && [last][1..] == [];
    } else {
      assert items[0] in items;
      assert (items + [last])[0] == items[0] && (items + [last])[1..] == items[1..] + [last];
      RetainAll(items[1..], last);
    }
  }

  // A filter as the binding leaves it --------------------------------------------------------------------------

  // An Organic metric key, as the binding table lists them.
  ghost predicate MetricKey(key: Text) {
    Ascii("tiktok:") <= key && TrimText(key) == key
  }

  ghost predicate BoundConditions(conditions: seq<Value>, key: Text) {
    conditions != [] && conditions[|conditions| - 1] == MetricCondition(key)
    && forall c <- conditions[..|conditions| - 1] :: Clean(c) && Retained(c)
  }

  lemma {:induction false} MetricKeyIsOther(key: Text)
    requires MetricKey(key)
    ensures key !in LEGACY_WINDOW && key !in LEGACY_DISPLAY && key !in WINDOW_VALUES
  {
    assert key[0] == Ascii("tiktok:")[0] == 116 && |key| >= 7;
    assert LEGACY_WINDOW[0][0] == 95 && LEGACY_WINDOW[1][0] == 95 && LEGACY_DISPLAY[0][0] == 95 && LEGACY_DISPLAY[1][0] == 95;
    assert |WINDOW_VALUES[0]| == 1 && |WINDOW_VALUES[1]| == 1 && |WINDOW_VALUES[2]| == 1 && |WINDOW_VALUES[3]| == 2;
  }

  lemma {:induction false} MetricIsClean(key: Text)
    requires MetricKey(key)
    ensures Clean(MetricCondition(key)) && !Retained(MetricCondition(key))
    ensures ReplaceWindow(MetricCondition(key), CONDITIONS) == MetricCondition(key)
  {
    KeysDiffer();
    TrimPlain(METRIC_KEY);
    TrimPlain(IS);
    ProperIsClean(METRIC_KEY, IS, Str(key));
    ConditionGets(METRIC_KEY, IS, Str(key));
    MetricKeyIsOther(key);
    ShortIsNotLegacy(METRIC_KEY);
    ShortIsNotLegacy(IS);
    ReplaceCondition(METRIC_KEY, IS, Str(key));
  }

  lemma {:induction false} ShortIsNotLegacy(t: Text)
    requires |t| < 41
    ensures t !in LEGACY_WINDOW && t !in LEGACY_DISPLAY
  {
    if t in LEGACY_WINDOW || t in LEGACY_DISPLAY { LegacyArePlain(t); }
  }

  function Renamed(t: Text): Text { if TrimText(t) in LEGACY_WINDOW then WINDOW_DAYS else t }

  lemma {:induction false} ReplaceCons(e: Entry<Value>, ms: seq<Entry<Value>>)
    ensures ReplaceMembers([e] + ms) == [Entry(e.key, ReplaceWindow(e.value, e.key))] + ReplaceMembers(ms)
  {
    assert ([e] + ms)[1..] == ms;
  }

  function ValueMember(operator: Text, v: Value): seq<Entry<Value>> {
    if operator in VALUELESS then [] else [Entry(VALUE, v)]
  }

  lemma {:induction false} ConditionMembers(field: Text, operator: Text, v: Value)
    ensures Condition(field, operator, v)
      == Obj([Entry(FIELD_NAME, Str(field))] + ([Entry(OPERATOR, Str(operator))] + ValueMember(operator, v)))
  {
  }

  lemma {:induction false} ReplaceName(t: Text, key: Text)
    requires key !in VALUE_KEYS
    ensures ReplaceWindow(Str(t), key) == Str(Renamed(t))
  {
  }

  lemma {:induction false} RenamedOperator(operator: Text)
    requires TrimText(operator) == operator
    ensures Renamed(operator) in VALUELESS <==> operator in VALUELESS
  {
    KeysDiffer();
    if operator in LEGACY_WINDOW { LegacyArePlain(operator); }
  }

  lemma {:induction false} ReplaceValueMember(operator: Text, v: Value)
    requires TrimText(operator) == operator
    ensures ReplaceMembers(ValueMember(operator, v)) == ValueMember(Renamed(operator), ReplaceWindow(v, VALUE))
  {
    RenamedOperator(operator);
    if operator !in VALUELESS {
      ReplaceCons(Entry(VALUE, v), []);
      assert [Entry(VALUE, v)] + [] == ValueMember(operator, v);
    }
  }

  // A condition stays a condition when the window fields are replaced in it.
  lemma {:induction false} ReplaceCondition(field: Text, operator: Text, v: Value)
    requires TrimText(operator) == operator
    ensures ReplaceWindow(Condition(field, operator, v), CONDITIONS)
      == Condition(Renamed(field), Renamed(operator), ReplaceWindow(v, VALUE))
  {
    KeysDiffer();
    var second, third := Entry(OPERATOR, Str(operator)), ValueMember(operator, v);
    ConditionMembers(field, operator, v);
    ReplaceCons(Entry(FIELD_NAME, Str(field)), [second] + third);
    ReplaceCons(second, third);
    ReplaceName(field, FIELD_NAME);
    ReplaceName(operator, OPERATOR);
    ReplaceValueMember(operator, v);
    ConditionMembers(Renamed(field), Renamed(operator), ReplaceWindow(v, VALUE));
  }

  lemma {:induction false} ReplaceKeepsValue(v: Value, parent: Text)
    ensures Nullish(ReplaceWindow(v, parent)) <==> Nullish(v)
  {
  }

  lemma {:induction false} ReplaceKeepsClean(c: Value)
    requires Clean(c) && Retained(c)
    ensures Clean(ReplaceWindow(c, CONDITIONS)) && Retained(ReplaceWindow(c, CONDITIONS))
  {
    var field, operator, v := SanitizedIsProper(c);
    ReplaceCondition(field, operator, v);
    ReplaceKeepsValue(v, VALUE);
    WindowDaysIsPlain();
    KeysDiffer();
    if operator in LEGACY_WINDOW { LegacyArePlain(operator); }
    ConditionGets(field, operator, v);
    ConditionGets(Renamed(field), Renamed(operator), ReplaceWindow(v, VALUE));
    ProperIsClean(Renamed(field), Renamed(operator), ReplaceWindow(v, VALUE));
  }

  lemma {:induction false} ReplaceItemsAt(items: seq<Value>, parent: Text, i: nat)
    requires i < |items|
    ensures ReplaceItems(items, parent)[i] == ReplaceWindow(items[i], parent)
  {
    if i > 0 { ReplaceItemsAt(items[1..], parent, i - 1); }
  }

  lemma {:induction false} ReplaceGets(ms: seq<Entry<Value>>, key: Text)
    ensures Get(ReplaceMembers(ms), key) == ReplaceWindow(Get(ms, key), key)
  {
    if ms != [] && ms[0].key != key { ReplaceGets(ms[1..], key); }
  }

  lemma {:induction false} ReplaceKeepsBound(conditions: seq<Value>, key: Text)
    requires MetricKey(key) && BoundConditions(conditions, key)
    ensures BoundConditions(ReplaceItems(conditions, CONDITIONS), key)
    ensures ReplaceWindow(FilterOf(conditions), FILTER) == FilterOf(ReplaceItems(conditions, CONDITIONS))
  {
    var n := |conditions| - 1;
    var replaced := ReplaceItems(conditions, CONDITIONS);
    MetricIsClean(key);
    ReplaceItemsAt(conditions, CONDITIONS, n);
    forall c <- replaced[..n] ensures Clean(c) && Retained(c) {
      var i :| 0 <= i < n && replaced[..n][i] == c;
      ReplaceItemsAt(conditions, CONDITIONS, i);
      assert conditions[i] == conditions[..n][i];
      ReplaceKeepsClean(conditions[i]);
    }
    ReplaceFilter(conditions);
  }

  lemma {:induction false} ReplaceFilter(conditions: seq<Value>)
    ensures ReplaceWindow(FilterOf(conditions), FILTER) == FilterOf(ReplaceItems(conditions, CONDITIONS))
  {
    KeysDiffer();
    assert |AND| == 3 && |CONJUNCTION| == 11;
    TrimPlain(AND);
    ShortIsNotLegacy(AND);
    ConjunctionHoldsNoValue();
    ReplaceCons(Entry(CONJUNCTION, Str(AND)), [Entry(CONDITIONS, Arr(conditions))]);
    ReplaceCons(Entry(CONDITIONS, Arr(conditions)), []);
    assert [Entry(CONDITIONS, Arr(conditions))] + [] == [Entry(CONDITIONS, Arr(conditions))];
    assert [Entry(CONJUNCTION, Str(AND))] + [Entry(CONDITIONS, Arr(conditions))] == FilterOf(conditions).members;
  }

  lemma {:induction false} ConjunctionHoldsNoValue()
    ensures CONJUNCTION !in VALUE_KEYS
  {
    assert |CONJUNCTION| == 11;
    assert |VALUE_KEYS[0]| == 5 && |VALUE_KEYS[1]| == 6 && |VALUE_KEYS[2]| == 13 && |VALUE_KEYS[3]| == 12
           && |VALUE_KEYS[4]| == 14 && |VALUE_KEYS[5]| == 13;
  }

  // Binding leaves a bound filter, and binding again changes nothing --------------------------------------------

  lemma {:induction false} FilterGets(conditions: seq<Value>)
    ensures Get(FilterOf(conditions).members, CONDITIONS) == Arr(conditions)
    ensures ConditionList(FilterOf(conditions)) == Some(conditions)
  {
    KeysDiffer();
    assert FilterOf(conditions).members[1..] == [Entry(CONDITIONS, Arr(conditions))];
  }

  lemma {:induction false} BindIsBound(ms: seq<Entry<Value>>, key: Text) returns (conditions: seq<Value>)
    requires MetricKey(key) && Bind(ms, key).Some?
    ensures BoundConditions(conditions, key) && Get(Bind(ms, key).value, FILTER) == FilterOf(conditions)
  {
    var clean := SanitizeConditions(ConditionList(Get(ms, FILTER)).value).value;
    SanitizedAreClean(ConditionList(Get(ms, FILTER)).value);
    conditions := Retain(clean) + [MetricCondition(key)];
    assert conditions[..|conditions| - 1] == Retain(clean);
    forall c <- Retain(clean) ensures Clean(c) && Retained(c) { RetainHas(clean, c); }
    AssignGets(ms, FILTER, FilterOf(conditions), FILTER);
  }

  lemma {:induction false} AssignSame(ms: seq<Entry<Value>>, key: Text)
    requires !Get(ms, key).Undefined?
    ensures Assign(ms, key, Get(ms, key)) == ms
  {
    if ms[0].key == key {
      assert [Entry(key, ms[0].value)] + ms[1..] == ms;
    } else {
      AssignSame(ms[1..], key);
      assert [ms[0]] + ms[1..] == ms;
    }
  }

  lemma {:induction false} BoundAreClean(conditions: seq<Value>, key: Text)
    requires MetricKey(key) && BoundConditions(conditions, key)
    ensures forall c <- conditions :: Clean(c)
  {
    MetricIsClean(key);
    forall c <- conditions ensures Clean(c) {
      var i :| 0 <= i < |conditions| && conditions[i] == c;
      if i < |conditions| - 1 { assert conditions[..|conditions| - 1][i] == c; }
    }
  }

  lemma {:induction false} BindAgain(ms: seq<Entry<Value>>, key: Text, conditions: seq<Value>)
    requires MetricKey(key) && BoundConditions(conditions, key) && Get(ms, FILTER) == FilterOf(conditions)
    ensures Bind(ms, key) == Some(ms)
  {
    var n := |conditions| - 1;
    MetricIsClean(key);
    FilterGets(conditions);
    BoundAreClean(conditions, key);
    SanitizeKeepsClean(conditions);
    assert conditions[..n] + [MetricCondition(key)] == conditions;
    RetainAll(conditions[..n], MetricCondition(key));
    AssignSame(ms, FILTER);
  }

  lemma {:induction false} CleanHasNoMetadata(c: Value)
    requires Clean(c)
    ensures CountOther(c.members, CONDITION_KEYS) == 0
  {
    var field, operator, v := SanitizedIsProper(c);
    KeysDiffer();
    ConditionMembers(field, operator, v);
    var second, third := Entry(OPERATOR, Str(operator)), ValueMember(operator, v);
    assert c.members[1..] == [second] + third && ([second] + third)[1..] == third;
    assert CountOther(third, CONDITION_KEYS) == 0;
  }

  lemma {:induction false} CleanAreCounted(items: seq<Value>)
    requires forall c <- items :: Clean(c)
    ensures CountOthers(items) == Some(0)
  {
    if items != [] {
      assert items[0] in items;
      CleanHasNoMetadata(items[0]);
      CleanAreCounted(items[1..]);
    }
  }

  lemma {:induction false} CountCons(e: Entry<Value>, ms: seq<Entry<Value>>, keys: seq<Text>)
    ensures CountOther([e] + ms, keys) == (if e.key in keys then 0 else 1) + CountOther(ms, keys)
  {
    assert ([e] + ms)[1..] == ms;
  }

  lemma {:induction false} FilterHasNoMetadata(conditions: seq<Value>)
    ensures CountOther(FilterOf(conditions).members, FILTER_KEYS) == 0
  {
    KeysDiffer();
    var first, second := Entry(CONJUNCTION, Str(AND)), Entry(CONDITIONS, Arr(conditions));
    CountCons(first, [second], FILTER_KEYS);
    CountCons(second, [], FILTER_KEYS);
    assert [second] + [] == [second] && [first] + [second] == FilterOf(conditions).members;
  }

  lemma {:induction false} BoundHasNoMetadata(conditions: seq<Value>, key: Text)
    requires MetricKey(key) && BoundConditions(conditions, key)
    ensures CountMetadata(FilterOf(conditions)) == Some(0)
  {
    BoundAreClean(conditions, key);
    FilterGets(conditions);
    CleanAreCounted(conditions);
    FilterHasNoMetadata(conditions);
  }

  // The output of a rewrite of a bound block has a bound filter.
  lemma {:induction false} OutputIsBound(key: Text, before: seq<Entry<Value>>) returns (conditions: seq<Value>)
    requires MetricKey(key) && Rebind(Some(key), before).Ok?
    ensures BoundConditions(conditions, key)
    ensures Get(Rebind(Some(key), before).value.dataConfig, FILTER) == FilterOf(conditions)
  {
    var bound := Bind(before, key).value;
    conditions := BindIsBound(before, key);
    if HasAny(Obj(before), LEGACY_WINDOW) {
      ReplaceKeepsBound(conditions, key);
      ReplaceGets(bound, FILTER);
      conditions := ReplaceItems(conditions, CONDITIONS);
    }
  }

  lemma {:induction false} NoChanges(keys: seq<Text>, ms: seq<Entry<Value>>)
    ensures ChangesAt(keys, ms, ms) == []
  {
    if keys != [] { NoChanges(keys[1..], ms); }
  }

  // Main result: rewriting a rewritten block changes nothing, patches nothing and removes nothing.
  lemma {:induction false} RebindTwice(metric: Option<Text>, before: seq<Entry<Value>>)
    requires metric.Some? ==> MetricKey(metric.value)
    requires Rebind(metric, before).Ok?
    ensures var after := Rebind(metric, before).value.dataConfig;
      Rebind(metric, after) == Ok(Rebound(after, false, 0, []))
  {
    var after := Rebind(metric, before).value.dataConfig;
    NoWindowLeft(Obj(after));
    if metric.Some? {
      var conditions := OutputIsBound(metric.value, before);
      BindAgain(after, metric.value, conditions);
      BoundHasNoMetadata(conditions, metric.value);
    }
    NoChanges(KeyList(after) + NewKeys(after, after), after);
  }

  lemma {:induction false} NoWindowLeft(v: Value)
    requires !HasAny(v, LEGACY_DISPLAY + LEGACY_WINDOW)
    ensures !HasAny(v, LEGACY_WINDOW) && !HasAny(v, LEGACY_DISPLAY)
  {
    var both := LEGACY_DISPLAY + LEGACY_WINDOW;
    forall i | 0 <= i < 2 ensures !Contains(v, LEGACY_WINDOW[i]) && !Contains(v, LEGACY_DISPLAY[i]) {
      assert both[i] == LEGACY_DISPLAY[i] && both[i + 2] == LEGACY_WINDOW[i];
    }
  }

  // The one metric condition ------------------------------------------------------------------------------------

  predicate OnMetric(c: Value) { c.Obj? && FieldOf(c.members) == Str(METRIC_KEY) }

  function ScalarEquals(v: Value, expected: Text): bool {
    match v
    case Arr(items) => |items| == 1 && ScalarEquals(items[0], expected)
    case _ => v == Str(expected)
  }

  predicate ExactBinding(c: Value, key: Text) {
    OnMetric(c) && Get(c.members, OPERATOR) == Str(IS) && ScalarEquals(Get(c.members, VALUE), key)
  }

  function MetricConditions(items: seq<Value>): seq<Value> {
    if items == [] then [] else (if OnMetric(items[0]) then [items[0]] else []) + MetricConditions(items[1..])
  }

  function CountExact(items: seq<Value>, key: Text): nat {
    if items == [] then 0 else (if ExactBinding(items[0], key) then 1 else 0) + CountExact(items[1..], key)
  }

  // The later check of a bound block: exactly one condition asks for the expected key.
  method HasCanonicalBinding(ms: seq<Entry<Value>>, key: Text) returns (r: Result<bool, Error>)
    ensures r.Ok? <==> ConditionList(Get(ms, FILTER)).Some?
    ensures r.Ok? ==> r.value == (CountExact(ConditionList(Get(ms, FILTER)).value, key) == 1)
  {
    var conditions := ConditionList(Get(ms, FILTER));
    if conditions.None? { return Err(FilterInvalid); }
    var items, count := conditions.value, 0;
    for i := 0 to |items|
      invariant count + CountExact(items[i..], key) == CountExact(items, key)
    {
      assert items[i..][0] == items[i] && items[i..][1..] == items[i + 1..];
      if ExactBinding(items[i], key) { count := count + 1; }
    }
    r := Ok(count == 1);
  }

  lemma {:induction false} RetainedAreOther(items: seq<Value>, last: Value)
    requires (forall c <- items :: Clean(c) && Retained(c)) && OnMetric(last)
    ensures MetricConditions(items + [last]) == [last]
    ensures forall key :: CountExact(items + [last], key) == if ExactBinding(last, key) then 1 else 0
  {
    if items == [] {
      assert [] + [last] == [last] && [last][1..] == [];
    } else {
      assert items[0] in items;
      assert (items + [last])[0] == items[0] && (items + [last])[1..] == items[1..] + [last];
      RetainedAreOther(items[1..], last);
    }
  }

  // A bound block holds exactly one condition on the metric key, and it asks for the expected one.
  lemma {:induction false} OneMetricCondition(key: Text, before: seq<Entry<Value>>)
    requires MetricKey(key) && Rebind(Some(key), before).Ok?
    ensures var conditions := ConditionList(Get(Rebind(Some(key), before).value.dataConfig, FILTER));
      && conditions.Some? && MetricConditions(conditions.value) == [MetricCondition(key)]
      && ExactBinding(MetricCondition(key), key) && CountExact(conditions.value, key) == 1
  {
    var conditions := OutputIsBound(key, before);
    var n := |conditions| - 1;
    FilterGets(conditions);
    KeysDiffer();
    ConditionGets(METRIC_KEY, IS, Str(key));
    assert conditions[..n] + [MetricCondition(key)] == conditions;
    RetainedAreOther(conditions[..n], MetricCondition(key));
  }

  // When a block is refused -------------------------------------------------------------------------------------

  ghost predicate Rewindowed(v: Value, r: Value) {
    && !HasAny(r, LEGACY_WINDOW)
    && forall d <- LEGACY_DISPLAY :: Contains(r, d) <==> Contains(v, d)
  }

  lemma {:induction false} ArrRewindowed(v: Value, items: seq<Value>, r: Value, results: seq<Value>)
    requires Rewindowed(v, r) && Rewindowed(Arr(items), Arr(results))
    ensures Rewindowed(Arr([v] + items), Arr([r] + results))
  {
    forall x ensures Contains(Arr([v] + items), x) <==> Contains(v, x) || Contains(Arr(items), x) { ArrCons(v, items, x); }
    forall x ensures Contains(Arr([r] + results), x) <==> Contains(r, x) || Contains(Arr(results), x) { ArrCons(r, results, x); }
  }

  lemma {:induction false} ObjRewindowed(key: Text, v: Value, ms: seq<Entry<Value>>, r: Value, results: seq<Entry<Value>>)
    requires Rewindowed(v, r) && Rewindowed(Obj(ms), Obj(results))
    ensures Rewindowed(Obj([Entry(key, v)] + ms), Obj([Entry(key, r)] + results))
  {
    forall x ensures Contains(Obj([Entry(key, v)] + ms), x) <==> Contains(v, x) || Contains(Obj(ms), x) { ObjCons(key, v, ms, x); }
    forall x ensures Contains(Obj([Entry(key, r)] + results), x) <==> Contains(r, x) || Contains(Obj(results), x) {
      ObjCons(key, r, results, x);
    }
  }

  lemma {:induction false} EmptyRewindowed()
    ensures Rewindowed(Arr([]), Arr([])) && Rewindowed(Obj([]), Obj([]))
  {
    assert forall x :: !ContainsItems([], x) && !ContainsMembers([], x);
  }

  // Replacing leaves no window reference and every display reference.
  lemma {:induction false} ReplaceRewindows(v: Value, parent: Text)
    ensures Rewindowed(v, ReplaceWindow(v, parent))
    decreases v, 0
  {
    match v
    case Arr(items) => ItemsRewindow(items, parent);
    case Obj(ms) => MembersRewindow(ms);
    case Str(t) => TextRewindows(t, parent);
    case _ =>
  }

  lemma {:induction false} TextRewindows(t: Text, parent: Text)
    ensures Rewindowed(Str(t), ReplaceWindow(Str(t), parent))
  {
    WindowDaysIsPlain();
    KeysDiffer();
    forall d <- LEGACY_DISPLAY ensures d !in LEGACY_WINDOW && d !in WINDOW_VALUES {
      LegacyArePlain(d);
      assert |d| == 42 && |LEGACY_WINDOW[0]| == 41 && |LEGACY_WINDOW[1]| == 41;
    }
  }

  lemma {:induction false} ItemsRewindow(items: seq<Value>, parent: Text)
    ensures Rewindowed(Arr(items), Arr(ReplaceItems(items, parent)))
    decreases items, 0
  {
    if items == [] {
      EmptyRewindowed();
      assert Arr(items) == Arr([]) == Arr(ReplaceItems(items, parent));
    } else {
      ReplaceRewindows(items[0], parent);
      ItemsRewindow(items[1..], parent);
      ArrRewindowed(items[0], items[1..], ReplaceWindow(items[0], parent), ReplaceItems(items[1..], parent));
      assert [items[0]] + items[1..] == items;
    }
  }

  lemma {:induction false} MembersRewindow(ms: seq<Entry<Value>>)
    ensures Rewindowed(Obj(ms), Obj(ReplaceMembers(ms)))
    decreases ms, 0
  {
    if ms == [] {
      EmptyRewindowed();
      assert Obj(ms) == Obj([]) == Obj(ReplaceMembers(ms));
    } else {
      ReplaceRewindows(ms[0].value, ms[0].key);
      MembersRewindow(ms[1..]);
      ObjRewindowed(ms[0].key, ms[0].value, ms[1..], ReplaceWindow(ms[0].value, ms[0].key), ReplaceMembers(ms[1..]));
      assert [Entry(ms[0].key, ms[0].value)] + ms[1..] == ms;
    }
  }

  // Binding brings in no legacy name that was not there.
  lemma {:induction false} GetContains(ms: seq<Entry<Value>>, key: Text, x: Text)
    requires Contains(Get(ms, key), x)
    ensures Contains(Obj(ms), x)
  {
    if ms[0].key != key { GetContains(ms[1..], key, x); }
  }

  lemma {:induction false} AssignContains(ms: seq<Entry<Value>>, key: Text, v: Value, x: Text)
    requires Contains(Obj(Assign(ms, key, v)), x)
    ensures Contains(Obj(ms), x) || Contains(v, x)
  {
    if ms == [] {
      assert [Entry(key, v)][1..] == [];
    } else if ms[0].key == key {
      assert ([Entry(key, v)] + ms[1..])[1..] == ms[1..];
    } else {
      assert ([ms[0]] + Assign(ms[1..], key, v))[1..] == Assign(ms[1..], key, v);
      if !Contains(ms[0].value, x) { AssignContains(ms[1..], key, v, x); }
    }
  }

  lemma {:induction false} NothingContained(x: Text)
    ensures !Contains(Obj([]), x)
  {
    assert !ContainsMembers([], x);
  }

  lemma {:induction false} ConditionContains(field: Text, operator: Text, v: Value, x: Text)
    ensures Contains(Condition(field, operator, v), x) <==>
      TrimText(field) == x || TrimText(operator) == x || (operator !in VALUELESS && Contains(v, x))
  {
    ConditionMembers(field, operator, v);
    var second, third := Entry(OPERATOR, Str(operator)), ValueMember(operator, v);
    ObjCons(FIELD_NAME, Str(field), [second] + third, x);
    ObjCons(OPERATOR, Str(operator), third, x);
    NothingContained(x);
    if operator !in VALUELESS {
      ObjCons(VALUE, v, [], x);
      assert [Entry(VALUE, v)] + [] == third;
    } else {
      assert Obj(third) == Obj([]);
    }
  }

  lemma {:induction false} SanitizeContains(c: Value, x: Text)
    requires SanitizeCondition(c).Some? && Contains(SanitizeCondition(c).value, x)
    ensures Contains(c, x)
  {
    var field, operator, v := FieldOf(c.members), Get(c.members, OPERATOR), Get(c.members, VALUE);
    TrimTwice(field.text);
    TrimTwice(operator.text);
    ConditionContains(TrimText(field.text), TrimText(operator.text), v, x);
    if TrimText(field.text) == x {
      GetContains(c.members, if Nullish(Get(c.members, FIELD_NAME)) then FIELD_NAME_CAMEL else FIELD_NAME, x);
    } else if TrimText(operator.text) == x {
      GetContains(c.members, OPERATOR, x);
    } else {
      GetContains(c.members, VALUE, x);
    }
  }

  lemma {:induction false} RetainedContain(items: seq<Value>, last: Value, x: Text)
    requires SanitizeConditions(items).Some?
    requires ContainsItems(Retain(SanitizeConditions(items).value) + [last], x)
    ensures ContainsItems(items, x) || Contains(last, x)
  {
    if items == [] {
      assert [] + [last] == [last] && [last][1..] == [];
    } else {
      var clean := SanitizeConditions(items).value;
      assert clean[1..] == SanitizeConditions(items[1..]).value;
      var rest := Retain(clean[1..]) + [last];
      if Retained(clean[0]) {
        assert Retain(clean) + [last] == [clean[0]] + rest && ([clean[0]] + rest)[1..] == rest;
        if Contains(clean[0], x) { SanitizeContains(items[0], x); } else { RetainedContain(items[1..], last, x); }
      } else {
        assert Retain(clean) + [last] == rest;
        RetainedContain(items[1..], last, x);
      }
    }
  }

  lemma {:induction false} FilterContains(conditions: seq<Value>, x: Text)
    requires |x| > 10
    ensures Contains(FilterOf(conditions), x) <==> ContainsItems(conditions, x)
  {
    TrimPlain(AND);
    assert |AND| == 3;
    ObjCons(CONJUNCTION, Str(AND), [Entry(CONDITIONS, Arr(conditions))], x);
    assert [Entry(CONJUNCTION, Str(AND))] + [Entry(CONDITIONS, Arr(conditions))] == FilterOf(conditions).members;
    NothingContained(x);
    ObjCons(CONDITIONS, Arr(conditions), [], x);
    assert [Entry(CONDITIONS, Arr(conditions))] + [] == [Entry(CONDITIONS, Arr(conditions))];
  }

  lemma {:induction false} BindContains(ms: seq<Entry<Value>>, key: Text, x: Text)
    requires MetricKey(key) && Bind(ms, key).Some? && x in LEGACY_WINDOW && Contains(Obj(Bind(ms, key).value), x)
    ensures Contains(Obj(ms), x)
  {
    var items := ConditionList(Get(ms, FILTER)).value;
    var conditions := Retain(SanitizeConditions(items).value) + [MetricCondition(key)];
    AssignContains(ms, FILTER, FilterOf(conditions), x);
    if !Contains(Obj(ms), x) {
      LegacyArePlain(x);
      FilterContains(conditions, x);
      RetainedContain(items, MetricCondition(key), x);
      MetricHoldsNoLegacy(key, x);
      GetContains(Get(ms, FILTER).members, CONDITIONS, x);
      GetContains(ms, FILTER, x);
    }
  }

  lemma {:induction false} MetricHoldsNoLegacy(key: Text, x: Text)
    requires MetricKey(key) && (x in LEGACY_WINDOW || x in LEGACY_DISPLAY)
    ensures !Contains(MetricCondition(key), x)
  {
    TrimPlain(METRIC_KEY);
    TrimPlain(IS);
    MetricKeyIsOther(key);
    LegacyArePlain(x);
    assert |METRIC_KEY| == 10 && |IS| == 2;
    if Contains(MetricCondition(key), x) { ConditionContains(METRIC_KEY, IS, Str(key), x); }
  }

  // A condition that can be sent: it names a field and an operator, and has a value if it needs one.
  predicate Sendable(c: Value) {
    c.Obj? && RequireText(FieldOf(c.members)).Some? && RequireText(Get(c.members, OPERATOR)).Some?
    && (TrimText(Get(c.members, OPERATOR).text) in VALUELESS || !Nullish(Get(c.members, VALUE)))
  }

  // A block without a filter, or with a list of conditions that can all be sent.
  predicate FilterUsable(before: seq<Entry<Value>>) {
    var conditions := ConditionList(Get(before, FILTER));
    conditions.Some? && forall c <- conditions.value :: Sendable(c)
  }

  // A condition on another field than the metric or a display field, with x in what is sent of it.
  predicate KeptWith(c: Value, x: Text) {
    && c.Obj? && FieldOf(c.members).Str? && Get(c.members, OPERATOR).Str?
    && TrimText(FieldOf(c.members).text) !in LEGACY_DISPLAY && TrimText(FieldOf(c.members).text) != METRIC_KEY
    && var operator := TrimText(Get(c.members, OPERATOR).text);
      operator == x || (operator !in VALUELESS && Contains(Get(c.members, VALUE), x))
  }

  // A display reference that binding does not take out: beside the filter, or in a condition that is kept.
  ghost predicate DisplayLeft(metric: Option<Text>, before: seq<Entry<Value>>) {
    if metric.None? then HasAny(Obj(before), LEGACY_DISPLAY)
    else exists i | 0 <= i < |LEGACY_DISPLAY| :: BesideFilter(before, LEGACY_DISPLAY[i]) || InKept(before, LEGACY_DISPLAY[i])
  }

  ghost predicate BesideFilter(before: seq<Entry<Value>>, x: Text) {
    exists i :: 0 <= i < |before| && before[i].key != FILTER && Contains(before[i].value, x)
  }

  ghost predicate InKept(before: seq<Entry<Value>>, x: Text) {
    var conditions := ConditionList(Get(before, FILTER));
    conditions.Some? && KeptIn(conditions.value, x)
  }

  ghost predicate KeptIn(items: seq<Value>, x: Text) { exists i :: 0 <= i < |items| && KeptWith(items[i], x) }

  lemma {:induction false} SendableExactly(items: seq<Value>)
    ensures SanitizeConditions(items).Some? <==> forall c <- items :: Sendable(c)
    ensures SanitizeConditions(items).Some? ==> CountOthers(items).Some?
  {
    if items != [] {
      SendableExactly(items[1..]);
      assert forall c :: c in items <==> c == items[0] || c in items[1..];
      assert SanitizeCondition(items[0]).Some? <==> Sendable(items[0]);
    }
  }

  lemma {:induction false} KeptSends(c: Value, x: Text)
    requires SanitizeCondition(c).Some? && x in LEGACY_DISPLAY
    ensures Retained(SanitizeCondition(c).value) && Contains(SanitizeCondition(c).value, x) <==> KeptWith(c, x)
  {
    var field, operator, v := TrimText(FieldOf(c.members).text), TrimText(Get(c.members, OPERATOR).text), Get(c.members, VALUE);
    assert SanitizeCondition(c).value == Condition(field, operator, v);
    ConditionGets(field, operator, v);
    ConditionContains(field, operator, v, x);
    TrimTwice(FieldOf(c.members).text);
    TrimTwice(Get(c.members, OPERATOR).text);
  }

  lemma {:induction false} KeptCons(c: Value, items: seq<Value>, x: Text)
    ensures KeptIn([c] + items, x) <==> KeptWith(c, x) || KeptIn(items, x)
  {
    var all := [c] + items;
    if i :| 0 <= i < |items| && KeptWith(items[i], x) { assert all[i + 1] == items[i]; }
    if i :| 0 < i < |all| && KeptWith(all[i], x) { assert all[i] == items[i - 1]; }
    assert all[0] == c;
  }

  lemma {:induction false} KeptContain(items: seq<Value>, last: Value, x: Text)
    requires SanitizeConditions(items).Some? && x in LEGACY_DISPLAY && !Contains(last, x)
    ensures ContainsItems(Retain(SanitizeConditions(items).value) + [last], x) <==> KeptIn(items, x)
  {
    if items == [] {
      assert [] + [last] == [last] && [last][1..] == [];
    } else {
      var clean := SanitizeConditions(items).value;
      assert clean[1..] == SanitizeConditions(items[1..]).value && clean[0] == SanitizeCondition(items[0]).value;
      var rest := Retain(clean[1..]) + [last];
      KeptContain(items[1..], last, x);
      KeptSends(items[0], x);
      KeptCons(items[0], items[1..], x);
      assert [items[0]] + items[1..] == items;
      if Retained(clean[0]) {
        assert Retain(clean) + [last] == [clean[0]] + rest;
        ArrCons(clean[0], rest, x);
      } else {
        assert Retain(clean) + [last] == rest;
      }
    }
  }

  ghost predicate UniqueKeys(ms: seq<Entry<Value>>) { forall i, j | 0 <= i < j < |ms| :: ms[i].key != ms[j].key }

  lemma {:induction false} BesideCons(e: Entry<Value>, ms: seq<Entry<Value>>, x: Text)
    ensures BesideFilter([e] + ms, x) <==> (e.key != FILTER && Contains(e.value, x)) || BesideFilter(ms, x)
  {
    var all := [e] + ms;
    if i :| 0 <= i < |ms| && ms[i].key != FILTER && Contains(ms[i].value, x) { assert all[i + 1] == ms[i]; }
    if i :| 0 < i < |all| && all[i].key != FILTER && Contains(all[i].value, x) { assert all[i] == ms[i - 1]; }
    assert all[0] == e;
  }

  lemma {:induction false} BesideWithout(ms: seq<Entry<Value>>, x: Text)
    requires forall i | 0 <= i < |ms| :: ms[i].key != FILTER
    ensures BesideFilter(ms, x) <==> Contains(Obj(ms), x)
  {
    ContainsMember(ms, x);
  }

  lemma {:induction false} AssignedContains(ms: seq<Entry<Value>>, v: Value, x: Text)
    requires UniqueKeys(ms)
    ensures Contains(Obj(Assign(ms, FILTER, v)), x) <==> Contains(v, x) || BesideFilter(ms, x)
  {
    if ms == [] {
      NothingContained(x);
      ObjCons(FILTER, v, [], x);
      assert [Entry(FILTER, v)] + [] == [Entry(FILTER, v)];
    } else {
      BesideCons(ms[0], ms[1..], x);
      assert [ms[0]] + ms[1..] == ms;
      if ms[0].key == FILTER {
        BesideWithout(ms[1..], x);
        ObjCons(FILTER, v, ms[1..], x);
      } else {
        AssignedContains(ms[1..], v, x);
        ObjCons(ms[0].key, ms[0].value, Assign(ms[1..], FILTER, v), x);
        assert ms[0] == Entry(ms[0].key, ms[0].value);
      }
    }
  }

  lemma {:induction false} BoundHolds(key: Text, before: seq<Entry<Value>>, x: Text)
    requires MetricKey(key) && UniqueKeys(before) && Bind(before, key).Some? && x in LEGACY_DISPLAY
    ensures Contains(Obj(Bind(before, key).value), x) <==> BesideFilter(before, x) || InKept(before, x)
  {
    var items := ConditionList(Get(before, FILTER)).value;
    var conditions := Retain(SanitizeConditions(items).value) + [MetricCondition(key)];
    LegacyArePlain(x);
    MetricHoldsNoLegacy(key, x);
    KeptContain(items, MetricCondition(key), x);
    FilterContains(conditions, x);
    AssignedContains(before, FilterOf(conditions), x);
  }

  lemma {:induction false} BoundExactlyUsable(key: Text, before: seq<Entry<Value>>)
    ensures Bound(Some(key), before).Some? <==> FilterUsable(before)
  {
    var conditions := ConditionList(Get(before, FILTER));
    if conditions.Some? { SendableExactly(conditions.value); }
  }

  lemma {:induction false} BoundKeepsDisplay(metric: Option<Text>, before: seq<Entry<Value>>)
    requires (metric.Some? ==> MetricKey(metric.value)) && UniqueKeys(before) && Bound(metric, before).Some?
    ensures HasAny(Obj(Bound(metric, before).value.0), LEGACY_DISPLAY) <==> DisplayLeft(metric, before)
  {
    if metric.Some? {
      forall i | 0 <= i < |LEGACY_DISPLAY|
        ensures Contains(Obj(Bound(metric, before).value.0), LEGACY_DISPLAY[i]) <==>
          BesideFilter(before, LEGACY_DISPLAY[i]) || InKept(before, LEGACY_DISPLAY[i])
      {
        BoundHolds(metric.value, before, LEGACY_DISPLAY[i]);
      }
    }
  }

  // Main result: a block to bind is refused for its filter exactly when a condition cannot be sent, and any
  // other exactly when a display reference stands where binding leaves it. Window references never remain.
  lemma {:induction false} RefusedExactlyForDisplay(metric: Option<Text>, before: seq<Entry<Value>>)
    requires (metric.Some? ==> MetricKey(metric.value)) && UniqueKeys(before)
    ensures Rebind(metric, before) == Err(FilterInvalid) <==> metric.Some? && !FilterUsable(before)
    ensures Rebind(metric, before) == Err(LegacyReferenceRemains) <==>
      (metric.Some? ==> FilterUsable(before)) && DisplayLeft(metric, before)
  {
    if metric.Some? { BoundExactlyUsable(metric.value, before); }
    if Bound(metric, before).Some? {
      BoundKeepsDisplay(metric, before);
      OnlyDisplayRefuses(metric, before);
    }
  }

  // What refuses a bound block is a display reference: window references never remain.
  lemma {:induction false} OnlyDisplayRefuses(metric: Option<Text>, before: seq<Entry<Value>>)
    requires metric.Some? ==> MetricKey(metric.value)
    ensures Bound(metric, before).Some? ==>
      (Rebind(metric, before).Err? <==> HasAny(Obj(Bound(metric, before).value.0), LEGACY_DISPLAY))
  {
    if Bound(metric, before).Some? {
      var bound := Bound(metric, before).value.0;
      var after := Replaced(before, bound);
      MembersRewindow(bound);
      if !HasAny(Obj(before), LEGACY_WINDOW) && metric.Some? {
        forall i | 0 <= i < |LEGACY_WINDOW| ensures !Contains(Obj(bound), LEGACY_WINDOW[i]) {
          if Contains(Obj(bound), LEGACY_WINDOW[i]) { BindContains(before, metric.value, LEGACY_WINDOW[i]); }
        }
      }
      assert !HasAny(Obj(after), LEGACY_WINDOW);
      var both := LEGACY_DISPLAY + LEGACY_WINDOW;
      assert both[0] == LEGACY_DISPLAY[0] && both[1] == LEGACY_DISPLAY[1];
      assert both[2] == LEGACY_WINDOW[0] && both[3] == LEGACY_WINDOW[1];
      assert forall d <- LEGACY_DISPLAY :: Contains(Obj(after), d) <==> Contains(Obj(bound), d);
      assert HasAny(Obj(after), both) <==> HasAny(Obj(after), LEGACY_DISPLAY) || HasAny(Obj(after), LEGACY_WINDOW);
    }
  }
}
