// stableSerialize_: the canonical JSON text that the signed delivery signs, and why two values get
// the same text exactly when they mean the same document.
module CanonicalJson {
  import opened Wrappers
  import opened Lexicographic
  import opened JsonReader
  import opened JsonValues

  // JSON.stringify of a string --------------------------------------------------------------

  predicate High(c: CodeUnit) { 0xD800 <= c <= 0xDBFF }
  predicate Low(c: CodeUnit) { 0xDC00 <= c <= 0xDFFF }

  function HexDigit(n: int): CodeUnit
    requires 0 <= n < 16
  {
    if n < 10 then 48 + n else 87 + n
  }

  function UnicodeEscape(c: CodeUnit): Text {
    [BACKSLASH, 117, HexDigit(c / 4096), HexDigit(c / 256 % 16), HexDigit(c / 16 % 16), HexDigit(c % 16)]
  }

  function EscapeUnit(c: CodeUnit): Text {
    if c == QUOTE || c == BACKSLASH then [BACKSLASH, c]
    else if c == 8 then [BACKSLASH, 98]
    else if c == 9 then [BACKSLASH, 116]
    else if c == 10 then [BACKSLASH, 110]
    else if c == 12 then [BACKSLASH, 102]
    else if c == 13 then [BACKSLASH, 114]
    else if c < 32 then UnicodeEscape(c)
    else [c]
  }

  // One unit that is not half of a pair.
  function WriteUnit(c: CodeUnit): Text { if High(c) || Low(c) then UnicodeEscape(c) else EscapeUnit(c) }

  // Surrogate pairs are kept; a surrogate on its own is escaped.
  function Escape(s: Text): Text {
    if s == [] then []
    else if |s| > 1 && High(s[0]) && Low(s[1]) then s[..2] + Escape(s[2..])
    else WriteUnit(s[0]) + Escape(s[1..])
  }

  function Quote(s: Text): Text {
    [QUOTE] + Escape(s) + [QUOTE]
  }

  // The serializer ----------------------------------------------------------------------------

  function Join(parts: seq<Text>): Text {
    if parts == [] then []
    else if |parts| == 1 then parts[0]
    else parts[0] + [COMMA] + Join(parts[1..])
  }

  function Member(key: Text, rendered: Text): Text {
    Quote(key) + [COLON] + rendered
  }

  function Members(entries: seq<Entry<Text>>): seq<Text> {
    seq(|entries|, i requires 0 <= i < |entries| => Member(entries[i].key, entries[i].value))
  }

  function Brackets(parts: seq<Text>): Text { [91] + (Join(parts) + [93]) }
  function Braces(parts: seq<Text>): Text { [123] + (Join(parts) + [125]) }

  // None stands for the thrown error: a number that is not finite, or a value JSON has no form for.
  function Serialize(v: Value): Option<Text> {
    match v
    case Null => Some(Ascii("null"))
    case Bool(b) => Some(if b then Ascii("true") else Ascii("false"))
    case Str(text) => Some(Quote(text))
    case Num(numeral) => Some(numeral)
    case NegZero => Some(Ascii("0"))
    case Arr(items) =>
      var parts := SerializeItems(items);
      if parts.None? then None else Some(Brackets(parts.value))
    case Obj(members) =>
      var entries := SerializeMembers(members);
      if entries.None? then None else Some(Braces(Members(Sort(entries.value))))
    case _ => None
  }

  function SerializeItems(items: seq<Value>): Option<seq<Text>> {
    if items == [] then Some([]) else
    var first := if items[0].Undefined? then Some(Ascii("null")) else Serialize(items[0]);
    var rest := SerializeItems(items[1..]);
    if first.None? || rest.None? then None else Some([first.value] + rest.value)
  }

  function SerializeMembers(members: seq<Entry<Value>>): Option<seq<Entry<Text>>> {
    if members == [] then Some([])
    else if members[0].value.Undefined? then SerializeMembers(members[1..])
    else
      var first := Serialize(members[0].value);
      var rest := SerializeMembers(members[1..]);
      if first.None? || rest.None? then None else Some([Entry(members[0].key, first.value)] + rest.value)
  }

  // Canonical form ------------------------------------------------------------------------------

  function Norm(v: Value): Value {
    match v
    case NegZero => Num(Ascii("0"))
    case Arr(items) => Arr(NormItems(items))
    case Obj(members) => Obj(Sort(NormMembers(members)))
    case _ => v
  }

  function NormItems(items: seq<Value>): (r: seq<Value>)
    ensures |r| == |items|
  {
    if items == [] then []
    else [if items[0].Undefined? then Null else Norm(items[0])] + NormItems(items[1..])
  }

  function NormMembers(members: seq<Entry<Value>>): seq<Entry<Value>> {
    if members == [] then []
    else if members[0].value.Undefined? then NormMembers(members[1..])
    else [Entry(members[0].key, Norm(members[0].value))] + NormMembers(members[1..])
  }

  function Print(v: Value): Text {
    match v
    case Null => Ascii("null")
    case Bool(b) => if b then Ascii("true") else Ascii("false")
    case Str(text) => Quote(text)
    case Num(numeral) => numeral
    case Arr(items) => Brackets(PrintItems(items))
    case Obj(members) => Braces(Members(PrintMembers(members)))
    case _ => []
  }

  function PrintItems(items: seq<Value>): seq<Text> {
    if items == [] then [] else [Print(items[0])] + PrintItems(items[1..])
  }

  function PrintMembers(members: seq<Entry<Value>>): seq<Entry<Text>> {
    if members == [] then [] else [Entry(members[0].key, Print(members[0].value))] + PrintMembers(members[1..])
  }

  lemma {:induction false} PrintMembersMaps(members: seq<Entry<Value>>)
    ensures PrintMembers(members) == MapValues(Print, members)
  {
    if members != [] {
      PrintMembersMaps(members[1..]);
      assert MapValues(Print, members) == [Entry(members[0].key, Print(members[0].value))] + MapValues(Print, members[1..]);
    }
  }

  lemma {:induction false} SerializeIsPrintNorm(v: Value)
    requires Serialize(v).Some?
    ensures Serialize(v).value == Print(Norm(v))
    decreases v, 1
  {
    match v
    case Arr(items) => SerializeItemsIsPrintNorm(items);
    case Obj(members) =>
      SerializeMembersIsPrintNorm(members);
      PrintMembersMaps(NormMembers(members));
      SortCommutes(Print, NormMembers(members));
      PrintMembersMaps(Sort(NormMembers(members)));
    case _ =>
  }

  lemma {:induction false} SerializeItemsIsPrintNorm(items: seq<Value>)
    requires SerializeItems(items).Some?
    ensures SerializeItems(items).value == PrintItems(NormItems(items))
    decreases items, 0
  {
    if items != [] {
      if !items[0].Undefined? { SerializeIsPrintNorm(items[0]); }
      SerializeItemsIsPrintNorm(items[1..]);
    }
  }

  lemma {:induction false} SerializeMembersIsPrintNorm(members: seq<Entry<Value>>)
    requires SerializeMembers(members).Some?
    ensures SerializeMembers(members).value == PrintMembers(NormMembers(members))
    decreases members, 0
  {
    if members != [] {
      if !members[0].value.Undefined? { SerializeIsPrintNorm(members[0].value); }
      SerializeMembersIsPrintNorm(members[1..]);
    }
  }

  // Reading a printed text back --------------------------------------------------------------

  lemma {:induction false} HexRoundTrip(c: CodeUnit)
    ensures c / 4096 * 4096 + c / 256 % 16 * 256 + c / 16 % 16 * 16 + c % 16 == c
  {
    assert c / 16 * 16 + c % 16 == c;
    assert c / 256 * 16 + c / 16 % 16 == c / 16;
    assert c / 4096 * 16 + c / 256 % 16 == c / 256;
  }

  lemma {:induction false} ReadHex(c: CodeUnit, rest: Text)
    ensures ReadUnit(UnicodeEscape(c) + rest) == Some((c, 6))
  {
    HexRoundTrip(c);
  }

  lemma {:induction false} ReadWritten(c: CodeUnit, rest: Text)
    ensures ReadUnit(WriteUnit(c) + rest) == Some((c, |WriteUnit(c)|)) && (WriteUnit(c) + rest)[0] != QUOTE
  {
    if WriteUnit(c) == UnicodeEscape(c) { ReadHex(c, rest); }
  }

  lemma {:induction false} UnescapeUnit(c: CodeUnit, rest: Text)
    requires Unescape(rest).Some?
    ensures Unescape(WriteUnit(c) + rest) == Some(([c] + Unescape(rest).value.0, Unescape(rest).value.1))
  {
    ReadWritten(c, rest);
    assert (WriteUnit(c) + rest)[|WriteUnit(c)|..] == rest;
  }

  lemma {:induction false} Assoc(a: Text, b: Text, c: Text)
    ensures (a + b) + c == a + (b + c)
  {}

  lemma {:induction false} UnescapePair(a: CodeUnit, b: CodeUnit, rest: Text)
    requires High(a) && Low(b) && Unescape(rest).Some?
    ensures Unescape([a, b] + rest) == Some(([a, b] + Unescape(rest).value.0, Unescape(rest).value.1))
  {
    var t := [a, b] + rest;
    assert t[1..][1..] == rest;
    assert [a, b] + Unescape(rest).value.0 == [a] + ([b] + Unescape(rest).value.0);
  }

  lemma {:induction false} UnescapeEscape(s: Text, rest: Text)
    ensures Unescape(Escape(s) + ([QUOTE] + rest)) == Some((s, rest))
    decreases |s|
  {
    var tail := [QUOTE] + rest;
    if s == [] {
      assert Escape(s) + tail == tail && tail[1..] == rest;
    } else if |s| > 1 && High(s[0]) && Low(s[1]) {
      UnescapeEscape(s[2..], rest);
      UnescapePair(s[0], s[1], Escape(s[2..]) + tail);
      Assoc(s[..2], Escape(s[2..]), tail);
      assert s[..2] == [s[0], s[1]] && s == s[..2] + s[2..];
    } else {
      UnescapeEscape(s[1..], rest);
      UnescapeUnit(s[0], Escape(s[1..]) + tail);
      Assoc(WriteUnit(s[0]), Escape(s[1..]), tail);
      assert s == [s[0]] + s[1..];
    }
  }

  predicate LowerHex(u: Text) { forall i | 0 <= i < |u| :: !(65 <= u[i] <= 70) }

  lemma {:induction false} DigitsOf(p: nat, q: nat, r: nat, t: nat)
    requires p < 16 && q < 16 && r < 16 && t < 16
    ensures var c := p * 4096 + q * 256 + r * 16 + t;
      c / 4096 == p && c / 256 % 16 == q && c / 16 % 16 == r && c % 16 == t
  {
    var c := p * 4096 + q * 256 + r * 16 + t;
    assert c / 16 == p * 256 + q * 16 + r;
    assert c / 256 == p * 16 + q;
  }

  // Lower-case hexadecimal digits are those of the number they write.
  lemma {:induction false} HexWritten(c: CodeUnit, u: Text)
    requires |u| == 6 && ReadUnit(u) == Some((c, 6)) && LowerHex(u)
    ensures u == UnicodeEscape(c)
  {
    DigitsOf(HexValue(u[2]), HexValue(u[3]), HexValue(u[4]), HexValue(u[5]));
  }

  // A unit is written in the shortest way there is, with small letters where it takes hexadecimal digits.
  lemma {:induction false} WrittenShortest(c: CodeUnit, u: Text)
    requires ReadUnit(u) == Some((c, |u|)) && !High(c) && !Low(c)
    ensures |WriteUnit(c)| <= |u|
    ensures |u| == |WriteUnit(c)| && LowerHex(u) ==> u == WriteUnit(c)
  {
    if |u| == 6 {
      if LowerHex(u) { HexWritten(c, u); }
    } else if |u| == 2 {
      assert u == [u[0], u[1]];
    }
  }

  // No surrogate stands alone.
  predicate Paired(t: Text) {
    t == [] || (if |t| > 1 && High(t[0]) && Low(t[1]) then Paired(t[2..]) else !High(t[0]) && !Low(t[0]) && Paired(t[1..]))
  }

  lemma {:induction false} PairedConcat(a: Text, b: Text)
    requires (forall i | 0 <= i < |a| :: !High(a[i]) && !Low(a[i])) && Paired(b)
    ensures Paired(a + b)
  {
    if a == [] {
      assert a + b == b;
    } else {
      PairedConcat(a[1..], b);
      assert (a + b)[1..] == a[1..] + b;
    }
  }

  // A surrogate that is not half of a pair is always written by its hexadecimal digits.
  lemma {:induction false} EscapePaired(s: Text)
    ensures Paired(Escape(s))
    decreases |s|
  {
    if s == [] {
    } else if |s| > 1 && High(s[0]) && Low(s[1]) {
      EscapePaired(s[2..]);
      assert (s[..2] + Escape(s[2..]))[2..] == Escape(s[2..]);
    } else {
      EscapePaired(s[1..]);
      PairedConcat(WriteUnit(s[0]), Escape(s[1..]));
    }
  }

  // Where surrogates are paired, units are kept or written as above: a text without quotes, backslashes and
  // control characters is kept as it is.
  lemma {:induction false} PlainIsKept(s: Text)
    requires Paired(s) && forall i | 0 <= i < |s| :: s[i] >= 32 && s[i] != QUOTE && s[i] != BACKSLASH
    ensures Escape(s) == s
    decreases |s|
  {
    if s == [] {
    } else if |s| > 1 && High(s[0]) && Low(s[1]) {
      PlainIsKept(s[2..]);
      assert s[..2] + s[2..] == s;
    } else {
      PlainIsKept(s[1..]);
      assert WriteUnit(s[0]) == [s[0]] && [s[0]] + s[1..] == s;
    }
  }

  // Values a canonical document is made of.
  ghost predicate Canonical(v: Value) {
    match v
    case Null => true
    case Bool(_) => true
    case Num(numeral) => IsNumeral(numeral)
    case Str(_) => true
    case Arr(items) => forall i | 0 <= i < |items| :: Canonical(items[i])
    case Obj(members) => forall i | 0 <= i < |members| :: Canonical(members[i].value)
    case _ => false
  }

  // What may follow a value: nothing a numeral could absorb.
  predicate Closed(rest: Text) {
    rest == [] || !NumeralUnit(rest[0])
  }

  lemma {:induction false} NumeralEnds(a: Text, x: Text)
    requires (forall i | 0 <= i < |a| :: NumeralUnit(a[i])) && Closed(x)
    ensures NumeralLength(a + x) == |a|
  {
    if a == [] {
      assert a + x == x;
    } else {
      NumeralEnds(a[1..], x);
      assert (a + x)[1..] == a[1..] + x;
    }
  }

  lemma {:induction false} ReadsNull(x: Text)
    ensures ReadValue(Ascii("null") + x) == Some((Null, x))
  {
    assert Ascii("null") == [110, 117, 108, 108];
    var t := [110, 117, 108, 108] + x;
    assert t[..4] == [110, 117, 108, 108] && t[4..] == x && t[0] == 110;
  }

  lemma {:induction false} ReadsTrue(x: Text)
    ensures ReadValue(Ascii("true") + x) == Some((Bool(true), x))
  {
    assert Ascii("true") == [116, 114, 117, 101];
    var t := [116, 114, 117, 101] + x;
    assert t[..4] == [116, 114, 117, 101] && t[4..] == x && t[0] == 116;
  }

  lemma {:induction false} ReadsFalse(x: Text)
    ensures ReadValue(Ascii("false") + x) == Some((Bool(false), x))
  {
    assert Ascii("false") == [102, 97, 108, 115, 101];
    var t := [102, 97, 108, 115, 101] + x;
    assert t[..5] == [102, 97, 108, 115, 101] && t[5..] == x && t[0] == 102;
  }

  lemma {:induction false} ReadsQuote(s: Text, x: Text)
    ensures ReadString(Quote(s) + x) == Some((s, x))
  {
    assert (Quote(s) + x)[1..] == Escape(s) + ([QUOTE] + x);
    UnescapeEscape(s, x);
  }

  lemma {:induction false} ReadsText(s: Text, x: Text)
    ensures ReadValue(Quote(s) + x) == Some((Str(s), x))
  {
    ReadsQuote(s, x);
  }

  lemma {:induction false} ReadsNumeral(a: Text, x: Text)
    requires IsNumeral(a) && Closed(x)
    ensures ReadValue(a + x) == Some((Num(a), x))
  {
    NumeralEnds(a, x);
    assert (a + x)[..|a|] == a && (a + x)[|a|..] == x;
    assert (a + x)[0] == a[0];
  }

  // Main result: the printed text of a canonical value reads back as that value, whatever follows it.
  lemma {:induction false} ReadsPrint(v: Value, x: Text)
    requires Canonical(v) && Closed(x)
    ensures ReadValue(Print(v) + x) == Some((v, x))
    decreases v, 1
  {
    match v
    case Null => ReadsNull(x);
    case Bool(b) => if b { ReadsTrue(x); } else { ReadsFalse(x); }
    case Num(numeral) => ReadsNumeral(numeral, x);
    case Str(text) => ReadsText(text, x);
    case Arr(items) => ReadsArray(items, x);
    case Obj(members) => ReadsObject(members, x);
  }

  lemma {:induction false} PrintStart(v: Value)
    requires Canonical(v)
    ensures Print(v) != [] && Print(v)[0] != 93
  {}

  // The text of a list from its first item on, with the closing bracket and what follows it.
  function Tail(parts: seq<Text>, close: CodeUnit, rest: Text): Text {
    Join(parts) + [close] + rest
  }

  lemma {:induction false} TailStep(parts: seq<Text>, close: CodeUnit, rest: Text)
    requires parts != []
    ensures Tail(parts, close, rest) ==
      parts[0] + (if |parts| == 1 then [close] + rest else [COMMA] + Tail(parts[1..], close, rest))
  {}

  lemma {:induction false} ReadsArray(items: seq<Value>, x: Text)
    requires forall i | 0 <= i < |items| :: Canonical(items[i])
    ensures ReadValue(Print(Arr(items)) + x) == Some((Arr(items), x))
    decreases items, 3
  {
    var t := Print(Arr(items)) + x;
    assert t[0] == 91 && t[1..] == Tail(PrintItems(items), 93, x);
    if items == [] {
      assert t == [91, 93] + x && t[2..] == x;
    } else {
      ReadsItems(items, x);
      PrintStart(items[0]);
      TailStep(PrintItems(items), 93, x);
      assert t[1] == Print(items[0])[0];
    }
  }

  lemma {:induction false} ReadsLastItem(v: Value, t: Text, x: Text)
    requires ReadValue(t) == Some((v, [93] + x))
    ensures ReadItems(t) == Some(([v], x))
  {}

  lemma {:induction false} ReadsItemAndMore(v: Value, t: Text, rest: Text, more: seq<Value>, x: Text)
    requires ReadValue(t) == Some((v, [COMMA] + rest)) && ReadItems(rest) == Some((more, x))
    ensures ReadItems(t) == Some(([v] + more, x))
  {}

  lemma {:induction false} ReadsItems(items: seq<Value>, x: Text)
    requires items != [] && forall i | 0 <= i < |items| :: Canonical(items[i])
    ensures ReadItems(Tail(PrintItems(items), 93, x)) == Some((items, x))
    decreases items, 2
  {
    var t, rest := Tail(PrintItems(items), 93, x), Tail(PrintItems(items[1..]), 93, x);
    TailStep(PrintItems(items), 93, x);
    assert PrintItems(items)[1..] == PrintItems(items[1..]);
    if |items| == 1 {
      ReadsPrint(items[0], [93] + x);
      ReadsLastItem(items[0], t, x);
      assert items == [items[0]];
    } else {
      ReadsPrint(items[0], [COMMA] + rest);
      ReadsItems(items[1..], x);
      ReadsItemAndMore(items[0], t, rest, items[1..], x);
      assert items == [items[0]] + items[1..];
    }
  }

  // What follows the first key of a member list.
  function AfterKey(ms: seq<Entry<Value>>, rest: Text): Text
    requires ms != []
  {
    [COLON] + (Print(ms[0].value) + AfterValue(ms, rest))
  }

  function AfterValue(ms: seq<Entry<Value>>, rest: Text): Text
    requires ms != []
  {
    if |ms| == 1 then [125] + rest else [COMMA] + Tail(Members(PrintMembers(ms[1..])), 125, rest)
  }

  lemma {:induction false} MembersTail(ms: seq<Entry<Value>>, rest: Text)
    ensures var t := Tail(Members(PrintMembers(ms)), 125, rest);
      && t != [] && (t[0] == 125 <==> ms == [])
      && t == if ms == [] then [125] + rest else Quote(ms[0].key) + AfterKey(ms, rest)
  {
    if ms != [] {
      var parts := Members(PrintMembers(ms));
      TailStep(parts, 125, rest);
      assert parts[1..] == Members(PrintMembers(ms[1..]));
      var after := AfterValue(ms, rest);
      Assoc(Quote(ms[0].key) + [COLON], Print(ms[0].value), after);
      Assoc(Quote(ms[0].key), [COLON], Print(ms[0].value) + after);
      assert parts[0] == (Quote(ms[0].key) + [COLON]) + Print(ms[0].value);
    }
  }

  lemma {:induction false} ReadsMember(ms: seq<Entry<Value>>, x: Text)
    requires ms != [] && Canonical(ms[0].value)
    ensures ReadMember(Quote(ms[0].key) + AfterKey(ms, x)) == Some((ms[0], AfterValue(ms, x)))
    decreases ms, 1
  {
    ReadsQuote(ms[0].key, AfterKey(ms, x));
    assert AfterKey(ms, x)[1..] == Print(ms[0].value) + AfterValue(ms, x);
    ReadsPrint(ms[0].value, AfterValue(ms, x));
  }

  ghost predicate CanonicalMembers(ms: seq<Entry<Value>>) { forall i | 0 <= i < |ms| :: Canonical(ms[i].value) }

  lemma {:induction false} CanonicalAfter(ms: seq<Entry<Value>>)
    requires ms != [] && CanonicalMembers(ms)
    ensures CanonicalMembers(ms[1..])
  {
    forall i | 0 <= i < |ms[1..]| ensures Canonical(ms[1..][i].value) { assert ms[1..][i] == ms[i + 1]; }
  }

  lemma {:induction false} ReadsLastMember(e: Entry<Value>, t: Text, x: Text)
    requires ReadMember(t) == Some((e, [125] + x))
    ensures ReadMembers(t) == Some(([e], x))
  {}

  lemma {:induction false} ReadsMemberAndMore(e: Entry<Value>, t: Text, rest: Text, more: seq<Entry<Value>>, x: Text)
    requires ReadMember(t) == Some((e, [COMMA] + rest)) && ReadMembers(rest) == Some((more, x))
    ensures ReadMembers(t) == Some(([e] + more, x))
  {}

  function MembersText(ms: seq<Entry<Value>>, x: Text): Text { Tail(Members(PrintMembers(ms)), 125, x) }

  // One more member in front of members that read back.
  lemma {:induction false} ReadsMoreMembers(ms: seq<Entry<Value>>, x: Text)
    requires |ms| > 1 && ReadMember(Quote(ms[0].key) + AfterKey(ms, x)) == Some((ms[0], AfterValue(ms, x)))
    requires ReadMembers(MembersText(ms[1..], x)) == Some((ms[1..], x))
    ensures ReadMembers(MembersText(ms, x)) == Some((ms, x))
  {
    MembersTail(ms, x);
    ReadsMemberAndMore(ms[0], MembersText(ms, x), MembersText(ms[1..], x), ms[1..], x);
    assert ms == [ms[0]] + ms[1..];
  }

  lemma {:induction false} ReadsMembers(ms: seq<Entry<Value>>, x: Text)
    requires ms != [] && CanonicalMembers(ms)
    ensures ReadMembers(MembersText(ms, x)) == Some((ms, x))
    decreases ms, 2
  {
    ReadsMember(ms, x);
    if |ms| == 1 {
      MembersTail(ms, x);
      ReadsLastMember(ms[0], MembersText(ms, x), x);
      assert ms == [ms[0]];
    } else {
      CanonicalAfter(ms);
      ReadsMembers(ms[1..], x);
      ReadsMoreMembers(ms, x);
    }
  }

  lemma {:induction false} ReadsObject(ms: seq<Entry<Value>>, x: Text)
    requires forall i | 0 <= i < |ms| :: Canonical(ms[i].value)
    ensures ReadValue(Print(Obj(ms)) + x) == Some((Obj(ms), x))
    decreases ms, 3
  {
    var t := Print(Obj(ms)) + x;
    assert t[0] == 123 && t[1..] == Tail(Members(PrintMembers(ms)), 125, x);
    MembersTail(ms, x);
    if ms == [] {
      assert t == [123, 125] + x && t[2..] == x;
    } else {
      ReadsMembers(ms, x);
      assert t[1] == QUOTE;
    }
  }

  // So texts that agree, whatever follows, come from one value.
  lemma {:induction false} ValueReadable(a: Value, b: Value, x: Text, y: Text)
    requires Canonical(a) && Canonical(b) && Print(a) + x == Print(b) + y && Closed(x) && Closed(y)
    ensures a == b && x == y
  {
    ReadsPrint(a, x);
    ReadsPrint(b, y);
  }

  // Which values mean the same document --------------------------------------------------------

  // Values with a JSON form: an undefined item reads as null and an undefined member is dropped.
  ghost predicate Printable(v: Value) {
    match v
    case Undefined => false
    case NonFinite => false
    case Opaque => false
    case Arr(items) => forall i | 0 <= i < |items| :: items[i].Undefined? || Printable(items[i])
    case Obj(members) => forall i | 0 <= i < |members| :: members[i].value.Undefined? || Printable(members[i].value)
    case _ => true
  }

  predicate Nullish(v: Value) { v.Undefined? || v.Null? }

  // Equal up to member order, dropped undefined members, undefined items read as null and -0 as 0.
  ghost predicate Same(a: Value, b: Value) {
    match a
    case Num(x) => (b.Num? && b.numeral == x) || (b.NegZero? && x == Ascii("0"))
    case NegZero => b.NegZero? || (b.Num? && b.numeral == Ascii("0"))
    case Arr(xs) => b.Arr? && |xs| == |b.items| && forall i | 0 <= i < |xs| ::
      (Nullish(xs[i]) && Nullish(b.items[i])) || (!Nullish(xs[i]) && !Nullish(b.items[i]) && Same(xs[i], b.items[i]))
    case Obj(ms) => b.Obj? && forall k <- Keys(ms) + Keys(b.members) ::
      (Get(ms, k).Undefined? && Get(b.members, k).Undefined?)
      || (!Get(ms, k).Undefined? && !Get(b.members, k).Undefined? && Same(Get(ms, k), Get(b.members, k)))
    case _ => a == b
  }

  lemma {:induction false} SerializeExactlyPrintable(v: Value)
    ensures Serialize(v).Some? <==> Printable(v)
    decreases v, 1
  {
    match v
    case Arr(items) => ItemsExactlyPrintable(items);
    case Obj(members) => MembersExactlyPrintable(members);
    case _ =>
  }

  lemma {:induction false} ItemsExactlyPrintable(items: seq<Value>)
    ensures SerializeItems(items).Some? <==> forall i | 0 <= i < |items| :: items[i].Undefined? || Printable(items[i])
    decreases items, 0
  {
    if items != [] {
      SerializeExactlyPrintable(items[0]);
      ItemsExactlyPrintable(items[1..]);
      assert items == [items[0]] + items[1..];
    }
  }

  lemma {:induction false} MembersExactlyPrintable(ms: seq<Entry<Value>>)
    ensures SerializeMembers(ms).Some?
      <==> forall i | 0 <= i < |ms| :: ms[i].value.Undefined? || Printable(ms[i].value)
    decreases ms, 0
  {
    if ms != [] {
      SerializeExactlyPrintable(ms[0].value);
      MembersExactlyPrintable(ms[1..]);
      assert ms == [ms[0]] + ms[1..];
    }
  }

  lemma {:induction false} NormItemsAt(items: seq<Value>, i: nat)
    requires i < |items|
    ensures NormItems(items)[i] == if items[i].Undefined? then Null else Norm(items[i])
  {
    if i > 0 { NormItemsAt(items[1..], i - 1); }
  }

  ghost predicate DistinctKeys(ms: seq<Entry<Value>>) {
    forall i, j | 0 <= i < j < |ms| :: ms[i].key != ms[j].key
  }

  lemma {:induction false} GetAt(ms: seq<Entry<Value>>, i: nat)
    requires i < |ms| && DistinctKeys(ms)
    ensures Get(ms, ms[i].key) == ms[i].value
  {
    if i > 0 { GetAt(ms[1..], i - 1); }
  }

  lemma {:induction false} GetMissing(ms: seq<Entry<Value>>, k: Text)
    requires forall i | 0 <= i < |ms| :: ms[i].key != k
    ensures Get(ms, k).Undefined?
  {
    if ms != [] { GetMissing(ms[1..], k); }
  }

  lemma {:induction false} NormMembersHas(ms: seq<Entry<Value>>, e: Entry<Value>)
    requires DistinctKeys(ms)
    ensures e in NormMembers(ms) <==> !Get(ms, e.key).Undefined? && e.value == Norm(Get(ms, e.key))
  {
    if ms != [] {
      NormMembersHas(ms[1..], e);
      if e.key == ms[0].key { GetMissing(ms[1..], e.key); }
    }
  }

  lemma {:induction false} NormMembersDistinct(ms: seq<Entry<Value>>)
    requires DistinctKeys(ms)
    ensures Distinct(NormMembers(ms))
  {
    if ms != [] {
      NormMembersDistinct(ms[1..]);
      var rest := NormMembers(ms[1..]);
      forall i | 0 <= i < |rest| ensures rest[i].key != ms[0].key {
        NormMembersHas(ms[1..], rest[i]);
        assert Entry(rest[i].key, Get(ms[1..], rest[i].key)) in ms[1..];
      }
    }
  }

  lemma {:induction false} NormCanonical(v: Value)
    requires WellFormed(v) && Printable(v)
    ensures Canonical(Norm(v))
  {
    match v
    case Arr(items) =>
      forall i | 0 <= i < |items| ensures Canonical(NormItems(items)[i]) {
        NormItemsAt(items, i);
        if !items[i].Undefined? { NormCanonical(items[i]); }
      }
    case Obj(members) =>
      var sorted := Sort(NormMembers(members));
      forall i | 0 <= i < |sorted| ensures Canonical(sorted[i].value) {
        SortHas(NormMembers(members), sorted[i]);
        NormMembersHas(members, sorted[i]);
        assert Entry(sorted[i].key, Get(members, sorted[i].key)) in members;
        NormCanonical(Get(members, sorted[i].key));
      }
    case _ =>
  }

  lemma {:induction false} NormKeepsUndefined(v: Value)
    ensures Norm(v).Undefined? <==> v.Undefined?
    ensures Norm(v).Null? <==> v.Null?
  {}

  // Two values have one canonical form exactly when they mean the same document.
  lemma {:induction false} NormAgrees(a: Value, b: Value)
    requires WellFormed(a) && WellFormed(b)
    ensures Norm(a) == Norm(b) <==> Same(a, b)
    decreases a, 1
  {
    if a.Arr? && b.Arr? {
      ArraysAgree(a.items, b.items);
    } else if a.Obj? && b.Obj? {
      ObjectsAgree(a.members, b.members);
    }
  }

  lemma {:induction false} ArraysAgree(xs: seq<Value>, ys: seq<Value>)
    requires WellFormed(Arr(xs)) && WellFormed(Arr(ys))
    ensures NormItems(xs) == NormItems(ys) <==> Same(Arr(xs), Arr(ys))
    decreases xs, 0
  {
    if |xs| == |ys| {
      forall i | 0 <= i < |xs|
        ensures NormItems(xs)[i] == NormItems(ys)[i] <==>
          (Nullish(xs[i]) && Nullish(ys[i])) || (!Nullish(xs[i]) && !Nullish(ys[i]) && Same(xs[i], ys[i]))
      {
        NormItemsAt(xs, i);
        NormItemsAt(ys, i);
        NormKeepsUndefined(xs[i]);
        NormKeepsUndefined(ys[i]);
        NormAgrees(xs[i], ys[i]);
      }
    }
  }

  ghost predicate MemberAgrees(xs: seq<Entry<Value>>, ys: seq<Entry<Value>>, k: Text) {
    (Get(xs, k).Undefined? && Get(ys, k).Undefined?)
    || (!Get(xs, k).Undefined? && !Get(ys, k).Undefined? && Norm(Get(xs, k)) == Norm(Get(ys, k)))
  }

  lemma {:induction false} SortedMembersAgree(xs: seq<Entry<Value>>, ys: seq<Entry<Value>>)
    requires DistinctKeys(xs) && DistinctKeys(ys)
    ensures Sort(NormMembers(xs)) == Sort(NormMembers(ys)) <==> forall k <- Keys(xs) + Keys(ys) :: MemberAgrees(xs, ys, k)
  {
    if Sort(NormMembers(xs)) == Sort(NormMembers(ys)) {
      forall k <- Keys(xs) + Keys(ys) ensures MemberAgrees(xs, ys, k) {
        SortedHas(xs, Entry(k, Norm(Get(xs, k))));
        SortedHas(ys, Entry(k, Norm(Get(xs, k))));
        SortedHas(xs, Entry(k, Norm(Get(ys, k))));
        SortedHas(ys, Entry(k, Norm(Get(ys, k))));
      }
    }
    if forall k <- Keys(xs) + Keys(ys) :: MemberAgrees(xs, ys, k) {
      forall e ensures e in Sort(NormMembers(xs)) <==> e in Sort(NormMembers(ys)) {
        SortedHas(xs, e);
        SortedHas(ys, e);
        KeyOrUndefined(xs, e.key);
        KeyOrUndefined(ys, e.key);
        assert e.key in Keys(xs) + Keys(ys) ==> MemberAgrees(xs, ys, e.key);
      }
      NormMembersDistinct(xs);
      NormMembersDistinct(ys);
      SortSorts(NormMembers(xs));
      SortSorts(NormMembers(ys));
      SortedUnique(Sort(NormMembers(xs)), Sort(NormMembers(ys)));
    }
  }

  lemma {:induction false} SortedHas(ms: seq<Entry<Value>>, e: Entry<Value>)
    requires DistinctKeys(ms)
    ensures e in Sort(NormMembers(ms)) <==> !Get(ms, e.key).Undefined? && e.value == Norm(Get(ms, e.key))
  {
    SortHas(NormMembers(ms), e);
    NormMembersHas(ms, e);
  }

  lemma {:induction false} KeyOrUndefined(ms: seq<Entry<Value>>, k: Text)
    ensures Get(ms, k).Undefined? || k in Keys(ms)
  {
    if Get(ms, k) != Undefined {
      var i :| 0 <= i < |ms| && ms[i] == Entry(k, Get(ms, k));
      assert ms[i].key in Keys(ms);
    }
  }

  lemma {:induction false} ObjectsAgree(xs: seq<Entry<Value>>, ys: seq<Entry<Value>>)
    requires WellFormed(Obj(xs)) && WellFormed(Obj(ys))
    ensures Sort(NormMembers(xs)) == Sort(NormMembers(ys)) <==> Same(Obj(xs), Obj(ys))
    decreases xs, 0
  {
    SortedMembersAgree(xs, ys);
    forall k <- Keys(xs) + Keys(ys)
      ensures MemberAgrees(xs, ys, k) <==>
        (Get(xs, k).Undefined? && Get(ys, k).Undefined?)
        || (!Get(xs, k).Undefined? && !Get(ys, k).Undefined? && Same(Get(xs, k), Get(ys, k)))
    {
      if !Get(xs, k).Undefined? && !Get(ys, k).Undefined? {
        assert Entry(k, Get(xs, k)) in xs && Entry(k, Get(ys, k)) in ys;
        NormAgrees(Get(xs, k), Get(ys, k));
      }
    }
  }

  // Object members come out in code-unit order, each key once.
  lemma {:induction false} MembersSorted(members: seq<Entry<Value>>)
    requires WellFormed(Obj(members)) && Printable(Obj(members))
    ensures Serialize(Obj(members)) == Some(Print(Obj(Sort(NormMembers(members)))))
    ensures Sorted(Sort(NormMembers(members)))
  {
    SerializeExactlyPrintable(Obj(members));
    SerializeIsPrintNorm(Obj(members));
    NormMembersDistinct(members);
    SortSorts(NormMembers(members));
  }

  lemma {:induction false} NormGets(ms: seq<Entry<Value>>, k: Text)
    requires DistinctKeys(ms)
    ensures var sorted := Sort(NormMembers(ms));
      Get(sorted, k) == if Get(ms, k).Undefined? then Undefined else Norm(Get(ms, k))
  {
    var sorted := Sort(NormMembers(ms));
    NormMembersDistinct(ms);
    SortSorts(NormMembers(ms));
    forall i, j | 0 <= i < j < |sorted| ensures sorted[i].key != sorted[j].key { Irreflexive(sorted[i].key); }
    SortedHas(ms, Entry(k, Norm(Get(ms, k))));
    SortedHas(ms, Entry(k, Get(sorted, k)));
    if !Get(ms, k).Undefined? {
      var i :| 0 <= i < |sorted| && sorted[i] == Entry(k, Norm(Get(ms, k)));
      GetAt(sorted, i);
    }
  }

  // A value and its canonical form mean the same document.
  lemma {:induction false} NormIsSame(v: Value)
    requires WellFormed(v)
    ensures Same(v, Norm(v))
  {
    match v
    case Arr(items) =>
      forall i | 0 <= i < |items| && !items[i].Undefined? ensures Same(items[i], NormItems(items)[i]) {
        NormItemsAt(items, i);
        NormIsSame(items[i]);
      }
      forall i | 0 <= i < |items| ensures Nullish(items[i]) <==> Nullish(NormItems(items)[i]) {
        NormItemsAt(items, i);
        NormKeepsUndefined(items[i]);
      }
    case Obj(ms) =>
      forall k ensures Get(Norm(v).members, k).Undefined? <==> Get(ms, k).Undefined? {
        NormGets(ms, k);
        NormKeepsUndefined(Get(ms, k));
      }
      forall k | !Get(ms, k).Undefined? ensures Same(Get(ms, k), Get(Norm(v).members, k)) {
        NormGets(ms, k);
        assert Entry(k, Get(ms, k)) in ms;
        NormIsSame(Get(ms, k));
      }
    case _ =>
  }

  // Main result: what is signed is the JSON text of the value. Read by the grammar it is the value, up to
  // member order, dropped undefined members, undefined items read as null and -0 read as 0.
  lemma {:induction false} SerializedReadsBack(v: Value)
    requires WellFormed(v) && Printable(v)
    ensures Serialize(v).Some? && ReadJson(Serialize(v).value) == Some(Norm(v)) && Same(v, Norm(v))
  {
    SerializeExactlyPrintable(v);
    SerializeIsPrintNorm(v);
    NormCanonical(v);
    NormIsSame(v);
    ReadsPrint(Norm(v), []);
    assert Print(Norm(v)) + [] == Print(Norm(v));
  }

  // Main result: the text of a value is canonical and unambiguous.
  lemma {:induction false} SameTextExactlyWhenSame(a: Value, b: Value)
    requires WellFormed(a) && WellFormed(b) && Printable(a) && Printable(b)
    ensures Serialize(a).Some? && Serialize(b).Some?
    ensures Serialize(a) == Serialize(b) <==> Same(a, b)
  {
    SerializeExactlyPrintable(a);
    SerializeExactlyPrintable(b);
    SerializeIsPrintNorm(a);
    SerializeIsPrintNorm(b);
    NormCanonical(a);
    NormCanonical(b);
    NormAgrees(a, b);
    if Serialize(a) == Serialize(b) {
      assert Print(Norm(a)) + [] == Print(Norm(b)) + [];
      ValueReadable(Norm(a), Norm(b), [], []);
    }
  }
}
