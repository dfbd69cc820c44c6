// JavaScript values as the JSON writers see them, with texts as sequences of UTF-16 code units.
module JsonValues {
  import opened Lexicographic

  // A finite number other than -0 is represented by the numeral JSON prints for it.
  datatype Value =
    | Undefined
    | Null
    | Bool(b: bool)
    | Num(numeral: Text)
    | NegZero
    | NonFinite
    | Str(text: Text)
    | Arr(items: seq<Value>)
    | Obj(members: seq<Entry<Value>>)
    | Opaque // functions, symbols, big integers

  // The code units of an ASCII text.
  function Ascii(s: string): (t: Text)
    ensures |t| == |s| && forall i | 0 <= i < |s| :: t[i] == s[i] as int % 0x10000
  {
    seq<CodeUnit>(|s|, i requires 0 <= i < |s| => s[i] as int % 0x10000)
  }

  const QUOTE: CodeUnit := 34
  const COMMA: CodeUnit := 44
  const COLON: CodeUnit := 58
  const BACKSLASH: CodeUnit := 92

  predicate NumeralUnit(c: CodeUnit) {
    48 <= c <= 57 || c == 43 || c == 45 || c == 46 || c == 101 // digits + - . e
  }

  predicate IsNumeral(t: Text) {
    t != [] && (48 <= t[0] <= 57 || t[0] == 45) && forall c <- t :: NumeralUnit(c)
  }

  // Numbers carry a numeral and objects never hold a key twice.
  ghost predicate WellFormed(v: Value) {
    match v
    case Num(numeral) => IsNumeral(numeral)
    case Arr(items) => forall i | 0 <= i < |items| :: WellFormed(items[i])
    case Obj(members) =>
      && (forall i, j | 0 <= i < j < |members| :: members[i].key != members[j].key)
      && (forall i | 0 <= i < |members| :: WellFormed(members[i].value))
    case _ => true
  }

  // The value of a member, Undefined when the key is missing.
  function Get(members: seq<Entry<Value>>, key: Text): (v: Value)
    ensures v == Undefined || Entry(key, v) in members
  {
    if members == [] then Undefined
    else if members[0].key == key then members[0].value
    else
      assert members == [members[0]] + members[1..];
      Get(members[1..], key)
  }

  function Keys(members: seq<Entry<Value>>): set<Text> {
    set i | 0 <= i < |members| :: members[i].key
  }
}
