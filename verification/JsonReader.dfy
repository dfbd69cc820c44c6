// Reading JSON text by its grammar (sections 2 to 7 of RFC 8259), without white space between tokens.
module JsonReader {
  import opened Wrappers
  import opened Lexicographic
  import opened JsonValues

  predicate IsHex(c: CodeUnit) { 48 <= c <= 57 || 65 <= c <= 70 || 97 <= c <= 102 }

  function HexValue(c: CodeUnit): (n: nat)
    requires IsHex(c)
    ensures n < 16
  {
    if c <= 57 then c - 48 else if c <= 70 then c - 55 else c - 87
  }

  // The unit that a backslash and one letter stand for.
  function ShortEscape(c: CodeUnit): Option<CodeUnit> {
    if c == QUOTE || c == BACKSLASH || c == 47 then Some(c)
    else match c
      case 98 => Some(8)
      case 102 => Some(12)
      case 110 => Some(10)
      case 114 => Some(13)
      case 116 => Some(9)
      case _ => None
  }

  // The first unit of a string body, and how many units are written for it.
  function ReadUnit(t: Text): (r: Option<(CodeUnit, nat)>)
    ensures r.Some? ==> 0 < r.value.1 <= |t|
  {
    if t == [] || t[0] < 32 || t[0] == QUOTE then None
    else if t[0] != BACKSLASH then Some((t[0], 1))
    else if |t| >= 6 && t[1] == 117 && IsHex(t[2]) && IsHex(t[3]) && IsHex(t[4]) && IsHex(t[5]) then
      Some((HexValue(t[2]) * 4096 + HexValue(t[3]) * 256 + HexValue(t[4]) * 16 + HexValue(t[5]), 6))
    else if |t| < 2 || ShortEscape(t[1]).None? then None
    else Some((ShortEscape(t[1]).value, 2))
  }

  // A string after its opening quote: its units, and what follows the closing quote.
  function Unescape(t: Text): (r: Option<(Text, Text)>)
    ensures r.Some? ==> |r.value.1| < |t|
  {
    if t == [] then None
    else if t[0] == QUOTE then Some(([], t[1..]))
    else
      var unit := ReadUnit(t);
      if unit.None? then None else
      var rest := Unescape(t[unit.value.1..]);
      if rest.None? then None else Some(([unit.value.0] + rest.value.0, rest.value.1))
  }

  function NumeralLength(t: Text): (n: nat)
    ensures n <= |t|
  {
    if t == [] || !NumeralUnit(t[0]) then 0 else 1 + NumeralLength(t[1..])
  }

  function ReadString(t: Text): (r: Option<(Text, Text)>)
    ensures r.Some? ==> |r.value.1| < |t|
  {
    if t == [] || t[0] != QUOTE then None else Unescape(t[1..])
  }

  function ReadNumber(t: Text): Option<(Value, Text)> {
    var n := NumeralLength(t);
    if IsNumeral(t[..n]) then Some((Num(t[..n]), t[n..])) else None
  }

  // The value a text starts with, and what follows it.
  function ReadValue(t: Text): (r: Option<(Value, Text)>)
    ensures r.Some? ==> |r.value.1| < |t|
    decreases |t|, 0
  {
    if [110, 117, 108, 108] <= t then Some((Null, t[4..]))
    else if [116, 114, 117, 101] <= t then Some((Bool(true), t[4..]))
    else if [102, 97, 108, 115, 101] <= t then Some((Bool(false), t[5..]))
    else if t == [] then None
    else if t[0] == QUOTE then
      var s := ReadString(t);
      if s.None? then None else Some((Str(s.value.0), s.value.1))
    else if t[0] == 91 then
      if |t| > 1 && t[1] == 93 then Some((Arr([]), t[2..])) else
      var items := ReadItems(t[1..]);
      if items.None? then None else Some((Arr(items.value.0), items.value.1))
    else if t[0] == 123 then
      if |t| > 1 && t[1] == 125 then Some((Obj([]), t[2..])) else
      var members := ReadMembers(t[1..]);
      if members.None? then None else Some((Obj(members.value.0), members.value.1))
    else ReadNumber(t)
  }

  // One item or more, up to the bracket that closes them.
  function ReadItems(t: Text): (r: Option<(seq<Value>, Text)>)
    ensures r.Some? ==> |r.value.1| < |t|
    decreases |t|, 1
  {
    var first := ReadValue(t);
    if first.None? || first.value.1 == [] then None
    else if first.value.1[0] == 93 then Some(([first.value.0], first.value.1[1..]))
    else if first.value.1[0] != COMMA then None
    else
      var more := ReadItems(first.value.1[1..]);
      if more.None? then None else Some(([first.value.0] + more.value.0, more.value.1))
  }

  // One member or more, up to the brace that closes them.
  function ReadMembers(t: Text): (r: Option<(seq<Entry<Value>>, Text)>)
    ensures r.Some? ==> |r.value.1| < |t|
    decreases |t|, 1
  {
    var first := ReadMember(t);
    if first.None? || first.value.1 == [] then None
    else if first.value.1[0] == 125 then Some(([first.value.0], first.value.1[1..]))
    else if first.value.1[0] != COMMA then None
    else
      var more := ReadMembers(first.value.1[1..]);
      if more.None? then None else Some(([first.value.0] + more.value.0, more.value.1))
  }

  function ReadMember(t: Text): (r: Option<(Entry<Value>, Text)>)
    ensures r.Some? ==> |r.value.1| < |t|
    decreases |t|, 0
  {
    var key := ReadString(t);
    if key.None? || key.value.1 == [] || key.value.1[0] != COLON then None else
    var v := ReadValue(key.value.1[1..]);
    if v.None? then None else Some((Entry(key.value.0, v.value.0), v.value.1))
  }

  // The document a whole text is.
  function ReadJson(t: Text): Option<Value> {
    var r := ReadValue(t);
    if r.Some? && r.value.1 == [] then Some(r.value.0) else None
  }
}
