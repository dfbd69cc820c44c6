// JSON trees as a person writes them, with white space and comments between any two tokens and
// trailing commas, and what the scanners make of them.
module JsoncDocuments {
  import opened Wrappers
  import opened Spaces
  import opened JsoncScanner

  datatype Trivia = Space(c: char) | Line(text: string, newline: char) | Block(text: string)

  type Gap = seq<Trivia>

  // `before` and `after` surround a value; an object member also has a key, with gaps around its colon.
  datatype Item = Item(before: Gap, key: Option<Key>, value: Node, after: Gap)
  datatype Key = Key(body: string, beforeColon: Gap, afterColon: Gap)
  datatype Last = Close(gap: Gap) | CommaClose(gap: Gap)

  // String bodies are kept as written between the quotes, escapes included.
  datatype Node =
    | Scalar(token: string)
    | Quoted(body: string)
    | Array(items: seq<Item>, last: Last)
    | Object(items: seq<Item>, last: Last)

  // A document may end in a line comment that no line break closes.
  datatype Document = Document(before: Gap, root: Node, after: Gap, unclosed: Option<string>)

  // What may be written ------------------------------------------------------------------------

  predicate NoNewline(s: string) { forall i | 0 <= i < |s| :: !IsNewline(s[i]) }

  predicate NoBlockEnd(s: string) { forall i | 0 <= i < |s| - 1 :: !(s[i] == '*' && s[i + 1] == '/') }

  predicate ValidTrivia(t: Trivia) {
    match t
    case Space(c) => IsSpace(c)
    case Line(text, newline) => NoNewline(text) && IsNewline(newline)
    case Block(text) => NoBlockEnd(text)
  }

  predicate ValidGap(g: Gap) { forall i | 0 <= i < |g| :: ValidTrivia(g[i]) }

  // Numbers and literals: no quotes, slashes, brackets, commas, colons or white space.
  predicate ValidToken(s: string) {
    s != "" && forall i | 0 <= i < |s| ::
      !IsSpace(s[i]) && s[i] !in {'"', '/', '\\', '[', ']', '{', '}', ',', ':'}
  }

  // Every backslash escapes a character and no quote stands unescaped.
  predicate ValidBody(s: string) {
    s == "" || (if s[0] == '\\' then |s| > 1 && ValidBody(s[2..]) else s[0] != '"' && ValidBody(s[1..]))
  }

  ghost predicate ValidNode(n: Node) {
    match n
    case Scalar(token) => ValidToken(token)
    case Quoted(body) => ValidBody(body)
    case Array(items, last) =>
      ValidLast(items, last) && forall i | 0 <= i < |items| :: items[i].key.None? && ValidItem(items[i])
    case Object(items, last) =>
      ValidLast(items, last) && forall i | 0 <= i < |items| :: items[i].key.Some? && ValidItem(items[i])
  }

  ghost predicate ValidItem(item: Item) {
    && ValidGap(item.before) && ValidNode(item.value) && ValidGap(item.after)
    && (item.key.Some? ==> ValidKey(item.key.value))
  }

  predicate ValidKey(k: Key) {
    ValidBody(k.body) && ValidGap(k.beforeColon) && ValidGap(k.afterColon)
  }

  predicate ValidLast(items: seq<Item>, last: Last) {
    ValidGap(last.gap) && (last.CommaClose? ==> items != [])
  }

  ghost predicate ValidDocument(d: Document) {
    ValidGap(d.before) && ValidNode(d.root) && ValidGap(d.after) && (d.unclosed.Some? ==> NoNewline(d.unclosed.value))
  }

  // Writing: each function puts its part in front of `rest` -------------------------------------

  function WriteTrivia(t: Trivia, rest: string): string {
    match t
    case Space(c) => [c] + rest
    case Line(text, newline) => "//" + (text + ([newline] + rest))
    case Block(text) => "/*" + (text + ("*/" + rest))
  }

  function WriteGap(g: Gap, rest: string): string {
    if g == [] then rest else WriteTrivia(g[0], WriteGap(g[1..], rest))
  }

  function WriteQuoted(body: string, rest: string): string {
    "\"" + (body + ("\"" + rest))
  }

  function WriteNode(n: Node, rest: string): string
    decreases n, 2
  {
    match n
    case Scalar(token) => token + rest
    case Quoted(body) => WriteQuoted(body, rest)
    case Array(items, last) => "[" + WriteItems(items, WriteLast(last, "]" + rest))
    case Object(items, last) => "{" + WriteItems(items, WriteLast(last, "}" + rest))
  }

  function WriteComma(comma: bool, rest: string): string {
    if comma then "," + rest else rest
  }

  function WriteLast(last: Last, rest: string): string {
    WriteComma(last.CommaClose?, WriteGap(last.gap, rest))
  }

  function WriteItems(items: seq<Item>, rest: string): string
    decreases items, 1
  {
    if items == [] then rest
    else WriteItem(items[0], WriteComma(|items| > 1, WriteItems(items[1..], rest)))
  }

  function WriteItem(item: Item, rest: string): string
    decreases item, 3
  {
    var value := WriteNode(item.value, WriteGap(item.after, rest));
    WriteGap(item.before,
      if item.key.None? then value
      else WriteQuoted(item.key.value.body,
             WriteGap(item.key.value.beforeColon, ":" + WriteGap(item.key.value.afterColon, value))))
  }

  function Write(d: Document): string {
    WriteGap(d.before, WriteNode(d.root, WriteGap(d.after, if d.unclosed.Some? then "//" + d.unclosed.value else "")))
  }

  // The same document without comments: their line breaks stay as white space --------------------

  function BreaksOf(text: string): Gap {
    if text == "" then []
    else if IsNewline(text[0]) then [Space(text[0])] + BreaksOf(text[1..])
    else BreaksOf(text[1..])
  }

  function BareGap(g: Gap): Gap {
    if g == [] then [] else
    (match g[0]
     case Space(c) => [Space(c)]
     case Line(_, newline) => [Space(newline)]
     case Block(text) => BreaksOf(text)) + BareGap(g[1..])
  }

  function BareNode(n: Node): Node {
    match n
    case Array(items, last) => Array(BareItems(items), BareLast(last))
    case Object(items, last) => Object(BareItems(items), BareLast(last))
    case _ => n
  }

  function BareLast(last: Last): Last { last.(gap := BareGap(last.gap)) }

  function BareItems(items: seq<Item>): (r: seq<Item>)
    ensures |r| == |items|
  {
    if items == [] then [] else [BareItem(items[0])] + BareItems(items[1..])
  }

  function BareItem(item: Item): Item {
    Item(BareGap(item.before),
         if item.key.None? then None
         else Some(Key(item.key.value.body, BareGap(item.key.value.beforeColon), BareGap(item.key.value.afterColon))),
         BareNode(item.value), BareGap(item.after))
  }

  function Bare(d: Document): Document {
    Document(BareGap(d.before), BareNode(d.root), BareGap(d.after), None)
  }

  // stripJsonComments --------------------------------------------------------------------------

  lemma {:induction false} StripLine(text: string, newline: char, rest: string)
    requires NoNewline(text) && IsNewline(newline)
    ensures Strip(text + ([newline] + rest), LineComment) == [newline] + Strip(rest, Code)
  {
    var t := text + ([newline] + rest);
    if text == "" {
      assert t == [newline] + rest && t[1..] == rest;
    } else {
      assert t[1..] == text[1..] + ([newline] + rest);
      StripLine(text[1..], newline, rest);
    }
  }

  lemma {:induction false} StripUnclosed(text: string)
    requires NoNewline(text)
    ensures Strip(text, LineComment) == ""
  {
    if text != "" { StripUnclosed(text[1..]); }
  }

  lemma {:induction false} StripBlock(text: string, rest: string)
    requires NoBlockEnd(text)
    ensures Strip(text + ("*/" + rest), BlockComment) == WriteGap(BreaksOf(text), Strip(rest, Code))
  {
    var t := text + ("*/" + rest);
    if text == "" {
      assert t == "*/" + rest && t[2..] == rest;
    } else {
      assert t[1..] == text[1..] + ("*/" + rest);
      StripBlock(text[1..], rest);
      if |text| == 1 { assert t[1] == '*'; }
    }
  }

  lemma {:induction false} WriteGapConcat(g: Gap, h: Gap, rest: string)
    ensures WriteGap(g + h, rest) == WriteGap(g, WriteGap(h, rest))
  {
    if g == [] {
      assert g + h == h;
    } else {
      assert (g + h)[1..] == g[1..] + h;
      WriteGapConcat(g[1..], h, rest);
    }
  }

  lemma {:induction false} StripGap(g: Gap, rest: string)
    requires ValidGap(g)
    ensures Strip(WriteGap(g, rest), Code) == WriteGap(BareGap(g), Strip(rest, Code))
  {
    if g != [] {
      StripGap(g[1..], rest);
      var after := WriteGap(g[1..], rest);
      var bare := BareGap(g[1..]);
      assert ValidTrivia(g[0]);
      match g[0] {
        case Space(c) =>
          assert ([c] + after)[1..] == after;
          WriteGapConcat([Space(c)], bare, Strip(rest, Code));
        case Line(text, newline) =>
          var body := text + ([newline] + after);
          assert ("//" + body)[2..] == body;
          StripLine(text, newline, after);
          WriteGapConcat([Space(newline)], bare, Strip(rest, Code));
        case Block(text) =>
          var body := text + ("*/" + after);
          assert ("/*" + body)[2..] == body;
          StripBlock(text, after);
          WriteGapConcat(BreaksOf(text), bare, Strip(rest, Code));
      }
    }
  }

  lemma {:induction false} StripToken(token: string, rest: string)
    requires forall i | 0 <= i < |token| :: token[i] !in {'"', '/'}
    ensures Strip(token + rest, Code) == token + Strip(rest, Code)
  {
    if token == "" {
      assert token + rest == rest;
    } else {
      assert (token + rest)[1..] == token[1..] + rest;
      StripToken(token[1..], rest);
      assert token == [token[0]] + token[1..];
    }
  }

  lemma {:induction false} StripBody(body: string, rest: string)
    requires ValidBody(body)
    ensures Strip(body + ("\"" + rest), Str(false)) == body + ("\"" + Strip(rest, Code))
    decreases |body|
  {
    var t := body + ("\"" + rest);
    if body == "" {
      assert t == "\"" + rest && t[1..] == rest;
    } else if body[0] == '\\' {
      assert t[1..][1..] == body[2..] + ("\"" + rest);
      StripBody(body[2..], rest);
      assert body == [body[0]] + ([body[1]] + body[2..]);
    } else {
      assert t[1..] == body[1..] + ("\"" + rest);
      StripBody(body[1..], rest);
      assert body == [body[0]] + body[1..];
    }
  }

  lemma {:induction false} StripQuoted(body: string, rest: string)
    requires ValidBody(body)
    ensures Strip(WriteQuoted(body, rest), Code) == WriteQuoted(body, Strip(rest, Code))
  {
    StripBody(body, rest);
    assert WriteQuoted(body, rest)[1..] == body + ("\"" + rest);
  }

  lemma {:induction false} StripChar(c: char, rest: string)
    requires c != '"' && c != '/'
    ensures Strip([c] + rest, Code) == [c] + Strip(rest, Code)
  {
    assert ([c] + rest)[1..] == rest;
  }

  lemma {:induction false} StripNode(n: Node, rest: string)
    requires ValidNode(n)
    ensures Strip(WriteNode(n, rest), Code) == WriteNode(BareNode(n), Strip(rest, Code))
    decreases n, 2
  {
    match n
    case Scalar(token) => StripToken(token, rest);
    case Quoted(body) => StripQuoted(body, rest);
    case Array(items, last) =>
      StripChar('[', WriteItems(items, WriteLast(last, "]" + rest)));
      StripItems(items, WriteLast(last, "]" + rest));
      StripLast(last, "]" + rest);
      StripChar(']', rest);
    case Object(items, last) =>
      StripChar('{', WriteItems(items, WriteLast(last, "}" + rest)));
      StripItems(items, WriteLast(last, "}" + rest));
      StripLast(last, "}" + rest);
      StripChar('}', rest);
  }

  lemma {:induction false} StripLast(last: Last, rest: string)
    requires ValidGap(last.gap)
    ensures Strip(WriteLast(last, rest), Code) == WriteLast(BareLast(last), Strip(rest, Code))
  {
    StripGap(last.gap, rest);
    StripChar(',', WriteGap(last.gap, rest));
  }

  lemma {:induction false} StripItems(items: seq<Item>, rest: string)
    requires forall i | 0 <= i < |items| :: ValidItem(items[i])
    ensures Strip(WriteItems(items, rest), Code) == WriteItems(BareItems(items), Strip(rest, Code))
    decreases items, 1
  {
    if items != [] {
      var after := WriteComma(|items| > 1, WriteItems(items[1..], rest));
      StripItem(items[0], after);
      StripItems(items[1..], rest);
      StripChar(',', WriteItems(items[1..], rest));
      assert BareItems(items)[1..] == BareItems(items[1..]);
    }
  }

  lemma {:induction false} StripItem(item: Item, rest: string)
    requires ValidItem(item)
    ensures Strip(WriteItem(item, rest), Code) == WriteItem(BareItem(item), Strip(rest, Code))
    decreases item, 3
  {
    var value := WriteNode(item.value, WriteGap(item.after, rest));
    StripNode(item.value, WriteGap(item.after, rest));
    StripGap(item.after, rest);
    if item.key.None? {
      StripGap(item.before, value);
    } else {
      var k := item.key.value;
      var colon := ":" + WriteGap(k.afterColon, value);
      var keyed := WriteQuoted(k.body, WriteGap(k.beforeColon, colon));
      StripGap(item.before, keyed);
      StripQuoted(k.body, WriteGap(k.beforeColon, colon));
      StripGap(k.beforeColon, colon);
      StripChar(':', WriteGap(k.afterColon, value));
      StripGap(k.afterColon, value);
    }
  }

  // Stripping a document leaves the same document without its comments.
  lemma {:induction false} StripDocument(d: Document)
    requires ValidDocument(d)
    ensures Strip(Write(d), Code) == Write(Bare(d))
  {
    var end := if d.unclosed.Some? then "//" + d.unclosed.value else "";
    if d.unclosed.Some? {
      assert end[2..] == d.unclosed.value;
      StripUnclosed(d.unclosed.value);
    }
    StripGap(d.after, end);
    StripNode(d.root, WriteGap(d.after, end));
    StripGap(d.before, WriteNode(d.root, WriteGap(d.after, end)));
  }

  // removeTrailingCommas -------------------------------------------------------------------------

  predicate OnlySpaces(g: Gap) { forall i | 0 <= i < |g| :: g[i].Space? && IsSpace(g[i].c) }

  // Valid and without comments.
  ghost predicate PlainNode(n: Node) {
    match n
    case Scalar(token) => ValidToken(token)
    case Quoted(body) => ValidBody(body)
    case Array(items, last) => PlainLast(items, last) && forall i | 0 <= i < |items| :: items[i].key.None? && PlainItem(items[i])
    case Object(items, last) => PlainLast(items, last) && forall i | 0 <= i < |items| :: items[i].key.Some? && PlainItem(items[i])
  }

  ghost predicate PlainItem(item: Item) {
    && OnlySpaces(item.before) && PlainNode(item.value) && OnlySpaces(item.after)
    && (item.key.Some? ==> PlainKey(item.key.value))
  }

  predicate PlainKey(k: Key) { ValidBody(k.body) && OnlySpaces(k.beforeColon) && OnlySpaces(k.afterColon) }

  predicate PlainLast(items: seq<Item>, last: Last) { OnlySpaces(last.gap) && (last.CommaClose? ==> items != []) }

  ghost predicate PlainDocument(d: Document) {
    OnlySpaces(d.before) && PlainNode(d.root) && OnlySpaces(d.after) && d.unclosed.None?
  }

  lemma {:induction false} BreaksAreSpaces(text: string)
    ensures OnlySpaces(BreaksOf(text))
  {
    if text != "" { BreaksAreSpaces(text[1..]); }
  }

  lemma {:induction false} BareGapPlain(g: Gap)
    requires ValidGap(g)
    ensures OnlySpaces(BareGap(g))
  {
    if g != [] {
      assert ValidTrivia(g[0]);
      BareGapPlain(g[1..]);
      if g[0].Block? { BreaksAreSpaces(g[0].text); }
    }
  }

  lemma {:induction false} BareNodePlain(n: Node)
    requires ValidNode(n)
    ensures PlainNode(BareNode(n))
    decreases n, 1
  {
    if n.Array? || n.Object? {
      BareGapPlain(n.last.gap);
      BareItemsPlain(n.items);
    }
  }

  lemma {:induction false} BareItemsPlain(items: seq<Item>)
    requires forall i | 0 <= i < |items| :: ValidItem(items[i])
    ensures forall i | 0 <= i < |items| ::
      PlainItem(BareItems(items)[i]) && (BareItems(items)[i].key.Some? <==> items[i].key.Some?)
    decreases items, 0
  {
    if items != [] {
      var item := items[0];
      BareGapPlain(item.before);
      BareGapPlain(item.after);
      BareNodePlain(item.value);
      if item.key.Some? {
        BareGapPlain(item.key.value.beforeColon);
        BareGapPlain(item.key.value.afterColon);
      }
      assert forall i | 0 <= i < |items[1..]| :: ValidItem(items[1..][i]);
      BareItemsPlain(items[1..]);
      assert items == [items[0]] + items[1..];
    }
  }

  // The same tree with no trailing comma.
  function NeatNode(n: Node): Node {
    match n
    case Array(items, last) => Array(NeatItems(items), Close(last.gap))
    case Object(items, last) => Object(NeatItems(items), Close(last.gap))
    case _ => n
  }

  function NeatItems(items: seq<Item>): (r: seq<Item>)
    ensures |r| == |items|
  {
    if items == [] then [] else [items[0].(value := NeatNode(items[0].value))] + NeatItems(items[1..])
  }

  function Neat(d: Document): Document { d.(root := NeatNode(d.root)) }

  lemma {:induction false} DropChar(c: char, rest: string)
    requires c != '"' && c != ','
    ensures DropCommas([c] + rest, Code) == [c] + DropCommas(rest, Code)
  {
    assert ([c] + rest)[1..] == rest;
  }

  lemma {:induction false} DropGap(g: Gap, rest: string)
    requires OnlySpaces(g)
    ensures DropCommas(WriteGap(g, rest), Code) == WriteGap(g, DropCommas(rest, Code))
    ensures SkipSpaces(WriteGap(g, rest)) == SkipSpaces(rest)
  {
    if g != [] {
      DropGap(g[1..], rest);
      DropChar(g[0].c, WriteGap(g[1..], rest));
      assert WriteGap(g, rest)[1..] == WriteGap(g[1..], rest);
    }
  }

  lemma {:induction false} DropToken(token: string, rest: string)
    requires forall i | 0 <= i < |token| :: token[i] !in {'"', ','}
    ensures DropCommas(token + rest, Code) == token + DropCommas(rest, Code)
  {
    if token == "" {
      assert token + rest == rest;
    } else {
      assert (token + rest)[1..] == token[1..] + rest;
      DropToken(token[1..], rest);
      assert token == [token[0]] + token[1..];
    }
  }

  lemma {:induction false} DropBody(body: string, rest: string)
    requires ValidBody(body)
    ensures DropCommas(body + ("\"" + rest), Str(false)) == body + ("\"" + DropCommas(rest, Code))
    decreases |body|
  {
    var t := body + ("\"" + rest);
    if body == "" {
      assert t == "\"" + rest && t[1..] == rest;
    } else if body[0] == '\\' {
      var later := body[2..] + ("\"" + rest);
      assert t[1..][0] == body[1] && t[1..][1..] == later;
      assert DropCommas(t, Str(false)) == [body[0]] + ([body[1]] + DropCommas(later, Str(false)));
      DropBody(body[2..], rest);
      assert body == [body[0]] + ([body[1]] + body[2..]);
    } else {
      assert t[1..] == body[1..] + ("\"" + rest);
      DropBody(body[1..], rest);
      assert body == [body[0]] + body[1..];
    }
  }

  lemma {:induction false} DropQuoted(body: string, rest: string)
    requires ValidBody(body)
    ensures DropCommas(WriteQuoted(body, rest), Code) == WriteQuoted(body, DropCommas(rest, Code))
  {
    DropBody(body, rest);
    assert WriteQuoted(body, rest)[1..] == body + ("\"" + rest);
  }

  lemma {:induction false} NodeStart(n: Node, rest: string)
    requires PlainNode(n)
    ensures !ClosesNext(WriteNode(n, rest))
  {
    var t := WriteNode(n, rest);
    assert t != "" && !IsSpace(t[0]) && t[0] != '}' && t[0] != ']';
  }

  lemma {:induction false} ItemStart(item: Item, rest: string)
    requires PlainItem(item)
    ensures !ClosesNext(WriteItem(item, rest))
  {
    var value := WriteNode(item.value, WriteGap(item.after, rest));
    if item.key.None? {
      DropGap(item.before, value);
      NodeStart(item.value, WriteGap(item.after, rest));
    } else {
      var k := item.key.value;
      DropGap(item.before, WriteQuoted(k.body, WriteGap(k.beforeColon, ":" + WriteGap(k.afterColon, value))));
    }
  }

  lemma {:induction false} DropNode(n: Node, rest: string)
    requires PlainNode(n)
    ensures DropCommas(WriteNode(n, rest), Code) == WriteNode(NeatNode(n), DropCommas(rest, Code))
    decreases n, 2
  {
    match n
    case Scalar(token) => DropToken(token, rest);
    case Quoted(body) => DropQuoted(body, rest);
    case Array(items, last) =>
      DropChar('[', WriteItems(items, WriteLast(last, "]" + rest)));
      DropItems(items, WriteLast(last, "]" + rest));
      DropLast(last, ']', rest);
    case Object(items, last) =>
      DropChar('{', WriteItems(items, WriteLast(last, "}" + rest)));
      DropItems(items, WriteLast(last, "}" + rest));
      DropLast(last, '}', rest);
  }

  lemma {:induction false} DropLast(last: Last, close: char, rest: string)
    requires OnlySpaces(last.gap) && (close == ']' || close == '}')
    ensures DropCommas(WriteLast(last, [close] + rest), Code) == WriteLast(Close(last.gap), [close] + DropCommas(rest, Code))
  {
    DropGap(last.gap, [close] + rest);
    DropChar(close, rest);
    var t := WriteGap(last.gap, [close] + rest);
    assert ("," + t)[1..] == t;
  }

  lemma {:induction false} DropItems(items: seq<Item>, rest: string)
    requires forall i | 0 <= i < |items| :: PlainItem(items[i])
    ensures DropCommas(WriteItems(items, rest), Code) == WriteItems(NeatItems(items), DropCommas(rest, Code))
    decreases items, 1
  {
    if items != [] {
      var others := WriteItems(items[1..], rest);
      DropItem(items[0], WriteComma(|items| > 1, others));
      DropItems(items[1..], rest);
      if |items| > 1 {
        ItemStart(items[1], WriteComma(|items| > 2, WriteItems(items[1..][1..], rest)));
        assert ("," + others)[1..] == others;
      }
      assert NeatItems(items)[1..] == NeatItems(items[1..]);
    }
  }

  lemma {:induction false} DropItem(item: Item, rest: string)
    requires PlainItem(item)
    ensures DropCommas(WriteItem(item, rest), Code)
      == WriteItem(item.(value := NeatNode(item.value)), DropCommas(rest, Code))
    decreases item, 3
  {
    var value := WriteNode(item.value, WriteGap(item.after, rest));
    DropNode(item.value, WriteGap(item.after, rest));
    DropGap(item.after, rest);
    if item.key.None? {
      DropGap(item.before, value);
    } else {
      var k := item.key.value;
      var colon := ":" + WriteGap(k.afterColon, value);
      DropGap(item.before, WriteQuoted(k.body, WriteGap(k.beforeColon, colon)));
      DropQuoted(k.body, WriteGap(k.beforeColon, colon));
      DropGap(k.beforeColon, colon);
      DropChar(':', WriteGap(k.afterColon, value));
      DropGap(k.afterColon, value);
    }
  }

  // The tree a document stands for ---------------------------------------------------------------

  datatype Tree = Leaf(token: string) | Text(body: string) | List(items: seq<Tree>) | Record(members: seq<(string, Tree)>)

  function TreeOf(n: Node): Tree {
    match n
    case Scalar(token) => Leaf(token)
    case Quoted(body) => Text(body)
    case Array(items, _) => List(ListOf(items))
    case Object(items, _) => Record(RecordOf(items))
  }

  function ListOf(items: seq<Item>): seq<Tree> {
    if items == [] then [] else [TreeOf(items[0].value)] + ListOf(items[1..])
  }

  function RecordOf(items: seq<Item>): seq<(string, Tree)> {
    if items == [] then [] else
    [(if items[0].key.Some? then items[0].key.value.body else "", TreeOf(items[0].value))] + RecordOf(items[1..])
  }

  lemma {:induction false} TreeKept(n: Node)
    ensures TreeOf(NeatNode(BareNode(n))) == TreeOf(n)
    decreases n, 1
  {
    match n
    case Array(items, _) => ItemsTreeKept(items);
    case Object(items, _) => ItemsTreeKept(items);
    case _ =>
  }

  lemma {:induction false} ItemsTreeKept(items: seq<Item>)
    ensures ListOf(NeatItems(BareItems(items))) == ListOf(items)
    ensures RecordOf(NeatItems(BareItems(items))) == RecordOf(items)
    decreases items, 0
  {
    if items != [] {
      TreeKept(items[0].value);
      ItemsTreeKept(items[1..]);
    }
  }

  // A text without comments and trailing commas is scanned to itself --------------------------------------------

  lemma {:induction false} PlainGapStays(g: Gap)
    requires OnlySpaces(g)
    ensures ValidGap(g) && BareGap(g) == g
  {
    if g != [] {
      PlainGapStays(g[1..]);
      assert g == [g[0]] + g[1..];
    }
  }

  lemma {:induction false} PlainNodeStays(n: Node)
    requires PlainNode(n)
    ensures ValidNode(n) && BareNode(n) == n && PlainNode(NeatNode(n))
    decreases n, 1
  {
    if n.Array? || n.Object? {
      PlainGapStays(n.last.gap);
      PlainItemsStay(n.items);
    }
  }

  lemma {:induction false} PlainItemsStay(items: seq<Item>)
    requires forall i | 0 <= i < |items| :: PlainItem(items[i])
    ensures BareItems(items) == items
    ensures forall i | 0 <= i < |items| :: ValidItem(items[i])
    ensures forall i | 0 <= i < |items| :: PlainItem(NeatItems(items)[i]) && NeatItems(items)[i].key == items[i].key
    decreases items, 0
  {
    if items != [] {
      PlainItemStays(items[0]);
      PlainItemsStay(items[1..]);
      assert items == [items[0]] + items[1..];
      assert NeatItems(items)[1..] == NeatItems(items[1..]);
    }
  }

  lemma {:induction false} PlainItemStays(item: Item)
    requires PlainItem(item)
    ensures BareItem(item) == item && ValidItem(item) && PlainItem(item.(value := NeatNode(item.value)))
    decreases item, 2
  {
    PlainGapStays(item.before);
    PlainGapStays(item.after);
    PlainNodeStays(item.value);
    if item.key.Some? {
      PlainGapStays(item.key.value.beforeColon);
      PlainGapStays(item.key.value.afterColon);
    }
  }

  lemma {:induction false} DropDocument(d: Document)
    requires PlainDocument(d)
    ensures DropCommas(Write(d), Code) == Write(Neat(d))
  {
    DropGap(d.after, "");
    DropNode(d.root, WriteGap(d.after, ""));
    DropGap(d.before, WriteNode(d.root, WriteGap(d.after, "")));
  }

  function Scanned(text: string): string { DropCommas(Strip(text, Code), Code) }

  // Main result: both scanners turn a commented document into the text of the same tree, every
  // string kept, with no comment and no trailing comma left, and scanning that text again changes nothing.
  lemma {:induction false} ScannersKeepTheTree(d: Document)
    requires ValidDocument(d)
    ensures Scanned(Write(d)) == Write(Neat(Bare(d)))
    ensures PlainDocument(Neat(Bare(d))) && TreeOf(Neat(Bare(d)).root) == TreeOf(d.root)
    ensures Scanned(Scanned(Write(d))) == Scanned(Write(d))
  {
    StripDocument(d);
    BareGapPlain(d.before);
    BareGapPlain(d.after);
    BareNodePlain(d.root);
    DropDocument(Bare(d));
    TreeKept(d.root);
    PlainNodeStays(BareNode(d.root));
    PlainIsScannedOnce(Neat(Bare(d)));
    NeatIdempotent(BareNode(d.root));
  }

  lemma {:induction false} PlainIsScannedOnce(d: Document)
    requires PlainDocument(d)
    ensures Scanned(Write(d)) == Write(Neat(d))
  {
    PlainGapStays(d.before);
    PlainGapStays(d.after);
    PlainNodeStays(d.root);
    StripDocument(d);
    DropDocument(d);
  }

  lemma {:induction false} NeatIdempotent(n: Node)
    ensures NeatNode(NeatNode(n)) == NeatNode(n)
    decreases n, 1
  {
    if n.Array? || n.Object? { NeatItemsIdempotent(n.items); }
  }

  lemma {:induction false} NeatItemsIdempotent(items: seq<Item>)
    ensures NeatItems(NeatItems(items)) == NeatItems(items)
    decreases items, 0
  {
    if items != [] {
      NeatIdempotent(items[0].value);
      NeatItemsIdempotent(items[1..]);
    }
  }
}
