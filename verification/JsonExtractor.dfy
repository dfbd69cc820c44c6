// Finding one JSON document in the output of a tool that prints progress lines around it.
module JsonExtractor {
  import opened Wrappers
  import opened JsoncScanner
  import opened JsoncDocuments

  predicate Opens(c: char) { c == '{' || c == '[' }
  predicate Closes(c: char) { c == '}' || c == ']' }
  function Opener(c: char): char { if c == '}' then '{' else '[' }

  // readJsonDocument from a state on: what follows the document, or None. The top of the stack is first.
  function AfterDocument(t: string, stack: seq<char>, m: Mode): Option<string> {
    if t == "" then None
    else if m.Str? then AfterDocument(t[1..], stack, AfterStringChar(t[0], m.escaped))
    else if t[0] == '"' then AfterDocument(t[1..], stack, Str(false))
    else if Opens(t[0]) then AfterDocument(t[1..], [t[0]] + stack, Code)
    else if Closes(t[0]) then
      if stack == [] || stack[0] != Opener(t[0]) then None
      else if |stack| == 1 then Some(t[1..])
      else AfterDocument(t[1..], stack[1..], Code)
    else AfterDocument(t[1..], stack, Code)
  }

  lemma {:induction false} AfterIsSuffix(t: string, stack: seq<char>, m: Mode)
    ensures AfterDocument(t, stack, m).Some? ==>
      |AfterDocument(t, stack, m).value| < |t| && AfterDocument(t, stack, m).value == t[|t| - |AfterDocument(t, stack, m).value|..]
    decreases |t|
  {
    if t != "" {
      AfterIsSuffix(t[1..], stack, if m.Str? then AfterStringChar(t[0], m.escaped) else Str(false));
      AfterIsSuffix(t[1..], [t[0]] + stack, Code);
      if stack != [] { AfterIsSuffix(t[1..], stack[1..], Code); }
      AfterIsSuffix(t[1..], stack, Code);
    }
  }

  // The document at the front of `t`, with the text after it cut off.
  function DocumentAt(t: string): Option<string> {
    var after := AfterDocument(t, [], Code);
    if after.Some? && |after.value| <= |t| then Some(t[..|t| - |after.value|]) else None
  }

  method ReadJsonDocument(source: string, start: nat) returns (document: Option<string>)
    requires start <= |source|
    ensures document == DocumentAt(source[start..])
  {
    AfterIsSuffix(source[start..], [], Code);
    var stack: seq<char> := [];
    var quoted, escaped := false, false;
    var index := start;
    while index < |source|
      invariant start <= index <= |source|
      invariant AfterDocument(source[index..], stack, if quoted then Str(escaped) else Code)
        == AfterDocument(source[start..], [], Code)
      invariant escaped ==> quoted
    {
      var character := source[index];
      assert source[index..][1..] == source[index + 1..];
      if quoted {
        if escaped { escaped := false; }
        else if character == '\\' { escaped := true; }
        else if character == '"' { quoted := false; }
      } else if character == '"' {
        quoted := true;
      } else if Opens(character) {
        stack := [character] + stack;
      } else if Closes(character) {
        var expected := if character == '}' then '{' else '[';
        if stack == [] || stack[0] != expected { return None; }
        stack := stack[1..];
        if |stack| == 0 {
          assert source[start..][..index + 1 - start] == source[start..index + 1];
          return Some(source[start..index + 1]);
        }
      }
      index := index + 1;
    }
    document := None;
  }

  // The document of the first opening bracket from which one is found that `parses` accepts.
  function FirstDocument(t: string, parses: string -> bool): Option<string> {
    if t == "" then None
    else if Opens(t[0]) && DocumentAt(t).Some? && parses(DocumentAt(t).value) then DocumentAt(t)
    else FirstDocument(t[1..], parses)
  }

  // `parses` says which texts JSON.parse accepts; None stands for the thrown error.
  method ParseWranglerJsonOutput(source: string, parses: string -> bool) returns (document: Option<string>)
    ensures document == FirstDocument(source, parses)
  {
    var start := 0;
    while start < |source|
      invariant 0 <= start <= |source|
      invariant FirstDocument(source[start..], parses) == FirstDocument(source, parses)
    {
      assert source[start..][1..] == source[start + 1..];
      if Opens(source[start]) {
        var candidate := ReadJsonDocument(source, start);
        if candidate.Some? {
          if parses(candidate.value) { return candidate; }
        }
      }
      start := start + 1;
    }
    document := None;
  }

  // What a slice is -----------------------------------------------------------------------------

  // The brackets outside strings, and the mode at the end of a text.
  function BracketsOf(t: string, m: Mode): seq<char> {
    if t == "" then []
    else if m.Str? then BracketsOf(t[1..], AfterStringChar(t[0], m.escaped))
    else if t[0] == '"' then BracketsOf(t[1..], Str(false))
    else (if Opens(t[0]) || Closes(t[0]) then [t[0]] else []) + BracketsOf(t[1..], Code)
  }

  // Properly nested brackets, by the grammar: nothing, or a pair around a nesting and another nesting.
  datatype Nesting = Empty | Pair(open: char, inside: Nesting, after: Nesting)

  function Closer(c: char): char { if c == '{' then '}' else ']' }

  function Flat(n: Nesting): seq<char> {
    match n
    case Empty => []
    case Pair(open, inside, after) => [open] + Flat(inside) + [Closer(open)] + Flat(after)
  }

  predicate Bracketing(n: Nesting) {
    n.Pair? ==> Opens(n.open) && Bracketing(n.inside) && Bracketing(n.after)
  }

  ghost predicate Nested(brackets: seq<char>) {
    exists n :: Bracketing(n) && Flat(n) == brackets
  }

  // The stack discipline on brackets alone.
  function Reduce(brackets: seq<char>, stack: seq<char>): Option<seq<char>> {
    if brackets == [] then Some(stack)
    else if Opens(brackets[0]) then Reduce(brackets[1..], [brackets[0]] + stack)
    else if stack != [] && stack[0] == Opener(brackets[0]) then Reduce(brackets[1..], stack[1..])
    else None
  }

  lemma {:induction false} ReduceNested(n: Nesting, rest: seq<char>, stack: seq<char>)
    requires Bracketing(n)
    ensures Reduce(Flat(n) + rest, stack) == Reduce(rest, stack)
    decreases n
  {
    if n.Pair? {
      var inner := [Closer(n.open)] + (Flat(n.after) + rest);
      assert Flat(n) + rest == [n.open] + (Flat(n.inside) + inner);
      assert ([n.open] + (Flat(n.inside) + inner))[1..] == Flat(n.inside) + inner;
      ReduceNested(n.inside, inner, [n.open] + stack);
      assert inner[1..] == Flat(n.after) + rest && ([n.open] + stack)[1..] == stack;
      ReduceNested(n.after, rest, stack);
    } else {
      assert Flat(n) + rest == rest;
    }
  }

  // A nesting, then for each open bracket of the stack its closer and another nesting.
  function FlatAll(ns: seq<Nesting>, stack: seq<char>): seq<char>
    requires |ns| == |stack| + 1
  {
    Flat(ns[0]) + if stack == [] then [] else [Closer(stack[0])] + FlatAll(ns[1..], stack[1..])
  }

  function Rest(ns: seq<Nesting>, stack: seq<char>): seq<char>
    requires |ns| == |stack| + 1
  {
    if stack == [] then [] else [Closer(stack[0])] + FlatAll(ns[1..], stack[1..])
  }

  // Closing the newest open bracket folds two nestings into one.
  lemma {:induction false} FoldPair(open: char, ns: seq<Nesting>, stack: seq<char>)
    requires |ns| == |stack| + 2
    ensures FlatAll([Pair(open, ns[0], ns[1])] + ns[2..], stack) == [open] + FlatAll(ns, [open] + stack)
  {
    var folded := [Pair(open, ns[0], ns[1])] + ns[2..];
    var x, y, z := Flat(ns[0]), Flat(ns[1]), Rest(folded, stack);
    assert ([open] + stack)[1..] == stack && folded[1..] == ns[1..][1..];
    calc {
      [open] + FlatAll(ns, [open] + stack);
      [open] + (x + ([Closer(open)] + FlatAll(ns[1..], stack)));
      { assert FlatAll(ns[1..], stack) == y + z; }
      [open] + (x + ([Closer(open)] + (y + z)));
      ([open] + x + [Closer(open)] + y) + z;
      FlatAll(folded, stack);
    }
  }

  lemma {:induction false} NestingsOf(brackets: seq<char>, stack: seq<char>) returns (ns: seq<Nesting>)
    requires (forall i | 0 <= i < |brackets| :: Opens(brackets[i]) || Closes(brackets[i]))
    requires (forall i | 0 <= i < |stack| :: Opens(stack[i])) && Reduce(brackets, stack) == Some([])
    ensures |ns| == |stack| + 1 && (forall i | 0 <= i < |ns| :: Bracketing(ns[i])) && FlatAll(ns, stack) == brackets
  {
    if brackets == [] {
      ns := [Empty];
    } else if Opens(brackets[0]) {
      var inner := NestingsOf(brackets[1..], [brackets[0]] + stack);
      ns := [Pair(brackets[0], inner[0], inner[1])] + inner[2..];
      FoldPair(brackets[0], inner, stack);
    } else {
      var inner := NestingsOf(brackets[1..], stack[1..]);
      ns := [Empty] + inner;
      assert ns[1..] == inner;
    }
  }

  lemma {:induction false} NestedExactlyReduces(brackets: seq<char>)
    requires forall i | 0 <= i < |brackets| :: Opens(brackets[i]) || Closes(brackets[i])
    ensures Nested(brackets) <==> Reduce(brackets, []) == Some([])
  {
    if Nested(brackets) {
      var n :| Bracketing(n) && Flat(n) == brackets;
      ReduceNested(n, [], []);
      assert Flat(n) + [] == brackets;
    }
    if Reduce(brackets, []) == Some([]) {
      var ns := NestingsOf(brackets, []);
      assert Flat(ns[0]) == brackets;
    }
  }

  lemma {:induction false} OnlyBrackets(t: string, m: Mode)
    ensures forall i | 0 <= i < |BracketsOf(t, m)| :: Opens(BracketsOf(t, m)[i]) || Closes(BracketsOf(t, m)[i])
    decreases |t|
  {
    if t != "" {
      OnlyBrackets(t[1..], if m.Str? then AfterStringChar(t[0], m.escaped) else if t[0] == '"' then Str(false) else Code);
    }
  }

  // Closed: begins with a bracket pair and is properly nested outside strings.
  ghost predicate Whole(t: string) { BracketsOf(t, Code) != [] && Nested(BracketsOf(t, Code)) }

  function NextMode(c: char, m: Mode): Mode {
    if m.Str? then AfterStringChar(c, m.escaped) else if c == '"' then Str(false) else Code
  }

  // The stack after one character outside strings that does not break the nesting.
  function NextStack(c: char, stack: seq<char>, m: Mode): seq<char>
    requires m.Code? && Closes(c) ==> stack != []
  {
    if m.Code? && Opens(c) then [c] + stack else if m.Code? && Closes(c) then stack[1..] else stack
  }

  predicate Breaks(c: char, stack: seq<char>, m: Mode) {
    m.Code? && Closes(c) && (stack == [] || stack[0] != Opener(c))
  }

  lemma {:induction false} ReducePrefix(t: string, stack: seq<char>, m: Mode, k: nat)
    requires 0 < k <= |t| && (m.Code? || m.Str?)
    ensures Reduce(BracketsOf(t[..k], m), stack) ==
      if Breaks(t[0], stack, m) then None
      else Reduce(BracketsOf(t[1..][..k - 1], NextMode(t[0], m)), NextStack(t[0], stack, m))
  {
    assert t[..k][0] == t[0] && t[..k][1..] == t[1..][..k - 1];
    var later := BracketsOf(t[1..][..k - 1], NextMode(t[0], m));
    assert ([t[0]] + later)[1..] == later && [] + later == later;
  }

  // The scan stops at the first prefix, of at least one bracket, that empties the stack.
  lemma {:induction false} ScanFindsFirst(t: string, stack: seq<char>, m: Mode, k: nat)
    requires 0 < k <= |t| && (m.Code? || m.Str?)
    requires stack == [] ==> m == Code && Opens(t[0])
    ensures AfterDocument(t, stack, m).Some? ==> var end := |t| - |AfterDocument(t, stack, m).value|;
      && 0 < end <= |t|
      && Reduce(BracketsOf(t[..end], m), stack) == Some([])
      && (k < end ==> Reduce(BracketsOf(t[..k], m), stack) != Some([]))
    ensures AfterDocument(t, stack, m).None? ==> Reduce(BracketsOf(t[..k], m), stack) != Some([])
    decreases |t|
  {
    ReducePrefix(t, stack, m, k);
    ReducePrefix(t, stack, m, 1);
    if !Breaks(t[0], stack, m) && NextStack(t[0], stack, m) != [] && |t| > 1 {
      ScanFindsFirst(t[1..], NextStack(t[0], stack, m), NextMode(t[0], m), if k > 1 then k - 1 else 1);
      var after := AfterDocument(t[1..], NextStack(t[0], stack, m), NextMode(t[0], m));
      if after.Some? { ReducePrefix(t, stack, m, |t| - |after.value|); }
    }
  }

  // What the extractor returns is a properly nested prefix and no shorter prefix is; when it returns
  // nothing, no prefix is.
  lemma {:induction false} DocumentIsShortestWhole(t: string, k: nat)
    requires t != "" && Opens(t[0]) && 0 < k <= |t|
    ensures DocumentAt(t).Some? ==> var d := DocumentAt(t).value;
      d != "" && d <= t && Whole(d) && (k < |d| ==> !Whole(t[..k]))
    ensures DocumentAt(t).None? ==> !Whole(t[..k])
  {
    AfterIsSuffix(t, [], Code);
    ScanFindsFirst(t, [], Code, k);
    OnlyBrackets(t[..k], Code);
    NestedExactlyReduces(BracketsOf(t[..k], Code));
    if DocumentAt(t).Some? {
      OnlyBrackets(DocumentAt(t).value, Code);
      NestedExactlyReduces(BracketsOf(DocumentAt(t).value, Code));
    }
  }

  // Printed documents ---------------------------------------------------------------------------

  lemma {:induction false} ScanToken(token: string, stack: seq<char>, rest: string)
    requires forall i | 0 <= i < |token| :: token[i] != '"' && !Opens(token[i]) && !Closes(token[i])
    ensures AfterDocument(token + rest, stack, Code) == AfterDocument(rest, stack, Code)
  {
    if token == "" {
      assert token + rest == rest;
    } else {
      assert (token + rest)[1..] == token[1..] + rest;
      ScanToken(token[1..], stack, rest);
    }
  }

  lemma {:induction false} ScanGap(g: Gap, stack: seq<char>, rest: string)
    requires OnlySpaces(g)
    ensures AfterDocument(WriteGap(g, rest), stack, Code) == AfterDocument(rest, stack, Code)
  {
    if g != [] {
      ScanGap(g[1..], stack, rest);
      ScanToken([g[0].c], stack, WriteGap(g[1..], rest));
    }
  }

  lemma {:induction false} ScanBody(body: string, stack: seq<char>, rest: string)
    requires ValidBody(body)
    ensures AfterDocument(body + ("\"" + rest), stack, Str(false)) == AfterDocument(rest, stack, Code)
    decreases |body|
  {
    var t := body + ("\"" + rest);
    if body == "" {
      assert t == "\"" + rest && t[1..] == rest;
    } else if body[0] == '\\' {
      assert t[1..][1..] == body[2..] + ("\"" + rest);
      ScanBody(body[2..], stack, rest);
    } else {
      assert t[1..] == body[1..] + ("\"" + rest);
      ScanBody(body[1..], stack, rest);
    }
  }

  lemma {:induction false} ScanQuoted(body: string, stack: seq<char>, rest: string)
    requires ValidBody(body)
    ensures AfterDocument(WriteQuoted(body, rest), stack, Code) == AfterDocument(rest, stack, Code)
  {
    ScanBody(body, stack, rest);
    assert WriteQuoted(body, rest)[1..] == body + ("\"" + rest);
  }

  // Inside a document, a whole value leaves the stack as it was.
  lemma {:induction false} ScanNode(n: Node, stack: seq<char>, rest: string)
    requires PlainNode(n) && (n.Array? || n.Object? || stack != [])
    ensures AfterDocument(WriteNode(n, rest), stack, Code) ==
      if stack == [] then Some(rest) else AfterDocument(rest, stack, Code)
    decreases n, 2
  {
    match n
    case Scalar(token) => ScanToken(token, stack, rest);
    case Quoted(body) => ScanQuoted(body, stack, rest);
    case Array(items, last) => ScanContainer(items, last, '[', stack, rest);
    case Object(items, last) => ScanContainer(items, last, '{', stack, rest);
  }

  lemma {:induction false} ScanContainer(items: seq<Item>, last: Last, open: char, stack: seq<char>, rest: string)
    requires Opens(open) && PlainLast(items, last) && forall i | 0 <= i < |items| :: PlainItem(items[i])
    ensures AfterDocument([open] + WriteItems(items, WriteLast(last, [Closer(open)] + rest)), stack, Code) ==
      if stack == [] then Some(rest) else AfterDocument(rest, stack, Code)
    decreases items, 2
  {
    var close := [Closer(open)] + rest;
    var inner := WriteItems(items, WriteLast(last, close));
    assert ([open] + inner)[1..] == inner && close[1..] == rest && ([open] + stack)[1..] == stack;
    ScanItems(items, [open] + stack, WriteLast(last, close));
    ScanToken(",", [open] + stack, WriteGap(last.gap, close));
    ScanGap(last.gap, [open] + stack, close);
  }

  lemma {:induction false} ScanItems(items: seq<Item>, stack: seq<char>, rest: string)
    requires stack != [] && forall i | 0 <= i < |items| :: PlainItem(items[i])
    ensures AfterDocument(WriteItems(items, rest), stack, Code) == AfterDocument(rest, stack, Code)
    decreases items, 1
  {
    if items != [] {
      ScanItem(items[0], stack, WriteComma(|items| > 1, WriteItems(items[1..], rest)));
      ScanToken(",", stack, WriteItems(items[1..], rest));
      ScanItems(items[1..], stack, rest);
    }
  }

  lemma {:induction false} ScanItem(item: Item, stack: seq<char>, rest: string)
    requires stack != [] && PlainItem(item)
    ensures AfterDocument(WriteItem(item, rest), stack, Code) == AfterDocument(rest, stack, Code)
    decreases item, 3
  {
    var value := WriteNode(item.value, WriteGap(item.after, rest));
    ScanNode(item.value, stack, WriteGap(item.after, rest));
    ScanGap(item.after, stack, rest);
    if item.key.None? {
      ScanGap(item.before, stack, value);
    } else {
      var k := item.key.value;
      var colon := ":" + WriteGap(k.afterColon, value);
      ScanGap(item.before, stack, WriteQuoted(k.body, WriteGap(k.beforeColon, colon)));
      ScanQuoted(k.body, stack, WriteGap(k.beforeColon, colon));
      ScanGap(k.beforeColon, stack, colon);
      ScanToken(":", stack, WriteGap(k.afterColon, value));
      ScanGap(k.afterColon, stack, value);
    }
  }

  // Writing in front of a text and then appending is writing in front of the longer text.
  lemma {:induction false} TriviaAppends(t: Trivia, a: string, b: string)
    ensures WriteTrivia(t, a + b) == WriteTrivia(t, a) + b
  {
    match t
    case Space(c) =>
    case Line(text, newline) =>
      assert text + ([newline] + (a + b)) == (text + ([newline] + a)) + b;
    case Block(text) =>
      assert text + ("*/" + (a + b)) == (text + ("*/" + a)) + b;
  }

  lemma {:induction false} GapAppends(g: Gap, a: string, b: string)
    ensures WriteGap(g, a + b) == WriteGap(g, a) + b
  {
    if g != [] {
      GapAppends(g[1..], a, b);
      TriviaAppends(g[0], WriteGap(g[1..], a), b);
    }
  }

  lemma {:induction false} QuotedAppends(body: string, a: string, b: string)
    ensures WriteQuoted(body, a + b) == WriteQuoted(body, a) + b
  {}

  lemma {:induction false} NodeAppends(n: Node, a: string, b: string)
    ensures WriteNode(n, a + b) == WriteNode(n, a) + b
    decreases n, 2
  {
    match n
    case Scalar(token) =>
    case Quoted(body) => QuotedAppends(body, a, b);
    case Array(items, last) =>
      assert "]" + (a + b) == ("]" + a) + b;
      LastAppends(last, "]" + a, b);
      ItemsAppend(items, WriteLast(last, "]" + a), b);
    case Object(items, last) =>
      assert "}" + (a + b) == ("}" + a) + b;
      LastAppends(last, "}" + a, b);
      ItemsAppend(items, WriteLast(last, "}" + a), b);
  }

  lemma {:induction false} LastAppends(last: Last, a: string, b: string)
    ensures WriteLast(last, a + b) == WriteLast(last, a) + b
  {
    GapAppends(last.gap, a, b);
  }

  lemma {:induction false} ItemsAppend(items: seq<Item>, a: string, b: string)
    ensures WriteItems(items, a + b) == WriteItems(items, a) + b
    decreases items, 1
  {
    if items != [] {
      ItemsAppend(items[1..], a, b);
      var after := WriteComma(|items| > 1, WriteItems(items[1..], a));
      assert WriteComma(|items| > 1, WriteItems(items[1..], a + b)) == after + b;
      ItemAppends(items[0], after, b);
    }
  }

  lemma {:induction false} ItemAppends(item: Item, a: string, b: string)
    ensures WriteItem(item, a + b) == WriteItem(item, a) + b
    decreases item, 3
  {
    GapAppends(item.after, a, b);
    NodeAppends(item.value, WriteGap(item.after, a), b);
    var value := WriteNode(item.value, WriteGap(item.after, a));
    if item.key.None? {
      GapAppends(item.before, value, b);
    } else {
      var k := item.key.value;
      GapAppends(k.afterColon, value, b);
      var colon := ":" + WriteGap(k.afterColon, value);
      assert ":" + (WriteGap(k.afterColon, value) + b) == colon + b;
      GapAppends(k.beforeColon, colon, b);
      QuotedAppends(k.body, WriteGap(k.beforeColon, colon), b);
      GapAppends(item.before, WriteQuoted(k.body, WriteGap(k.beforeColon, colon)), b);
    }
  }

  lemma {:induction false} PrintedDocumentAt(n: Node, rest: string)
    requires PlainNode(n) && (n.Array? || n.Object?)
    ensures DocumentAt(WriteNode(n, "") + rest) == Some(WriteNode(n, ""))
    ensures WriteNode(n, "") != "" && Opens(WriteNode(n, "")[0])
  {
    var text := WriteNode(n, "") + rest;
    NodeAppends(n, "", rest);
    assert "" + rest == rest;
    ScanNode(n, [], rest);
    assert text[..|text| - |rest|] == WriteNode(n, "");
  }

  // Which positions are tried and accepted ------------------------------------------------------

  // A document that `parses` accepts starts at position p.
  predicate Offers(t: string, p: nat, parses: string -> bool) {
    p < |t| && Opens(t[p]) && DocumentAt(t[p..]).Some? && parses(DocumentAt(t[p..]).value)
  }

  lemma {:induction false} OffersLater(t: string, p: nat, parses: string -> bool)
    requires p > 0 && p <= |t|
    ensures Offers(t, p, parses) <==> Offers(t[1..], p - 1, parses)
  {
    assert t[1..][p - 1..] == t[p..];
  }

  // What is returned is the document of the first position that offers one: candidates that are not
  // nested, never end or do not parse are passed over.
  lemma {:induction false} FirstThatParses(t: string, p: nat, parses: string -> bool)
    requires Offers(t, p, parses) && forall q | 0 <= q < p :: !Offers(t, q, parses)
    ensures FirstDocument(t, parses) == DocumentAt(t[p..])
    decreases p
  {
    if p == 0 {
      assert t[0..] == t;
    } else {
      assert t[0..] == t && !Offers(t, 0, parses);
      OffersLater(t, p, parses);
      forall q | 0 <= q < p - 1 ensures !Offers(t[1..], q, parses) {
        OffersLater(t, q + 1, parses);
      }
      FirstThatParses(t[1..], p - 1, parses);
      assert t[1..][p - 1..] == t[p..];
    }
  }

  lemma {:induction false} NoneExactlyWhenNothingParses(t: string, parses: string -> bool)
    ensures FirstDocument(t, parses).None? <==> forall p | 0 <= p < |t| :: !Offers(t, p, parses)
    decreases |t|
  {
    if t != "" {
      assert t[0..] == t;
      NoneExactlyWhenNothingParses(t[1..], parses);
      if p :| 0 <= p < |t| && Offers(t, p, parses) {
        if p > 0 { OffersLater(t, p, parses); }
      } else {
        forall p | 0 <= p < |t[1..]| ensures !Offers(t[1..], p, parses) { OffersLater(t, p + 1, parses); }
        assert !Offers(t, 0, parses);
      }
    }
  }

  // Main result: a printed object or array, after any text that offers no document of its own and before
  // any text at all, is what the extractor returns, byte for byte.
  lemma {:induction false} PrintedDocumentIsFound(noise: string, n: Node, rest: string, parses: string -> bool)
    requires PlainNode(n) && (n.Array? || n.Object?) && parses(WriteNode(n, ""))
    requires forall q | 0 <= q < |noise| :: !Offers(noise + (WriteNode(n, "") + rest), q, parses)
    ensures FirstDocument(noise + (WriteNode(n, "") + rest), parses) == Some(WriteNode(n, ""))
  {
    var text := WriteNode(n, "") + rest;
    PrintedDocumentAt(n, rest);
    assert (noise + text)[|noise|..] == text && (noise + text)[|noise|] == text[0];
    FirstThatParses(noise + text, |noise|, parses);
  }

  // Text without an opening bracket offers none, and neither does a printed document that does not parse.
  lemma {:induction false} RejectedDocumentIsPassed(n: Node, rest: string, parses: string -> bool)
    requires PlainNode(n) && (n.Array? || n.Object?) && !parses(WriteNode(n, ""))
    ensures !Offers(WriteNode(n, "") + rest, 0, parses)
    ensures FirstDocument(WriteNode(n, "") + rest, parses) == FirstDocument((WriteNode(n, "") + rest)[1..], parses)
  {
    PrintedDocumentAt(n, rest);
    var text := WriteNode(n, "") + rest;
    assert text[0..] == text;
  }
}
