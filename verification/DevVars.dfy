// The .dev.vars reader: lines of KEY=value, with quotes, escapes, comments and an optional export.
module DevVars {
  import opened Wrappers
  import opened Spaces

  datatype Error = AfterClosingQuote | UnclosedQuote

  // Lines -------------------------------------------------------------------------------------

  function DropCarriageReturn(line: string): string {
    if line != "" && line[|line| - 1] == '\r' then line[..|line| - 1] else line
  }

  // text.split(/\r?\n/), with `line` read so far.
  function Lines(line: string, text: string): seq<string>
    decreases |text|
  {
    if text == "" then [line]
    else if text[0] == '\n' then [DropCarriageReturn(line)] + Lines("", text[1..])
    else Lines(line + [text[0]], text[1..])
  }

  predicate KeyStart(c: char) { 'A' <= c <= 'Z' || c == '_' }

  predicate IsKey(s: string) {
    s != "" && KeyStart(s[0]) && forall i | 0 <= i < |s| :: KeyStart(s[i]) || '0' <= s[i] <= '9'
  }

  // Position of the first '=', or |s|.
  function EqualsAt(s: string): (i: nat)
    ensures i <= |s|
  {
    if s == "" || s[0] == '=' then 0 else 1 + EqualsAt(s[1..])
  }

  predicate StartsWith(s: string, prefix: string) { prefix <= s }

  // The key and raw value of a line; None for a blank line, a comment or no assignment at all.
  function ParseLine(line: string): Option<(string, string)> {
    var trimmed := Trim(line);
    if trimmed == "" || trimmed[0] == '#' then None else
    ParseAssignment(if StartsWith(trimmed, "export ") then Trim(trimmed[7..]) else trimmed)
  }

  function ParseAssignment(normalized: string): Option<(string, string)> {
    var at := EqualsAt(normalized);
    if at == |normalized| || at == 0 then None else
    var key := Trim(normalized[..at]);
    if !IsKey(key) then None else Some((key, Trim(normalized[at + 1..])))
  }

  // Values --------------------------------------------------------------------------------------

  function Prepend(output: string, r: Result<string, Error>): Result<string, Error> {
    if r.Ok? then Ok(output + r.value) else r
  }

  // What an escaped character stands for: quotes and backslashes lose their backslash, others keep it.
  function Escaped(c: char, quote: char): string {
    if c == quote || c == '\\' then [c] else ['\\', c]
  }

  // A quoted value after its opening quote; `escaped` follows a backslash.
  function Unquote(s: string, quote: char, escaped: bool): Result<string, Error> {
    if s == "" then Err(UnclosedQuote)
    else if escaped then Prepend(Escaped(s[0], quote), Unquote(s[1..], quote, false))
    else if s[0] == '\\' then Unquote(s[1..], quote, true)
    else if s[0] == quote then
      var remainder := Trim(s[1..]);
      if remainder != "" && remainder[0] != '#' then Err(AfterClosingQuote) else Ok("")
    else Prepend([s[0]], Unquote(s[1..], quote, false))
  }

  lemma {:induction false} PrependTwice(a: string, b: string, r: Result<string, Error>)
    ensures Prepend(a, Prepend(b, r)) == Prepend(a + b, r)
    ensures Prepend("", r) == r
  {
    if r.Ok? { assert a + (b + r.value) == (a + b) + r.value && "" + r.value == r.value; }
  }

  // The text before the first white space that leads to a '#'.
  function StripInlineComment(s: string): string {
    Trim(BeforeComment(s))
  }

  function SkipSpaces(s: string): string {
    if s != "" && IsSpace(s[0]) then SkipSpaces(s[1..]) else s
  }

  function BeforeComment(s: string): string {
    if s == "" then ""
    else if IsSpace(s[0]) && SkipSpaces(s) != "" && SkipSpaces(s)[0] == '#' then ""
    else [s[0]] + BeforeComment(s[1..])
  }

  function ValueOf(raw: string): Result<string, Error> {
    if raw == "" then Ok("")
    else if raw[0] == '"' || raw[0] == '\'' then Unquote(raw[1..], raw[0], false)
    else Ok(StripInlineComment(raw))
  }

  method ParseValue(value: string) returns (r: Result<string, Error>)
    ensures r == ValueOf(value)
  {
    if value == "" { return Ok(""); }
    var quote := value[0];
    if quote != '"' && quote != '\'' { return Ok(StripInlineComment(value)); }
    var output := "";
    var escaped := false;
    var index := 1;
    PrependTwice("", "", ValueOf(value));
    while index < |value|
      invariant 1 <= index <= |value|
      invariant ValueOf(value) == Prepend(output, Unquote(value[index..], quote, escaped))
    {
      var character := value[index];
      assert value[index..][1..] == value[index + 1..];
      ghost var later := Unquote(value[index + 1..], quote, false);
      if escaped {
        PrependTwice(output, Escaped(character, quote), later);
        output := output + Escaped(character, quote);
        escaped := false;
      } else if character == '\\' {
        escaped := true;
      } else if character == quote {
        var remainder := Trim(value[index + 1..]);
        if remainder != "" && remainder[0] != '#' { return Err(AfterClosingQuote); }
        assert output + "" == output;
        return Ok(output);
      } else {
        PrependTwice(output, [character], later);
        output := output + [character];
      }
      index := index + 1;
    }
    r := Err(UnclosedQuote);
  }

  // Comments behind values without quotes ---------------------------------------------------------

  predicate Blank(s: string) { forall i | 0 <= i < |s| :: IsSpace(s[i]) }

  // White space from n to m, and then a '#'.
  predicate CommentAt(s: string, n: int, m: int) { 0 <= n < m < |s| && Blank(s[n..m]) && s[m] == '#' }

  ghost predicate CommentFrom(s: string, n: int) { exists m :: CommentAt(s, n, m) }

  lemma {:induction false} SkipsBlank(s: string)
    ensures |SkipSpaces(s)| <= |s| && SkipSpaces(s) == s[|s| - |SkipSpaces(s)|..] && Blank(s[..|s| - |SkipSpaces(s)|])
    ensures SkipSpaces(s) != "" ==> !IsSpace(SkipSpaces(s)[0])
  {
    if s != "" && IsSpace(s[0]) {
      SkipsBlank(s[1..]);
      var n := |s| - |SkipSpaces(s)|;
      assert s[..n] == [s[0]] + s[1..][..n - 1];
    }
  }

  lemma {:induction false} CommentHere(s: string)
    requires s != ""
    ensures IsSpace(s[0]) && SkipSpaces(s) != "" && SkipSpaces(s)[0] == '#' <==> CommentFrom(s, 0)
  {
    SkipsBlank(s);
    var n := |s| - |SkipSpaces(s)|;
    if IsSpace(s[0]) && SkipSpaces(s) != "" && SkipSpaces(s)[0] == '#' {
      assert CommentAt(s, 0, n);
    }
    if m :| CommentAt(s, 0, m) {
      assert s[0..m][0] == s[0];
      SkipsExactly(s, m);
    }
  }

  lemma {:induction false} SkipsExactly(s: string, m: nat)
    requires m < |s| && Blank(s[0..m]) && !IsSpace(s[m])
    ensures SkipSpaces(s) == s[m..]
  {
    if m > 0 {
      assert s[0..m][0] == s[0];
      assert s[1..][0..m - 1] == s[0..m][1..];
      SkipsExactly(s[1..], m - 1);
    }
  }

  lemma {:induction false} SliceMoves(s: string, n: nat, m: nat)
    requires n <= m < |s|
    ensures s[1..][n..m] == s[n + 1..m + 1]
  {
  }

  lemma {:induction false} CommentMoves(s: string, n: int)
    requires s != ""
    ensures n >= 0 ==> (CommentFrom(s[1..], n) <==> CommentFrom(s, n + 1))
  {
    if n >= 0 {
      var next, tail := n + 1, s[1..];
      if m :| CommentAt(tail, n, m) {
        SliceMoves(s, n, m);
        assert CommentAt(s, next, m + 1);
      }
      if m :| CommentAt(s, next, m) {
        SliceMoves(s, n, m - 1);
        assert CommentAt(tail, n, m - 1);
      }
    }
  }

  // The value without quotes ends where the first comment starts.
  lemma {:induction false} CutAtFirstComment(s: string)
    ensures BeforeComment(s) <= s
    ensures |BeforeComment(s)| < |s| ==> CommentFrom(s, |BeforeComment(s)|)
    ensures forall n | 0 <= n < |BeforeComment(s)| :: !CommentFrom(s, n)
  {
    if s != "" {
      CommentHere(s);
      if !CommentFrom(s, 0) {
        CutAtFirstComment(s[1..]);
        var cut := |BeforeComment(s[1..])|;
        CommentMoves(s, cut);
        forall n | 0 <= n < cut + 1 ensures !CommentFrom(s, n) {
          if n > 0 { CommentMoves(s, n - 1); }
        }
      }
    }
  }

  // Files ---------------------------------------------------------------------------------------

  // The environment of the lines, added to `env`; the first bad value stops the reading.
  function Read(lines: seq<string>, env: map<string, string>): Result<map<string, string>, Error> {
    if lines == [] then Ok(env) else
    var parsed := ParseLine(lines[0]);
    if parsed.None? then Read(lines[1..], env) else
    var value := ValueOf(parsed.value.1);
    if value.Err? then Err(value.error) else Read(lines[1..], env[parsed.value.0 := value.value])
  }

  method ParseDevVars(text: string) returns (r: Result<map<string, string>, Error>)
    ensures r == Read(Lines("", text), map[])
  {
    var env := map[];
    var lines := Lines("", text);
    var i := 0;
    while i < |lines|
      invariant 0 <= i <= |lines|
      invariant Read(lines[i..], env) == Read(lines, map[])
    {
      assert lines[i..][1..] == lines[i + 1..];
      var parsed := ParseLine(lines[i]);
      if parsed.Some? {
        var value := ParseValue(parsed.value.1);
        if value.Err? { return Err(value.error); }
        env := env[parsed.value.0 := value.value];
      }
      i := i + 1;
    }
    r := Ok(env);
  }

  // Writing a file back -------------------------------------------------------------------------

  // One assignment: what stands before and after it on its line, and which quote it uses.
  datatype Entry = Entry(key: string, value: string, indent: string, exported: bool, quote: char, after: string)

  function EscapeChar(c: char, quote: char): string {
    if c == quote || c == '\\' then ['\\', c] else [c]
  }

  function EscapeValue(value: string, quote: char): string {
    if value == "" then "" else EscapeChar(value[0], quote) + EscapeValue(value[1..], quote)
  }

  predicate OneLine(s: string) { forall i | 0 <= i < |s| :: s[i] != '\n' }

  // White space, optionally with a comment.
  predicate Ignorable(after: string) { Trim(after) == "" || Trim(after)[0] == '#' }

  predicate Writable(e: Entry) {
    && IsKey(e.key) && OneLine(e.value) && Blank(e.indent) && OneLine(e.indent)
    && (e.quote == '"' || e.quote == '\'') && OneLine(e.after) && Ignorable(e.after)
  }

  function Assignment(e: Entry): string {
    [e.quote] + (EscapeValue(e.value, e.quote) + ([e.quote] + e.after))
  }

  function WriteLine(e: Entry): string {
    e.indent + ((if e.exported then "export " else "") + (e.key + ("=" + Assignment(e))))
  }

  // Each line ends in \n or \r\n.
  function WriteFile(entries: seq<Entry>, crlf: bool): string {
    if entries == [] then "" else WriteLine(entries[0]) + ((if crlf then "\r\n" else "\n") + WriteFile(entries[1..], crlf))
  }

  function LastValues(entries: seq<Entry>, env: map<string, string>): map<string, string> {
    if entries == [] then env else LastValues(entries[1..], env[entries[0].key := entries[0].value])
  }

  // Trimming --------------------------------------------------------------------------------------

  lemma {:induction false} TrimLeftOf(blank: string, s: string)
    requires Blank(blank) && s != "" && !IsSpace(s[0])
    ensures TrimLeft(blank + s) == s
  {
    if blank == "" {
      assert blank + s == s;
    } else {
      assert (blank + s)[1..] == blank[1..] + s;
      TrimLeftOf(blank[1..], s);
    }
  }

  // Trimming on the right stops at the last character that is no space.
  lemma {:induction false} TrimRightOf(s: string, after: string)
    requires s != "" && !IsSpace(s[|s| - 1])
    ensures TrimRight(s + after) == s + TrimRight(after)
    decreases |after|
  {
    if after == "" {
      assert s + after == s && TrimRight(s) == s;
    } else if IsSpace(after[|after| - 1]) {
      assert (s + after)[..|s + after| - 1] == s + after[..|after| - 1];
      TrimRightOf(s, after[..|after| - 1]);
    }
  }

  lemma {:induction false} TrimRightPrefix(s: string)
    ensures TrimRight(s) <= s && TrimRight(TrimRight(s)) == TrimRight(s)
    ensures |TrimRight(s)| > 0 ==> !IsSpace(TrimRight(s)[|TrimRight(s)| - 1])
    decreases |s|
  {
    if s != "" && IsSpace(s[|s| - 1]) { TrimRightPrefix(s[..|s| - 1]); }
  }

  // Trimming from both ends can be done in either order.
  lemma {:induction false} TrimCommutes(s: string)
    ensures TrimLeft(TrimRight(s)) == TrimRight(TrimLeft(s))
    decreases |s|
  {
    if s != "" && IsSpace(s[|s| - 1]) {
      TrimCommutes(s[..|s| - 1]);
      TrimLeftDropsLast(s);
    } else if s != "" {
      TrimLeftKeepsLast(s);
    }
  }

  lemma {:induction false} TrimLeftKeepsLast(s: string)
    requires s != "" && !IsSpace(s[|s| - 1])
    ensures TrimLeft(s) != "" && TrimLeft(s)[|TrimLeft(s)| - 1] == s[|s| - 1]
  {
    if IsSpace(s[0]) { TrimLeftKeepsLast(s[1..]); }
  }

  lemma {:induction false} TrimLeftDropsLast(s: string)
    requires s != "" && IsSpace(s[|s| - 1])
    ensures TrimRight(TrimLeft(s)) == TrimRight(TrimLeft(s[..|s| - 1]))
  {
    var cut := s[..|s| - 1];
    if cut != "" && IsSpace(s[0]) {
      assert s[1..][..|s[1..]| - 1] == cut[1..];
      TrimLeftDropsLast(s[1..]);
    } else if cut == "" {
      assert s[1..] == "";
    } else {
      assert TrimLeft(s) == s && TrimLeft(cut) == cut;
    }
  }

  lemma {:induction false} TrimTwice(s: string)
    ensures Trim(TrimRight(s)) == Trim(s)
  {
    TrimCommutes(s);
    TrimRightPrefix(s);
    TrimCommutes(TrimRight(s));
  }

  // Round trip ------------------------------------------------------------------------------------

  lemma {:induction false} UnquoteChar(c: char, quote: char, later: string)
    requires quote != '\\'
    ensures Unquote(EscapeChar(c, quote) + later, quote, false) == Prepend([c], Unquote(later, quote, false))
  {
    var t := EscapeChar(c, quote) + later;
    if c == quote || c == '\\' {
      assert t == ['\\'] + ([c] + later) && t[1..] == [c] + later && t[1..][1..] == later;
    } else {
      assert t == [c] + later && t[1..] == later;
    }
  }

  lemma {:induction false} UnquoteEnd(quote: char, after: string)
    requires quote != '\\' && Ignorable(after)
    ensures Unquote([quote] + after, quote, false) == Ok("")
  {
    assert ([quote] + after)[1..] == after;
  }

  lemma {:induction false} EscapeFirst(value: string, quote: char, tail: string)
    requires value != ""
    ensures EscapeValue(value, quote) + tail == EscapeChar(value[0], quote) + (EscapeValue(value[1..], quote) + tail)
  {
  }

  lemma {:induction false} UnquoteEscaped(value: string, quote: char, after: string)
    requires (quote == '"' || quote == '\'') && Ignorable(after)
    ensures Unquote(EscapeValue(value, quote) + ([quote] + after), quote, false) == Ok(value)
    decreases |value|
  {
    var tail := [quote] + after;
    if value == "" {
      UnquoteEnd(quote, after);
      assert EscapeValue(value, quote) + tail == tail;
    } else {
      UnquoteEscaped(value[1..], quote, after);
      UnquoteChar(value[0], quote, EscapeValue(value[1..], quote) + tail);
      EscapeFirst(value, quote, tail);
      assert [value[0]] + value[1..] == value;
    }
  }

  lemma {:induction false} EqualsAfterKey(key: string, rest: string)
    requires forall i | 0 <= i < |key| :: key[i] != '='
    ensures EqualsAt(key + ("=" + rest)) == |key|
  {
    if key != "" {
      assert (key + ("=" + rest))[1..] == key[1..] + ("=" + rest);
      EqualsAfterKey(key[1..], rest);
    }
  }

  lemma {:induction false} ParseLineTrimmed(line: string)
    ensures ParseLine(DropCarriageReturn(line)) == ParseLine(line)
  {
    TrimCommutes(line);
    TrimCommutes(DropCarriageReturn(line));
  }

  // A normalized assignment, with nothing to trim, gives its key and its quoted value.
  lemma {:induction false} KeyAndValue(key: string, raw: string)
    requires IsKey(key) && raw != "" && !IsSpace(raw[0]) && !IsSpace(raw[|raw| - 1])
    ensures var n := key + ("=" + raw);
      n != "" && n[0] == key[0] && Trim(n) == n && ParseAssignment(n) == Some((key, raw))
  {
    var n := key + ("=" + raw);
    EqualsAfterKey(key, raw);
    assert n[..|key|] == key && n[|key| + 1..] == raw;
    assert n[|n| - 1] == raw[|raw| - 1];
  }

  // The value of a written line as the parser sees it.
  function Raw(e: Entry): string {
    [e.quote] + (EscapeValue(e.value, e.quote) + ([e.quote] + TrimRight(e.after)))
  }

  lemma {:induction false} TrimWritten(e: Entry)
    requires Writable(e)
    ensures Trim(WriteLine(e)) == (if e.exported then "export " else "") + (e.key + ("=" + Raw(e)))
  {
    var prefix := if e.exported then "export " else "";
    var quoted := [e.quote] + (EscapeValue(e.value, e.quote) + [e.quote]);
    var front := prefix + (e.key + ("=" + quoted));
    assert Assignment(e) == quoted + e.after && Raw(e) == quoted + TrimRight(e.after);
    assert prefix + (e.key + ("=" + Assignment(e))) == front + e.after;
    assert prefix + (e.key + ("=" + Raw(e))) == front + TrimRight(e.after);
    TrimLeftOf(e.indent, front + e.after);
    assert front[|front| - 1] == e.quote;
    TrimRightOf(front, e.after);
  }

  lemma {:induction false} RawReads(e: Entry)
    requires Writable(e)
    ensures Raw(e) != "" && !IsSpace(Raw(e)[0]) && !IsSpace(Raw(e)[|Raw(e)| - 1])
    ensures ValueOf(Raw(e)) == Ok(e.value)
  {
    TrimRightPrefix(e.after);
    TrimTwice(e.after);
    UnquoteEscaped(e.value, e.quote, TrimRight(e.after));
    assert Raw(e)[1..] == EscapeValue(e.value, e.quote) + ([e.quote] + TrimRight(e.after));
  }

  lemma {:induction false} ParseTrimmed(line: string, exported: bool, key: string, raw: string)
    requires IsKey(key) && raw != "" && !IsSpace(raw[0]) && !IsSpace(raw[|raw| - 1])
    requires Trim(line) == (if exported then "export " else "") + (key + ("=" + raw))
    ensures ParseLine(line) == Some((key, raw))
  {
    var n := key + ("=" + raw);
    var trimmed := Trim(line);
    KeyAndValue(key, raw);
    if exported {
      assert trimmed == "export " + n && trimmed[7..] == n && trimmed[0] == 'e';
      assert StartsWith(trimmed, "export ");
    } else {
      assert trimmed == n && trimmed[0] == key[0] && KeyStart(key[0]);
      assert "export "[0] == 'e';
      assert !StartsWith(trimmed, "export ");
    }
  }

  lemma {:induction false} ParseWritten(e: Entry)
    requires Writable(e)
    ensures ParseLine(WriteLine(e)) == Some((e.key, Raw(e))) && ValueOf(Raw(e)) == Ok(e.value)
  {
    TrimWritten(e);
    RawReads(e);
    ParseTrimmed(WriteLine(e), e.exported, e.key, Raw(e));
  }

  lemma {:induction false} LinesOf(line: string, text: string, rest: string)
    requires OneLine(text)
    ensures Lines(line, text + ("\n" + rest)) == [DropCarriageReturn(line + text)] + Lines("", rest)
    decreases |text|
  {
    var t := text + ("\n" + rest);
    if text == "" {
      assert t == "\n" + rest && t[1..] == rest && line + text == line;
    } else {
      assert t[1..] == text[1..] + ("\n" + rest);
      assert (line + [text[0]]) + text[1..] == line + text;
      LinesOf(line + [text[0]], text[1..], rest);
    }
  }

  lemma {:induction false} EscapedOneLine(value: string, quote: char)
    requires OneLine(value) && quote != '\n'
    ensures OneLine(EscapeValue(value, quote))
  {
    if value != "" { EscapedOneLine(value[1..], quote); }
  }

  lemma {:induction false} WrittenOneLine(e: Entry)
    requires Writable(e)
    ensures OneLine(WriteLine(e))
  {
    EscapedOneLine(e.value, e.quote);
    var escaped := EscapeValue(e.value, e.quote);
    assert OneLine([e.quote] + e.after) && OneLine(escaped + ([e.quote] + e.after)) && OneLine(Assignment(e));
    assert OneLine("=" + Assignment(e)) && OneLine(e.key) && OneLine(e.key + ("=" + Assignment(e)));
    assert OneLine((if e.exported then "export " else "") + (e.key + ("=" + Assignment(e))));
  }

  lemma {:induction false} ReadWrittenLine(e: Entry, crlf: bool, rest: string)
    requires Writable(e)
    ensures var text := WriteLine(e) + ((if crlf then "\r\n" else "\n") + rest); var lines := Lines("", text);
      lines != [] && lines[1..] == Lines("", rest) && ParseLine(lines[0]) == ParseLine(WriteLine(e))
  {
    WrittenOneLine(e);
    var written := WriteLine(e);
    var line := written + (if crlf then "\r" else "");
    LinesOf("", line, rest);
    assert line + ("\n" + rest) == written + ((if crlf then "\r\n" else "\n") + rest);
    assert "" + line == line;
    ParseLineTrimmed(written);
    assert crlf ==> DropCarriageReturn(line) == written;
    assert !crlf ==> line == written;
  }

  // Main result: reading a written file gives exactly the last value written for each key.
  lemma {:induction false} ReadWritten(entries: seq<Entry>, crlf: bool, env: map<string, string>)
    requires forall i | 0 <= i < |entries| :: Writable(entries[i])
    ensures Read(Lines("", WriteFile(entries, crlf)), env) == Ok(LastValues(entries, env))
    decreases |entries|
  {
    if entries == [] {
      assert Lines("", "") == [""] && ParseLine("").None?;
    } else {
      ReadWrittenLine(entries[0], crlf, WriteFile(entries[1..], crlf));
      ParseWritten(entries[0]);
      ReadWritten(entries[1..], crlf, env[entries[0].key := entries[0].value]);
    }
  }

  // The environment holds a key exactly when some line writes it, with the value of the last such line.
  lemma {:induction false} LastValuesLast(entries: seq<Entry>, env: map<string, string>, key: string)
    ensures (forall i | 0 <= i < |entries| :: entries[i].key != key) ==>
      (key in LastValues(entries, env) <==> key in env) && (key in env ==> LastValues(entries, env)[key] == env[key])
    ensures forall i | 0 <= i < |entries| && entries[i].key == key && (forall j | i < j < |entries| :: entries[j].key != key) ::
      key in LastValues(entries, env) && LastValues(entries, env)[key] == entries[i].value
    decreases |entries|
  {
    if entries != [] {
      LastValuesLast(entries[1..], env[entries[0].key := entries[0].value], key);
    }
  }

  // A value written without quotes reads back as itself if it is trimmed, starts with no quote and holds no
  // comment, whatever white space or comment follows it.
  predicate Bare(value: string, gap: string, comment: string) {
    && value != "" && value[0] != '"' && value[0] != '\'' && !IsSpace(value[0]) && !IsSpace(value[|value| - 1])
    && Blank(gap) && (comment == "" || (gap != "" && comment[0] == '#'))
  }

  lemma {:induction false} BareReadsBack(value: string, gap: string, comment: string)
    requires Bare(value, gap, comment) && forall n | 0 <= n < |value| :: !CommentFrom(value, n)
    ensures ValueOf(value + (gap + comment)) == Ok(value)
  {
    var s := value + (gap + comment);
    CutAtFirstComment(s);
    var cut := |BeforeComment(s)|;
    forall n | 0 <= n < |value| ensures !CommentFrom(s, n) { NoCommentInside(value, gap + comment, n); }
    assert BeforeComment(s) == s[..cut];
    if comment != "" {
      assert s[|value|..|value| + |gap|] == gap;
      assert CommentAt(s, |value|, |value| + |gap|) && CommentFrom(s, |value|);
    }
    BareCut(value, gap, comment, cut);
  }

  lemma {:induction false} EndIsNotBlank(value: string, rest: string, n: nat, m: nat)
    requires n < |value| <= m <= |value + rest| && !IsSpace(value[|value| - 1])
    ensures !Blank((value + rest)[n..m])
  {
    assert (value + rest)[n..m][|value| - 1 - n] == value[|value| - 1];
  }

  // No comment starts inside a value that ends in no white space and holds none.
  lemma {:induction false} NoCommentInside(value: string, rest: string, n: nat)
    requires n < |value| && !IsSpace(value[|value| - 1]) && !CommentFrom(value, n)
    ensures !CommentFrom(value + rest, n)
  {
    forall m ensures !CommentAt(value + rest, n, m) {
      if n < m < |value| {
        assert value[n..m] == (value + rest)[n..m];
        assert !CommentAt(value, n, m);
      } else if |value| <= m < |value + rest| {
        EndIsNotBlank(value, rest, n, m);
      }
    }
  }

  lemma {:induction false} BareCut(value: string, gap: string, comment: string, cut: nat)
    requires Bare(value, gap, comment) && |value| <= cut <= |value| + |gap| + |comment|
    requires BeforeComment(value + (gap + comment)) == (value + (gap + comment))[..cut]
    requires comment != "" ==> cut <= |value|
    ensures ValueOf(value + (gap + comment)) == Ok(value)
  {
    var s := value + (gap + comment);
    assert s[..cut] == value + (gap + comment)[..cut - |value|];
    var rest := (gap + comment)[..cut - |value|];
    assert Blank(rest);
    TrimOf(value, rest);
    assert s[0] == value[0];
  }

  lemma {:induction false} TrimOf(value: string, rest: string)
    requires value != "" && !IsSpace(value[0]) && !IsSpace(value[|value| - 1]) && Blank(rest)
    ensures Trim(value + rest) == value
  {
    assert TrimLeft(value + rest) == value + rest;
    TrimRightOf(value, rest);
    BlankTrims(rest);
  }

  lemma {:induction false} BlankTrims(rest: string)
    requires Blank(rest)
    ensures TrimRight(rest) == ""
    decreases |rest|
  {
    if rest != "" { BlankTrims(rest[..|rest| - 1]); }
  }
}
