// The two scanners that turn JSON with comments and trailing commas into JSON: each loop of the
// code, and the function over the rest of the text that it computes.
module JsoncScanner {
  import opened Spaces

  // Where a scanner stands. `Str(true)` follows a backslash inside a string.
  datatype Mode = Code | Str(escaped: bool) | LineComment | BlockComment

  predicate IsNewline(c: char) { c == '\n' || c == '\r' }

  function AfterStringChar(c: char, escaped: bool): Mode {
    if escaped then Str(false) else if c == '\\' then Str(true) else if c == '"' then Code else Str(false)
  }

  // stripJsonComments from the given mode on.
  function Strip(t: string, m: Mode): string {
    if t == "" then "" else
    match m
    case LineComment => if IsNewline(t[0]) then [t[0]] + Strip(t[1..], Code) else Strip(t[1..], LineComment)
    case BlockComment =>
      if t[0] == '*' && |t| > 1 && t[1] == '/' then Strip(t[2..], Code)
      else if IsNewline(t[0]) then [t[0]] + Strip(t[1..], BlockComment)
      else Strip(t[1..], BlockComment)
    case Str(escaped) => [t[0]] + Strip(t[1..], AfterStringChar(t[0], escaped))
    case Code =>
      if t[0] == '"' then [t[0]] + Strip(t[1..], Str(false))
      else if t[0] == '/' && |t| > 1 && t[1] == '/' then Strip(t[2..], LineComment)
      else if t[0] == '/' && |t| > 1 && t[1] == '*' then Strip(t[2..], BlockComment)
      else [t[0]] + Strip(t[1..], Code)
  }

  // What follows the white space at the front.
  function SkipSpaces(t: string): string {
    if t != "" && IsSpace(t[0]) then SkipSpaces(t[1..]) else t
  }

  predicate ClosesNext(t: string) {
    SkipSpaces(t) != "" && (SkipSpaces(t)[0] == '}' || SkipSpaces(t)[0] == ']')
  }

  // removeTrailingCommas from the given mode on.
  function DropCommas(t: string, m: Mode): string {
    if t == "" then ""
    else if m.Str? then [t[0]] + DropCommas(t[1..], AfterStringChar(t[0], m.escaped))
    else if t[0] == '"' then [t[0]] + DropCommas(t[1..], Str(false))
    else if t[0] == ',' && ClosesNext(t[1..]) then DropCommas(t[1..], Code)
    else [t[0]] + DropCommas(t[1..], Code)
  }

  function ModeOf(inString: bool, escaped: bool, lineComment: bool, blockComment: bool): Mode {
    if lineComment then LineComment else if blockComment then BlockComment
    else if inString then Str(escaped) else Code
  }

  // What one turn of the loop leaves to do.
  lemma {:induction false} StripAt(text: string, i: nat, m: Mode)
    requires i < |text|
    ensures var c, next := text[i], if i + 1 < |text| then text[i + 1] else ' ';
      Strip(text[i..], m) ==
        if m.LineComment? then (if IsNewline(c) then [c] + Strip(text[i + 1..], Code) else Strip(text[i + 1..], m))
        else if m.BlockComment? then
          if c == '*' && next == '/' then Strip(text[i + 2..], Code)
          else (if IsNewline(c) then [c] else []) + Strip(text[i + 1..], m)
        else if m.Str? then [c] + Strip(text[i + 1..], AfterStringChar(c, m.escaped))
        else if c == '"' then [c] + Strip(text[i + 1..], Str(false))
        else if c == '/' && next == '/' then Strip(text[i + 2..], LineComment)
        else if c == '/' && next == '*' then Strip(text[i + 2..], BlockComment)
        else [c] + Strip(text[i + 1..], Code)
  {
    var rest := text[i..];
    assert rest[1..] == text[i + 1..];
    assert i + 1 < |text| ==> rest[1] == text[i + 1] && rest[2..] == text[i + 2..];
  }

  method StripJsonComments(text: string) returns (output: string)
    ensures output == Strip(text, Code)
  {
    output := "";
    var inString, escaped, lineComment, blockComment := false, false, false, false;
    var index := 0;
    while index < |text|
      invariant 0 <= index <= |text|
      invariant output + Strip(text[index..], ModeOf(inString, escaped, lineComment, blockComment)) == Strip(text, Code)
      invariant escaped ==> inString
      invariant !(lineComment && blockComment) && !(inString && (lineComment || blockComment))
    {
      var c := text[index];
      var hasNext := index + 1 < |text|;
      StripAt(text, index, ModeOf(inString, escaped, lineComment, blockComment));
      if lineComment {
        if IsNewline(c) {
          lineComment := false;
          output := output + [c];
        }
      } else if blockComment {
        if c == '*' && hasNext && text[index + 1] == '/' {
          blockComment := false;
          index := index + 1;
        } else if IsNewline(c) {
          output := output + [c];
        }
      } else if inString {
        output := output + [c];
        if escaped { escaped := false; }
        else if c == '\\' { escaped := true; }
        else if c == '"' { inString := false; }
      } else if c == '"' {
        inString := true;
        output := output + [c];
      } else if c == '/' && hasNext && text[index + 1] == '/' {
        lineComment := true;
        index := index + 1;
      } else if c == '/' && hasNext && text[index + 1] == '*' {
        blockComment := true;
        index := index + 1;
      } else {
        output := output + [c];
      }
      index := index + 1;
    }
  }

  method ClosesFrom(text: string, start: nat) returns (closes: bool)
    requires start <= |text|
    ensures closes == ClosesNext(text[start..])
  {
    var cursor := start;
    while cursor < |text| && IsSpace(text[cursor])
      invariant start <= cursor <= |text|
      invariant SkipSpaces(text[start..]) == SkipSpaces(text[cursor..])
    {
      assert text[cursor..][1..] == text[cursor + 1..];
      cursor := cursor + 1;
    }
    closes := cursor < |text| && (text[cursor] == '}' || text[cursor] == ']');
  }

  lemma {:induction false} DropAt(text: string, i: nat, m: Mode)
    requires i < |text| && (m.Code? || m.Str?)
    ensures var c := text[i];
      DropCommas(text[i..], m) ==
        if m.Str? then [c] + DropCommas(text[i + 1..], AfterStringChar(c, m.escaped))
        else if c == '"' then [c] + DropCommas(text[i + 1..], Str(false))
        else (if c == ',' && ClosesNext(text[i + 1..]) then [] else [c]) + DropCommas(text[i + 1..], Code)
  {
    assert text[i..][1..] == text[i + 1..];
  }

  lemma {:induction false} AppendMoves(output: string, c: char, rest: string)
    ensures output + ([c] + rest) == (output + [c]) + rest && output + ([] + rest) == output + rest
  {}

  method RemoveTrailingCommas(text: string) returns (output: string)
    ensures output == DropCommas(text, Code)
  {
    output := "";
    var inString, escaped := false, false;
    var index := 0;
    while index < |text|
      invariant 0 <= index <= |text|
      invariant output + DropCommas(text[index..], ModeOf(inString, escaped, false, false)) == DropCommas(text, Code)
      invariant escaped ==> inString
    {
      var c := text[index];
      DropAt(text, index, ModeOf(inString, escaped, false, false));
      if inString {
        AppendMoves(output, c, DropCommas(text[index + 1..], AfterStringChar(c, escaped)));
        output := output + [c];
        if escaped { escaped := false; }
        else if c == '\\' { escaped := true; }
        else if c == '"' { inString := false; }
      } else if c == '"' {
        AppendMoves(output, c, DropCommas(text[index + 1..], Str(false)));
        inString := true;
        output := output + [c];
      } else {
        AppendMoves(output, c, DropCommas(text[index + 1..], Code));
        var drop := false;
        if c == ',' { drop := ClosesFrom(text, index + 1); }
        if !drop { output := output + [c]; }
      }
      index := index + 1;
    }
  }

  // On any text ------------------------------------------------------------------------------

  function Newlines(t: string): string {
    if t == "" then "" else (if IsNewline(t[0]) then [t[0]] else "") + Newlines(t[1..])
  }

  lemma {:induction false} NewlinesCons(c: char, t: string)
    ensures Newlines([c] + t) == (if IsNewline(c) then [c] else "") + Newlines(t)
  {
    assert ([c] + t)[1..] == t;
  }

  // Comments go, but every line break stays, in order.
  lemma {:induction false} StripKeepsNewlines(t: string, m: Mode)
    ensures Newlines(Strip(t, m)) == Newlines(t)
    decreases |t|
  {
    if t != "" {
      assert t == [t[0]] + t[1..];
      var skips := |t| > 1 && (
        (m.BlockComment? && t[0] == '*' && t[1] == '/') || (m.Code? && t[0] == '/' && (t[1] == '/' || t[1] == '*')));
      if skips {
        assert t[1..][1..] == t[2..];
        StripKeepsNewlines(t[2..], if m.BlockComment? then Code else if t[1] == '/' then LineComment else BlockComment);
      } else {
        var next := match m
          case LineComment => if IsNewline(t[0]) then Code else LineComment
          case BlockComment => BlockComment
          case Str(escaped) => AfterStringChar(t[0], escaped)
          case Code => if t[0] == '"' then Str(false) else Code;
        StripKeepsNewlines(t[1..], next);
        NewlinesCons(t[0], Strip(t[1..], next));
      }
    }
  }

  function Outside(m: Mode): Mode { if m.Str? then m else Code }

  // Nothing is left to strip after one pass.
  lemma {:induction false} StripIdempotent(t: string, m: Mode)
    ensures Strip(Strip(t, m), Outside(m)) == Strip(t, m)
    decreases |t|
  {
    if t != "" {
      StripIdempotent(t[1..], m);
      StripIdempotent(t[1..], Code);
      StripIdempotent(t[1..], Str(false));
      StripIdempotent(t[1..], Str(true));
      if |t| > 1 {
        StripIdempotent(t[2..], Code);
        StripIdempotent(t[2..], LineComment);
        StripIdempotent(t[2..], BlockComment);
      }
    }
  }
}
