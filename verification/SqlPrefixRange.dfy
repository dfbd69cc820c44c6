// Selecting rows by a prefix of a text column with two comparisons instead of LIKE. SQLite compares
// text bytewise; bytes are code units below 256 here.
module SqlPrefixRange {
  import opened Wrappers
  import opened Lexicographic
  import opened JsonValues

  predicate Supported(c: CodeUnit) {
    97 <= c <= 122 || 48 <= c <= 57 || c == 58 || c == 95 || c == 45 // a-z 0-9 : _ -
  }

  // The bounds `column >= lower AND column < upper`; None is the thrown error. The text is trimmed already.
  function PrefixRange(prefix: Text): Option<(Text, Text)> {
    if prefix == [] || exists i | 0 <= i < |prefix| :: !Supported(prefix[i]) then None
    else if prefix[|prefix| - 1] >= 0x7f then None
    else Some((prefix, NextAfter(prefix)))
  }

  // The text with its last unit incremented.
  function NextAfter(prefix: Text): Text
    requires prefix != [] && prefix[|prefix| - 1] < 0xFFFF
  {
    prefix[..|prefix| - 1] + [prefix[|prefix| - 1] + 1]
  }

  predicate InRange(s: Text, lower: Text, upper: Text) {
    !Less(s, lower) && Less(s, upper)
  }

  lemma {:induction false} RangeIsPrefix(s: Text, prefix: Text)
    requires prefix != [] && prefix[|prefix| - 1] < 0xFFFF
    ensures InRange(s, prefix, NextAfter(prefix)) <==> prefix <= s
  {
    var upper := NextAfter(prefix);
    if s == [] {
    } else if |prefix| == 1 {
      assert prefix[1..] == [] && upper[1..] == [] && upper[0] == prefix[0] + 1;
      assert !Less(s[1..], prefix[1..]) && !Less(s[1..], upper[1..]);
      assert prefix == [prefix[0]];
      assert prefix <= s <==> s[0] == prefix[0];
    } else {
      assert upper[1..] == NextAfter(prefix[1..]) && upper[0] == prefix[0];
      RangeIsPrefix(s[1..], prefix[1..]);
      assert prefix <= s <==> s[0] == prefix[0] && prefix[1..] <= s[1..] by {
        assert prefix == [prefix[0]] + prefix[1..] && s == [s[0]] + s[1..];
      }
    }
  }

  // Main result: the generated range selects exactly the texts that start with the prefix, and it is
  // refused only for a prefix that is empty or has an unsupported character.
  lemma {:induction false} PrefixRangeSelectsPrefix(s: Text, prefix: Text)
    ensures PrefixRange(prefix).None? <==> prefix == [] || exists i | 0 <= i < |prefix| :: !Supported(prefix[i])
    ensures PrefixRange(prefix).Some? ==>
      (InRange(s, PrefixRange(prefix).value.0, PrefixRange(prefix).value.1) <==> prefix <= s)
  {
    if prefix != [] && forall i | 0 <= i < |prefix| :: Supported(prefix[i]) {
      assert Supported(prefix[|prefix| - 1]);
      RangeIsPrefix(s, prefix);
    }
  }

  // The hand-written bounds `<run>:unit:` and `<run>:unit;`, for a run id of any characters.
  lemma {:induction false} UnitBoundsSelectUnits(s: Text, run: Text)
    ensures InRange(s, run + Ascii(":unit:"), run + Ascii(":unit;")) <==> run + Ascii(":unit:") <= s
  {
    var prefix := run + Ascii(":unit:");
    assert NextAfter(prefix) == run + Ascii(":unit;");
    RangeIsPrefix(s, prefix);
  }
}
