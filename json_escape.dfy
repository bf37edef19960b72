/**
 * The payload builder's string escaping: five chained `replace` calls
 * (backslash first, then quote, line feed, carriage return and tab). This
 * is only part of the escaping required by section 7 of RFC 8259: other
 * control characters pass through unchanged.
 */
module JsonEscape {
  import opened Wrappers
  import opened JavaStrings

  /** `escape(value)`: null becomes "", otherwise the five replacements in order. */
  function Escape(value: NString): string {
    if value.None? then ""
    else
      var s1 := Replace(value.value, "\\", "\\\\");
      var s2 := Replace(s1, "\"", "\\\"");
      var s3 := Replace(s2, "\n", "\\n");
      var s4 := Replace(s3, "\r", "\\r");
      Replace(s4, "\t", "\\t")
  }

  predicate Special(c: char) {
    c == '\\' || c == '"' || c == '\n' || c == '\r' || c == '\t'
  }

  /** The two-character escape of one character, or the character itself. */
  function EscapeChar(c: char): (r: string)
    ensures Special(c) ==> |r| == 2 && r[0] == '\\'
    ensures !Special(c) ==> r == [c]
  {
    if c == '\\' then "\\\\"
    else if c == '"' then "\\\""
    else if c == '\n' then "\\n"
    else if c == '\r' then "\\r"
    else if c == '\t' then "\\t"
    else [c]
  }

  /** Character-by-character escaping: the reference the replace chain is proved against. */
  function EscapeChars(s: string): string
    decreases |s|
  {
    if |s| == 0 then [] else EscapeChar(s[0]) + EscapeChars(s[1..])
  }

  /** The character a two-character escape `\c` stands for. */
  function Unescaped(c: char): Option<char> {
    if c == '\\' then Some('\\')
    else if c == '"' then Some('"')
    else if c == 'n' then Some('\n')
    else if c == 'r' then Some('\r')
    else if c == 't' then Some('\t')
    else None
  }

  /** Decodes the five two-character escapes; anything else is kept. */
  function Unescape(t: string): string
    decreases |t|
  {
    if |t| == 0 then []
    else if t[0] == '\\' && |t| >= 2 && Unescaped(t[1]).Some? then [Unescaped(t[1]).value] + Unescape(t[2..])
    else [t[0]] + Unescape(t[1..])
  }

  function Stage(s: string, k: nat): string
    requires k < 5
  {
    if k == 0 then SubstChar(s, '\\', "\\\\")
    else if k == 1 then SubstChar(s, '"', "\\\"")
    else if k == 2 then SubstChar(s, '\n', "\\n")
    else if k == 3 then SubstChar(s, '\r', "\\r")
    else SubstChar(s, '\t', "\\t")
  }

  function Stages(s: string): string {
    Stage(Stage(Stage(Stage(Stage(s, 0), 1), 2), 3), 4)
  }

  lemma StageAppend(a: string, b: string, k: nat)
    requires k < 5
    ensures Stage(a + b, k) == Stage(a, k) + Stage(b, k)
  {
    if k == 0 {
      SubstCharAppend(a, b, '\\', "\\\\");
    } else if k == 1 {
      SubstCharAppend(a, b, '"', "\\\"");
    } else if k == 2 {
      SubstCharAppend(a, b, '\n', "\\n");
    } else if k == 3 {
      SubstCharAppend(a, b, '\r', "\\r");
    } else {
      SubstCharAppend(a, b, '\t', "\\t");
    }
  }

  lemma StagesAppend(a: string, b: string)
    ensures Stages(a + b) == Stages(a) + Stages(b)
  {
    StageAppend(a, b, 0);
    var a1, b1 := Stage(a, 0), Stage(b, 0);
    StageAppend(a1, b1, 1);
    var a2, b2 := Stage(a1, 1), Stage(b1, 1);
    StageAppend(a2, b2, 2);
    var a3, b3 := Stage(a2, 2), Stage(b2, 2);
    StageAppend(a3, b3, 3);
    var a4, b4 := Stage(a3, 3), Stage(b3, 3);
    StageAppend(a4, b4, 4);
  }

  lemma StagesOfChar(c: char)
    ensures Stages([c]) == EscapeChar(c)
  {
    if c == '\\' {
      assert Stage([c], 0) == "\\\\";
      assert Stage("\\\\", 1) == "\\\\";
      assert Stage("\\\\", 2) == "\\\\";
      assert Stage("\\\\", 3) == "\\\\";
      assert Stage("\\\\", 4) == "\\\\";
    } else if c == '"' {
      assert Stage([c], 0) == [c];
      assert Stage([c], 1) == "\\\"";
      assert Stage("\\\"", 2) == "\\\"";
      assert Stage("\\\"", 3) == "\\\"";
      assert Stage("\\\"", 4) == "\\\"";
    } else if c == '\n' {
      assert Stage([c], 0) == [c] && Stage([c], 1) == [c];
      assert Stage([c], 2) == "\\n";
      assert Stage("\\n", 3) == "\\n";
      assert Stage("\\n", 4) == "\\n";
    } else if c == '\r' {
      assert Stage([c], 0) == [c] && Stage([c], 1) == [c] && Stage([c], 2) == [c];
      assert Stage([c], 3) == "\\r";
      assert Stage("\\r", 4) == "\\r";
    } else if c == '\t' {
      assert Stage([c], 0) == [c] && Stage([c], 1) == [c] && Stage([c], 2) == [c] && Stage([c], 3) == [c];
      assert Stage([c], 4) == "\\t";
    } else {
      assert Stage([c], 0) == [c] && Stage([c], 1) == [c] && Stage([c], 2) == [c] && Stage([c], 3) == [c];
      assert Stage([c], 4) == [c];
    }
  }

  lemma {:induction false} StagesArePerChar(s: string)
    ensures Stages(s) == EscapeChars(s)
    decreases |s|
  {
    if |s| == 0 {
      assert Stage([], 0) == [] && Stage([], 1) == [] && Stage([], 2) == [] && Stage([], 3) == [] && Stage([], 4) == [];
    } else {
      assert s == [s[0]] + s[1..];
      StagesAppend([s[0]], s[1..]);
      StagesOfChar(s[0]);
      StagesArePerChar(s[1..]);
    }
  }

  /** The replace chain escapes each character on its own: no replacement is escaped again. */
  lemma EscapeIsPerChar(s: string)
    ensures Escape(Some(s)) == EscapeChars(s)
  {
    var s1 := Replace(s, "\\", "\\\\");
    assert s1 == Stage(s, 0) by { ReplaceOneChar(s, '\\', "\\\\"); }
    var s2 := Replace(s1, "\"", "\\\"");
    assert s2 == Stage(s1, 1) by { ReplaceOneChar(s1, '"', "\\\""); }
    var s3 := Replace(s2, "\n", "\\n");
    assert s3 == Stage(s2, 2) by { ReplaceOneChar(s2, '\n', "\\n"); }
    var s4 := Replace(s3, "\r", "\\r");
    assert s4 == Stage(s3, 3) by { ReplaceOneChar(s3, '\r', "\\r"); }
    var s5 := Replace(s4, "\t", "\\t");
    assert s5 == Stage(s4, 4) by { ReplaceOneChar(s4, '\t', "\\t"); }
    assert Escape(Some(s)) == s5;
    StagesArePerChar(s);
  }

  lemma {:induction false} UnescapeEscapeChars(s: string)
    ensures Unescape(EscapeChars(s)) == s
    decreases |s|
  {
    if |s| > 0 {
      var c := s[0];
      var rest := EscapeChars(s[1..]);
      UnescapeEscapeChars(s[1..]);
      var t := EscapeChar(c) + rest;
      if Special(c) {
        assert t[0] == '\\' && t[2..] == rest;
        assert Unescaped(t[1]) == Some(c);
      } else {
        assert t[1..] == rest;
      }
      assert s == [c] + s[1..];
    }
  }

  /** Decoding the five two-character escapes gives back the original text. */
  lemma EscapeRoundTrip(s: string)
    ensures Unescape(Escape(Some(s))) == s
  {
    EscapeIsPerChar(s);
    UnescapeEscapeChars(s);
  }

  /** Different texts escape differently. */
  lemma EscapeInjective(a: string, b: string)
    requires Escape(Some(a)) == Escape(Some(b))
    ensures a == b
  {
    EscapeRoundTrip(a);
    EscapeRoundTrip(b);
  }

  lemma {:induction false} EscapeCharsNoRawControl(s: string)
    ensures forall i | 0 <= i < |EscapeChars(s)| :: EscapeChars(s)[i] != '\n' && EscapeChars(s)[i] != '\r' && EscapeChars(s)[i] != '\t'
    decreases |s|
  {
    if |s| > 0 {
      EscapeCharsNoRawControl(s[1..]);
    }
  }

  /** Null escapes to the empty text; no raw line feed, carriage return or tab survives escaping. */
  lemma EscapeHasNoRawControl(s: NString)
    ensures s.None? ==> Escape(s) == ""
    ensures '\n' !in Escape(s) && '\r' !in Escape(s) && '\t' !in Escape(s)
  {
    if s.Some? {
      EscapeIsPerChar(s.value);
      EscapeCharsNoRawControl(s.value);
    }
  }

  lemma {:induction false} EscapeCharsPlain(s: string)
    requires forall i | 0 <= i < |s| :: !Special(s[i])
    ensures EscapeChars(s) == s
    decreases |s|
  {
    if |s| > 0 {
      EscapeCharsPlain(s[1..]);
      assert s == [s[0]] + s[1..];
    }
  }

  /** Text without any of the five characters is emitted as it is. */
  lemma EscapePlain(s: string)
    requires forall i | 0 <= i < |s| :: !Special(s[i])
    ensures Escape(Some(s)) == s
  {
    EscapeIsPerChar(s);
    EscapeCharsPlain(s);
  }

  /**
   * Control characters other than line feed, carriage return and tab are
   * not escaped: the form feed, for one, is written as it is.
   */
  lemma FormFeedPassesThrough()
    ensures Escape(Some("a\U{C}b")) == "a\U{C}b"
  {
    var s := "a\U{C}b";
    assert forall i | 0 <= i < |s| :: !Special(s[i]);
    EscapePlain(s);
  }
}
