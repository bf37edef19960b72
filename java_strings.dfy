/**
 * The few `java.lang.String` operations the masking code relies on, stated
 * over `seq<char>`: null-able strings, `split` on one ordinary character,
 * `replace` of a literal, `StringBuilder.append` of null and of a `long`,
 * and the ASCII character classes of `java.util.regex` (`\d`, `\w`).
 */
module JavaStrings {
  import opened Wrappers

  /** A Java `String` reference; `None` is `null`. */
  type NString = Option<string>

  /** `s != null && !s.isEmpty()` */
  predicate NonEmpty(s: NString) {
    s.Some? && s.value != []
  }

  /** What `StringBuilder.append(String)` writes: `null` becomes the text "null". */
  function NullText(s: NString): string {
    if s.None? then "null" else s.value
  }

  /** `\d` without UNICODE_CHARACTER_CLASS. */
  predicate IsDigit(c: char) {
    '0' <= c <= '9'
  }

  /** `\w` (and the word test behind `\b`) without UNICODE_CHARACTER_CLASS. */
  predicate IsWordChar(c: char) {
    'a' <= c <= 'z' || 'A' <= c <= 'Z' || IsDigit(c) || c == '_'
  }

  predicate AllDigits(s: string) {
    forall i | 0 <= i < |s| :: IsDigit(s[i])
  }

  /** The pieces of `s` between occurrences of `sep`, empty pieces included. */
  function Pieces(s: string, sep: char): (r: seq<string>)
    ensures |r| >= 1
  {
    if s == [] then [""]
    else
      var rest := Pieces(s[1..], sep);
      if s[0] == sep then [""] + rest else [[s[0]] + rest[0]] + rest[1..]
  }

  function DropTrailingEmpty(ps: seq<string>): (r: seq<string>)
    ensures |r| <= |ps|
    ensures r == ps[..|r|]
    ensures r != [] ==> r[|r| - 1] != ""
    ensures forall k | |r| <= k < |ps| :: ps[k] == ""
  {
    if ps == [] then []
    else if ps[|ps| - 1] == "" then DropTrailingEmpty(ps[..|ps| - 1])
    else ps
  }

  /**
   * `s.split(String.valueOf(sep))` for a character that is not a regex
   * metacharacter: when `sep` does not occur the result is `[s]`; otherwise
   * the pieces, with trailing empty pieces removed.
   */
  function Split(s: string, sep: char): seq<string> {
    if sep !in s then [s] else DropTrailingEmpty(Pieces(s, sep))
  }

  lemma {:induction false} PiecesWithoutSeparator(s: string, sep: char)
    requires sep !in s
    ensures Pieces(s, sep) == [s]
  {
    if s != [] {
      PiecesWithoutSeparator(s[1..], sep);
      assert s[0] != sep;
      assert [s[0]] + s[1..] == s;
    }
  }

  lemma {:induction false} PiecesAfterFirstSeparator(l: string, sep: char, d: string)
    requires sep !in l
    ensures Pieces(l + [sep] + d, sep) == [l] + Pieces(d, sep)
  {
    if l == [] {
      assert l + [sep] + d == [sep] + d;
      assert ([sep] + d)[1..] == d;
    } else {
      assert (l + [sep] + d)[1..] == l[1..] + [sep] + d;
      PiecesAfterFirstSeparator(l[1..], sep, d);
      assert [l[0]] + l[1..] == l;
    }
  }

  /** The first piece is the text before the first separator. */
  lemma {:induction false} FirstPieceBeforeSeparator(s: string, sep: char)
    requires sep in s
    ensures var p := Pieces(s, sep)[0];
            sep !in p && |p| < |s| && s[..|p| + 1] == p + [sep]
  {
    if s[0] != sep {
      assert sep in s[1..] by {
        var i :| 0 <= i < |s| && s[i] == sep;
        assert s[1..][i - 1] == sep;
      }
      FirstPieceBeforeSeparator(s[1..], sep);
      var q := Pieces(s[1..], sep)[0];
      assert s[..|q| + 2] == [s[0]] + s[1..][..|q| + 1];
    }
  }

  /**
   * When `s` contains `sep` and `split` keeps at least one piece, the
   * first piece is the text before the first `sep`.
   */
  lemma SplitFirstPiece(s: string, sep: char)
    requires sep in s && |Split(s, sep)| >= 1
    ensures var p := Split(s, sep)[0];
            sep !in p && |p| < |s| && s[..|p| + 1] == p + [sep]
  {
    FirstPieceBeforeSeparator(s, sep);
  }

  /** Splitting `l + sep + d` with one separator and a non-empty tail gives `[l, d]`. */
  lemma SplitOnce(l: string, sep: char, d: string)
    requires sep !in l && sep !in d && d != []
    ensures Split(l + [sep] + d, sep) == [l, d]
  {
    var s := l + [sep] + d;
    assert s[|l|] == sep;
    PiecesAfterFirstSeparator(l, sep, d);
    PiecesWithoutSeparator(d, sep);
    assert Pieces(s, sep) == [l, d];
  }

  /**
   * `s.replace(target, replacement)`: every non-overlapping occurrence of
   * `target`, scanning left to right, is replaced.
   */
  function Replace(s: string, target: string, replacement: string): string
    requires target != []
    decreases |s|
  {
    if |s| < |target| then s
    else if s[..|target|] == target then replacement + Replace(s[|target|..], target, replacement)
    else [s[0]] + Replace(s[1..], target, replacement)
  }

  /** `s` with every occurrence of the character `c` replaced by `rep`. */
  function SubstChar(s: string, c: char, rep: string): (r: string)
    ensures s == [] ==> r == []
  {
    if s == [] then [] else (if s[0] == c then rep else [s[0]]) + SubstChar(s[1..], c, rep)
  }

  lemma {:induction false} ReplaceOneChar(s: string, c: char, rep: string)
    ensures Replace(s, [c], rep) == SubstChar(s, c, rep)
  {
    if s != [] {
      ReplaceOneChar(s[1..], c, rep);
      if s[0] == c {
        assert s[..1] == [c];
      } else {
        assert s[..1] != [c];
      }
    }
  }

  lemma {:induction false} SubstCharAppend(a: string, b: string, c: char, rep: string)
    ensures SubstChar(a + b, c, rep) == SubstChar(a, c, rep) + SubstChar(b, c, rep)
  {
    if a != [] {
      assert (a + b)[1..] == a[1..] + b;
      SubstCharAppend(a[1..], b, c, rep);
    } else {
      assert a + b == b;
    }
  }

  function DigitChar(d: nat): char
    requires d < 10
  {
    "0123456789"[d]
  }

  function NatText(n: nat): (r: string)
    ensures r != [] && AllDigits(r)
  {
    if n < 10 then [DigitChar(n)] else NatText(n / 10) + [DigitChar(n % 10)]
  }

  /** `Long.toString(n)` / `StringBuilder.append(long)`. */
  function DecimalText(n: int): (r: string)
    ensures r != []
    ensures n >= 0 ==> AllDigits(r)
    ensures n < 0 ==> r[0] == '-' && AllDigits(r[1..])
  {
    if n < 0 then "-" + NatText(-n) else NatText(n)
  }
}
