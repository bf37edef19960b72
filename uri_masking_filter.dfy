/**
 * The servlet filter's URI masking: four stages, each searching the URI
 * once for its pattern and, on a match, replacing every literal occurrence
 * of the matched segment with its masked form.
 *
 *   DNI    /dni/([0-9]{8})(?:/|$|\?)
 *   email  /email/([^/]+@[^/]+)
 *   phone  /phone/([0-9]{9,10})(?:/|$|\?)
 *   id     /id/([0-9]{8,})(?:/|$|\?)   masked only when exactly 8 digits
 *
 * The patterns are written out as matchers with `java.util.regex`'s
 * leftmost, backtracking semantics; `$` is the end of the URI or the
 * position just before a final line terminator.
 */
module UriMasking {
  import opened Wrappers
  import opened JavaStrings
  import opened MaskingStrategies
  import opened DetectionPatterns

  datatype Segment = DniSegment | EmailSegment | PhoneSegment | IdSegment

  function Prefix(k: Segment): string {
    match k
    case DniSegment => "/dni/"
    case EmailSegment => "/email/"
    case PhoneSegment => "/phone/"
    case IdSegment => "/id/"
  }

  /** A line terminator of `java.util.regex` without UNIX_LINES. */
  predicate LineTerminator(c: char) {
    c == '\n' || c == '\r' || c == '\U{85}' || c == '\U{2028}' || c == '\U{2029}'
  }

  /** `$` without MULTILINE: the end of the text, or just before a final line terminator. */
  predicate EndAnchor(s: string, j: nat)
    requires j <= |s|
  {
    j == |s|
    || (j == |s| - 1 && LineTerminator(s[j]) && !(s[j] == '\n' && j > 0 && s[j - 1] == '\r'))
    || (j == |s| - 2 && s[j] == '\r' && s[j + 1] == '\n')
  }

  /** `(?:/|$|\?)` at position `j`. */
  predicate Terminator(s: string, j: nat)
    requires j <= |s|
  {
    (j < |s| && (s[j] == '/' || s[j] == '?')) || EndAnchor(s, j)
  }

  predicate PrefixAt(s: string, i: nat, p: string) {
    i + |p| <= |s| && s[i..i + |p|] == p
  }

  /** Whether a digit run of length `n` fits the stage's repetition. */
  predicate DigitsFit(k: Segment, n: nat) {
    match k
    case DniSegment => n == 8
    case PhoneSegment => 9 <= n <= 10
    case IdSegment => n >= 8
    case EmailSegment => false
  }

  /**
   * The digits group starting at `j`: a greedy repetition followed by the
   * terminator can only end where the digit run ends.
   */
  function DigitGroupAt(k: Segment, s: string, j: nat): (r: Option<string>)
    requires j <= |s|
    ensures r.Some? ==> AllDigits(r.value) && DigitsFit(k, |r.value|)
  {
    var n := RunLength(s, j, Digits);
    if DigitsFit(k, n) && Terminator(s, j + n) then Some(s[j..j + n]) else None
  }

  /**
   * The email group starting at `j`: the first `[^/]+` backtracks to an '@'
   * with at least one character on each side, and the second `[^/]+` takes
   * the rest of the run, so the group is the whole run of non-'/' characters.
   */
  function EmailGroupAt(s: string, j: nat): (r: Option<string>)
    requires j <= |s|
    ensures r.Some? ==> '@' in r.value && '/' !in r.value
  {
    var n := RunLength(s, j, NotSlash);
    if n >= 3 && '@' in s[j + 1..j + n - 1] then Some(s[j..j + n]) else None
  }

  /** The captured group of the stage's pattern when a match starts at `i`. */
  function GroupAt(k: Segment, s: string, i: nat): (r: Option<string>)
    requires i <= |s|
    ensures r.Some? ==> PrefixAt(s, i, Prefix(k))
  {
    if !PrefixAt(s, i, Prefix(k)) then None
    else if k == EmailSegment then EmailGroupAt(s, i + |Prefix(k)|)
    else DigitGroupAt(k, s, i + |Prefix(k)|)
  }

  /** `find()` once: where the leftmost match starts. */
  function FindSegment(k: Segment, s: string, from: nat): (r: Option<nat>)
    requires from <= |s|
    ensures r.Some? ==> from <= r.value <= |s| && GroupAt(k, s, r.value).Some?
    ensures r.Some? ==> forall j | from <= j < r.value :: GroupAt(k, s, j).None?
    ensures r.None? ==> forall j | from <= j <= |s| :: GroupAt(k, s, j).None?
    decreases |s| - from
  {
    if GroupAt(k, s, from).Some? then Some(from)
    else if from == |s| then None
    else FindSegment(k, s, from + 1)
  }

  /** The masked form of a captured group. */
  function MaskGroup(k: Segment, g: string): Result<string> {
    match k
    case DniSegment => if |g| >= 8 then Ok(g[..2] + MASK + g[6..]) else Ok(g)
    case EmailSegment => if EmailDefined(g) then Ok(Email(g)) else Thrown("ArrayIndexOutOfBoundsException")
    case PhoneSegment => if |g| >= 3 then Ok(MASK + g[|g| - 3..]) else Ok(g)
    case IdSegment => if |g| == 8 then Ok(g[..2] + MASK + g[6..]) else Ok(g)
  }

  /** The group the stage rewrites: the first match's, except an id that is not exactly 8 digits. */
  function StageGroup(k: Segment, s: string): (r: Option<string>)
    ensures FindSegment(k, s, 0).None? ==> r.None?
    ensures r.Some? ==> exists i | 0 <= i <= |s| :: GroupAt(k, s, i) == r
  {
    match FindSegment(k, s, 0)
    case None => None
    case Some(i) =>
      var g := GroupAt(k, s, i).value;
      if k == IdSegment && |g| != 8 then None else Some(g)
  }

  /** One stage: unchanged without a match; otherwise `replace` of the segment by its masked form. */
  function Stage(k: Segment, s: string): (r: Result<string>)
    ensures StageGroup(k, s).None? ==> r == Ok(s)
  {
    match StageGroup(k, s)
    case None => Ok(s)
    case Some(g) =>
      match MaskGroup(k, g)
      case Thrown(e) => Thrown(e)
      case Ok(m) => Ok(Replace(s, Prefix(k) + g, Prefix(k) + m))
  }

  /** `maskUri`: null stays null; otherwise the DNI, email, phone and id stages in turn. */
  function MaskUri(uri: NString): (r: Result<NString>)
    ensures uri.None? ==> r == Ok(None)
  {
    if uri.None? then Ok(None)
    else
      match Stage(DniSegment, uri.value)
      case Thrown(e) => Thrown(e)
      case Ok(s1) =>
        match Stage(EmailSegment, s1)
        case Thrown(e) => Thrown(e)
        case Ok(s2) =>
          match Stage(PhoneSegment, s2)
          case Thrown(e) => Thrown(e)
          case Ok(s3) =>
            match Stage(IdSegment, s3)
            case Thrown(e) => Thrown(e)
            case Ok(s4) => Ok(Some(s4))
  }

  // ---------------------------------------------------------------------
  // The email stage with the domain taken from `split("@", -1)`

  /**
   * The masked form of a group when the email's pieces keep their trailing
   * empty ones, so that a second piece exists whenever there is an '@'.
   */
  function CorrectedMaskGroup(k: Segment, g: string): string {
    match k
    case EmailSegment =>
      if '@' !in g then MASK
      else
        var parts := Pieces(g, '@');
        assert |parts| >= 2 by { PiecesOfAt(g); }
        EmailFromParts(parts[0], parts[1])
    case _ => MaskGroup(k, g).value
  }

  /** A text with an '@' splits into at least two pieces when no piece is dropped. */
  lemma {:induction false} PiecesOfAt(g: string)
    requires '@' in g
    ensures |Pieces(g, '@')| >= 2
  {
    if g[0] != '@' {
      PiecesOfAt(g[1..]);
    }
  }

  function CorrectedStage(k: Segment, s: string): string {
    match StageGroup(k, s)
    case None => s
    case Some(g) => Replace(s, Prefix(k) + g, Prefix(k) + CorrectedMaskGroup(k, g))
  }

  /** `maskUri` with the corrected email stage: it never throws. */
  function CorrectedMaskUri(uri: NString): (r: NString)
    ensures uri.None? <==> r.None?
  {
    if uri.None? then None
    else
      var s1 := CorrectedStage(DniSegment, uri.value);
      var s2 := CorrectedStage(EmailSegment, s1);
      var s3 := CorrectedStage(PhoneSegment, s2);
      Some(CorrectedStage(IdSegment, s3))
  }

  /** Where a group's mask does not throw, the corrected one is the same. */
  lemma CorrectedMaskGroupAgrees(k: Segment, g: string)
    requires MaskGroup(k, g).Ok?
    ensures CorrectedMaskGroup(k, g) == MaskGroup(k, g).value
  {
    if k == EmailSegment && '@' in g {
      var parts := Split(g, '@');
      assert parts == Pieces(g, '@')[..|parts|];
    }
  }

  lemma CorrectedStageAgrees(k: Segment, s: string)
    requires Stage(k, s).Ok?
    ensures CorrectedStage(k, s) == Stage(k, s).value
  {
    if StageGroup(k, s).Some? {
      CorrectedMaskGroupAgrees(k, StageGroup(k, s).value);
    }
  }

  /** On every URI where the code as written returns, the corrected masking returns the same. */
  lemma CorrectedMaskUriAgrees(uri: NString)
    requires MaskUri(uri).Ok?
    ensures CorrectedMaskUri(uri) == MaskUri(uri).value
  {
    if uri.Some? {
      CorrectedStageAgrees(DniSegment, uri.value);
      var s1 := Stage(DniSegment, uri.value).value;
      CorrectedStageAgrees(EmailSegment, s1);
      var s2 := Stage(EmailSegment, s1).value;
      CorrectedStageAgrees(PhoneSegment, s2);
      var s3 := Stage(PhoneSegment, s2).value;
      CorrectedStageAgrees(IdSegment, s3);
    }
  }

  /**
   * As written, an email segment ending in "@@" passes the pattern but
   * `split("@")` leaves one piece, and `parts[1]` throws.
   */
  lemma EmailSegmentThrows()
    ensures MaskUri(Some("/email/x@@")).Thrown?
    ensures CorrectedMaskUri(Some("/email/x@@")) == Some("/email/***@")
  {
    ExampleAsWritten("/email/x@@");
    ExampleCorrected("/email/x@@");
  }

  lemma ExampleAsWritten(s: string)
    requires s == "/email/x@@"
    ensures MaskUri(Some(s)).Thrown?
  {
    NoPrefixWithout(s, "/dni/", 1);
    NoPrefixNoMatch(DniSegment, s);
    ExampleEmailGroup(s);
    ExampleEmailUndefined("x@@");
  }

  lemma ExampleCorrected(s: string)
    requires s == "/email/x@@"
    ensures CorrectedMaskUri(Some(s)) == Some("/email/***@")
  {
    NoPrefixWithout(s, "/dni/", 1);
    NoPrefixNoMatch(DniSegment, s);
    ExampleEmailCorrected(s);
    ExampleRestUnchanged("/email/***@");
  }

  lemma ExampleRestUnchanged(t: string)
    requires t == "/email/***@"
    ensures CorrectedStage(PhoneSegment, t) == t && CorrectedStage(IdSegment, t) == t
  {
    NoPrefixWithout(t, "/phone/", 1);
    NoPrefixWithout(t, "/id/", 2);
    NoPrefixNoMatch(PhoneSegment, t);
    NoPrefixNoMatch(IdSegment, t);
  }

  lemma ExampleEmailGroup(s: string)
    requires s == "/email/x@@"
    ensures StageGroup(EmailSegment, s) == Some("x@@")
  {
    assert PrefixAt(s, 0, "/email/");
    assert RunLength(s, 7, NotSlash) == 3;
    assert s[8..9] == "@";
    assert FindSegment(EmailSegment, s, 0) == Some(0);
    assert s[7..10] == "x@@";
    assert GroupAt(EmailSegment, s, 0) == Some("x@@");
  }

  lemma ExampleEmailCorrected(s: string)
    requires s == "/email/x@@"
    ensures CorrectedStage(EmailSegment, s) == "/email/***@"
  {
    ExampleEmailGroup(s);
    var g := StageGroup(EmailSegment, s).value;
    ExampleMaskedGroup(g);
    var rep := Prefix(EmailSegment) + "***@";
    assert Prefix(EmailSegment) + g == s;
    ReplaceWhole(s, rep);
  }

  lemma ExampleMaskedGroup(g: string)
    requires g == "x@@"
    ensures CorrectedMaskGroup(EmailSegment, g) == "***@"
  {
    ExampleEmailPieces(g);
    assert EmailFromParts("x", "") == "***@";
  }

  lemma ExampleEmailPieces(g: string)
    requires g == "x@@"
    ensures Pieces(g, '@') == ["x", "", ""]
  {
    var a := g[1..];
    var b := a[1..];
    assert a == "@@" && b == "@" && b[1..] == "";
    assert Pieces(b[1..], '@') == [""];
    assert Pieces(b, '@') == ["", ""];
    assert Pieces(a, '@') == ["", "", ""];
    assert g[0] == 'x' && [g[0]] + "" == "x";
  }

  lemma ExampleEmailUndefined(g: string)
    requires g == "x@@"
    ensures !EmailDefined(g)
  {
    ExampleEmailPieces(g);
    assert g[1] == '@';
    assert DropTrailingEmpty(["x", "", ""]) == ["x"] by {
      assert ["x", "", ""][..2] == ["x", ""];
      assert ["x", ""][..1] == ["x"];
    }
  }

  /** A text missing one character of a prefix holds no occurrence of it. */
  lemma NoPrefixWithout(s: string, p: string, j: nat)
    requires j < |p| && p[j] !in s
    ensures forall i | 0 <= i <= |s| :: !PrefixAt(s, i, p)
  {
    forall i | 0 <= i <= |s|
      ensures !PrefixAt(s, i, p)
    {
      PrefixChars(s, i, p);
    }
  }

  lemma PrefixChars(s: string, i: nat, p: string)
    ensures PrefixAt(s, i, p) ==> forall j | 0 <= j < |p| :: s[i + j] == p[j]
  {
    if PrefixAt(s, i, p) {
      forall j | 0 <= j < |p|
        ensures s[i + j] == p[j]
      {
        assert s[i..i + |p|][j] == s[i + j];
      }
    }
  }

  /** A text where the stage's prefix never occurs has no match of its pattern. */
  lemma NoPrefixNoMatch(k: Segment, s: string)
    requires forall i | 0 <= i <= |s| :: !PrefixAt(s, i, Prefix(k))
    ensures Stage(k, s) == Ok(s) && CorrectedStage(k, s) == s
  {
  }

  /** A URI with none of the four segment prefixes comes back unchanged. */
  lemma UriWithoutSegmentsUnchanged(uri: string)
    requires forall k: Segment, i | 0 <= i <= |uri| :: !PrefixAt(uri, i, Prefix(k))
    ensures MaskUri(Some(uri)) == Ok(Some(uri))
  {
    NoPrefixNoMatch(DniSegment, uri);
    NoPrefixNoMatch(EmailSegment, uri);
    NoPrefixNoMatch(PhoneSegment, uri);
    NoPrefixNoMatch(IdSegment, uri);
  }

  /** A URI that opens with a DNI segment: the stage matches it there and replaces it throughout. */
  lemma DniStageAtStart(d: string, rest: string)
    requires |d| == 8 && AllDigits(d)
    requires rest == [] || rest[0] == '/' || rest[0] == '?'
    ensures Stage(DniSegment, "/dni/" + d + rest) ==
            Ok(Replace("/dni/" + d + rest, "/dni/" + d, "/dni/" + (d[..2] + MASK + d[6..])))
  {
    var s := "/dni/" + d + rest;
    assert s[..5] == "/dni/";
    assert PrefixAt(s, 0, "/dni/");
    assert forall j | 5 <= j < 13 :: s[j] == d[j - 5];
    if rest != [] {
      assert s[13] == rest[0];
      RunStopsAt(s, 5, 13, Digits);
    }
    assert RunLength(s, 5, Digits) == 8;
    assert Terminator(s, 13);
    assert s[5..13] == d;
    assert FindSegment(DniSegment, s, 0) == Some(0);
  }

  /** A lone DNI segment is masked to its first two and last two digits. */
  lemma DniSegmentMasked(d: string)
    requires |d| == 8 && AllDigits(d)
    ensures Stage(DniSegment, "/dni/" + d) == Ok("/dni/" + (d[..2] + MASK + d[6..]))
  {
    DniStageAtStart(d, "");
    assert "/dni/" + d + "" == "/dni/" + d;
    ReplaceWhole("/dni/" + d, "/dni/" + (d[..2] + MASK + d[6..]));
  }

  /** `replace` on a text that opens with the target: the replacement, then the rest replaced. */
  lemma ReplaceAtStart(target: string, rest: string, replacement: string)
    requires target != []
    ensures Replace(target + rest, target, replacement) == replacement + Replace(rest, target, replacement)
  {
    var s := target + rest;
    assert s[..|target|] == target && s[|target|..] == rest;
  }

  lemma ReplaceWhole(s: string, replacement: string)
    requires s != []
    ensures Replace(s, s, replacement) == replacement
  {
    assert s[..|s|] == s && s[|s|..] == [];
  }

  /** A text as long as the target but different from it is left as it is. */
  lemma ReplaceSameLengthOther(target: string, s: string, replacement: string)
    requires target != [] && |s| == |target| && s != target
    ensures Replace(s, target, replacement) == s
  {
    assert s[..|target|] == s;
    assert [s[0]] + s[1..] == s;
  }

  /**
   * `replace` rewrites every literal occurrence of the matched segment,
   * also one the pattern itself rejects: here the start of a longer digit run.
   */
  lemma ReplaceReachesUnmatchedSegment(d: string, x: char)
    requires |d| == 8 && AllDigits(d) && IsDigit(x)
    ensures var m := d[..2] + MASK + d[6..];
            Stage(DniSegment, "/dni/" + d + ("/dni/" + d + [x])) == Ok("/dni/" + m + ("/dni/" + m + [x]))
  {
    var target := "/dni/" + d;
    var m := "/dni/" + (d[..2] + MASK + d[6..]);
    var rest := "/dni/" + d + [x];
    DniStageAtStart(d, rest);
    ReplaceAtStart(target, rest, m);
    ReplaceAtStart(target, [x], m);
    assert rest == target + [x];
    assert Replace([x], target, m) == [x];
  }

  /** Each stage searches once: of two different DNI segments only the first is masked. */
  lemma OnlyFirstValueMasked(d1: string, d2: string)
    requires |d1| == 8 && AllDigits(d1) && |d2| == 8 && AllDigits(d2) && d1 != d2
    ensures Stage(DniSegment, "/dni/" + d1 + ("/dni/" + d2)) == Ok("/dni/" + (d1[..2] + MASK + d1[6..]) + ("/dni/" + d2))
  {
    var target := "/dni/" + d1;
    var m := "/dni/" + (d1[..2] + MASK + d1[6..]);
    var rest := "/dni/" + d2;
    DniStageAtStart(d1, rest);
    ReplaceAtStart(target, rest, m);
    assert rest != target by {
      assert rest[5..] == d2 && target[5..] == d1;
    }
    ReplaceSameLengthOther(target, rest, m);
  }

  /** An id longer than 8 digits matches the id pattern but is left as it is. */
  lemma LongIdUnchanged(d: string)
    requires |d| > 8 && AllDigits(d)
    ensures Stage(IdSegment, "/id/" + d) == Ok("/id/" + d)
  {
    var s := "/id/" + d;
    assert s[..4] == "/id/";
    assert PrefixAt(s, 0, "/id/");
    assert forall j | 4 <= j < |s| :: s[j] == d[j - 4];
    assert RunLength(s, 4, Digits) == |d|;
    assert FindSegment(IdSegment, s, 0) == Some(0);
    assert s[4..|s|] == d;
    assert GroupAt(IdSegment, s, 0) == Some(d);
  }
}
