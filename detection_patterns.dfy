/**
 * The detection patterns of the masking rules, written as deterministic
 * matchers with the leftmost, backtracking semantics of `java.util.regex`
 * (`Matcher.find`), instead of a general regular-expression engine:
 *
 *   WordDigits(n, m)  is  \b\d{n,m}\b
 *   EmailAddress      is  \b[A-Za-z0-9._%+-]+@[A-Za-z0-9.-]+\.[A-Z|a-z]{2,}\b
 *
 * `\b` and `\d` are the ASCII classes (no UNICODE_CHARACTER_CLASS flag).
 * Each greedy repetition is tried from its longest length down, as the
 * regex engine backtracks.
 */
module DetectionPatterns {
  import opened Wrappers
  import opened JavaStrings

  /** A repetition count of at least one. */
  type Count = n: nat | n >= 1 witness 1

  datatype Pattern =
    | WordDigits(min: Count, max: Count)
    | EmailAddress

  /** A match: the text from `start` (inclusive) to `end` (exclusive). */
  datatype Span = Span(start: nat, end: nat)

  predicate WordAt(s: string, i: int) {
    0 <= i < |s| && IsWordChar(s[i])
  }

  /** `\b` at position `i`: a word character on exactly one side. */
  predicate Boundary(s: string, i: int) {
    WordAt(s, i - 1) != WordAt(s, i)
  }

  predicate IsLetter(c: char) {
    'a' <= c <= 'z' || 'A' <= c <= 'Z'
  }

  /** The character classes used by the patterns. */
  datatype CharClass =
    | Digits      // \d, [0-9]
    | LocalPart   // [A-Za-z0-9._%+-]
    | DomainPart  // [A-Za-z0-9.-]
    | TopLevel    // [A-Z|a-z], where '|' is a literal member
    | NotSlash    // [^/]

  predicate InClass(c: char, k: CharClass) {
    match k
    case Digits => IsDigit(c)
    case LocalPart => IsLetter(c) || IsDigit(c) || c == '.' || c == '_' || c == '%' || c == '+' || c == '-'
    case DomainPart => IsLetter(c) || IsDigit(c) || c == '.' || c == '-'
    case TopLevel => IsLetter(c) || c == '|'
    case NotSlash => c != '/'
  }

  /** The length of the longest run of class `k` starting at `i`. */
  function RunLength(s: string, i: nat, k: CharClass): (n: nat)
    requires i <= |s|
    ensures i + n <= |s|
    ensures forall j | i <= j < i + n :: InClass(s[j], k)
    ensures i + n < |s| ==> !InClass(s[i + n], k)
    decreases |s| - i
  {
    if i < |s| && InClass(s[i], k) then 1 + RunLength(s, i + 1, k) else 0
  }

  function Min(a: nat, b: nat): nat {
    if a <= b then a else b
  }

  /** A match of EmailAddress: one '@' with at least one character on each side. */
  predicate EmailShaped(m: string) {
    exists k | 0 < k < |m| - 1 :: m[k] == '@' && '@' !in m[..k] && '@' !in m[k + 1..]
  }

  /** What any match of `p` looks like. */
  predicate Shaped(p: Pattern, m: string) {
    match p
    case WordDigits(min, max) => min <= |m| <= max && AllDigits(m)
    case EmailAddress => EmailShaped(m)
  }

  /** `\d{len}` then `\b`, backtracking from `len` down to `min` digits. */
  function DigitsFrom(s: string, i: nat, len: nat, min: nat): (r: Option<nat>)
    requires i + len <= |s|
    ensures r.Some? ==> 1 <= r.value - i && min <= r.value - i <= len
    decreases len
  {
    if len == 0 || len < min then None
    else if Boundary(s, i + len) then Some(i + len)
    else DigitsFrom(s, i, len - 1, min)
  }

  /** `[A-Z|a-z]{t}` then `\b`, backtracking from `t` down to 2 characters. */
  function TopLevelFrom(s: string, k: nat, t: nat): (r: Option<nat>)
    requires k + t <= |s|
    ensures r.Some? ==> k + 2 <= r.value <= k + t
    decreases t
  {
    if t < 2 then None
    else if Boundary(s, k + t) then Some(k + t)
    else TopLevelFrom(s, k, t - 1)
  }

  /** `[A-Za-z0-9.-]{d}` then `\.` and the top-level part, backtracking on `d`. */
  function DomainFrom(s: string, j: nat, d: nat): (r: Option<nat>)
    requires j + d <= |s|
    requires forall q | j <= q < j + d :: InClass(s[q], DomainPart)
    ensures r.Some? ==> j + 4 <= r.value <= |s|
    ensures r.Some? ==> forall q | j <= q < r.value :: s[q] != '@'
    decreases d
  {
    if d == 0 then None
    else if j + d < |s| && s[j + d] == '.' then
      var k := j + d + 1;
      var t := RunLength(s, k, TopLevel);
      var r := TopLevelFrom(s, k, t);
      if r.Some? then
        forall q | j <= q < r.value
          ensures s[q] != '@'
        {
          if q < j + d {
            assert InClass(s[q], DomainPart);
          } else if q > j + d {
            assert InClass(s[q], TopLevel);
          }
        }
        r
      else DomainFrom(s, j, d - 1)
    else DomainFrom(s, j, d - 1)
  }

  /** `[A-Za-z0-9._%+-]{l}` then `@` and the domain, backtracking on `l`. */
  function LocalFrom(s: string, i: nat, l: nat): (r: Option<nat>)
    requires i + l <= |s|
    requires forall q | i <= q < i + l :: InClass(s[q], LocalPart)
    ensures r.Some? ==> i < r.value <= |s| && EmailShaped(s[i..r.value])
    decreases l
  {
    if l == 0 then None
    else if i + l < |s| && s[i + l] == '@' then
      var j := i + l + 1;
      var r := DomainFrom(s, j, RunLength(s, j, DomainPart));
      if r.Some? then
        EmailShapedAround(s, i, l, r.value);
        r
      else LocalFrom(s, i, l - 1)
    else LocalFrom(s, i, l - 1)
  }

  lemma EmailShapedAround(s: string, i: nat, l: nat, e: nat)
    requires 0 < l && i + l + 1 < e <= |s| && s[i + l] == '@'
    requires forall q | i <= q < i + l :: InClass(s[q], LocalPart)
    requires forall q | i + l + 1 <= q < e :: s[q] != '@'
    ensures EmailShaped(s[i..e])
  {
    var m := s[i..e];
    assert m[l] == '@';
    assert '@' !in m[..l] by {
      forall q | 0 <= q < l ensures m[..l][q] != '@' {
        assert InClass(s[i + q], LocalPart);
      }
    }
    assert '@' !in m[l + 1..] by {
      forall q | l + 1 <= q < |m| ensures m[q] != '@' {
        assert m[q] == s[i + q];
      }
    }
  }

  /** The end of the match of `p` that starts exactly at `i`, if any. */
  function MatchAt(p: Pattern, s: string, i: nat): (r: Option<nat>)
    requires i <= |s|
    ensures r.Some? ==> i < r.value <= |s| && Shaped(p, s[i..r.value])
  {
    if !Boundary(s, i) then None
    else
      match p
      case WordDigits(min, max) => DigitsFrom(s, i, Min(RunLength(s, i, Digits), max), min)
      case EmailAddress => LocalFrom(s, i, RunLength(s, i, LocalPart))
  }

  /** No match of `p` starts in `[lo, hi)`. */
  predicate Unmatched(p: Pattern, s: string, lo: nat, hi: nat)
    requires hi <= |s| + 1
  {
    forall j | lo <= j < hi :: MatchAt(p, s, j).None?
  }

  /**
   * `Matcher.find()` from position `from`: the leftmost match starting at or
   * after `from`.
   */
  function FindFrom(p: Pattern, s: string, from: nat): (r: Option<Span>)
    requires from <= |s|
    ensures r.Some? ==> from <= r.value.start < r.value.end <= |s|
    ensures r.Some? ==> MatchAt(p, s, r.value.start) == Some(r.value.end)
    ensures r.Some? ==> Unmatched(p, s, from, r.value.start)
    ensures r.None? ==> Unmatched(p, s, from, |s| + 1)
    decreases |s| - from
  {
    match MatchAt(p, s, from)
    case Some(e) => Some(Span(from, e))
    case None => if from == |s| then None else FindFrom(p, s, from + 1)
  }

  /**
   * A digit rule matches exactly a whole run of `min..max` digits with no
   * word character ([A-Za-z0-9_]) right before or right after it; digits
   * glued to letters or to a longer run are never matched.
   */
  lemma {:induction false} DigitMatchExactly(s: string, i: nat, min: Count, max: Count)
    requires i <= |s|
    ensures var run := RunLength(s, i, Digits);
            MatchAt(WordDigits(min, max), s, i) ==
            if !WordAt(s, i - 1) && min <= run <= max && !WordAt(s, i + run) then Some(i + run) else None
  {
    var run := RunLength(s, i, Digits);
    if Boundary(s, i) {
      var len := Min(run, max);
      if len < run {
        DigitsBelowRun(s, i, len, min);
      } else if len > 0 && !Boundary(s, i + len) {
        DigitsBelowRun(s, i, len - 1, min);
      }
    }
  }

  lemma {:induction false} DigitsBelowRun(s: string, i: nat, len: nat, min: nat)
    requires i <= |s| && len < RunLength(s, i, Digits)
    ensures DigitsFrom(s, i, len, min) == None
    decreases len
  {
    if len > 0 && len >= min {
      assert WordAt(s, i + len - 1) && WordAt(s, i + len);
      DigitsBelowRun(s, i, len - 1, min);
    }
  }

  /** A run of digits is no longer than the distance to the first non-digit after it. */
  lemma {:induction false} RunStopsAt(s: string, i: nat, j: nat, k: CharClass)
    requires i <= j < |s| && !InClass(s[j], k)
    ensures RunLength(s, i, k) <= j - i
    decreases |s| - i
  {
    if i < j && InClass(s[i], k) {
      RunStopsAt(s, i + 1, j, k);
    }
  }

  /** Text whose digit runs are all shorter than `min` holds no match of a digit rule. */
  lemma NoDigitMatchInShortRuns(s: string, min: Count, max: Count, from: nat)
    requires from <= |s|
    requires forall i | 0 <= i <= |s| :: RunLength(s, i, Digits) < min
    ensures FindFrom(WordDigits(min, max), s, from) == None
  {
    forall j | from <= j <= |s|
      ensures MatchAt(WordDigits(min, max), s, j).None?
    {
      DigitMatchExactly(s, j, min, max);
    }
  }

  /** Text without '@' holds no match of the email rule. */
  lemma NoEmailWithoutAt(s: string, from: nat)
    requires from <= |s| && '@' !in s
    ensures FindFrom(EmailAddress, s, from) == None
  {
    forall j | from <= j <= |s|
      ensures MatchAt(EmailAddress, s, j).None?
    {
      EmailMatchHasAt(s, j);
    }
  }

  lemma EmailMatchHasAt(s: string, j: nat)
    requires j <= |s|
    ensures MatchAt(EmailAddress, s, j).Some? ==> '@' in s
  {
    var r := MatchAt(EmailAddress, s, j);
    if r.Some? {
      var m := s[j..r.value];
      var k :| 0 < k < |m| - 1 && m[k] == '@';
      assert s[j + k] == '@';
    }
  }
}
