/**
 * The pattern layout that masks the laid-out line with user-supplied
 * patterns. The patterns are joined into one alternation; each match, the
 * leftmost one, is replaced by a mask chosen from the shape of the matched
 * text, and the search starts again from the beginning of the edited line.
 *
 * The user's patterns are regular expressions and are not interpreted here:
 * the compiled alternation is a `Finder`, a function giving the leftmost
 * match in a text. The rescanning loop stops only when the masked text no
 * longer matches, so it is modelled with a bound on the number of
 * replacements.
 */
module MaskingPatternLayouts {
  import opened Wrappers
  import opened JavaStrings
  import opened MaskingStrategies
  import opened DetectionPatterns
  import opened LogMaskingUtils

  /** `String.join("|", patterns)`. */
  function JoinAlternation(patterns: seq<string>): string
    decreases |patterns|
  {
    if patterns == [] then ""
    else if |patterns| == 1 then patterns[0]
    else patterns[0] + "|" + JoinAlternation(patterns[1..])
  }

  lemma {:induction false} JoinSnoc(patterns: seq<string>, p: string)
    requires patterns != []
    ensures JoinAlternation(patterns + [p]) == JoinAlternation(patterns) + "|" + p
    decreases |patterns|
  {
    if |patterns| > 1 {
      assert (patterns + [p])[1..] == patterns[1..] + [p];
      JoinSnoc(patterns[1..], p);
    } else {
      assert patterns + [p] == [patterns[0], p];
    }
  }

  /**
   * The alternation splits back into the patterns added, when none of them
   * is empty or holds a '|' of its own.
   */
  lemma {:induction false} JoinSplitsBack(patterns: seq<string>)
    requires patterns != []
    requires forall i | 0 <= i < |patterns| :: patterns[i] != [] && '|' !in patterns[i]
    ensures Pieces(JoinAlternation(patterns), '|') == patterns
    decreases |patterns|
  {
    if |patterns| == 1 {
      PiecesWithoutSeparator(patterns[0], '|');
    } else {
      JoinSplitsBack(patterns[1..]);
      PiecesAfterFirstSeparator(patterns[0], '|', JoinAlternation(patterns[1..]));
      assert patterns[0] + "|" + JoinAlternation(patterns[1..]) == patterns[0] + ['|'] + JoinAlternation(patterns[1..]);
      assert [patterns[0]] + patterns[1..] == patterns;
    }
  }

  /** The compiled alternation: the leftmost match in a text, if any. */
  type Finder = string -> Option<Span>

  /** The finder's matches lie within the text searched. */
  ghost predicate Sound(find: Finder) {
    forall s: string :: find(s).Some? ==> find(s).value.start <= find(s).value.end <= |s|
  }

  /**
   * `mask`: chooses the rule from the matched text's shape. The email rule
   * throws when `split("@")` leaves no second piece.
   */
  function LayoutMask(value: string): (r: Result<string>)
    ensures |value| < 4 ==> r == Ok(MASK)
    ensures |value| == 8 && AllDigits(value) ==> r == Ok(value[..2] + MASK + value[6..])
    ensures |value| >= 4 && '@' in value ==>
              r == if EmailDefined(value) then Ok(EmailFromParts(Split(value, '@')[0], Split(value, '@')[1]))
                   else Thrown("ArrayIndexOutOfBoundsException")
    ensures 9 <= |value| <= 10 && AllDigits(value) ==> r == Ok(MASK + value[|value| - 3..])
    ensures |value| == 16 && AllDigits(value) ==> r == Ok(MASK + value[12..])
    ensures |value| >= 4 && '@' !in value && !(AllDigits(value) && |value| in {8, 9, 10, 16}) ==>
              r == Ok(MaskGeneric(Some(value)))
  {
    if |value| < 4 then Ok(MASK)
    else if |value| == 8 && AllDigits(value) then Ok(value[..2] + MASK + value[|value| - 2..])
    else if '@' in value then
      var parts := Split(value, '@');
      if |parts| < 2 then Thrown("ArrayIndexOutOfBoundsException")
      else Ok(EmailFromParts(parts[0], parts[1]))
    else if 9 <= |value| <= 10 && AllDigits(value) then Ok(MASK + value[|value| - 3..])
    else if |value| == 16 && AllDigits(value) then Ok(MASK + value[|value| - 4..])
    else if |value| <= 4 then Ok(MASK)
    else Ok(value[..2] + MASK + value[|value| - 2..])
  }

  /** Every mask the layout produces shows the mask token. */
  lemma LayoutMaskShowsMask(value: string)
    ensures LayoutMask(value).Ok? ==> ContainsMask(LayoutMask(value).value)
  {
    var r := LayoutMask(value);
    if r.Ok? {
      if |value| >= 4 && '@' in value {
        var parts := Split(value, '@');
        assert MaskAt(r.value, if |parts[0]| <= 2 then 0 else 1);
      } else if |value| >= 4 && ((|value| == 8 && AllDigits(value)) || (|value| > 4 && !(AllDigits(value) && |value| in {9, 10, 16}))) {
        assert MaskAt(r.value, 2);
      } else {
        assert MaskAt(r.value, 0);
      }
    }
  }

  /** The rewrite applied to each matched text; the layout uses `LayoutMask`. */
  type Masker = string -> Result<string>

  /**
   * The line after at most `fuel` replacements: `None` when it still
   * matches after that many, `Thrown` when `mask` throws.
   */
  function Rescan(find: Finder, mask: Masker, s: string, fuel: nat): Option<Result<string>>
    requires Sound(find)
    decreases fuel
  {
    match find(s)
    case None => Some(Ok(s))
    case Some(sp) =>
      if fuel == 0 then None
      else
        match mask(s[sp.start..sp.end])
        case Thrown(e) => Some(Thrown(e))
        case Ok(masked) => Rescan(find, mask, s[..sp.start] + masked + s[sp.end..], fuel - 1)
  }

  /** A finished rescan leaves a line in which the alternation matches nothing, whatever the rewrite. */
  lemma {:induction false} RescanLeavesNoMatch(find: Finder, mask: Masker, s: string, fuel: nat)
    requires Sound(find)
    ensures var r := Rescan(find, mask, s, fuel); r.Some? && r.value.Ok? ==> find(r.value.value).None?
    decreases fuel
  {
    var sp := find(s);
    if sp.Some? && fuel > 0 {
      var masked := mask(s[sp.value.start..sp.value.end]);
      if masked.Ok? {
        var next := s[..sp.value.start] + masked.value + s[sp.value.end..];
        assert Rescan(find, mask, s, fuel) == Rescan(find, mask, next, fuel - 1);
        RescanLeavesNoMatch(find, mask, next, fuel - 1);
      }
    }
  }

  /** The bound only cuts the loop short: a rescan that finishes gives the same line with more fuel. */
  lemma {:induction false} RescanFuelMonotone(find: Finder, mask: Masker, s: string, fuel: nat, more: nat)
    requires Sound(find) && fuel <= more
    ensures Rescan(find, mask, s, fuel).Some? ==> Rescan(find, mask, s, more) == Rescan(find, mask, s, fuel)
    decreases fuel
  {
    match find(s)
    case None =>
    case Some(sp) =>
      if fuel > 0 {
        match mask(s[sp.start..sp.end])
        case Thrown(e) =>
        case Ok(masked) => RescanFuelMonotone(find, mask, s[..sp.start] + masked + s[sp.end..], fuel - 1, more - 1);
      }
  }

  /**
   * The `while (matcher.find())` loop of `maskMessage`: the first match is
   * replaced by its rewrite and the whole line searched again from its
   * start, at most `fuel` times.
   */
  method RescanLoop(message: string, find: Finder, mask: Masker, fuel: nat) returns (r: Option<Result<string>>)
    requires Sound(find)
    ensures r == Rescan(find, mask, message, fuel)
  {
    var sb := message;
    var left := fuel;
    var found := find(sb);
    while found.Some?
      invariant found == find(sb)
      invariant Rescan(find, mask, sb, left) == Rescan(find, mask, message, fuel)
      decreases left
    {
      if left == 0 {
        return None;
      }
      var sp := found.value;
      var masked := mask(sb[sp.start..sp.end]);
      if masked.Thrown? {
        return Some(Thrown(masked.exception));
      }
      sb := sb[..sp.start] + masked.value + sb[sp.end..];
      left := left - 1;
      found := find(sb);
    }
    return Some(Ok(sb));
  }

  class MaskingPatternLayout {
    var maskPatterns: seq<string>
    /** The alternation compiled last, null before the first pattern is added. */
    var multiPattern: NString

    /** The alternation is compiled from all the patterns, exactly when there is one. */
    predicate Valid()
      reads this
    {
      (maskPatterns == [] <==> multiPattern.None?)
      && (maskPatterns != [] ==> multiPattern == Some(JoinAlternation(maskPatterns)))
    }

    constructor()
      ensures maskPatterns == [] && multiPattern.None? && Valid()
    {
      maskPatterns := [];
      multiPattern := None;
    }

    /** `addMaskPattern`: appends the pattern and recompiles the alternation of all of them, in order. */
    method AddMaskPattern(maskPattern: string)
      requires Valid()
      modifies this
      ensures maskPatterns == old(maskPatterns) + [maskPattern]
      ensures old(maskPatterns) == [] ==> multiPattern == Some(maskPattern)
      ensures old(maskPatterns) != [] ==> multiPattern == Some(old(multiPattern).value + "|" + maskPattern)
      ensures Valid()
    {
      if maskPatterns != [] {
        JoinSnoc(maskPatterns, maskPattern);
      }
      maskPatterns := maskPatterns + [maskPattern];
      multiPattern := Some(JoinAlternation(maskPatterns));
    }

    /**
     * `maskMessage`; `find` is the compiled `multiPattern` and `fuel` bounds
     * the number of replacements. With no pattern added the line is returned
     * as it is.
     */
    method MaskMessage(message: string, find: Finder, fuel: nat) returns (r: Option<Result<string>>)
      requires Sound(find)
      ensures multiPattern.None? ==> r == Some(Ok(message))
      ensures multiPattern.Some? ==> r == Rescan(find, LayoutMask, message, fuel)
    {
      if multiPattern.None? {
        return Some(Ok(message));
      }
      r := RescanLoop(message, find, LayoutMask, fuel);
    }
  }
}
