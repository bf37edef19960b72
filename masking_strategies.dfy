/**
 * The masking strategies of the redaction engine: one function per kind of
 * sensitive token, each mapping the matched text to its redacted form.
 * `MaskingStrategy`, the Java functional interface, is the arrow type
 * `string --> string`; it is partial because EMAIL throws
 * (ArrayIndexOutOfBoundsException) when `split("@")` leaves no second piece.
 * The lambdas' `value == null` guards are not modelled: every caller passes
 * the text of a regex match, which is never null.
 */
module MaskingStrategies {
  import opened JavaStrings

  /** The mask token every strategy emits. */
  const MASK: string := "***"

  type MaskingStrategy = string --> string

  /** The mask token starts at index `i` of `r`. */
  predicate MaskAt(r: string, i: nat) {
    i + 3 <= |r| && r[i] == '*' && r[i + 1] == '*' && r[i + 2] == '*'
  }

  /** `r` shows the mask token somewhere. */
  predicate ContainsMask(r: string) {
    exists i: nat | i < |r| :: MaskAt(r, i)
  }

  /** DNI (national id): an 8-character value keeps its first 2 and last 2 characters. */
  function Dni(value: string): (r: string)
    ensures |value| != 8 ==> r == MASK
    ensures |value| == 8 ==> |r| == 7 && r[..2] == value[..2] && r[2..5] == MASK && r[5..] == value[6..]
  {
    if |value| != 8 then MASK else value[..2] + MASK + value[6..]
  }

  /** EMAIL does not throw: no '@', or `split("@")` yields a second piece. */
  predicate EmailDefined(value: string) {
    '@' in value ==> |Split(value, '@')| >= 2
  }

  /** The masked address built from the local part and the domain. */
  function EmailFromParts(local: string, domain: string): (r: string)
    ensures |local| <= 2 ==> |r| == |domain| + 4 && r[..3] == MASK && r[3..] == "@" + domain
    ensures |local| > 2 ==> |r| == |domain| + 5 && r[0] == local[0] && r[1..4] == MASK && r[4..] == "@" + domain
  {
    if |local| <= 2 then MASK + "@" + domain else [local[0]] + MASK + "@" + domain
  }

  /**
   * EMAIL: the local part is the first `split("@")` piece and the domain the
   * second one only.
   */
  function Email(value: string): (r: string)
    requires EmailDefined(value)
    ensures '@' !in value ==> r == MASK
    ensures '@' in value ==>
              var local := Split(value, '@')[0];
              '@' !in local && |local| < |value| && value[..|local| + 1] == local + "@" &&
              (|local| <= 2 ==> r == MASK + "@" + Split(value, '@')[1]) &&
              (|local| > 2 ==> r == [value[0]] + MASK + "@" + Split(value, '@')[1])
  {
    if '@' !in value then MASK
    else
      var parts := Split(value, '@');
      SplitFirstPiece(value, '@');
      EmailFromParts(parts[0], parts[1])
  }

  /** PHONE: any value of at least 4 characters keeps its last 3. */
  function Phone(value: string): (r: string)
    ensures |value| < 4 ==> r == MASK
    ensures |value| >= 4 ==> |r| == 6 && r[..3] == MASK && r[3..] == value[|value| - 3..]
  {
    if |value| < 4 then MASK else MASK + value[|value| - 3..]
  }

  /** CREDIT_CARD: a 16-character value keeps its last 4 characters only. */
  function CreditCard(value: string): (r: string)
    ensures |value| != 16 ==> r == MASK
    ensures |value| == 16 ==> |r| == 7 && r[..3] == MASK && r[3..] == value[12..]
  {
    if |value| != 16 then MASK else MASK + value[12..]
  }

  /** RUC (tax id): an 11-character value keeps its first 3 and last 3 characters. */
  function Ruc(value: string): (r: string)
    ensures |value| != 11 ==> r == MASK
    ensures |value| == 11 ==> |r| == 9 && r[..3] == value[..3] && r[3..6] == MASK && r[6..] == value[8..]
  {
    if |value| != 11 then MASK else value[..3] + MASK + value[8..]
  }

  /** FULL_MASK: every value becomes the bare token. */
  function FullMask(value: string): (r: string)
    ensures r == MASK
  {
    MASK
  }

  /** Every strategy shows the mask token, on every branch and for every input. */
  lemma EveryStrategyShowsMask(value: string)
    ensures ContainsMask(Dni(value)) && ContainsMask(Phone(value))
    ensures ContainsMask(CreditCard(value)) && ContainsMask(Ruc(value))
    ensures ContainsMask(FullMask(value))
    ensures EmailDefined(value) ==> ContainsMask(Email(value))
  {
    assert MaskAt(Dni(value), if |value| == 8 then 2 else 0);
    assert MaskAt(Phone(value), 0);
    assert MaskAt(CreditCard(value), 0);
    assert MaskAt(Ruc(value), if |value| == 11 then 3 else 0);
    assert MaskAt(FullMask(value), 0);
    if EmailDefined(value) {
      if '@' in value {
        var parts := Split(value, '@');
        assert MaskAt(Email(value), if |parts[0]| <= 2 then 0 else 1);
      } else {
        assert MaskAt(Email(value), 0);
      }
    }
  }

  /**
   * On a well-formed address (one '@', a non-empty domain) EMAIL keeps the
   * domain and, for a local part longer than 2, its first character.
   */
  lemma EmailOfAddress(local: string, domain: string)
    requires '@' !in local && '@' !in domain && domain != []
    ensures EmailDefined(local + "@" + domain)
    ensures Email(local + "@" + domain) ==
            if |local| <= 2 then MASK + "@" + domain else [local[0]] + MASK + "@" + domain
  {
    var v := local + "@" + domain;
    assert v[|local|] == '@';
    SplitOnce(local, '@', domain);
  }

  /** EMAIL is undefined (the Java throws) when nothing but '@' follows the first '@'. */
  lemma EmailThrowsOnBareAt(local: string)
    requires '@' !in local
    ensures !EmailDefined(local + "@")
  {
    var v := local + "@";
    assert v[|local|] == '@';
    PiecesAfterFirstSeparator(local, '@', "");
    assert v == local + ['@'] + "";
    assert Pieces(v, '@') == [local, ""];
    assert DropTrailingEmpty([local, ""]) == DropTrailingEmpty([local]);
  }
}
