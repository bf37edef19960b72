/**
 * The masking chain the older appenders and filters repeat, each with its
 * own copy of the patterns and of the `mask*` helpers: credit card, then
 * phone, DNI and email. The helpers are the masking strategies themselves
 * (same lengths, same pieces kept) and the replacement loop is the one of
 * the masking processor; unlike the default processor the chain has no RUC
 * rule.
 */
module LegacyMasking {
  import opened Wrappers
  import opened JavaStrings
  import opened MaskingStrategies
  import opened DetectionPatterns
  import opened MaskingRules
  import opened MaskingProcessing

  /** card (16 digits), phone (9-10), DNI (8), email, each over the previous output. */
  function LegacyMask(s: string): string {
    DefaultStrategiesAccept();
    var s1 := MaskAll(WordDigits(16, 16), CreditCard, s);
    var s2 := MaskAll(WordDigits(9, 10), Phone, s1);
    var s3 := MaskAll(WordDigits(8, 8), Dni, s2);
    MaskAll(EmailAddress, Email, s3)
  }

  /** `maskMessage`: null stays null; any other text goes through the four `maskPattern` calls. */
  method MaskMessage(message: NString) returns (r: NString)
    ensures message.None? ==> r.None?
    ensures message.Some? ==> r == Some(LegacyMask(message.value))
  {
    if message.None? {
      return message;
    }
    DefaultStrategiesAccept();
    var masked := message.value;
    masked := MaskPattern(masked, WordDigits(16, 16), CreditCard);
    masked := MaskPattern(masked, WordDigits(9, 10), Phone);
    masked := MaskPattern(masked, WordDigits(8, 8), Dni);
    masked := MaskPattern(masked, EmailAddress, Email);
    return Some(masked);
  }

  /**
   * The legacy chain and the default processor agree on every text where,
   * once card numbers are masked, no whole-word 11-digit run is left for the
   * RUC rule.
   */
  lemma LegacyAgreesWithDefault(s: string)
    requires FindFrom(WordDigits(11, 11), MaskAll(WordDigits(16, 16), CreditCard, s), 0).None?
    ensures LegacyMask(s) == DefaultMask(s)
  {
    DefaultStrategiesAccept();
    var s1 := MaskAll(WordDigits(16, 16), CreditCard, s);
    NoMatchUnchanged(WordDigits(11, 11), Ruc, s1);
  }

  /** An 11-digit RUC passes the legacy chain untouched, while the default processor masks it. */
  lemma LegacyKeepsRuc(d: string)
    requires AllDigits(d) && |d| == 11
    ensures LegacyMask(d) == d
    ensures DefaultMask(d) != d
  {
    DefaultStrategiesAccept();
    DigitTokenMasked(16, 16, CreditCard, d);
    DigitTokenMasked(9, 10, Phone, d);
    DigitTokenMasked(8, 8, Dni, d);
    NoAtUnchanged(Email, d);
    DefaultMasksRuc(d);
    assert DefaultMask(d)[3] == '*';
  }

  /** Legacy and default chains agree on a lone card number, phone number or DNI. */
  lemma LegacyMasksTokensLikeDefault(d: string)
    requires AllDigits(d) && (|d| == 16 || 9 <= |d| <= 10 || |d| == 8)
    ensures LegacyMask(d) == DefaultMask(d)
  {
    DefaultStrategiesAccept();
    var s1 := MaskAll(WordDigits(16, 16), CreditCard, d);
    DigitTokenMasked(16, 16, CreditCard, d);
    if |d| == 16 {
      ShortTextUnchanged(11, 11, Ruc, s1);
    } else {
      DigitTokenMasked(11, 11, Ruc, d);
    }
  }
}
