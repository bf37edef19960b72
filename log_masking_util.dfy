/**
 * The static masking helpers of the utility class. They take possibly null
 * strings and check lengths more loosely than the masking strategies: any
 * value of 4 characters or more keeps its ends.
 */
module LogMaskingUtils {
  import opened Wrappers
  import opened JavaStrings
  import opened MaskingStrategies

  /** null or fewer than 4 characters gives the bare mask; anything else its first 2 and last 2. */
  function MaskDni(dni: NString): (r: string)
    ensures dni.None? || |dni.value| < 4 ==> r == MASK
    ensures dni.Some? && |dni.value| >= 4 ==>
              |r| == 7 && r[..2] == dni.value[..2] && r[2..5] == MASK && r[5..] == dni.value[|dni.value| - 2..]
  {
    if dni.None? || |dni.value| < 4 then MASK
    else dni.value[..2] + MASK + dni.value[|dni.value| - 2..]
  }

  /**
   * The email rule of the strategies, plus null giving the bare mask. Like
   * the strategy it reads `split("@")[1]`, which throws when nothing but '@'
   * follows the first '@' (`"user@"`).
   */
  function MaskEmail(email: NString): (r: Result<string>)
    ensures email.None? || '@' !in email.value ==> r == Ok(MASK)
    ensures r.Thrown? <==> email.Some? && !EmailDefined(email.value)
    ensures r.Thrown? ==> r.exception == "ArrayIndexOutOfBoundsException"
    ensures r.Ok? && email.Some? && '@' in email.value ==>
              var parts := Split(email.value, '@');
              |parts| >= 2 && |r.value| > |parts[1]| &&
              r.value[|r.value| - |parts[1]| - 1..] == "@" + parts[1] && MaskAt(r.value, if |parts[0]| <= 2 then 0 else 1)
  {
    if email.None? || '@' !in email.value then Ok(MASK)
    else
      var parts := Split(email.value, '@');
      if |parts| < 2 then Thrown("ArrayIndexOutOfBoundsException")
      else Ok(EmailFromParts(parts[0], parts[1]))
  }

  /** null or fewer than 4 characters gives the bare mask; anything else the mask and the last 3. */
  function MaskPhone(phone: NString): (r: string)
    ensures phone.None? || |phone.value| < 4 ==> r == MASK
    ensures phone.Some? && |phone.value| >= 4 ==>
              |r| == 6 && r[..3] == MASK && r[3..] == phone.value[|phone.value| - 3..]
  {
    if phone.None? || |phone.value| < 4 then MASK else MASK + phone.value[|phone.value| - 3..]
  }

  /** null or fewer than 4 characters gives the bare mask; anything else the mask and the last 4. */
  function MaskCardNumber(cardNumber: NString): (r: string)
    ensures cardNumber.None? || |cardNumber.value| < 4 ==> r == MASK
    ensures cardNumber.Some? && |cardNumber.value| >= 4 ==>
              |r| == 7 && r[..3] == MASK && r[3..] == cardNumber.value[|cardNumber.value| - 4..]
  {
    if cardNumber.None? || |cardNumber.value| < 4 then MASK
    else MASK + cardNumber.value[|cardNumber.value| - 4..]
  }

  /** null or at most 4 characters gives the bare mask; anything else its first 2 and last 2. */
  function MaskGeneric(value: NString): (r: string)
    ensures value.None? || |value.value| <= 4 ==> r == MASK
    ensures value.Some? && |value.value| > 4 ==>
              |r| == 7 && r[..2] == value.value[..2] && r[2..5] == MASK && r[5..] == value.value[|value.value| - 2..]
  {
    if value.None? || |value.value| <= 4 then MASK
    else value.value[..2] + MASK + value.value[|value.value| - 2..]
  }

  /**
   * Against the strategies: the DNI helper agrees on 8 characters and
   * shows the ends of any other value of 4 or more, where DNI shows nothing.
   */
  lemma DniLooserThanStrategy(v: string)
    ensures |v| == 8 ==> MaskDni(Some(v)) == Dni(v)
    ensures |v| >= 4 && |v| != 8 ==> MaskDni(Some(v)) != Dni(v)
  {
  }

  /** The phone helper is the PHONE strategy on every non-null value. */
  lemma PhoneMatchesStrategy(v: string)
    ensures MaskPhone(Some(v)) == Phone(v)
  {
  }

  /** The card helper agrees with CREDIT_CARD on 16 characters and keeps 4 characters of any other value of 4 or more. */
  lemma CardLooserThanStrategy(v: string)
    ensures |v| == 16 ==> MaskCardNumber(Some(v)) == CreditCard(v)
    ensures |v| >= 4 && |v| != 16 ==> MaskCardNumber(Some(v)) != CreditCard(v)
  {
  }

  /**
   * The email helper is the EMAIL strategy on every non-null value where
   * the strategy is defined, and throws on every other one.
   */
  lemma EmailMatchesStrategy(v: string)
    ensures EmailDefined(v) ==> MaskEmail(Some(v)) == Ok(Email(v))
    ensures !EmailDefined(v) ==> MaskEmail(Some(v)).Thrown?
  {
  }

  /** An address with nothing after its '@' makes the helper throw. */
  lemma MaskEmailThrowsOnBareAt(local: string)
    requires '@' !in local
    ensures MaskEmail(Some(local + "@")) == Thrown("ArrayIndexOutOfBoundsException")
  {
    EmailThrowsOnBareAt(local);
  }
}
