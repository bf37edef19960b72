/**
 * The turbo filter that masks, in place, the String arguments of a logging
 * call before any appender formats them. The format string is never
 * touched and the reply is always NEUTRAL.
 */
module MaskingTurboFilters {
  import opened Wrappers
  import opened JavaStrings
  import opened LogbackEvents
  import opened LegacyMasking

  /** An element of the `Object[] params` array: a String, or anything else (null included). */
  datatype Argument = StringArg(text: string) | OtherArg

  /** What `decide` leaves in one slot of the array. */
  function MaskArgument(a: Argument): (r: Argument)
    ensures a.OtherArg? ==> r == a
    ensures a.StringArg? ==> r == StringArg(LegacyMask(a.text))
  {
    match a
    case StringArg(text) => StringArg(LegacyMask(text))
    case OtherArg => OtherArg
  }

  /**
   * `decide`: a null or empty array is left as it is; otherwise each String
   * element is replaced by its masked text and every other element kept.
   */
  method Decide(format: NString, params: array?<Argument>) returns (r: FilterReply)
    modifies params
    ensures r == Neutral
    ensures params != null ==> forall i | 0 <= i < params.Length :: params[i] == MaskArgument(old(params[i]))
  {
    if params != null && params.Length > 0 {
      var i := 0;
      while i < params.Length
        invariant 0 <= i <= params.Length
        invariant forall j | 0 <= j < i :: params[j] == MaskArgument(old(params[j]))
        invariant forall j | i <= j < params.Length :: params[j] == old(params[j])
      {
        MaskSlot(params, i);
        i := i + 1;
      }
    }
    return Neutral;
  }

  /** One turn of the loop: a String slot gets its masked text. */
  method MaskSlot(params: array<Argument>, i: nat)
    requires i < params.Length
    modifies params
    ensures params[i] == MaskArgument(old(params[i]))
    ensures forall j | 0 <= j < params.Length && j != i :: params[j] == old(params[j])
  {
    if params[i].StringArg? {
      var masked := MaskMessage(Some(params[i].text));
      params[i] := StringArg(masked.value);
    }
  }

  /** Only the String slots change: the kinds of all slots are kept. */
  lemma MaskingKeepsArgumentKinds(a: Argument)
    ensures MaskArgument(a).StringArg? <==> a.StringArg?
  {
  }
}
