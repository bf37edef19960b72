/**
 * A masking rule: a detection pattern, the strategy applied to each match,
 * a name and a priority; and the fluent builder that produces it.
 */
module MaskingRules {
  import opened Wrappers
  import opened JavaStrings
  import opened MaskingStrategies
  import opened DetectionPatterns

  /** An immutable rule: its fields are fixed once it is built. */
  datatype MaskingRule = MaskingRule(name: string, pattern: Pattern, strategy: MaskingStrategy, priority: int)

  /** The strategy is defined on every text the pattern can match. */
  ghost predicate Accepts(p: Pattern, f: MaskingStrategy) {
    forall m | Shaped(p, m) :: f.requires(m)
  }

  ghost predicate Safe(rule: MaskingRule) {
    Accepts(rule.pattern, rule.strategy)
  }

  ghost predicate AllSafe(rules: seq<MaskingRule>) {
    forall i | 0 <= i < |rules| :: Safe(rules[i])
  }

  /**
   * The email strategy is defined on everything any pattern matches: a digit
   * match holds no '@', and an email match has text on both sides of its
   * single '@', so `split("@")` yields a domain.
   */
  lemma EmailAcceptsEveryPattern(p: Pattern)
    ensures Accepts(p, Email)
  {
    forall m | Shaped(p, m)
      ensures EmailDefined(m)
    {
      match p
      case EmailAddress =>
        var k :| 0 < k < |m| - 1 && m[k] == '@' && '@' !in m[..k] && '@' !in m[k + 1..];
        assert m == m[..k] + ['@'] + m[k + 1..];
        SplitOnce(m[..k], '@', m[k + 1..]);
      case WordDigits(_, _) =>
        assert '@' !in m;
    }
  }

  /** Each of the six built-in strategies is safe with every pattern. */
  lemma BuiltInStrategiesAreSafe(name: string, p: Pattern, priority: int)
    ensures Safe(MaskingRule(name, p, Dni, priority))
    ensures Safe(MaskingRule(name, p, Email, priority))
    ensures Safe(MaskingRule(name, p, Phone, priority))
    ensures Safe(MaskingRule(name, p, CreditCard, priority))
    ensures Safe(MaskingRule(name, p, Ruc, priority))
    ensures Safe(MaskingRule(name, p, FullMask, priority))
  {
    EmailAcceptsEveryPattern(p);
  }

  /**
   * The rule builder. Every field starts unset except the priority, which
   * starts at 0; each setter overwrites its own field only.
   */
  class Builder {
    var name: NString
    var pattern: Option<Pattern>
    var strategy: Option<MaskingStrategy>
    var priority: int

    constructor()
      ensures name == None && pattern == None && strategy == None && priority == 0
    {
      name := None;
      pattern := None;
      strategy := None;
      priority := 0;
    }

    method WithName(n: NString)
      modifies this`name
      ensures name == n
    {
      name := n;
    }

    method WithPattern(p: Option<Pattern>)
      modifies this`pattern
      ensures pattern == p
    {
      pattern := p;
    }

    method WithStrategy(f: Option<MaskingStrategy>)
      modifies this`strategy
      ensures strategy == f
    {
      strategy := f;
    }

    method WithPriority(n: int)
      modifies this`priority
      ensures priority == n
    {
      priority := n;
    }

    /**
     * Throws IllegalStateException when the name, the pattern or the
     * strategy is missing; otherwise a rule holding exactly the builder's
     * current values.
     */
    method Build() returns (r: Result<MaskingRule>)
      ensures r.Thrown? <==> name.None? || pattern.None? || strategy.None?
      ensures r.Thrown? ==> r.exception == "IllegalStateException"
      ensures r.Ok? ==> r.value.name == name.value && r.value.pattern == pattern.value
      ensures r.Ok? ==> r.value.strategy == strategy.value && r.value.priority == priority
    {
      if name.None? || pattern.None? || strategy.None? {
        return Thrown("IllegalStateException");
      }
      return Ok(MaskingRule(name.value, pattern.value, strategy.value, priority));
    }
  }
}
