/**
 * The masking processor: an ordered chain of rules. Its rules are sorted
 * by descending priority (stably) when it is built, and `Process` folds
 * "replace every match of the rule's pattern by the rule's strategy applied
 * to it" over them.
 */
module MaskingProcessing {
  import opened Wrappers
  import opened JavaStrings
  import opened MaskingStrategies
  import opened DetectionPatterns
  import opened MaskingRules

  // ---------------------------------------------------------------------
  // Replacing the matches of one pattern

  /**
   * The text from `from` on, with every match that `find()` returns from
   * there (leftmost first, each search resuming at the previous match's
   * end) replaced by `f` of the matched text; the gaps are kept as they are.
   */
  function MaskFrom(p: Pattern, f: MaskingStrategy, s: string, from: nat): string
    requires from <= |s| && Accepts(p, f)
    decreases |s| - from
  {
    match FindFrom(p, s, from)
    case None => s[from..]
    case Some(sp) => s[from..sp.start] + f(s[sp.start..sp.end]) + MaskFrom(p, f, s, sp.end)
  }

  function MaskAll(p: Pattern, f: MaskingStrategy, s: string): string
    requires Accepts(p, f)
  {
    MaskFrom(p, f, s, 0)
  }

  /**
   * The `lastEnd` loop shared by `applyRule` and by the legacy maskers'
   * `maskPattern`: appends each gap and each masked match to a buffer.
   */
  method MaskPattern(message: string, p: Pattern, f: MaskingStrategy) returns (r: string)
    requires Accepts(p, f)
    ensures r == MaskAll(p, f, message)
  {
    var sb := "";
    var lastEnd := 0;
    var found := FindFrom(p, message, 0);
    while found.Some?
      invariant lastEnd <= |message|
      invariant found == FindFrom(p, message, lastEnd)
      invariant sb + MaskFrom(p, f, message, lastEnd) == MaskAll(p, f, message)
      decreases |message| - lastEnd
    {
      var sp := found.value;
      MaskStep(p, f, message, lastEnd, sb);
      sb := sb + message[lastEnd..sp.start] + f(message[sp.start..sp.end]);
      lastEnd := sp.end;
      found := FindFrom(p, message, lastEnd);
    }
    sb := sb + message[lastEnd..];
    return sb;
  }

  /** One turn of the `lastEnd` loop: the buffer grows by one gap and one masked match. */
  lemma MaskStep(p: Pattern, f: MaskingStrategy, s: string, from: nat, sb: string)
    requires from <= |s| && Accepts(p, f) && FindFrom(p, s, from).Some?
    ensures var sp := FindFrom(p, s, from).value;
            (sb + s[from..sp.start] + f(s[sp.start..sp.end])) + MaskFrom(p, f, s, sp.end) == sb + MaskFrom(p, f, s, from)
  {
  }

  /** With no match of the pattern anywhere, the text comes back unchanged. */
  lemma NoMatchUnchanged(p: Pattern, f: MaskingStrategy, s: string)
    requires Accepts(p, f) && Unmatched(p, s, 0, |s| + 1)
    ensures MaskAll(p, f, s) == s
  {
  }

  /**
   * With exactly one match, from `i` to `e`, the text is the gap before it,
   * the masked match and the rest, unchanged.
   */
  lemma OneMatchMasked(p: Pattern, f: MaskingStrategy, s: string, i: nat, e: nat)
    requires Accepts(p, f) && i <= |s| && MatchAt(p, s, i) == Some(e)
    requires Unmatched(p, s, 0, i) && Unmatched(p, s, e, |s| + 1)
    ensures MaskAll(p, f, s) == s[..i] + f(s[i..e]) + s[e..]
  {
    var found := FindFrom(p, s, 0);
    assert found == Some(Span(i, e)) by {
      if found.Some? {
        assert !(found.value.start < i);
        assert !(found.value.start > i);
      }
    }
    assert MaskFrom(p, f, s, e) == s[e..];
    assert MaskFrom(p, f, s, 0) == s[0..i] + f(s[i..e]) + MaskFrom(p, f, s, e);
    assert s[0..i] == s[..i];
  }

  /** A run of digits of exactly the text's length. */
  lemma {:induction false} DigitRunToEnd(s: string, i: nat)
    requires i <= |s| && AllDigits(s)
    ensures RunLength(s, i, Digits) == |s| - i
    decreases |s| - i
  {
    if i < |s| {
      DigitRunToEnd(s, i + 1);
    }
  }

  /**
   * A message that is one token of digits is replaced as a whole by the
   * strategy when its length is within the rule's bounds, and is left as
   * it is otherwise.
   */
  lemma DigitTokenMasked(min: Count, max: Count, f: MaskingStrategy, d: string)
    requires Accepts(WordDigits(min, max), f) && AllDigits(d) && d != []
    ensures min <= |d| <= max ==> MaskAll(WordDigits(min, max), f, d) == f(d)
    ensures !(min <= |d| <= max) ==> MaskAll(WordDigits(min, max), f, d) == d
  {
    var p := WordDigits(min, max);
    DigitRunToEnd(d, 0);
    DigitRunToEnd(d, |d|);
    DigitMatchExactly(d, 0, min, max);
    DigitMatchExactly(d, |d|, min, max);
    forall j | 0 < j <= |d|
      ensures MatchAt(p, d, j).None?
    {
      DigitMatchExactly(d, j, min, max);
      assert WordAt(d, j - 1);
    }
    if min <= |d| <= max {
      assert FindFrom(p, d, 0) == Some(Span(0, |d|));
      assert FindFrom(p, d, |d|) == None;
      assert d[0..|d|] == d;
      assert MaskFrom(p, f, d, |d|) == [];
    } else {
      NoMatchUnchanged(p, f, d);
    }
  }

  /** A text shorter than a digit rule's minimum holds nothing it masks. */
  lemma ShortTextUnchanged(min: Count, max: Count, f: MaskingStrategy, s: string)
    requires Accepts(WordDigits(min, max), f) && |s| < min
    ensures MaskAll(WordDigits(min, max), f, s) == s
  {
    NoDigitMatchInShortRuns(s, min, max, 0);
  }

  /** A text without '@' holds nothing the email rule masks. */
  lemma NoAtUnchanged(f: MaskingStrategy, s: string)
    requires Accepts(EmailAddress, f) && '@' !in s
    ensures MaskAll(EmailAddress, f, s) == s
  {
    NoEmailWithoutAt(s, 0);
  }

  // ---------------------------------------------------------------------
  // Ordering the rules

  predicate Descending(rules: seq<MaskingRule>) {
    forall i, j | 0 <= i < j < |rules| :: rules[i].priority >= rules[j].priority
  }

  /**
   * Places `x` after every trailing rule whose priority is at least its own:
   * one step of a stable sort by descending priority.
   */
  function Insert(sorted: seq<MaskingRule>, x: MaskingRule): seq<MaskingRule>
    decreases |sorted|
  {
    if |sorted| == 0 || sorted[|sorted| - 1].priority >= x.priority then sorted + [x]
    else Insert(sorted[..|sorted| - 1], x) + [sorted[|sorted| - 1]]
  }

  /** `List.sort` with the comparator on priority reversed: stable, highest first. */
  function SortByPriority(rules: seq<MaskingRule>): seq<MaskingRule>
    decreases |rules|
  {
    if |rules| == 0 then [] else Insert(SortByPriority(rules[..|rules| - 1]), rules[|rules| - 1])
  }

  /** The rules of priority `q`, in their order. */
  function WithPriority(rules: seq<MaskingRule>, q: int): (r: seq<MaskingRule>)
    ensures |r| <= |rules|
    ensures forall i | 0 <= i < |r| :: r[i].priority == q
    decreases |rules|
  {
    if |rules| == 0 then []
    else WithPriority(rules[..|rules| - 1], q) + (if rules[|rules| - 1].priority == q then [rules[|rules| - 1]] else [])
  }

  lemma {:induction false} InsertDescending(sorted: seq<MaskingRule>, x: MaskingRule)
    requires Descending(sorted)
    ensures Descending(Insert(sorted, x))
    ensures |Insert(sorted, x)| == |sorted| + 1
    ensures forall i | 0 <= i < |Insert(sorted, x)| :: Insert(sorted, x)[i].priority == x.priority || exists k | 0 <= k < |sorted| :: Insert(sorted, x)[i].priority == sorted[k].priority
    decreases |sorted|
  {
    if |sorted| > 0 && sorted[|sorted| - 1].priority < x.priority {
      var init := sorted[..|sorted| - 1];
      var last := sorted[|sorted| - 1];
      InsertDescending(init, x);
      var ins := Insert(init, x);
      forall i | 0 <= i < |ins|
        ensures ins[i].priority >= last.priority
      {
        if ins[i].priority != x.priority {
          var k :| 0 <= k < |init| && ins[i].priority == init[k].priority;
          assert init[k] == sorted[k];
        }
      }
      forall i | 0 <= i < |ins|
        ensures ins[i].priority == x.priority || exists k | 0 <= k < |sorted| :: ins[i].priority == sorted[k].priority
      {
        if ins[i].priority != x.priority {
          var k :| 0 <= k < |init| && ins[i].priority == init[k].priority;
          assert init[k] == sorted[k];
        }
      }
    }
  }

  /** The processor's rule order is highest priority first. */
  lemma {:induction false} SortedDescending(rules: seq<MaskingRule>)
    ensures Descending(SortByPriority(rules))
    ensures |SortByPriority(rules)| == |rules|
    decreases |rules|
  {
    if |rules| > 0 {
      SortedDescending(rules[..|rules| - 1]);
      InsertDescending(SortByPriority(rules[..|rules| - 1]), rules[|rules| - 1]);
    }
  }

  lemma {:induction false} InsertKeepsEachPriority(sorted: seq<MaskingRule>, x: MaskingRule, q: int)
    ensures WithPriority(Insert(sorted, x), q) == WithPriority(sorted, q) + (if x.priority == q then [x] else [])
    decreases |sorted|
  {
    var n := |sorted|;
    if n == 0 || sorted[n - 1].priority >= x.priority {
      assert (sorted + [x])[..n] == sorted;
    } else {
      var init := sorted[..n - 1];
      var last := sorted[n - 1];
      InsertKeepsEachPriority(init, x, q);
      var ins := Insert(init, x);
      assert (ins + [last])[..|ins|] == ins;
    }
  }

  /**
   * The sort is stable and loses or adds nothing: for every priority, the
   * rules of that priority come out in the order in which they were added.
   */
  lemma {:induction false} SortKeepsEachPriority(rules: seq<MaskingRule>, q: int)
    ensures WithPriority(SortByPriority(rules), q) == WithPriority(rules, q)
    decreases |rules|
  {
    if |rules| > 0 {
      var n := |rules|;
      SortKeepsEachPriority(rules[..n - 1], q);
      InsertKeepsEachPriority(SortByPriority(rules[..n - 1]), rules[n - 1], q);
    }
  }

  /** Rules already in descending order are left in place. */
  lemma {:induction false} SortOfDescending(rules: seq<MaskingRule>)
    requires Descending(rules)
    ensures SortByPriority(rules) == rules
    decreases |rules|
  {
    if |rules| > 0 {
      var n := |rules|;
      SortOfDescending(rules[..n - 1]);
      assert rules[..n - 1] + [rules[n - 1]] == rules;
    }
  }

  /** Insertion sort in place, as the processor's constructor sorts its copy. */
  method SortRules(a: array<MaskingRule>)
    modifies a
    ensures a[..] == SortByPriority(old(a[..]))
  {
    ghost var input := a[..];
    var i := 0;
    while i < a.Length
      invariant 0 <= i <= a.Length
      invariant a[..i] == SortByPriority(input[..i])
      invariant a[i..] == input[i..]
    {
      assert input[..i + 1] == input[..i] + [input[i]];
      InsertLast(a, i);
      i := i + 1;
    }
    assert input[..a.Length] == input;
  }

  /** Moves `a[i]` back past the rules of lower priority before it. */
  method InsertLast(a: array<MaskingRule>, i: nat)
    requires i < a.Length
    modifies a
    ensures a[..i + 1] == Insert(old(a[..i]), old(a[i]))
    ensures a[i + 1..] == old(a[i + 1..])
  {
    var x := a[i];
    ghost var sorted := a[..i];
    ghost var after := a[i + 1..];
    assert a[i + 1..] == sorted[i..] + after;
    var j := i;
    while j > 0 && a[j - 1].priority < x.priority
      invariant 0 <= j <= i
      invariant a[..j] == sorted[..j]
      invariant a[j + 1..] == sorted[j..] + after
      invariant Insert(sorted, x) == Insert(sorted[..j], x) + sorted[j..]
    {
      ShiftStep(sorted, x, j);
      ghost var before := a[..];
      a[j] := a[j - 1];
      ShiftSlices(before, a[..], sorted, after, j);
      j := j - 1;
    }
    ghost var before := a[..];
    a[j] := x;
    PlaceSlices(before, a[..], sorted, after, x, j);
  }

  /** Copying the rule at `j - 1` one place right moves the hole one place left. */
  lemma ShiftSlices(before: seq<MaskingRule>, now: seq<MaskingRule>, sorted: seq<MaskingRule>,
                    after: seq<MaskingRule>, j: nat)
    requires 0 < j <= |sorted| && j < |before|
    requires now == before[j := before[j - 1]]
    requires before[..j] == sorted[..j] && before[j + 1..] == sorted[j..] + after
    ensures now[..j - 1] == sorted[..j - 1]
    ensures now[j..] == sorted[j - 1..] + after
  {
    assert before[j - 1] == before[..j][j - 1];
    assert now[j..] == [before[j - 1]] + before[j + 1..];
    assert sorted[j - 1..] == [sorted[j - 1]] + sorted[j..];
  }

  /** Filling the hole with `x` completes the insertion of `x` into the sorted prefix. */
  lemma PlaceSlices(before: seq<MaskingRule>, now: seq<MaskingRule>, sorted: seq<MaskingRule>,
                    after: seq<MaskingRule>, x: MaskingRule, j: nat)
    requires j <= |sorted| && |before| == |sorted| + 1 + |after|
    requires now == before[j := x]
    requires before[..j] == sorted[..j] && before[j + 1..] == sorted[j..] + after
    requires j == 0 || before[j - 1].priority >= x.priority
    requires Insert(sorted, x) == Insert(sorted[..j], x) + sorted[j..]
    ensures now[..|sorted| + 1] == Insert(sorted, x)
    ensures now[|sorted| + 1..] == after
  {
    if j > 0 {
      assert before[j - 1] == before[..j][j - 1];
    }
    assert Insert(sorted[..j], x) == sorted[..j] + [x];
    PlaceWhole(before, now, sorted, after, x, j);
    assert now[..|sorted| + 1] == sorted[..j] + [x] + sorted[j..];
  }

  lemma PlaceWhole(before: seq<MaskingRule>, now: seq<MaskingRule>, sorted: seq<MaskingRule>,
                   after: seq<MaskingRule>, x: MaskingRule, j: nat)
    requires j <= |sorted| && |before| == |sorted| + 1 + |after|
    requires now == before[j := x]
    requires before[..j] == sorted[..j] && before[j + 1..] == sorted[j..] + after
    ensures now == sorted[..j] + [x] + sorted[j..] + after
  {
    assert now == now[..j] + [x] + now[j + 1..];
  }

  lemma ShiftStep(sorted: seq<MaskingRule>, x: MaskingRule, j: nat)
    requires 0 < j <= |sorted| && sorted[j - 1].priority < x.priority
    requires Insert(sorted, x) == Insert(sorted[..j], x) + sorted[j..]
    ensures Insert(sorted, x) == Insert(sorted[..j - 1], x) + sorted[j - 1..]
  {
    assert sorted[..j][..j - 1] == sorted[..j - 1];
    assert sorted[j - 1..] == [sorted[j - 1]] + sorted[j..];
  }

  // ---------------------------------------------------------------------
  // The processor

  /** The left fold of the rules over the message, each rule seeing the previous one's output. */
  function ApplyRules(rules: seq<MaskingRule>, s: string): string
    requires AllSafe(rules)
    decreases |rules|
  {
    if |rules| == 0 then s
    else ApplyRules(rules[1..], MaskAll(rules[0].pattern, rules[0].strategy, s))
  }

  class MaskingProcessor {
    const rules: seq<MaskingRule>

    /** Copies the given rules and sorts the copy; the caller's list is a value and stays as it was. */
    constructor(given: seq<MaskingRule>)
      ensures rules == SortByPriority(given)
    {
      var a := new MaskingRule[|given|](i requires 0 <= i < |given| => given[i]);
      assert a[..] == given;
      SortRules(a);
      rules := a[..];
    }

    method ApplyRule(message: string, rule: MaskingRule) returns (r: string)
      requires Safe(rule)
      ensures r == MaskAll(rule.pattern, rule.strategy, message)
    {
      r := MaskPattern(message, rule.pattern, rule.strategy);
    }

    /** null and "" come back as they are; any other message goes through every rule in order. */
    method Process(message: NString) returns (r: NString)
      requires AllSafe(rules)
      ensures message.None? ==> r == None
      ensures message == Some("") ==> r == Some("")
      ensures message.Some? && message.value != "" ==> r == Some(ApplyRules(rules, message.value))
    {
      if message.None? || |message.value| == 0 {
        return message;
      }
      var result := message.value;
      var i := 0;
      while i < |rules|
        invariant 0 <= i <= |rules|
        invariant ApplyRules(rules[i..], result) == ApplyRules(rules, message.value)
      {
        assert rules[i..][1..] == rules[i + 1..];
        result := ApplyRule(result, rules[i]);
        i := i + 1;
      }
      return Some(result);
    }
  }

  class ProcessorBuilder {
    var rules: seq<MaskingRule>

    constructor()
      ensures rules == []
    {
      rules := [];
    }

    method AddRule(rule: MaskingRule)
      modifies this
      ensures rules == old(rules) + [rule]
    {
      rules := rules + [rule];
    }

    method Build() returns (p: MaskingProcessor)
      ensures fresh(p) && p.rules == SortByPriority(rules)
    {
      p := new MaskingProcessor(rules);
    }
  }

  // ---------------------------------------------------------------------
  // The default rules

  const CARD_RULE := MaskingRule("credit-card", WordDigits(16, 16), CreditCard, 100)
  const RUC_RULE := MaskingRule("ruc", WordDigits(11, 11), Ruc, 90)
  const PHONE_RULE := MaskingRule("phone", WordDigits(9, 10), Phone, 80)
  const DNI_RULE := MaskingRule("dni", WordDigits(8, 8), Dni, 70)
  const EMAIL_RULE := MaskingRule("email", EmailAddress, Email, 60)

  const DEFAULT_RULES := [CARD_RULE, RUC_RULE, PHONE_RULE, DNI_RULE, EMAIL_RULE]

  lemma DefaultRulesSafe()
    ensures AllSafe(DEFAULT_RULES)
  {
    BuiltInStrategiesAreSafe("", EmailAddress, 0);
  }

  /** Builds one rule through the rule builder with every required field set. */
  method BuildRule(name: string, pattern: Pattern, strategy: MaskingStrategy, priority: int) returns (rule: MaskingRule)
    ensures rule.name == name && rule.pattern == pattern && rule.strategy == strategy && rule.priority == priority
  {
    var b := new Builder();
    b.WithName(Some(name));
    b.WithPattern(Some(pattern));
    b.WithStrategy(Some(strategy));
    b.WithPriority(priority);
    var r := b.Build();
    rule := r.value;
  }

  /**
   * The default processor applies credit-card (100), ruc (90), phone (80),
   * dni (70) and email (60), in that order.
   */
  method DefaultProcessor() returns (p: MaskingProcessor)
    ensures fresh(p)
    ensures |p.rules| == 5
    ensures p.rules[0].name == "credit-card" && p.rules[1].name == "ruc" && p.rules[2].name == "phone"
    ensures p.rules[3].name == "dni" && p.rules[4].name == "email"
    ensures p.rules == DEFAULT_RULES
    ensures AllSafe(p.rules)
  {
    var b := new ProcessorBuilder();
    var card := BuildRule("credit-card", WordDigits(16, 16), CreditCard, 100);
    b.AddRule(card);
    var ruc := BuildRule("ruc", WordDigits(11, 11), Ruc, 90);
    b.AddRule(ruc);
    var phone := BuildRule("phone", WordDigits(9, 10), Phone, 80);
    b.AddRule(phone);
    var dni := BuildRule("dni", WordDigits(8, 8), Dni, 70);
    b.AddRule(dni);
    var email := BuildRule("email", EmailAddress, Email, 60);
    b.AddRule(email);
    assert b.rules == DEFAULT_RULES;
    SortOfDescending(DEFAULT_RULES);
    DefaultRulesSafe();
    p := b.Build();
  }

  lemma DefaultStrategiesAccept()
    ensures Accepts(WordDigits(16, 16), CreditCard) && Accepts(WordDigits(11, 11), Ruc)
    ensures Accepts(WordDigits(9, 10), Phone) && Accepts(WordDigits(8, 8), Dni)
    ensures Accepts(EmailAddress, Email)
  {
    EmailAcceptsEveryPattern(EmailAddress);
  }

  /** The default chain written out: card, then RUC, phone, DNI and email. */
  function DefaultMask(s: string): string {
    DefaultStrategiesAccept();
    var s1 := MaskAll(WordDigits(16, 16), CreditCard, s);
    var s2 := MaskAll(WordDigits(11, 11), Ruc, s1);
    var s3 := MaskAll(WordDigits(9, 10), Phone, s2);
    var s4 := MaskAll(WordDigits(8, 8), Dni, s3);
    MaskAll(EmailAddress, Email, s4)
  }

  /** The default processor's fold is the chain card, RUC, phone, DNI, email. */
  lemma DefaultChain(s: string)
    ensures AllSafe(DEFAULT_RULES)
    ensures ApplyRules(DEFAULT_RULES, s) == DefaultMask(s)
  {
    DefaultRulesSafe();
    DefaultStrategiesAccept();
    var r := DEFAULT_RULES;
    var s1 := MaskAll(WordDigits(16, 16), CreditCard, s);
    var s2 := MaskAll(WordDigits(11, 11), Ruc, s1);
    var s3 := MaskAll(WordDigits(9, 10), Phone, s2);
    var s4 := MaskAll(WordDigits(8, 8), Dni, s3);
    assert r[1..] == [RUC_RULE, PHONE_RULE, DNI_RULE, EMAIL_RULE];
    assert r[1..][1..] == [PHONE_RULE, DNI_RULE, EMAIL_RULE];
    assert r[1..][1..][1..] == [DNI_RULE, EMAIL_RULE];
    assert r[1..][1..][1..][1..] == [EMAIL_RULE];
    assert ApplyRules([EMAIL_RULE], s4) == MaskAll(EmailAddress, Email, s4);
    assert ApplyRules([DNI_RULE, EMAIL_RULE], s3) == ApplyRules([EMAIL_RULE], s4);
    assert ApplyRules([PHONE_RULE, DNI_RULE, EMAIL_RULE], s2) == ApplyRules([DNI_RULE, EMAIL_RULE], s3);
    assert ApplyRules([RUC_RULE, PHONE_RULE, DNI_RULE, EMAIL_RULE], s1) == ApplyRules([PHONE_RULE, DNI_RULE, EMAIL_RULE], s2);
  }

  /**
   * A text whose only non-digit at `k` cuts it into two pieces shorter than
   * the rule's minimum holds nothing a digit rule masks.
   */
  lemma CutTextUnchanged(min: Count, max: Count, f: MaskingStrategy, s: string, k: nat)
    requires Accepts(WordDigits(min, max), f)
    requires k < |s| && !IsDigit(s[k]) && k < min && |s| - k - 1 < min
    ensures MaskAll(WordDigits(min, max), f, s) == s
  {
    forall i | 0 <= i <= |s|
      ensures RunLength(s, i, Digits) < min
    {
      if i <= k {
        RunStopsAt(s, i, k, Digits);
      }
    }
    NoDigitMatchInShortRuns(s, min, max, 0);
  }

  /** A message that is one 16-digit card number becomes "***" and its last four digits. */
  lemma DefaultMasksCardNumber(d: string)
    requires AllDigits(d) && |d| == 16
    ensures DefaultMask(d) == MASK + d[12..]
  {
    DefaultStrategiesAccept();
    var s1 := MaskAll(WordDigits(16, 16), CreditCard, d);
    assert s1 == MASK + d[12..] by {
      DigitTokenMasked(16, 16, CreditCard, d);
    }
    assert MaskAll(WordDigits(11, 11), Ruc, s1) == s1 by {
      ShortTextUnchanged(11, 11, Ruc, s1);
    }
    assert MaskAll(WordDigits(9, 10), Phone, s1) == s1 by {
      ShortTextUnchanged(9, 10, Phone, s1);
    }
    assert MaskAll(WordDigits(8, 8), Dni, s1) == s1 by {
      ShortTextUnchanged(8, 8, Dni, s1);
    }
    assert MaskAll(EmailAddress, Email, s1) == s1 by {
      assert '@' !in s1;
      NoAtUnchanged(Email, s1);
    }
  }

  /** A message that is one 11-digit RUC becomes its first three digits, "***" and its last three. */
  lemma DefaultMasksRuc(d: string)
    requires AllDigits(d) && |d| == 11
    ensures DefaultMask(d) == d[..3] + MASK + d[8..]
  {
    DefaultStrategiesAccept();
    assert MaskAll(WordDigits(16, 16), CreditCard, d) == d by {
      DigitTokenMasked(16, 16, CreditCard, d);
    }
    var s2 := MaskAll(WordDigits(11, 11), Ruc, d);
    assert s2 == d[..3] + MASK + d[8..] by {
      DigitTokenMasked(11, 11, Ruc, d);
    }
    assert MaskAll(WordDigits(9, 10), Phone, s2) == s2 by {
      CutTextUnchanged(9, 10, Phone, s2, 3);
    }
    assert MaskAll(WordDigits(8, 8), Dni, s2) == s2 by {
      CutTextUnchanged(8, 8, Dni, s2, 3);
    }
    assert MaskAll(EmailAddress, Email, s2) == s2 by {
      assert '@' !in s2;
      NoAtUnchanged(Email, s2);
    }
  }

  /** A message that is one 9- or 10-digit phone number becomes "***" and its last three digits. */
  lemma DefaultMasksPhone(d: string)
    requires AllDigits(d) && 9 <= |d| <= 10
    ensures DefaultMask(d) == MASK + d[|d| - 3..]
  {
    DefaultStrategiesAccept();
    assert MaskAll(WordDigits(16, 16), CreditCard, d) == d by {
      DigitTokenMasked(16, 16, CreditCard, d);
    }
    assert MaskAll(WordDigits(11, 11), Ruc, d) == d by {
      DigitTokenMasked(11, 11, Ruc, d);
    }
    var s3 := MaskAll(WordDigits(9, 10), Phone, d);
    assert s3 == MASK + d[|d| - 3..] by {
      DigitTokenMasked(9, 10, Phone, d);
    }
    assert MaskAll(WordDigits(8, 8), Dni, s3) == s3 by {
      ShortTextUnchanged(8, 8, Dni, s3);
    }
    assert MaskAll(EmailAddress, Email, s3) == s3 by {
      assert '@' !in s3;
      NoAtUnchanged(Email, s3);
    }
  }

  /** A message that is one 8-digit DNI becomes its first two digits, "***" and its last two. */
  lemma DefaultMasksDni(d: string)
    requires AllDigits(d) && |d| == 8
    ensures DefaultMask(d) == d[..2] + MASK + d[6..]
  {
    DefaultStrategiesAccept();
    assert MaskAll(WordDigits(16, 16), CreditCard, d) == d by {
      DigitTokenMasked(16, 16, CreditCard, d);
    }
    assert MaskAll(WordDigits(11, 11), Ruc, d) == d by {
      DigitTokenMasked(11, 11, Ruc, d);
    }
    assert MaskAll(WordDigits(9, 10), Phone, d) == d by {
      DigitTokenMasked(9, 10, Phone, d);
    }
    var s4 := MaskAll(WordDigits(8, 8), Dni, d);
    assert s4 == d[..2] + MASK + d[6..] by {
      DigitTokenMasked(8, 8, Dni, d);
    }
    assert MaskAll(EmailAddress, Email, s4) == s4 by {
      assert '@' !in s4;
      NoAtUnchanged(Email, s4);
    }
  }

  /** A number of any other length (1-7, 12-15, 17 or more digits) is left as it is. */
  lemma DefaultKeepsOtherNumbers(d: string)
    requires AllDigits(d) && d != [] && |d| != 8 && |d| != 9 && |d| != 10 && |d| != 11 && |d| != 16
    ensures DefaultMask(d) == d
  {
    DefaultStrategiesAccept();
    assert MaskAll(WordDigits(16, 16), CreditCard, d) == d by {
      DigitTokenMasked(16, 16, CreditCard, d);
    }
    assert MaskAll(WordDigits(11, 11), Ruc, d) == d by {
      DigitTokenMasked(11, 11, Ruc, d);
    }
    assert MaskAll(WordDigits(9, 10), Phone, d) == d by {
      DigitTokenMasked(9, 10, Phone, d);
    }
    assert MaskAll(WordDigits(8, 8), Dni, d) == d by {
      DigitTokenMasked(8, 8, Dni, d);
    }
    assert MaskAll(EmailAddress, Email, d) == d by {
      assert '@' !in d;
      NoAtUnchanged(Email, d);
    }
  }

  /** Text none of whose digit runs reaches the rule's minimum is left as it is by that rule. */
  lemma ShortRunsUnchanged(min: Count, max: Count, f: MaskingStrategy, s: string)
    requires Accepts(WordDigits(min, max), f)
    requires forall i | 0 <= i <= |s| :: RunLength(s, i, Digits) < min
    ensures MaskAll(WordDigits(min, max), f, s) == s
  {
    NoDigitMatchInShortRuns(s, min, max, 0);
  }

  /** With no match of any of the five default patterns, the default chain leaves the text as it is. */
  lemma DefaultUnchangedWithoutMatches(s: string)
    requires FindFrom(WordDigits(16, 16), s, 0).None? && FindFrom(WordDigits(11, 11), s, 0).None?
    requires FindFrom(WordDigits(9, 10), s, 0).None? && FindFrom(WordDigits(8, 8), s, 0).None?
    requires FindFrom(EmailAddress, s, 0).None?
    ensures DefaultMask(s) == s
  {
    DefaultStrategiesAccept();
    NoMatchUnchanged(WordDigits(16, 16), CreditCard, s);
    NoMatchUnchanged(WordDigits(11, 11), Ruc, s);
    NoMatchUnchanged(WordDigits(9, 10), Phone, s);
    NoMatchUnchanged(WordDigits(8, 8), Dni, s);
    NoMatchUnchanged(EmailAddress, Email, s);
  }

  /** Text that separates two runs and holds no word character and no '@'. */
  predicate Separator(sep: string) {
    sep != [] && forall k | 0 <= k < |sep| :: !IsWordChar(sep[k]) && sep[k] != '@'
  }

  /** The card rule on a card number, a separator and a DNI masks the card number only. */
  lemma CardStepOnCardThenDni(c: string, sep: string, d: string)
    requires AllDigits(c) && |c| == 16 && AllDigits(d) && |d| == 8 && Separator(sep)
    ensures Accepts(WordDigits(16, 16), CreditCard)
    ensures MaskAll(WordDigits(16, 16), CreditCard, c + sep + d) == MASK + c[12..] + sep + d
  {
    DefaultStrategiesAccept();
    var p := WordDigits(16, 16);
    var s := c + sep + d;
    assert !IsDigit(s[16]) && !IsWordChar(s[16]) by { assert s[16] == sep[0]; }
    assert RunLength(s, 0, Digits) == 16;
    DigitMatchExactly(s, 0, 16, 16);
    forall j | 0 < j <= |s|
      ensures MatchAt(p, s, j).None?
    {
      DigitMatchExactly(s, j, 16, 16);
      if j <= 16 {
        assert s[j - 1] == c[j - 1];
        assert WordAt(s, j - 1);
      } else if j < 16 + |sep| {
        assert s[j] == sep[j - 16];
      }
    }
    OneMatchMasked(p, CreditCard, s, 0, 16);
    assert s[0..16] == c;
    assert s[16..] == sep + d;
  }

  /** After the card step: the 4 kept digits, the separator and the DNI hold no run of 9 or more. */
  lemma MaskedCardRuns(c: string, sep: string, d: string)
    requires AllDigits(c) && |c| == 16 && AllDigits(d) && |d| == 8 && Separator(sep)
    ensures var t := MASK + c[12..] + sep + d;
            forall i | 0 <= i <= |t| :: RunLength(t, i, Digits) < 9
  {
    var t := MASK + c[12..] + sep + d;
    forall i | 0 <= i <= |t|
      ensures RunLength(t, i, Digits) < 9
    {
      if i < 3 {
        assert t[i] == '*';
      } else if i < 7 {
        assert t[7] == sep[0];
        RunStopsAt(t, i, 7, Digits);
      } else if i < 7 + |sep| {
        assert t[i] == sep[i - 7];
      }
    }
  }

  /** The DNI rule after the card step masks the DNI only. */
  lemma DniStepOnCardThenDni(c: string, sep: string, d: string)
    requires AllDigits(c) && |c| == 16 && AllDigits(d) && |d| == 8 && Separator(sep)
    ensures Accepts(WordDigits(8, 8), Dni)
    ensures MaskAll(WordDigits(8, 8), Dni, MASK + c[12..] + sep + d) == MASK + c[12..] + sep + (d[..2] + MASK + d[6..])
  {
    DefaultStrategiesAccept();
    var p := WordDigits(8, 8);
    var t := MASK + c[12..] + sep + d;
    var k := 7 + |sep|;
    MaskedCardRuns(c, sep, d);
    assert t[k..] == d;
    assert RunLength(t, k, Digits) == 8;
    assert !WordAt(t, k - 1) by { assert t[k - 1] == sep[|sep| - 1]; }
    DigitMatchExactly(t, k, 8, 8);
    forall j | 0 <= j < k
      ensures MatchAt(p, t, j).None?
    {
      DigitMatchExactly(t, j, 8, 8);
      if 7 <= j {
        assert t[j] == sep[j - 7];
      } else if 3 <= j {
        assert t[7] == sep[0];
        RunStopsAt(t, j, 7, Digits);
      } else {
        assert t[j] == '*';
      }
    }
    forall j | k < j <= |t|
      ensures MatchAt(p, t, j).None?
    {
      DigitMatchExactly(t, j, 8, 8);
      assert t[j - 1] == d[j - 1 - k];
      assert WordAt(t, j - 1);
    }
    OneMatchMasked(p, Dni, t, k, |t|);
    assert t[..k] == MASK + c[12..] + sep;
    assert t[k..|t|] == d;
  }

  /**
   * A 16-digit card number and an 8-digit DNI separated by text without word
   * characters or '@' are masked independently, each as it would be alone.
   */
  lemma DefaultMasksCardThenDni(c: string, sep: string, d: string)
    requires AllDigits(c) && |c| == 16 && AllDigits(d) && |d| == 8 && Separator(sep)
    ensures DefaultMask(c + sep + d) == MASK + c[12..] + sep + (d[..2] + MASK + d[6..])
    ensures DefaultMask(c + sep + d) == DefaultMask(c) + sep + DefaultMask(d)
  {
    DefaultStrategiesAccept();
    var t := MASK + c[12..] + sep + d;
    CardStepOnCardThenDni(c, sep, d);
    MaskedCardRuns(c, sep, d);
    ShortRunsUnchanged(11, 11, Ruc, t);
    ShortRunsUnchanged(9, 10, Phone, t);
    DniStepOnCardThenDni(c, sep, d);
    var u := MASK + c[12..] + sep + (d[..2] + MASK + d[6..]);
    assert '@' !in u by {
      forall q | 0 <= q < |u|
        ensures u[q] != '@'
      {
        if 7 <= q < 7 + |sep| {
          assert u[q] == sep[q - 7];
        }
      }
    }
    NoAtUnchanged(Email, u);
    DefaultMasksCardNumber(c);
    DefaultMasksDni(d);
  }
}
