/**
 * The turbo filter that copies the agent's trace context into the MDC on
 * the thread that logs: trace.id and span.id when non-empty, then every
 * non-empty linking-metadata entry. An exception from the agent stops the
 * copying where it happens and is swallowed; the reply is always NEUTRAL.
 */
module NewRelicTraceFiltering {
  import opened Wrappers
  import opened JavaStrings
  import opened NewRelicLogContexts
  import opened NewRelicAgents
  import opened LogbackEvents

  /** The MDC of the logging thread. */
  class Mdc {
    var entries: StringMap

    constructor(entries: StringMap)
      ensures this.entries == entries
    {
      this.entries := entries;
    }

    method Put(key: string, value: NString)
      modifies this
      ensures entries == old(entries)[key := value]
    {
      entries := entries[key := value];
    }
  }

  /** The trace and span ids written when non-empty. */
  function TracePuts(m: StringMap, md: TraceMetadata): StringMap {
    var m1 := if NonEmpty(md.traceId) then m["trace.id" := md.traceId] else m;
    if NonEmpty(md.spanId) then m1["span.id" := md.spanId] else m1
  }

  /** The linking entries whose value is neither null nor empty. */
  function NonEmptyEntries(l: StringMap): (r: StringMap)
    ensures r.Keys <= l.Keys
    ensures forall k | k in l :: k in r <==> NonEmpty(l[k])
    ensures forall k | k in r :: r[k] == l[k]
  {
    map k | k in l && NonEmpty(l[k]) :: l[k]
  }

  /** The MDC after `decide`, given what the agent answers. */
  function AfterDecide(m: StringMap, agent: Agent): StringMap {
    match agent.traceMetadata
    case Threw => m
    case Returned(md) =>
      if md.None? then m
      else
        var m1 := TracePuts(m, md.value);
        match agent.linkingMetadata
        case Threw => m1
        case Returned(l) => if l.None? then m1 else m1 + NonEmptyEntries(l.value)
  }

  /** Whether the linking map exists and is reached: the trace metadata was non-null. */
  predicate LinkingReached(agent: Agent) {
    agent.traceMetadata.Returned? && agent.traceMetadata.value.Some?
    && agent.linkingMetadata.Returned? && agent.linkingMetadata.value.Some?
  }

  /** `decide`; `linkingOrder` is the iteration order of the linking map's `forEach`. */
  method Decide(mdc: Mdc, agent: Agent, linkingOrder: seq<string>) returns (r: FilterReply)
    requires LinkingReached(agent) ==> Enumerates(linkingOrder, agent.linkingMetadata.value.value)
    modifies mdc
    ensures r == Neutral
    ensures mdc.entries == AfterDecide(old(mdc.entries), agent)
  {
    if agent.traceMetadata.Threw? || agent.traceMetadata.value.None? {
      // the agent threw, or getTraceId() on a null metadata threw
      return Neutral;
    }
    var traceMetadata := agent.traceMetadata.value.value;
    var traceId := traceMetadata.traceId;
    var spanId := traceMetadata.spanId;
    if traceId.Some? && |traceId.value| > 0 {
      mdc.Put("trace.id", traceId);
    }
    if spanId.Some? && |spanId.value| > 0 {
      mdc.Put("span.id", spanId);
    }
    if agent.linkingMetadata.Threw? {
      return Neutral;
    }
    var linkingMetadata := agent.linkingMetadata.value;
    if linkingMetadata.Some? {
      PutLinking(mdc, linkingMetadata.value, linkingOrder);
    }
    return Neutral;
  }

  /** The `forEach` over the linking map: each non-empty value is put, overwriting. */
  method PutLinking(mdc: Mdc, l: StringMap, linkingOrder: seq<string>)
    requires Enumerates(linkingOrder, l)
    modifies mdc
    ensures mdc.entries == old(mdc.entries) + NonEmptyEntries(l)
  {
    ghost var base := mdc.entries;
    NothingWrittenYet(base, l, linkingOrder);
    var i := 0;
    while i < |linkingOrder|
      invariant 0 <= i <= |linkingOrder|
      invariant mdc.entries == base + NonEmptyEntries(Restrict(l, linkingOrder[..i]))
    {
      PutIfNonEmpty(mdc, l, linkingOrder, i, base);
      i := i + 1;
    }
    assert i == |linkingOrder|;
    RestrictToAll(l, linkingOrder);
    assert mdc.entries == base + NonEmptyEntries(Restrict(l, linkingOrder[..|linkingOrder|]));
  }

  /** One call of the `forEach` lambda: the entry is put when its value is non-empty. */
  method PutIfNonEmpty(mdc: Mdc, l: StringMap, order: seq<string>, i: nat, ghost base: StringMap)
    requires i < |order| && order[i] in l
    requires mdc.entries == base + NonEmptyEntries(Restrict(l, order[..i]))
    modifies mdc
    ensures mdc.entries == base + NonEmptyEntries(Restrict(l, order[..i + 1]))
  {
    var key := order[i];
    var value := l[key];
    ghost var written := NonEmptyEntries(Restrict(l, order[..i]));
    assert order[..i + 1] == order[..i] + [key];
    RestrictStep(l, order[..i], key);
    if value.Some? && |value.value| > 0 {
      mdc.Put(key, value);
      UpdateAfterUnion(base, written, key, value);
    }
  }

  lemma NothingWrittenYet(base: StringMap, l: StringMap, order: seq<string>)
    ensures base + NonEmptyEntries(Restrict(l, order[..0])) == base
  {
    assert Restrict(l, order[..0]) == map[];
    assert NonEmptyEntries(map[]) == map[];
    assert base + map[] == base;
  }

  lemma RestrictToAll(l: StringMap, order: seq<string>)
    requires Enumerates(order, l)
    ensures Restrict(l, order[..|order|]) == l
  {
    assert order[..|order|] == order;
  }

  lemma UpdateAfterUnion(base: StringMap, written: StringMap, key: string, value: NString)
    ensures (base + written)[key := value] == base + written[key := value]
  {
  }

  /** One more key of the iteration: its entry joins the written ones when non-empty. */
  lemma RestrictStep(l: StringMap, keys: seq<string>, key: string)
    requires key in l
    ensures NonEmpty(l[key]) ==> NonEmptyEntries(Restrict(l, keys + [key])) == NonEmptyEntries(Restrict(l, keys))[key := l[key]]
    ensures !NonEmpty(l[key]) ==> NonEmptyEntries(Restrict(l, keys + [key])) == NonEmptyEntries(Restrict(l, keys))
  {
    var a := NonEmptyEntries(Restrict(l, keys + [key]));
    var b := NonEmptyEntries(Restrict(l, keys));
    if NonEmpty(l[key]) {
      assert a.Keys == b.Keys + {key};
    } else {
      assert a.Keys == b.Keys;
    }
  }

  /** Keys other than trace.id, span.id and the linking keys are never touched. */
  lemma OtherKeysUntouched(m: StringMap, agent: Agent, k: string)
    requires k != "trace.id" && k != "span.id"
    requires agent.linkingMetadata.Returned? && agent.linkingMetadata.value.Some? ==> k !in agent.linkingMetadata.value.value
    ensures k in AfterDecide(m, agent) <==> k in m
    ensures k in m ==> AfterDecide(m, agent)[k] == m[k]
  {
  }

  /** Every value `decide` writes is neither null nor empty: other entries keep their old value. */
  lemma WritesAreNonEmpty(m: StringMap, agent: Agent)
    ensures m.Keys <= AfterDecide(m, agent).Keys
    ensures forall k | k in AfterDecide(m, agent) :: (k in m && AfterDecide(m, agent)[k] == m[k]) || NonEmpty(AfterDecide(m, agent)[k])
  {
  }

  /** trace.id is written exactly when the metadata is non-null and its trace id non-empty. */
  lemma TraceIdWritten(m: StringMap, agent: Agent)
    requires agent.traceMetadata.Returned? && agent.traceMetadata.value.Some?
    requires NonEmpty(agent.traceMetadata.value.value.traceId)
    requires LinkingReached(agent) ==> "trace.id" !in agent.linkingMetadata.value.value
    ensures AfterDecide(m, agent)["trace.id"] == agent.traceMetadata.value.value.traceId
  {
  }

  /** Running `decide` twice with the same agent answers writes nothing new the second time. */
  lemma DecideIdempotent(m: StringMap, agent: Agent)
    ensures AfterDecide(AfterDecide(m, agent), agent) == AfterDecide(m, agent)
  {
  }
}
