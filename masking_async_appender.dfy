/**
 * The appender that records each event in New Relic as a custom "Log"
 * event: a map of attributes holding the masked message and the event's
 * level, logger, thread and time stamp, then every MDC entry on top.
 * The agent's `recordCustomEvent` is an input: it records the map, or
 * raises an exception, which is reported and never propagated.
 */
module MaskingAsyncAppenders {
  import opened Wrappers
  import opened JavaStrings
  import opened NewRelicLogContexts
  import opened LogbackEvents
  import opened LegacyMasking

  /** A value of the `Map<String, Object>`: a String (possibly null) or a boxed long. */
  datatype AttributeValue = Text(text: NString) | Long(n: int)

  type Attributes = map<string, AttributeValue>

  /** How the agent answers `recordCustomEvent`. */
  datatype AgentAnswer = Recorded | Raised(message: NString)

  /** The five fixed attributes, before the MDC. */
  function FixedAttributes(event: LoggingEvent, maskedMessage: NString): (r: Attributes)
    ensures r.Keys == {"message", "log.level", "logger.name", "thread.name", "timestamp"}
  {
    map["message" := Text(maskedMessage), "log.level" := Text(Some(event.level)),
        "logger.name" := Text(event.loggerName), "thread.name" := Text(event.threadName),
        "timestamp" := Long(event.timestamp)]
  }

  /** The masked message, as `maskMessage` computes it. */
  function MaskedMessage(message: NString): NString {
    if message.None? then None else Some(LegacyMask(message.value))
  }

  /** The MDC entries as attribute values. */
  function MdcAttributes(mdc: StringMap): (r: Attributes)
    ensures r.Keys == mdc.Keys
    ensures forall k | k in mdc :: r[k] == Text(mdc[k])
  {
    map k | k in mdc :: Text(mdc[k])
  }

  /** The map handed to `recordCustomEvent`: the fixed attributes, then the MDC overwriting them. */
  function EventAttributes(event: LoggingEvent): Attributes {
    var fixed := FixedAttributes(event, MaskedMessage(event.formattedMessage));
    if event.mdc.Some? && |event.mdc.value| > 0 then fixed + MdcAttributes(event.mdc.value) else fixed
  }

  class AsyncAppender {
    /** The attribute maps the agent has recorded, oldest first. */
    var recorded: seq<Attributes>
    /** The messages reported through `addError`. */
    var errors: seq<string>

    constructor()
      ensures recorded == [] && errors == []
    {
      recorded := [];
      errors := [];
    }

    /**
     * `append`; `mdcOrder` is the iteration order of the MDC map. The event
     * is recorded, or the agent's exception is reported; nothing escapes.
     */
    method Append(event: LoggingEvent, mdcOrder: seq<string>, answer: AgentAnswer)
      requires event.mdc.Some? ==> Enumerates(mdcOrder, event.mdc.value)
      modifies this
      ensures answer.Recorded? ==> recorded == old(recorded) + [EventAttributes(event)] && errors == old(errors)
      ensures answer.Raised? ==>
                recorded == old(recorded)
                && errors == old(errors) + ["Error al enviar log a New Relic: " + NullText(answer.message)]
    {
      var attributes := BuildAttributes(event, mdcOrder);
      match answer
      case Recorded =>
        recorded := recorded + [attributes];
      case Raised(message) =>
        errors := errors + ["Error al enviar log a New Relic: " + NullText(message)];
    }
  }

  /** Fills the attribute map: five puts, then one put per MDC entry in iteration order. */
  method BuildAttributes(event: LoggingEvent, mdcOrder: seq<string>) returns (attributes: Attributes)
    requires event.mdc.Some? ==> Enumerates(mdcOrder, event.mdc.value)
    ensures attributes == EventAttributes(event)
  {
    var maskedMessage := MaskMessage(event.formattedMessage);
    attributes := map[];
    attributes := attributes["message" := Text(maskedMessage)];
    attributes := attributes["log.level" := Text(Some(event.level))];
    attributes := attributes["logger.name" := Text(event.loggerName)];
    attributes := attributes["thread.name" := Text(event.threadName)];
    attributes := attributes["timestamp" := Long(event.timestamp)];
    assert attributes == FixedAttributes(event, MaskedMessage(event.formattedMessage));
    if event.mdc.Some? && |event.mdc.value| > 0 {
      attributes := PutMdc(attributes, event.mdc.value, mdcOrder);
    }
  }

  /** The `forEach(logAttributes::put)` over the MDC: every entry is put, overwriting. */
  method PutMdc(fixed: Attributes, mdc: StringMap, mdcOrder: seq<string>) returns (attributes: Attributes)
    requires Enumerates(mdcOrder, mdc)
    ensures attributes == fixed + MdcAttributes(mdc)
  {
    attributes := fixed;
    var i := 0;
    while i < |mdcOrder|
      invariant 0 <= i <= |mdcOrder|
      invariant attributes == fixed + MdcAttributes(Restrict(mdc, mdcOrder[..i]))
    {
      var key := mdcOrder[i];
      assert mdcOrder[..i + 1] == mdcOrder[..i] + [key];
      VisitStep(fixed, mdc, mdcOrder[..i], key);
      attributes := attributes[key := Text(mdc[key])];
      i := i + 1;
    }
    assert mdcOrder[..i] == mdcOrder;
    assert Restrict(mdc, mdcOrder) == mdc;
  }

  lemma VisitStep(fixed: Attributes, mdc: StringMap, keys: seq<string>, key: string)
    requires key in mdc
    ensures (fixed + MdcAttributes(Restrict(mdc, keys)))[key := Text(mdc[key])] == fixed + MdcAttributes(Restrict(mdc, keys + [key]))
  {
    var a := (fixed + MdcAttributes(Restrict(mdc, keys)))[key := Text(mdc[key])];
    var b := fixed + MdcAttributes(Restrict(mdc, keys + [key]));
    assert a.Keys == b.Keys;
  }

  /** An MDC entry named "message" replaces the masked message with its own, unmasked, value. */
  lemma MdcOverridesMessage(event: LoggingEvent)
    requires event.mdc.Some? && "message" in event.mdc.value
    ensures EventAttributes(event)["message"] == Text(event.mdc.value["message"])
  {
  }

  /** Without an MDC entry named "message", the recorded message is the masked one. */
  lemma MessageMaskedUnlessOverridden(event: LoggingEvent)
    requires event.mdc.None? || "message" !in event.mdc.value
    ensures EventAttributes(event)["message"] == Text(MaskedMessage(event.formattedMessage))
  {
  }

  /** A null or empty MDC leaves exactly the five fixed keys. */
  lemma FixedKeysOnly(event: LoggingEvent)
    requires event.mdc.None? || event.mdc.value == map[]
    ensures EventAttributes(event).Keys == {"message", "log.level", "logger.name", "thread.name", "timestamp"}
  {
  }
}
