/**
 * The context of one log record sent to the New Relic Log API: an
 * immutable value, filled through a builder whose setters each overwrite
 * one field.
 */
module NewRelicLogContexts {
  import opened Wrappers
  import opened JavaStrings

  /** A Java `Map<String, String>`: values may be null. */
  type StringMap = map<string, NString>

  datatype LogContext = LogContext(
    message: NString,
    level: NString,
    loggerName: NString,
    threadName: NString,
    threadId: int,
    timestamp: int,
    traceId: NString,
    spanId: NString,
    entityGuid: NString,
    entityName: NString,
    hostname: NString,
    customAttributes: StringMap,
    errorClass: NString,
    errorMessage: NString,
    errorStack: NString)
  {
    /** traceId is neither null nor empty. */
    predicate HasTraceContext()
      ensures HasTraceContext() <==> traceId.Some? && |traceId.value| > 0
    {
      NonEmpty(traceId)
    }

    /** entityGuid is neither null nor empty. */
    predicate HasEntityInfo()
      ensures HasEntityInfo() <==> entityGuid.Some? && |entityGuid.value| > 0
    {
      NonEmpty(entityGuid)
    }

    /** errorClass is neither null nor empty. */
    predicate HasError()
      ensures HasError() <==> errorClass.Some? && |errorClass.value| > 0
    {
      NonEmpty(errorClass)
    }
  }

  /** `order` lists the keys of `m` once each: the order in which the map is iterated. */
  predicate Enumerates(order: seq<string>, m: StringMap) {
    (forall i, j | 0 <= i < j < |order| :: order[i] != order[j])
    && (forall k | k in m :: k in order) && (forall k | k in order :: k in m)
  }

  /** `putAll`: every entry of `extra` is written, overwriting the same key. */
  function PutAll(m: StringMap, extra: StringMap): (r: StringMap)
    ensures r.Keys == m.Keys + extra.Keys
    ensures forall k | k in extra :: r[k] == extra[k]
    ensures forall k | k in m && k !in extra :: r[k] == m[k]
  {
    m + extra
  }

  /**
   * The entries of `m` whose keys are listed in `keys`: what a `forEach`
   * over `m` has visited once it has gone through `keys`.
   */
  function Restrict(m: StringMap, keys: seq<string>): (r: StringMap)
    ensures r.Keys == m.Keys * set k | k in keys
    ensures forall k | k in r :: r[k] == m[k]
  {
    map k | k in m && k in keys :: m[k]
  }

  class Builder {
    var message: NString
    var level: NString
    var loggerName: NString
    var threadName: NString
    var threadId: int
    var timestamp: int
    var traceId: NString
    var spanId: NString
    var entityGuid: NString
    var entityName: NString
    var hostname: NString
    var customAttributes: StringMap
    var errorClass: NString
    var errorMessage: NString
    var errorStack: NString

    /** Every reference starts null, the two longs at 0 and the attribute map empty. */
    constructor()
      ensures message == None && level == None && loggerName == None && threadName == None
      ensures threadId == 0 && timestamp == 0
      ensures traceId == None && spanId == None && entityGuid == None && entityName == None && hostname == None
      ensures customAttributes == map[]
      ensures errorClass == None && errorMessage == None && errorStack == None
    {
      message := None;
      level := None;
      loggerName := None;
      threadName := None;
      threadId := 0;
      timestamp := 0;
      traceId := None;
      spanId := None;
      entityGuid := None;
      entityName := None;
      hostname := None;
      customAttributes := map[];
      errorClass := None;
      errorMessage := None;
      errorStack := None;
    }

    method WithMessage(v: NString)
      modifies this`message
      ensures message == v
    {
      message := v;
    }

    method WithLevel(v: NString)
      modifies this`level
      ensures level == v
    {
      level := v;
    }

    method WithLoggerName(v: NString)
      modifies this`loggerName
      ensures loggerName == v
    {
      loggerName := v;
    }

    method WithThreadName(v: NString)
      modifies this`threadName
      ensures threadName == v
    {
      threadName := v;
    }

    method WithThreadId(v: int)
      modifies this`threadId
      ensures threadId == v
    {
      threadId := v;
    }

    method WithTimestamp(v: int)
      modifies this`timestamp
      ensures timestamp == v
    {
      timestamp := v;
    }

    method WithTraceId(v: NString)
      modifies this`traceId
      ensures traceId == v
    {
      traceId := v;
    }

    method WithSpanId(v: NString)
      modifies this`spanId
      ensures spanId == v
    {
      spanId := v;
    }

    method WithEntityGuid(v: NString)
      modifies this`entityGuid
      ensures entityGuid == v
    {
      entityGuid := v;
    }

    method WithEntityName(v: NString)
      modifies this`entityName
      ensures entityName == v
    {
      entityName := v;
    }

    method WithHostname(v: NString)
      modifies this`hostname
      ensures hostname == v
    {
      hostname := v;
    }

    /** `put`: the key now maps to `value`, every other entry is kept. */
    method AddAttribute(key: string, value: NString)
      modifies this`customAttributes
      ensures customAttributes.Keys == old(customAttributes).Keys + {key}
      ensures customAttributes[key] == value
      ensures forall k | k in old(customAttributes) && k != key :: customAttributes[k] == old(customAttributes)[k]
    {
      customAttributes := customAttributes[key := value];
    }

    /** `putAll` of a map that may be null; null changes nothing. */
    method AddAttributes(attributes: Option<StringMap>)
      modifies this`customAttributes
      ensures attributes.None? ==> customAttributes == old(customAttributes)
      ensures attributes.Some? ==> customAttributes == PutAll(old(customAttributes), attributes.value)
    {
      if attributes.Some? {
        customAttributes := PutAll(customAttributes, attributes.value);
      }
    }

    method WithErrorClass(v: NString)
      modifies this`errorClass
      ensures errorClass == v
    {
      errorClass := v;
    }

    method WithErrorMessage(v: NString)
      modifies this`errorMessage
      ensures errorMessage == v
    {
      errorMessage := v;
    }

    method WithErrorStack(v: NString)
      modifies this`errorStack
      ensures errorStack == v
    {
      errorStack := v;
    }

    /**
     * The built context holds the builder's current values, and a copy of
     * its attribute map: a value, so later `AddAttribute` calls on the
     * builder cannot reach it.
     */
    method Build() returns (c: LogContext)
      ensures c == LogContext(message, level, loggerName, threadName, threadId, timestamp,
                              traceId, spanId, entityGuid, entityName, hostname,
                              customAttributes, errorClass, errorMessage, errorStack)
    {
      c := LogContext(message, level, loggerName, threadName, threadId, timestamp,
                      traceId, spanId, entityGuid, entityName, hostname,
                      customAttributes, errorClass, errorMessage, errorStack);
    }
  }

  /**
   * Adding attributes after `Build` changes the builder but not the context
   * already built.
   */
  method BuiltContextIsACopy(b: Builder, key: string, value: NString) returns (c: LogContext)
    modifies b
    ensures c.customAttributes == old(b.customAttributes)
    ensures key in b.customAttributes && b.customAttributes[key] == value
  {
    c := b.Build();
    b.AddAttribute(key, value);
  }

  /** Of two puts on the same key, the later one wins. */
  method LastPutWins(b: Builder, key: string, first: NString, second: NString)
    modifies b
    ensures key in b.customAttributes && b.customAttributes[key] == second
    ensures b.customAttributes.Keys == old(b.customAttributes).Keys + {key}
  {
    b.AddAttribute(key, first);
    b.AddAttribute(key, second);
  }
}
