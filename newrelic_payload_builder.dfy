/**
 * The JSON body sent to the New Relic Log API for one log record: a
 * one-element array holding a `common` block and a `logs` array with one
 * entry. The text is assembled field by field by a builder that appends to
 * one buffer; the field lists below say which fields it writes and in what
 * order, and the lemmas say which keys can appear and how often.
 */
module NewRelicPayloads {
  import opened Wrappers
  import opened JavaStrings
  import opened JsonEscape
  import opened NewRelicLogContexts

  /** Keys a custom attribute may not use. */
  const RESERVED_KEYS: seq<string> := ["trace.id", "span.id", "entity.guid", "entity.name", "hostname",
                                       "error.class", "error.message", "error.stack"]

  predicate Reserved(key: string) {
    key in RESERVED_KEYS
  }

  /** A JSON value as written: a quoted text (already escaped, or not) or a number. */
  datatype Value = Quoted(text: string) | Number(n: int)

  datatype Field = Field(key: string, value: Value)

  function ValueText(v: Value): string {
    match v
    case Quoted(t) => "\"" + t + "\""
    case Number(n) => DecimalText(n)
  }

  function FieldText(f: Field): string {
    "\"" + f.key + "\":" + ValueText(f.value)
  }

  /** The fields, each preceded by a comma. */
  function Prefixed(fs: seq<Field>): string
    decreases |fs|
  {
    if |fs| == 0 then "" else Prefixed(fs[..|fs| - 1]) + "," + FieldText(fs[|fs| - 1])
  }

  /** The fields separated by commas. */
  function Listed(fs: seq<Field>): string {
    if |fs| == 0 then "" else FieldText(fs[0]) + Prefixed(fs[1..])
  }

  /** How many of the fields carry `key`. */
  function Count(fs: seq<Field>, key: string): (r: nat)
    ensures r <= |fs|
    decreases |fs|
  {
    if |fs| == 0 then 0
    else Count(fs[..|fs| - 1], key) + (if fs[|fs| - 1].key == key then 1 else 0)
  }

  /** A field written only when its value is neither null nor empty. */
  function Optional(key: string, value: NString): seq<Field> {
    if NonEmpty(value) then [Field(key, Quoted(Escape(value)))] else []
  }

  function CommonFields(c: LogContext): seq<Field> {
    [Field("logtype", Quoted("application")),
     Field("service", Quoted(Escape(c.entityName))),
     Field("hostname", Quoted(Escape(c.hostname))),
     Field("instrumentation", Quoted("logback-masking-appender"))]
  }

  /** The level is written as it is, not escaped, and null as the text "null". */
  function LogAttributeFields(c: LogContext): seq<Field> {
    [Field("level", Quoted(NullText(c.level))),
     Field("log.level", Quoted(NullText(c.level))),
     Field("logger.name", Quoted(Escape(c.loggerName))),
     Field("logger.fqcn", Quoted("ch.qos.logback.classic.Logger")),
     Field("thread.name", Quoted(Escape(c.threadName))),
     Field("thread.id", Number(c.threadId)),
     Field("newrelic.source", Quoted("logs.APM"))]
  }

  function TraceFields(c: LogContext): seq<Field> {
    Optional("trace.id", c.traceId) + Optional("span.id", c.spanId)
  }

  /** The entity GUID is written twice, under `entity.guid` and `entity.guids`. */
  function GuidFields(c: LogContext): seq<Field> {
    if NonEmpty(c.entityGuid)
    then [Field("entity.guid", Quoted(Escape(c.entityGuid))), Field("entity.guids", Quoted(Escape(c.entityGuid)))]
    else []
  }

  function EntityFields(c: LogContext): seq<Field> {
    GuidFields(c) + Optional("entity.name", c.entityName) + Optional("hostname", c.hostname)
  }

  function ErrorFields(c: LogContext): seq<Field> {
    if !c.HasError() then []
    else Optional("error.class", c.errorClass) + Optional("error.message", c.errorMessage)
         + Optional("error.stack", c.errorStack)
  }

  /** The field written for one custom attribute: none when its key is reserved. */
  function CustomField(attrs: StringMap, key: string): seq<Field>
    requires key in attrs
  {
    if Reserved(key) then [] else [Field(Escape(Some(key)), Quoted(Escape(attrs[key])))]
  }

  /** One field per custom attribute in iteration order, reserved keys skipped, key and value escaped. */
  function CustomFields(attrs: StringMap, order: seq<string>): seq<Field>
    requires forall i | 0 <= i < |order| :: order[i] in attrs
    decreases |order|
  {
    if |order| == 0 then []
    else CustomFields(attrs, order[..|order| - 1]) + CustomField(attrs, order[|order| - 1])
  }

  /** Everything under `logs[0].attributes`, in the order it is written. */
  function AttributeFields(c: LogContext, order: seq<string>): seq<Field>
    requires Enumerates(order, c.customAttributes)
  {
    LogAttributeFields(c) + TraceFields(c) + EntityFields(c) + ErrorFields(c)
    + CustomFields(c.customAttributes, order)
  }

  function CommonText(c: LogContext): string {
    "\"common\":{\"attributes\":{" + Listed(CommonFields(c)) + "}},"
  }

  function LogsText(c: LogContext, order: seq<string>): string
    requires Enumerates(order, c.customAttributes)
  {
    "\"logs\":[{"
    + FieldText(Field("timestamp", Number(c.timestamp))) + ","
    + FieldText(Field("message", Quoted(Escape(c.message)))) + ","
    + "\"attributes\":{" + Listed(AttributeFields(c, order)) + "}}]"
  }

  /** The whole request body. */
  function PayloadText(c: LogContext, order: seq<string>): string
    requires Enumerates(order, c.customAttributes)
  {
    "[{" + CommonText(c) + LogsText(c, order) + "}]"
  }

  class PayloadBuilder {
    var json: string
    const context: LogContext

    constructor(context: LogContext)
      ensures this.context == context && json == ""
    {
      this.context := context;
      json := "";
    }

    /** Clears the buffer and writes the whole body; building twice gives the same text. */
    method Build(order: seq<string>) returns (r: string)
      requires Enumerates(order, context.customAttributes)
      modifies this`json
      ensures r == json == PayloadText(context, order)
    {
      json := "";
      json := json + "[{";
      assert json == "[{";
      AppendCommonAttributes();
      AppendLogs(order);
      json := json + "}]";
      r := json;
    }

    method AppendCommonAttributes()
      modifies this`json
      ensures json == old(json) + CommonText(context)
    {
      ghost var start := json;
      json := json + "\"common\":{\"attributes\":{";
      ghost var open := json;
      var logtype := Field("logtype", Quoted("application"));
      var service := Field("service", Quoted(Escape(context.entityName)));
      var host := Field("hostname", Quoted(Escape(context.hostname)));
      var instrumentation := Field("instrumentation", Quoted("logback-masking-appender"));
      AppendFirst(open, logtype);
      ghost var fs := [logtype];
      AppendNext(open, fs, service);
      fs := fs + [service];
      AppendNext(open, fs, host);
      fs := fs + [host];
      AppendNext(open, fs, instrumentation);
      fs := fs + [instrumentation];
      assert fs == CommonFields(context);
      json := json + "}},";
      Regroup3(start, "\"common\":{\"attributes\":{", Listed(CommonFields(context)), "}},");
    }

    method AppendLogs(order: seq<string>)
      requires Enumerates(order, context.customAttributes)
      modifies this`json
      ensures json == old(json) + LogsText(context, order)
    {
      ghost var start := json;
      var timestamp := Field("timestamp", Number(context.timestamp));
      var message := Field("message", Quoted(Escape(context.message)));
      json := json + "\"logs\":[{";
      json := json + FieldText(timestamp) + ",";
      json := json + FieldText(message) + ",";
      json := json + "\"attributes\":{";
      ghost var open := json;
      AppendLogAttributes();
      AppendTraceContext();
      AppendEntityInfo();
      AppendErrorInfo();
      AppendCustomAttributes(order);
      SectionsJoin(open, LogAttributeFields(context), TraceFields(context), EntityFields(context),
                   ErrorFields(context), CustomFields(context.customAttributes, order));
      json := json + "}}]";
      Regroup7(start, "\"logs\":[{", FieldText(timestamp), ",", FieldText(message), ",", "\"attributes\":{",
               Listed(AttributeFields(context, order)), "}}]");
    }

    method AppendLogAttributes()
      modifies this`json
      ensures json == old(json) + Listed(LogAttributeFields(context))
    {
      ghost var open := json;
      var fields := LogAttributeFields(context);
      AppendFirst(open, fields[0]);
      assert fields[..1] == [fields[0]];
      AppendNth(open, fields, 1);
      AppendNth(open, fields, 2);
      AppendNth(open, fields, 3);
      AppendNth(open, fields, 4);
      AppendNth(open, fields, 5);
      AppendNth(open, fields, 6);
      assert fields[..7] == fields;
    }

    method AppendTraceContext()
      modifies this`json
      ensures json == old(json) + Prefixed(TraceFields(context))
    {
      ghost var open := json;
      ghost var fs: seq<Field> := [];
      if NonEmpty(context.traceId) {
        var f := Field("trace.id", Quoted(Escape(context.traceId)));
        AppendField(open, fs, f);
        fs := fs + [f];
      }
      if NonEmpty(context.spanId) {
        var f := Field("span.id", Quoted(Escape(context.spanId)));
        AppendField(open, fs, f);
        fs := fs + [f];
      }
      assert fs == TraceFields(context);
    }

    method AppendEntityInfo()
      modifies this`json
      ensures json == old(json) + Prefixed(EntityFields(context))
    {
      var entityGuid, entityName, hostname := context.entityGuid, context.entityName, context.hostname;
      ghost var open := json;
      ghost var fs: seq<Field> := [];
      if NonEmpty(entityGuid) {
        var guid := Field("entity.guid", Quoted(Escape(entityGuid)));
        var guids := Field("entity.guids", Quoted(Escape(entityGuid)));
        AppendField(open, fs, guid);
        fs := fs + [guid];
        AppendField(open, fs, guids);
        fs := fs + [guids];
      }
      assert fs == GuidFields(context);
      if NonEmpty(entityName) {
        var f := Field("entity.name", Quoted(Escape(entityName)));
        AppendField(open, fs, f);
        fs := fs + [f];
      }
      assert fs == GuidFields(context) + Optional("entity.name", entityName);
      if NonEmpty(hostname) {
        var f := Field("hostname", Quoted(Escape(hostname)));
        AppendField(open, fs, f);
        fs := fs + [f];
      }
      assert fs == EntityFields(context);
    }

    method AppendErrorInfo()
      modifies this`json
      ensures json == old(json) + Prefixed(ErrorFields(context))
    {
      if !context.HasError() {
        return;
      }
      var errorClass, errorMessage, errorStack := context.errorClass, context.errorMessage, context.errorStack;
      ghost var open := json;
      ghost var fs: seq<Field> := [];
      if NonEmpty(errorClass) {
        var f := Field("error.class", Quoted(Escape(errorClass)));
        AppendField(open, fs, f);
        fs := fs + [f];
      }
      if NonEmpty(errorMessage) {
        var f := Field("error.message", Quoted(Escape(errorMessage)));
        AppendField(open, fs, f);
        fs := fs + [f];
      }
      if NonEmpty(errorStack) {
        var f := Field("error.stack", Quoted(Escape(errorStack)));
        AppendField(open, fs, f);
        fs := fs + [f];
      }
      assert fs == ErrorFields(context);
    }

    method AppendCustomAttributes(order: seq<string>)
      requires forall k | 0 <= k < |order| :: order[k] in context.customAttributes
      modifies this`json
      ensures json == old(json) + Prefixed(CustomFields(context.customAttributes, order))
    {
      var attrs := context.customAttributes;
      ghost var open := json;
      if |attrs| == 0 {
        FirstKeyKnown(order, attrs);
        return;
      }
      var i := 0;
      while i < |order|
        invariant 0 <= i <= |order|
        invariant json == open + Prefixed(CustomFields(attrs, order[..i]))
      {
        var key := order[i];
        var reserved := IsReservedKey(key);
        CustomFieldsStep(attrs, order, i);
        if !reserved {
          AppendField(open, CustomFields(attrs, order[..i]), Field(Escape(Some(key)), Quoted(Escape(attrs[key]))));
        } else {
          assert CustomFields(attrs, order[..i + 1]) == CustomFields(attrs, order[..i]);
        }
        i := i + 1;
      }
      assert order[..i] == order;
    }

    /** Linear search of the reserved names. */
    method IsReservedKey(key: string) returns (b: bool)
      ensures b == Reserved(key)
      ensures b <==> key in {"trace.id", "span.id", "entity.guid", "entity.name", "hostname",
                             "error.class", "error.message", "error.stack"}
    {
      var i := 0;
      while i < |RESERVED_KEYS|
        invariant 0 <= i <= |RESERVED_KEYS|
        invariant key !in RESERVED_KEYS[..i]
      {
        if RESERVED_KEYS[i] == key {
          return true;
        }
        i := i + 1;
      }
      assert RESERVED_KEYS[..i] == RESERVED_KEYS;
      return false;
    }

    /** Writes the first field of a comma-separated list. */
    method AppendFirst(ghost open: string, f: Field)
      requires json == open
      modifies this`json
      ensures json == open + Listed([f])
    {
      json := json + FieldText(f);
    }

    /** Writes a further field of a list begun at `open`. */
    method AppendNext(ghost open: string, ghost fs: seq<Field>, f: Field)
      requires fs != [] && json == open + Listed(fs)
      modifies this`json
      ensures json == open + Listed(fs + [f])
    {
      json := json + "," + FieldText(f);
      ListedAppend(fs, [f]);
      Regroup3(open, Listed(fs), ",", FieldText(f));
    }

    /** Writes the field at `n` of a list whose first `n` fields are written. */
    method AppendNth(ghost open: string, fields: seq<Field>, n: nat)
      requires 1 <= n < |fields| && json == open + Listed(fields[..n])
      modifies this`json
      ensures json == open + Listed(fields[..n + 1])
    {
      AppendNext(open, fields[..n], fields[n]);
      TakeOneMore(fields, n);
    }

    /** Writes a field preceded by its comma. */
    method AppendField(ghost open: string, ghost fs: seq<Field>, f: Field)
      requires json == open + Prefixed(fs)
      modifies this`json
      ensures json == open + Prefixed(fs + [f])
    {
      json := json + "," + FieldText(f);
      SnocTake(fs, f);
      Regroup3(open, Prefixed(fs), ",", FieldText(f));
    }
  }

  lemma TakeOneMore<T>(fs: seq<T>, n: nat)
    requires n < |fs|
    ensures fs[..n] + [fs[n]] == fs[..n + 1]
  {
  }

  lemma Regroup3(s: string, a: string, b: string, c: string)
    ensures s + a + b + c == s + (a + b + c)
  {
  }

  lemma Regroup7(s: string, a: string, b: string, c: string, d: string, e: string, f: string, g: string, h: string)
    ensures s + a + b + c + d + e + f + g + h == s + (a + b + c + d + e + f + g + h)
  {
  }

  lemma Regroup5(s: string, a: string, b: string, c: string, d: string, e: string)
    ensures s + a + b + c + d + e == s + (a + b + c + d + e)
  {
  }

  lemma SectionsJoin(open: string, first: seq<Field>, a: seq<Field>, b: seq<Field>, c: seq<Field>, d: seq<Field>)
    requires first != []
    ensures open + Listed(first) + Prefixed(a) + Prefixed(b) + Prefixed(c) + Prefixed(d)
         == open + Listed(first + a + b + c + d)
  {
    ListedAppend(first, a);
    ListedAppend(first + a, b);
    ListedAppend(first + a + b, c);
    ListedAppend(first + a + b + c, d);
    Regroup5(open, Listed(first), Prefixed(a), Prefixed(b), Prefixed(c), Prefixed(d));
  }

  lemma FirstKeyKnown(order: seq<string>, m: StringMap)
    requires forall k | 0 <= k < |order| :: order[k] in m
    ensures |order| > 0 ==> order[0] in m
  {
  }

  /** One more key of the iteration order adds its field, unless the key is reserved. */
  lemma CustomFieldsStep(attrs: StringMap, order: seq<string>, i: nat)
    requires i < |order| && forall k | 0 <= k < |order| :: order[k] in attrs
    ensures CustomFields(attrs, order[..i + 1]) == CustomFields(attrs, order[..i]) + CustomField(attrs, order[i])
  {
    TakeTake(order, i);
  }

  lemma {:induction false} PrefixedAppend(a: seq<Field>, b: seq<Field>)
    ensures Prefixed(a + b) == Prefixed(a) + Prefixed(b)
    decreases |b|
  {
    if |b| == 0 {
      AppendNothing(a, b);
    } else {
      var b', last := b[..|b| - 1], b[|b| - 1];
      PrefixedAppend(a, b');
      PrefixedAppendStep(a, b', last);
      DropLast(b);
    }
  }

  lemma PrefixedAppendStep(a: seq<Field>, b: seq<Field>, f: Field)
    requires Prefixed(a + b) == Prefixed(a) + Prefixed(b)
    ensures Prefixed(a + (b + [f])) == Prefixed(a) + Prefixed(b + [f])
  {
    SnocAssoc(a, b, f);
    PrefixedSnoc(a + b, f);
    PrefixedSnoc(b, f);
    Regroup3(Prefixed(a), Prefixed(b), ",", FieldText(f));
  }

  lemma AppendNothing<T>(a: seq<T>, b: seq<T>)
    requires |b| == 0
    ensures a + b == a
  {
  }

  lemma DropLast<T>(b: seq<T>)
    requires |b| > 0
    ensures b == b[..|b| - 1] + [b[|b| - 1]]
  {
  }

  lemma SnocTake<T>(s: seq<T>, x: T)
    ensures (s + [x])[..|s|] == s
  {
  }

  lemma TakeTake<T>(s: seq<T>, i: nat)
    requires i < |s|
    ensures s[..i + 1][..i] == s[..i]
  {
  }

  lemma DropFirstAppend<T>(a: seq<T>, b: seq<T>)
    requires |a| > 0
    ensures (a + b)[1..] == a[1..] + b
  {
  }

  lemma DropLastAppend<T>(a: seq<T>, b: seq<T>)
    requires |b| > 0
    ensures (a + b)[..|a + b| - 1] == a + b[..|b| - 1]
  {
  }

  lemma SnocAssoc<T>(a: seq<T>, b: seq<T>, x: T)
    ensures a + (b + [x]) == (a + b) + [x]
  {
  }

  lemma PrefixedSnoc(fs: seq<Field>, f: Field)
    ensures Prefixed(fs + [f]) == Prefixed(fs) + "," + FieldText(f)
  {
    SnocTake(fs, f);
  }

  lemma ListedAppend(a: seq<Field>, b: seq<Field>)
    requires a != []
    ensures Listed(a + b) == Listed(a) + Prefixed(b)
  {
    DropFirstAppend(a, b);
    PrefixedAppend(a[1..], b);
  }

  lemma {:induction false} CountAppend(a: seq<Field>, b: seq<Field>, key: string)
    ensures Count(a + b, key) == Count(a, key) + Count(b, key)
    decreases |b|
  {
    if |b| == 0 {
      AppendNothing(a, b);
    } else {
      DropLastAppend(a, b);
      CountAppend(a, b[..|b| - 1], key);
    }
  }

  /** The reserved names contain none of the five escaped characters. */
  lemma ReservedIsItsOwnEscape(r: string)
    requires Reserved(r)
    ensures Escape(Some(r)) == r
  {
    assert forall i | 0 <= i < |r| :: !Special(r[i]);
    EscapePlain(r);
  }

  /**
   * With `order` free of repeats, a custom key is written at most once, and
   * exactly once when it is listed and not reserved.
   */
  lemma {:induction false} CustomKeyCount(attrs: StringMap, order: seq<string>, k: string)
    requires forall i | 0 <= i < |order| :: order[i] in attrs
    requires forall i, j | 0 <= i < j < |order| :: order[i] != order[j]
    ensures Count(CustomFields(attrs, order), Escape(Some(k))) == if k in order && !Reserved(k) then 1 else 0
    decreases |order|
  {
    if |order| > 0 {
      var init, last := order[..|order| - 1], order[|order| - 1];
      assert order == init + [last];
      CustomKeyCount(attrs, init, k);
      CountAppend(CustomFields(attrs, init), CustomField(attrs, last), Escape(Some(k)));
      CustomFieldCount(attrs, last, k);
      if k == last {
        assert k !in init;
      } else {
        assert k in order <==> k in init;
      }
    }
  }

  lemma CustomFieldCount(attrs: StringMap, key: string, k: string)
    requires key in attrs
    ensures Count(CustomField(attrs, key), Escape(Some(k))) == if key == k && !Reserved(k) then 1 else 0
  {
    var fs := CustomField(attrs, key);
    if Reserved(key) {
      assert fs == [];
    } else {
      var f := Field(Escape(Some(key)), Quoted(Escape(attrs[key])));
      assert fs == [] + [f];
      CountSnoc([], f, Escape(Some(k)));
      assert Count(fs, Escape(Some(k))) == if f.key == Escape(Some(k)) then 1 else 0;
      if f.key == Escape(Some(k)) {
        EscapeInjective(key, k);
      }
    }
  }

  /** No custom attribute is ever written under a reserved key, whatever its escaping. */
  lemma {:induction false} ReservedNeverCustom(attrs: StringMap, order: seq<string>, r: string)
    requires forall i | 0 <= i < |order| :: order[i] in attrs
    requires Reserved(r)
    ensures Count(CustomFields(attrs, order), r) == 0
    decreases |order|
  {
    if |order| > 0 {
      var init, last := order[..|order| - 1], order[|order| - 1];
      ReservedNeverCustom(attrs, init, r);
      CountAppend(CustomFields(attrs, init), CustomField(attrs, last), r);
      ReservedIsItsOwnEscape(r);
      CustomFieldCount(attrs, last, r);
    }
  }

  lemma CountSnoc(fs: seq<Field>, f: Field, key: string)
    ensures Count(fs + [f], key) == Count(fs, key) + if f.key == key then 1 else 0
  {
    SnocTake(fs, f);
  }

  lemma {:induction false} CountAbsent(fs: seq<Field>, key: string)
    requires forall i | 0 <= i < |fs| :: fs[i].key != key
    ensures Count(fs, key) == 0
    decreases |fs|
  {
    if |fs| > 0 {
      CountAbsent(fs[..|fs| - 1], key);
    }
  }

  lemma OptionalCount(name: string, value: NString, key: string)
    ensures Count(Optional(name, value), key) == if key == name && NonEmpty(value) then 1 else 0
  {
    if NonEmpty(value) {
      CountSnoc([], Field(name, Quoted(Escape(value))), key);
      assert [] + [Field(name, Quoted(Escape(value)))] == Optional(name, value);
    }
  }

  lemma TraceCount(c: LogContext, key: string)
    ensures Count(TraceFields(c), key)
         == (if key == "trace.id" && c.HasTraceContext() then 1 else 0)
          + (if key == "span.id" && NonEmpty(c.spanId) then 1 else 0)
  {
    CountAppend(Optional("trace.id", c.traceId), Optional("span.id", c.spanId), key);
    OptionalCount("trace.id", c.traceId, key);
    OptionalCount("span.id", c.spanId, key);
  }

  lemma EntityCount(c: LogContext, key: string)
    ensures Count(EntityFields(c), key)
         == (if (key == "entity.guid" || key == "entity.guids") && c.HasEntityInfo() then 1 else 0)
          + (if key == "entity.name" && NonEmpty(c.entityName) then 1 else 0)
          + (if key == "hostname" && NonEmpty(c.hostname) then 1 else 0)
  {
    var g := GuidFields(c);
    if c.HasEntityInfo() {
      CountSnoc([g[0]], g[1], key);
      CountSnoc([], g[0], key);
      assert [] + [g[0]] == [g[0]] && [g[0]] + [g[1]] == g;
    }
    CountAppend(g, Optional("entity.name", c.entityName), key);
    CountAppend(g + Optional("entity.name", c.entityName), Optional("hostname", c.hostname), key);
    OptionalCount("entity.name", c.entityName, key);
    OptionalCount("hostname", c.hostname, key);
  }

  lemma ErrorCount(c: LogContext, key: string)
    ensures Count(ErrorFields(c), key)
         == if !c.HasError() then 0
            else (if key == "error.class" then 1 else 0)
                 + (if key == "error.message" && NonEmpty(c.errorMessage) then 1 else 0)
                 + (if key == "error.stack" && NonEmpty(c.errorStack) then 1 else 0)
  {
    if c.HasError() {
      CountAppend(Optional("error.class", c.errorClass), Optional("error.message", c.errorMessage), key);
      CountAppend(Optional("error.class", c.errorClass) + Optional("error.message", c.errorMessage),
                  Optional("error.stack", c.errorStack), key);
      OptionalCount("error.class", c.errorClass, key);
      OptionalCount("error.message", c.errorMessage, key);
      OptionalCount("error.stack", c.errorStack, key);
    }
  }

  /** The event's own attributes use `level` once and none of the reserved names. */
  lemma LogAttributeCount(c: LogContext, key: string)
    requires key == "level" || Reserved(key)
    ensures Count(LogAttributeFields(c), key) == if key == "level" then 1 else 0
  {
    var fs := LogAttributeFields(c);
    if key == "level" {
      assert fs == [fs[0]] + fs[1..];
      CountAbsent(fs[1..], key);
      CountAppend([fs[0]], fs[1..], key);
      CountSnoc([], fs[0], key);
      assert [] + [fs[0]] == [fs[0]];
    } else {
      CountAbsent(fs, key);
    }
  }

  /** How often `key` occurs under `attributes`, as the sum over the five sections. */
  lemma AttributeCount(c: LogContext, order: seq<string>, key: string)
    requires Enumerates(order, c.customAttributes)
    ensures Count(AttributeFields(c, order), key)
         == Count(LogAttributeFields(c), key) + Count(TraceFields(c), key) + Count(EntityFields(c), key)
            + Count(ErrorFields(c), key) + Count(CustomFields(c.customAttributes, order), key)
  {
    var a, t, e, r := LogAttributeFields(c), TraceFields(c), EntityFields(c), ErrorFields(c);
    CountAppend(a, t, key);
    CountAppend(a + t, e, key);
    CountAppend(a + t + e, r, key);
    CountAppend(a + t + e + r, CustomFields(c.customAttributes, order), key);
  }

  /**
   * Trace, entity and error keys occur at most once under `attributes`, and
   * exactly when the context carries a non-empty value for them: a custom
   * attribute can never add or replace one.
   */
  lemma ReservedKeysWrittenOnce(c: LogContext, order: seq<string>)
    requires Enumerates(order, c.customAttributes)
    ensures Count(AttributeFields(c, order), "trace.id") == if c.HasTraceContext() then 1 else 0
    ensures Count(AttributeFields(c, order), "span.id") == if NonEmpty(c.spanId) then 1 else 0
    ensures Count(AttributeFields(c, order), "entity.guid") == if c.HasEntityInfo() then 1 else 0
    ensures Count(AttributeFields(c, order), "entity.name") == if NonEmpty(c.entityName) then 1 else 0
    ensures Count(AttributeFields(c, order), "hostname") == if NonEmpty(c.hostname) then 1 else 0
    ensures Count(AttributeFields(c, order), "error.class") == if c.HasError() then 1 else 0
    ensures Count(AttributeFields(c, order), "error.message") == if c.HasError() && NonEmpty(c.errorMessage) then 1 else 0
    ensures Count(AttributeFields(c, order), "error.stack") == if c.HasError() && NonEmpty(c.errorStack) then 1 else 0
  {
    ReservedKeyOnce(c, order, "trace.id");
    ReservedKeyOnce(c, order, "span.id");
    ReservedKeyOnce(c, order, "entity.guid");
    ReservedKeyOnce(c, order, "entity.name");
    ReservedKeyOnce(c, order, "hostname");
    ReservedKeyOnce(c, order, "error.class");
    ReservedKeyOnce(c, order, "error.message");
    ReservedKeyOnce(c, order, "error.stack");
  }

  /** The count of one reserved key, named by which of the context's values it carries. */
  lemma ReservedKeyOnce(c: LogContext, order: seq<string>, r: string)
    requires Enumerates(order, c.customAttributes) && Reserved(r)
    ensures Count(AttributeFields(c, order), r) == ReservedValueCount(c, r)
  {
    ReservedKeyCount(c, order, r);
  }

  /** 1 when the context has a non-empty value for the reserved key `r`, else 0. */
  function ReservedValueCount(c: LogContext, r: string): nat {
    if r == "trace.id" then (if c.HasTraceContext() then 1 else 0)
    else if r == "span.id" then (if NonEmpty(c.spanId) then 1 else 0)
    else if r == "entity.guid" then (if c.HasEntityInfo() then 1 else 0)
    else if r == "entity.name" then (if NonEmpty(c.entityName) then 1 else 0)
    else if r == "hostname" then (if NonEmpty(c.hostname) then 1 else 0)
    else if r == "error.class" then (if c.HasError() then 1 else 0)
    else if r == "error.message" then (if c.HasError() && NonEmpty(c.errorMessage) then 1 else 0)
    else if r == "error.stack" then (if c.HasError() && NonEmpty(c.errorStack) then 1 else 0)
    else 0
  }

  lemma ReservedKeyCount(c: LogContext, order: seq<string>, r: string)
    requires Enumerates(order, c.customAttributes) && Reserved(r)
    ensures Count(AttributeFields(c, order), r)
         == Count(TraceFields(c), r) + Count(EntityFields(c), r) + Count(ErrorFields(c), r)
    ensures Count(TraceFields(c), r)
         == (if r == "trace.id" && c.HasTraceContext() then 1 else 0)
          + (if r == "span.id" && NonEmpty(c.spanId) then 1 else 0)
    ensures Count(EntityFields(c), r)
         == (if r == "entity.guid" && c.HasEntityInfo() then 1 else 0)
          + (if r == "entity.name" && NonEmpty(c.entityName) then 1 else 0)
          + (if r == "hostname" && NonEmpty(c.hostname) then 1 else 0)
    ensures Count(ErrorFields(c), r)
         == if !c.HasError() then 0
            else (if r == "error.class" then 1 else 0)
                 + (if r == "error.message" && NonEmpty(c.errorMessage) then 1 else 0)
                 + (if r == "error.stack" && NonEmpty(c.errorStack) then 1 else 0)
  {
    AttributeCount(c, order, r);
    ReservedNeverCustom(c.customAttributes, order, r);
    LogAttributeCount(c, r);
    TraceCount(c, r);
    EntityCount(c, r);
    ErrorCount(c, r);
  }

  /**
   * A custom attribute with a name outside the reserved list is written
   * exactly once among the custom fields, with its key and value escaped.
   */
  lemma CustomAttributeWritten(c: LogContext, order: seq<string>, k: string)
    requires Enumerates(order, c.customAttributes)
    requires k in c.customAttributes && !Reserved(k)
    ensures Field(Escape(Some(k)), Quoted(Escape(c.customAttributes[k]))) in AttributeFields(c, order)
    ensures Count(CustomFields(c.customAttributes, order), Escape(Some(k))) == 1
  {
    var attrs := c.customAttributes;
    CustomKeyCount(attrs, order, k);
    CustomFieldListed(attrs, order, k);
    var fixedPart := LogAttributeFields(c) + TraceFields(c) + EntityFields(c) + ErrorFields(c);
    assert AttributeFields(c, order) == fixedPart + CustomFields(attrs, order);
  }

  /** A listed key outside the reserved list has its field among the custom fields. */
  lemma CustomFieldListed(attrs: StringMap, order: seq<string>, k: string)
    requires forall i | 0 <= i < |order| :: order[i] in attrs
    requires k in order && !Reserved(k)
    ensures Field(Escape(Some(k)), Quoted(Escape(attrs[k]))) in CustomFields(attrs, order)
  {
    var i :| 0 <= i < |order| && order[i] == k;
    CustomFieldsStep(attrs, order, i);
    CustomFieldsPrefix(attrs, order, i + 1);
  }

  /** The custom fields of a prefix of the order come first. */
  lemma {:induction false} CustomFieldsPrefix(attrs: StringMap, order: seq<string>, n: nat)
    requires n <= |order| && forall i | 0 <= i < |order| :: order[i] in attrs
    ensures forall f | f in CustomFields(attrs, order[..n]) :: f in CustomFields(attrs, order)
    decreases |order| - n
  {
    if n < |order| {
      CustomFieldsStep(attrs, order, n);
      CustomFieldsPrefix(attrs, order, n + 1);
    } else {
      assert order[..n] == order;
    }
  }

  lemma LevelIsItsOwnEscape()
    ensures Escape(Some("level")) == "level"
  {
    assert forall i | 0 <= i < |"level"| :: !Special("level"[i]);
    EscapePlain("level");
  }

  /**
   * The reserved list leaves out `level`: a custom attribute of that name is
   * written as a second `level` key next to the event's own.
   */
  lemma CustomLevelDuplicates(c: LogContext, order: seq<string>)
    requires Enumerates(order, c.customAttributes)
    requires "level" in c.customAttributes
    ensures Count(AttributeFields(c, order), "level") == 2
  {
    LevelCount(c, order, "level");
  }

  lemma LevelCount(c: LogContext, order: seq<string>, key: string)
    requires key == "level"
    requires Enumerates(order, c.customAttributes) && key in c.customAttributes
    ensures Count(AttributeFields(c, order), key) == 2
  {
    AttributeCount(c, order, key);
    LevelCustomOnce(c.customAttributes, order, key);
    LevelFixedOnce(c, key);
  }

  lemma LevelCustomOnce(attrs: StringMap, order: seq<string>, key: string)
    requires key == "level"
    requires Enumerates(order, attrs) && key in attrs
    ensures Count(CustomFields(attrs, order), key) == 1
  {
    LevelIsItsOwnEscape();
    CustomKeyCount(attrs, order, key);
  }

  /** `level` occurs once among the event's own, trace, entity and error fields. */
  lemma LevelFixedOnce(c: LogContext, key: string)
    requires key == "level"
    ensures Count(LogAttributeFields(c), key) + Count(TraceFields(c), key) + Count(EntityFields(c), key)
            + Count(ErrorFields(c), key) == 1
  {
    LogAttributeCount(c, key);
    assert |key| == 5;
    TraceCount(c, key);
    EntityCount(c, key);
    ErrorCount(c, key);
  }

  /** The body is a one-element JSON array whose object opens with the `common` block. */
  lemma PayloadShape(c: LogContext, order: seq<string>)
    requires Enumerates(order, c.customAttributes)
    ensures var p := PayloadText(c, order);
      |p| >= 13 && p[..11] == "[{\"common\":" && p[|p| - 2..] == "}]"
  {
    Framing(Listed(CommonFields(c)), LogsText(c, order));
  }

  lemma Framing(common: string, logs: string)
    ensures var p := "[{" + ("\"common\":{\"attributes\":{" + common + "}},") + logs + "}]";
      |p| >= 13 && p[..11] == "[{\"common\":" && p[|p| - 2..] == "}]"
  {
  }
}
