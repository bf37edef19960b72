/**
 * The appender that sends masked log records straight to the New Relic Log
 * API. On the logging thread it captures a snapshot of the event (message,
 * logger, level, thread, time stamp, MDC, the agent's trace and entity
 * context, and the error class, message and stack text) and hands it to a
 * single-threaded executor; the executor's task masks the message with the
 * default masking processor, builds the log context and its JSON body and
 * posts it. The executor is a FIFO queue of snapshots here, and running a
 * task is taking the head of that queue.
 */
module MaskingLogApiAppenders {
  import opened Wrappers
  import opened JavaStrings
  import opened NewRelicLogContexts
  import opened NewRelicAgents
  import opened NewRelicContextExtraction
  import opened NewRelicLogApi
  import opened NewRelicPayloads
  import opened LogbackEvents
  import opened MaskingProcessing

  const LICENSE_KEY_PROPERTY: string := "newrelic.config.license_key"
  const LICENSE_KEY_ENV: string := "NEW_RELIC_LICENSE_KEY"

  const NOT_CONFIGURED_WARNING: string := "New Relic License Key not found. Logs will not be sent to Log API."
  const STARTED_INFO: string := "MaskingNewRelicLogApiAppender initialized successfully."
  const SEND_FAILED_WARNING: string := "Failed to send log to New Relic Log API"
  const SEND_ERROR: string := "Error sending log to New Relic Log API"

  /** A status message the appender reports to Logback's status manager. */
  datatype Report = Info(text: string) | Warn(text: string) | Error(text: string, exception: string)

  /** Everything `processAndSend` needs, captured on the logging thread. */
  datatype Snapshot = Snapshot(
    message: NString,
    loggerName: NString,
    level: string,
    threadName: NString,
    threadId: int,
    timestamp: int,
    mdc: Option<StringMap>,
    newRelicContext: NewRelicContext,
    errorClass: NString,
    errorMessage: NString,
    errorStack: NString)

  /**
   * The license key: the system property when it is neither null nor
   * empty, the environment variable (possibly null) otherwise.
   */
  function ResolveLicenseKey(property: NString, env: NString): (r: NString)
    ensures NonEmpty(property) ==> r == property
    ensures !NonEmpty(property) ==> r == env
  {
    if property.None? || |property.value| == 0 then env else property
  }

  /** The appender ends up configured exactly when one of the two sources holds a non-empty key. */
  lemma ResolvedKeyConfigured(property: NString, env: NString)
    ensures NonEmpty(ResolveLicenseKey(property, env)) <==> NonEmpty(property) || NonEmpty(env)
  {
  }

  /**
   * The MDC's value for `key` when the map is non-null, holds the key and
   * the value is neither null nor empty; the fallback in every other case.
   */
  function ValueFromMdcOrContext(mdc: Option<StringMap>, key: string, fallback: NString): (r: NString)
    ensures mdc.Some? && key in mdc.value && NonEmpty(mdc.value[key]) ==> r == mdc.value[key]
    ensures !(mdc.Some? && key in mdc.value && NonEmpty(mdc.value[key])) ==> r == fallback
  {
    if mdc.Some? && key in mdc.value then
      var value := mdc.value[key];
      if value.Some? && |value.value| > 0 then value else fallback
    else fallback
  }

  /** A non-empty result comes from a usable MDC value or from a non-empty fallback. */
  lemma MdcOrContextNonEmpty(mdc: Option<StringMap>, key: string, fallback: NString)
    ensures NonEmpty(ValueFromMdcOrContext(mdc, key, fallback))
            <==> (mdc.Some? && key in mdc.value && NonEmpty(mdc.value[key])) || NonEmpty(fallback)
  {
  }

  /** One "\tat frame\n" line per frame, in order. */
  function FramesText(frames: seq<string>): string {
    if frames == [] then ""
    else FramesText(frames[..|frames| - 1]) + "\tat " + frames[|frames| - 1] + "\n"
  }

  /** The part of a trace that belongs to the throwable itself: its header line and its frames. */
  function OwnText(t: ThrowableProxy): string {
    t.className + ": " + NullText(t.message) + "\n" + FramesText(t.frames)
  }

  /** "Class: message\n", the frame lines, then "Caused by: " and the cause's own text. */
  function StackTraceText(t: ThrowableProxy): (r: string)
    ensures r != [] && r[|r| - 1] == '\n'
  {
    var own := OwnText(t);
    match t.cause
    case None => own
    case Some(c) => own + "Caused by: " + StackTraceText(c)
  }

  /** `buildStackTrace`: a buffer filled frame by frame, then the cause's trace appended. */
  method BuildStackTrace(t: ThrowableProxy) returns (r: string)
    ensures r == StackTraceText(t)
    decreases t
  {
    var sb := t.className + ": " + NullText(t.message) + "\n";
    ghost var header := sb;
    var i := 0;
    while i < |t.frames|
      invariant 0 <= i <= |t.frames|
      invariant sb == header + FramesText(t.frames[..i])
    {
      assert t.frames[..i + 1][..i] == t.frames[..i];
      sb := sb + "\tat " + t.frames[i] + "\n";
      i := i + 1;
    }
    assert t.frames[..i] == t.frames;
    if t.cause.Some? {
      sb := sb + "Caused by: ";
      var causeText := BuildStackTrace(t.cause.value);
      sb := sb + causeText;
    }
    r := sb;
  }

  /** The throwable followed by its causes, outermost first. */
  function CauseChain(t: ThrowableProxy): (r: seq<ThrowableProxy>)
    ensures |r| >= 1 && r[0] == t
  {
    match t.cause
    case None => [t]
    case Some(c) => [t] + CauseChain(c)
  }

  predicate IsSuffix(a: string, b: string) {
    |a| <= |b| && b[|b| - |a|..] == a
  }

  lemma SuffixTransitive(a: string, b: string, c: string)
    requires IsSuffix(a, b) && IsSuffix(b, c)
    ensures IsSuffix(a, c)
  {
    assert c[|c| - |a|..] == c[|c| - |b|..][|b| - |a|..];
  }

  /** Every throwable of the chain has its whole trace at the end of the outermost one's. */
  lemma {:induction false} CauseTracesAreSuffixes(t: ThrowableProxy, k: nat)
    requires k < |CauseChain(t)|
    ensures IsSuffix(StackTraceText(CauseChain(t)[k]), StackTraceText(t))
  {
    if k == 0 {
      var whole := StackTraceText(t);
      assert whole[|whole| - |whole|..] == whole;
    } else {
      var c := t.cause.value;
      CauseTracesAreSuffixes(c, k - 1);
      assert CauseChain(t)[k] == CauseChain(c)[k - 1];
      var mid := StackTraceText(c);
      var whole := StackTraceText(t);
      assert whole == (OwnText(t) + "Caused by: ") + mid;
      assert IsSuffix(mid, whole);
      SuffixTransitive(StackTraceText(CauseChain(c)[k - 1]), mid, whole);
    }
  }

  function CountNewlines(s: string): (r: nat)
    ensures r <= |s|
  {
    if s == [] then 0 else CountNewlines(s[..|s| - 1]) + (if s[|s| - 1] == '\n' then 1 else 0)
  }

  lemma {:induction false} CountNewlinesAppend(a: string, b: string)
    ensures CountNewlines(a + b) == CountNewlines(a) + CountNewlines(b)
  {
    if b != [] {
      assert (a + b)[..|a + b| - 1] == a + b[..|b| - 1];
      CountNewlinesAppend(a, b[..|b| - 1]);
    } else {
      assert a + b == a;
    }
  }

  predicate NoNewline(s: string) {
    forall i | 0 <= i < |s| :: s[i] != '\n'
  }

  /** Class names, messages and frames of the whole chain hold no line break. */
  predicate SingleLineParts(t: ThrowableProxy) {
    NoNewline(t.className) && NoNewline(NullText(t.message))
    && (forall i | 0 <= i < |t.frames| :: NoNewline(t.frames[i]))
    && (t.cause.Some? ==> SingleLineParts(t.cause.value))
  }

  /** The number of lines: one header per throwable of the chain plus one per frame. */
  function TraceLines(t: ThrowableProxy): nat {
    1 + |t.frames| + (if t.cause.Some? then TraceLines(t.cause.value) else 0)
  }

  lemma NoNewlineCount(s: string)
    requires NoNewline(s)
    ensures CountNewlines(s) == 0
  {
    if s != [] {
      NoNewlineCount(s[..|s| - 1]);
    }
  }

  lemma {:induction false} FramesLines(frames: seq<string>)
    requires forall i | 0 <= i < |frames| :: NoNewline(frames[i])
    ensures CountNewlines(FramesText(frames)) == |frames|
  {
    if frames != [] {
      var init := frames[..|frames| - 1];
      var last := frames[|frames| - 1];
      FramesLines(init);
      NoNewlineCount(last);
      CountNewlinesAppend(FramesText(init) + "\tat " + last, "\n");
      CountNewlinesAppend(FramesText(init) + "\tat ", last);
      CountNewlinesAppend(FramesText(init), "\tat ");
      assert CountNewlines("\tat ") == 0 by { NoNewlineCount("\tat "); }
    }
  }

  /** With single-line parts, the trace has exactly one line per header and per frame. */
  lemma {:induction false} StackTraceLineCount(t: ThrowableProxy)
    requires SingleLineParts(t)
    ensures CountNewlines(StackTraceText(t)) == TraceLines(t)
  {
    var head := t.className + ": " + NullText(t.message);
    NoNewlineCount(t.className);
    NoNewlineCount(NullText(t.message));
    NoNewlineCount(": ");
    CountNewlinesAppend(t.className, ": ");
    CountNewlinesAppend(t.className + ": ", NullText(t.message));
    CountNewlinesAppend(head, "\n");
    FramesLines(t.frames);
    var own := OwnText(t);
    assert own == head + "\n" + FramesText(t.frames);
    CountNewlinesAppend(head + "\n", FramesText(t.frames));
    if t.cause.Some? {
      StackTraceLineCount(t.cause.value);
      NoNewlineCount("Caused by: ");
      CountNewlinesAppend(own, "Caused by: ");
      CountNewlinesAppend(own + "Caused by: ", StackTraceText(t.cause.value));
    }
  }

  /**
   * The snapshot `captureSnapshot` takes: the event's fields, the thread id
   * and agent context read on the logging thread, and the error fields from
   * the throwable when there is one.
   */
  function SnapshotOf(event: LoggingEvent, threadId: int, context: NewRelicContext): (r: Snapshot)
    ensures r.message == event.formattedMessage && r.level == event.level && r.mdc == event.mdc
    ensures r.loggerName == event.loggerName && r.threadName == event.threadName && r.timestamp == event.timestamp
    ensures r.threadId == threadId && r.newRelicContext == context
    ensures event.throwable.None? ==> r.errorClass.None? && r.errorMessage.None? && r.errorStack.None?
    ensures event.throwable.Some? ==>
      r.errorClass == Some(event.throwable.value.className)
      && r.errorMessage == event.throwable.value.message
      && r.errorStack == Some(StackTraceText(event.throwable.value))
  {
    var (errorClass, errorMessage, errorStack) :=
      match event.throwable
      case None => (None, None, None)
      case Some(t) => (Some(t.className), t.message, Some(StackTraceText(t)));
    Snapshot(event.formattedMessage, event.loggerName, event.level, event.threadName, threadId,
             event.timestamp, event.mdc, context, errorClass, errorMessage, errorStack)
  }

  /** The error class is present exactly when the event carries a throwable, and then so is the stack. */
  lemma ErrorClassMeansThrowable(event: LoggingEvent, threadId: int, context: NewRelicContext)
    ensures SnapshotOf(event, threadId, context).errorClass.Some? <==> event.throwable.Some?
    ensures SnapshotOf(event, threadId, context).errorClass.Some? ==> SnapshotOf(event, threadId, context).errorStack.Some?
  {
  }

  method CaptureSnapshot(event: LoggingEvent, threadId: int, context: NewRelicContext) returns (s: Snapshot)
    ensures s == SnapshotOf(event, threadId, context)
  {
    var errorClass: NString := None;
    var errorMessage: NString := None;
    var errorStack: NString := None;
    if event.throwable.Some? {
      var t := event.throwable.value;
      errorClass := Some(t.className);
      errorMessage := t.message;
      var stack := BuildStackTrace(t);
      errorStack := Some(stack);
    }
    s := Snapshot(event.formattedMessage, event.loggerName, event.level, event.threadName, threadId,
                  event.timestamp, event.mdc, context, errorClass, errorMessage, errorStack);
  }

  /** The attributes the context receives: the MDC map, or nothing when it is null. */
  function MdcOrEmpty(mdc: Option<StringMap>): StringMap {
    if mdc.None? then map[] else mdc.value
  }

  lemma PutAllIntoEmpty(mdc: Option<StringMap>)
    ensures mdc.Some? ==> PutAll(map[], mdc.value) == MdcOrEmpty(mdc)
  {
    if mdc.Some? {
      assert PutAll(map[], mdc.value) == map[] + mdc.value;
      assert map[] + mdc.value == mdc.value;
    }
  }

  /**
   * `buildLogContext`: the masked message, the snapshot's fields, the five
   * identifiers from the MDC with the agent context as fallback, the MDC
   * map as custom attributes, and the error fields only when there is an
   * error class.
   */
  function LogContextFor(s: Snapshot, masked: NString): LogContext
  {
    var nr := s.newRelicContext;
    var withError := s.errorClass.Some?;
    LogContext(masked, Some(s.level), s.loggerName, s.threadName, s.threadId, s.timestamp,
               ValueFromMdcOrContext(s.mdc, "trace.id", nr.traceId),
               ValueFromMdcOrContext(s.mdc, "span.id", nr.spanId),
               ValueFromMdcOrContext(s.mdc, "entity.guid", nr.entityGuid),
               ValueFromMdcOrContext(s.mdc, "entity.name", nr.entityName),
               ValueFromMdcOrContext(s.mdc, "hostname", nr.hostname),
               MdcOrEmpty(s.mdc),
               if withError then s.errorClass else None,
               if withError then s.errorMessage else None,
               if withError then s.errorStack else None)
  }

  /**
   * Each identifier comes from the MDC when it holds a non-empty value
   * for it and from the agent's context otherwise; the MDC map, null read
   * as empty, becomes the custom attributes; the error fields are all
   * null unless the snapshot has an error class.
   */
  lemma LogContextForFields(s: Snapshot, masked: NString)
    ensures var c := LogContextFor(s, masked);
      c.message == masked && c.level == Some(s.level) && c.customAttributes == MdcOrEmpty(s.mdc)
    ensures var c := LogContextFor(s, masked);
      (MdcHolds(s.mdc, "trace.id") ==> c.traceId == s.mdc.value["trace.id"])
      && (!MdcHolds(s.mdc, "trace.id") ==> c.traceId == s.newRelicContext.traceId)
    ensures var c := LogContextFor(s, masked);
      (MdcHolds(s.mdc, "entity.guid") ==> c.entityGuid == s.mdc.value["entity.guid"])
      && (!MdcHolds(s.mdc, "entity.guid") ==> c.entityGuid == s.newRelicContext.entityGuid)
    ensures var c := LogContextFor(s, masked);
      s.errorClass.None? ==> c.errorClass.None? && c.errorMessage.None? && c.errorStack.None?
    ensures var c := LogContextFor(s, masked);
      s.errorClass.Some? ==> c.errorClass == s.errorClass && c.errorMessage == s.errorMessage && c.errorStack == s.errorStack
  {
  }

  /** The MDC is present and holds a non-empty value under `key`. */
  predicate MdcHolds(mdc: Option<StringMap>, key: string) {
    mdc.Some? && key in mdc.value && NonEmpty(mdc.value[key])
  }

  /** The context filled through the builder, setter by setter, as the source does. */
  method BuildLogContext(s: Snapshot, masked: NString) returns (c: LogContext)
    ensures c == LogContextFor(s, masked)
  {
    var b := new Builder();
    SetEventFields(b, s, masked);
    SetIdentityFields(b, s);
    b.AddAttributes(s.mdc);
    PutAllIntoEmpty(s.mdc);
    SetErrorFields(b, s);
    c := b.Build();
    ContextFromFields(c, s, masked);
  }

  /** A context whose fields are those `buildLogContext` sets is the one `LogContextFor` describes. */
  lemma ContextFromFields(c: LogContext, s: Snapshot, masked: NString)
    requires c.message == masked && c.level == Some(s.level) && c.loggerName == s.loggerName
    requires c.threadName == s.threadName && c.threadId == s.threadId && c.timestamp == s.timestamp
    requires var nr := s.newRelicContext;
      c.traceId == ValueFromMdcOrContext(s.mdc, "trace.id", nr.traceId)
      && c.spanId == ValueFromMdcOrContext(s.mdc, "span.id", nr.spanId)
      && c.entityGuid == ValueFromMdcOrContext(s.mdc, "entity.guid", nr.entityGuid)
      && c.entityName == ValueFromMdcOrContext(s.mdc, "entity.name", nr.entityName)
      && c.hostname == ValueFromMdcOrContext(s.mdc, "hostname", nr.hostname)
    requires c.customAttributes == MdcOrEmpty(s.mdc)
    requires s.errorClass.None? ==> c.errorClass.None? && c.errorMessage.None? && c.errorStack.None?
    requires s.errorClass.Some? ==>
      c.errorClass == s.errorClass && c.errorMessage == s.errorMessage && c.errorStack == s.errorStack
    ensures c == LogContextFor(s, masked)
  {
  }

  /** The error setters, called only when the snapshot has an error class. */
  method SetErrorFields(b: Builder, s: Snapshot)
    requires b.errorClass.None? && b.errorMessage.None? && b.errorStack.None?
    modifies b`errorClass, b`errorMessage, b`errorStack
    ensures s.errorClass.None? ==> b.errorClass.None? && b.errorMessage.None? && b.errorStack.None?
    ensures s.errorClass.Some? ==>
      b.errorClass == s.errorClass && b.errorMessage == s.errorMessage && b.errorStack == s.errorStack
  {
    if s.errorClass.Some? {
      b.WithErrorClass(s.errorClass);
      b.WithErrorMessage(s.errorMessage);
      b.WithErrorStack(s.errorStack);
    }
  }

  /** The first six setters of `buildLogContext`. */
  method SetEventFields(b: Builder, s: Snapshot, masked: NString)
    modifies b`message, b`level, b`loggerName, b`threadName, b`threadId, b`timestamp
    ensures b.message == masked && b.level == Some(s.level) && b.loggerName == s.loggerName
    ensures b.threadName == s.threadName && b.threadId == s.threadId && b.timestamp == s.timestamp
  {
    b.WithMessage(masked);
    b.WithLevel(Some(s.level));
    b.WithLoggerName(s.loggerName);
    b.WithThreadName(s.threadName);
    b.WithThreadId(s.threadId);
    b.WithTimestamp(s.timestamp);
  }

  /** The five identifier setters of `buildLogContext`, each value looked up in the MDC first. */
  method SetIdentityFields(b: Builder, s: Snapshot)
    modifies b`traceId, b`spanId, b`entityGuid, b`entityName, b`hostname
    ensures var nr := s.newRelicContext;
      b.traceId == ValueFromMdcOrContext(s.mdc, "trace.id", nr.traceId)
      && b.spanId == ValueFromMdcOrContext(s.mdc, "span.id", nr.spanId)
      && b.entityGuid == ValueFromMdcOrContext(s.mdc, "entity.guid", nr.entityGuid)
      && b.entityName == ValueFromMdcOrContext(s.mdc, "entity.name", nr.entityName)
      && b.hostname == ValueFromMdcOrContext(s.mdc, "hostname", nr.hostname)
  {
    var nr := s.newRelicContext;
    b.WithTraceId(ValueFromMdcOrContext(s.mdc, "trace.id", nr.traceId));
    b.WithSpanId(ValueFromMdcOrContext(s.mdc, "span.id", nr.spanId));
    b.WithEntityGuid(ValueFromMdcOrContext(s.mdc, "entity.guid", nr.entityGuid));
    b.WithEntityName(ValueFromMdcOrContext(s.mdc, "entity.name", nr.entityName));
    b.WithHostname(ValueFromMdcOrContext(s.mdc, "hostname", nr.hostname));
  }

  /** What `maskingProcessor.process` returns for the default processor. */
  function MaskedMessage(message: NString): (r: NString)
    ensures message.None? <==> r.None?
    ensures message == Some("") ==> r == Some("")
  {
    if message.None? || message.value == "" then message else Some(DefaultMask(message.value))
  }

  /**
   * Only the message is masked on its way to the context: an MDC value
   * that holds a card number reaches the custom attributes as it was.
   */
  lemma OnlyMessageMasked(s: Snapshot)
    requires s.mdc.Some?
    ensures LogContextFor(s, MaskedMessage(s.message)).customAttributes == s.mdc.value
    ensures s.message.Some? && s.message.value != [] ==>
      LogContextFor(s, MaskedMessage(s.message)).message == Some(DefaultMask(s.message.value))
  {
  }

  /** How one task ended: posted and accepted, rejected by the server, or failed with an exception. */
  datatype Outcome = Delivered | Rejected | Errored(exception: string)

  /** The report `processAndSend` leaves for an outcome. */
  function ReportsFor(o: Outcome): (r: seq<Report>)
    ensures o.Delivered? <==> r == []
    ensures o.Rejected? ==> r == [Warn(SEND_FAILED_WARNING)]
    ensures o.Errored? ==> r == [Error(SEND_ERROR, o.exception)]
  {
    match o
    case Delivered => []
    case Rejected => [Warn(SEND_FAILED_WARNING)]
    case Errored(e) => [Error(SEND_ERROR, e)]
  }

  class LogApiAppender {
    /** The client `start` creates; null before `start`. */
    var client: LogApiClient?
    /** The single-threaded executor's queue of submitted snapshots, oldest first. */
    var queue: seq<Snapshot>
    /** The status messages reported so far. */
    var reports: seq<Report>
    var started: bool
    const processor: MaskingProcessor

    /** The processor is the default one: its five rules in priority order. */
    ghost predicate Valid() {
      processor.rules == DEFAULT_RULES
    }

    constructor()
      ensures Valid() && client == null && queue == [] && reports == [] && !started
    {
      var p := DefaultProcessor();
      processor := p;
      client := null;
      queue := [];
      reports := [];
      started := false;
    }

    /** `start`: a client for the resolved key, and a warning or an info report depending on it. */
    method Start(property: NString, env: NString)
      modifies this`client, this`reports, this`started
      ensures client != null && fresh(client) && client.licenseKey == ResolveLicenseKey(property, env)
      ensures !client.IsConfigured() ==> reports == old(reports) + [Warn(NOT_CONFIGURED_WARNING)]
      ensures client.IsConfigured() ==> reports == old(reports) + [Info(STARTED_INFO)]
      ensures started
    {
      var licenseKey := ResolveLicenseKey(property, env);
      client := new LogApiClient(licenseKey);
      if !client.IsConfigured() {
        reports := reports + [Warn(NOT_CONFIGURED_WARNING)];
      } else {
        reports := reports + [Info(STARTED_INFO)];
      }
      started := true;
    }

    /**
     * `append`: nothing at all without a configured client; otherwise one
     * snapshot, taken now, joins the end of the executor's queue.
     */
    method Append(event: LoggingEvent, threadId: int, agent: Agent, appNameProperty: NString, localHost: Call<string>)
      requires client != null
      modifies this`queue
      ensures !client.IsConfigured() ==> queue == old(queue)
      ensures client.IsConfigured() ==>
        queue == old(queue) + [SnapshotOf(event, threadId, ExtractAll(agent, appNameProperty, localHost))]
    {
      if !client.IsConfigured() {
        return;
      }
      var context := ExtractAll(agent, appNameProperty, localHost);
      var snapshot := CaptureSnapshot(event, threadId, context);
      queue := queue + [snapshot];
    }

    /**
     * `processAndSend`: the message is masked, the context and its JSON
     * body built, and the body posted; `exchange` is what the server did
     * with it. A rejection and an exception both end the task normally.
     */
    method ProcessAndSend(snapshot: Snapshot, order: seq<string>, exchange: Exchange) returns (payload: string, outcome: Outcome)
      requires Valid() && client != null
      requires Enumerates(order, MdcOrEmpty(snapshot.mdc))
      ensures payload == PayloadText(LogContextFor(snapshot, MaskedMessage(snapshot.message)), order)
      ensures exchange.Failed? ==> outcome == Errored(exchange.exception)
      ensures exchange.Answered? && Accepted(exchange.status) ==> outcome == Delivered
      ensures exchange.Answered? && !Accepted(exchange.status) ==> outcome == Rejected
    {
      DefaultRulesSafe();
      if snapshot.message.Some? {
        DefaultChain(snapshot.message.value);
      }
      var masked := processor.Process(snapshot.message);
      var context := BuildLogContext(snapshot, masked);
      var builder := new PayloadBuilder(context);
      payload := builder.Build(order);
      var sent := client.SendAndVerify(payload, exchange);
      match sent {
        case Thrown(e) =>
          outcome := Errored(e);
        case Ok(accepted) =>
          outcome := if accepted then Delivered else Rejected;
      }
    }

    /**
     * The executor runs the oldest submitted task and records the warning
     * or error it reports.
     */
    method RunNext(order: seq<string>, exchange: Exchange) returns (payload: string, outcome: Outcome)
      requires Valid() && client != null && queue != []
      requires Enumerates(order, MdcOrEmpty(queue[0].mdc))
      modifies this`queue, this`reports
      ensures queue == old(queue[1..])
      ensures payload == PayloadText(LogContextFor(old(queue[0]), MaskedMessage(old(queue[0]).message)), order)
      ensures exchange.Failed? ==> outcome == Errored(exchange.exception)
      ensures exchange.Answered? ==> (outcome == Delivered <==> Accepted(exchange.status))
      ensures exchange.Answered? ==> !outcome.Errored?
      ensures reports == old(reports) + ReportsFor(outcome)
    {
      var snapshot := queue[0];
      queue := queue[1..];
      payload, outcome := ProcessAndSend(snapshot, order, exchange);
      reports := reports + ReportsFor(outcome);
    }
  }

  /** Events appended while configured are sent in the order they were logged. */
  method AppendTwiceKeepsOrder(a: LogApiAppender, first: LoggingEvent, second: LoggingEvent, threadId: int,
                               agent: Agent, appNameProperty: NString, localHost: Call<string>)
    requires a.client != null && a.client.IsConfigured()
    modifies a`queue
    ensures var context := ExtractAll(agent, appNameProperty, localHost);
            a.queue == old(a.queue) + [SnapshotOf(first, threadId, context), SnapshotOf(second, threadId, context)]
  {
    a.Append(first, threadId, agent, appNameProperty, localHost);
    a.Append(second, threadId, agent, appNameProperty, localHost);
  }
}
