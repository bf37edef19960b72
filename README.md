# PII masking and New Relic log shipping for the order service

The order service hides personal data in everything it logs and ships its
log records to New Relic. This project models that logging core and proves
properties about it.

- **Masking strategies.** DNI (8 characters), e-mail, phone, credit card
  (16), RUC (11) and a full mask. Each keeps a few characters of the value
  and puts `***` in place of the rest.
- **Masking rules.** Each rule is a record of name, pattern, strategy and
  priority, made by a builder that refuses to build without the three
  required fields.
- **Masking processor.** It sorts its rules by descending priority and folds
  "replace each left-to-right, non-overlapping match with the strategy's
  output" over them. The default processor holds card, RUC, phone, DNI and
  e-mail rules.
- **Log context and JSON payload.** An immutable log context is built by a
  builder. The payload builder writes it as the JSON body of the New Relic
  Log API: common attributes, the log entry, trace, entity and error fields
  when present, then the custom attributes without the reserved keys.
- **Log API appender.** It is a no-op unless a license key is configured.
  Otherwise it captures a snapshot of each event (including a flattened
  stack trace of the cause chain) and queues it. The queued task masks the
  message, builds the context and the payload, sends it and classifies the
  answer.
- **Helpers around the agent.** The context extractor, with its fallbacks
  when the agent is missing or throws. The trace turbo filter, which copies
  trace and linking metadata into the MDC. The Log API client's "configured"
  and "accepted" tests.
- **Legacy maskers.** The console appender, the turbo filter, the async
  appender, the pattern layout, the URI filter and the static utility each
  re-implement the masks with their own rule set and order. They share one
  model of the mask functions; each file's differences are stated as
  properties.

Nullable Java strings are `Option<string>` (`NString`).

The regular expressions are a closed set written out as matchers:
- whole-word digit runs of an exact length or a length range;
- the e-mail pattern, including the literal `|` in its top-level-domain class;
- the four URI segment patterns.

The user-supplied patterns of the pattern layout, and the HTTP exchange, are
inputs. So are the agent's answers (each either a returned value or a thrown
exception), system properties, environment variables and the local host name.

## Model

| member | source | states |
|---|---|---|
| MaskingStrategies.Dni | src/main/java/com/diegoip/order/config/masking/MaskingStrategies.java:17-22 | `***` unless the length is 8; an 8-character value keeps its first 2 and last 2 characters around `***` (7 characters) |
| MaskingStrategies.EmailFromParts | src/main/java/com/diegoip/order/config/masking/MaskingStrategies.java:35-39 | the result always ends in `@` and the domain; a local part of at most 2 characters leaves only `***` before it, a longer one its first character and `***` |
| MaskingStrategies.Email | src/main/java/com/diegoip/order/config/masking/MaskingStrategies.java:28-40 | `***` without '@'; otherwise the local part is the text before the first '@', and the result is `***@` (local part of at most 2 characters) or the value's first character and `***@`, followed by the second `split("@")` piece; defined only when a second piece exists |
| MaskingStrategies.EmailOfAddress | src/main/java/com/diegoip/order/config/masking/MaskingStrategies.java:28-40 | for an '@'-free local part and a non-empty '@'-free domain the strategy is defined, keeps the domain, and keeps the local part's first character only above 2 characters |
| MaskingStrategies.EmailThrowsOnBareAt | src/main/java/com/diegoip/order/config/masking/MaskingStrategies.java:32-34 | with nothing after the '@', `split` yields one piece and reading the domain throws |
| MaskingStrategies.Phone | src/main/java/com/diegoip/order/config/masking/MaskingStrategies.java:46-51 | `***` below 4 characters; otherwise `***` plus the last 3, for any length of 4 or more |
| MaskingStrategies.CreditCard | src/main/java/com/diegoip/order/config/masking/MaskingStrategies.java:57-62 | `***` unless the length is 16; otherwise `***` plus the last 4 (7 characters) |
| MaskingStrategies.Ruc | src/main/java/com/diegoip/order/config/masking/MaskingStrategies.java:68-73 | `***` unless the length is 11; otherwise first 3 + `***` + last 3 |
| MaskingStrategies.FullMask | src/main/java/com/diegoip/order/config/masking/MaskingStrategies.java:78 | always `***` |
| MaskingStrategies.EveryStrategyShowsMask | src/main/java/com/diegoip/order/config/masking/MaskingStrategies.java:17-78 | every strategy's output contains `***` on every branch |
| MaskingRules.EmailAcceptsEveryPattern | src/main/java/com/diegoip/order/config/masking/MaskingStrategies.java:28-40 | the e-mail strategy is defined on every text any pattern can match |
| MaskingRules.BuiltInStrategiesAreSafe | src/main/java/com/diegoip/order/config/masking/MaskingRule.java:11-21 | a rule with any built-in strategy never makes its strategy throw |
| MaskingRules.Builder.constructor | src/main/java/com/diegoip/order/config/masking/MaskingRule.java:42-46 | the fields start unset and the priority starts at 0 |
| MaskingRules.Builder.WithName | src/main/java/com/diegoip/order/config/masking/MaskingRule.java:48-51 | sets the name; the last call wins |
| MaskingRules.Builder.WithPattern | src/main/java/com/diegoip/order/config/masking/MaskingRule.java:53-61 | sets the pattern; the last call wins |
| MaskingRules.Builder.WithStrategy | src/main/java/com/diegoip/order/config/masking/MaskingRule.java:63-66 | sets the strategy; the last call wins |
| MaskingRules.Builder.WithPriority | src/main/java/com/diegoip/order/config/masking/MaskingRule.java:68-71 | sets the priority; the last call wins |
| MaskingRules.Builder.Build | src/main/java/com/diegoip/order/config/masking/MaskingRule.java:73-78 | throws IllegalStateException exactly when name, pattern or strategy is missing; otherwise the rule holds the builder's current values, as an immutable value |
| DetectionPatterns.RunLength | src/main/java/com/diegoip/order/config/masking/MaskingProcessor.java:69 | the run of a character class at a position is maximal and stays in bounds |
| DetectionPatterns.MatchAt | src/main/java/com/diegoip/order/config/masking/MaskingProcessor.java:69-93 | a match at a position ends in bounds, and the matched text has the pattern's shape |
| DetectionPatterns.FindFrom | src/main/java/com/diegoip/order/config/masking/MaskingProcessor.java:45 | `find` returns the leftmost match at or after the cursor, and nothing when no position matches |
| DetectionPatterns.DigitMatchExactly | src/main/java/com/diegoip/order/config/masking/MaskingProcessor.java:69-87 | a digit rule matches at a position exactly when no word character precedes it, the whole digit run there has an allowed length and no word character follows; the match is the whole run |
| DetectionPatterns.NoDigitMatchInShortRuns | src/main/java/com/diegoip/order/config/masking/MaskingProcessor.java:69-87 | a text whose digit runs are all shorter than the minimum has no match |
| DetectionPatterns.NoEmailWithoutAt | src/main/java/com/diegoip/order/config/masking/MaskingProcessor.java:93 | without '@' the e-mail pattern never matches |
| DetectionPatterns.EmailMatchHasAt | src/main/java/com/diegoip/order/config/masking/MaskingProcessor.java:93 | any e-mail match needs an '@' in the text |
| MaskingProcessing.MaskPattern | src/main/java/com/diegoip/order/config/masking/MaskingProcessor.java:40-53 | the `lastEnd` loop returns the specification `MaskAll`: gaps kept, each leftmost non-overlapping match replaced by the strategy's output |
| MaskingProcessing.NoMatchUnchanged | src/main/java/com/diegoip/order/config/masking/MaskingProcessor.java:40-53 | with no match the output equals the input |
| MaskingProcessing.DigitTokenMasked | src/main/java/com/diegoip/order/config/masking/MaskingProcessor.java:40-53 | a lone all-digit text is replaced by the strategy's output iff its length is allowed, and is kept otherwise |
| MaskingProcessing.ShortTextUnchanged | src/main/java/com/diegoip/order/config/masking/MaskingProcessor.java:40-53 | a text shorter than the minimum run is never changed |
| MaskingProcessing.NoAtUnchanged | src/main/java/com/diegoip/order/config/masking/MaskingProcessor.java:40-53 | the e-mail rule leaves '@'-free text unchanged |
| MaskingProcessing.InsertDescending | src/main/java/com/diegoip/order/config/masking/MaskingProcessor.java:19 | inserting into a descending list keeps it descending and adds exactly one element |
| MaskingProcessing.SortedDescending | src/main/java/com/diegoip/order/config/masking/MaskingProcessor.java:19 | the sort is descending by priority and keeps the length |
| MaskingProcessing.SortKeepsEachPriority | src/main/java/com/diegoip/order/config/masking/MaskingProcessor.java:19 | for every priority the sorted list holds the same rules in the same order: a stable permutation |
| MaskingProcessing.SortOfDescending | src/main/java/com/diegoip/order/config/masking/MaskingProcessor.java:19 | an already descending list is left as it is |
| MaskingProcessing.SortRules | src/main/java/com/diegoip/order/config/masking/MaskingProcessor.java:17-19 | the in-place sort of the copied array yields the stable descending sort of its old contents |
| MaskingProcessing.InsertLast | src/main/java/com/diegoip/order/config/masking/MaskingProcessor.java:19 | one insertion step: the prefix becomes the insertion of the next element, the rest untouched |
| MaskingProcessing.MaskingProcessor.constructor | src/main/java/com/diegoip/order/config/masking/MaskingProcessor.java:16-20 | the processor holds the sorted copy of the given list |
| MaskingProcessing.MaskingProcessor.ApplyRule | src/main/java/com/diegoip/order/config/masking/MaskingProcessor.java:40-53 | applying one rule is `MaskAll` of its pattern and strategy |
| MaskingProcessing.MaskingProcessor.Process | src/main/java/com/diegoip/order/config/masking/MaskingProcessor.java:28-38 | null and "" come back unchanged; any other text is the left fold of the rules in sorted order |
| MaskingProcessing.ProcessorBuilder.constructor | src/main/java/com/diegoip/order/config/masking/MaskingProcessor.java:103-104 | the builder starts with no rules |
| MaskingProcessing.ProcessorBuilder.AddRule | src/main/java/com/diegoip/order/config/masking/MaskingProcessor.java:106-109 | appends the rule at the end |
| MaskingProcessing.ProcessorBuilder.Build | src/main/java/com/diegoip/order/config/masking/MaskingProcessor.java:111-113 | a fresh processor over the sorted added rules |
| MaskingProcessing.BuildRule | src/main/java/com/diegoip/order/config/masking/MaskingProcessor.java:67-72 | a rule built with all four values holds exactly those values |
| MaskingProcessing.DefaultProcessor | src/main/java/com/diegoip/order/config/masking/MaskingProcessor.java:65-98 | five rules in the order credit-card, ruc, phone, dni, email, every one safe |
| MaskingProcessing.DefaultRulesSafe | src/main/java/com/diegoip/order/config/masking/MaskingProcessor.java:65-98 | no default rule can make its strategy throw |
| MaskingProcessing.DefaultStrategiesAccept | src/main/java/com/diegoip/order/config/masking/MaskingProcessor.java:65-98 | each default strategy is defined on every match of its own pattern |
| MaskingProcessing.DefaultChain | src/main/java/com/diegoip/order/config/masking/MaskingProcessor.java:65-98 | the default processor's fold is card, then RUC, phone, DNI and e-mail, each over the previous output |
| MaskingProcessing.DefaultMasksCardNumber | src/main/java/com/diegoip/order/config/masking/MaskingProcessor.java:65-72 | a lone 16-digit number becomes `***` plus its last 4 digits |
| MaskingProcessing.DefaultMasksRuc | src/main/java/com/diegoip/order/config/masking/MaskingProcessor.java:73-78 | a lone 11-digit number becomes first 3 + `***` + last 3 |
| MaskingProcessing.DefaultMasksPhone | src/main/java/com/diegoip/order/config/masking/MaskingProcessor.java:79-84 | a lone 9- or 10-digit number becomes `***` plus its last 3 digits |
| MaskingProcessing.DefaultMasksDni | src/main/java/com/diegoip/order/config/masking/MaskingProcessor.java:85-90 | a lone 8-digit number becomes first 2 + `***` + last 2 |
| MaskingProcessing.DefaultKeepsOtherNumbers | src/main/java/com/diegoip/order/config/masking/MaskingProcessor.java:65-98 | a lone number of any other length is left as it is |
| MaskingProcessing.CutTextUnchanged | src/main/java/com/diegoip/order/config/masking/MaskingProcessor.java:40-53 | a digit rule leaves a text unchanged when non-digits cut every run below the minimum |
| MaskingProcessing.OneMatchMasked | src/main/java/com/diegoip/order/config/masking/MaskingProcessor.java:40-53 | with exactly one match, the output is the text before it, the strategy's output on it and the rest unchanged |
| MaskingProcessing.ShortRunsUnchanged | src/main/java/com/diegoip/order/config/masking/MaskingProcessor.java:40-53 | a digit rule leaves a text unchanged when all its digit runs are below the minimum |
| MaskingProcessing.DefaultUnchangedWithoutMatches | src/main/java/com/diegoip/order/config/masking/MaskingProcessor.java:65-98 | a text matched by none of the five default patterns comes back unchanged |
| MaskingProcessing.CardStepOnCardThenDni | src/main/java/com/diegoip/order/config/masking/MaskingProcessor.java:65-72 | on a card number, a separator and a DNI, the card rule masks the card number and leaves the rest as it is |
| MaskingProcessing.MaskedCardRuns | src/main/java/com/diegoip/order/config/masking/MaskingProcessor.java:65-90 | after the card step, no digit run in the text reaches 9, so RUC and phone find nothing |
| MaskingProcessing.DniStepOnCardThenDni | src/main/java/com/diegoip/order/config/masking/MaskingProcessor.java:85-90 | after the card step, the DNI rule masks the DNI and leaves the rest as it is |
| MaskingProcessing.DefaultMasksCardThenDni | src/main/java/com/diegoip/order/config/masking/MaskingProcessor.java:65-98 | a 16-digit and an 8-digit number separated by non-word text without '@' are masked independently, each as it would be alone |
| JsonEscape.EscapeHasNoRawControl | src/main/java/com/diegoip/order/config/newrelic/NewRelicLogPayloadBuilder.java:148-156 | null escapes to ""; the output holds no raw line feed, carriage return or tab |
| JsonEscape.EscapeRoundTrip | src/main/java/com/diegoip/order/config/newrelic/NewRelicLogPayloadBuilder.java:148-156 | decoding the five two-character escapes gives back the input |
| JsonEscape.EscapeInjective | src/main/java/com/diegoip/order/config/newrelic/NewRelicLogPayloadBuilder.java:148-156 | different texts escape to different outputs |
| JsonEscape.EscapeIsPerChar | src/main/java/com/diegoip/order/config/newrelic/NewRelicLogPayloadBuilder.java:150-155 | the chain of five `replace` calls, backslash first, equals escaping character by character |
| JsonEscape.EscapePlain | src/main/java/com/diegoip/order/config/newrelic/NewRelicLogPayloadBuilder.java:148-156 | text without the five special characters is written as it is |
| JsonEscape.FormFeedPassesThrough | src/main/java/com/diegoip/order/config/newrelic/NewRelicLogPayloadBuilder.java:148-156 | other control characters, such as the form feed, are not escaped |
| NewRelicLogContexts.LogContext.HasTraceContext | src/main/java/com/diegoip/order/config/newrelic/NewRelicLogContext.java:63-65 | holds iff traceId is non-null and non-empty |
| NewRelicLogContexts.LogContext.HasEntityInfo | src/main/java/com/diegoip/order/config/newrelic/NewRelicLogContext.java:67-69 | holds iff entityGuid is non-null and non-empty |
| NewRelicLogContexts.LogContext.HasError | src/main/java/com/diegoip/order/config/newrelic/NewRelicLogContext.java:71-73 | holds iff errorClass is non-null and non-empty |
| NewRelicLogContexts.PutAll | src/main/java/com/diegoip/order/config/newrelic/NewRelicLogContext.java:161 | every added entry is written, overwriting the same key; other entries are kept |
| NewRelicLogContexts.Builder.constructor | src/main/java/com/diegoip/order/config/newrelic/NewRelicLogContext.java:82-97 | every field starts null or zero and the attribute map starts empty |
| NewRelicLogContexts.Builder.WithMessage | src/main/java/com/diegoip/order/config/newrelic/NewRelicLogContext.java:99-102 | sets the message and nothing else |
| NewRelicLogContexts.Builder.WithLevel | src/main/java/com/diegoip/order/config/newrelic/NewRelicLogContext.java:104-107 | sets the level and nothing else |
| NewRelicLogContexts.Builder.WithLoggerName | src/main/java/com/diegoip/order/config/newrelic/NewRelicLogContext.java:109-112 | sets the logger name and nothing else |
| NewRelicLogContexts.Builder.WithThreadName | src/main/java/com/diegoip/order/config/newrelic/NewRelicLogContext.java:114-117 | sets the thread name and nothing else |
| NewRelicLogContexts.Builder.WithThreadId | src/main/java/com/diegoip/order/config/newrelic/NewRelicLogContext.java:119-122 | sets the thread id and nothing else |
| NewRelicLogContexts.Builder.WithTimestamp | src/main/java/com/diegoip/order/config/newrelic/NewRelicLogContext.java:124-127 | sets the time stamp and nothing else |
| NewRelicLogContexts.Builder.WithTraceId | src/main/java/com/diegoip/order/config/newrelic/NewRelicLogContext.java:129-132 | sets the trace id and nothing else |
| NewRelicLogContexts.Builder.WithSpanId | src/main/java/com/diegoip/order/config/newrelic/NewRelicLogContext.java:134-137 | sets the span id and nothing else |
| NewRelicLogContexts.Builder.WithEntityGuid | src/main/java/com/diegoip/order/config/newrelic/NewRelicLogContext.java:139-142 | sets the entity guid and nothing else |
| NewRelicLogContexts.Builder.WithEntityName | src/main/java/com/diegoip/order/config/newrelic/NewRelicLogContext.java:144-147 | sets the entity name and nothing else |
| NewRelicLogContexts.Builder.WithHostname | src/main/java/com/diegoip/order/config/newrelic/NewRelicLogContext.java:149-152 | sets the host name and nothing else |
| NewRelicLogContexts.Builder.AddAttribute | src/main/java/com/diegoip/order/config/newrelic/NewRelicLogContext.java:154-157 | the key now maps to the value; every other entry is kept |
| NewRelicLogContexts.Builder.AddAttributes | src/main/java/com/diegoip/order/config/newrelic/NewRelicLogContext.java:159-164 | a null map is a no-op; otherwise `putAll` |
| NewRelicLogContexts.Builder.WithErrorClass | src/main/java/com/diegoip/order/config/newrelic/NewRelicLogContext.java:166-169 | sets the error class and nothing else |
| NewRelicLogContexts.Builder.WithErrorMessage | src/main/java/com/diegoip/order/config/newrelic/NewRelicLogContext.java:171-174 | sets the error message and nothing else |
| NewRelicLogContexts.Builder.WithErrorStack | src/main/java/com/diegoip/order/config/newrelic/NewRelicLogContext.java:176-179 | sets the error stack and nothing else |
| NewRelicLogContexts.Builder.Build | src/main/java/com/diegoip/order/config/newrelic/NewRelicLogContext.java:181-183 | the context holds the builder's current values, with the attribute map copied |
| NewRelicLogContexts.BuiltContextIsACopy | src/main/java/com/diegoip/order/config/newrelic/NewRelicLogContext.java:40 | an attribute added after `build` reaches the builder but not the context already built |
| NewRelicLogContexts.LastPutWins | src/main/java/com/diegoip/order/config/newrelic/NewRelicLogContext.java:154-157 | of two puts on one key, the later value stays |
| NewRelicPayloads.PayloadBuilder.constructor | src/main/java/com/diegoip/order/config/newrelic/NewRelicLogPayloadBuilder.java:19-22 | holds the context, with an empty buffer |
| NewRelicPayloads.PayloadBuilder.Build | src/main/java/com/diegoip/order/config/newrelic/NewRelicLogPayloadBuilder.java:27-36 | clears the buffer first, so the result is the payload text of the context whatever was built before |
| NewRelicPayloads.PayloadBuilder.AppendCommonAttributes | src/main/java/com/diegoip/order/config/newrelic/NewRelicLogPayloadBuilder.java:38-45 | appends the common block: logtype, service, hostname and instrumentation |
| NewRelicPayloads.PayloadBuilder.AppendLogs | src/main/java/com/diegoip/order/config/newrelic/NewRelicLogPayloadBuilder.java:47-62 | appends the log entry: unquoted time stamp, escaped message, then the attribute sections in order |
| NewRelicPayloads.PayloadBuilder.AppendLogAttributes | src/main/java/com/diegoip/order/config/newrelic/NewRelicLogPayloadBuilder.java:64-72 | appends the seven fixed log attributes, level unescaped and thread.id unquoted |
| NewRelicPayloads.PayloadBuilder.AppendTraceContext | src/main/java/com/diegoip/order/config/newrelic/NewRelicLogPayloadBuilder.java:74-84 | appends trace.id and span.id, each only when non-empty; the else branch writes nothing |
| NewRelicPayloads.PayloadBuilder.AppendEntityInfo | src/main/java/com/diegoip/order/config/newrelic/NewRelicLogPayloadBuilder.java:86-101 | appends entity.guid and entity.guids together, entity.name and hostname, each only when non-empty |
| NewRelicPayloads.PayloadBuilder.AppendErrorInfo | src/main/java/com/diegoip/order/config/newrelic/NewRelicLogPayloadBuilder.java:103-121 | appends nothing without an error class; otherwise each non-empty error field |
| NewRelicPayloads.PayloadBuilder.AppendCustomAttributes | src/main/java/com/diegoip/order/config/newrelic/NewRelicLogPayloadBuilder.java:123-137 | appends one escaped field per non-reserved attribute, in iteration order |
| NewRelicPayloads.PayloadBuilder.IsReservedKey | src/main/java/com/diegoip/order/config/newrelic/NewRelicLogPayloadBuilder.java:139-146 | true exactly for the eight reserved names |
| NewRelicPayloads.ReservedKeysWrittenOnce | src/main/java/com/diegoip/order/config/newrelic/NewRelicLogPayloadBuilder.java:74-137 | each reserved key appears once when its value is present and non-empty (error fields also need an error class), and never otherwise, whatever the custom attributes hold |
| NewRelicPayloads.ReservedKeyOnce | src/main/java/com/diegoip/order/config/newrelic/NewRelicLogPayloadBuilder.java:74-137 | a reserved key is written only by its own section, never by the custom attributes |
| NewRelicPayloads.ReservedNeverCustom | src/main/java/com/diegoip/order/config/newrelic/NewRelicLogPayloadBuilder.java:129-136 | no custom field carries a reserved key |
| NewRelicPayloads.CustomKeyCount | src/main/java/com/diegoip/order/config/newrelic/NewRelicLogPayloadBuilder.java:129-136 | each non-reserved custom key is written exactly once, and no other key is written |
| NewRelicPayloads.CustomAttributeWritten | src/main/java/com/diegoip/order/config/newrelic/NewRelicLogPayloadBuilder.java:129-136 | every non-reserved attribute appears with its escaped key and escaped value |
| NewRelicPayloads.TraceCount | src/main/java/com/diegoip/order/config/newrelic/NewRelicLogPayloadBuilder.java:74-84 | trace.id and span.id each appear iff their value is non-empty |
| NewRelicPayloads.EntityCount | src/main/java/com/diegoip/order/config/newrelic/NewRelicLogPayloadBuilder.java:86-101 | entity.guid and entity.guids appear together iff the guid is non-empty; entity.name and hostname iff non-empty |
| NewRelicPayloads.ErrorCount | src/main/java/com/diegoip/order/config/newrelic/NewRelicLogPayloadBuilder.java:103-121 | no error field without `hasError`; each error field iff non-empty |
| NewRelicPayloads.LogAttributeCount | src/main/java/com/diegoip/order/config/newrelic/NewRelicLogPayloadBuilder.java:64-72 | the fixed attributes write "level" once and no reserved key |
| NewRelicPayloads.CustomLevelDuplicates | src/main/java/com/diegoip/order/config/newrelic/NewRelicLogPayloadBuilder.java:123-137 | a custom attribute named "level" is not reserved, so "level" is written twice |
| NewRelicPayloads.PayloadShape | src/main/java/com/diegoip/order/config/newrelic/NewRelicLogPayloadBuilder.java:27-36 | the payload starts with `[{"common":` and ends with `}]` |
| NewRelicContextExtraction.ExtractTraceId | src/main/java/com/diegoip/order/config/newrelic/NewRelicContextExtractor.java:21-28 | null when the agent throws or returns null metadata; otherwise the metadata's trace id |
| NewRelicContextExtraction.ExtractSpanId | src/main/java/com/diegoip/order/config/newrelic/NewRelicContextExtractor.java:33-40 | null when the agent throws or returns null metadata; otherwise the metadata's span id |
| NewRelicContextExtraction.LinkingValue | src/main/java/com/diegoip/order/config/newrelic/NewRelicContextExtractor.java:84-91 | null on an exception or a null map; otherwise the map lookup |
| NewRelicContextExtraction.ExtractEntityGuid | src/main/java/com/diegoip/order/config/newrelic/NewRelicContextExtractor.java:45-47 | the linking value with no fallback, so it may be null |
| NewRelicContextExtraction.ExtractEntityName | src/main/java/com/diegoip/order/config/newrelic/NewRelicContextExtractor.java:52-58 | the linking value when non-empty, else the app-name property, else "ms-order"; never null |
| NewRelicContextExtraction.LocalHostname | src/main/java/com/diegoip/order/config/newrelic/NewRelicContextExtractor.java:93-99 | the local host name, or "unknown" when the lookup throws |
| NewRelicContextExtraction.ExtractHostname | src/main/java/com/diegoip/order/config/newrelic/NewRelicContextExtractor.java:63-69 | the linking value when non-empty, else the local host name; never null |
| NewRelicContextExtraction.ExtractAll | src/main/java/com/diegoip/order/config/newrelic/NewRelicContextExtractor.java:74-82 | packs trace, span, guid, name and host name in that order, and the name and host name are never null |
| NewRelicContextExtraction.UnavailableAgent | src/main/java/com/diegoip/order/config/newrelic/NewRelicContextExtractor.java:21-99 | when every agent call throws, no exception escapes: ids and guid are null, name and host name fall back |
| NewRelicLogApi.LogApiClient.constructor | src/main/java/com/diegoip/order/config/newrelic/NewRelicLogApiClient.java:18-22 | the license key is fixed at construction |
| NewRelicLogApi.LogApiClient.IsConfigured | src/main/java/com/diegoip/order/config/newrelic/NewRelicLogApiClient.java:74-76 | holds iff the key is non-null and non-empty |
| NewRelicLogApi.LogApiClient.Settings | src/main/java/com/diegoip/order/config/newrelic/NewRelicLogApiClient.java:56-63 | a POST of JSON to the Log API URL, carrying this client's key, with 5000 ms connect and read timeouts |
| NewRelicLogApi.LogApiClient.SendAndVerify | src/main/java/com/diegoip/order/config/newrelic/NewRelicLogApiClient.java:51-54 | true exactly for status 200 or 202; an exchange exception is passed on |
| NewRelicLogApi.ConfiguredExactlyWithKey | src/main/java/com/diegoip/order/config/newrelic/NewRelicLogApiClient.java:74-76 | a null or empty key is never configured; any other key is |
| NewRelicTraceFiltering.Mdc.Put | src/main/java/com/diegoip/order/config/NewRelicTraceTurboFilter.java:29-44 | `MDC.put` overwrites one key and keeps the rest |
| NewRelicTraceFiltering.NonEmptyEntries | src/main/java/com/diegoip/order/config/NewRelicTraceTurboFilter.java:37-44 | exactly the linking entries whose value is non-null and non-empty |
| NewRelicTraceFiltering.Decide | src/main/java/com/diegoip/order/config/NewRelicTraceTurboFilter.java:20-50 | always NEUTRAL; the MDC becomes the specified update from the agent's answers: unchanged when the trace call throws or returns null, and keeping the trace writes when the linking call throws |
| NewRelicTraceFiltering.PutLinking | src/main/java/com/diegoip/order/config/NewRelicTraceTurboFilter.java:37-44 | the `forEach` loop writes exactly the non-empty linking entries over the MDC |
| NewRelicTraceFiltering.OtherKeysUntouched | src/main/java/com/diegoip/order/config/NewRelicTraceTurboFilter.java:24-45 | no key other than trace.id, span.id and the linking keys is added or changed |
| NewRelicTraceFiltering.WritesAreNonEmpty | src/main/java/com/diegoip/order/config/NewRelicTraceTurboFilter.java:29-44 | no key is removed, and every changed or added value is non-empty |
| NewRelicTraceFiltering.TraceIdWritten | src/main/java/com/diegoip/order/config/NewRelicTraceTurboFilter.java:29-31 | a non-empty trace id from the agent ends up under trace.id |
| NewRelicTraceFiltering.DecideIdempotent | src/main/java/com/diegoip/order/config/NewRelicTraceTurboFilter.java:20-50 | running the filter twice with the same agent answers changes nothing more |
| LegacyMasking.MaskMessage | src/main/java/com/diegoip/order/config/MaskingConsoleAppender.java:44-64 | null stays null; any other text goes through card, phone, DNI and e-mail masking, with no RUC rule |
| LegacyMasking.LegacyAgreesWithDefault | src/main/java/com/diegoip/order/config/MaskingConsoleAppender.java:44-64 | where no whole-word 11-digit run is left after card masking, the legacy chain equals the default processor |
| LegacyMasking.LegacyKeepsRuc | src/main/java/com/diegoip/order/config/MaskingConsoleAppender.java:44-64 | an 11-digit token passes the legacy chain unmasked, while the default processor masks it |
| LegacyMasking.LegacyMasksTokensLikeDefault | src/main/java/com/diegoip/order/config/MaskingConsoleAppender.java:66-114 | a lone card number, phone number or DNI is masked as the default processor masks it |
| MaskingConsoleAppenders.MaskedEvent | src/main/java/com/diegoip/order/config/MaskingConsoleAppender.java:24-42 | the same event when masking changed nothing; otherwise a new event with the masked message and copies of logger, level, time stamp, thread and MDC |
| MaskingConsoleAppenders.ThrowableKeptOnlyWhenUnchanged | src/main/java/com/diegoip/order/config/MaskingConsoleAppender.java:28-41 | the throwable survives iff the message needed no masking |
| MaskingTurboFilters.MaskArgument | src/main/java/com/diegoip/order/config/MaskingTurboFilterV2.java:28-30 | a String argument is replaced by its legacy mask; any other argument is kept |
| MaskingTurboFilters.Decide | src/main/java/com/diegoip/order/config/MaskingTurboFilterV2.java:23-35 | always NEUTRAL; every parameter slot is masked in place, a null array is left alone, and `format` is never touched |
| MaskingTurboFilters.MaskSlot | src/main/java/com/diegoip/order/config/MaskingTurboFilterV2.java:27-31 | one slot is masked and every other slot is unchanged |
| MaskingTurboFilters.MaskingKeepsArgumentKinds | src/main/java/com/diegoip/order/config/MaskingTurboFilterV2.java:28-30 | masking never turns a String argument into another kind, or the reverse |
| MaskingAsyncAppenders.FixedAttributes | src/main/java/com/diegoip/order/config/MaskingNewRelicAsyncAppender.java:34-39 | exactly the keys message, log.level, logger.name, thread.name and timestamp |
| MaskingAsyncAppenders.MdcAttributes | src/main/java/com/diegoip/order/config/MaskingNewRelicAsyncAppender.java:42-44 | one entry per MDC key, with its value |
| MaskingAsyncAppenders.AsyncAppender.constructor | src/main/java/com/diegoip/order/config/MaskingNewRelicAsyncAppender.java:20-28 | nothing recorded and no error reported yet |
| MaskingAsyncAppenders.AsyncAppender.Append | src/main/java/com/diegoip/order/config/MaskingNewRelicAsyncAppender.java:27-53 | records the event's attribute map, or reports the exception instead of propagating it |
| MaskingAsyncAppenders.BuildAttributes | src/main/java/com/diegoip/order/config/MaskingNewRelicAsyncAppender.java:32-44 | the puts yield the fixed entries overwritten by the MDC entries |
| MaskingAsyncAppenders.PutMdc | src/main/java/com/diegoip/order/config/MaskingNewRelicAsyncAppender.java:42-44 | the `forEach` loop leaves the fixed map updated with every MDC entry |
| MaskingAsyncAppenders.MdcOverridesMessage | src/main/java/com/diegoip/order/config/MaskingNewRelicAsyncAppender.java:34-44 | an MDC key "message" replaces the masked message with its unmasked value |
| MaskingAsyncAppenders.MessageMaskedUnlessOverridden | src/main/java/com/diegoip/order/config/MaskingNewRelicAsyncAppender.java:34-44 | without such a key the message attribute is the masked message |
| MaskingAsyncAppenders.FixedKeysOnly | src/main/java/com/diegoip/order/config/MaskingNewRelicAsyncAppender.java:34-44 | with a null or empty MDC the map has exactly the five fixed keys |
| MaskingPatternLayouts.JoinSnoc | src/main/java/com/diegoip/order/config/MaskingPatternLayout.java:16-22 | adding a pattern extends the alternation by `\|` and the new pattern |
| MaskingPatternLayouts.JoinSplitsBack | src/main/java/com/diegoip/order/config/MaskingPatternLayout.java:16-22 | for non-empty patterns without `\|`, splitting the alternation at `\|` gives back the patterns in addition order |
| MaskingPatternLayouts.LayoutMask | src/main/java/com/diegoip/order/config/MaskingPatternLayout.java:48-84 | `***` below 4; 8 digits keep 2+2; '@' takes the e-mail rule before the digit rules; 9-10 digits keep the last 3; 16 keep the last 4; anything else keeps 2+2 above length 4 |
| MaskingPatternLayouts.LayoutMaskShowsMask | src/main/java/com/diegoip/order/config/MaskingPatternLayout.java:48-84 | every defined output contains `***` |
| MaskingPatternLayouts.RescanLeavesNoMatch | src/main/java/com/diegoip/order/config/MaskingPatternLayout.java:37-43 | when the rescan finishes, nothing in the result matches |
| MaskingPatternLayouts.RescanFuelMonotone | src/main/java/com/diegoip/order/config/MaskingPatternLayout.java:37-43 | once some fuel suffices, more fuel gives the same result |
| MaskingPatternLayouts.RescanLoop | src/main/java/com/diegoip/order/config/MaskingPatternLayout.java:35-45 | the while loop replaces the leftmost match and rescans from the start, as the specification `Rescan` states |
| MaskingPatternLayouts.MaskingPatternLayout.constructor | src/main/java/com/diegoip/order/config/MaskingPatternLayout.java:13-14 | no pattern and no compiled alternation |
| MaskingPatternLayouts.MaskingPatternLayout.AddMaskPattern | src/main/java/com/diegoip/order/config/MaskingPatternLayout.java:16-22 | appends the pattern and recompiles the alternation of all patterns so far, in addition order |
| MaskingPatternLayouts.MaskingPatternLayout.MaskMessage | src/main/java/com/diegoip/order/config/MaskingPatternLayout.java:29-46 | with no pattern the line comes back unchanged; otherwise the rescan loop with the layout mask |
| UriMasking.DigitGroupAt | src/main/java/com/diegoip/order/config/NewRelicUriMaskingFilter.java:26-29 | the captured group is all digits with an allowed length, followed by '/', '?' or the end |
| UriMasking.EmailGroupAt | src/main/java/com/diegoip/order/config/NewRelicUriMaskingFilter.java:27 | the captured e-mail group contains '@' and no '/' |
| UriMasking.FindSegment | src/main/java/com/diegoip/order/config/NewRelicUriMaskingFilter.java:71-97 | `find` returns the first position where the segment matches, and nothing when none does |
| UriMasking.StageGroup | src/main/java/com/diegoip/order/config/NewRelicUriMaskingFilter.java:71-97 | the group of the first match only |
| UriMasking.Stage | src/main/java/com/diegoip/order/config/NewRelicUriMaskingFilter.java:71-103 | a stage without a match leaves the URI unchanged |
| UriMasking.MaskUri | src/main/java/com/diegoip/order/config/NewRelicUriMaskingFilter.java:63-106 | null stays null; otherwise the DNI, e-mail, phone and id stages in order |
| UriMasking.UriWithoutSegmentsUnchanged | src/main/java/com/diegoip/order/config/NewRelicUriMaskingFilter.java:63-106 | a URI without /dni/, /email/, /phone/ or /id/ comes back unchanged |
| UriMasking.DniSegmentMasked | src/main/java/com/diegoip/order/config/NewRelicUriMaskingFilter.java:71-76 | "/dni/" + 8 digits becomes "/dni/" + first 2 + `***` + last 2 |
| UriMasking.OnlyFirstValueMasked | src/main/java/com/diegoip/order/config/NewRelicUriMaskingFilter.java:72-75 | of two different DNI segments, only the first found is masked |
| UriMasking.LongIdUnchanged | src/main/java/com/diegoip/order/config/NewRelicUriMaskingFilter.java:95-103 | an id of more than 8 digits is left unchanged |
| UriMasking.EmailSegmentThrows | src/main/java/com/diegoip/order/config/NewRelicUriMaskingFilter.java:108-119 | "/email/x@@" makes the filter throw, while the corrected filter masks it |
| UriMasking.CorrectedMaskUri | src/main/java/com/diegoip/order/config/NewRelicUriMaskingFilter.java:63-120 | the filter with the e-mail domain read safely; null stays null |
| UriMasking.CorrectedMaskUriAgrees | src/main/java/com/diegoip/order/config/NewRelicUriMaskingFilter.java:63-120 | wherever the filter as written does not throw, the corrected filter gives the same URI |
| LogMaskingUtils.MaskDni | src/main/java/com/diegoip/order/util/LogMaskingUtil.java:7-12 | `***` for null or fewer than 4 characters; otherwise first 2 + `***` + last 2, for any length |
| LogMaskingUtils.MaskEmail | src/main/java/com/diegoip/order/util/LogMaskingUtil.java:14-26 | `***` for null or no '@'; throws ArrayIndexOutOfBoundsException exactly when `split("@")` has no second piece; otherwise ends in `@` and the second piece and shows `***` at position 0 or 1 |
| LogMaskingUtils.MaskPhone | src/main/java/com/diegoip/order/util/LogMaskingUtil.java:28-33 | `***` for null or fewer than 4 characters; otherwise `***` plus the last 3 |
| LogMaskingUtils.MaskCardNumber | src/main/java/com/diegoip/order/util/LogMaskingUtil.java:35-40 | `***` for null or fewer than 4 characters; otherwise `***` plus the last 4 |
| LogMaskingUtils.MaskGeneric | src/main/java/com/diegoip/order/util/LogMaskingUtil.java:42-47 | `***` for null or at most 4 characters; otherwise first 2 + `***` + last 2 |
| LogMaskingUtils.DniLooserThanStrategy | src/main/java/com/diegoip/order/util/LogMaskingUtil.java:7-12 | agrees with the DNI strategy on 8 characters and differs from it on every other length of 4 or more |
| LogMaskingUtils.PhoneMatchesStrategy | src/main/java/com/diegoip/order/util/LogMaskingUtil.java:28-33 | identical to the phone strategy |
| LogMaskingUtils.CardLooserThanStrategy | src/main/java/com/diegoip/order/util/LogMaskingUtil.java:35-40 | agrees with the card strategy on 16 characters and differs from it on every other length of 4 or more |
| LogMaskingUtils.EmailMatchesStrategy | src/main/java/com/diegoip/order/util/LogMaskingUtil.java:14-26 | identical to the e-mail strategy wherever that one is defined, and throws everywhere else |
| LogMaskingUtils.MaskEmailThrowsOnBareAt | src/main/java/com/diegoip/order/util/LogMaskingUtil.java:18-20 | `maskEmail("user@")` and any other address with nothing after its only '@' throws |
| MaskingLogApiAppenders.ResolveLicenseKey | src/main/java/com/diegoip/order/config/MaskingNewRelicLogApiAppender.java:205-211 | the system property when non-empty, otherwise the environment variable |
| MaskingLogApiAppenders.ResolvedKeyConfigured | src/main/java/com/diegoip/order/config/MaskingNewRelicLogApiAppender.java:205-211 | the resolved key is usable iff the property or the variable is non-empty |
| MaskingLogApiAppenders.ValueFromMdcOrContext | src/main/java/com/diegoip/order/config/MaskingNewRelicLogApiAppender.java:195-203 | the MDC value iff the map is non-null, holds the key and the value is non-empty; otherwise the fallback |
| MaskingLogApiAppenders.MdcOrContextNonEmpty | src/main/java/com/diegoip/order/config/MaskingNewRelicLogApiAppender.java:195-203 | the result is non-empty iff the MDC holds a non-empty value for the key or the fallback is non-empty |
| MaskingLogApiAppenders.StackTraceText | src/main/java/com/diegoip/order/config/MaskingNewRelicLogApiAppender.java:111-130 | the trace text is never empty and ends with a line feed |
| MaskingLogApiAppenders.BuildStackTrace | src/main/java/com/diegoip/order/config/MaskingNewRelicLogApiAppender.java:111-130 | the loop and the recursion yield "Class: msg", one "\tat frame" line per frame in order, then "Caused by: " and the cause's trace |
| MaskingLogApiAppenders.CauseTracesAreSuffixes | src/main/java/com/diegoip/order/config/MaskingNewRelicLogApiAppender.java:125-127 | the trace of every cause in the chain is a suffix of the whole trace |
| MaskingLogApiAppenders.StackTraceLineCount | src/main/java/com/diegoip/order/config/MaskingNewRelicLogApiAppender.java:111-130 | with single-line parts, the trace has one line per throwable plus one per frame |
| MaskingLogApiAppenders.SnapshotOf | src/main/java/com/diegoip/order/config/MaskingNewRelicLogApiAppender.java:80-106 | copies the event's message, logger name, level, thread name, timestamp and MDC, the thread id and the agent context; the three error fields come from the throwable and are null without one |
| MaskingLogApiAppenders.ErrorClassMeansThrowable | src/main/java/com/diegoip/order/config/MaskingNewRelicLogApiAppender.java:82-91 | the error class is set iff the event has a throwable, and then the stack text is set too |
| MaskingLogApiAppenders.CaptureSnapshot | src/main/java/com/diegoip/order/config/MaskingNewRelicLogApiAppender.java:80-106 | captures the snapshot the specification `SnapshotOf` states |
| MaskingLogApiAppenders.PutAllIntoEmpty | src/main/java/com/diegoip/order/config/MaskingNewRelicLogApiAppender.java:180 | putting a non-null MDC into the empty attribute map gives that MDC |
| MaskingLogApiAppenders.LogContextForFields | src/main/java/com/diegoip/order/config/MaskingNewRelicLogApiAppender.java:156-190 | the context has the masked message, the MDC as attributes, trace and entity ids from the MDC or the agent context, and error fields copied only with an error class |
| MaskingLogApiAppenders.BuildLogContext | src/main/java/com/diegoip/order/config/MaskingNewRelicLogApiAppender.java:156-190 | the builder calls yield the specified context |
| MaskingLogApiAppenders.MaskedMessage | src/main/java/com/diegoip/order/config/MaskingNewRelicLogApiAppender.java:138 | null stays null and "" stays "" |
| MaskingLogApiAppenders.OnlyMessageMasked | src/main/java/com/diegoip/order/config/MaskingNewRelicLogApiAppender.java:138-144 | only the message goes through the masking processor; MDC entries reach the context unmasked |
| MaskingLogApiAppenders.ReportsFor | src/main/java/com/diegoip/order/config/MaskingNewRelicLogApiAppender.java:145-153 | nothing for an accepted send, a warning for a rejected one, an error with the exception when sending throws |
| MaskingLogApiAppenders.LogApiAppender.constructor | src/main/java/com/diegoip/order/config/MaskingNewRelicLogApiAppender.java:39-45 | no client, nothing queued, nothing reported |
| MaskingLogApiAppenders.LogApiAppender.Start | src/main/java/com/diegoip/order/config/MaskingNewRelicLogApiAppender.java:48-61 | the client gets the resolved key; a warning when it is not configured, an info message otherwise |
| MaskingLogApiAppenders.LogApiAppender.Append | src/main/java/com/diegoip/order/config/MaskingNewRelicLogApiAppender.java:64-74 | nothing at all when not configured; otherwise exactly one snapshot queued at the end |
| MaskingLogApiAppenders.LogApiAppender.ProcessAndSend | src/main/java/com/diegoip/order/config/MaskingNewRelicLogApiAppender.java:135-154 | masks first, then builds the payload of the specified context, and classifies the exchange as delivered, rejected or errored |
| MaskingLogApiAppenders.LogApiAppender.RunNext | src/main/java/com/diegoip/order/config/MaskingNewRelicLogApiAppender.java:135-154 | runs the oldest queued task, removes it from the queue and reports its outcome |
| MaskingLogApiAppenders.AppendTwiceKeepsOrder | src/main/java/com/diegoip/order/config/MaskingNewRelicLogApiAppender.java:70-73 | two events appended while configured join the end of whatever queue there was, as their snapshots, in call order |

## Left out

- Network I/O: opening the connection, writing the body and reading the status (`send`, `sendPayload`). The exchange's outcome is an input.
- Threads: the single-thread executor, `stop`, `shutdownExecutor` and its five-second grace period are not modelled. The executor is a FIFO queue of snapshots, and a task runs when `RunNext` takes the head.
- Agent and environment: the New Relic agent, `System.getProperty`, `System.getenv`, the local host lookup and the current thread's id are inputs. The agent's answers are a returned value or a thrown exception.
- Output: `System.out`/`System.err` output and the Logback status messages' delivery are left out. Status messages are collected in a `reports` sequence.
- Logback machinery: `doLayout`, `ConsoleAppender.append`, `AppenderBase` and the event and throwable proxies are not modelled. Events are a datatype.
- Agent calls of the URI filter: `doFilter`'s `setTransactionName` and `addCustomParameter` are not modelled; only `maskUri` and `maskEmail` are.
- General regular expressions: the pattern layout's user patterns are an abstract finder (leftmost match within bounds), and its masking is an abstract rewrite. The rescan loop is bounded by fuel. The model does not decide whether the source's unbounded loop terminates.
- Map iteration order: HashMap iteration order is an explicit parameter listing each key once. Payload properties are stated as counts and membership, not positions.
- JSON validity: escaping covers only backslash, quote, LF, CR and TAB. Other control characters pass through raw, so the payload is not claimed to be valid JSON text.
- Object identity: `createMaskedEvent` returning "the same object" is value equality in the model.
- Null guards: the legacy helpers' null guards are left out, because a matcher group is never null. Matched values are plain strings.
- MaskingAsyncAppenders.FixedAttributes: every event carries a level, as Logback guarantees; the exception a null level would raise in `toString` is not modelled.
- MaskingLogApiAppenders.LogApiAppender.Append: requires `start` to have run (a non-null client), as Logback guarantees; the NullPointerException of an unstarted appender is not modelled.
- MaskingPatternLayouts.MaskingPatternLayout.MaskMessage: states the result as the fuel-bounded specification `Rescan`; when the fuel runs out the result is None rather than the source's non-termination.
- NewRelicPayloads.PayloadBuilder.AppendLogAttributes: writes the seven fixed attributes from a list, field after field, rather than through seven separate append statements.
- MaskingStrategies.Email: follows `MaskingStrategies.java:35-39`, where a local part of one or two characters gives `***@domain`, so `a@b.com` becomes `***@b.com`.
- MaskingStrategies.Dni: strings are sequences of `char` values, and `length()`, `substring` and the length thresholds of every strategy (`Dni`, `Phone`, `CreditCard`, `Ruc`, `Email`) and of `LogMaskingUtils.MaskDni`, `MaskPhone`, `MaskCardNumber` and `MaskGeneric` count them. Java counts UTF-16 code units, so a character outside the Basic Multilingual Plane counts twice there. For example `maskDni("\uD83D\uDE00\uD83D\uDE00")` (two emoji) has length 4 in Java and takes the long-value branch, while a two-element model string takes the short one; surrogate pairs are not modelled.
- DetectionPatterns.DigitMatchExactly: `\b` is modelled as the ASCII boundary over `[A-Za-z0-9_]` (`IsWordChar`). Java's `\b` also treats a combining mark (Unicode category Mn, NON_SPACING_MARK) right after a word character as part of the word, so in `"12345678\u0301"` Java finds no `\b` after the eighth digit and does not mask it, while the model masks it. The same boundary is used by `MatchAt`, `FindFrom` and every lemma about the default rules.
- MaskingProcessing.DefaultMask: no idempotence is claimed, because the default chain is not idempotent. On `x@y.com@z.com` the email rule matches `x@y.com` only, giving `***@y.com@z.com`. A second pass then matches `y.com@z.com` and gives `***@y***@z.com`. This is worked out by hand from `MatchAt` and `Email`, not proved as a lemma. The literal text makes the solver unfold the whole five-pattern chain past its resource limit.
- The CRUD and data code of the order service (controllers, services, repositories, entities) and the seed-data script are outside the logging core.

## Findings

| source | as written | input that shows it | evidently intended | confidence | as-written member | corrected member |
|---|---|---|---|---|---|---|
| src/main/java/com/diegoip/order/config/NewRelicUriMaskingFilter.java:108-119 | `maskEmail` reads `split("@")[1]`; the URI e-mail pattern accepts a group whose text after the first '@' is only further '@' characters, and `split` drops those trailing empty pieces | the URI "/email/x@@": the group "x@@" splits to ["x"], so reading the domain throws ArrayIndexOutOfBoundsException and the request fails in the filter | mask such a group like any other address, with an empty domain: "/email/***@" | not executed | UriMasking.EmailSegmentThrows | UriMasking.CorrectedMaskUri |
