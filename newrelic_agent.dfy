/**
 * What the New Relic agent and the operating system answer, passed in as
 * values: each call either returns or throws, and the code under study
 * only ever looks at which of the two happened and at the returned value.
 */
module NewRelicAgents {
  import opened Wrappers
  import opened JavaStrings
  import opened NewRelicLogContexts

  /** The outcome of a foreign call. */
  datatype Call<+T> = Returned(value: T) | Threw

  /** The agent's `TraceMetadata` of the current transaction. */
  datatype TraceMetadata = TraceMetadata(traceId: NString, spanId: NString)

  /**
   * The answers of `NewRelic.getAgent().getTraceMetadata()` and
   * `getLinkingMetadata()`; `Returned(None)` is a null result.
   */
  datatype Agent = Agent(traceMetadata: Call<Option<TraceMetadata>>, linkingMetadata: Call<Option<StringMap>>)
}
