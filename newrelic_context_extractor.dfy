/**
 * Reading trace and entity context from the agent. Every reader catches the
 * agent's exceptions and falls back: to null for the trace and span ids and
 * the entity GUID, to the application-name property or "ms-order" for the
 * entity name, and to the local host name or "unknown" for the host name.
 */
module NewRelicContextExtraction {
  import opened Wrappers
  import opened JavaStrings
  import opened NewRelicLogContexts
  import opened NewRelicAgents

  const DEFAULT_APP_NAME: string := "ms-order"
  const DEFAULT_HOSTNAME: string := "unknown"

  /** The record returned by `extractAll`. */
  datatype NewRelicContext = NewRelicContext(
    traceId: NString, spanId: NString, entityGuid: NString, entityName: NString, hostname: NString)

  /** The metadata when the agent answered with a non-null one. */
  predicate HasMetadata(agent: Agent) {
    agent.traceMetadata.Returned? && agent.traceMetadata.value.Some?
  }

  function ExtractTraceId(agent: Agent): (r: NString)
    ensures !HasMetadata(agent) ==> r == None
    ensures HasMetadata(agent) ==> r == agent.traceMetadata.value.value.traceId
  {
    match agent.traceMetadata
    case Threw => None
    case Returned(m) => if m.None? then None else m.value.traceId
  }

  function ExtractSpanId(agent: Agent): (r: NString)
    ensures !HasMetadata(agent) ==> r == None
    ensures HasMetadata(agent) ==> r == agent.traceMetadata.value.value.spanId
  {
    match agent.traceMetadata
    case Threw => None
    case Returned(m) => if m.None? then None else m.value.spanId
  }

  /** `getLinkingMetadataValue`: null on an exception, a null map or a missing key. */
  function LinkingValue(agent: Agent, key: string): (r: NString)
    ensures r.Some? ==> agent.linkingMetadata.Returned? && agent.linkingMetadata.value.Some?
                        && key in agent.linkingMetadata.value.value
                        && agent.linkingMetadata.value.value[key] == r
    ensures (agent.linkingMetadata.Returned? && agent.linkingMetadata.value.Some?
             && key in agent.linkingMetadata.value.value) ==> r == agent.linkingMetadata.value.value[key]
  {
    match agent.linkingMetadata
    case Threw => None
    case Returned(m) => if m.Some? && key in m.value then m.value[key] else None
  }

  /** No fallback: the entity GUID is whatever the linking metadata holds, possibly null. */
  function ExtractEntityGuid(agent: Agent): (r: NString)
    ensures r == LinkingValue(agent, "entity.guid")
  {
    LinkingValue(agent, "entity.guid")
  }

  /**
   * The linking value when non-empty; otherwise `System.getProperty(
   * "newrelic.config.app_name", "ms-order")`, whose answer is `appNameProperty`.
   */
  function ExtractEntityName(agent: Agent, appNameProperty: NString): (r: NString)
    ensures r.Some?
    ensures NonEmpty(LinkingValue(agent, "entity.name")) ==> r == LinkingValue(agent, "entity.name")
    ensures !NonEmpty(LinkingValue(agent, "entity.name")) && appNameProperty.None? ==> r == Some(DEFAULT_APP_NAME)
    ensures !NonEmpty(LinkingValue(agent, "entity.name")) && appNameProperty.Some? ==> r == appNameProperty
  {
    var name := LinkingValue(agent, "entity.name");
    if !NonEmpty(name) then (if appNameProperty.Some? then appNameProperty else Some(DEFAULT_APP_NAME))
    else name
  }

  /** `getLocalHostname`: the local host's name, or "unknown" when the lookup throws. */
  function LocalHostname(localHost: Call<string>): (r: string)
    ensures localHost.Threw? ==> r == DEFAULT_HOSTNAME
    ensures localHost.Returned? ==> r == localHost.value
  {
    match localHost
    case Returned(h) => h
    case Threw => DEFAULT_HOSTNAME
  }

  function ExtractHostname(agent: Agent, localHost: Call<string>): (r: NString)
    ensures r.Some?
    ensures NonEmpty(LinkingValue(agent, "hostname")) ==> r == LinkingValue(agent, "hostname")
    ensures !NonEmpty(LinkingValue(agent, "hostname")) ==> r == Some(LocalHostname(localHost))
  {
    var hostname := LinkingValue(agent, "hostname");
    if !NonEmpty(hostname) then Some(LocalHostname(localHost)) else hostname
  }

  /** All five readers, packed in the record's order; none of them lets an exception out. */
  function ExtractAll(agent: Agent, appNameProperty: NString, localHost: Call<string>): (r: NewRelicContext)
    ensures r.traceId == ExtractTraceId(agent) && r.spanId == ExtractSpanId(agent)
    ensures r.entityGuid == ExtractEntityGuid(agent)
    ensures r.entityName == ExtractEntityName(agent, appNameProperty) && r.entityName.Some?
    ensures r.hostname == ExtractHostname(agent, localHost) && r.hostname.Some?
  {
    NewRelicContext(ExtractTraceId(agent), ExtractSpanId(agent), ExtractEntityGuid(agent),
                    ExtractEntityName(agent, appNameProperty), ExtractHostname(agent, localHost))
  }

  /** An agent that is unavailable yields no trace data, but a name and a host name still. */
  lemma UnavailableAgent(appNameProperty: NString, localHost: Call<string>)
    ensures var r := ExtractAll(Agent(Threw, Threw), appNameProperty, localHost);
      r.traceId.None? && r.spanId.None? && r.entityGuid.None?
      && r.entityName == (if appNameProperty.Some? then appNameProperty else Some(DEFAULT_APP_NAME))
      && r.hostname == Some(LocalHostname(localHost))
  {
  }
}
