/**
 * The client of the New Relic Log API: a license key fixed at construction,
 * the connection settings it applies, the "is configured" test and the
 * classification of the response status. The HTTP exchange itself is an
 * input: the status the server answered, or the exception raised.
 */
module NewRelicLogApi {
  import opened Wrappers
  import opened JavaStrings

  const LOG_API_URL: string := "https://log-api.newrelic.com/log/v1"
  const CONNECT_TIMEOUT_MS: int := 5000
  const READ_TIMEOUT_MS: int := 5000

  /** What `configureConnection` sets on the connection before the body is written. */
  datatype ConnectionSettings = ConnectionSettings(
    url: string,
    requestMethod: string,
    contentType: string,
    apiKey: NString,
    doOutput: bool,
    connectTimeout: int,
    readTimeout: int)

  /** The server's answer to one request, or the exception the exchange raised. */
  datatype Exchange = Answered(status: int) | Failed(exception: string)

  /** The statuses `sendAndVerify` takes as accepted: 200 OK and 202 Accepted. */
  predicate Accepted(status: int) {
    status == 200 || status == 202
  }

  class LogApiClient {
    const licenseKey: NString

    constructor(licenseKey: NString)
      ensures this.licenseKey == licenseKey
    {
      this.licenseKey := licenseKey;
    }

    /** The key is neither null nor empty. */
    predicate IsConfigured()
      ensures IsConfigured() <==> licenseKey.Some? && |licenseKey.value| > 0
    {
      NonEmpty(licenseKey)
    }

    /** The settings of every request: a POST of JSON, carrying this client's key. */
    function Settings(): (r: ConnectionSettings)
      ensures r.url == LOG_API_URL && r.requestMethod == "POST" && r.contentType == "application/json"
      ensures r.apiKey == licenseKey && r.doOutput
      ensures r.connectTimeout == 5000 && r.readTimeout == 5000
    {
      ConnectionSettings(LOG_API_URL, "POST", "application/json", licenseKey, true,
                         CONNECT_TIMEOUT_MS, READ_TIMEOUT_MS)
    }

    /** True for an answered 200 or 202, false for any other status, the exception passed on otherwise. */
    method SendAndVerify(jsonPayload: string, exchange: Exchange) returns (r: Result<bool>)
      ensures exchange.Answered? ==> r.Ok? && (r.value <==> exchange.status in {200, 202})
      ensures exchange.Failed? ==> r == Thrown(exchange.exception)
    {
      match exchange
      case Failed(e) =>
        return Thrown(e);
      case Answered(responseCode) =>
        return Ok(Accepted(responseCode));
    }
  }

  /** A client built with a null or empty key is never configured; any other key is. */
  lemma ConfiguredExactlyWithKey(key: NString)
    ensures key.None? ==> !NonEmpty(key)
    ensures key == Some("") ==> !NonEmpty(key)
    ensures key.Some? && key.value != "" ==> NonEmpty(key)
  {
  }
}
