/**
 * `parseUrl`: what the constructor makes of the components `parse_url`
 * returns for the endpoint (scheme, host, port).
 */
module Endpoint {
  import opened Wrappers

  /** The parts of `parse_url`'s result the client reads; an absent key is None. */
  datatype UrlParts = UrlParts(scheme: Option<string>, host: Option<string>, port: Option<int>)

  /** The connection target: `$serverHost` and `$serverPort` (None is PHP's null). */
  datatype Endpoint = Endpoint(host: string, port: Option<int>)

  /** The initial value of `$serverPort`, overwritten by `parseUrl` before any use. */
  const FieldDefaultPort: int := 80

  /** The encrypted-transport port used when an https endpoint names no port (or port 0). */
  const HttpsDefaultPort: int := 443

  predicate IsHttps(url: UrlParts)
  {
    url.scheme == Some("https")
  }

  /** `$url['host']`; a missing host is PHP's null, which concatenates as the empty text. */
  function HostText(url: UrlParts): string
  {
    if url.host.Some? then url.host.value else ""
  }

  function Resolve(url: UrlParts): (e: Endpoint)
    ensures IsHttps(url) ==> e.host == "ssl://" + HostText(url)
    ensures !IsHttps(url) ==> e.host == HostText(url) && e.port == url.port
    ensures IsHttps(url) && (url.port.None? || url.port == Some(0)) ==> e.port == Some(HttpsDefaultPort)
    ensures IsHttps(url) && url.port.Some? && url.port != Some(0) ==> e.port == url.port
    ensures e.port == Some(FieldDefaultPort) ==> url.port == Some(FieldDefaultPort)
  {
    var host := HostText(url);
    var port := url.port;
    if IsHttps(url) then
      Endpoint("ssl://" + host, if port.None? || port == Some(0) then Some(HttpsDefaultPort) else port)
    else
      Endpoint(host, port)
  }

  /** An https endpoint always gets a nonzero port and the ssl:// transport prefix. */
  lemma HttpsAlwaysHasPort(url: UrlParts)
    requires IsHttps(url)
    ensures Resolve(url).port.Some? && Resolve(url).port.value != 0
    ensures "ssl://" <= Resolve(url).host
  {
    var e := Resolve(url);
    assert e.host == "ssl://" + HostText(url);
  }

  /** https://host:9000/ keeps its port; https://host/ gets 443; ws://host:8080/ keeps host and port. */
  lemma ResolveExamples()
    ensures Resolve(UrlParts(Some("https"), Some("host"), Some(9000))) == Endpoint("ssl://host", Some(9000))
    ensures Resolve(UrlParts(Some("https"), Some("host"), None)) == Endpoint("ssl://host", Some(443))
    ensures Resolve(UrlParts(Some("ws"), Some("host"), Some(8080))) == Endpoint("host", Some(8080))
    ensures Resolve(UrlParts(Some("http"), Some("host"), None)) == Endpoint("host", None)
  {
  }
}
