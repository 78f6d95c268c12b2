/**
 * `fetchFromEndpoint` with the HTTP client replaced by its answer: each address family has
 * a configured endpoint and the response that endpoint gives to a GET.
 */
module Fetcher {
  import opened Wrappers
  import opened LineParsing

  datatype Family = IPv4 | IPv6

  /** What the HTTP client hands back: a status code and a body. */
  datatype Response = Response(status: int, body: string)

  /** Laravel's Response::successful(): a 2xx status. */
  predicate Successful(response: Response) {
    200 <= response.status < 300
  }

  /** One family's upstream: the configured endpoint (None when the config entry is not a
      string) and the response a GET to it returns. */
  datatype Upstream = Upstream(endpoint: Option<string>, response: Response) {
    /** The GET is only sent for an endpoint that is a non-empty string. */
    predicate Requested() {
      endpoint.Some? && endpoint.value != ""
    }
  }

  /** Both families' upstreams. */
  datatype Network = Network(v4: Upstream, v6: Upstream) {
    function For(family: Family): Upstream {
      match family
      case IPv4 => v4
      case IPv6 => v6
    }
  }

  /** What fetchFromEndpoint returns: the empty list when no GET is sent or the response
      is not a 2xx, otherwise the parsed body. Every element is a parsed entry. */
  function FetchRanges(up: Upstream): (ranges: seq<string>)
    ensures !up.Requested() || !Successful(up.response) ==> ranges == []
    ensures up.Requested() && Successful(up.response) ==> ranges == ParseBody(up.response.body)
    ensures forall k :: 0 <= k < |ranges| ==> IsEntry(ranges[k])
  {
    if !up.Requested() then []
    else if !Successful(up.response) then []
    else ParseBody(up.response.body)
  }

  /** The GETs a fetch sends: one for `family`, or none when the endpoint is unusable. */
  function RequestsFor(family: Family, up: Upstream): seq<Family> {
    if up.Requested() then [family] else []
  }

  /** What one fetch yields: the ranges and the GETs it sent. */
  datatype Fetched = Fetched(ranges: seq<string>, requests: seq<Family>)

  /** What both families' fetches yield. The cache layer only sees these results, never
      the bodies they were parsed from. */
  datatype Fetches = Fetches(v4: Fetched, v6: Fetched) {
    function For(family: Family): Fetched {
      match family
      case IPv4 => v4
      case IPv6 => v6
    }
  }

  /** The results of fetching each family from `net`. */
  function FetchesOf(net: Network): Fetches {
    Fetches(Fetched(FetchRanges(net.v4), RequestsFor(IPv4, net.v4)),
            Fetched(FetchRanges(net.v6), RequestsFor(IPv6, net.v6)))
  }
}
