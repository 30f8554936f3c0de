/**
 `getFromAPI` of location/location.ts: the parse of the geocoding provider's
 JSON body into a `found` record or `null`. The HTTP request, the API key and
 logging are outside the model; the body arrives as a `Response` value.
 */
module Upstream {
  import opened Wrappers
  import opened Records

  /** `geometry.location` of a result. */
  datatype LatLng = LatLng(lat: Coord, lng: Coord)

  /** One entry of `results`; `location` is `None` when `geometry` or `geometry.location` is absent. */
  datatype GeoResult = GeoResult(formattedAddress: string, location: Option<LatLng>)

  /**
   What the lookup produced. `FetchFailed` covers a rejected `fetch` and a body
   that is not JSON: both leave `data` undefined. `Body(None)` is a JSON body
   without a `results` field.
   */
  datatype Response = FetchFailed | Body(results: Option<seq<GeoResult>>)

  /** The body has a first result that carries `geometry.location`. */
  predicate Usable(resp: Response) {
    resp.Body? && resp.results.Some? && |resp.results.value| > 0 && resp.results.value[0].location.Some?
  }

  /** The first result of a usable body. */
  function First(resp: Response): GeoResult
    requires Usable(resp)
  {
    resp.results.value[0]
  }

  /**
   `getFromAPI`: `null` after a failed fetch, without `results`, with an empty
   `results`, or when the first result lacks `geometry.location` (the property
   reads throw and are caught); otherwise a `found` record for the query key
   built from the first result.
   */
  function GetFromAPI(location: string, resp: Response): (r: Option<LatLon>)
    ensures r.None? <==> resp.FetchFailed? || resp.results.None? || |resp.results.value| == 0
                         || resp.results.value[0].location.None?
    ensures r.Some? ==> r.value.location == location && r.value.status == Found
    ensures r.Some? ==>
      r.value.fullAddress == First(resp).formattedAddress
      && r.value.latitude == First(resp).location.value.lat
      && r.value.longitude == First(resp).location.value.lng
  {
    match resp
    case FetchFailed => None
    case Body(None) => None
    case Body(Some(results)) =>
      if |results| == 0 then None
      else
        match results[0].location
        case None => None
        case Some(ll) => Some(LatLon(location, results[0].formattedAddress, ll.lat, ll.lng, Found))
  }

  /** Only the first result is read: responses that agree on it parse alike. */
  lemma OnlyFirstResultMatters(location: string, a: seq<GeoResult>, b: seq<GeoResult>)
    requires |a| > 0 && |b| > 0 && a[0] == b[0]
    ensures GetFromAPI(location, Body(Some(a))) == GetFromAPI(location, Body(Some(b)))
  {
  }
}
