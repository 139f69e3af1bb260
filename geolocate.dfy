/** The geocoding endpoint `/api/geolocate`: it looks the event's location
    up first and, only when that finds nothing, its address. */
module Geolocate {

  import opened Json
  import opened Http

  /** One geocoder call: a rejected `fetch`, or the raw body text with the
      outcome of `JSON.parse` on it (None when it throws). */
  datatype Lookup = Unreachable | Fetched(text: string, json: Option<JValue>)

  /** The reply, and whether the address query was sent. */
  datatype GeoOutcome = GeoOutcome(addressQueried: bool, reply: Reply)

  /** `Array.isArray(j) && j.length !== 0`. */
  predicate Found(j: JValue)
  {
    j.JArr? && |j.items| > 0
  }

  function NotJson(raw: string): JValue
  {
    JObj(map["error" := JStr("Response is not valid JSON"), "raw" := JStr(raw)])
  }

  /** `{ lat: j[0].lat, lon: j[0].lon }`; reading them off a null first
      result throws outside every `try`, so no reply is sent. */
  function Coordinates(j: JValue): (r: Reply)
    requires Found(j)
    ensures j.items[0].JNull? <==> r == NoReply
    ensures r.Respond? ==>
      && r.status == 200
      && Get(r.body, "lat") == Get(j.items[0], "lat")
      && Get(r.body, "lon") == Get(j.items[0], "lon")
  {
    var first := j.items[0];
    if first.JNull? then NoReply
    else
      Respond(200, JObj(Assign(Assign(map[], "lat", Get(first, "lat")), "lon", Get(first, "lon"))))
  }

  /** The handler (lines 344-378): `location` is the first call's outcome,
      `address` the second's, used only when the second call is made. */
  function Geolocate(location: Lookup, address: Lookup): (r: GeoOutcome)
    ensures r.addressQueried <==>
      location.Fetched? && location.json.Some? && !Found(location.json.value)
    ensures location.Unreachable? ==> r.reply == NoReply
    ensures location.Fetched? && location.json.None? ==>
      r.reply == Respond(500, NotJson(location.text))
    ensures location.Fetched? && location.json.Some? && Found(location.json.value) ==>
      r.reply == Coordinates(location.json.value)
    ensures r.addressQueried && address.Unreachable? ==>
      r.reply == Respond(500, NotJson(location.text))
    ensures r.addressQueried && address.Fetched? && address.json.None? ==>
      r.reply == Respond(500, NotJson(address.text))
    ensures r.addressQueried && address.Fetched? && address.json.Some? ==>
      r.reply == (if Found(address.json.value) then Coordinates(address.json.value)
                  else Respond(404, ErrorBody("No geocoding results found for location or address.")))
  {
    match location
    case Unreachable => GeoOutcome(false, NoReply)
    case Fetched(text, json) =>
      if json.None? then GeoOutcome(false, Respond(500, NotJson(text)))
      else if Found(json.value) then GeoOutcome(false, Coordinates(json.value))
      else
        match address
        case Unreachable => GeoOutcome(true, Respond(500, NotJson(text)))
        case Fetched(text2, json2) =>
          if json2.None? then GeoOutcome(true, Respond(500, NotJson(text2)))
          else if Found(json2.value) then GeoOutcome(true, Coordinates(json2.value))
          else GeoOutcome(true, Respond(404, ErrorBody("No geocoding results found for location or address.")))
  }

  /** When the location query finds a place, the address query's outcome
      cannot change the reply. */
  lemma LocationFirst(location: Lookup, a1: Lookup, a2: Lookup)
    requires location.Fetched? && location.json.Some? && Found(location.json.value)
    ensures Geolocate(location, a1) == Geolocate(location, a2)
    ensures !Geolocate(location, a1).addressQueried
  {
  }

  /** A 404 comes only when both queries came back as JSON without a
      result. */
  lemma NotFoundOnlyWhenBothEmpty(location: Lookup, address: Lookup)
    requires Geolocate(location, address).reply.Respond?
    requires Geolocate(location, address).reply.status == 404
    ensures location.Fetched? && location.json.Some? && !Found(location.json.value)
    ensures address.Fetched? && address.json.Some? && !Found(address.json.value)
  {
  }
}
