/** The booking endpoint `/api/book` of the backend proxy: a chain of early
    refusals, one call to the booking provider, and the mapping of the
    provider's answer onto the reply sent to the extension. */
module BookHandler {

  import opened Json
  import opened Text
  import opened Http

  /** The members of the request body the handler reads; None is
      `undefined`. */
  datatype BookRequest = BookRequest(
    holder: Option<JValue>,
    payment: Option<JValue>,
    guests: Option<JValue>,
    prebookId: Option<JValue>,
    guestPayment: Option<JValue>)

  /** What the provider call yields: a rejected `fetch` (with the text
      `String(err)` gives), or a response with its status, headers, raw body
      text and the outcome of `JSON.parse` on that text (None when it
      throws). */
  datatype Upstream =
    | Unreachable(message: string)
    | Answered(status: int, headers: JValue, text: string, json: Option<JValue>)

  /** The reply, and whether the provider was called at all. */
  datatype BookOutcome = BookOutcome(upstreamCalled: bool, reply: Reply)

  predicate HolderComplete(holder: JValue)
  {
    && Present(Get(holder, "firstName"))
    && Present(Get(holder, "lastName"))
    && Present(Get(holder, "email"))
    && Present(Get(holder, "phone"))
  }

  /** `Array.isArray(guests) && guests.length !== 0`. */
  predicate NonEmptyArray(v: JValue)
  {
    v.JArr? && |v.items| > 0
  }

  function Strings(names: seq<string>): (r: seq<JValue>)
    ensures |r| == |names|
    ensures forall i :: 0 <= i < |r| ==> r[i] == JStr(names[i])
  {
    if names == [] then [] else [JStr(names[0])] + Strings(names[1..])
  }

  function Refused(message: string, required: seq<string>): JValue
  {
    JObj(map["error" := JStr(message), "required" := JArr(Strings(required))])
  }

  /** The reply of a request stopped before the provider is called, or None
      when it passes every check. */
  function Refusal(apiKey: string, req: BookRequest): (r: Option<Reply>)
    ensures apiKey == [] ==> r == Some(Failure("LITEAPI_KEY not configured"))
    ensures apiKey != [] && !(Present(req.holder) && Present(req.guests) && Present(req.prebookId)) ==>
      r == Some(Respond(400, Refused("Missing required fields", ["holder", "guests", "prebookId"])))
    ensures apiKey != [] && Present(req.holder) && Present(req.guests) && Present(req.prebookId)
            && !HolderComplete(req.holder.value) ==>
      r == Some(Respond(400, Refused("Holder information incomplete", ["firstName", "lastName", "email", "phone"])))
    ensures apiKey != [] && Present(req.holder) && Present(req.guests) && Present(req.prebookId)
            && HolderComplete(req.holder.value) && !NonEmptyArray(req.guests.value) ==>
      r == Some(Respond(400, ErrorBody("At least one guest is required")))
    ensures r.None? <==>
      && apiKey != []
      && Present(req.holder) && Present(req.prebookId) && req.guests.Some?
      && HolderComplete(req.holder.value) && NonEmptyArray(req.guests.value)
  {
    if apiKey == [] then Some(Failure("LITEAPI_KEY not configured"))
    else if !Present(req.holder) || !Present(req.guests) || !Present(req.prebookId) then
      Some(Respond(400, Refused("Missing required fields", ["holder", "guests", "prebookId"])))
    else if !HolderComplete(req.holder.value) then
      Some(Respond(400, Refused("Holder information incomplete", ["firstName", "lastName", "email", "phone"])))
    else if !NonEmptyArray(req.guests.value) then
      Some(Respond(400, ErrorBody("At least one guest is required")))
    else None
  }

  /** `"GD" + Date.now().toString(36).toUpperCase()`. */
  function BookingId(now: nat): (id: string)
    ensures |id| >= 3 && id[..2] == "GD"
    ensures forall i :: 2 <= i < |id| ==> IsBase36Upper(id[i])
  {
    "GD" + ToBase36Upper(now)
  }

  /** The booking id encodes the clock reading it was made from, so two
      bookings made at different milliseconds never share an id. */
  lemma BookingIdDecodes(now: nat)
    ensures ParseBase36(BookingId(now)[2..]) == now
  {
    assert BookingId(now)[2..] == ToBase36Upper(now);
    Base36RoundTrip(now);
  }

  lemma BookingIdInjective(a: nat, b: nat)
    requires BookingId(a) == BookingId(b)
    ensures a == b
  {
    BookingIdDecodes(a);
    BookingIdDecodes(b);
  }

  /** The own enumerable properties of an array or string, keyed by their
      decimal index, as object spread copies them. */
  function IndexFields(items: seq<JValue>): (m: map<string, JValue>)
    decreases |items|
  {
    if items == [] then map[]
    else
      var n := |items| - 1;
      IndexFields(items[..n])[NatToString(n) := items[n]]
  }

  /** Spreading an array gives a field for every index. */
  lemma IndexFieldsKeys(items: seq<JValue>)
    ensures forall i :: 0 <= i < |items| ==> NatToString(i) in IndexFields(items)
  {
    forall i | 0 <= i < |items|
      ensures NatToString(i) in IndexFields(items)
    {
      IndexFieldsAt(items, i);
    }
  }

  /** Each index's field holds that index's element. */
  lemma {:induction false} IndexFieldsAt(items: seq<JValue>, i: nat)
    requires i < |items|
    ensures NatToString(i) in IndexFields(items) && IndexFields(items)[NatToString(i)] == items[i]
  {
    var n := |items| - 1;
    var m := IndexFields(items[..n]);
    assert IndexFields(items) == m[NatToString(n) := items[n]];
    if i < n {
      ParseNatToString(i);
      ParseNatToString(n);
      IndexFieldsAt(items[..n], i);
    }
  }

  function Chars(s: string): seq<JValue>
  {
    seq(|s|, i requires 0 <= i < |s| => JStr([s[i]]))
  }

  /** The properties `{...v}` copies: an object's own fields, the elements
      of an array or the characters of a string by index, and nothing for
      null, booleans and numbers. */
  function Spread(v: JValue): (m: map<string, JValue>)
    ensures v.JObj? ==> m == v.fields
    ensures v.JNull? || v.JBool? || v.JNum? ==> m == map[]
  {
    match v
    case JObj(f) => f
    case JArr(items) => IndexFields(items)
    case JStr(s) => IndexFields(Chars(s))
    case _ => map[]
  }

  /** Spreading an array copies element `i` under the key `String(i)`, and
      spreading a string copies its `i`-th character there. */
  lemma SpreadIndexed(v: JValue, i: nat)
    ensures v.JArr? && i < |v.items| ==>
      NatToString(i) in Spread(v) && Spread(v)[NatToString(i)] == v.items[i]
    ensures v.JStr? && i < |v.s| ==>
      NatToString(i) in Spread(v) && Spread(v)[NatToString(i)] == JStr([v.s[i]])
  {
    if v.JArr? && i < |v.items| {
      IndexFieldsAt(v.items, i);
    }
    if v.JStr? && i < |v.s| {
      IndexFieldsAt(Chars(v.s), i);
    }
  }

  /** `bookingMeta` of a successful booking. */
  function Meta(req: BookRequest, now: nat): JValue
  {
    ObjOf([("holder", req.holder), ("guests", req.guests), ("payment", req.payment),
           ("gumDropBookingId", Some(JStr(BookingId(now))))])
  }

  lemma MetaFields(req: BookRequest, now: nat)
    ensures Get(Meta(req, now), "holder") == req.holder
    ensures Get(Meta(req, now), "guests") == req.guests
    ensures Get(Meta(req, now), "payment") == req.payment
    ensures Get(Meta(req, now), "gumDropBookingId") == Some(JStr(BookingId(now)))
  {
    var e := [("holder", req.holder), ("guests", req.guests), ("payment", req.payment),
              ("gumDropBookingId", Some(JStr(BookingId(now))))];
    assert e[..3][..2][..1][..0] == [];
    var f1 := FieldsOf(e[..3][..2][..1]);
    var f2 := FieldsOf(e[..3][..2]);
    var f3 := FieldsOf(e[..3]);
    assert "holder" in f1 <==> req.holder.Some?;
    assert "holder" in f1 ==> f1["holder"] == req.holder.value;
  }

  /** The reply once the provider has been called (lines 195-236), with
      `now` the clock reading of `Date.now()`. */
  function ProviderReply(req: BookRequest, up: Upstream, now: nat): (r: Reply)
    ensures up.Unreachable? ==> r == Failure(up.message)
    ensures up.Answered? && Trim(up.text) == [] ==>
      r == Respond(500, JObj(map["error" := JStr("Empty response from API"),
                                 "status" := JNum(up.status), "headers" := up.headers]))
    ensures up.Answered? && Trim(up.text) != [] && up.json.None? ==>
      r == Respond(500, JObj(map["error" := JStr("Invalid JSON response from API"),
                                 "raw" := JStr(up.text)]))
    ensures up.Answered? && Trim(up.text) != [] && up.json.Some? && !IsOk(up.status) ==>
      if up.json.value.JNull? then r == Failure(EngineTypeError)
      else r == Respond(up.status, JObj(map[
        "error" := Or(Get(up.json.value, "message"), Some(JStr("Booking failed"))).value,
        "details" := up.json.value]))
    ensures up.Answered? && Trim(up.text) != [] && up.json.Some? && IsOk(up.status) ==>
      && r.Respond? && r.status == 200
      && Get(r.body, "bookingMeta") == Some(Meta(req, now))
      && r.body.JObj? && r.body.fields.Keys == Spread(up.json.value).Keys + {"bookingMeta"}
      && forall k :: k in Spread(up.json.value) && k != "bookingMeta" ==>
           Get(r.body, k) == Some(Spread(up.json.value)[k])
  {
    match up
    case Unreachable(message) => Failure(message)
    case Answered(status, headers, text, json) =>
      if Trim(text) == [] then
        Respond(500, JObj(map["error" := JStr("Empty response from API"),
                              "status" := JNum(status), "headers" := headers]))
      else if json.None? then
        Respond(500, JObj(map["error" := JStr("Invalid JSON response from API"), "raw" := JStr(text)]))
      else
        var j := json.value;
        if !IsOk(status) then
          if j.JNull? then Failure(EngineTypeError)
          else
            var message := Or(Get(j, "message"), Some(JStr("Booking failed"))).value;
            Respond(status, JObj(map["error" := message, "details" := j]))
        else
          Respond(200, JObj(Spread(j)["bookingMeta" := Meta(req, now)]))
  }

  /** The whole handler: checks first, then at most one provider call. */
  function Book(apiKey: string, req: BookRequest, up: Upstream, now: nat): (r: BookOutcome)
    ensures r.upstreamCalled <==> Refusal(apiKey, req).None?
    ensures r.reply.Respond?
  {
    match Refusal(apiKey, req)
    case Some(refusal) => BookOutcome(false, refusal)
    case None => BookOutcome(true, ProviderReply(req, up, now))
  }

  /** A refused request is answered the same whatever the provider would
      have said, so its refusal does not depend on any provider call. */
  lemma RefusalIgnoresProvider(apiKey: string, req: BookRequest, up1: Upstream, up2: Upstream, n1: nat, n2: nat)
    requires Refusal(apiKey, req).Some?
    ensures Book(apiKey, req, up1, n1) == Book(apiKey, req, up2, n2)
    ensures Book(apiKey, req, up1, n1).reply.status in {400, 500}
  {
  }

  /** A successful booking carries the holder, guests and payment sent and
      a "GD" booking id made from the clock reading. */
  lemma SuccessfulBooking(apiKey: string, req: BookRequest, up: Upstream, now: nat)
    requires Refusal(apiKey, req).None?
    requires up.Answered? && IsOk(up.status) && Trim(up.text) != [] && up.json.Some?
    ensures var r := Book(apiKey, req, up, now).reply;
      && r.Respond? && r.status == 200
      && GetOpt(Get(r.body, "bookingMeta"), "holder") == req.holder
      && GetOpt(Get(r.body, "bookingMeta"), "guests") == req.guests
      && GetOpt(Get(r.body, "bookingMeta"), "payment") == req.payment
      && GetOpt(Get(r.body, "bookingMeta"), "gumDropBookingId") == Some(JStr(BookingId(now)))
  {
    MetaFields(req, now);
  }
}
