/** The popup's reconciliation of the hotel inventory with the pricing
    response: every priced hotel gets the cheapest offer of its entry
    written into it, and the list shown becomes the priced hotels in the
    order of the pricing response. Also the popup's lookup of a hotel card
    by name. */
module Reconcile {

  import opened Json
  import opened Http

  datatype Rate = Rate(name: Option<JValue>, boardName: Option<JValue>, rateId: Option<JValue>)

  /** One room type of a pricing entry: `offerRetailRate.amount` and
      `.currency`, `offerId` and `rates`. */
  datatype Room = Room(amount: int, currency: Option<JValue>, offerId: Option<JValue>, rates: seq<Rate>)

  /** One element of `pricingData.data`. */
  datatype PricingEntry = PricingEntry(hotelId: Option<JValue>, roomTypes: seq<Room>)

  /** The `pricing` object written into a hotel. */
  datatype Pricing = Pricing(
    amount: int,
    currency: Option<JValue>,
    roomName: JValue,
    boardName: JValue,
    offerId: Option<JValue>,
    rateId: Option<JValue>,
    checkin: Option<JValue>,
    checkout: Option<JValue>)

  /** An inventory hotel, as parsed from the hotel list response: its `id`
      and `name` are never reassigned, its `pricing` is. */
  class Hotel {
    const id: Option<JValue>
    const name: Option<JValue>
    var pricing: Option<Pricing>

    constructor (id: Option<JValue>, name: Option<JValue>)
      ensures this.id == id && this.name == name && pricing.None?
    {
      this.id := id;
      this.name := name;
      pricing := None;
    }
  }

  /** `hotels.find(h => h.id === id)`, as a position. */
  function FindById(hotels: seq<Hotel>, id: Option<JValue>): (r: Option<nat>)
    ensures r.Some? ==> r.value < |hotels| && StrictEquals(hotels[r.value].id, id)
    ensures r.Some? ==> forall j :: 0 <= j < r.value ==> !StrictEquals(hotels[j].id, id)
    ensures r.None? ==> forall j :: 0 <= j < |hotels| ==> !StrictEquals(hotels[j].id, id)
  {
    if hotels == [] then None
    else if StrictEquals(hotels[0].id, id) then Some(0)
    else
      var r := FindById(hotels[1..], id);
      if r.Some? then Some(r.value + 1) else None
  }

  /** The room `roomTypes.reduce` keeps: a later room replaces the current
      best only when strictly cheaper, so the earliest of the cheapest
      rooms wins. */
  function Cheapest(rooms: seq<Room>): (i: nat)
    requires rooms != []
    ensures i < |rooms|
    ensures forall j :: 0 <= j < |rooms| ==> rooms[i].amount <= rooms[j].amount
    ensures forall j :: 0 <= j < i ==> rooms[i].amount < rooms[j].amount
  {
    if |rooms| == 1 then 0
    else
      var best := Cheapest(rooms[..|rooms| - 1]);
      if rooms[|rooms| - 1].amount < rooms[best].amount then |rooms| - 1 else best
  }

  /** The `pricing` object made from the cheapest room of a pricing entry. */
  function Offer(e: PricingEntry, checkin: Option<JValue>, checkout: Option<JValue>): (p: Pricing)
    requires e.roomTypes != []
    ensures forall j :: 0 <= j < |e.roomTypes| ==> p.amount <= e.roomTypes[j].amount
    ensures exists j :: 0 <= j < |e.roomTypes| && p.amount == e.roomTypes[j].amount
    ensures p.checkin == checkin && p.checkout == checkout
    ensures var b := e.roomTypes[Cheapest(e.roomTypes)];
      && p.amount == b.amount && p.currency == b.currency && p.offerId == b.offerId
      && p.rateId == (if b.rates != [] then b.rates[0].rateId else None)
      && p.roomName == (if b.rates != [] && Present(b.rates[0].name) then b.rates[0].name.value
                        else JStr("Standard Room"))
      && p.boardName == (if b.rates != [] && Present(b.rates[0].boardName) then b.rates[0].boardName.value
                         else JStr(""))
  {
    var best := e.roomTypes[Cheapest(e.roomTypes)];
    var rate := if best.rates != [] then Some(best.rates[0]) else None;
    Pricing(
      best.amount,
      best.currency,
      Or(if rate.Some? then rate.value.name else None, Some(JStr("Standard Room"))).value,
      Or(if rate.Some? then rate.value.boardName else None, Some(JStr(""))).value,
      best.offerId,
      if rate.Some? then rate.value.rateId else None,
      checkin,
      checkout)
  }

  /** A pricing entry is used when it names an inventory hotel and offers at
      least one room. */
  predicate Hits(hotels: seq<Hotel>, e: PricingEntry)
  {
    e.roomTypes != [] && FindById(hotels, e.hotelId).Some?
  }

  /** The positions of the used entries, in the order of the response. */
  function Used(hotels: seq<Hotel>, entries: seq<PricingEntry>): (ps: seq<nat>)
    ensures forall i :: 0 <= i < |ps| ==> ps[i] < |entries| && Hits(hotels, entries[ps[i]])
  {
    if entries == [] then []
    else
      var n := |entries| - 1;
      Used(hotels, entries[..n]) + (if Hits(hotels, entries[n]) then [n] else [])
  }

  /** The inventory hotels kept, one per used entry, in response order. */
  function KeptHotels(hotels: seq<Hotel>, entries: seq<PricingEntry>): (r: seq<Hotel>)
  {
    var ps := Used(hotels, entries);
    seq(|ps|, i requires 0 <= i < |ps| => hotels[FindById(hotels, entries[ps[i]].hotelId).value])
  }

  /** Entry `e` is used for inventory position `k`. */
  predicate UsedFor(hotels: seq<Hotel>, e: PricingEntry, k: nat)
  {
    Hits(hotels, e) && FindById(hotels, e.hotelId) == Some(k)
  }

  /** The position of the last entry used for inventory position `k`. */
  function LastUse(hotels: seq<Hotel>, entries: seq<PricingEntry>, k: nat): (r: Option<nat>)
    ensures r.Some? ==> r.value < |entries| && UsedFor(hotels, entries[r.value], k)
    ensures r.Some? ==> forall q :: r.value < q < |entries| ==> !UsedFor(hotels, entries[q], k)
    ensures r.None? ==> forall q :: 0 <= q < |entries| ==> !UsedFor(hotels, entries[q], k)
  {
    if entries == [] then None
    else
      var n := |entries| - 1;
      if UsedFor(hotels, entries[n], k) then Some(n)
      else LastUse(hotels, entries[..n], k)
  }

  /** The pricing written into inventory position `k` by the last entry
      used for it, if any. */
  function Assigned(hotels: seq<Hotel>, entries: seq<PricingEntry>, k: nat,
                    checkin: Option<JValue>, checkout: Option<JValue>): (r: Option<Pricing>)
  {
    match LastUse(hotels, entries, k)
    case None => None
    case Some(p) => Some(Offer(entries[p], checkin, checkout))
  }

  lemma KeptStep(hotels: seq<Hotel>, entries: seq<PricingEntry>, p: nat)
    requires p < |entries|
    ensures KeptHotels(hotels, entries[..p + 1]) ==
      KeptHotels(hotels, entries[..p])
      + (if Hits(hotels, entries[p]) then [hotels[FindById(hotels, entries[p].hotelId).value]] else [])
  {
    assert entries[..p + 1][..p] == entries[..p];
    var ps := Used(hotels, entries[..p]);
    assert forall i :: 0 <= i < |ps| ==> entries[..p + 1][ps[i]] == entries[..p][ps[i]];
  }

  lemma AssignedStep(hotels: seq<Hotel>, entries: seq<PricingEntry>, p: nat, k: nat,
                     checkin: Option<JValue>, checkout: Option<JValue>)
    requires p < |entries|
    ensures Assigned(hotels, entries[..p + 1], k, checkin, checkout) ==
      if UsedFor(hotels, entries[p], k) then Some(Offer(entries[p], checkin, checkout))
      else Assigned(hotels, entries[..p], k, checkin, checkout)
  {
    assert entries[..p + 1][..p] == entries[..p];
  }

  predicate Distinct(hotels: seq<Hotel>)
  {
    forall i, j :: 0 <= i < j < |hotels| ==> hotels[i] != hotels[j]
  }

  /** One call of the `forEach` callback: when the entry's hotel is found
      and has rooms, the offer is written into that hotel, which is returned
      to be pushed; every other hotel keeps its pricing. */
  method ApplyEntry(hotels: seq<Hotel>, e: PricingEntry,
                    checkin: Option<JValue>, checkout: Option<JValue>) returns (hit: Option<Hotel>)
    requires Distinct(hotels)
    modifies set h | h in hotels
    ensures Hits(hotels, e) ==> hit == Some(hotels[FindById(hotels, e.hotelId).value])
    ensures !Hits(hotels, e) ==> hit == None
    ensures forall k :: 0 <= k < |hotels| ==>
      hotels[k].pricing ==
        (if UsedFor(hotels, e, k) then Some(Offer(e, checkin, checkout)) else old(hotels[k].pricing))
  {
    var found := FindById(hotels, e.hotelId);
    if found.Some? && e.roomTypes != [] {
      var hotel := hotels[found.value];
      hotel.pricing := Some(Offer(e, checkin, checkout));
      hit := Some(hotel);
    } else {
      hit := None;
    }
  }

  /** Lines 282-310: the `forEach` over `pricingData.data`. */
  method Reconcile(hotels: seq<Hotel>, entries: seq<PricingEntry>,
                   checkin: Option<JValue>, checkout: Option<JValue>) returns (kept: seq<Hotel>)
    requires Distinct(hotels)
    modifies set h | h in hotels
    ensures kept == KeptHotels(hotels, entries)
    ensures forall k :: 0 <= k < |hotels| ==>
      hotels[k].pricing ==
        (var a := Assigned(hotels, entries, k, checkin, checkout);
         if a.Some? then a else old(hotels[k].pricing))
  {
    kept := [];
    var p := 0;
    while p < |entries|
      invariant 0 <= p <= |entries|
      invariant kept == KeptHotels(hotels, entries[..p])
      invariant forall k :: 0 <= k < |hotels| ==>
        hotels[k].pricing ==
          (var a := Assigned(hotels, entries[..p], k, checkin, checkout);
           if a.Some? then a else old(hotels[k].pricing))
    {
      var hit := ApplyEntry(hotels, entries[p], checkin, checkout);
      forall k | 0 <= k < |hotels|
        ensures hotels[k].pricing ==
          (var a := Assigned(hotels, entries[..p + 1], k, checkin, checkout);
           if a.Some? then a else old(hotels[k].pricing))
      {
        AssignedStep(hotels, entries, p, k, checkin, checkout);
      }
      KeptStep(hotels, entries, p);
      if hit.Some? {
        kept := kept + [hit.value];
      }
      p := p + 1;
    }
    assert entries[..p] == entries;
  }

  /** What the pricing request gave: it threw, or it answered with a status
      and, for an ok status, the body's `data`, `checkin` and `checkout`.
      `Threw` stands for every throw the `catch` at lines 317-320 handles: a
      network failure, a body that is not JSON, a `data` that is not an
      array, and the throws inside the `forEach` on a malformed entry (a
      null entry, a `roomTypes` that is not an array, a room without
      `offerRetailRate`, a cheapest room without `rates`, a null inventory
      hotel). */
  datatype PricingResponse =
    | Threw
    | Responded(status: int, data: Option<seq<PricingEntry>>, checkin: Option<JValue>, checkout: Option<JValue>)

  /** Lines 261-321: the hotel list after the pricing step. */
  method PriceHotels(hotels: seq<Hotel>, eventDate: Option<JValue>, response: PricingResponse)
    returns (shown: seq<Hotel>)
    requires Distinct(hotels)
    modifies set h | h in hotels
    ensures hotels == [] || !Present(eventDate) ==>
      shown == hotels && forall k :: 0 <= k < |hotels| ==> hotels[k].pricing == old(hotels[k].pricing)
    ensures hotels != [] && Present(eventDate) && (response.Threw? || !IsOk(response.status)) ==>
      shown == []
    ensures hotels != [] && Present(eventDate) && response.Responded? && IsOk(response.status) ==>
      shown == (if response.data.Some? then KeptHotels(hotels, response.data.value) else [])
    ensures !(response.Responded? && IsOk(response.status) && response.data.Some?) ==>
      forall k :: 0 <= k < |hotels| ==> hotels[k].pricing == old(hotels[k].pricing)
    ensures hotels != [] && Present(eventDate) && response.Responded? && IsOk(response.status)
            && response.data.Some? ==>
      forall k :: 0 <= k < |hotels| ==>
        hotels[k].pricing ==
          (var a := Assigned(hotels, response.data.value, k, response.checkin, response.checkout);
           if a.Some? then a else old(hotels[k].pricing))
  {
    if hotels == [] || !Present(eventDate) {
      return hotels;
    }
    match response
    case Threw =>
      shown := [];
    case Responded(status, data, checkin, checkout) =>
      if !IsOk(status) {
        shown := [];
      } else if data.None? {
        shown := [];
      } else {
        shown := Reconcile(hotels, data.value, checkin, checkout);
      }
  }

  /** The kept hotels are exactly the used entries' hotels, and they follow
      the response's order: used positions strictly increase, and every
      entry that names an inventory hotel and has a room is used. */
  lemma {:induction false} UsedExactly(hotels: seq<Hotel>, entries: seq<PricingEntry>)
    ensures forall i, j :: 0 <= i < j < |Used(hotels, entries)| ==>
      Used(hotels, entries)[i] < Used(hotels, entries)[j]
    ensures forall p :: 0 <= p < |entries| && Hits(hotels, entries[p]) ==> p in Used(hotels, entries)
  {
    if entries != [] {
      var n := |entries| - 1;
      UsedExactly(hotels, entries[..n]);
      assert forall p :: 0 <= p < n ==> entries[..n][p] == entries[p];
    }
  }

  /** The pricing a hotel ends up with comes from the last entry used for
      it, and its amount is the cheapest room amount of that entry; a hotel
      no entry is used for keeps the pricing it had. */
  lemma AssignedCheapest(hotels: seq<Hotel>, entries: seq<PricingEntry>, k: nat,
                         checkin: Option<JValue>, checkout: Option<JValue>)
    ensures Assigned(hotels, entries, k, checkin, checkout).Some? <==>
      exists p :: 0 <= p < |entries| && UsedFor(hotels, entries[p], k)
    ensures Assigned(hotels, entries, k, checkin, checkout).Some? ==>
      exists p ::
        && 0 <= p < |entries| && UsedFor(hotels, entries[p], k)
        && (forall q :: p < q < |entries| ==> !UsedFor(hotels, entries[q], k))
        && var a := Assigned(hotels, entries, k, checkin, checkout).value;
           && a == Offer(entries[p], checkin, checkout)
           && (forall j :: 0 <= j < |entries[p].roomTypes| ==> a.amount <= entries[p].roomTypes[j].amount)
  {
    var r := LastUse(hotels, entries, k);
    if r.Some? {
      var p := r.value;
      assert UsedFor(hotels, entries[p], k);
    }
  }

  /** The card `findHotelByName` returns: the hotel and the `rateId` copied
      out of its pricing. */
  datatype Selection = Selection(hotel: Hotel, rateId: JValue)

  /** `hotelCards.find(h => h.name === name)`, as a position. */
  function FindByName(hotels: seq<Hotel>, name: string): (r: Option<nat>)
    ensures r.Some? ==> r.value < |hotels| && hotels[r.value].name == Some(JStr(name))
    ensures r.Some? ==> forall j :: 0 <= j < r.value ==> hotels[j].name != Some(JStr(name))
    ensures r.None? ==> forall j :: 0 <= j < |hotels| ==> hotels[j].name != Some(JStr(name))
  {
    if hotels == [] then None
    else if hotels[0].name == Some(JStr(name)) then Some(0)
    else
      var r := FindByName(hotels[1..], name);
      if r.Some? then Some(r.value + 1) else None
  }

  /** Lines 763-774: only the first hotel of that name is considered, and it
      is returned only when its pricing carries a truthy `rateId`. */
  function FindHotelByName(hotels: seq<Hotel>, name: string): (r: Option<Selection>)
    reads set h | h in hotels
    ensures r.Some? <==>
      exists i :: 0 <= i < |hotels| && hotels[i].name == Some(JStr(name))
        && (forall j :: 0 <= j < i ==> hotels[j].name != Some(JStr(name)))
        && hotels[i].pricing.Some? && Present(hotels[i].pricing.value.rateId)
    ensures r.Some? ==>
      && r.value.hotel in hotels && r.value.hotel.name == Some(JStr(name))
      && r.value.hotel.pricing.Some? && Some(r.value.rateId) == r.value.hotel.pricing.value.rateId
  {
    match FindByName(hotels, name)
    case None => None
    case Some(i) =>
      var h := hotels[i];
      if h.pricing.Some? && Present(h.pricing.value.rateId)
      then Some(Selection(h, h.pricing.value.rateId.value))
      else None
  }
}
