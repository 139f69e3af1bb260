/** The payment session table of the backend's payment server: payment data
    stored under a generated key for the hosted payment page, read back by
    key, evicted after an hour, and the completion handler that looks up the
    booking to finalise. */
module PaymentServer {

  import opened Json
  import opened Text
  import opened Http

  /** `'pay_' + Date.now() + '_' + <random base-36 text>`. */
  function PaymentKey(now: nat, suffix: string): (k: string)
    ensures |k| > 4 && k[..4] == "pay_"
  {
    "pay_" + NatToString(now) + "_" + suffix
  }

  /** The key the completion handler reads for transaction `tid`. */
  function BookingKey(tid: string): (k: string)
    ensures |k| >= 8 && k[..8] == "booking_"
  {
    "booking_" + tid
  }

  /** A booking key never has the shape of a key the store hands out. */
  lemma BookingKeyNeverPaymentKey(tid: string, now: nat, suffix: string)
    ensures BookingKey(tid) != PaymentKey(now, suffix)
  {
    assert BookingKey(tid)[0] == 'b' && PaymentKey(now, suffix)[0] == 'p';
  }

  /** A store holding only keys handed out by the payment-data endpoint has
      nothing under any booking key, so completion can never find its
      booking data there. */
  lemma NoBookingData(store: map<string, Option<JValue>>, tid: string)
    requires forall k :: k in store ==> |k| >= 4 && k[..4] == "pay_"
    ensures BookingKey(tid) !in store
  {
    assert BookingKey(tid)[..4] == "book";
  }

  /** The reply to `GET /api/payment-data/:dataId`. */
  function Lookup(store: map<string, Option<JValue>>, dataId: string): (r: Reply)
    ensures dataId in store && Present(store[dataId]) ==> r == Respond(200, store[dataId].value)
    ensures !(dataId in store && Present(store[dataId])) ==> r == Respond(404, ErrorBody("Payment data not found"))
  {
    if dataId in store && Present(store[dataId]) then Respond(200, store[dataId].value)
    else Respond(404, ErrorBody("Payment data not found"))
  }

  /** A stored payload reads back unchanged, unless it is falsy; storing
      under one key leaves every other key's reply as it was. */
  lemma PutThenLookup(store: map<string, Option<JValue>>, key: string, data: Option<JValue>, other: string)
    requires other != key
    ensures Lookup(store[key := data], key) ==
      (if Present(data) then Respond(200, data.value) else Respond(404, ErrorBody("Payment data not found")))
    ensures Lookup(store[key := data], other) == Lookup(store, other)
  {
  }

  /** What the completion handler sends: the confirmation page with the
      booking reference, or the failure page (status 500) with the error's
      message. */
  datatype CompletionPage = Confirmed(bookingRef: Option<JValue>) | BookingFailed(message: string)

  /** What `finalizeBooking(pid, tid, bookingData)` settles to. */
  datatype Finalization = Rejected(message: string) | Finalized(result: JValue)

  /** The in-memory `paymentDataStore` and the eviction timers still
      pending, one per stored key (the same key twice if it was generated
      twice). */
  class PaymentStore {
    var store: map<string, Option<JValue>>
    var pending: multiset<string>

    constructor ()
      ensures store == map[] && pending == multiset{}
    {
      store := map[];
      pending := multiset{};
    }

    /** Every stored key was handed out by `Put`. */
    predicate OnlyPaymentKeys()
      reads this
    {
      forall k :: k in store ==> |k| >= 4 && k[..4] == "pay_"
    }

    /** `POST /api/payment-data`: store the payload (even `undefined`)
        under a new key, start its eviction timer, and answer the key. */
    method Put(paymentData: Option<JValue>, now: nat, suffix: string) returns (dataId: string)
      modifies this
      ensures dataId == PaymentKey(now, suffix)
      ensures store == old(store)[dataId := paymentData]
      ensures pending == old(pending) + multiset{dataId}
      ensures old(OnlyPaymentKeys()) ==> OnlyPaymentKeys()
    {
      dataId := PaymentKey(now, suffix);
      store := store[dataId := paymentData];
      pending := pending + multiset{dataId};
    }

    /** `GET /api/payment-data/:dataId`. */
    method Get(dataId: string) returns (r: Reply)
      ensures r == Lookup(store, dataId)
      ensures r.status == 200 <==> dataId in store && Present(store[dataId])
    {
      if dataId in store && Present(store[dataId]) {
        return Respond(200, store[dataId].value);
      }
      return Respond(404, ErrorBody("Payment data not found"));
    }

    /** An eviction timer fires an hour after its `Put`: it deletes its own
        key, whatever is stored under it by then, and nothing else. */
    method Evict(key: string)
      requires key in pending
      modifies this
      ensures store == old(store) - {key}
      ensures pending == old(pending) - multiset{key}
      ensures old(OnlyPaymentKeys()) ==> OnlyPaymentKeys()
    {
      store := store - {key};
      pending := pending - multiset{key};
    }

    /** `GET /payment-complete`: the booking data under `booking_<tid>` is
        finalised and deleted on success; every failure leaves the store as
        it was. */
    method Complete(tid: string, finalize: Finalization) returns (page: CompletionPage)
      modifies this
      ensures pending == old(pending)
      ensures var key := BookingKey(tid);
        && (!(key in old(store) && Present(old(store)[key])) ==>
              page == BookingFailed("Booking data not found") && store == old(store))
        && (key in old(store) && Present(old(store)[key]) && finalize.Rejected? ==>
              page == BookingFailed(finalize.message) && store == old(store))
        && (key in old(store) && Present(old(store)[key]) && finalize.Finalized? && finalize.result.JNull? ==>
              page == BookingFailed(EngineTypeError) && store == old(store))
        && (key in old(store) && Present(old(store)[key]) && finalize.Finalized? && !finalize.result.JNull? ==>
              page == Confirmed(Json.Get(finalize.result, "bookingId")) && store == old(store) - {key})
      ensures page.Confirmed? <==> store != old(store)
      ensures old(OnlyPaymentKeys()) ==> page == BookingFailed("Booking data not found")
    {
      var key := BookingKey(tid);
      assert key[..4] == "book" != "pay_";
      if !(key in store && Present(store[key])) {
        return BookingFailed("Booking data not found");
      }
      match finalize
      case Rejected(message) =>
        return BookingFailed(message);
      case Finalized(result) =>
        if result.JNull? {
          return BookingFailed(EngineTypeError);
        }
        page := Confirmed(Json.Get(result, "bookingId"));
        store := store - {key};
    }
  }
}
