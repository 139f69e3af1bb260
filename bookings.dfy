/** The "all bookings" page: the list of bookings kept in extension storage,
    its cancel and delete actions, the newest-first ordering of the cards and
    the small display helpers. */
module Bookings {

  import opened Json
  import opened Text

  /** A stored booking record. `time` is the instant `new Date(timestamp)`
      denotes, in milliseconds; `rest` holds every other member, which the
      list operations carry along untouched. */
  datatype Booking = Booking(id: Option<JValue>, status: Option<JValue>, time: int, rest: map<string, JValue>)

  /** `b.id === id`. */
  predicate Matches(b: Booking, id: Option<JValue>)
  {
    StrictEquals(b.id, id)
  }

  /** `{ ...b, status: 'cancelled' }`. */
  function Cancelled(b: Booking): (c: Booking)
    ensures c.id == b.id && c.time == b.time && c.rest == b.rest
    ensures c.status == Some(JStr("cancelled"))
  {
    b.(status := Some(JStr("cancelled")))
  }

  // ---------------------------------------------------------------------
  // cancel and delete (lines 384-389, 406-409)

  /** `bookings.map(b => b.id === id ? { ...b, status: 'cancelled' } : b)`. */
  function Cancel(bs: seq<Booking>, id: Option<JValue>): (r: seq<Booking>)
    ensures |r| == |bs|
    ensures forall i :: 0 <= i < |bs| ==>
      r[i] == (if Matches(bs[i], id) then Cancelled(bs[i]) else bs[i])
  {
    if bs == [] then []
    else [if Matches(bs[0], id) then Cancelled(bs[0]) else bs[0]] + Cancel(bs[1..], id)
  }

  /** `bookings.filter(b => b.id !== id)`. */
  function Delete(bs: seq<Booking>, id: Option<JValue>): (r: seq<Booking>)
    ensures |r| <= |bs|
  {
    if bs == [] then []
    else (if Matches(bs[0], id) then [] else [bs[0]]) + Delete(bs[1..], id)
  }

  /** The records kept are exactly those whose id does not match. */
  lemma {:induction false} DeleteKeeps(bs: seq<Booking>, id: Option<JValue>)
    ensures forall b :: b in Delete(bs, id) ==> b in bs && !Matches(b, id)
    ensures forall b :: b in bs && !Matches(b, id) ==> b in Delete(bs, id)
  {
    if bs != [] {
      var head := if Matches(bs[0], id) then [] else [bs[0]];
      assert Delete(bs, id) == head + Delete(bs[1..], id);
      DeleteKeeps(bs[1..], id);
      assert bs == [bs[0]] + bs[1..];
    }
  }

  /** The number of records whose id matches. */
  function Matching(bs: seq<Booking>, id: Option<JValue>): (n: nat)
    ensures n <= |bs|
  {
    if bs == [] then 0
    else (if Matches(bs[0], id) then 1 else 0) + Matching(bs[1..], id)
  }

  /** Cancelling keeps every record in place with its id, time and other
      members; only the status of the matching ones changes. */
  lemma CancelKeepsRecords(bs: seq<Booking>, id: Option<JValue>, i: int)
    requires 0 <= i < |bs|
    ensures Cancel(bs, id)[i].id == bs[i].id
    ensures Cancel(bs, id)[i].time == bs[i].time && Cancel(bs, id)[i].rest == bs[i].rest
    ensures Cancel(bs, id)[i].status != bs[i].status ==> Matches(bs[i], id)
  {
  }

  /** Cancelling twice is cancelling once. */
  lemma CancelIdempotent(bs: seq<Booking>, id: Option<JValue>)
    ensures Cancel(Cancel(bs, id), id) == Cancel(bs, id)
  {
  }

  /** Cancelling two bookings gives the same list in either order. */
  lemma CancelCommutes(bs: seq<Booking>, x: Option<JValue>, y: Option<JValue>)
    ensures Cancel(Cancel(bs, x), y) == Cancel(Cancel(bs, y), x)
  {
  }

  /** A cancelled booking is no longer offered the cancel action. */
  lemma CancelledNotCancellable(bs: seq<Booking>, id: Option<JValue>, i: int)
    requires 0 <= i < |bs| && Matches(bs[i], id)
    ensures !CanCancel(Cancel(bs, id)[i].status)
  {
  }

  /** Deleting works record by record, so the kept records stay in their
      original order. */
  lemma {:induction false} DeleteAppend(a: seq<Booking>, b: seq<Booking>, id: Option<JValue>)
    ensures Delete(a + b, id) == Delete(a, id) + Delete(b, id)
  {
    if a != [] {
      var head := if Matches(a[0], id) then [] else [a[0]];
      assert (a + b)[0] == a[0] && (a + b)[1..] == a[1..] + b;
      assert Delete(a + b, id) == head + Delete(a[1..] + b, id);
      DeleteAppend(a[1..], b, id);
    } else {
      assert a + b == b;
    }
  }

  /** Exactly the matching records go. */
  lemma {:induction false} DeleteCount(bs: seq<Booking>, id: Option<JValue>)
    ensures |Delete(bs, id)| + Matching(bs, id) == |bs|
    ensures Matching(bs, id) == 0 ==> Delete(bs, id) == bs
  {
    if bs != [] {
      var head := if Matches(bs[0], id) then [] else [bs[0]];
      assert Delete(bs, id) == head + Delete(bs[1..], id);
      DeleteCount(bs[1..], id);
      assert bs == [bs[0]] + bs[1..];
    }
  }

  /** Deleting again finds nothing more to delete. */
  lemma DeleteIdempotent(bs: seq<Booking>, id: Option<JValue>)
    ensures Delete(Delete(bs, id), id) == Delete(bs, id)
  {
    var d := Delete(bs, id);
    DeleteKeeps(bs, id);
    MatchingNone(d, id);
    DeleteCount(d, id);
  }

  lemma {:induction false} MatchingNone(bs: seq<Booking>, id: Option<JValue>)
    requires forall b :: b in bs ==> !Matches(b, id)
    ensures Matching(bs, id) == 0
  {
    if bs != [] {
      assert bs[0] in bs;
      MatchingNone(bs[1..], id);
    }
  }

  /** Deleting a booking after cancelling it leaves the same list as
      deleting it straight away. */
  lemma {:induction false} DeleteAfterCancel(bs: seq<Booking>, id: Option<JValue>)
    ensures Delete(Cancel(bs, id), id) == Delete(bs, id)
  {
    if bs != [] {
      DeleteAfterCancel(bs[1..], id);
      assert Cancel(bs, id)[1..] == Cancel(bs[1..], id);
    }
  }

  /** The list in storage, which both actions overwrite wholesale once the
      user confirms the dialog. */
  class BookingStore {
    var bookings: seq<Booking>

    constructor (stored: seq<Booking>)
      ensures bookings == stored
    {
      bookings := stored;
    }

    /** `cancelBooking`; `confirmed` is the answer to the dialog. */
    method CancelBooking(id: Option<JValue>, confirmed: bool)
      modifies this
      ensures bookings == (if confirmed then Cancel(old(bookings), id) else old(bookings))
    {
      if confirmed {
        bookings := Cancel(bookings, id);
      }
    }

    /** `deleteBookingRecord`. */
    method DeleteBooking(id: Option<JValue>, confirmed: bool)
      modifies this
      ensures bookings == (if confirmed then Delete(old(bookings), id) else old(bookings))
    {
      if confirmed {
        bookings := Delete(bookings, id);
      }
    }
  }

  // ---------------------------------------------------------------------
  // loading and sorting (lines 55-99)

  /** Newest first: no booking is shown before a more recent one. */
  predicate NewestFirst(s: seq<Booking>)
  {
    forall i, j :: 0 <= i < j < |s| ==> s[i].time >= s[j].time
  }

  /** `bookings.sort((a, b) => new Date(b.timestamp) - new Date(a.timestamp))`,
      as an insertion sort that moves each record left past the older
      ones. */
  method SortNewestFirst(a: array<Booking>)
    modifies a
    ensures NewestFirst(a[..])
    ensures multiset(a[..]) == multiset(old(a[..]))
  {
    if a.Length == 0 {
      return;
    }
    var i := 1;
    while i < a.Length
      invariant 1 <= i <= a.Length
      invariant forall k, l :: 0 <= k < l < i ==> a[k].time >= a[l].time
      invariant multiset(a[..]) == multiset(old(a[..]))
    {
      Insert(a, i);
      i := i + 1;
    }
  }

  /** One pass of the insertion: the record at `i` moves left past every
      older record before it. */
  method Insert(a: array<Booking>, i: int)
    requires 0 < i < a.Length
    requires forall k, l :: 0 <= k < l < i ==> a[k].time >= a[l].time
    modifies a
    ensures forall k, l :: 0 <= k < l <= i ==> a[k].time >= a[l].time
    ensures multiset(a[..]) == multiset(old(a[..]))
  {
    var j := i;
    while j > 0 && a[j - 1].time < a[j].time
      invariant 0 <= j <= i
      invariant forall k, l :: 0 <= k < l <= i && k != j && l != j ==> a[k].time >= a[l].time
      invariant forall l :: j < l <= i ==> a[j].time > a[l].time
      invariant multiset(a[..]) == multiset(old(a[..]))
    {
      Swap(a, j);
      j := j - 1;
    }
  }

  /** Exchanges the records at `j - 1` and `j`. */
  method Swap(a: array<Booking>, j: int)
    requires 0 < j < a.Length
    modifies a
    ensures a[j - 1] == old(a[j]) && a[j] == old(a[j - 1])
    ensures forall k :: 0 <= k < a.Length && k != j - 1 && k != j ==> a[k] == old(a[k])
    ensures multiset(a[..]) == multiset(old(a[..]))
  {
    a[j - 1], a[j] := a[j], a[j - 1];
  }

  /** What the page shows once loading ends. */
  datatype View = NoBookings | Listed(bookings: seq<Booking>)

  /** `loadBookings`: `stored` is `gumdrop_bookings` from storage, None when
      it is missing or falsy (`|| []`). */
  method LoadBookings(stored: Option<seq<Booking>>) returns (v: View)
    ensures stored.None? || stored.value == [] <==> v == NoBookings
    ensures v.Listed? ==> NewestFirst(v.bookings) && multiset(v.bookings) == multiset(stored.value)
  {
    var bs := if stored.Some? then stored.value else [];
    if |bs| == 0 {
      return NoBookings;
    }
    var a := new Booking[|bs|](i requires 0 <= i < |bs| => bs[i]);
    assert a[..] == bs;
    SortNewestFirst(a);
    return Listed(a[..]);
  }

  // ---------------------------------------------------------------------
  // display helpers

  const ConfirmedStyle := "bg-green-100 text-green-800 border-green-200"
  const CancelledStyle := "bg-red-100 text-red-800 border-red-200"
  const PendingStyle := "bg-yellow-100 text-yellow-800 border-yellow-200"
  const DefaultStyle := "bg-gray-100 text-gray-800 border-gray-200"

  /** `getStatusColor` (lines 34-45): a `switch`, so strict equality. */
  function StatusColor(status: Option<JValue>): (style: string)
    ensures style == ConfirmedStyle <==> status == Some(JStr("confirmed"))
    ensures style == CancelledStyle <==> status == Some(JStr("cancelled"))
    ensures style == PendingStyle <==> status == Some(JStr("pending"))
    ensures style == DefaultStyle <==>
      status !in {Some(JStr("confirmed")), Some(JStr("cancelled")), Some(JStr("pending"))}
  {
    if status == Some(JStr("confirmed")) then ConfirmedStyle
    else if status == Some(JStr("cancelled")) then CancelledStyle
    else if status == Some(JStr("pending")) then PendingStyle
    else DefaultStyle
  }

  /** The cancel button is offered only for confirmed bookings. */
  predicate CanCancel(status: Option<JValue>)
  {
    status == Some(JStr("confirmed"))
  }

  /** `toUpperCase` on one character, for the ASCII letters. */
  function UpperAscii(c: char): (u: char)
    ensures 'a' <= c <= 'z' ==> 'A' <= u <= 'Z' && u as int == c as int - 32
    ensures !('a' <= c <= 'z') ==> u == c
  {
    if 'a' <= c <= 'z' then (c as int - 32) as char else c
  }

  /** `status.charAt(0).toUpperCase() + status.slice(1)`. */
  function StatusLabel(status: string): (shown: string)
    ensures |shown| == |status|
    ensures status != [] ==> shown[0] == UpperAscii(status[0]) && shown[1..] == status[1..]
  {
    if status == [] then [] else [UpperAscii(status[0])] + status[1..]
  }

  /** Capitalising a label again changes nothing. */
  lemma StatusLabelIdempotent(status: string)
    ensures StatusLabel(StatusLabel(status)) == StatusLabel(status)
  {
    if status != [] {
      assert StatusLabel(status)[1..] == status[1..];
    }
  }

  /** `${nights} night${nights !== 1 ? 's' : ''}` for a numeric `nights`. */
  function NightsLabel(nights: int): (shown: string)
  {
    IntToString(nights) + " night" + (if nights != 1 then "s" else "")
  }

  /** Only exactly one night is singular. */
  lemma NightsPlural(nights: int)
    ensures NightsLabel(nights)[|NightsLabel(nights)| - 1] == 's' <==> nights != 1
    ensures nights == 1 ==> NightsLabel(nights) == "1 night"
  {
  }

  // ---------------------------------------------------------------------
  // safeGet (lines 48-51)

  /** A canonical array index: decimal digits without a leading zero. */
  function ArrayIndex(key: string): (r: Option<nat>)
  {
    if key != [] && (forall i :: 0 <= i < |key| ==> IsDigit(key[i])) && (|key| == 1 || key[0] != '0')
    then Some(ParseDigits(key))
    else None
  }

  lemma ArrayIndexOfNat(i: nat)
    ensures ArrayIndex(NatToString(i)) == Some(i)
  {
    ParseNatToString(i);
  }

  /** `v[key]` on a truthy value: an own field of an object; an element or
      the length of an array; a one-character string or the length of a
      string; nothing on numbers and booleans. */
  function Property(v: JValue, key: string): (r: Option<JValue>)
    ensures v.JObj? ==> r == Get(v, key)
    ensures v.JNull? || v.JBool? || v.JNum? ==> r == None
  {
    match v
    case JObj(f) => Get(v, key)
    case JArr(items) =>
      if key == "length" then Some(JNum(|items|))
      else
        var ix := ArrayIndex(key);
        if ix.Some? && ix.value < |items| then Some(items[ix.value]) else None
    case JStr(s) =>
      if key == "length" then Some(JNum(|s|))
      else
        var ix := ArrayIndex(key);
        if ix.Some? && ix.value < |s| then Some(JStr([s[ix.value]])) else None
    case _ => None
  }

  /** One step of the `reduce`: the property when the current value is
      truthy and has it, the default otherwise. */
  function Step(current: JValue, key: string, default: JValue): JValue
  {
    if Truthy(current) && Property(current, key).Some? then Property(current, key).value else default
  }

  function Fold(current: JValue, keys: seq<string>, default: JValue): JValue
    decreases |keys|
  {
    if keys == [] then current else Fold(Step(current, keys[0], default), keys[1..], default)
  }

  /** `safeGet(obj, path, defaultValue)`. */
  function SafeGet(obj: JValue, path: string, default: JValue): JValue
  {
    Fold(obj, Split(path, "."), default)
  }

  /** The value reached by following `keys` from `v`, when every value along
      the way is truthy and has the next key. */
  function Walk(v: JValue, keys: seq<string>): Option<JValue>
    decreases |keys|
  {
    if keys == [] then Some(v)
    else if Truthy(v) && Property(v, keys[0]).Some? then Walk(Property(v, keys[0]).value, keys[1..])
    else None
  }

  /** When the whole path resolves, `safeGet` returns the value at its end. */
  lemma {:induction false} FoldWalk(v: JValue, keys: seq<string>, default: JValue)
    requires Walk(v, keys).Some?
    ensures Fold(v, keys, default) == Walk(v, keys).value
    decreases |keys|
  {
    if keys != [] {
      FoldWalk(Property(v, keys[0]).value, keys[1..], default);
    }
  }

  /** Once a key is missing the default is carried through the remaining
      keys, so the default comes back whenever it has none of them. */
  lemma {:induction false} FoldDefault(v: JValue, keys: seq<string>, default: JValue)
    requires Walk(v, keys).None?
    requires forall k :: 0 <= k < |keys| ==> !Truthy(default) || Property(default, keys[k]).None?
    ensures Fold(v, keys, default) == default
    decreases |keys|
  {
    var s := Step(v, keys[0], default);
    if Truthy(v) && Property(v, keys[0]).Some? {
      FoldDefault(s, keys[1..], default);
    } else {
      KeepsDefault(keys[1..], default);
    }
  }

  lemma {:induction false} KeepsDefault(keys: seq<string>, default: JValue)
    requires forall k :: 0 <= k < |keys| ==> !Truthy(default) || Property(default, keys[k]).None?
    ensures Fold(default, keys, default) == default
  {
    if keys != [] {
      KeepsDefault(keys[1..], default);
    }
  }

  /** But the default `'N/A'` is a string with a length, so a path that
      breaks off before `length` yields 3 rather than the default. */
  lemma DefaultHasLength()
    ensures SafeGet(JObj(map[]), "a.length", JStr("N/A")) == JNum(3)
  {
    SplitPath();
    assert Step(JObj(map[]), "a", JStr("N/A")) == JStr("N/A");
    assert Step(JStr("N/A"), "length", JStr("N/A")) == JNum(3);
  }

  /** The keys of the path `a.length`. */
  lemma SplitPath()
    ensures Split("a.length", ".") == ["a", "length"]
  {
    var path := "a.length";
    assert path[0..1] == "a" && path[1..2] == ".";
    assert IndexOf(path, ".") == Some(1);
    assert path[2..] == "length";
    NoDotInLength();
  }

  lemma NoDotInLength()
    ensures Split("length", ".") == ["length"]
  {
    forall k | 0 <= k < 6
      ensures !OccursAt("length", ".", k)
    {
      assert "length"[k..k + 1][0] == "length"[k] != '.';
    }
    assert IndexOf("length", ".") == None;
  }
}
