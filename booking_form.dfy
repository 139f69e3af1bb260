/** The popup's booking form: the guest forms container, limited to two
    guests, and the confirm handler that collects and validates the holder
    and the guests before the booking request is sent. */
module BookingForm {

  import opened Json
  import opened Text

  /** The raw values of one guest form's inputs. */
  datatype GuestInput = GuestInput(firstName: string, lastName: string, email: string, phone: string, remarks: string)

  const BlankForm := GuestInput("", "", "", "", "")

  /** The guest forms in the container and the state of the add button. */
  class GuestForms {
    var forms: seq<GuestInput>
    var addDisabled: bool

    /** At most two forms, and the add button is disabled exactly when there
        are two. */
    predicate Valid()
      reads this
    {
      |forms| <= 2 && (addDisabled <==> |forms| == 2)
    }

    /** The page as loaded: the primary guest's form, add enabled. */
    constructor ()
      ensures Valid() && forms == [BlankForm] && !addDisabled
    {
      forms := [BlankForm];
      addDisabled := false;
    }

    /** `resetGuestsContainer`: only the first form stays, add is enabled. */
    method Reset()
      modifies this
      ensures forms == (if old(forms) == [] then [] else old(forms)[..1])
      ensures !addDisabled && Valid()
    {
      if forms != [] {
        forms := forms[..1];
      }
      addDisabled := false;
    }

    /** `addGuestForm`: nothing happens at two forms; otherwise a blank form
        is appended and add is disabled once there are two. */
    method Add()
      requires Valid()
      modifies this
      ensures Valid()
      ensures old(|forms|) >= 2 ==> forms == old(forms) && addDisabled == old(addDisabled)
      ensures old(|forms|) < 2 ==> forms == old(forms) + [BlankForm]
    {
      if |forms| >= 2 {
        return;
      }
      forms := forms + [BlankForm];
      if |forms| >= 2 {
        addDisabled := true;
      }
    }

    /** The remove button of an added form (the primary form has none):
        that form goes, and add is enabled again below two forms. */
    method Remove(i: nat)
      requires Valid() && 1 <= i < |forms|
      modifies this
      ensures Valid()
      ensures forms == old(forms)[..i] + old(forms)[i + 1..]
    {
      forms := forms[..i] + forms[i + 1..];
      if |forms| < 2 {
        addDisabled := false;
      }
    }

    /** Typing into the inputs of form `i`. */
    method Fill(i: nat, input: GuestInput)
      requires Valid() && i < |forms|
      modifies this
      ensures Valid()
      ensures forms == old(forms)[i := input] && addDisabled == old(addDisabled)
    {
      forms := forms[i := input];
    }
  }

  datatype Holder = Holder(firstName: string, lastName: string, email: string, phone: string)

  datatype Guest = Guest(occupancyNumber: nat, firstName: string, lastName: string,
                         email: string, phone: string, remarks: string)

  predicate HolderComplete(h: Holder)
  {
    h.firstName != [] && h.lastName != [] && h.email != [] && h.phone != []
  }

  predicate GuestComplete(g: Guest)
  {
    g.firstName != [] && g.lastName != [] && g.email != [] && g.phone != []
  }

  /** The guest read from form `i`: every input trimmed, numbered `i + 1`. */
  function GuestOf(form: GuestInput, i: nat): Guest
  {
    Guest(i + 1, Trim(form.firstName), Trim(form.lastName), Trim(form.email), Trim(form.phone), Trim(form.remarks))
  }

  /** The guest of every form, in form order. */
  function Numbered(forms: seq<GuestInput>): (gs: seq<Guest>)
    ensures |gs| == |forms|
    ensures forall i :: 0 <= i < |forms| ==> gs[i] == GuestOf(forms[i], i)
  {
    seq(|forms|, i requires 0 <= i < |forms| => GuestOf(forms[i], i))
  }

  /** Each guest carries its position plus one. */
  predicate Positioned(gs: seq<Guest>)
  {
    forall i :: 0 <= i < |gs| ==> gs[i].occupancyNumber == i + 1
  }

  /** The complete guests, in order. */
  function Kept(gs: seq<Guest>): (r: seq<Guest>)
    ensures |r| <= |gs|
    ensures forall k :: 0 <= k < |r| ==> GuestComplete(r[k]) && r[k] in gs
  {
    if gs == [] then []
    else
      var n := |gs| - 1;
      Kept(gs[..n]) + (if GuestComplete(gs[n]) then [gs[n]] else [])
  }

  /** The guests pushed by the loop: the complete ones, in form order. */
  function Collected(forms: seq<GuestInput>): (gs: seq<Guest>)
    ensures |gs| <= |forms|
    ensures forall k :: 0 <= k < |gs| ==> GuestComplete(gs[k]) && 1 <= gs[k].occupancyNumber <= |forms|
  {
    Kept(Numbered(forms))
  }

  lemma CollectedStep(forms: seq<GuestInput>, i: nat)
    requires i < |forms|
    ensures Collected(forms[..i + 1]) == Collected(forms[..i])
      + (if GuestComplete(GuestOf(forms[i], i)) then [GuestOf(forms[i], i)] else [])
  {
    var gs := Numbered(forms[..i + 1]);
    assert gs[..i] == Numbered(forms[..i]);
  }

  datatype Result<T> = Ok(value: T) | Err(message: string)

  const Guest1Incomplete := "Please fill in all information for Guest 1 (Primary)"
  const NoGuests := "At least one guest is required"

  /** Lines 1305-1332: the `forEach` over the guest forms, throwing when the
      primary guest is incomplete, then the check that someone was added. */
  method CollectGuests(forms: seq<GuestInput>) returns (r: Result<seq<Guest>>)
    ensures forms != [] && !GuestComplete(GuestOf(forms[0], 0)) ==> r == Err(Guest1Incomplete)
    ensures forms == [] ==> r == Err(NoGuests)
    ensures forms != [] && GuestComplete(GuestOf(forms[0], 0)) ==> r == Ok(Collected(forms))
  {
    ghost var primaryComplete := forms != [] && GuestComplete(GuestOf(forms[0], 0));
    var guests: seq<Guest> := [];
    var i := 0;
    while i < |forms|
      invariant 0 <= i <= |forms|
      invariant guests == Collected(forms[..i])
      invariant i > 0 ==> primaryComplete
    {
      var g := GuestOf(forms[i], i);
      var complete := GuestComplete(g);
      if i == 0 && !complete {
        return Err(Guest1Incomplete);
      }
      assert i == 0 ==> complete == primaryComplete;
      CollectedStep(forms, i);
      if complete {
        guests := guests + [g];
      }
      i := i + 1;
    }
    assert forms[..i] == forms;
    if primaryComplete {
      PrimaryFirst(forms);
    }
    if guests == [] {
      return Err(NoGuests);
    }
    return Ok(guests);
  }

  /** A complete first guest is the first guest kept. */
  lemma {:induction false} KeptFirst(gs: seq<Guest>)
    requires gs != [] && GuestComplete(gs[0])
    ensures Kept(gs) != [] && Kept(gs)[0] == gs[0]
  {
    if |gs| > 1 {
      var n := |gs| - 1;
      assert gs[..n][0] == gs[0];
      KeptFirst(gs[..n]);
    } else {
      assert gs[..0] == [];
    }
  }

  /** The primary guest, once complete, is always the first guest sent, so
      a booking that proceeds never has an empty guest list. */
  lemma PrimaryFirst(forms: seq<GuestInput>)
    requires forms != [] && GuestComplete(GuestOf(forms[0], 0))
    ensures Collected(forms) != [] && Collected(forms)[0] == GuestOf(forms[0], 0)
  {
    KeptFirst(Numbered(forms));
  }

  /** Kept guests of positioned guests have strictly increasing numbers. */
  lemma {:induction false} KeptOrdered(gs: seq<Guest>)
    requires Positioned(gs)
    ensures forall k, l :: 0 <= k < l < |Kept(gs)| ==> Kept(gs)[k].occupancyNumber < Kept(gs)[l].occupancyNumber
  {
    if gs != [] {
      var n := |gs| - 1;
      assert Positioned(gs[..n]);
      KeptOrdered(gs[..n]);
      var prefix := Kept(gs[..n]);
      forall k | 0 <= k < |prefix|
        ensures prefix[k].occupancyNumber <= n
      {
        var j :| 0 <= j < n && gs[..n][j] == prefix[k];
      }
    }
  }

  /** A positioned guest is kept exactly when it is complete. */
  lemma {:induction false} KeptExactly(gs: seq<Guest>)
    requires Positioned(gs)
    ensures forall i :: 0 <= i < |gs| ==> (gs[i] in Kept(gs) <==> GuestComplete(gs[i]))
  {
    if gs != [] {
      var n := |gs| - 1;
      var prefix := Kept(gs[..n]);
      var last := if GuestComplete(gs[n]) then [gs[n]] else [];
      assert Kept(gs) == prefix + last;
      assert Positioned(gs[..n]);
      KeptExactly(gs[..n]);
      forall i | 0 <= i < n
        ensures gs[i] in Kept(gs) <==> GuestComplete(gs[i])
      {
        assert gs[..n][i] == gs[i];
        assert gs[i] !in last;
      }
      LastNotKept(gs);
      assert gs[n] in Kept(gs) <==> gs[n] in last;
    }
  }

  /** The last positioned guest is not among those kept before it. */
  lemma LastNotKept(gs: seq<Guest>)
    requires Positioned(gs) && gs != []
    ensures gs[|gs| - 1] !in Kept(gs[..|gs| - 1])
  {
    var n := |gs| - 1;
    var prefix := Kept(gs[..n]);
    forall k | 0 <= k < |prefix|
      ensures prefix[k] != gs[n]
    {
      var j :| 0 <= j < n && gs[..n][j] == prefix[k];
    }
  }

  /** The guests are sent in form order: their occupancy numbers strictly
      increase. */
  lemma CollectedOrdered(forms: seq<GuestInput>)
    ensures forall k, l :: 0 <= k < l < |Collected(forms)| ==>
      Collected(forms)[k].occupancyNumber < Collected(forms)[l].occupancyNumber
  {
    KeptOrdered(Numbered(forms));
  }

  /** Exactly the complete forms are sent, each numbered by its form's
      position plus one. */
  lemma CollectedExactly(forms: seq<GuestInput>)
    ensures forall i :: 0 <= i < |forms| ==>
      (GuestOf(forms[i], i) in Collected(forms) <==> GuestComplete(GuestOf(forms[i], i)))
  {
    KeptExactly(Numbered(forms));
  }

  /** What the confirm button leads to. */
  datatype Confirmation =
    | Demo
    | Refused(message: string)
    | Submit(holder: Holder, paymentMethod: string, guests: seq<Guest>, prebookId: Option<JValue>)

  const HolderIncomplete := "Please fill in all holder information fields"

  /** Lines 1280-1345 up to the request: `prebook` is
      `window.currentPrebookData`, `holderInput` the raw holder inputs and
      `checkedMethod` the value of the checked payment radio, if any. */
  method Confirm(prebook: Option<JValue>, holderInput: Holder, forms: seq<GuestInput>,
                 checkedMethod: Option<string>) returns (c: Confirmation)
    ensures !Present(prebook) || Present(Get(prebook.value, "isDemo")) ==> c == Demo
    ensures Present(prebook) && !Present(Get(prebook.value, "isDemo")) ==> !c.Demo?
    ensures c.Refused? ==> c.message in {HolderIncomplete, Guest1Incomplete, NoGuests}
    ensures Present(prebook) && !Present(Get(prebook.value, "isDemo"))
            && !HolderComplete(Holder(Trim(holderInput.firstName), Trim(holderInput.lastName),
                                      Trim(holderInput.email), Trim(holderInput.phone))) ==>
      c == Refused(HolderIncomplete)
    ensures c.Submit? ==>
      && HolderComplete(c.holder) && c.guests != []
      && c.holder == Holder(Trim(holderInput.firstName), Trim(holderInput.lastName),
                            Trim(holderInput.email), Trim(holderInput.phone))
      && c.guests == Collected(forms)
      && c.paymentMethod == (if checkedMethod.Some? && checkedMethod.value != [] then checkedMethod.value
                             else "TRANSACTION_ID")
      && c.paymentMethod != []
      && c.prebookId == Get(prebook.value, "prebookId")
    ensures Present(prebook) && !Present(Get(prebook.value, "isDemo")) ==>
      (c.Submit? <==>
         && HolderComplete(Holder(Trim(holderInput.firstName), Trim(holderInput.lastName),
                                  Trim(holderInput.email), Trim(holderInput.phone)))
         && forms != [] && GuestComplete(GuestOf(forms[0], 0)))
  {
    if !Present(prebook) || Present(Get(prebook.value, "isDemo")) {
      return Demo;
    }
    var holder := Holder(Trim(holderInput.firstName), Trim(holderInput.lastName),
                         Trim(holderInput.email), Trim(holderInput.phone));
    if !HolderComplete(holder) {
      return Refused(HolderIncomplete);
    }
    var guests := CollectGuests(forms);
    match guests
    case Err(message) =>
      return Refused(message);
    case Ok(gs) =>
      PrimaryFirst(forms);
      var payWith := if checkedMethod.Some? && checkedMethod.value != [] then checkedMethod.value
                    else "TRANSACTION_ID";
      return Submit(holder, payWith, gs, Get(prebook.value, "prebookId"));
  }
}
