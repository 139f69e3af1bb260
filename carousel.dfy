/** The popup's detailed hotel view: a stack of hotel cards with previous and
    next buttons moving `currentHotelIndex` over `hotelCards`. */
module Carousel {

  /** `a` if it is at most `b`, else `b`. */
  function Min(a: int, b: int): (r: int)
    ensures r <= a && r <= b && (r == a || r == b)
  {
    if a <= b then a else b
  }

  function Max(a: int, b: int): (r: int)
    ensures r >= a && r >= b && (r == a || r == b)
  {
    if a >= b then a else b
  }

  /** The index a previous-click leads to: one down unless already first. */
  function PrevIndex(index: int): (r: int)
    ensures index > 0 ==> r == index - 1
    ensures index <= 0 ==> r == index
  {
    if index > 0 then index - 1 else index
  }

  /** The index a next-click leads to among `count` cards: one up unless
      already last. */
  function NextIndex(index: int, count: nat): (r: int)
    ensures index < count - 1 ==> r == index + 1
    ensures index >= count - 1 ==> r == index
  {
    if index < count - 1 then index + 1 else index
  }

  /** The closure variables `currentHotelIndex` and `hotelCards` (only its
      length matters here), and the `disabled` flags of the previous and
      next buttons. */
  class Carousel {
    var index: int
    var count: nat
    var prevDisabled: bool
    var nextDisabled: bool

    /** The index never goes negative and, while there are cards, always
        names one. An empty list leaves the old index in place, since the
        reset to 0 happens only when there is a card to show. */
    predicate Valid()
      reads this
    {
      0 <= index && (count > 0 ==> index < count)
    }

    /** The flags as `updateStack` writes them: previous disabled on the
        first card, next disabled on the last. */
    predicate FlagsCurrent()
      reads this
    {
      prevDisabled == (index == 0) && nextDisabled == (index == count - 1)
    }

    /** The buttons start with the `disabled` state of the page's markup,
        which is not part of this model. */
    constructor (prevInitially: bool, nextInitially: bool)
      ensures Valid() && index == 0 && count == 0
      ensures prevDisabled == prevInitially && nextDisabled == nextInitially
    {
      index := 0;
      count := 0;
      prevDisabled := prevInitially;
      nextDisabled := nextInitially;
    }

    /** `displayHotelResults`: the list is stored for navigation and, when
        it is not empty, `prepareDetailedView` puts the first card in
        front. Nothing rewrites the button flags here: the initial
        `updateStack` call of `setupHotelNavigation` is never reached. */
    method Show(n: nat)
      requires Valid()
      modifies this
      ensures Valid()
      ensures count == n
      ensures index == (if n > 0 then 0 else old(index))
      ensures prevDisabled == old(prevDisabled) && nextDisabled == old(nextDisabled)
    {
      count := n;
      if n > 0 {
        index := 0;
      }
    }

    /** The button part of `updateStack`. */
    method UpdateStack()
      modifies this
      ensures index == old(index) && count == old(count)
      ensures FlagsCurrent()
    {
      prevDisabled := index == 0;
      nextDisabled := index == count - 1;
    }

    /** The previous button's click handler. */
    method Previous()
      requires Valid()
      modifies this
      ensures Valid() && count == old(count)
      ensures index == PrevIndex(old(index))
      ensures index != old(index) ==> FlagsCurrent()
      ensures index == old(index) ==>
        prevDisabled == old(prevDisabled) && nextDisabled == old(nextDisabled)
    {
      if index > 0 {
        index := index - 1;
        UpdateStack();
      }
    }

    /** The next button's click handler. */
    method Next()
      requires Valid()
      modifies this
      ensures Valid() && count == old(count)
      ensures index == NextIndex(old(index), count)
      ensures index != old(index) ==> FlagsCurrent()
      ensures index == old(index) ==>
        prevDisabled == old(prevDisabled) && nextDisabled == old(nextDisabled)
    {
      if index < count - 1 {
        index := index + 1;
        UpdateStack();
      }
    }

    /** `goToPrevious` of the swipe handlers: as the button, and tells
        whether it moved. */
    method GoToPrevious() returns (moved: bool)
      requires Valid()
      modifies this
      ensures Valid() && count == old(count)
      ensures index == PrevIndex(old(index))
      ensures moved <==> index != old(index)
      ensures moved ==> FlagsCurrent()
      ensures !moved ==> prevDisabled == old(prevDisabled) && nextDisabled == old(nextDisabled)
    {
      if index > 0 {
        index := index - 1;
        UpdateStack();
        return true;
      }
      return false;
    }

    /** `goToNext` of the swipe handlers. */
    method GoToNext() returns (moved: bool)
      requires Valid()
      modifies this
      ensures Valid() && count == old(count)
      ensures index == NextIndex(old(index), count)
      ensures moved <==> index != old(index)
      ensures moved ==> FlagsCurrent()
      ensures !moved ==> prevDisabled == old(prevDisabled) && nextDisabled == old(nextDisabled)
    {
      if index < count - 1 {
        index := index + 1;
        UpdateStack();
        return true;
      }
      return false;
    }

    /** A user's click on the next button. A disabled button gets no click
        event. Otherwise every opening of the detailed view has run
        `setupHotelNavigation` again and added one more click listener, so
        the handler runs once per opening. */
    method NextClick(listeners: nat)
      requires Valid()
      modifies this
      ensures Valid() && count == old(count)
      ensures index == (if old(nextDisabled) then old(index) else Iterate(old(index), count, listeners, true))
      ensures old(nextDisabled) ==> prevDisabled == old(prevDisabled) && nextDisabled
    {
      if nextDisabled {
        return;
      }
      var k := 0;
      while k < listeners
        invariant 0 <= k <= listeners
        invariant Valid() && count == old(count)
        invariant index == Iterate(old(index), count, k, true)
      {
        Next();
        k := k + 1;
      }
    }

    /** The same for previous. */
    method PreviousClick(listeners: nat)
      requires Valid()
      modifies this
      ensures Valid() && count == old(count)
      ensures index == (if old(prevDisabled) then old(index) else Iterate(old(index), count, listeners, false))
      ensures old(prevDisabled) ==> nextDisabled == old(nextDisabled) && prevDisabled
    {
      if prevDisabled {
        return;
      }
      var k := 0;
      while k < listeners
        invariant 0 <= k <= listeners
        invariant Valid() && count == old(count)
        invariant index == Iterate(old(index), count, k, false)
      {
        Previous();
        k := k + 1;
      }
    }
  }

  /** While there are cards and the flags are those `updateStack` wrote for
      the current index (as after any move), each button is disabled exactly
      when its click would not move: the first card cannot go back, the last
      cannot go on. */
  lemma DisabledIffStuck(index: int, count: nat, prevDisabled: bool, nextDisabled: bool)
    requires count > 0 && 0 <= index < count
    requires prevDisabled == (index == 0) && nextDisabled == (index == count - 1)
    ensures prevDisabled <==> PrevIndex(index) == index
    ensures nextDisabled <==> NextIndex(index, count) == index
  {
  }

  /** Three cards, moved to the last, then a new list of five: the view opens
      on the first card with the next button still disabled, so a click on
      it does not move. */
  method StaleNextAfterNewList() returns (c: Carousel)
    ensures c.Valid() && c.index == 0 && c.count == 5
    ensures c.nextDisabled && !c.FlagsCurrent()
  {
    c := new Carousel(true, false);
    c.Show(3);
    c.Next();
    c.Next();
    c.Show(5);
    c.NextClick(1);
  }

  /** Moving next then previous comes back, unless the last card was
      already in front; and previous then next likewise unless it was the
      first. */
  lemma NextPrevious(index: int, count: nat)
    requires count > 0 && 0 <= index < count
    ensures index < count - 1 ==> PrevIndex(NextIndex(index, count)) == index
    ensures index > 0 ==> NextIndex(PrevIndex(index), count) == index
  {
  }

  /** Enough next-clicks always reach the last card, enough previous-clicks
      the first. */
  lemma {:induction false} ClicksReachEnds(index: int, count: nat, k: nat)
    requires count > 0 && 0 <= index < count
    ensures Iterate(index, count, k, true) == Min(index + k, count - 1)
    ensures Iterate(index, count, k, true) == count - 1 <==> k >= count - 1 - index
    ensures Iterate(index, count, k, false) == Max(index - k, 0)
    ensures Iterate(index, count, k, false) == 0 <==> k >= index
  {
    if k > 0 {
      ClicksReachEnds(index, count, k - 1);
    }
  }

  /** `k` next-clicks (`forward`) or previous-clicks in a row. */
  function Iterate(index: int, count: nat, k: nat, forward: bool): (r: int)
    requires 0 <= index && (count > 0 ==> index < count)
    ensures 0 <= r && (count > 0 ==> r < count)
  {
    if k == 0 then index
    else
      var i := Iterate(index, count, k - 1, forward);
      if forward then NextIndex(i, count) else PrevIndex(i)
  }
}
