/**
 * The carousel's position logic (client/src/components/QuoteCarousel.jsx):
 * the list it shows, and the current index that the next and previous
 * buttons, swipes and the dot buttons move around that list.
 */
module QuoteCarousel {
  import opened Basics
  import opened ClientData

  /** `(i + 1) % n`, and no change at all when the list is empty. */
  function Next(i: nat, n: nat): (r: nat)
    ensures n > 0 ==> r < n
    ensures n == 0 ==> r == i
  {
    if n == 0 then i else (i + 1) % n
  }

  /** `(i - 1 + n) % n`, and no change at all when the list is empty. */
  function Prev(i: nat, n: nat): (r: nat)
    ensures n > 0 ==> r < n
    ensures n == 0 ==> r == i
  {
    if n == 0 then i else (i + n - 1) % n
  }

  /** Both steps land inside a non-empty list, wherever they start. */
  lemma StepsInRange(i: nat, n: nat)
    requires n > 0
    ensures Next(i, n) < n && Prev(i, n) < n
  {
  }

  /** Inside the list, next moves one place on and wraps from the last place to the first. */
  lemma NextClosed(i: nat, n: nat)
    requires i < n
    ensures Next(i, n) == if i + 1 < n then i + 1 else 0
  {
  }

  /** Inside the list, previous moves one place back and wraps from the first place to the last. */
  lemma PrevClosed(i: nat, n: nat)
    requires i < n
    ensures Prev(i, n) == if i == 0 then n - 1 else i - 1
  {
    if i > 0 {
      assert i + n - 1 == (i - 1) + n;
    }
  }

  /** From a position in the list, the two steps undo each other. */
  lemma PrevNextInverse(i: nat, n: nat)
    requires i < n || n == 0
    ensures Prev(Next(i, n), n) == i
    ensures Next(Prev(i, n), n) == i
  {
    if n > 0 {
      NextClosed(i, n);
      PrevClosed(i, n);
      NextClosed(Prev(i, n), n);
      PrevClosed(Next(i, n), n);
    }
  }

  /** The position after k next steps. */
  function Advance(i: nat, n: nat, k: nat): nat {
    if k == 0 then i else Next(Advance(i, n, k - 1), n)
  }

  /** a steps and then b more steps are a + b steps. */
  lemma {:induction false} AdvanceSplit(i: nat, n: nat, a: nat, b: nat)
    ensures Advance(i, n, a + b) == Advance(Advance(i, n, a), n, b)
  {
    if b > 0 {
      AdvanceSplit(i, n, a, b - 1);
    }
  }

  /** Short of the end of the list, k steps move exactly k places. */
  lemma {:induction false} AdvanceWithin(i: nat, n: nat, k: nat)
    requires i + k < n
    ensures Advance(i, n, k) == i + k
  {
    if k > 0 {
      AdvanceWithin(i, n, k - 1);
      NextClosed(i + k - 1, n);
    }
  }

  /** n next steps bring the carousel back to where it started. */
  lemma FullCircle(i: nat, n: nat)
    requires i < n
    ensures Advance(i, n, n) == i
  {
    AdvanceWithin(i, n, n - i - 1);
    NextClosed(n - 1, n);
    assert Advance(i, n, n - i) == 0;
    AdvanceSplit(i, n, n - i, i);
    if i > 0 {
      AdvanceWithin(0, n, i);
    }
  }

  /** The component's state: the list it shows and `currentIndex`. */
  class Carousel {
    var quotes: seq<ClientQuote>
    var currentIndex: nat

    /** The index is inside the list, or the list is empty and the index is still at 0. */
    ghost predicate InRange()
      reads this
    {
      if quotes == [] then currentIndex == 0 else currentIndex < |quotes|
    }

    /** `useState(0)` before any data has arrived. */
    constructor ()
      ensures quotes == [] && currentIndex == 0
      ensures InRange()
    {
      quotes := [];
      currentIndex := 0;
    }

    /**
     * New data from the hook: the list is recomputed with the carousel's
     * fallbacks and the index is kept, so it stays in range only while the
     * new list is longer than the index.
     */
    method Reload(data: Payload)
      modifies this
      ensures quotes == CarouselQuotes(data)
      ensures currentIndex == old(currentIndex)
      ensures currentIndex < |quotes| ==> InRange()
    {
      quotes := CarouselQuotes(data);
    }

    /** The next button, a left swipe, and each autoplay tick. */
    method NextQuote()
      modifies this
      ensures quotes == old(quotes)
      ensures currentIndex == Next(old(currentIndex), |quotes|)
      ensures old(InRange()) ==> InRange()
    {
      if |quotes| == 0 {
        return;
      }
      currentIndex := (currentIndex + 1) % |quotes|;
    }

    /** The previous button and a right swipe. */
    method PrevQuote()
      modifies this
      ensures quotes == old(quotes)
      ensures currentIndex == Prev(old(currentIndex), |quotes|)
      ensures old(InRange()) ==> InRange()
    {
      if |quotes| == 0 {
        return;
      }
      currentIndex := (currentIndex - 1 + |quotes|) % |quotes|;
    }

    /** A dot button: one is rendered per quote, so its index is always in the list. */
    method SelectDot(index: nat)
      requires index < |quotes|
      modifies this
      ensures quotes == old(quotes) && currentIndex == index
      ensures InRange()
    {
      currentIndex := index;
    }

    /** The position indicator, `currentIndex + 1` of the list length. */
    method Indicator() returns (position: nat, count: nat)
      requires InRange() && quotes != []
      ensures 1 <= position <= count == |quotes|
      ensures position == currentIndex + 1
    {
      position := currentIndex + 1;
      count := |quotes|;
    }
  }

  /** Next then previous on the component leaves the index where it was. */
  method NextThenPrev(c: Carousel)
    requires c.InRange()
    modifies c
    ensures c.quotes == old(c.quotes) && c.currentIndex == old(c.currentIndex)
  {
    c.NextQuote();
    c.PrevQuote();
    PrevNextInverse(old(c.currentIndex), |c.quotes|);
  }

  /**
   * The index survives a reload: showing the third of three quotes and then
   * receiving a single quote leaves the index past the end of the list.
   */
  method ShrinkingReload() returns (index: nat, count: nat)
    ensures index == 2 && count == 1
  {
    var c := new Carousel();
    var q := ClientQuote(0, None, None);
    c.Reload(Listing(Some([q, q, q]), None));
    c.SelectDot(2);
    c.Reload(Array([q]));
    index := c.currentIndex;
    count := |c.quotes|;
  }
}
