/** The home-page carousel (src/components/HomeBanner.tsx): three slides and the index of the one on
    show, moved forwards and backwards with wrap-around. */
module HomeBanner {

  /** The number of slides in `bannerSlides`. */
  const SlideCount: nat := 3

  /** The `nextSlide` updater: the last index wraps to 0, any other index moves up by one. */
  function NextIndex(current: int, n: nat): (r: int)
    requires n > 0
    ensures 0 <= current < n ==> r == (current + 1) % n
  {
    if current == n - 1 then 0 else current + 1
  }

  /** The `prevSlide` updater: 0 wraps to the last index, any other index moves down by one. */
  function PrevIndex(current: int, n: nat): (r: int)
    requires n > 0
    ensures 0 <= current < n ==> r == (current - 1) % n
  {
    if current == 0 then n - 1 else current - 1
  }

  /** Both updaters keep an index in range. */
  lemma IndexStaysInRange(current: int, n: nat)
    requires 0 <= current < n
    ensures 0 <= NextIndex(current, n) < n && 0 <= PrevIndex(current, n) < n
  {
  }

  /** `prevSlide` undoes `nextSlide`, and the other way round. */
  lemma NextPrevInverse(current: int, n: nat)
    requires 0 <= current < n
    ensures PrevIndex(NextIndex(current, n), n) == current
    ensures NextIndex(PrevIndex(current, n), n) == current
  {
  }

  /** `k` steps forward. */
  function NextTimes(current: int, n: nat, k: nat): int
    requires n > 0
  {
    if k == 0 then current else NextIndex(NextTimes(current, n, k - 1), n)
  }

  /** Up to `n` steps forward land `k` places further on, wrapping past the last slide once. */
  lemma {:induction false} NextTimesWraps(current: int, n: nat, k: nat)
    requires 0 <= current < n && k <= n
    ensures NextTimes(current, n, k) == if current + k < n then current + k else current + k - n
  {
    if k > 0 {
      NextTimesWraps(current, n, k - 1);
    }
  }

  /** As many steps forward as there are slides come back to the start. */
  lemma FullCycle(current: int, n: nat)
    requires 0 <= current < n
    ensures NextTimes(current, n, n) == current
  {
    NextTimesWraps(current, n, n);
  }

  /** The carousel's state. */
  class Banner {
    var currentSlide: int

    /** The index names one of the slides. */
    predicate Valid()
      reads this
    {
      0 <= currentSlide < SlideCount
    }

    constructor()
      ensures currentSlide == 0 && Valid()
    {
      currentSlide := 0;
    }

    /** `nextSlide`, also run by the interval timer. */
    method Next()
      modifies this
      ensures currentSlide == NextIndex(old(currentSlide), SlideCount)
      ensures old(Valid()) ==> Valid()
    {
      currentSlide := if currentSlide == SlideCount - 1 then 0 else currentSlide + 1;
    }

    /** `prevSlide`. */
    method Prev()
      modifies this
      ensures currentSlide == PrevIndex(old(currentSlide), SlideCount)
      ensures old(Valid()) ==> Valid()
    {
      currentSlide := if currentSlide == 0 then SlideCount - 1 else currentSlide - 1;
    }

    /** `goToSlide(index)`, called by the indicator of slide `index`; the indicators are one per
        slide, so the index names a slide. */
    method GoTo(index: int)
      requires 0 <= index < SlideCount
      modifies this
      ensures currentSlide == index && Valid()
    {
      currentSlide := index;
    }
  }
}
