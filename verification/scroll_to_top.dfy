/**
 The floating scroll-to-top button: hidden until the page is scrolled more
 than 500 pixels down, and hidden again once it is scrolled back to 500 or
 less.
 */
module ScrollToTop {

  /** Scroll offset (CSS pixels) the page must strictly exceed for the button to show. */
  const ShowAfter: real := 500.0

  /** The button is created hidden. */
  const InitiallyVisible: bool := false

  /** The scroll listener: the button's visibility after a scroll to `pageYOffset`. */
  function OnScroll(visible: bool, pageYOffset: real): (v: bool)
    ensures v <==> pageYOffset > 500.0
  {
    pageYOffset > ShowAfter
  }

  /** Scroll events in order. */
  function Run(visible: bool, offsets: seq<real>): bool
    decreases |offsets|
  {
    if |offsets| == 0 then visible else Run(OnScroll(visible, offsets[0]), offsets[1..])
  }

  // ---------------------------------------------------------------------

  /** Visible exactly beyond 500 pixels; at exactly 500 the button is hidden. */
  lemma VisibleIff(visible: bool, y: real)
    ensures OnScroll(visible, y) <==> y > 500.0
    ensures !OnScroll(visible, 500.0)
  {
  }

  /** Scrolling further down never hides a visible button. */
  lemma Monotone(v1: bool, v2: bool, y1: real, y2: real)
    requires y1 <= y2 && OnScroll(v1, y1)
    ensures OnScroll(v2, y2)
  {
  }

  /** The listener keeps no memory: after any scrolls the button reflects only the last offset. */
  lemma {:induction false} OnlyLastOffsetCounts(visible: bool, offsets: seq<real>)
    ensures |offsets| == 0 ==> Run(visible, offsets) == visible
    ensures |offsets| > 0 ==> (Run(visible, offsets) <==> offsets[|offsets| - 1] > ShowAfter)
    decreases |offsets|
  {
    if |offsets| > 0 {
      OnlyLastOffsetCounts(OnScroll(visible, offsets[0]), offsets[1..]);
    }
  }
}
