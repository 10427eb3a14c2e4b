/**
 The horizontal swipe tracker installed on every `.swipe-container`: it
 remembers where the touch started, where it last moved to and whether a
 drag is in progress, drags the container's items along with the finger,
 and on release reports a swipe when the finger travelled more than 100
 pixels.
 */
module Swipe {

  /** Distance (in CSS pixels) a finger must travel, strictly, to count as a swipe. */
  const Threshold: real := 100.0

  /**
   Per-container state. `offset` is the horizontal translation applied to the
   container's items; the coordinates are client X positions.
   */
  datatype Tracker = Tracker(startX: real, currentX: real, dragging: bool, offset: real)

  datatype Event = TouchStart(x: real) | TouchMove(x: real) | TouchEnd

  /** What a touchend reports: nothing, or a swipe in one direction. */
  datatype Gesture = NoSwipe | SwipeLeft | SwipeRight

  /** The state a container starts in: both positions 0, no drag, items not moved. */
  function Initial(): (t: Tracker)
    ensures !t.dragging && t.offset == 0.0
    ensures t.startX == 0.0 && t.currentX == 0.0
  {
    Tracker(0.0, 0.0, false, 0.0)
  }

  function Abs(x: real): real {
    if x < 0.0 then -x else x
  }

  /** The touchend classifier, in the source's shape: magnitude first, then sign. */
  function Classify(diff: real): (g: Gesture)
    ensures g == SwipeRight <==> diff > Threshold
    ensures g == SwipeLeft <==> diff < -Threshold
    ensures g == NoSwipe <==> -Threshold <= diff <= Threshold
  {
    if Abs(diff) > Threshold then
      if diff > 0.0 then SwipeRight else SwipeLeft
    else
      NoSwipe
  }

  /** One touch event on a container: the new state and what it reports. */
  function Step(t: Tracker, e: Event): (r: (Tracker, Gesture))
    ensures r.1 != NoSwipe ==> e.TouchEnd?
    ensures e.TouchEnd? ==> !r.0.dragging && r.0.offset == 0.0 && r.1 == Classify(t.currentX - t.startX)
    ensures e.TouchMove? && t.dragging ==> r.0.currentX == e.x && r.0.offset == e.x - t.startX
    ensures r.0.startX != t.startX ==> e.TouchStart?
  {
    match e
    case TouchStart(x) =>
      (t.(startX := x, dragging := true), NoSwipe)
    case TouchMove(x) =>
      if !t.dragging then (t, NoSwipe)
      else (t.(currentX := x, offset := x - t.startX), NoSwipe)
    case TouchEnd =>
      (t.(dragging := false, offset := 0.0), Classify(t.currentX - t.startX))
  }

  /** Events applied in order, collecting the swipes reported. */
  function Run(t: Tracker, es: seq<Event>): (r: (Tracker, seq<Gesture>))
    ensures forall i :: 0 <= i < |r.1| ==> r.1[i] != NoSwipe
    ensures |r.1| <= |es|
    decreases |es|
  {
    if |es| == 0 then (t, [])
    else
      var (t1, g) := Step(t, es[0]);
      var (t2, gs) := Run(t1, es[1..]);
      (t2, if g == NoSwipe then gs else [g] + gs)
  }

  // ---------------------------------------------------------------------

  /** Without a drag in progress a touchmove changes nothing. */
  lemma MoveIgnoredWhenNotDragging(t: Tracker, x: real)
    requires !t.dragging
    ensures Step(t, TouchMove(x)) == (t, NoSwipe)
  {
  }

  /** Touchend always ends the drag and puts the items back. */
  lemma EndStopsDragging(t: Tracker)
    ensures !Step(t, TouchEnd).0.dragging
    ensures Step(t, TouchEnd).0.offset == 0.0
  {
  }

  /**
   Touchstart records the start but leaves `currentX` alone, so a tap with no
   move in between is classified against the previous gesture's last
   position.
   */
  lemma TapUsesStalePosition(t: Tracker, x: real)
    ensures Step(t, TouchStart(x)).0.currentX == t.currentX
    ensures Step(Step(t, TouchStart(x)).0, TouchEnd).1 == Classify(t.currentX - x)
  {
  }

  /** On a fresh container a tap (start then end) at x > 100 already reports a left swipe. */
  lemma FirstTapFarRightIsLeftSwipe(x: real)
    requires x > Threshold
    ensures Run(Initial(), [TouchStart(x), TouchEnd]).1 == [SwipeLeft]
  {
  }

  predicate AllMoves(es: seq<Event>) {
    forall i :: 0 <= i < |es| ==> es[i].TouchMove?
  }

  /** A run of touchmoves during a drag leaves the last move's position in `currentX`. */
  lemma {:induction false} MovesTrackLastPosition(t: Tracker, moves: seq<Event>)
    requires t.dragging && |moves| > 0 && AllMoves(moves)
    ensures Run(t, moves).0.currentX == moves[|moves| - 1].x
    ensures Run(t, moves).0.startX == t.startX
    ensures Run(t, moves).0.dragging
    ensures Run(t, moves).1 == []
    decreases |moves|
  {
    var t1 := Step(t, moves[0]).0;
    if |moves| > 1 {
      MovesTrackLastPosition(t1, moves[1..]);
    }
  }

  /**
   A complete gesture (touchstart at x0, one or more touchmoves, touchend)
   reports exactly the classification of the last position minus x0,
   whatever state the container was in.
   */
  lemma {:induction false} GestureClassifiesTravel(t: Tracker, x0: real, moves: seq<Event>)
    requires |moves| > 0 && AllMoves(moves)
    ensures var gs := Run(t, [TouchStart(x0)] + moves + [TouchEnd]).1;
      gs == (if Classify(moves[|moves| - 1].x - x0) == NoSwipe then [] else [Classify(moves[|moves| - 1].x - x0)])
    ensures !Run(t, [TouchStart(x0)] + moves + [TouchEnd]).0.dragging
  {
    var es := [TouchStart(x0)] + moves + [TouchEnd];
    var t1 := Step(t, TouchStart(x0)).0;
    assert es[1..] == moves + [TouchEnd];
    MovesTrackLastPosition(t1, moves);
    RunAppend(t1, moves, [TouchEnd]);
  }

  /** Running two event lists back to back is running their concatenation. */
  lemma {:induction false} RunAppend(t: Tracker, a: seq<Event>, b: seq<Event>)
    ensures Run(t, a + b).0 == Run(Run(t, a).0, b).0
    ensures Run(t, a + b).1 == Run(t, a).1 + Run(Run(t, a).0, b).1
    decreases |a|
  {
    if |a| > 0 {
      assert (a + b)[1..] == a[1..] + b;
      RunAppend(Step(t, a[0]).0, a[1..], b);
    } else {
      assert a + b == b;
    }
  }
}
