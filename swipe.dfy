/** `useSwipeGestures`: the touch-start and touch-end positions kept in two
    refs, and the classification of a finished touch into at most one
    swipe handler call. Screen coordinates are real numbers. */
module Swipe {
  import opened Optional

  datatype Point = Point(x: real, y: real)
  datatype Direction = Left | Right | Up | Down

  /** Which of the four optional handlers the caller passed. */
  datatype Handlers = Handlers(onLeft: bool, onRight: bool, onUp: bool, onDown: bool)

  const DefaultThreshold: real := 50.0

  function Abs(r: real): real { if r < 0.0 then -r else r }

  /** The handler a touch ending at `end` calls, if any. The deltas run from
      the end back to the start, so moving the finger left gives a positive
      `dx`. A tie between the two axes counts as vertical. */
  function Fired(start: Point, end: Point, threshold: real, h: Handlers): (r: Option<Direction>)
    ensures var dx := start.x - end.x; var dy := start.y - end.y;
      && (r == Some(Left) <==> Abs(dx) > Abs(dy) && dx > threshold && h.onLeft)
      && (r == Some(Right) <==> Abs(dx) > Abs(dy) && !(dx > threshold && h.onLeft) && dx < -threshold && h.onRight)
      && (r == Some(Up) <==> Abs(dx) <= Abs(dy) && dy > threshold && h.onUp)
      && (r == Some(Down) <==> Abs(dx) <= Abs(dy) && !(dy > threshold && h.onUp) && dy < -threshold && h.onDown)
  {
    var dx := start.x - end.x;
    var dy := start.y - end.y;
    if Abs(dx) > Abs(dy) then
      if dx > threshold && h.onLeft then Some(Left)
      else if dx < -threshold && h.onRight then Some(Right)
      else None
    else
      if dy > threshold && h.onUp then Some(Up)
      else if dy < -threshold && h.onDown then Some(Down)
      else None
  }

  /** A movement of exactly the threshold, along either axis, fires nothing. */
  lemma ExactThresholdDoesNotFire(start: Point, end: Point, threshold: real, h: Handlers)
    requires threshold >= 0.0
    requires Abs(start.x - end.x) == threshold && Abs(start.y - end.y) <= threshold
    ensures Fired(start, end, threshold, h).None?
  {
  }

  /** With a non-negative threshold, a swipe whose handler is missing fires
      nothing: the other handler on the same axis is not a fallback. */
  lemma NoFallbackToOtherHandler(start: Point, end: Point, threshold: real, h: Handlers)
    requires threshold >= 0.0
    requires start.x - end.x > threshold && Abs(start.x - end.x) > Abs(start.y - end.y)
    requires !h.onLeft
    ensures Fired(start, end, threshold, h).None?
  {
  }

  /** Any long enough move along the dominant axis reaches its handler. */
  lemma LongSwipeFires(start: Point, end: Point, threshold: real)
    requires threshold >= 0.0
    requires Abs(start.x - end.x) > threshold || Abs(start.y - end.y) > threshold
    ensures Fired(start, end, threshold, Handlers(true, true, true, true)).Some?
  {
  }

  /** The two refs the listeners overwrite. */
  class SwipeTracker {
    var touchStart: Point
    var touchEnd: Point

    constructor ()
      ensures touchStart == Point(0.0, 0.0) && touchEnd == Point(0.0, 0.0)
    {
      touchStart := Point(0.0, 0.0);
      touchEnd := Point(0.0, 0.0);
    }

    /** `handleTouchStart` */
    method TouchStart(p: Point)
      modifies this
      ensures touchStart == p && touchEnd == old(touchEnd)
    {
      touchStart := p;
    }

    /** `handleTouchEnd`: records the end and reports the handler called. */
    method TouchEnd(p: Point, threshold: real, h: Handlers) returns (fired: Option<Direction>)
      modifies this
      ensures touchEnd == p && touchStart == old(touchStart)
      ensures fired == Fired(touchStart, p, threshold, h)
    {
      touchEnd := p;
      fired := Fired(touchStart, touchEnd, threshold, h);
    }
  }
}
