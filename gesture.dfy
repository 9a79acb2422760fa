/** The pure decisions inside the hand-tracking handler of script.js: the
    swipe rule that turns palm movement into a move, the choice of the
    direction, and the status category shown to the player. */
module Gesture {
  import opened Optional
  import opened Bounds
  import opened Grid

  /** Minimum palm travel, in pixels, for a swipe. */
  const SWIPE_THRESHOLD: real := 80.0

  /** A swipe must complete within this many milliseconds of its origin. */
  const SWIPE_TIME_LIMIT: int := 700

  /** `swipeStartPos` and `swipeStartTime`, which are set and cleared together. */
  datatype Anchor = Anchor(pos: Point, time: int)

  /** The swipe origin after one active frame, and the direction it fired, if any. */
  datatype SwipeStep = SwipeStep(origin: Option<Anchor>, fire: Option<Direction>)

  function Abs(v: real): (r: real)
    ensures r >= 0.0 && (r == v || r == -v)
  {
    if v < 0.0 then -v else v
  }

  /** The signed travel along a direction. */
  function Along(d: Direction, dx: real, dy: real): real {
    match d
    case Right => dx
    case Left => -dx
    case Down => dy
    case Up => -dy
  }

  /** The travel across a direction. */
  function Across(d: Direction, dx: real, dy: real): real {
    match d
    case Right => dy
    case Left => dy
    case Down => dx
    case Up => dx
  }

  /** The dominant axis decides; only a strictly larger horizontal travel is
      horizontal, so a diagonal tie goes vertical. Screen y grows downwards. */
  function SwipeDirection(dx: real, dy: real): (d: Direction)
    ensures (d == Left || d == Right) <==> Abs(dx) > Abs(dy)
    ensures d == Right <==> Abs(dx) > Abs(dy) && dx > 0.0
    ensures d == Down <==> Abs(dx) <= Abs(dy) && dy > 0.0
  {
    if Abs(dx) > Abs(dy) then
      (if dx > 0.0 then Right else Left)
    else
      (if dy > 0.0 then Down else Up)
  }

  /** Whatever the palm did, the chosen direction is one it travelled along,
      and at least as far as it travelled across. */
  lemma SwipeFollowsHand(dx: real, dy: real)
    requires dx * dx + dy * dy > 0.0
    ensures var d := SwipeDirection(dx, dy);
            Along(d, dx, dy) > 0.0 && Along(d, dx, dy) >= Abs(Across(d, dx, dy))
  {
  }

  /** The squared distance between two points; comparing it with the squared
      threshold is script.js's `Math.sqrt(..) > 80` on exact reals. */
  function Distance2(a: Point, b: Point): real {
    (b.x - a.x) * (b.x - a.x) + (b.y - a.y) * (b.y - a.y)
  }

  /** One frame of swipe tracking while control is active. */
  function SwipeTrack(origin: Option<Anchor>, pos: Point, now: int): (s: SwipeStep)
    ensures origin.None? ==> s == SwipeStep(Some(Anchor(pos, now)), None)
    ensures s.fire.Some? <==>
              origin.Some? && Distance2(origin.value.pos, pos) > SWIPE_THRESHOLD * SWIPE_THRESHOLD &&
              now - origin.value.time < SWIPE_TIME_LIMIT
    ensures s.fire.Some? ==>
              s.origin.None? &&
              s.fire.value == SwipeDirection(pos.x - origin.value.pos.x, pos.y - origin.value.pos.y)
    ensures origin.Some? && s.fire.None? ==>
              s.origin == (if now - origin.value.time > SWIPE_TIME_LIMIT then Some(Anchor(pos, now)) else origin)
  {
    match origin
    case None => SwipeStep(Some(Anchor(pos, now)), None)
    case Some(a) =>
      var dx := pos.x - a.pos.x;
      var dy := pos.y - a.pos.y;
      var elapsed := now - a.time;
      if Distance2(a.pos, pos) > SWIPE_THRESHOLD * SWIPE_THRESHOLD && elapsed < SWIPE_TIME_LIMIT then
        SwipeStep(None, Some(SwipeDirection(dx, dy)))
      else if elapsed > SWIPE_TIME_LIMIT then
        SwipeStep(Some(Anchor(pos, now)), None)
      else
        SwipeStep(origin, None)
  }

  /** A swipe takes two frames: the one that fires clears the origin, so the
      frame after it can only start a new swipe. */
  lemma NoBackToBackSwipes(origin: Option<Anchor>, p1: Point, t1: int, p2: Point, t2: int)
    ensures SwipeTrack(origin, p1, t1).fire.Some? ==>
              SwipeTrack(SwipeTrack(origin, p1, t1).origin, p2, t2).fire.None?
  {
  }

  /** An origin exactly 700 ms old neither fires nor is replaced, and any
      older origin is replaced by the current position instead of firing. */
  lemma StaleOriginNeverFires(a: Anchor, pos: Point, now: int)
    ensures now - a.time == SWIPE_TIME_LIMIT ==> SwipeTrack(Some(a), pos, now) == SwipeStep(Some(a), None)
    ensures now - a.time > SWIPE_TIME_LIMIT ==> SwipeTrack(Some(a), pos, now) == SwipeStep(Some(Anchor(pos, now)), None)
  {
  }

  /** The status categories of the hand indicator, in the priority order of script.js. */
  datatype Status = NoHand | ControlActive | ReleasePinch | PinchOutside | HandInside | MoveCloser | HandOutside

  /** The branch selection of `updateStatusIndicators` on a hand frame:
      `inside` is the container test, `nearby` the expanded-box test. */
  function StatusOf(active: bool, locked: bool, pinching: bool, inside: bool, nearby: bool): (s: Status)
    ensures s != NoHand
    ensures s == ControlActive <==> active
  {
    if active then ControlActive
    else if locked && pinching then ReleasePinch
    else if pinching && !inside then PinchOutside
    else if inside && !pinching then HandInside
    else if nearby then MoveCloser
    else HandOutside
  }

  /** With control active exactly when pinching inside the container while
      unlocked, and the container inside the expanded box, each category is
      one disjoint condition on the raw inputs. */
  lemma StatusPartition(locked: bool, pinching: bool, inside: bool, nearby: bool)
    requires inside ==> nearby
    ensures var s := StatusOf(pinching && inside && !locked, locked, pinching, inside, nearby);
            (s == ControlActive <==> pinching && inside && !locked) &&
            (s == ReleasePinch <==> pinching && locked) &&
            (s == PinchOutside <==> pinching && !inside && !locked) &&
            (s == HandInside <==> !pinching && inside) &&
            (s == MoveCloser <==> !pinching && !inside && nearby) &&
            (s == HandOutside <==> !pinching && !nearby)
  {
  }
}
