/**
 * The mono camera's drag controller: pressing on the layer source starts a drag, moving while
 * dragging turns the camera (yaw wrapped into [-pi, pi], pitch clamped just inside the poles),
 * and releasing ends the drag.
 */
module Camera {
  /** `Math.PI`. */
  const Pi: real := 3.141592653589793

  /** Radians per pixel are `Pi * InputScale`. */
  const InputScale: real := 0.001

  /** The pitch bound: a little less than a quarter turn. */
  const PitchLimit: real := Pi / 2.001

  /** The controller's state: the drag flag, the last pointer position and the camera angles. */
  datatype DragState = DragState(dragging: bool, lastX: real, lastY: real, yaw: real, pitch: real)

  /** The state the constructor sets up from the optional initial angles. */
  function InitialState(yaw: real, pitch: real): (s: DragState)
    ensures !s.dragging && s.lastX == 0.0 && s.lastY == 0.0
    ensures s.yaw == yaw && s.pitch == pitch
  {
    DragState(false, 0.0, 0.0, yaw, pitch)
  }

  /** The angles are where a move leaves them. */
  predicate InRange(s: DragState) {
    -Pi <= s.yaw <= Pi && -PitchLimit <= s.pitch <= PitchLimit
  }

  /** `y` moved by `k` whole turns. */
  function Shift(y: real, k: int): real {
    y + 2.0 * Pi * (k as real)
  }

  /** `a` and `b` name the same direction: they differ by whole turns. */
  ghost predicate SameDirection(a: real, b: real) {
    exists k: int :: a == Shift(b, k)
  }

  /** The number of whole turns the first wrap loop adds to a yaw below -pi. */
  function TurnsBelow(y: real): nat {
    if y < -Pi then ((-Pi - y) / (2.0 * Pi)).Floor + 1 else 0
  }

  /** The first wrap loop: add whole turns while below -pi. */
  function WrapUp(y: real): (r: real)
    decreases TurnsBelow(y)
    ensures r >= -Pi
    ensures y >= -Pi ==> r == y
    ensures y < -Pi ==> r < Pi
    ensures exists k: nat :: r == Shift(y, k)
  {
    if y < -Pi then
      assert TurnsBelow(y + 2.0 * Pi) < TurnsBelow(y);
      var r := WrapUp(y + 2.0 * Pi);
      ghost var k: nat :| r == Shift(y + 2.0 * Pi, k);
      assert r == Shift(y, k + 1);
      r
    else
      assert y == Shift(y, 0);
      y
  }

  /** The number of whole turns the second wrap loop removes from a yaw above pi. */
  function TurnsAbove(y: real): nat {
    if y > Pi then ((y - Pi) / (2.0 * Pi)).Floor + 1 else 0
  }

  /** The second wrap loop: remove whole turns while above pi. */
  function WrapDown(y: real): (r: real)
    decreases TurnsAbove(y)
    ensures r <= Pi
    ensures y <= Pi ==> r == y
    ensures y > Pi ==> r > -Pi
    ensures exists k: nat :: y == Shift(r, k)
  {
    if y > Pi then
      assert TurnsAbove(y - 2.0 * Pi) < TurnsAbove(y);
      var r := WrapDown(y - 2.0 * Pi);
      ghost var k: nat :| y - 2.0 * Pi == Shift(r, k);
      assert y == Shift(r, k + 1);
      r
    else
      assert y == Shift(y, 0);
      y
  }

  /** Both loops in the source's order. */
  function NormalizeYaw(y: real): (r: real)
    ensures -Pi <= r <= Pi
    ensures SameDirection(r, y)
  {
    var up := WrapUp(y);
    var r := WrapDown(up);
    ghost var a: nat :| up == Shift(y, a);
    ghost var b: nat :| up == Shift(r, b);
    assert r == Shift(y, a - b);
    r
  }

  /** A yaw already in range is left where it is. */
  lemma NormalizeYawKeepsRange(y: real)
    requires -Pi <= y <= Pi
    ensures NormalizeYaw(y) == y
  {
  }

  /** `Math.max(-limit, Math.min(p, limit))`. */
  function ClampPitch(p: real): (r: real)
    ensures -PitchLimit <= r <= PitchLimit
    ensures -PitchLimit <= p <= PitchLimit ==> r == p
    ensures p > PitchLimit ==> r == PitchLimit
    ensures p < -PitchLimit ==> r == -PitchLimit
  {
    var low := if p < PitchLimit then p else PitchLimit;
    if -PitchLimit > low then -PitchLimit else low
  }

  /**
   * `startDrag`: a press on the layer source starts a drag at the pointer and is reported as
   * handled (so the page does not scroll); a press anywhere else changes nothing.
   */
  function StartDrag(s: DragState, onLayerSource: bool, x: real, y: real): (r: (DragState, bool))
    ensures r.1 <==> onLayerSource
    ensures onLayerSource ==> r.0 == s.(dragging := true, lastX := x, lastY := y)
    ensures !onLayerSource ==> r.0 == s
  {
    if onLayerSource then (s.(dragging := true, lastX := x, lastY := y), true) else (s, false)
  }

  /**
   * `moveDrag`: while dragging, the pointer's travel since the last event turns the camera by
   * pi * 0.001 radians per pixel; the yaw is wrapped and the pitch clamped, and the pointer
   * position is remembered. Without a drag nothing changes.
   */
  function MoveDrag(s: DragState, x: real, y: real): (r: DragState)
    ensures !s.dragging ==> r == s
    ensures s.dragging ==> && InRange(r) && r.dragging
                           && r.lastX == x && r.lastY == y
                           && r.pitch == ClampPitch(s.pitch + Pi * ((y - s.lastY) * InputScale))
                           && SameDirection(r.yaw, s.yaw + Pi * ((x - s.lastX) * InputScale))
  {
    if !s.dragging then s
    else
      var yaw := NormalizeYaw(s.yaw + Pi * ((x - s.lastX) * InputScale));
      var pitch := ClampPitch(s.pitch + Pi * ((y - s.lastY) * InputScale));
      s.(yaw := yaw, pitch := pitch, lastX := x, lastY := y)
  }

  /** `endDrag`: the drag flag is cleared; nothing else changes. */
  function EndDrag(s: DragState): (r: DragState)
    ensures !r.dragging
    ensures r.lastX == s.lastX && r.lastY == s.lastY && r.yaw == s.yaw && r.pitch == s.pitch
  {
    s.(dragging := false)
  }

  /**
   * The pointer events the page delivers: a press (mousedown / touchstart) says whether it hit
   * the layer source, a move (mousemove / touchmove) and a release (mouseup / touchend).
   */
  datatype PointerEvent = Press(onLayerSource: bool, x: real, y: real) | Move(x: real, y: real) | Release

  /** One pointer event dispatched to its listener. */
  function Step(s: DragState, e: PointerEvent): (r: DragState)
    ensures e.Release? ==> !r.dragging
    ensures e.Press? && e.onLayerSource ==> r.dragging && r.lastX == e.x && r.lastY == e.y
    ensures r.dragging ==> s.dragging || (e.Press? && e.onLayerSource)
    ensures InRange(s) ==> InRange(r)
    ensures !s.dragging ==> r.yaw == s.yaw && r.pitch == s.pitch
  {
    match e
    case Press(hit, x, y) => StartDrag(s, hit, x, y).0
    case Move(x, y) => MoveDrag(s, x, y)
    case Release => EndDrag(s)
  }

  /**
   * Feed a sequence of pointer events through the controller: a release as the last event
   * leaves no drag, and a drag in progress at the end was either in progress at the start or
   * begun by a press on the layer source.
   */
  function Apply(s: DragState, events: seq<PointerEvent>): (r: DragState)
    decreases |events|
    ensures |events| > 0 && events[|events| - 1].Release? ==> !r.dragging
    ensures r.dragging ==> s.dragging || exists i :: 0 <= i < |events| && events[i].Press? && events[i].onLayerSource
  {
    if events == [] then s
    else
      var r := Apply(Step(s, events[0]), events[1..]);
      assert |events| > 1 ==> events[1..][|events[1..]| - 1] == events[|events| - 1];
      assert forall i :: 0 <= i < |events[1..]| ==> events[1..][i] == events[i + 1];
      r
  }

  /** Once the angles are in range, no sequence of pointer events takes them out of it. */
  lemma {:induction false} ApplyKeepsRange(s: DragState, events: seq<PointerEvent>)
    requires InRange(s)
    ensures InRange(Apply(s, events))
    decreases |events|
  {
    if events != [] {
      ApplyKeepsRange(Step(s, events[0]), events[1..]);
    }
  }

  /** Whatever angles the camera starts with, one move during a drag brings them into range. */
  lemma {:induction false} MoveThenApplyInRange(s: DragState, x: real, y: real, events: seq<PointerEvent>)
    requires s.dragging
    ensures InRange(Apply(MoveDrag(s, x, y), events))
  {
    ApplyKeepsRange(MoveDrag(s, x, y), events);
  }

  /** Without a press on the layer source, no event turns the camera. */
  lemma {:induction false} NoPressNoTurn(s: DragState, events: seq<PointerEvent>)
    requires !s.dragging
    requires forall i :: 0 <= i < |events| ==> !(events[i].Press? && events[i].onLayerSource)
    ensures Apply(s, events).yaw == s.yaw && Apply(s, events).pitch == s.pitch
    ensures !Apply(s, events).dragging
    decreases |events|
  {
    if events != [] {
      assert Step(s, events[0]).yaw == s.yaw && Step(s, events[0]).pitch == s.pitch && !Step(s, events[0]).dragging;
      NoPressNoTurn(Step(s, events[0]), events[1..]);
    }
  }
}
