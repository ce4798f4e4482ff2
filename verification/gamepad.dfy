/**
 * The gamepad state: once per frame every connected pad's buttons and axes are folded into
 * combined tables (and, for the Gear VR touchpad, into tables of its own), and edges in the Gear
 * VR tables become semantic events: a tap and four swipe directions.
 */
module Gamepad {
  import opened Results

  /** One entry of the browser's gamepad list. */
  datatype Pad = Pad(id: string, connected: bool, buttons: seq<bool>, axes: seq<real>)

  /** The semantic events, named by the directions the browser reports. */
  datatype GearEvent = Tap | SwipeRight | SwipeLeft | SwipeUp | SwipeDown

  /**
   * The tables a `GamepadState` keeps. An index missing from a table reads as `undefined`,
   * which JavaScript treats as false (and as neither below nor above zero).
   */
  datatype PadState = PadState(
    pressed: map<nat, bool>,
    oldPressed: map<nat, bool>,
    gearButtons: map<nat, bool>,
    axes: map<nat, real>,
    gearAxes: map<nat, real>,
    oldGearAxes: map<nat, real>,
    hasCallback: bool)

  /** The state the constructor creates, with or without an `ongearvrinput` callback. */
  function InitialState(hasCallback: bool): (s: PadState)
    ensures s.pressed == map[] && s.oldPressed == map[] && s.gearButtons == map[]
    ensures s.axes == map[] && s.gearAxes == map[] && s.oldGearAxes == map[]
    ensures s.hasCallback == hasCallback
  {
    PadState(map[], map[], map[], map[], map[], map[], hasCallback)
  }

  /** A button entry is truthy when present and pressed. */
  predicate Pressed(m: map<nat, bool>, i: nat) {
    i in m && m[i]
  }

  /** An axis entry is truthy when present and non-zero. */
  predicate Moved(m: map<nat, real>, i: nat) {
    i in m && m[i] != 0.0
  }

  /** The id names the Gear VR touchpad: it contains "Gear VR". */
  predicate IsGearVR(id: string) {
    exists k :: 0 <= k <= |id| && OccursAt(id, k)
  }

  predicate OccursAt(id: string, k: nat) {
    k + 7 <= |id| && id[k..k + 7] == "Gear VR"
  }

  /** `old[i] = pressed[i]`: copies the entry, or leaves `undefined` when there is none. */
  function CopyEntry(previous: map<nat, bool>, pressed: map<nat, bool>, i: nat): (r: map<nat, bool>)
    ensures Pressed(r, i) <==> Pressed(pressed, i)
    ensures forall j :: j != i ==> (j in r <==> j in previous) && (j in r ==> r[j] == previous[j])
  {
    if i in pressed then previous[i := pressed[i]] else previous - {i}
  }

  /**
   * The button loop for one pad over its first `n` buttons: each button's previous combined state
   * is remembered, then replaced; a Gear VR pad's buttons are also recorded on their own. Each
   * iteration touches only its own index, so the loop is the three tables' loops side by side.
   */
  function UpdateButtons(s: PadState, buttons: seq<bool>, gear: bool, n: nat): (r: PadState)
    requires n <= |buttons|
    ensures forall i :: 0 <= i < n ==> i in r.pressed && r.pressed[i] == buttons[i]
    ensures forall i :: 0 <= i < n ==> (Pressed(r.oldPressed, i) <==> Pressed(s.pressed, i))
    ensures forall i: nat :: i >= n ==> (i in r.pressed <==> i in s.pressed) && (i in r.pressed ==> r.pressed[i] == s.pressed[i])
    ensures forall i: nat :: i >= n ==> (i in r.oldPressed <==> i in s.oldPressed) && (i in r.oldPressed ==> r.oldPressed[i] == s.oldPressed[i])
    ensures gear ==> forall i :: 0 <= i < n ==> i in r.gearButtons && r.gearButtons[i] == buttons[i]
    ensures !gear ==> r.gearButtons == s.gearButtons
    ensures forall i: nat :: i >= n ==> (i in r.gearButtons <==> i in s.gearButtons) && (i in r.gearButtons ==> r.gearButtons[i] == s.gearButtons[i])
    ensures r.axes == s.axes && r.gearAxes == s.gearAxes && r.oldGearAxes == s.oldGearAxes && r.hasCallback == s.hasCallback
  {
    s.(oldPressed := CopyEntries(s.oldPressed, s.pressed, n),
       pressed := RecordButtons(s.pressed, buttons, n),
       gearButtons := if gear then RecordButtons(s.gearButtons, buttons, n) else s.gearButtons)
  }

  /** `old[i] = pressed[i]` for the first n indices. */
  function CopyEntries(previous: map<nat, bool>, pressed: map<nat, bool>, n: nat): (r: map<nat, bool>)
    ensures forall i :: 0 <= i < n ==> (Pressed(r, i) <==> Pressed(pressed, i))
    ensures forall i: nat :: i >= n ==> (i in r <==> i in previous) && (i in r ==> r[i] == previous[i])
    decreases n
  {
    if n == 0 then previous else CopyEntry(CopyEntries(previous, pressed, n - 1), pressed, n - 1)
  }

  /** `table[i] = buttons[i].pressed` for the first n indices. */
  function RecordButtons(m: map<nat, bool>, buttons: seq<bool>, n: nat): (r: map<nat, bool>)
    requires n <= |buttons|
    ensures forall i :: 0 <= i < n ==> i in r && r[i] == buttons[i]
    ensures forall i: nat :: i >= n ==> (i in r <==> i in m) && (i in r ==> r[i] == m[i])
    decreases n
  {
    if n == 0 then m else RecordButtons(m, buttons, n - 1)[n - 1 := buttons[n - 1]]
  }

  /** The table holding a pad's first `n` axis values, indexed by position. */
  function AxisTable(axes: seq<real>, n: nat): (m: map<nat, real>)
    requires n <= |axes|
    ensures forall i :: i in m <==> 0 <= i < n
    ensures forall i :: 0 <= i < n ==> m[i] == axes[i]
    decreases n
  {
    if n == 0 then map[] else AxisTable(axes, n - 1)[n - 1 := axes[n - 1]]
  }

  /**
   * One entry of the gamepad list: a missing or disconnected pad changes nothing. A connected pad
   * updates the button tables, replaces the combined axes with its own, and, when it is the Gear
   * VR touchpad, moves the Gear VR axes to the previous table before replacing them.
   */
  function PadStep(s: PadState, pad: Option<Pad>): (r: PadState)
    ensures pad.None? || !pad.value.connected ==> r == s
    ensures pad.Some? && pad.value.connected ==>
              var p := pad.value;
              && r.axes == AxisTable(p.axes, |p.axes|)
              && (IsGearVR(p.id) ==> r.oldGearAxes == s.gearAxes && r.gearAxes == AxisTable(p.axes, |p.axes|))
              && (!IsGearVR(p.id) ==> r.oldGearAxes == s.oldGearAxes && r.gearAxes == s.gearAxes && r.gearButtons == s.gearButtons)
              && (forall i :: 0 <= i < |p.buttons| ==> i in r.pressed && r.pressed[i] == p.buttons[i])
              && (forall i :: 0 <= i < |p.buttons| ==> (Pressed(r.oldPressed, i) <==> Pressed(s.pressed, i)))
              && (IsGearVR(p.id) ==> forall i :: 0 <= i < |p.buttons| ==> i in r.gearButtons && r.gearButtons[i] == p.buttons[i])
    ensures pad.Some? && pad.value.connected ==>
              var n := |pad.value.buttons|;
              && (forall i: nat :: i >= n ==> (i in r.pressed <==> i in s.pressed) && (i in r.pressed ==> r.pressed[i] == s.pressed[i]))
              && (forall i: nat :: i >= n ==> (i in r.oldPressed <==> i in s.oldPressed) && (i in r.oldPressed ==> r.oldPressed[i] == s.oldPressed[i]))
              && (forall i: nat :: i >= n ==> (i in r.gearButtons <==> i in s.gearButtons) && (i in r.gearButtons ==> r.gearButtons[i] == s.gearButtons[i]))
    ensures r.hasCallback == s.hasCallback
  {
    if pad.None? || !pad.value.connected then s
    else
      var p := pad.value;
      var gear := IsGearVR(p.id);
      var b := UpdateButtons(s, p.buttons, gear, |p.buttons|);
      var table := AxisTable(p.axes, |p.axes|);
      b.(axes := table,
         oldGearAxes := if gear then b.gearAxes else b.oldGearAxes,
         gearAxes := if gear then table else b.gearAxes)
  }

  /** The pads of one `navigator.getGamepads()` snapshot, folded in list order. */
  function ApplyPads(s: PadState, pads: seq<Option<Pad>>): (r: PadState)
    ensures r.hasCallback == s.hasCallback
    ensures (forall i :: 0 <= i < |pads| && pads[i].Some? ==> !IsGearVR(pads[i].value.id)) ==>
              r.gearButtons == s.gearButtons && r.gearAxes == s.gearAxes && r.oldGearAxes == s.oldGearAxes
    decreases |pads|
  {
    if pads == [] then s
    else
      assert forall i :: 0 <= i < |pads[1..]| ==> pads[1..][i] == pads[i + 1];
      ApplyPads(PadStep(s, pads[0]), pads[1..])
  }

  /** The group an event belongs to: tap, horizontal swipe, vertical swipe. */
  function Group(e: GearEvent): nat {
    match e
    case Tap => 0
    case SwipeRight => 1
    case SwipeLeft => 1
    case SwipeUp => 2
    case SwipeDown => 2
  }

  /** A tap when the Gear VR button 0 is down and the combined button 0 was not. */
  function TapEdge(s: PadState): (r: seq<GearEvent>)
    ensures |r| <= 1 && forall i :: 0 <= i < |r| ==> Group(r[i]) == 0
    ensures Tap in r <==> !Pressed(s.oldPressed, 0) && Pressed(s.gearButtons, 0)
  {
    if !Pressed(s.oldPressed, 0) && Pressed(s.gearButtons, 0) then [Tap] else []
  }

  /**
   * A swipe along one axis when it is off centre now and was centred (or absent) before: a
   * negative value raises `negative`, a positive one `positive`.
   */
  function AxisEdge(s: PadState, axis: nat, negative: GearEvent, positive: GearEvent): (r: seq<GearEvent>)
    requires negative != positive
    ensures |r| <= 1
    ensures forall i :: 0 <= i < |r| ==> r[i] == negative || r[i] == positive
    ensures negative in r <==> !Moved(s.oldGearAxes, axis) && axis in s.gearAxes && s.gearAxes[axis] < 0.0
    ensures positive in r <==> !Moved(s.oldGearAxes, axis) && axis in s.gearAxes && s.gearAxes[axis] > 0.0
  {
    (if !Moved(s.oldGearAxes, axis) && axis in s.gearAxes && s.gearAxes[axis] < 0.0 then [negative] else []) +
    (if !Moved(s.oldGearAxes, axis) && axis in s.gearAxes && s.gearAxes[axis] > 0.0 then [positive] else [])
  }

  /**
   * The edge rules, tap first, then the horizontal axis (negative is "right"), then the vertical
   * axis (negative is "up").
   */
  function Edges(s: PadState): (r: seq<GearEvent>)
    ensures Tap in r <==> !Pressed(s.oldPressed, 0) && Pressed(s.gearButtons, 0)
    ensures SwipeRight in r <==> !Moved(s.oldGearAxes, 0) && 0 in s.gearAxes && s.gearAxes[0] < 0.0
    ensures SwipeLeft in r <==> !Moved(s.oldGearAxes, 0) && 0 in s.gearAxes && s.gearAxes[0] > 0.0
    ensures SwipeUp in r <==> !Moved(s.oldGearAxes, 1) && 1 in s.gearAxes && s.gearAxes[1] < 0.0
    ensures SwipeDown in r <==> !Moved(s.oldGearAxes, 1) && 1 in s.gearAxes && s.gearAxes[1] > 0.0
  {
    var tap := TapEdge(s);
    var h := AxisEdge(s, 0, SwipeRight, SwipeLeft);
    var v := AxisEdge(s, 1, SwipeUp, SwipeDown);
    assert forall e :: e in tap + h + v <==> e in tap || e in h || e in v;
    assert Tap !in h && Tap !in v && SwipeRight !in tap && SwipeLeft !in tap && SwipeRight !in v && SwipeLeft !in v;
    assert SwipeUp !in tap && SwipeDown !in tap && SwipeUp !in h && SwipeDown !in h;
    tap + h + v
  }

  /**
   * One update raises at most one event per group, in group order: never both horizontal
   * directions, never both vertical ones, and a tap before any swipe.
   */
  lemma EdgesOrdered(s: PadState)
    ensures var r := Edges(s);
            forall i, j :: 0 <= i < j < |r| ==> Group(r[i]) < Group(r[j])
  {
    var tap := TapEdge(s);
    var h := AxisEdge(s, 0, SwipeRight, SwipeLeft);
    var v := AxisEdge(s, 1, SwipeUp, SwipeDown);
    assert Edges(s) == tap + h + v;
    assert forall i :: 0 <= i < |h| ==> Group(h[i]) == 1;
    assert forall i :: 0 <= i < |v| ==> Group(v[i]) == 2;
    GroupsOrdered(tap, h, v);
  }

  lemma GroupsOrdered(tap: seq<GearEvent>, h: seq<GearEvent>, v: seq<GearEvent>)
    requires |tap| <= 1 && |h| <= 1 && |v| <= 1
    requires forall i :: 0 <= i < |tap| ==> Group(tap[i]) == 0
    requires forall i :: 0 <= i < |h| ==> Group(h[i]) == 1
    requires forall i :: 0 <= i < |v| ==> Group(v[i]) == 2
    ensures var r := tap + h + v;
            forall i, j :: 0 <= i < j < |r| ==> Group(r[i]) < Group(r[j])
  {
    var r := tap + h + v;
    forall i | 0 <= i < |r|
      ensures Group(r[i]) == if i < |tap| then 0 else if i < |tap| + |h| then 1 else 2
    {
      if i < |tap| {
        assert r[i] == tap[i];
      } else if i < |tap| + |h| {
        assert r[i] == h[i - |tap|];
      } else {
        assert r[i] == v[i - |tap| - |h|];
      }
    }
  }

  /** `_onGearVRInput`: events reach the application only when a callback is installed. */
  function Deliver(s: PadState, events: seq<GearEvent>): (r: seq<GearEvent>)
    ensures s.hasCallback ==> r == events
    ensures !s.hasCallback ==> r == []
  {
    if s.hasCallback then events else []
  }

  /** `update`: fold the snapshot into the tables, then raise and deliver the edges. */
  function Update(s: PadState, pads: seq<Option<Pad>>): (r: (PadState, seq<GearEvent>))
    ensures r.0 == ApplyPads(s, pads)
    ensures s.hasCallback ==> r.1 == Edges(r.0)
    ensures !s.hasCallback ==> r.1 == []
  {
    var next := ApplyPads(s, pads);
    (next, Deliver(next, Edges(next)))
  }

  /** A snapshot of missing and disconnected pads changes nothing. */
  lemma {:induction false} IdlePadsChangeNothing(s: PadState, pads: seq<Option<Pad>>)
    requires forall i :: 0 <= i < |pads| ==> pads[i].None? || !pads[i].value.connected
    ensures ApplyPads(s, pads) == s
    decreases |pads|
  {
    if pads != [] {
      IdlePadsChangeNothing(PadStep(s, pads[0]), pads[1..]);
    }
  }

  /** With only the Gear VR touchpad connected, holding its button down raises one tap, not one per frame. */
  lemma HeldButtonTapsOnce(s: PadState, first: Pad, second: Pad)
    requires first.connected && second.connected && IsGearVR(first.id) && IsGearVR(second.id)
    requires |first.buttons| > 0 && first.buttons[0] && |second.buttons| > 0 && second.buttons[0]
    ensures Tap !in Edges(ApplyPads(ApplyPads(s, [Some(first)]), [Some(second)]))
  {
    assert [Some(first)][1..] == [] && [Some(second)][1..] == [];
    var s1 := ApplyPads(s, [Some(first)]);
    assert ApplyPads(PadStep(s, Some(first)), []) == PadStep(s, Some(first));
    assert s1 == PadStep(s, Some(first));
    var s2 := ApplyPads(s1, [Some(second)]);
    assert ApplyPads(PadStep(s1, Some(second)), []) == PadStep(s1, Some(second));
    assert s2 == PadStep(s1, Some(second));
  }

  /** With only the Gear VR touchpad connected, a swipe held across frames raises its direction once. */
  lemma HeldSwipeRaisesOnce(s: PadState, first: Pad, second: Pad)
    requires first.connected && second.connected && IsGearVR(first.id) && IsGearVR(second.id)
    requires |first.axes| > 0 && first.axes[0] != 0.0
    ensures var e := Edges(ApplyPads(ApplyPads(s, [Some(first)]), [Some(second)]));
            SwipeLeft !in e && SwipeRight !in e
  {
    assert [Some(first)][1..] == [] && [Some(second)][1..] == [];
    var s1 := ApplyPads(s, [Some(first)]);
    assert ApplyPads(PadStep(s, Some(first)), []) == PadStep(s, Some(first));
    assert s1 == PadStep(s, Some(first));
    var s2 := ApplyPads(s1, [Some(second)]);
    assert ApplyPads(PadStep(s1, Some(second)), []) == PadStep(s1, Some(second));
    assert s2 == PadStep(s1, Some(second));
    assert Moved(s2.oldGearAxes, 0);
  }

  /** A pad that is not the Gear VR touchpad never changes the Gear VR tables, so it raises no new event by itself. */
  lemma OtherPadKeepsGearTables(s: PadState, pad: Pad)
    requires !IsGearVR(pad.id)
    ensures var r := PadStep(s, Some(pad));
            r.gearButtons == s.gearButtons && r.gearAxes == s.gearAxes && r.oldGearAxes == s.oldGearAxes
  {
  }

  /**
   * The previous-button table is shared by all pads, so the single-pad guarantee does not carry
   * over: a released button on a pad listed before the touchpad makes a held touchpad button tap
   * again on every update.
   */
  lemma HeldButtonRetapsBehindOtherPad(s: PadState, other: Pad, touchpad: Pad)
    requires other.connected && !IsGearVR(other.id) && |other.buttons| > 0 && !other.buttons[0]
    requires touchpad.connected && IsGearVR(touchpad.id) && |touchpad.buttons| > 0 && touchpad.buttons[0]
    ensures var s1 := ApplyPads(s, [Some(other), Some(touchpad)]);
            var s2 := ApplyPads(s1, [Some(other), Some(touchpad)]);
            Tap in Edges(s1) && Tap in Edges(s2)
  {
    TwoPads(s, other, touchpad);
    OtherThenTouchpadTaps(s, other, touchpad);
    var s1 := ApplyPads(s, [Some(other), Some(touchpad)]);
    TwoPads(s1, other, touchpad);
    OtherThenTouchpadTaps(s1, other, touchpad);
  }

  /** A released button 0 on the first pad hides a held touchpad button 0 from the previous-button table. */
  lemma OtherThenTouchpadTaps(s: PadState, other: Pad, touchpad: Pad)
    requires other.connected && !IsGearVR(other.id) && |other.buttons| > 0 && !other.buttons[0]
    requires touchpad.connected && IsGearVR(touchpad.id) && |touchpad.buttons| > 0 && touchpad.buttons[0]
    ensures Tap in Edges(PadStep(PadStep(s, Some(other)), Some(touchpad)))
  {
    var a := PadStep(s, Some(other));
    assert 0 in a.pressed && !a.pressed[0];
    var b := PadStep(a, Some(touchpad));
    assert !Pressed(b.oldPressed, 0);
    assert Pressed(b.gearButtons, 0);
  }

  lemma TwoPads(s: PadState, a: Pad, b: Pad)
    ensures ApplyPads(s, [Some(a), Some(b)]) == PadStep(PadStep(s, Some(a)), Some(b))
  {
    var pads := [Some(a), Some(b)];
    assert pads[1..] == [Some(b)] && pads[1..][1..] == [];
    var t := PadStep(PadStep(s, Some(a)), Some(b));
    assert ApplyPads(t, []) == t;
    assert ApplyPads(PadStep(s, Some(a)), [Some(b)]) == t;
  }
}
