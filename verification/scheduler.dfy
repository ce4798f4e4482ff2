/**
 * The render loop: the constructor's option coalescing, `start` choosing between presenting to a
 * VR display, the mono fallback and an explanatory message, and one animation frame as the
 * ordered trace of what it does (pre-update, update, then render with its clear, viewports,
 * render hooks and frame submission).
 */
module Scheduler {
  import opened Results
  import opened Gl

  /** The optional constructor fields the loop depends on. */
  datatype InitOptions = InitOptions(clearDepth: Option<bool>, clearColor: Option<Color>, fallbackToMono: Option<bool>)

  /** The settings the loop reads. `clearColor` is an object, so it is truthy whenever present. */
  datatype Settings = Settings(clearDepth: bool, clearColor: Option<Color>, fallbackToMono: bool)

  const DefaultClearColor := Color(0.0, 0.0, 0.0, 1.0)

  /** JavaScript's `flag || true` on an optional boolean: true whatever the flag, even an explicit false. */
  function OrTrue(flag: Option<bool>): (r: bool)
    ensures r
  {
    if flag.Some? && flag.value then flag.value else true
  }

  /**
   * The constructor as written: `clearDepth` and `fallbackToMono` are coalesced with `|| true`,
   * so an explicit `false` is overridden.
   */
  function ResolveAsWritten(init: InitOptions): (s: Settings)
    ensures s.clearDepth && s.fallbackToMono
    ensures s.clearColor == Some(init.clearColor.GetOr(DefaultClearColor))
  {
    Settings(OrTrue(init.clearDepth),
             Some(if init.clearColor.Some? then init.clearColor.value else DefaultClearColor),
             OrTrue(init.fallbackToMono))
  }

  /** Asking for no depth clear and no mono fallback is ignored by the constructor as written. */
  lemma FalseFlagsIgnored()
    ensures var s := ResolveAsWritten(InitOptions(Some(false), None, Some(false)));
            s.clearDepth && s.fallbackToMono
  {
  }

  /** The evident intent: both flags default to true and an explicit value is kept. */
  function Resolve(init: InitOptions): (s: Settings)
    ensures s.clearDepth == init.clearDepth.GetOr(true)
    ensures s.fallbackToMono == init.fallbackToMono.GetOr(true)
    ensures s.clearColor == Some(init.clearColor.GetOr(DefaultClearColor))
  {
    Settings(if init.clearDepth.Some? then init.clearDepth.value else true,
             Some(if init.clearColor.Some? then init.clearColor.value else DefaultClearColor),
             if init.fallbackToMono.Some? then init.fallbackToMono.value else true)
  }

  /** The two resolutions differ exactly when a flag is explicitly false. */
  lemma ResolutionsAgreeUnlessFalse(init: InitOptions)
    ensures ResolveAsWritten(init) == Resolve(init) <==>
              init.clearDepth != Some(false) && init.fallbackToMono != Some(false)
  {
  }

  /** One eye's recommended render size. */
  datatype EyeParameters = EyeParameters(renderWidth: nat, renderHeight: nat)

  /** A VR display as far as the loop is concerned. */
  datatype Display = Display(left: EyeParameters, right: EyeParameters)

  /** What display discovery produced. */
  datatype Discovery = DiscoveryRejected | Displays(found: seq<Display>)

  const NoDisplaysMessage := "There are no VR displays connected."
  const PresentFailedMessage := "Failed to requestPresent."
  const NotAccessibleMessage := "VR Displays are not accessible in this context.  Perhaps you are in an iframe without the allowvr attribute specified."
  const NotSupportedMessage := "WebVR is not supported on this browser."
  const FallbackAdviceMessage := "To support progressive enhancement your fallback code should render a normal Canvas based WebGL experience for the user."

  /** What `start` leaves behind: the display in use, the layer size it chose, whether frames run, the page's messages. */
  datatype Started = Started(display: Option<Display>, layerSize: Option<(nat, nat)>, looping: bool, messages: seq<string>)

  function Max(a: nat, b: nat): nat {
    if a >= b then a else b
  }

  /**
   * `start`: with WebVR, the first display found is adopted and the layer sized for two eyes side
   * by side; the loop begins only if presenting succeeds. Without WebVR the mono loop starts when
   * the fallback is enabled. Every other path only shows messages.
   */
  function Start(s: Settings, hasWebVRSupport: bool, discovery: Discovery, presentOk: bool): (r: Started)
    ensures r.looping <==> (hasWebVRSupport && discovery.Displays? && |discovery.found| > 0 && presentOk)
                           || (!hasWebVRSupport && s.fallbackToMono)
    ensures r.display.Some? <==> hasWebVRSupport && discovery.Displays? && |discovery.found| > 0
    ensures r.display.Some? ==> && r.display.value == discovery.found[0]
                                && r.layerSize.Some?
                                && r.layerSize.value.0 == 2 * Max(r.display.value.left.renderWidth, r.display.value.right.renderWidth)
                                && r.layerSize.value.1 == Max(r.display.value.left.renderHeight, r.display.value.right.renderHeight)
    ensures r.display.None? ==> r.layerSize.None?
    ensures r.looping <==> r.messages == []
    ensures hasWebVRSupport && discovery.DiscoveryRejected? ==> r.messages == [NotAccessibleMessage]
    ensures hasWebVRSupport && discovery == Displays([]) ==> r.messages == [NoDisplaysMessage]
    ensures hasWebVRSupport && discovery.Displays? && |discovery.found| > 0 && !presentOk ==>
              r.messages == [PresentFailedMessage]
    ensures !hasWebVRSupport && !s.fallbackToMono ==> r.messages == [NotSupportedMessage, FallbackAdviceMessage]
  {
    if hasWebVRSupport then
      match discovery
      case DiscoveryRejected => Started(None, None, false, [NotAccessibleMessage])
      case Displays(found) =>
        if |found| == 0 then Started(None, None, false, [NoDisplaysMessage])
        else
          var d := found[0];
          var size := (Max(d.left.renderWidth, d.right.renderWidth) * 2, Max(d.left.renderHeight, d.right.renderHeight));
          if presentOk then Started(Some(d), Some(size), true, [])
          else Started(Some(d), Some(size), false, [PresentFailedMessage])
    else if s.fallbackToMono then Started(None, None, true, [])
    else Started(None, None, false, [NotSupportedMessage, FallbackAdviceMessage])
  }

  /** With WebVR present, a missing display never falls back to mono: the page only gets a message. */
  lemma NoDisplayNoLoop(s: Settings, presentOk: bool)
    ensures var r := Start(s, true, Displays([]), presentOk);
            !r.looping && r.messages == [NoDisplaysMessage]
  {
  }

  /** Which eye a render hook draws. */
  datatype Eye = Left | Right | Mono

  /** Where the update hook's matrices come from. */
  datatype ViewSource = DisplayPose | MonoCamera

  /** One observable step of an animation frame. */
  datatype FrameEvent =
    | ReArm(onDisplay: bool)
    | BeginShimFrame
    | PreUpdateHook
    | GetFrameData
    | ResizeLayer(width: nat, height: nat)
    | UpdateHook(view: ViewSource)
    | Draw(call: GlCall)
    | RenderHook(eye: Eye)
    | SubmitFrame

  /** The phase of the frame each event belongs to: 0 pre-update, 1 update, 2 render. */
  function Phase(e: FrameEvent): nat {
    match e
    case ReArm(_) => 0
    case BeginShimFrame => 0
    case PreUpdateHook => 0
    case GetFrameData => 1
    case ResizeLayer(_, _) => 1
    case UpdateHook(_) => 1
    case Draw(_) => 2
    case RenderHook(_) => 2
    case SubmitFrame => 2
  }

  /** The events of a trace sit in phase order. */
  predicate PhaseOrdered(t: seq<FrameEvent>) {
    forall i, j :: 0 <= i < j < |t| ==> Phase(t[i]) <= Phase(t[j])
  }

  /** The loop's state between frames: its settings, the display, the canvas size and the application's hooks. */
  datatype Loop = Loop(
    settings: Settings,
    display: Option<Display>,
    layerWidth: nat,
    layerHeight: nat,
    hasShim: bool,
    hasPreUpdate: bool,
    hasUpdate: bool,
    hasRender: bool)

  /** `_preUpdate`: re-arm the next frame first, then the shim, then the application's hook. */
  function PreUpdate(l: Loop): (r: seq<FrameEvent>)
    ensures |r| >= 1 && r[0] == ReArm(l.display.Some?)
    ensures forall i :: 0 <= i < |r| ==> Phase(r[i]) == 0
    ensures PreUpdateHook in r <==> l.hasPreUpdate
  {
    [ReArm(l.display.Some?)] + (if l.hasShim then [BeginShimFrame] else []) + (if l.hasPreUpdate then [PreUpdateHook] else [])
  }

  /**
   * `_update`: with a display, read its pose; otherwise, in mono, resize the canvas to its client
   * size. The application's hook follows in either case; with neither, nothing happens.
   */
  function Update(l: Loop, clientWidth: nat, clientHeight: nat): (r: (Loop, seq<FrameEvent>))
    ensures forall i :: 0 <= i < |r.1| ==> Phase(r.1[i]) == 1
    ensures l.display.None? && l.settings.fallbackToMono ==> r.0 == l.(layerWidth := clientWidth, layerHeight := clientHeight)
    ensures !(l.display.None? && l.settings.fallbackToMono) ==> r.0 == l
    ensures (exists v :: UpdateHook(v) in r.1) <==> l.hasUpdate && (l.display.Some? || l.settings.fallbackToMono)
    ensures l.display.Some? ==> r.1 == [GetFrameData] + (if l.hasUpdate then [UpdateHook(DisplayPose)] else [])
    ensures l.display.None? && l.settings.fallbackToMono ==>
              r.1 == [ResizeLayer(clientWidth, clientHeight)] + (if l.hasUpdate then [UpdateHook(MonoCamera)] else [])
    ensures l.display.None? && !l.settings.fallbackToMono ==> r.1 == []
    ensures UpdateHook(DisplayPose) in r.1 <==> l.hasUpdate && l.display.Some?
    ensures UpdateHook(MonoCamera) in r.1 <==> l.hasUpdate && l.display.None? && l.settings.fallbackToMono
  {
    if l.display.Some? then
      var t := [GetFrameData] + (if l.hasUpdate then [UpdateHook(DisplayPose)] else []);
      assert l.hasUpdate ==> t[1] == UpdateHook(DisplayPose);
      (l, t)
    else if l.settings.fallbackToMono then
      var t := [ResizeLayer(clientWidth, clientHeight)] + (if l.hasUpdate then [UpdateHook(MonoCamera)] else []);
      assert l.hasUpdate ==> t[1] == UpdateHook(MonoCamera);
      (l.(layerWidth := clientWidth, layerHeight := clientHeight), t)
    else (l, [])
  }

  /**
   * `_clear`: the depth bit when depth clearing is on; the clear colour and the colour bit when a
   * colour is set; and one clear only when some bit is set.
   */
  function ClearCalls(s: Settings): (r: seq<GlCall>)
    ensures (exists d, c :: Clear(d, c) in r) <==> s.clearDepth || s.clearColor.Some?
    ensures Clear(s.clearDepth, s.clearColor.Some?) in r <==> s.clearDepth || s.clearColor.Some?
    ensures (exists c :: ClearColor(c) in r) <==> s.clearColor.Some?
    ensures s.clearColor.Some? ==> ClearColor(s.clearColor.value) in r
    ensures forall i :: 0 <= i < |r| ==> r[i].Clear? || r[i].ClearColor?
    ensures |r| <= 2
    ensures s.clearColor.Some? ==> r[0] == ClearColor(s.clearColor.value) && r[|r| - 1] == Clear(s.clearDepth, true)
  {
    var color := if s.clearColor.Some? then [ClearColor(s.clearColor.value)] else [];
    var clear := if s.clearDepth || s.clearColor.Some? then [Clear(s.clearDepth, s.clearColor.Some?)] else [];
    assert forall c :: c in color ==> c.ClearColor?;
    color + clear
  }

  function AsEvents(calls: seq<GlCall>): (r: seq<FrameEvent>)
    ensures |r| == |calls| && forall i :: 0 <= i < |r| ==> r[i] == Draw(calls[i])
  {
    seq(|calls|, i requires 0 <= i < |calls| => Draw(calls[i]))
  }

  /** The two half-width viewports of side-by-side stereo. */
  function LeftViewport(w: nat, h: nat): GlCall {
    Viewport(0.0, 0.0, (w as real) * 0.5, h as real)
  }

  function RightViewport(w: nat, h: nat): GlCall {
    Viewport((w as real) * 0.5, 0.0, (w as real) * 0.5, h as real)
  }

  /** What `_render` does after clearing: both eyes and a submit, one mono render, or nothing. */
  function EyeEvents(l: Loop): (t: seq<FrameEvent>)
    ensures forall i :: 0 <= i < |t| ==> Phase(t[i]) == 2
    ensures l.hasRender && l.display.Some? ==>
              t == [Draw(LeftViewport(l.layerWidth, l.layerHeight)), RenderHook(Left),
                    Draw(RightViewport(l.layerWidth, l.layerHeight)), RenderHook(Right), SubmitFrame]
    ensures l.hasRender && l.display.None? && l.settings.fallbackToMono ==>
              t == [Draw(Viewport(0.0, 0.0, l.layerWidth as real, l.layerHeight as real)), RenderHook(Mono)]
    ensures !l.hasRender || (l.display.None? && !l.settings.fallbackToMono) ==> t == []
  {
    if !l.hasRender then []
    else if l.display.Some? then
      [Draw(LeftViewport(l.layerWidth, l.layerHeight)), RenderHook(Left),
       Draw(RightViewport(l.layerWidth, l.layerHeight)), RenderHook(Right), SubmitFrame]
    else if l.settings.fallbackToMono then
      [Draw(Viewport(0.0, 0.0, l.layerWidth as real, l.layerHeight as real)), RenderHook(Mono)]
    else []
  }

  /**
   * `_render`: clear, then, when the application renders, either both eyes side by side followed
   * by frame submission, or one full-canvas mono render.
   */
  function Render(l: Loop): (r: seq<FrameEvent>)
    ensures forall i :: 0 <= i < |r| ==> Phase(r[i]) == 2
    ensures var clear := AsEvents(ClearCalls(l.settings));
            && |r| >= |clear| && r[..|clear|] == clear
            && (l.hasRender && l.display.Some? ==>
                  r[|clear|..] == [Draw(LeftViewport(l.layerWidth, l.layerHeight)), RenderHook(Left),
                                   Draw(RightViewport(l.layerWidth, l.layerHeight)), RenderHook(Right), SubmitFrame])
            && (l.hasRender && l.display.None? && l.settings.fallbackToMono ==>
                  r[|clear|..] == [Draw(Viewport(0.0, 0.0, l.layerWidth as real, l.layerHeight as real)), RenderHook(Mono)])
            && (!l.hasRender || (l.display.None? && !l.settings.fallbackToMono) ==> r == clear)
  {
    var clear := AsEvents(ClearCalls(l.settings));
    var eyes := EyeEvents(l);
    RenderPhaseJoin(clear, eyes);
    clear + eyes
  }

  /** Joining two render-phase traces gives a render-phase trace that splits back into the two. */
  lemma RenderPhaseJoin(a: seq<FrameEvent>, b: seq<FrameEvent>)
    requires forall i :: 0 <= i < |a| ==> Phase(a[i]) == 2
    requires forall i :: 0 <= i < |b| ==> Phase(b[i]) == 2
    ensures forall i :: 0 <= i < |a + b| ==> Phase((a + b)[i]) == 2
    ensures (a + b)[..|a|] == a && (a + b)[|a|..] == b
  {
    assert (a + b)[..|a|] == a;
    assert (a + b)[|a|..] == b;
    forall i | 0 <= i < |a + b| ensures Phase((a + b)[i]) == 2 {
      if i < |a| { assert (a + b)[i] == a[i]; } else { assert (a + b)[i] == b[i - |a|]; }
    }
  }

  lemma {:induction false} ConcatPhaseOrdered(a: seq<FrameEvent>, b: seq<FrameEvent>, c: seq<FrameEvent>)
    requires forall i :: 0 <= i < |a| ==> Phase(a[i]) == 0
    requires forall i :: 0 <= i < |b| ==> Phase(b[i]) == 1
    requires forall i :: 0 <= i < |c| ==> Phase(c[i]) == 2
    ensures PhaseOrdered(a + b + c)
  {
    var t := a + b + c;
    forall i | 0 <= i < |t|
      ensures Phase(t[i]) == if i < |a| then 0 else if i < |a| + |b| then 1 else 2
    {
      if i < |a| {
        assert t[i] == a[i];
      } else if i < |a| + |b| {
        assert t[i] == b[i - |a|];
      } else {
        assert t[i] == c[i - |a| - |b|];
      }
    }
  }

  /**
   * `_onAnimationFrame`: pre-update, update, render. The next frame is re-armed before anything
   * else, and every event sits in its phase's order.
   */
  function Frame(l: Loop, clientWidth: nat, clientHeight: nat): (r: (Loop, seq<FrameEvent>))
    ensures |r.1| >= 1 && r.1[0] == ReArm(l.display.Some?)
    ensures PhaseOrdered(r.1)
    ensures r.0 == Update(l, clientWidth, clientHeight).0
  {
    var pre := PreUpdate(l);
    var u := Update(l, clientWidth, clientHeight);
    var ren := Render(u.0);
    ConcatPhaseOrdered(pre, u.1, ren);
    (u.0, pre + u.1 + ren)
  }

  /** The eyes a trace renders, in order. */
  function RenderedEyes(t: seq<FrameEvent>): seq<Eye>
    decreases |t|
  {
    if t == [] then []
    else (if t[0].RenderHook? then [t[0].eye] else []) + RenderedEyes(t[1..])
  }

  /** Whether a trace submits a frame to the display. */
  predicate Submits(t: seq<FrameEvent>) {
    SubmitFrame in t
  }

  lemma {:induction false} RenderedEyesConcat(a: seq<FrameEvent>, b: seq<FrameEvent>)
    ensures RenderedEyes(a + b) == RenderedEyes(a) + RenderedEyes(b)
    decreases |a|
  {
    if a != [] {
      assert (a + b)[0] == a[0];
      assert (a + b)[1..] == a[1..] + b;
      RenderedEyesConcat(a[1..], b);
    } else {
      assert a + b == b;
    }
  }

  lemma {:induction false} NoRenderHookNoEyes(t: seq<FrameEvent>)
    requires forall i :: 0 <= i < |t| ==> !t[i].RenderHook?
    ensures RenderedEyes(t) == []
    decreases |t|
  {
    if t != [] {
      NoRenderHookNoEyes(t[1..]);
    }
  }

  /** What the render phase on its own draws and submits. */
  lemma RenderEyes(l: Loop)
    ensures RenderedEyes(Render(l)) == if !l.hasRender then []
                                       else if l.display.Some? then [Left, Right]
                                       else if l.settings.fallbackToMono then [Mono]
                                       else []
    ensures Submits(Render(l)) <==> l.hasRender && l.display.Some?
  {
    var ren := Render(l);
    var clear := AsEvents(ClearCalls(l.settings));
    var eyes := ren[|clear|..];
    assert ren == clear + eyes;
    RenderedEyesConcat(clear, eyes);
    NoRenderHookNoEyes(clear);
    assert SubmitFrame !in clear;
    if l.hasRender && l.display.Some? {
      StereoTail(LeftViewport(l.layerWidth, l.layerHeight), RightViewport(l.layerWidth, l.layerHeight));
    } else if l.hasRender && l.settings.fallbackToMono {
      MonoTail(Viewport(0.0, 0.0, l.layerWidth as real, l.layerHeight as real));
    } else {
      assert eyes == [];
    }
  }

  /** The stereo tail of the render phase renders left then right and submits. */
  lemma StereoTail(left: GlCall, right: GlCall)
    ensures var t := [Draw(left), RenderHook(Left), Draw(right), RenderHook(Right), SubmitFrame];
            RenderedEyes(t) == [Left, Right] && SubmitFrame in t
  {
    var t := [Draw(left), RenderHook(Left), Draw(right), RenderHook(Right), SubmitFrame];
    assert t[4..][1..] == [];
    assert t[3..][1..] == t[4..];
    assert t[2..][1..] == t[3..];
    assert t[1..][1..] == t[2..];
    assert RenderedEyes(t[4..]) == [];
    assert RenderedEyes(t[3..]) == [Right];
    assert RenderedEyes(t[2..]) == [Right];
    assert RenderedEyes(t[1..]) == [Left, Right];
  }

  /** The mono tail of the render phase renders once and does not submit. */
  lemma MonoTail(viewport: GlCall)
    ensures var t := [Draw(viewport), RenderHook(Mono)];
            RenderedEyes(t) == [Mono] && SubmitFrame !in t
  {
    var t := [Draw(viewport), RenderHook(Mono)];
    assert t[1..][1..] == [];
    assert RenderedEyes(t[1..]) == [Mono];
  }

  /**
   * One frame renders left then right and submits when a display is in use, renders once in mono
   * when falling back, and renders and submits nothing when the application has no render hook.
   */
  lemma FrameRenders(l: Loop, clientWidth: nat, clientHeight: nat)
    ensures var t := Frame(l, clientWidth, clientHeight).1;
            && (RenderedEyes(t) == if !l.hasRender then []
                                   else if l.display.Some? then [Left, Right]
                                   else if l.settings.fallbackToMono then [Mono]
                                   else [])
            && (Submits(t) <==> l.hasRender && l.display.Some?)
  {
    var pre := PreUpdate(l);
    var u := Update(l, clientWidth, clientHeight);
    var ren := Render(u.0);
    var head := pre + u.1;
    assert Frame(l, clientWidth, clientHeight).1 == head + ren;
    HeadHasNoRender(pre, u.1);
    NoRenderHookNoEyes(head);
    RenderedEyesConcat(head, ren);
    RenderEyes(u.0);
    assert SubmitFrame in head + ren <==> SubmitFrame in ren;
  }

  /** The pre-update and update phases neither render nor submit. */
  lemma HeadHasNoRender(pre: seq<FrameEvent>, upd: seq<FrameEvent>)
    requires forall i :: 0 <= i < |pre| ==> Phase(pre[i]) == 0
    requires forall i :: 0 <= i < |upd| ==> Phase(upd[i]) == 1
    ensures forall i :: 0 <= i < |pre + upd| ==> Phase((pre + upd)[i]) < 2
    ensures SubmitFrame !in pre + upd
  {
    var head := pre + upd;
    forall i | 0 <= i < |head| ensures Phase(head[i]) < 2 {
      if i < |pre| { assert head[i] == pre[i]; } else { assert head[i] == upd[i - |pre|]; }
    }
  }

  /** The two stereo viewports split the layer exactly: they meet in the middle and end at its edge. */
  lemma StereoViewportsTile(w: nat, h: nat)
    ensures var a := LeftViewport(w, h);
            var b := RightViewport(w, h);
            && a.x == 0.0 && a.x + a.width == b.x && b.x + b.width == w as real
            && a.height == h as real && b.height == h as real && a.y == 0.0 && b.y == 0.0
  {
  }
}
