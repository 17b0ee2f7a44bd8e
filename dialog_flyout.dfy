/** The flyout of src/components/Dialogs/Flyout/Flyout.tsx: its placement table and the
    `isOpen` / `shouldRender` pair driven by Show, Hide, Escape, outside mousedown, the overlay
    and the 300 ms close timer. */
module DialogFlyout {
  import opened Wrappers
  import opened Placements
  import opened Dom

  // ---------------------------------------------------------------------------------------------
  // Placement table

  /** Where `getFlyoutPosition` puts the flyout: no coordinates (no target), a point, or the
      whole viewport (`0px`, `0px`, `100vw` x `100vh`). */
  datatype FlyoutPosition = Unpositioned | At(top: real, left: real) | FullViewport

  /** On which side of the target a placement puts the flyout. */
  datatype Side = Above | Below | LeftOf | RightOf | Cover

  /** Which edges line up along the other axis: the left/top edges, or the right/bottom edges. */
  datatype Alignment = StartEdges | EndEdges

  function SideOf(p: Placement): Side {
    match p
    case Top | TopEdgeAlignedLeft | TopEdgeAlignedRight => Above
    case Bottom | BottomEdgeAlignedLeft | BottomEdgeAlignedRight | Auto => Below
    case Left | LeftEdgeAlignedTop | LeftEdgeAlignedBottom => LeftOf
    case Right | RightEdgeAlignedTop | RightEdgeAlignedBottom => RightOf
    case Full => Cover
  }

  function AlignmentOf(p: Placement): Alignment {
    match p
    case TopEdgeAlignedRight | BottomEdgeAlignedRight | LeftEdgeAlignedBottom | RightEdgeAlignedBottom => EndEdges
    case _ => StartEdges
  }

  /** The placements whose arithmetic reads the flyout's own `offsetWidth` / `offsetHeight`. */
  predicate NeedsFlyoutSize(p: Placement) {
    SideOf(p) == Above || SideOf(p) == LeftOf || AlignmentOf(p) == EndEdges
  }

  /** The placement table of `getFlyoutPosition`, for the inputs on which it does not throw: the
      flyout's size is known whenever the placement reads it. With no target there is no
      position at all; Full ignores the target; every other placement puts the flyout against
      the named side of the target with the named edges lined up. */
  function PlacementTable(placement: Placement, target: Option<Rect>, flyout: Option<Size>): (r: FlyoutPosition)
    requires target.Some? && NeedsFlyoutSize(placement) ==> flyout.Some?
    ensures r == Unpositioned <==> target.None?
    ensures r == FullViewport <==> target.Some? && placement == Full
    ensures r.At? ==> target.Some?
    ensures r.At? && SideOf(placement) == Above ==> flyout.Some? && r.top + flyout.value.height == target.value.top
    ensures r.At? && SideOf(placement) == Below ==> r.top == target.value.bottom
    ensures r.At? && SideOf(placement) == LeftOf ==> flyout.Some? && r.left + flyout.value.width == target.value.left
    ensures r.At? && SideOf(placement) == RightOf ==> r.left == target.value.right
    ensures r.At? && SideOf(placement) in {Above, Below} && AlignmentOf(placement) == StartEdges ==> r.left == target.value.left
    ensures r.At? && SideOf(placement) in {Above, Below} && AlignmentOf(placement) == EndEdges ==>
              flyout.Some? && r.left + flyout.value.width == target.value.right
    ensures r.At? && SideOf(placement) in {LeftOf, RightOf} && AlignmentOf(placement) == StartEdges ==> r.top == target.value.top
    ensures r.At? && SideOf(placement) in {LeftOf, RightOf} && AlignmentOf(placement) == EndEdges ==>
              flyout.Some? && r.top + flyout.value.height == target.value.bottom
  {
    if target.None? then Unpositioned
    else
      var t := target.value;
      match placement
      case Top => At(t.top - flyout.value.height, t.left)
      case Bottom => At(t.bottom, t.left)
      case Left => At(t.top, t.left - flyout.value.width)
      case Right => At(t.top, t.right)
      case Full => FullViewport
      case TopEdgeAlignedLeft => At(t.top - flyout.value.height, t.left)
      case TopEdgeAlignedRight => At(t.top - flyout.value.height, t.right - flyout.value.width)
      case BottomEdgeAlignedLeft => At(t.bottom, t.left)
      case BottomEdgeAlignedRight => At(t.bottom, t.right - flyout.value.width)
      case LeftEdgeAlignedTop => At(t.top, t.left - flyout.value.width)
      case LeftEdgeAlignedBottom => At(t.bottom - flyout.value.height, t.left - flyout.value.width)
      case RightEdgeAlignedTop => At(t.top, t.right)
      case RightEdgeAlignedBottom => At(t.bottom - flyout.value.height, t.right)
      case Auto => At(t.bottom, t.left)
  }

  /** What `getFlyoutPosition` yields: a position, or the TypeError of reading `offsetHeight` /
      `offsetWidth` through the non-null assertion `flyoutRef.current!` while the flyout element
      is not mounted (`flyout` is `None`). */
  datatype Positioning = NullRefError | Positioned(position: FlyoutPosition)

  /** `getFlyoutPosition` as written: it throws exactly when a target is mounted, the placement
      reads the flyout's size and the flyout element is not mounted. */
  function GetFlyoutPosition(placement: Placement, target: Option<Rect>, flyout: Option<Size>): (r: Positioning)
    ensures r.NullRefError? <==> target.Some? && NeedsFlyoutSize(placement) && flyout.None?
    ensures r.Positioned? ==> r.position == PlacementTable(placement, target, flyout)
  {
    if target.Some? && NeedsFlyoutSize(placement) && flyout.None? then NullRefError
    else Positioned(PlacementTable(placement, target, flyout))
  }

  /** `getFlyoutPosition` as evidently intended, guarding the flyout element the way the Controls
      flyout's `calculatePosition` does: while the element is not mounted, a placement that needs
      its size yields no coordinates. It never throws and agrees with the written table wherever
      that does not throw. */
  function GetFlyoutPositionCorrected(placement: Placement, target: Option<Rect>, flyout: Option<Size>): (r: FlyoutPosition)
    ensures r == Unpositioned <==> target.None? || (NeedsFlyoutSize(placement) && flyout.None?)
    ensures GetFlyoutPosition(placement, target, flyout).Positioned? ==>
              r == GetFlyoutPosition(placement, target, flyout).position
  {
    if target.Some? && NeedsFlyoutSize(placement) && flyout.None? then Unpositioned
    else PlacementTable(placement, target, flyout)
  }

  /** Auto, the default placement, is Bottom: below the target, left edges lined up. */
  lemma AutoIsBottom(target: Option<Rect>, flyout: Option<Size>)
    ensures GetFlyoutPosition(Auto, target, flyout) == GetFlyoutPosition(Bottom, target, flyout)
    ensures GetFlyoutPosition(Auto, target, flyout) == GetFlyoutPosition(BottomEdgeAlignedLeft, target, flyout)
    ensures GetFlyoutPosition(Auto, target, flyout).Positioned?
  {
  }

  /** The same flyout put above and below a 80 x 20 target at (100, 50). */
  lemma TopAndBottomExample()
    ensures GetFlyoutPosition(Bottom, Some(Rect(100.0, 50.0, 130.0, 120.0)), Some(Size(120.0, 40.0))) == Positioned(At(120.0, 50.0))
    ensures GetFlyoutPosition(Top, Some(Rect(100.0, 50.0, 130.0, 120.0)), Some(Size(120.0, 40.0))) == Positioned(At(60.0, 50.0))
  {
  }

  // ---------------------------------------------------------------------------------------------
  // Open / close state

  /** The component's props that the state machine reads; `animations` can change between
      renders (`SetAnimations`). */
  datatype Config = Config(animations: bool, allowFocusOnInteraction: bool)

  /** `AreOpenCloseAnimationsEnabled` and `AllowFocusOnInteraction` default to true. */
  function DefaultConfig(animations: Option<bool>, allowFocus: Option<bool>): (c: Config)
    ensures animations.None? ==> c.animations
    ensures allowFocus.None? ==> c.allowFocusOnInteraction
    ensures animations.Some? ==> c.animations == animations.value
    ensures allowFocus.Some? ==> c.allowFocusOnInteraction == allowFocus.value
  {
    Config(animations.GetOr(true), allowFocus.GetOr(true))
  }

  /** The component's state: the two `useState` values, whether the 300 ms timer is pending,
      and whether the document `keydown` / `mousedown` listeners are registered. */
  datatype FlyoutState = FlyoutState(isOpen: bool, shouldRender: bool, closeTimerPending: bool, listening: bool)

  /** The close effect (deps `isOpen` and `AreOpenCloseAnimationsEnabled`) re-run: the previous
      run's cleanup clears a pending timer, then an open flyout renders at once, a closed one
      starts the 300 ms timer with animations and unmounts at once without. */
  function CloseEffect(s: FlyoutState, animations: bool): (r: FlyoutState)
    ensures r.isOpen == s.isOpen && r.listening == s.listening
    ensures s.isOpen ==> r.shouldRender && !r.closeTimerPending
    ensures !s.isOpen && animations ==> r.shouldRender == s.shouldRender && r.closeTimerPending
    ensures !s.isOpen && !animations ==> !r.shouldRender && !r.closeTimerPending
  {
    var cleaned := s.(closeTimerPending := false);
    if s.isOpen then cleaned.(shouldRender := true)
    else if animations then cleaned.(closeTimerPending := true)
    else cleaned.(shouldRender := false)
  }

  /** The effects that depend on `isOpen` after it changed: the close effect, and the listener
      effect, whose cleanup removes the listeners and whose new run adds them while open. */
  function AfterOpenChange(s: FlyoutState, animations: bool): (r: FlyoutState)
    ensures r.isOpen == s.isOpen
    ensures r.listening == s.isOpen
    ensures s.isOpen ==> r.shouldRender && !r.closeTimerPending
    ensures !s.isOpen && animations ==> r.shouldRender == s.shouldRender && r.closeTimerPending
    ensures !s.isOpen && !animations ==> !r.shouldRender && !r.closeTimerPending
  {
    CloseEffect(s, animations).(listening := s.isOpen)
  }

  /** The state after the first render and its effects; `IsOpen` defaults to false. */
  function Mount(c: Config, isOpen: Option<bool>): (s: FlyoutState)
    ensures Valid(c, s)
    ensures s.isOpen == s.shouldRender == (isOpen == Some(true))
  {
    var open := isOpen.GetOr(false);
    AfterOpenChange(FlyoutState(open, open, false, false), c.animations)
  }

  /** The `Placement` prop defaults to Auto. */
  function PlacementProp(p: Option<Placement>): (r: Placement)
    ensures p.None? ==> r == Auto
    ensures p.Some? ==> r == p.value
  {
    p.GetOr(Auto)
  }

  /** `setIsOpen(v)`: React keeps the state and skips the effects when the value is unchanged. */
  function SetIsOpen(c: Config, s: FlyoutState, v: bool): (r: FlyoutState)
    ensures r.isOpen == v
    ensures v == s.isOpen ==> r == s
    ensures v != s.isOpen ==> r.listening == v && (v ==> r.shouldRender && !r.closeTimerPending)
  {
    if v == s.isOpen then s else AfterOpenChange(s.(isOpen := v), c.animations)
  }

  /** What can happen to a flyout. */
  datatype Event =
    | Show                                  // the imperative handle's Show
    | Hide                                  // the imperative handle's Hide
    | KeyDown(key: string)                  // a document keydown
    | DocumentMouseDown(insideFlyout: bool) // a document mousedown; whether its target is inside the flyout element
    | OverlayClick                          // a click on the transparent overlay
    | CloseTimerFires                       // the 300 ms timer elapses

  /** One event. Only `Show` opens the flyout; the timer changes nothing but rendering. */
  function Step(c: Config, s: FlyoutState, e: Event): (r: FlyoutState)
    ensures e.Show? ==> r.isOpen
    ensures e.Hide? ==> !r.isOpen
    ensures !e.Show? && r.isOpen ==> s.isOpen
    ensures e.CloseTimerFires? ==> r.isOpen == s.isOpen && r.listening == s.listening && !r.closeTimerPending
  {
    match e
    case Show => SetIsOpen(c, s, true)
    case Hide => SetIsOpen(c, s, false)
    case KeyDown(key) => if s.listening && key == "Escape" then SetIsOpen(c, s, false) else s
    case DocumentMouseDown(inside) =>
      // the listener exists only while listening; `flyoutRef.current` is set only while rendered
      if s.listening && s.shouldRender && !inside then SetIsOpen(c, s, false) else s
    case OverlayClick =>
      // the overlay exists only while rendered with AllowFocusOnInteraction
      if s.shouldRender && c.allowFocusOnInteraction then SetIsOpen(c, s, false) else s
    case CloseTimerFires =>
      if s.closeTimerPending then s.(shouldRender := false, closeTimerPending := false) else s
  }

  /** A sequence of events, in order. A closed flyout stays closed unless `Show` comes. */
  function Run(c: Config, s: FlyoutState, events: seq<Event>): (r: FlyoutState)
    ensures !s.isOpen && Show !in events ==> !r.isOpen
    decreases |events|
  {
    if events == [] then s else Run(c, Step(c, s, events[0]), events[1..])
  }

  /** The invariant of the state machine: an open flyout is rendered; the listeners exist
      exactly while open; a timer is pending only while closed with animations; without
      animations rendering follows `isOpen` exactly. */
  function Valid(c: Config, s: FlyoutState): (b: bool)
    ensures b && !s.shouldRender ==> !s.isOpen && !s.listening
  {
    && (s.isOpen ==> s.shouldRender)
    && s.listening == s.isOpen
    && (s.closeTimerPending ==> !s.isOpen && c.animations)
    && (!c.animations ==> s.shouldRender == s.isOpen)
  }

  lemma StepPreservesValid(c: Config, s: FlyoutState, e: Event)
    requires Valid(c, s)
    ensures Valid(c, Step(c, s, e))
  {
  }

  lemma {:induction false} RunPreservesValid(c: Config, s: FlyoutState, events: seq<Event>)
    requires Valid(c, s)
    ensures Valid(c, Run(c, s, events))
    decreases |events|
  {
    if events != [] {
      StepPreservesValid(c, s, events[0]);
      RunPreservesValid(c, Step(c, s, events[0]), events[1..]);
    }
  }

  /** The parent re-renders with `AreOpenCloseAnimationsEnabled` set to `enabled`. The prop is a
      dependency of the close effect only: when it changes, that effect's cleanup and new run
      happen and the listeners stay as they are; when it is unchanged nothing happens. */
  function SetAnimations(c: Config, s: FlyoutState, enabled: bool): (r: (Config, FlyoutState))
    ensures r.0 == c.(animations := enabled)
    ensures r.1.isOpen == s.isOpen && r.1.listening == s.listening
    ensures enabled == c.animations ==> r.1 == s
    ensures enabled != c.animations ==> r.1 == CloseEffect(s, enabled)
  {
    (c.(animations := enabled), if enabled == c.animations then s else CloseEffect(s, enabled))
  }

  lemma SetAnimationsPreservesValid(c: Config, s: FlyoutState, enabled: bool)
    requires Valid(c, s)
    ensures Valid(SetAnimations(c, s, enabled).0, SetAnimations(c, s, enabled).1)
  {
  }

  /** Turning animations off during the close animation clears the timer and unmounts at once;
      the timer can no longer fire. */
  lemma DisableDuringClose(c: Config, s: FlyoutState)
    requires Valid(c, s) && !s.isOpen && s.closeTimerPending
    ensures var r := SetAnimations(c, s, false);
      !r.1.shouldRender && !r.1.closeTimerPending && !r.1.isOpen
    ensures var r := SetAnimations(c, s, false); Step(r.0, r.1, CloseTimerFires) == r.1
  {
  }

  /** Turning animations on while closed starts a fresh 300 ms timer, which changes nothing when
      it fires since the flyout is already unmounted. */
  lemma EnableWhileClosed(c: Config, s: FlyoutState)
    requires Valid(c, s) && !s.isOpen && !c.animations
    ensures var r := SetAnimations(c, s, true); r.1.closeTimerPending && !r.1.shouldRender
    ensures var r := SetAnimations(c, s, true);
      Step(r.0, r.1, CloseTimerFires) == r.1.(closeTimerPending := false) == s
  {
  }

  /** What reaches the component: one of its own events, or a new value of the animations
      prop. */
  datatype Input = Fire(event: Event) | AnimationsProp(enabled: bool)

  function Drive(c: Config, s: FlyoutState, inputs: seq<Input>): (Config, FlyoutState)
    decreases |inputs|
  {
    if inputs == [] then (c, s)
    else
      var next := match inputs[0]
        case Fire(e) => (c, Step(c, s, e))
        case AnimationsProp(enabled) => SetAnimations(c, s, enabled);
      Drive(next.0, next.1, inputs[1..])
  }

  /** Any mix of events and changes of the animations prop keeps the invariant under the prop's
      current value; the other prop is never touched. */
  lemma {:induction false} DrivePreservesValid(c: Config, s: FlyoutState, inputs: seq<Input>)
    requires Valid(c, s)
    ensures Valid(Drive(c, s, inputs).0, Drive(c, s, inputs).1)
    ensures Drive(c, s, inputs).0.allowFocusOnInteraction == c.allowFocusOnInteraction
    decreases |inputs|
  {
    if inputs != [] {
      match inputs[0]
      case Fire(e) =>
        StepPreservesValid(c, s, e);
        DrivePreservesValid(c, Step(c, s, e), inputs[1..]);
      case AnimationsProp(enabled) =>
        SetAnimationsPreservesValid(c, s, enabled);
        var n := SetAnimations(c, s, enabled);
        DrivePreservesValid(n.0, n.1, inputs[1..]);
    }
  }

  /** Opening renders at once, registers the listeners and cancels a pending close timer. */
  lemma ShowOpensAndRenders(c: Config, s: FlyoutState)
    requires Valid(c, s)
    ensures var r := Step(c, s, Show); r.isOpen && r.shouldRender && r.listening && !r.closeTimerPending
  {
  }

  /** Closing with animations keeps the flyout rendered and starts the timer; the timer then
      unmounts it. */
  lemma HideWithAnimations(c: Config, s: FlyoutState)
    requires Valid(c, s) && s.isOpen && c.animations
    ensures var r := Step(c, s, Hide);
      !r.isOpen && r.shouldRender && r.closeTimerPending && !r.listening
    ensures var r := Run(c, s, [Hide, CloseTimerFires]);
      !r.isOpen && !r.shouldRender && !r.closeTimerPending && !r.listening
  {
    assert Run(c, s, [Hide, CloseTimerFires]) == Step(c, Step(c, s, Hide), CloseTimerFires);
  }

  /** Closing without animations unmounts at once. */
  lemma HideWithoutAnimations(c: Config, s: FlyoutState)
    requires Valid(c, s) && !c.animations
    ensures var r := Step(c, s, Hide); !r.isOpen && !r.shouldRender && !r.listening
  {
  }

  /** Re-opening while the close animation runs cancels the timer: the flyout never flashes
      closed, and the timer firing later changes nothing. */
  lemma ReopenDuringClose(c: Config, s: FlyoutState)
    requires Valid(c, s) && s.isOpen && c.animations
    ensures Run(c, s, [Hide, Show]) == s
    ensures Run(c, s, [Hide, Show, CloseTimerFires]) == s
  {
    assert Run(c, s, [Hide, Show]) == Step(c, Step(c, s, Hide), Show);
    assert Run(c, s, [Hide, Show, CloseTimerFires]) == Step(c, Step(c, Step(c, s, Hide), Show), CloseTimerFires);
  }

  /** Escape closes an open flyout; any other key, or any key while closed, changes nothing. */
  lemma EscapeCloses(c: Config, s: FlyoutState, key: string)
    requires Valid(c, s)
    ensures s.isOpen && key == "Escape" ==> Step(c, s, KeyDown(key)) == Step(c, s, Hide) && !Step(c, s, KeyDown(key)).isOpen
    ensures !s.isOpen || key != "Escape" ==> Step(c, s, KeyDown(key)) == s
  {
  }

  /** A mousedown outside an open flyout closes it; one inside, or one while closed, does not. */
  lemma OutsideMouseDownCloses(c: Config, s: FlyoutState, inside: bool)
    requires Valid(c, s)
    ensures s.isOpen && !inside ==> Step(c, s, DocumentMouseDown(inside)) == Step(c, s, Hide)
    ensures inside || !s.isOpen ==> Step(c, s, DocumentMouseDown(inside)) == s
  {
  }

  /** A closed flyout whose close has finished has no listeners and renders nothing, whatever
      happened before. */
  lemma {:induction false} ClosedLeavesNoListeners(c: Config, s: FlyoutState, events: seq<Event>)
    requires Valid(c, s)
    ensures var r := Run(c, s, events); !r.isOpen ==> !r.listening
    ensures var r := Run(c, s, events); !r.shouldRender ==> !r.isOpen && !r.listening
  {
    RunPreservesValid(c, s, events);
  }

  // ---------------------------------------------------------------------------------------------
  // Rendering

  /** The `className` of the flyout element. */
  function ClassName(c: Config, s: FlyoutState): (r: string)
    ensures |r| >= 6 && r[..6] == "flyout"
    ensures r == "flyout" <==> !c.animations
    ensures c.animations && s.isOpen ==> r[6..] == " flyout-open"
    ensures c.animations && !s.isOpen ==> r[6..] == " flyout-close"
  {
    "flyout" + (if c.animations then (if s.isOpen then " flyout-open" else " flyout-close") else "")
  }

  /** What one render of the component produces: the TypeError of `getFlyoutPosition`, nothing,
      or the overlay (with AllowFocusOnInteraction) and the flyout element with its class and
      position. */
  datatype Rendered = Rendered(overlay: bool, className: string, position: FlyoutPosition)
  datatype RenderResult = RenderError | NotRendered | Shown(rendered: Rendered)

  /** A render as written. The flyout style, and with it `getFlyoutPosition`, is computed before
      the `shouldRender` check, so a render throws whenever the position does, shown or not;
      `flyout` is the size of the flyout element when it is mounted. */
  function Render(c: Config, s: FlyoutState, placement: Placement, target: Option<Rect>, flyout: Option<Size>): (r: RenderResult)
    ensures r.RenderError? <==> GetFlyoutPosition(placement, target, flyout).NullRefError?
    ensures r.NotRendered? <==> !r.RenderError? && !s.shouldRender
    ensures r.Shown? ==> r.rendered.overlay == c.allowFocusOnInteraction
    ensures r.Shown? ==> r.rendered.className == ClassName(c, s)
    ensures r.Shown? ==> r.rendered.position == PlacementTable(placement, target, flyout)
  {
    match GetFlyoutPosition(placement, target, flyout)
    case NullRefError => RenderError
    case Positioned(p) =>
      if !s.shouldRender then NotRendered
      else Shown(Rendered(c.allowFocusOnInteraction, ClassName(c, s), p))
  }

  /** During the close animation the flyout stays on screen with the `flyout-close` class. */
  lemma ClosingRendersCloseClass(c: Config, s: FlyoutState, placement: Placement, target: Option<Rect>, flyout: Size)
    requires Valid(c, s) && s.isOpen && c.animations
    ensures var r := Render(c, Step(c, s, Hide), placement, target, Some(flyout));
      r.Shown? && r.rendered.className == "flyout flyout-close"
  {
  }

  /** Opening a flyout that is not on screen, with a mounted target and a placement that reads
      the flyout's size (Top, say), throws: the render that follows `Show` computes the position
      while the flyout element is still unmounted. */
  lemma ShowWithSizedPlacementThrows(c: Config, s: FlyoutState, placement: Placement, target: Rect)
    requires Valid(c, s) && !s.shouldRender && NeedsFlyoutSize(placement)
    ensures Step(c, s, Show).isOpen
    ensures Render(c, Step(c, s, Show), placement, Some(target), None).RenderError?
    ensures Render(c, Step(c, s, Show), Top, Some(target), None).RenderError?
  {
  }

  /** A render with the corrected position: it never throws. */
  function RenderCorrected(c: Config, s: FlyoutState, placement: Placement, target: Option<Rect>, flyout: Option<Size>): (r: Option<Rendered>)
    ensures r.Some? <==> s.shouldRender
    ensures r.Some? ==> r.value.overlay == c.allowFocusOnInteraction && r.value.className == ClassName(c, s)
    ensures r.Some? ==> r.value.position == GetFlyoutPositionCorrected(placement, target, flyout)
  {
    if !s.shouldRender then None
    else Some(Rendered(c.allowFocusOnInteraction, ClassName(c, s), GetFlyoutPositionCorrected(placement, target, flyout)))
  }

  /** With the correction, opening a flyout renders it at once whatever the placement, and every
      render that the written component completes is unchanged. */
  lemma ShowRendersCorrected(c: Config, s: FlyoutState, placement: Placement, target: Option<Rect>, flyout: Option<Size>)
    requires Valid(c, s)
    ensures RenderCorrected(c, Step(c, s, Show), placement, target, flyout).Some?
    ensures Render(c, s, placement, target, flyout).Shown? ==>
              RenderCorrected(c, s, placement, target, flyout) == Some(Render(c, s, placement, target, flyout).rendered)
    ensures Render(c, s, placement, target, flyout).NotRendered? ==> RenderCorrected(c, s, placement, target, flyout).None?
  {
  }
}
