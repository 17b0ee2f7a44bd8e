/** `DropDownButton` (src/components/Controls/DropDownButton/DropDownButton.tsx): a button that
    opens a flyout area holding its first `DropDownButton.Flyout` child. The open flag is state
    changed by the button, the overlay, the document `mouseup` listener and the imperative handle,
    so it is a class here. Containment of an event target is a boolean input. */
module DropDownButton {
  import opened Wrappers
  import opened ReactNodes
  import opened Effects

  /** A child of the button: a `DropDownButton.Flyout` element or anything else. */
  datatype Child = FlyoutChild(key: nat) | OtherChild(node: Node)

  /** The `find` over the children: the index of the first flyout child, if there is one. */
  function FindFlyout(children: seq<Child>): (r: Option<nat>)
    ensures r.Some? ==> r.value < |children| && children[r.value].FlyoutChild?
    ensures r.Some? ==> forall j :: 0 <= j < r.value ==> !children[j].FlyoutChild?
    ensures r.None? <==> forall j :: 0 <= j < |children| ==> !children[j].FlyoutChild?
  {
    if children == [] then None
    else if children[0].FlyoutChild? then Some(0)
    else
      match FindFlyout(children[1..])
      case None => None
      case Some(i) => Some(i + 1)
  }

  /** The document `mouseup` test: it closes only when the flyout area is mounted and the
      target is outside it, and the button is mounted and the target is not inside the button's
      element (when that element is known). `elementKnown` stands for `buttonRef.current.Element`
      being set; as written it never is (see `Button.DocumentMouseUp`). */
  function MouseUpCloses(flyoutMounted: bool, inFlyout: bool, buttonMounted: bool, elementKnown: bool, inButton: bool): (b: bool)
    ensures b ==> flyoutMounted && buttonMounted && !inFlyout
    ensures elementKnown && inButton ==> !b
  {
    flyoutMounted && !inFlyout && buttonMounted && !(elementKnown && inButton)
  }

  /** With the button's element known, a target inside the flyout or inside the button never
      closes, and nothing closes while the flyout area is not mounted. */
  lemma MouseUpOutsideBoth(flyoutMounted: bool, inFlyout: bool, buttonMounted: bool, elementKnown: bool, inButton: bool)
    ensures inFlyout || (elementKnown && inButton) || !flyoutMounted ==>
              !MouseUpCloses(flyoutMounted, inFlyout, buttonMounted, elementKnown, inButton)
    ensures flyoutMounted && buttonMounted && !inFlyout && !inButton ==>
              MouseUpCloses(flyoutMounted, inFlyout, buttonMounted, elementKnown, inButton)
  {
  }

  /** As written, the element is never known, so a `mouseup` inside the button of a mounted
      flyout closes it. */
  lemma MouseUpInButtonAsWritten(inButton: bool)
    ensures MouseUpCloses(true, false, true, false, inButton)
    ensures !MouseUpCloses(true, false, true, true, true)
  {
  }

  class Button {
    var isFlyoutOpen: bool

    /** The flyout starts closed. */
    constructor ()
      ensures !isFlyoutOpen
    {
      isFlyoutOpen := false;
    }

    /** `toggleFlyout`. */
    method ToggleFlyout()
      modifies this
      ensures isFlyoutOpen == !old(isFlyoutOpen)
    {
      isFlyoutOpen := !isFlyoutOpen;
    }

    /** The handle's `openFlyout`. */
    method OpenFlyout()
      modifies this
      ensures isFlyoutOpen
    {
      isFlyoutOpen := true;
    }

    /** The handle's `closeFlyout`, also the `closeFlyout` of the `MenuFlyoutContext` the button
        provides to its flyout. */
    method CloseFlyout()
      modifies this
      ensures !isFlyoutOpen
    {
      isFlyoutOpen := false;
    }

    /** The button's `Click`: the caller's `Click` first, when given, then the toggle.
        `hasCallerClick` is whether the first render's props held a `Click`: `ButtonBase` keeps
        the closure it was constructed with, so later renders' props are never consulted. */
    method Click(hasCallerClick: bool) returns (trace: seq<Effect>)
      modifies this
      ensures trace == if hasCallerClick then [InvokeClick] else []
      ensures isFlyoutOpen == !old(isFlyoutOpen)
    {
      trace := [];
      if hasCallerClick {
        trace := trace + [InvokeClick];
      }
      ToggleFlyout();
    }

    /** A click on the overlay, which exists only while the flyout is open: it prevents the
        default, stops propagation and toggles the flyout closed. */
    method OverlayClick() returns (trace: seq<Effect>)
      modifies this
      ensures old(isFlyoutOpen) ==> trace == [PreventDefault, StopPropagation] && !isFlyoutOpen
      ensures !old(isFlyoutOpen) ==> trace == [] && !isFlyoutOpen
    {
      trace := [];
      if isFlyoutOpen {
        trace := [PreventDefault, StopPropagation];
        ToggleFlyout();
      }
    }

    /** A document `mouseup` as written. The listener is attached only while the flyout is open;
        the flyout area (and with it `flyoutRef`) is mounted only while open and when a flyout
        child exists. `buttonRef` holds the `Button` class instance, which has no `Element`
        member, so the button's element is never known and a target in the button is not
        spared. */
    method DocumentMouseUp(children: seq<Child>, inFlyout: bool, buttonMounted: bool, inButton: bool)
      modifies this
      ensures isFlyoutOpen == (old(isFlyoutOpen) &&
                !MouseUpCloses(FindFlyout(children).Some?, inFlyout, buttonMounted, false, inButton))
    {
      if isFlyoutOpen {
        var flyoutMounted := FindFlyout(children).Some?;
        if MouseUpCloses(flyoutMounted, inFlyout, buttonMounted, false, inButton) {
          isFlyoutOpen := false;
        }
      }
    }

    /** The evidently intended `mouseup`: the button's own element is known, so a target in the
        button is left to the button's click. */
    method DocumentMouseUpCorrected(children: seq<Child>, inFlyout: bool, buttonMounted: bool, inButton: bool)
      modifies this
      ensures isFlyoutOpen == (old(isFlyoutOpen) &&
                !MouseUpCloses(FindFlyout(children).Some?, inFlyout, buttonMounted, true, inButton))
    {
      if isFlyoutOpen {
        var flyoutMounted := FindFlyout(children).Some?;
        if MouseUpCloses(flyoutMounted, inFlyout, buttonMounted, true, inButton) {
          isFlyoutOpen := false;
        }
      }
    }
  }

  /** Pressing and releasing the button of an open flyout, as written: the document `mouseup`
      closes the flyout when a flyout child is mounted, and the button's click then toggles it
      open again. So the button closes the flyout only when there is no flyout child. */
  method ButtonClickOnOpenFlyout(children: seq<Child>) returns (openAfter: bool)
    ensures openAfter <==> FindFlyout(children).Some?
  {
    var b := new Button();
    b.OpenFlyout();
    b.DocumentMouseUp(children, false, true, true);
    var _ := b.Click(false);
    openAfter := b.isFlyoutOpen;
  }

  /** With the corrected test the same press and release on the button closes the flyout,
      whatever the children. */
  method ButtonClickOnOpenFlyoutCorrected(children: seq<Child>) returns (openAfter: bool)
    ensures !openAfter
  {
    var b := new Button();
    b.OpenFlyout();
    b.DocumentMouseUpCorrected(children, false, true, true);
    var _ := b.Click(false);
    openAfter := b.isFlyoutOpen;
  }

  /** Without a flyout child the flyout area is never mounted, so no `mouseup` closes it. */
  method MouseUpWithoutFlyoutChild(children: seq<Child>, buttonMounted: bool, inButton: bool)
    returns (openAfter: bool)
    requires forall j :: 0 <= j < |children| ==> children[j].OtherChild?
    ensures openAfter
  {
    var b := new Button();
    b.OpenFlyout();
    b.DocumentMouseUp(children, false, buttonMounted, inButton);
    openAfter := b.isFlyoutOpen;
  }

  /** What the component's render produces that the model inspects: the `aria-expanded` prop it
      passes to the `Button` class (whose own render never outputs it), the overlay and the flyout
      area. */
  datatype Rendered = Rendered(ariaExpandedProp: bool, overlay: bool, flyout: Option<Child>)

  /** The `aria-expanded` prop passed on mirrors the open flag; the overlay shows only while open;
      the flyout area shows only while open and when a flyout child exists, and holds the first
      one. */
  function Render(isFlyoutOpen: bool, children: seq<Child>): (r: Rendered)
    ensures r.ariaExpandedProp == isFlyoutOpen && r.overlay == isFlyoutOpen
    ensures r.flyout.Some? <==> isFlyoutOpen && exists j :: 0 <= j < |children| && children[j].FlyoutChild?
    ensures r.flyout.Some? ==> r.flyout.value.FlyoutChild? && r.flyout.value in children
    ensures r.flyout.Some? ==> FindFlyout(children).Some? && r.flyout.value == children[FindFlyout(children).value]
  {
    var found := FindFlyout(children);
    Rendered(isFlyoutOpen, isFlyoutOpen, if isFlyoutOpen && found.Some? then Some(children[found.value]) else None)
  }
}
