/** `MenuFlyoutItem` of the Dialogs menu flyout (src/components/Dialogs/MenuFlyout/MenuFlyoutItem.tsx):
    click and key handlers that run the item's `Click` and then, when enabled to, the enclosing
    flyout's `closeFlyout`. Each handler is modelled as the trace of calls it makes. */
module DialogsMenuFlyoutItem {
  import opened Wrappers
  import opened ReactNodes
  import opened Effects

  /** The props the handlers read; absent props are `None`. */
  datatype ItemProps = ItemProps(text: Option<string>, hasClick: bool, disabled: Option<bool>,
                                 autoClose: Option<bool>, children: Node)

  /** `Disabled = false`. */
  predicate IsDisabled(p: ItemProps) {
    p.disabled.GetOr(false)
  }

  /** `AutoClose = true`. */
  predicate AutoCloses(p: ItemProps) {
    p.autoClose.GetOr(true)
  }

  /** The calls an activation makes, in order. A disabled item makes none; otherwise `Click`
      runs once when given, and `closeFlyout` runs once afterwards exactly when AutoClose is on
      and the context supplies it. */
  function Activation(p: ItemProps, hasCloseFlyout: bool): (trace: seq<Effect>)
    ensures IsDisabled(p) ==> trace == []
    ensures !IsDisabled(p) ==> Count(trace, InvokeClick) == (if p.hasClick then 1 else 0)
    ensures !IsDisabled(p) ==> Count(trace, InvokeCloseFlyout) == (if AutoCloses(p) && hasCloseFlyout then 1 else 0)
    ensures Before(trace, InvokeClick, InvokeCloseFlyout)
    ensures forall i :: 0 <= i < |trace| ==> trace[i] in {InvokeClick, InvokeCloseFlyout}
  {
    if IsDisabled(p) then []
    else (if p.hasClick then [InvokeClick] else []) + (if AutoCloses(p) && hasCloseFlyout then [InvokeCloseFlyout] else [])
  }

  /** `handleClick`. */
  method HandleClick(p: ItemProps, hasCloseFlyout: bool) returns (trace: seq<Effect>)
    ensures trace == Activation(p, hasCloseFlyout)
  {
    trace := [];
    if IsDisabled(p) {
      return;
    }
    if p.hasClick {
      trace := trace + [InvokeClick];
    }
    if AutoCloses(p) && hasCloseFlyout {
      trace := trace + [InvokeCloseFlyout];
    }
  }

  predicate IsActivationKey(key: string) {
    key == "Enter" || key == " "
  }

  /** `onKeyDown`: on an enabled item, Enter and Space prevent the default and then act as a
      click; every other key, and every key on a disabled item, does nothing. */
  method HandleKeyDown(p: ItemProps, hasCloseFlyout: bool, key: string) returns (trace: seq<Effect>)
    ensures !IsDisabled(p) && IsActivationKey(key) ==> trace == [PreventDefault] + Activation(p, hasCloseFlyout)
    ensures IsDisabled(p) || !IsActivationKey(key) ==> trace == []
  {
    trace := [];
    if IsDisabled(p) {
      return;
    }
    if key == "Enter" || key == " " {
      trace := trace + [PreventDefault];
      if p.hasClick {
        trace := trace + [InvokeClick];
      }
      if AutoCloses(p) && hasCloseFlyout {
        trace := trace + [InvokeCloseFlyout];
      }
    }
  }

  /** The item element's class and tab index, and what it shows. */
  datatype Rendered = Rendered(className: string, tabIndex: int, content: Node)

  function Render(p: ItemProps): (r: Rendered)
    ensures IsDisabled(p) <==> r.tabIndex == -1
    ensures !IsDisabled(p) <==> r.tabIndex == 0
    ensures IsDisabled(p) <==> r.className == "menu-flyout-item disabled"
    ensures !IsDisabled(p) <==> r.className == "menu-flyout-item"
    ensures Truthy(p.children) ==> r.content == p.children
    ensures !Truthy(p.children) ==> r.content == (if p.text.Some? then Text(p.text.value) else NoNode)
  {
    var disabled := IsDisabled(p);
    Rendered("menu-flyout-item" + (if disabled then " disabled" else ""),
             if disabled then -1 else 0,
             Or(p.children, if p.text.Some? then Text(p.text.value) else NoNode))
  }
}

/** `MenuFlyoutItem` of the Controls menu flyout (src/components/Controls/MenuFlyout/MenuFlyoutItem.tsx):
    an item that runs its `Action`. */
module ControlsMenuFlyoutItem {
  import opened Wrappers
  import opened ReactNodes
  import opened Effects

  /** `handleClick`: `Action` once when given, nothing otherwise. */
  method HandleClick(hasAction: bool) returns (trace: seq<Effect>)
    ensures Count(trace, InvokeAction) == (if hasAction then 1 else 0)
    ensures |trace| == Count(trace, InvokeAction)
  {
    trace := [];
    if hasAction {
      trace := [InvokeAction];
    }
  }

  /** `onKeyDown`: Enter and Space run the click handler and only then prevent the default;
      other keys do nothing. */
  method HandleKeyDown(hasAction: bool, key: string) returns (trace: seq<Effect>)
    ensures key == "Enter" || key == " " ==>
              Count(trace, InvokeAction) == (if hasAction then 1 else 0) && Count(trace, PreventDefault) == 1
              && Before(trace, InvokeAction, PreventDefault) && |trace| == Count(trace, InvokeAction) + 1
    ensures key != "Enter" && key != " " ==> trace == []
  {
    trace := [];
    if key == "Enter" || key == " " {
      var clickTrace := HandleClick(hasAction);
      trace := clickTrace + [PreventDefault];
      assert clickTrace == [] || clickTrace == [InvokeAction];
    }
  }

  /** `aria-label` is the item's text only when it has children (the children then hide the
      text from view). */
  function AriaLabel(text: Option<string>, children: Node): (aria: Option<string>)
    ensures aria.Some? ==> Truthy(children) && text == aria
    ensures Truthy(children) ==> aria == text
  {
    if Truthy(children) then text else None
  }

  /** The item shows its children, falling back to its text. */
  function Content(text: Option<string>, children: Node): (n: Node)
    ensures Truthy(children) ==> n == children
    ensures !Truthy(children) && text.Some? ==> n == Text(text.value)
    ensures !Truthy(children) && text.None? ==> n == NoNode
  {
    Or(children, if text.Some? then Text(text.value) else NoNode)
  }
}
