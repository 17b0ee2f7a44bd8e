/** `FlyoutBase` (src/components/Controls/FlyoutBase.ts) with the content field it inherits from
    `ContentControl`, and the Controls flyout component (src/components/Controls/Flyout/Flyout.tsx)
    that keeps one FlyoutBase in sync with its `isOpen` prop and positions its element. */
module ControlsFlyout {
  import opened Wrappers
  import opened Placements
  import opened Dom
  import opened ReactNodes
  import DialogFlyout

  /** A `RefObject` to the target element: the caller's, or one made by `React.createRef()`. */
  datatype TargetRef = CreatedRef | CallerRef(id: nat)

  /** The props of `FlyoutBase` and of the Controls `Flyout`; absent props are `None`. */
  datatype FlyoutProps = FlyoutProps(
    content: Option<Node>,
    isOpen: Option<bool>,
    placement: Option<Placement>,
    target: Option<TargetRef>,
    children: Node)

  /** `props.Placement || Placement.Auto`: Top is enum value 0, which is falsy, so it becomes
      Auto like an absent placement; every other value is kept. */
  function InitialPlacement(p: Option<Placement>): (r: Placement)
    ensures r == Auto <==> p.None? || p == Some(Top) || p == Some(Auto)
    ensures p.Some? && p.value != Top ==> r == p.value
  {
    if p.None? || Code(p.value) == 0 then Auto else p.value
  }

  class FlyoutBase {
    var content: Node          // ContentControl._content
    var isOpen: bool
    var placement: Placement
    var target: TargetRef

    /** A new instance is closed unless `isOpen` is given true; its content defaults to `''`. */
    constructor (props: FlyoutProps)
      ensures content == Or(props.content.GetOr(NoNode), Text(""))
      ensures isOpen == (props.isOpen == Some(true))
      ensures placement == InitialPlacement(props.placement)
      ensures target == props.target.GetOr(CreatedRef)
    {
      content := Or(props.content.GetOr(NoNode), Text(""));
      isOpen := props.isOpen == Some(true);
      placement := InitialPlacement(props.placement);
      target := props.target.GetOr(CreatedRef);
    }

    method Show()
      modifies this`isOpen
      ensures isOpen
    {
      isOpen := true;
    }

    method Hide()
      modifies this`isOpen
      ensures !isOpen
    {
      isOpen := false;
    }

    /** Replaces the target and opens, in one step. */
    method ShowAt(t: TargetRef)
      modifies this`isOpen, this`target
      ensures isOpen && target == t
    {
      target := t;
      isOpen := true;
    }

    /** `getIsOpen`: the stored open flag. */
    function GetIsOpen(): (v: bool)
      reads this
      ensures v == isOpen
    {
      isOpen
    }

    method SetIsOpen(value: bool)
      modifies this`isOpen
      ensures isOpen == value
    {
      isOpen := value;
    }

    /** `getPlacement`: the stored placement. */
    function GetPlacement(): (v: Placement)
      reads this
      ensures v == placement
    {
      placement
    }

    method SetPlacement(value: Placement)
      modifies this`placement
      ensures placement == value
    {
      placement := value;
    }

    /** `getTarget`: the stored target ref. */
    function GetTarget(): (v: TargetRef)
      reads this
      ensures v == target
    {
      target
    }

    /** `ContentControl.getContent`: the stored content. */
    function GetContent(): (v: Node)
      reads this
      ensures v == content
    {
      content
    }

    method SetContent(c: Node)
      modifies this`content
      ensures content == c
    {
      content := c;
    }
  }

  /** The effect on `props.isOpen`: true calls `base.Show()`, anything else `base.Hide()`. */
  method SyncOpen(base: FlyoutBase, isOpen: Option<bool>)
    modifies base
    ensures base.isOpen == (isOpen == Some(true))
    ensures base.placement == old(base.placement) && base.target == old(base.target)
    ensures base.content == old(base.content)
  {
    if isOpen == Some(true) {
      base.Show();
    } else {
      base.Hide();
    }
  }

  /** The three style fields `calculatePosition` writes. */
  datatype StyleWrite = StyleWrite(top: Length, left: Length, transform: Option<string>)

  /** The reduced placement table of `calculatePosition`. Top, Bottom, Left and Right use the
      arithmetic of the Dialogs flyout; Full centres the element with a translate instead of
      filling the viewport; every edge-aligned value, Auto and an absent placement fall through
      to below the target with the left edges lined up. */
  function PlacementStyle(placement: Option<Placement>, target: Rect, flyout: Size): (w: StyleWrite)
    ensures placement.Some? && placement.value in {Top, Bottom, Left, Right} ==>
              w.top.Px? && w.left.Px? && w.transform.None? &&
              DialogFlyout.PlacementTable(placement.value, Some(target), Some(flyout)) == DialogFlyout.At(w.top.px, w.left.px)
    ensures placement == Some(Full) ==>
              w == StyleWrite(Percent(50.0), Percent(50.0), Some("translate(-50%, -50%)"))
    ensures placement.None? || placement.value !in {Top, Bottom, Left, Right, Full} ==>
              w.transform.None? && w.top.Px? && w.left.Px? &&
              DialogFlyout.PlacementTable(Auto, Some(target), Some(flyout)) == DialogFlyout.At(w.top.px, w.left.px)
  {
    match placement
    case Some(Top) => StyleWrite(Px(target.top - flyout.height), Px(target.left), None)
    case Some(Bottom) => StyleWrite(Px(target.bottom), Px(target.left), None)
    case Some(Left) => StyleWrite(Px(target.top), Px(target.left - flyout.width), None)
    case Some(Right) => StyleWrite(Px(target.top), Px(target.right), None)
    case Some(Full) => StyleWrite(Percent(50.0), Percent(50.0), Some("translate(-50%, -50%)"))
    case _ => StyleWrite(Px(target.bottom), Px(target.left), None)
  }

  /** `calculatePosition`: with no target element or no mounted flyout element it changes
      nothing; otherwise it writes `top`, `left` and (for Full) `transform` into the element's
      inline style. */
  method CalculatePosition(element: InlineStyle?, target: Option<Rect>, flyout: Size, placement: Option<Placement>)
    modifies element
    ensures element != null ==> element.position == old(element.position)
    ensures element != null && target.None? ==>
              element.top == old(element.top) && element.left == old(element.left) && element.transform == old(element.transform)
    ensures element != null && target.Some? ==>
              var w := PlacementStyle(placement, target.value, flyout);
              element.top == Some(w.top) && element.left == Some(w.left)
              && element.transform == (if w.transform.Some? then w.transform else old(element.transform))
  {
    if target.None? || element == null {
      return;
    }
    var t := target.value;
    match placement {
      case Some(Top) =>
        element.top := Some(Px(t.top - flyout.height));
        element.left := Some(Px(t.left));
      case Some(Bottom) =>
        element.top := Some(Px(t.bottom));
        element.left := Some(Px(t.left));
      case Some(Left) =>
        element.top := Some(Px(t.top));
        element.left := Some(Px(t.left - flyout.width));
      case Some(Right) =>
        element.top := Some(Px(t.top));
        element.left := Some(Px(t.right));
      case Some(Full) =>
        element.top := Some(Percent(50.0));
        element.left := Some(Percent(50.0));
        element.transform := Some("translate(-50%, -50%)");
      case _ =>
        element.top := Some(Px(t.bottom));
        element.left := Some(Px(t.left));
    }
  }

  /** The effect on `isOpen`, `Placement` and `Target`: the position is computed only while open. */
  method PositionEffect(isOpen: Option<bool>, element: InlineStyle?, target: Option<Rect>, flyout: Size, placement: Option<Placement>)
    modifies element
    ensures isOpen != Some(true) && element != null ==>
              element.top == old(element.top) && element.left == old(element.left)
              && element.transform == old(element.transform) && element.position == old(element.position)
    ensures isOpen == Some(true) && element != null && target.Some? ==>
              var w := PlacementStyle(placement, target.value, flyout);
              element.top == Some(w.top) && element.left == Some(w.left)
              && element.transform == (if w.transform.Some? then w.transform else old(element.transform))
    ensures isOpen == Some(true) && element != null ==> element.position == old(element.position)
  {
    if isOpen == Some(true) {
      CalculatePosition(element, target, flyout, placement);
    }
  }

  /** What the component renders: nothing unless `isOpen` is true; otherwise the
      `flyout-content` element showing the children, falling back to the base's content. */
  function Render(props: FlyoutProps, baseContent: Node): (r: Option<Node>)
    ensures r.Some? <==> props.isOpen == Some(true)
    ensures r.Some? && Truthy(props.children) ==> r.value == props.children
    ensures r.Some? && !Truthy(props.children) ==> r.value == baseContent
  {
    if props.isOpen == Some(true) then Some(Or(props.children, baseContent)) else None
  }
}
