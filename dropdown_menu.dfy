/** `DropdownMenu` (src/components/DropdownMenu/DropdownMenu.tsx): owns the open flag that
    triggers and content share through `DropdownContext`. The state is one object that the other
    components' handlers change, so it is a class here. */
module DropdownMenu {
  import opened Wrappers

  /** What a component reading `DropdownContext` sees. The provider supplies only `isOpen` and
      the two callbacks (the methods of `Menu`); `isClosing` and `triggerRef`, which
      `DropdownMenuTrigger` also destructures, are therefore always undefined. */
  datatype ContextValue = ContextValue(isOpen: bool, isClosing: Option<bool>, triggerRef: Option<string>)

  /** The value `createContext` is given: closed, with no-op callbacks. It is an object, so the
      components' `if (!context) throw …` guards never fire. */
  function DefaultContext(): (c: ContextValue)
    ensures !c.isOpen && c.isClosing.None? && c.triggerRef.None?
  {
    ContextValue(false, None, None)
  }

  class Menu {
    var isOpen: bool

    /** A menu starts closed. */
    constructor ()
      ensures !isOpen
    {
      isOpen := false;
    }

    /** `toggleDropdown`: negates the flag, so two toggles restore it. */
    method ToggleDropdown()
      modifies this
      ensures isOpen == !old(isOpen)
    {
      isOpen := !isOpen;
    }

    /** `closeDropdown`: clears the flag whatever it was, so it is idempotent. */
    method CloseDropdown()
      modifies this
      ensures !isOpen
    {
      isOpen := false;
    }

    /** The provider's `value`: the open flag and nothing for the keys it does not supply. */
    function Context(): (c: ContextValue)
      reads this
      ensures c.isOpen == isOpen && c.isClosing.None? && c.triggerRef.None?
    {
      ContextValue(isOpen, None, None)
    }
  }
}

/** `DropdownTrigger` (src/components/DropdownMenu/DropdownTrigger.tsx). */
module DropdownTrigger {
  import opened Wrappers
  import opened ReactNodes
  import opened Props
  import opened DropdownMenu

  /** Which context callback a click calls. */
  datatype Call = CloseCall | ToggleCall

  /** A click on an open menu calls `closeDropdown`, on a closed one `toggleDropdown`. */
  function ClickDecision(isOpen: bool): (c: Call)
    ensures c == CloseCall <==> isOpen
  {
    if isOpen then CloseCall else ToggleCall
  }

  /** `handleClick`: always prevents the default action, and whichever callback it calls, the
      menu's open flag flips. */
  method HandleClick(menu: Menu) returns (prevented: bool, call: Call)
    modifies menu
    ensures prevented
    ensures call == ClickDecision(old(menu.isOpen))
    ensures menu.isOpen == !old(menu.isOpen)
  {
    prevented := true;
    if menu.isOpen {
      call := CloseCall;
      menu.CloseDropdown();
    } else {
      call := ToggleCall;
      menu.ToggleDropdown();
    }
  }

  const ClickHandler: Prop := Handler("DropdownTrigger.handleClick")

  /** The element a trigger renders: its child cloned with extra props, or a `div` wrapper. */
  datatype Rendered = Cloned(key: nat, overrides: Props) | Wrapper(attributes: Props, children: Node)

  /** The props the rendered element ends up with from the trigger. */
  function Attributes(r: Rendered): Props {
    match r
    case Cloned(_, o) => o
    case Wrapper(a, _) => a
  }

  /** With `asChild` and a valid element child, the child is cloned with `onClick` and then the
      caller's props; otherwise the children are wrapped in a `div` with the class
      `dropdown-menu-trigger`, `onClick`, and then the caller's props. */
  function Render(children: Node, asChild: Option<bool>, props: Props): (r: Rendered)
    ensures r.Cloned? <==> asChild == Some(true) && children.Element?
    ensures r.Cloned? ==> r.key == children.key
    ensures r.Wrapper? ==> r.children == children
    ensures "className" !in props && r.Wrapper? ==>
              "className" in Attributes(r) && Attributes(r)["className"] == Str("dropdown-menu-trigger")
  {
    if asChild.GetOr(false) && children.Element? then
      Cloned(children.key, Spread(map["onClick" := ClickHandler], props))
    else
      var own := map["className" := Str("dropdown-menu-trigger"), "onClick" := ClickHandler];
      assert "className" in own.Keys;
      Wrapper(Spread(own, props), children)
  }

  /** Caller props are spread last: a caller's `onClick` replaces the trigger's handler in both
      forms, and without one the trigger's handler is installed. */
  lemma {:induction false} CallerOnClickWins(children: Node, asChild: Option<bool>, props: Props)
    ensures "onClick" in Attributes(Render(children, asChild, props))
    ensures Attributes(Render(children, asChild, props))["onClick"] ==
              if "onClick" in props then props["onClick"] else ClickHandler
    ensures forall k :: k in props ==> k in Attributes(Render(children, asChild, props))
                                         && Attributes(Render(children, asChild, props))[k] == props[k]
  {
    var r := Render(children, asChild, props);
    if r.Cloned? {
      assert Attributes(r) == Spread(map["onClick" := ClickHandler], props);
    } else {
      assert Attributes(r) == Spread(map["className" := Str("dropdown-menu-trigger"), "onClick" := ClickHandler], props);
    }
  }
}

/** `DropdownMenuTrigger` (src/components/DropdownMenu/DropdownMenuTrigger.tsx). */
module DropdownMenuTrigger {
  import opened Wrappers
  import opened ReactNodes
  import opened Props
  import opened DropdownMenu

  /** `isOpen && !isClosing`, with an undefined `isClosing` read as falsy. */
  function IsActive(isOpen: bool, isClosing: Option<bool>): (r: bool)
    ensures r <==> isOpen && isClosing != Some(true)
  {
    isOpen && !isClosing.GetOr(false)
  }

  /** Under a real `DropdownMenu` the context never carries `isClosing`, so the trigger is active
      exactly while the menu is open. */
  lemma ActiveMirrorsOpen(menu: Menu)
    ensures IsActive(menu.Context().isOpen, menu.Context().isClosing) == menu.isOpen
  {
  }

  /** The class names the `classnames` package keeps for `(base, { active })`: the base when it
      is a non-empty string, then `active` when the flag is set. */
  function ClassList(base: Option<string>, active: bool): (names: seq<string>)
    ensures forall n :: n in names ==> n != ""
    ensures |names| == (if base.Some? && base.value != "" then 1 else 0) + (if active then 1 else 0)
    ensures base.Some? && base.value != "" ==> names[0] == base.value
    ensures active ==> |names| > 0 && names[|names| - 1] == "active"
    ensures "active" in names <==> active || base == Some("active")
  {
    (if base.Some? && base.value != "" then [base.value] else [])
    + (if active then ["active"] else [])
  }

  /** The names joined by single spaces, as `classnames` returns them. */
  function JoinClasses(names: seq<string>): (s: string)
    ensures names == [] ==> s == ""
    ensures |names| == 1 ==> s == names[0]
  {
    if names == [] then ""
    else if |names| == 1 then names[0]
    else names[0] + " " + JoinClasses(names[1..])
  }

  /** Two and three names are joined with one space between each pair. */
  lemma JoinSeveral(a: string, b: string, c: string)
    ensures JoinClasses([a, b]) == a + " " + b
    ensures JoinClasses([a, b, c]) == a + " " + b + " " + c
  {
    assert [a, b][1..] == [b];
    assert [a, b, c][1..] == [b, c];
    assert [b, c][1..] == [c];
  }

  /** A cloned child keeps its own non-empty class: `foo` alone while inactive, `foo active`
      while active; an empty class is dropped. */
  lemma ChildClassKept(c: string)
    ensures c != "" ==> JoinClasses(ClassList(Some(c), false)) == c
    ensures c != "" ==> JoinClasses(ClassList(Some(c), true)) == c + " active"
    ensures c == "" ==> JoinClasses(ClassList(Some(c), false)) == "" && JoinClasses(ClassList(Some(c), true)) == "active"
  {
    JoinSeveral(c, "active", "");
  }

  /** The wrapper's classes: `dropdown-menu-trigger`, plus `active` exactly when active. */
  lemma WrapperClasses(active: bool)
    ensures ClassList(Some("dropdown-menu-trigger"), active) ==
              ["dropdown-menu-trigger"] + (if active then ["active"] else [])
    ensures "active" in ClassList(Some("dropdown-menu-trigger"), active) <==> active
  {
  }

  /** `handleClick`: prevents the default action and toggles. */
  method HandleClick(menu: Menu) returns (prevented: bool)
    modifies menu
    ensures prevented
    ensures menu.isOpen == !old(menu.isOpen)
  {
    prevented := true;
    menu.ToggleDropdown();
  }

  const ClickHandler: Prop := Handler("DropdownMenuTrigger.handleClick")

  /** The context's `triggerRef` as a prop value. */
  function RefProp(ref: Option<string>): (p: Prop)
    ensures ref.None? <==> p == Undefined
  {
    if ref.Some? then RefTo(ref.value) else Undefined
  }

  datatype Rendered = Cloned(key: nat, overrides: Props) | Wrapper(attributes: Props, children: Node)

  function Attributes(r: Rendered): Props {
    match r
    case Cloned(_, o) => o
    case Wrapper(a, _) => a
  }

  /** The cloned child receives `ref`, its own class plus `active`, `onClick`, and then the
      caller's props; the wrapper receives the class `dropdown-menu-trigger` plus `active`,
      `onClick`, `ref`, and then the caller's props. `childClass` is the child's own
      `className` prop. */
  function Render(ctx: ContextValue, children: Node, childClass: Option<string>, asChild: Option<bool>, props: Props): (r: Rendered)
    ensures r.Cloned? <==> asChild == Some(true) && children.Element?
    ensures r.Cloned? ==> r.key == children.key
    ensures r.Wrapper? ==> r.children == children
    ensures forall k :: k in props ==> k in Attributes(r) && Attributes(r)[k] == props[k]
    ensures Attributes(r).Keys == props.Keys + {"ref", "className", "onClick"}
  {
    var active := IsActive(ctx.isOpen, ctx.isClosing);
    if asChild.GetOr(false) && children.Element? then
      Cloned(children.key, Spread(map["ref" := RefProp(ctx.triggerRef),
                                      "className" := Str(JoinClasses(ClassList(childClass, active))),
                                      "onClick" := ClickHandler], props))
    else
      Wrapper(Spread(map["className" := Str(JoinClasses(ClassList(Some("dropdown-menu-trigger"), active))),
                         "onClick" := ClickHandler,
                         "ref" := RefProp(ctx.triggerRef)], props), children)
  }

  /** Unless the caller overrides `className`, the rendered class list carries `active` exactly
      when the trigger is active (for a cloned child whose own class is not `active` itself). */
  lemma {:induction false} ActiveClassIffActive(ctx: ContextValue, children: Node, childClass: Option<string>,
                                                asChild: Option<bool>, props: Props)
    requires "className" !in props && childClass != Some("active")
    ensures var r := Render(ctx, children, childClass, asChild, props);
            var base := if r.Cloned? then childClass else Some("dropdown-menu-trigger");
            var names := ClassList(base, IsActive(ctx.isOpen, ctx.isClosing));
            Attributes(r)["className"] == Str(JoinClasses(names))
            && ("active" in names <==> IsActive(ctx.isOpen, ctx.isClosing))
            && (r.Cloned? && childClass.Some? && childClass.value != "" ==> names[0] == childClass.value)
  {
    var active := IsActive(ctx.isOpen, ctx.isClosing);
    var r := Render(ctx, children, childClass, asChild, props);
    if r.Cloned? {
      assert Attributes(r) == Spread(map["ref" := RefProp(ctx.triggerRef),
                                         "className" := Str(JoinClasses(ClassList(childClass, active))),
                                         "onClick" := ClickHandler], props);
    } else {
      assert Attributes(r) == Spread(map["className" := Str(JoinClasses(ClassList(Some("dropdown-menu-trigger"), active))),
                                         "onClick" := ClickHandler,
                                         "ref" := RefProp(ctx.triggerRef)], props);
    }
  }
}

/** `DropdownMenuContent` (src/components/DropdownMenu/DropdownMenuContent.tsx) and the second
    content variant in src/components/DropdownMenu/DropdownMenuContext.tsx. Both register a
    document `mousedown` listener while the menu is open; whether the event target lies inside
    the content (or the trigger) element is a boolean input, and "mounted" says whether the ref
    the test reads is attached. */
module DropdownMenuContent {
  import opened Wrappers
  import opened ReactNodes
  import opened Props
  import opened DropdownMenu
  import DropdownTrigger

  /** The content's dismissal test as written: only a target inside the mounted content is
      spared. The second test reads a ref created locally and never attached to any element,
      so whether the target is inside the trigger plays no part. */
  function Dismisses(contentMounted: bool, insideContent: bool, insideTrigger: bool): (b: bool)
    ensures contentMounted && insideContent ==> !b
    ensures !insideContent ==> b
  {
    var triggerMounted := false;
    !(contentMounted && insideContent) && !(triggerMounted && insideTrigger)
  }

  /** A mousedown inside the content never closes; any other mousedown does, the trigger
      included. */
  lemma DismissesExactlyOutsideContent(contentMounted: bool, insideContent: bool, insideTrigger: bool)
    ensures Dismisses(contentMounted, insideContent, insideTrigger) <==> !(contentMounted && insideContent)
    ensures Dismisses(true, false, true)
  {
  }

  /** The document listener's effect on the menu. It is registered only while the menu is open,
      so a mousedown on a closed menu reaches no handler. */
  method OnDocumentMouseDown(menu: Menu, contentMounted: bool, insideContent: bool, insideTrigger: bool)
    modifies menu
    ensures menu.isOpen == (old(menu.isOpen) && !Dismisses(contentMounted, insideContent, insideTrigger))
  {
    if menu.isOpen && Dismisses(contentMounted, insideContent, insideTrigger) {
      menu.CloseDropdown();
    }
  }

  /** A full click on the `DropdownTrigger` of an open menu, as written: the mousedown reaches
      the document listener first and closes the menu; the click handler then sees a closed menu
      and toggles it open again. The menu cannot be closed from its trigger. */
  method TriggerClickOnOpenMenu(contentMounted: bool) returns (openAfter: bool)
    ensures openAfter
  {
    var menu := new Menu();
    menu.ToggleDropdown();
    OnDocumentMouseDown(menu, contentMounted, false, true);
    var _, _ := DropdownTrigger.HandleClick(menu);
    openAfter := menu.isOpen;
  }

  /** The evidently intended test: a target inside the content or inside the (attached)
      trigger element is spared. */
  function DismissesCorrected(contentMounted: bool, insideContent: bool, triggerMounted: bool, insideTrigger: bool): (b: bool)
    ensures (contentMounted && insideContent) || (triggerMounted && insideTrigger) ==> !b
    ensures !insideContent && !insideTrigger ==> b
  {
    !(contentMounted && insideContent) && !(triggerMounted && insideTrigger)
  }

  /** The corrected test still closes on every mousedown outside both elements, and agrees
      with the written one everywhere except on the trigger. */
  lemma CorrectedAgreesOffTrigger(contentMounted: bool, insideContent: bool, triggerMounted: bool, insideTrigger: bool)
    ensures !insideContent && !insideTrigger ==> DismissesCorrected(contentMounted, insideContent, triggerMounted, insideTrigger)
    ensures !(triggerMounted && insideTrigger) ==>
              (DismissesCorrected(contentMounted, insideContent, triggerMounted, insideTrigger)
               <==> Dismisses(contentMounted, insideContent, insideTrigger))
    ensures triggerMounted && insideTrigger ==> !DismissesCorrected(contentMounted, insideContent, triggerMounted, insideTrigger)
  {
  }

  method OnDocumentMouseDownCorrected(menu: Menu, contentMounted: bool, insideContent: bool,
                                      triggerMounted: bool, insideTrigger: bool)
    modifies menu
    ensures menu.isOpen == (old(menu.isOpen) && !DismissesCorrected(contentMounted, insideContent, triggerMounted, insideTrigger))
  {
    if menu.isOpen && DismissesCorrected(contentMounted, insideContent, triggerMounted, insideTrigger) {
      menu.CloseDropdown();
    }
  }

  /** With the corrected test, a full click on the trigger of an open menu closes it. */
  method TriggerClickOnOpenMenuCorrected(contentMounted: bool) returns (openAfter: bool)
    ensures !openAfter
  {
    var menu := new Menu();
    menu.ToggleDropdown();
    OnDocumentMouseDownCorrected(menu, contentMounted, false, true, true);
    var _, _ := DropdownTrigger.HandleClick(menu);
    openAfter := menu.isOpen;
  }

  /** The content element: a `div` with the class `dropdown-menu-content` and then the caller's
      props, holding the children. */
  datatype ContentElement = ContentElement(attributes: Props, children: Node)

  /** Nothing renders while the menu is closed. */
  function Render(isOpen: bool, children: Node, props: Props): (r: Option<ContentElement>)
    ensures r.Some? <==> isOpen
    ensures r.Some? ==> r.value.children == children
    ensures r.Some? && "className" !in props ==>
              "className" in r.value.attributes && r.value.attributes["className"] == Str("dropdown-menu-content")
    ensures r.Some? ==> forall k :: k in props ==> k in r.value.attributes && r.value.attributes[k] == props[k]
  {
    if !isOpen then None
    else
      var own := map["className" := Str("dropdown-menu-content")];
      assert "className" in own.Keys;
      Some(ContentElement(Spread(own, props), children))
  }

  /** The variant in DropdownMenuContext.tsx: it closes only when its content ref is attached
      and the target lies outside it; while the ref is unset nothing closes. */
  function VariantDismisses(contentMounted: bool, insideContent: bool): (b: bool)
    ensures !contentMounted ==> !b
    ensures b ==> !insideContent
  {
    contentMounted && !insideContent
  }

  /** The two content components differ exactly while the content ref is unset: the variant
      then keeps the menu open, the main component closes it. */
  lemma VariantDiffersOnlyUnmounted(contentMounted: bool, insideContent: bool, insideTrigger: bool)
    ensures contentMounted ==> (VariantDismisses(contentMounted, insideContent) <==> Dismisses(contentMounted, insideContent, insideTrigger))
    ensures !contentMounted ==> !VariantDismisses(contentMounted, insideContent) && Dismisses(contentMounted, insideContent, insideTrigger)
  {
  }

  method OnDocumentMouseDownVariant(menu: Menu, contentMounted: bool, insideContent: bool)
    modifies menu
    ensures menu.isOpen == (old(menu.isOpen) && !VariantDismisses(contentMounted, insideContent))
  {
    if menu.isOpen && VariantDismisses(contentMounted, insideContent) {
      menu.CloseDropdown();
    }
  }

  /** The variant renders a plain `div` with the caller's props, and nothing while closed. */
  function RenderVariant(isOpen: bool, children: Node, props: Props): (r: Option<ContentElement>)
    ensures r.Some? <==> isOpen
    ensures r.Some? ==> r.value == ContentElement(props, children)
  {
    if !isOpen then None else Some(ContentElement(props, children))
  }
}

/** `DropdownMenuSubMenu` (src/components/DropdownMenu/DropdownMenuSubMenu.tsx): a hover flag
    and a right/left alignment flag, set by the mouse handlers and by positioning. The submenu's
    right edge and the viewport width are inputs. */
module DropdownMenuSubMenu {
  import opened Wrappers

  /** The positioning rule: left alignment exactly when the submenu's right edge passes the
      viewport's width. */
  function RightAligned(right: real, viewportWidth: real): (r: bool)
    ensures !r <==> right > viewportWidth
  {
    !(right > viewportWidth)
  }

  class SubMenu {
    var isHovered: bool
    var isRightAligned: bool

    /** A submenu starts unhovered and right-aligned. */
    constructor ()
      ensures !isHovered && isRightAligned
    {
      isHovered := false;
      isRightAligned := true;
    }

    /** `handlePositioning`: does nothing while the submenu element is not rendered (it is
        rendered only while hovered). */
    method HandlePositioning(right: real, viewportWidth: real)
      modifies this`isRightAligned
      ensures isRightAligned == if isHovered then RightAligned(right, viewportWidth) else old(isRightAligned)
    {
      if isHovered {
        isRightAligned := RightAligned(right, viewportWidth);
      }
    }

    /** Mouse enter sets the flag; when that changes it, the effect on `isHovered` runs the
        positioning against the freshly rendered submenu. */
    method MouseEnter(right: real, viewportWidth: real)
      modifies this
      ensures isHovered
      ensures isRightAligned == if old(isHovered) then old(isRightAligned) else RightAligned(right, viewportWidth)
    {
      if !isHovered {
        isHovered := true;
        HandlePositioning(right, viewportWidth);
      }
    }

    /** Mouse leave clears the flag; the effect then runs without positioning. */
    method MouseLeave()
      modifies this
      ensures !isHovered && isRightAligned == old(isRightAligned)
    {
      isHovered := false;
    }

    /** A window resize runs the positioning; the listener is registered in every state. */
    method Resize(right: real, viewportWidth: real)
      modifies this`isRightAligned
      ensures isHovered == old(isHovered)
      ensures isRightAligned == if isHovered then RightAligned(right, viewportWidth) else old(isRightAligned)
    {
      HandlePositioning(right, viewportWidth);
    }

    /** The submenu panel's class, or nothing when it is not rendered. */
    function PanelClass(): (c: Option<string>)
      reads this
      ensures c.Some? <==> isHovered
      ensures c.Some? ==> c.value == "dropdown-menu-submenu " + (if isRightAligned then "align-right" else "align-left")
    {
      if isHovered then Some("dropdown-menu-submenu " + (if isRightAligned then "align-right" else "align-left")) else None
    }
  }

  /** After the mouse enters, the panel shows and its class follows the positioning rule. */
  method EnterThenPanel(right: real, viewportWidth: real) returns (c: Option<string>)
    ensures c == Some(if right > viewportWidth then "dropdown-menu-submenu align-left" else "dropdown-menu-submenu align-right")
  {
    var s := new SubMenu();
    s.MouseEnter(right, viewportWidth);
    c := s.PanelClass();
    if right > viewportWidth {
      assert c.value == "dropdown-menu-submenu " + "align-left" == "dropdown-menu-submenu align-left";
    } else {
      assert c.value == "dropdown-menu-submenu " + "align-right" == "dropdown-menu-submenu align-right";
    }
  }
}
