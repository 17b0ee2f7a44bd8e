# ubivera/ui — a verified model of the component core

This project models the behavioural core of the ubivera/ui React component library in Dafny and
proves properties of that model. It covers six groups:

- **Popover geometry**: the placement table of the Dialogs `Flyout`, the reduced table of the
  Controls `Flyout` and `ensureElementVisibility`, which nudges an element back inside the viewport.
- **Open/close and dismissal state**: the Dialogs `Flyout` (`isOpen`, `shouldRender`, the 300 ms
  close timer, the document listeners), `FlyoutBase`, the `DropdownMenu` family (the shared open
  flag, `DropdownTrigger`, `DropdownMenuTrigger`, two `DropdownMenuContent` variants and the
  submenu) and `DropDownButton`.
- **Check state**: the three-valued state of `CheckBox` and `ToggleButton` with their callbacks.
- **Click dispatch**: `ButtonBase`'s click modes, the simple button's handlers, `HyperlinkButton`,
  both `MenuFlyoutItem`s, `ButtonImage` and `defaultButtonProps`.
- **Desktop-style element bookkeeping**: `UIElement` with the layout manager's measure and arrange
  queues, `FrameworkElement`, `Control`, `ControlTemplate` with its `TriggerCollection`, and `Names`
  with its registry.
- **Calendar grids**: `CalendarBody` and `getDaysInMonth`, on top of the day arithmetic of
  ECMAScript `Date` (ECMA-262, section 21.4.1).

How the source maps onto Dafny:

- A React function component keeps its hook state in a datatype. Each event is a pure transition
  function, and properties over event sequences are lemmas.
- Where several components change one shared object, the object is a class with `modifies` clauses:
  the dropdown menu's open flag, the drop-down button's flyout flag, the submenu and the check box.
- The TypeScript classes are Dafny classes whose methods change their fields: `FlyoutBase`,
  `ButtonBase`, `UIElement`, `FrameworkElement`, `Control`, `ControlTemplate` and `Names`.
- The static queues of `ContextLayoutManager` and the static registry of `Names` become one shared
  object that every element refers to.
- Event handlers return the trace of calls they make, in order.
- DOM facts are inputs: bounding rectangles, element sizes, whether an event target lies inside an
  element, and whether a ref is attached.
- A thrown error is an `Outcome` value that carries its message.

## Model

| member | source | states |
|---|---|---|
| Placements.Code | src/enums/Placement.ts:1-16 | the numeric enum values lie in 0..13, and only `Top` is 0 (falsy) |
| Placements.CodeInjective | src/enums/Placement.ts:1-16 | distinct placements have distinct numeric values |
| ReactNodes.Or | src/components/Controls/Flyout/Flyout.tsx:71 | `a \|\| b` on nodes: `a` when truthy, else `b` |
| JsStrings.Trim | src/components/Controls/ToggleButton/ToggleButton.tsx:61 | `trim` gives the infix of the input with only white space removed from both ends, and the result starts and ends with non-space |
| JsStrings.TrimOfTrimmed | src/components/Controls/ToggleButton/ToggleButton.tsx:61 | trimming a trimmed string changes nothing |
| JsStrings.TrimPrefixSpace | src/components/Controls/ToggleButton/ToggleButton.tsx:61 | `(prefix + ' ').trim()` is the prefix |
| JsStrings.TrimPrefixStyle | src/components/Controls/HyperlinkButton/HyperlinkButton.tsx:33 | `(prefix + ' ' + style).trim()` keeps a trimmed non-empty style verbatim |
| JsStrings.ClassWithStyle | src/components/Controls/ToggleButton/ToggleButton.tsx:61 | the toggle button's `('toggle ' + (Style \|\| '')).trim()` (and the hyperlink button's, at HyperlinkButton.tsx line 33) is always trimmed |
| JsStrings.ClassWithStyleCases | src/components/Controls/HyperlinkButton/HyperlinkButton.tsx:33 | no caller style gives exactly the base class (`hyperlink`, `toggle`); a non-empty trimmed style follows the base and one space verbatim |
| Props.Spread | src/components/DropdownMenu/DropdownTrigger.tsx:63-66 | object spread: keys are the union, later keys win, and the others keep their values |
| DialogFlyout.PlacementTable | src/components/Dialogs/Flyout/Flyout.tsx:84-153 | for each placement, the side of the target the flyout sits on and the edges that line up; no target gives no position; Full covers the viewport |
| DialogFlyout.GetFlyoutPosition | src/components/Dialogs/Flyout/Flyout.tsx:84-153 | throws exactly when the target is mounted, the placement reads the flyout's size and the flyout is unmounted; otherwise gives the table's position |
| DialogFlyout.GetFlyoutPositionCorrected | src/components/Dialogs/Flyout/Flyout.tsx:84-153 | never throws, and agrees with the written function wherever that does not throw |
| DialogFlyout.AutoIsBottom | src/components/Dialogs/Flyout/Flyout.tsx:145-149 | Auto places exactly like Bottom and BottomEdgeAlignedLeft, and never throws |
| DialogFlyout.TopAndBottomExample | src/components/Dialogs/Flyout/Flyout.tsx:91-98 | concrete Top and Bottom positions for one target |
| DialogFlyout.DefaultConfig | src/components/Dialogs/Flyout/Flyout.tsx:23-24 | animations and focus-on-interaction default to true |
| DialogFlyout.CloseEffect | src/components/Dialogs/Flyout/Flyout.tsx:36-45 | the close effect re-run: a pending timer is cleared; open renders, closed starts the timer with animations and unmounts without; the listeners are untouched |
| DialogFlyout.AfterOpenChange | src/components/Dialogs/Flyout/Flyout.tsx:36-72 | after an `isOpen` change: listeners registered iff open; open renders at once; closing with animations starts the timer; closing without unmounts |
| DialogFlyout.Mount | src/components/Dialogs/Flyout/Flyout.tsx:20-28 | the first state is valid, and open and rendered iff `IsOpen` is true |
| DialogFlyout.PlacementProp | src/components/Dialogs/Flyout/Flyout.tsx:22 | the placement defaults to Auto |
| DialogFlyout.SetIsOpen | src/components/Dialogs/Flyout/Flyout.tsx:27-45 | the new `isOpen` is the value; an unchanged value changes nothing; a change re-registers the listeners and an opening renders with no timer |
| DialogFlyout.Step | src/components/Dialogs/Flyout/Flyout.tsx:31-72 | Show opens and Hide closes; no other event opens; the timer leaves `isOpen` and the listeners alone and is no longer pending |
| DialogFlyout.Run | src/components/Dialogs/Flyout/Flyout.tsx:31-72 | a closed flyout stays closed through any events without Show |
| DialogFlyout.Valid | src/components/Dialogs/Flyout/Flyout.tsx:27-72 | in every valid state an unmounted flyout is closed and has no listeners |
| DialogFlyout.StepPreservesValid | src/components/Dialogs/Flyout/Flyout.tsx:31-72 | every event keeps the invariant (open ⇒ rendered; listeners iff open; timer only while closing with animations) |
| DialogFlyout.RunPreservesValid | src/components/Dialogs/Flyout/Flyout.tsx:31-72 | any sequence of events keeps the invariant |
| DialogFlyout.ShowOpensAndRenders | src/components/Dialogs/Flyout/Flyout.tsx:31-45 | Show opens, renders, listens and cancels a pending close timer |
| DialogFlyout.HideWithAnimations | src/components/Dialogs/Flyout/Flyout.tsx:36-45 | Hide with animations keeps the flyout rendered with the timer pending; the timer then unmounts it |
| DialogFlyout.HideWithoutAnimations | src/components/Dialogs/Flyout/Flyout.tsx:42-44 | Hide without animations unmounts at once |
| DialogFlyout.ReopenDuringClose | src/components/Dialogs/Flyout/Flyout.tsx:36-45 | Hide then Show restores the state, and a late timer changes nothing |
| DialogFlyout.EscapeCloses | src/components/Dialogs/Flyout/Flyout.tsx:47-52 | Escape on an open flyout acts as Hide; any other key, or any key while closed, changes nothing |
| DialogFlyout.OutsideMouseDownCloses | src/components/Dialogs/Flyout/Flyout.tsx:54-58 | a mousedown outside an open flyout acts as Hide; one inside, or while closed, changes nothing |
| DialogFlyout.ClosedLeavesNoListeners | src/components/Dialogs/Flyout/Flyout.tsx:60-71 | after any events: closed ⇒ no listeners, and unmounted ⇒ closed |
| DialogFlyout.SetAnimations | src/components/Dialogs/Flyout/Flyout.tsx:36-45 | a new `AreOpenCloseAnimationsEnabled` re-runs the close effect only when it differs; `isOpen` and the listeners never change |
| DialogFlyout.SetAnimationsPreservesValid | src/components/Dialogs/Flyout/Flyout.tsx:36-45 | the invariant holds under the new value of the prop |
| DialogFlyout.DisableDuringClose | src/components/Dialogs/Flyout/Flyout.tsx:39-44 | turning animations off during the close animation clears the timer and unmounts at once |
| DialogFlyout.EnableWhileClosed | src/components/Dialogs/Flyout/Flyout.tsx:39-41 | turning animations on while closed starts a timer whose firing changes nothing |
| DialogFlyout.DrivePreservesValid | src/components/Dialogs/Flyout/Flyout.tsx:19-72 | any mix of events and prop changes keeps the invariant; focus-on-interaction is never changed |
| DialogFlyout.ClassName | src/components/Dialogs/Flyout/Flyout.tsx:169 | `flyout`, plus ` flyout-open` / ` flyout-close` exactly when animations are on |
| DialogFlyout.Render | src/components/Dialogs/Flyout/Flyout.tsx:155-175 | a render throws iff the position does, even when nothing is shown; otherwise it shows iff `shouldRender`, with the overlay iff focus-on-interaction, and the class and position |
| DialogFlyout.ClosingRendersCloseClass | src/components/Dialogs/Flyout/Flyout.tsx:161-169 | during the close animation the flyout is shown with `flyout flyout-close` |
| DialogFlyout.ShowWithSizedPlacementThrows | src/components/Dialogs/Flyout/Flyout.tsx:92 | Show on an unmounted flyout with a mounted target and a size-reading placement throws on the next render |
| DialogFlyout.RenderCorrected | src/components/Dialogs/Flyout/Flyout.tsx:155-175 | the corrected render shows iff `shouldRender`, with the corrected position |
| DialogFlyout.ShowRendersCorrected | src/components/Dialogs/Flyout/Flyout.tsx:155-175 | with the correction, Show always renders, and every render the written component completes is unchanged |
| ControlsFlyout.InitialPlacement | src/components/Controls/FlyoutBase.ts:20 | `Placement \|\| Auto` turns both an absent placement and Top (value 0) into Auto, and keeps every other value |
| ControlsFlyout.FlyoutBase.constructor | src/components/Controls/FlyoutBase.ts:17-22 | content defaults to `''` (through `\|\|`), closed unless `isOpen` is true, the initial placement, and a created ref when no target is given |
| ControlsFlyout.FlyoutBase.Show | src/components/Controls/FlyoutBase.ts:24-27 | opens |
| ControlsFlyout.FlyoutBase.Hide | src/components/Controls/FlyoutBase.ts:29-32 | closes |
| ControlsFlyout.FlyoutBase.ShowAt | src/components/Controls/FlyoutBase.ts:34-38 | replaces the target and opens |
| ControlsFlyout.FlyoutBase.SetIsOpen | src/components/Controls/FlyoutBase.ts:44-47 | stores the open flag |
| ControlsFlyout.FlyoutBase.SetPlacement | src/components/Controls/FlyoutBase.ts:53-56 | stores the placement |
| ControlsFlyout.FlyoutBase.SetContent | src/components/Controls/ContentControl.ts:15-18 | stores the content |
| ControlsFlyout.FlyoutBase.GetIsOpen | src/components/Controls/FlyoutBase.ts:40-42 | the open flag last stored by the constructor, Show, Hide, ShowAt or SetIsOpen |
| ControlsFlyout.FlyoutBase.GetPlacement | src/components/Controls/FlyoutBase.ts:49-51 | the placement last stored by the constructor or SetPlacement |
| ControlsFlyout.FlyoutBase.GetTarget | src/components/Controls/FlyoutBase.ts:58-60 | the target last stored by the constructor or ShowAt |
| ControlsFlyout.FlyoutBase.GetContent | src/components/Controls/ContentControl.ts:10-13 | the content last stored by the constructor or SetContent |
| ControlsFlyout.SyncOpen | src/components/Controls/Flyout/Flyout.tsx:18-24 | the base is open iff the prop is true; placement, target and content stay |
| ControlsFlyout.PlacementStyle | src/components/Controls/Flyout/Flyout.tsx:32-59 | Top/Bottom/Left/Right agree with the Dialogs table; Full centres with a translate; every other value falls back to Auto's position |
| ControlsFlyout.CalculatePosition | src/components/Controls/Flyout/Flyout.tsx:26-60 | with no target nothing changes; otherwise top/left (and transform for Full) are written from the table |
| ControlsFlyout.PositionEffect | src/components/Controls/Flyout/Flyout.tsx:62-66 | positions only while open (top, left, and the transform where the placement sets one); a closed flyout's style is untouched |
| ControlsFlyout.Render | src/components/Controls/Flyout/Flyout.tsx:68-74 | renders iff open, showing the children or else the base's content |
| VisibilityHelper.ParseOffset | src/utils/VisibilityHelper.ts:10-11 | `parseFloat(v \|\| '0')`: empty reads 0, a pixel value its number, and `auto` is NaN |
| VisibilityHelper.Shift | src/utils/VisibilityHelper.ts:16-20 | the low edge wins: inside the padding band it lands on `padding`; else a high edge past the band lands on `extent - padding`; else no move |
| VisibilityHelper.Adjusted | src/utils/VisibilityHelper.ts:13-26 | the parsed offset moves by the shift; NaN stays NaN |
| VisibilityHelper.ShiftFits | src/utils/VisibilityHelper.ts:16-26 | an element that fits in the padded viewport ends up wholly inside it |
| VisibilityHelper.InsideDoesNotMove | src/utils/VisibilityHelper.ts:16-20 | an element already inside the band does not move |
| VisibilityHelper.LowEdgeWins | src/utils/VisibilityHelper.ts:16-17 | an element larger than the band is pinned at its top/left edge |
| VisibilityHelper.Written | src/utils/VisibilityHelper.ts:29-30 | a finite offset is written in px; `NaNpx` leaves the previous style |
| VisibilityHelper.EnsureElementVisibility | src/utils/VisibilityHelper.ts:1-33 | position becomes absolute if computed absolute, else fixed; top and left get the adjusted offsets; a null element is left alone |
| VisibilityHelper.LeftOverflowExample | src/utils/VisibilityHelper.ts:22-23 | an element at left −5 moves 15 px right with the default padding |
| DropdownMenu.DefaultContext | src/components/DropdownMenu/DropdownMenu.tsx:8-12 | the default context is closed and lacks `isClosing` and `triggerRef` |
| DropdownMenu.Menu.constructor | src/components/DropdownMenu/DropdownMenu.tsx:17 | a menu starts closed |
| DropdownMenu.Menu.ToggleDropdown | src/components/DropdownMenu/DropdownMenu.tsx:19-21 | negates the open flag |
| DropdownMenu.Menu.CloseDropdown | src/components/DropdownMenu/DropdownMenu.tsx:23-25 | clears the open flag |
| DropdownMenu.Menu.Context | src/components/DropdownMenu/DropdownMenu.tsx:27-31 | the provided value carries the open flag and neither `isClosing` nor `triggerRef` |
| DropdownTrigger.ClickDecision | src/components/DropdownMenu/DropdownTrigger.tsx:53-59 | close iff open, otherwise toggle |
| DropdownTrigger.HandleClick | src/components/DropdownMenu/DropdownTrigger.tsx:50-60 | prevents the default, and the open flag flips either way |
| DropdownTrigger.Render | src/components/DropdownMenu/DropdownTrigger.tsx:62-73 | clones iff `asChild` with an element child; otherwise wraps in the `dropdown-menu-trigger` div |
| DropdownTrigger.CallerOnClickWins | src/components/DropdownMenu/DropdownTrigger.tsx:63-72 | caller props are spread last: the caller's `onClick` replaces the handler, and every caller prop survives |
| DropdownMenuTrigger.IsActive | src/components/DropdownMenu/DropdownMenuTrigger.tsx:56 | active iff open and `isClosing` is not true |
| DropdownMenuTrigger.ActiveMirrorsOpen | src/components/DropdownMenu/DropdownMenuTrigger.tsx:49-56 | under a real menu, active iff open |
| DropdownMenuTrigger.ClassList | src/components/DropdownMenu/DropdownMenuTrigger.tsx:61 | `classnames`: non-empty names only; a non-empty base comes first, `active` last iff active, and nothing else |
| DropdownMenuTrigger.ChildClassKept | src/components/DropdownMenu/DropdownMenuTrigger.tsx:61 | a cloned child's non-empty class is kept: `foo`, or `foo active` while active; an empty class is dropped |
| DropdownMenuTrigger.JoinClasses | src/components/DropdownMenu/DropdownMenuTrigger.tsx:69 | no names give the empty string; one name is itself |
| DropdownMenuTrigger.JoinSeveral | src/components/DropdownMenu/DropdownMenuTrigger.tsx:69 | two and three names are joined with one space between each pair |
| DropdownMenuTrigger.WrapperClasses | src/components/DropdownMenu/DropdownMenuTrigger.tsx:69 | the wrapper's classes are `dropdown-menu-trigger`, plus `active` iff active |
| DropdownMenuTrigger.HandleClick | src/components/DropdownMenu/DropdownMenuTrigger.tsx:51-54 | prevents the default and toggles |
| DropdownMenuTrigger.RefProp | src/components/DropdownMenu/DropdownMenuTrigger.tsx:60 | an absent ref is passed as `undefined` |
| DropdownMenuTrigger.Render | src/components/DropdownMenu/DropdownMenuTrigger.tsx:58-75 | clones iff `asChild` with an element; the keys are `ref`, `className`, `onClick` plus the caller's, and caller props win |
| DropdownMenuTrigger.ActiveClassIffActive | src/components/DropdownMenu/DropdownMenuTrigger.tsx:58-75 | without a caller `className`, the class list holds `active` iff the trigger is active, and a cloned child's non-empty class comes first |
| DropdownMenuContent.Dismisses | src/components/DropdownMenu/DropdownMenuContent.tsx:41-53 | a target inside the mounted content never dismisses; any target outside the content does, whatever the trigger |
| DropdownMenuContent.DismissesExactlyOutsideContent | src/components/DropdownMenu/DropdownMenuContent.tsx:41-53 | as written, a mousedown dismisses iff it is not inside the mounted content: the trigger is not spared |
| DropdownMenuContent.OnDocumentMouseDown | src/components/DropdownMenu/DropdownMenuContent.tsx:43-63 | an open menu closes iff the written test dismisses; a closed one stays closed |
| DropdownMenuContent.TriggerClickOnOpenMenu | src/components/DropdownMenu/DropdownMenuContent.tsx:49-53 | as written, clicking the trigger of an open menu leaves it open |
| DropdownMenuContent.DismissesCorrected | src/components/DropdownMenu/DropdownMenuContent.tsx:44-54 | a target inside the mounted content or the attached trigger never dismisses; one outside both does |
| DropdownMenuContent.CorrectedAgreesOffTrigger | src/components/DropdownMenu/DropdownMenuContent.tsx:44-54 | the corrected test spares the attached trigger and agrees with the written one everywhere else |
| DropdownMenuContent.OnDocumentMouseDownCorrected | src/components/DropdownMenu/DropdownMenuContent.tsx:43-63 | an open menu closes iff the corrected test dismisses |
| DropdownMenuContent.TriggerClickOnOpenMenuCorrected | src/components/DropdownMenu/DropdownMenuContent.tsx:49-53 | with the correction, clicking the trigger of an open menu closes it |
| DropdownMenuContent.Render | src/components/DropdownMenu/DropdownMenuContent.tsx:65-73 | renders iff open, with class `dropdown-menu-content` unless overridden, the caller props and the children |
| DropdownMenuContent.VariantDismisses | src/components/DropdownMenu/DropdownMenuContext.tsx:20-24 | nothing dismisses while the content ref is unset, and a dismissing target lies outside the content |
| DropdownMenuContent.VariantDiffersOnlyUnmounted | src/components/DropdownMenu/DropdownMenuContext.tsx:20-24 | the variant agrees with the main component while its content ref is set; unset, it never closes while the main one does |
| DropdownMenuContent.OnDocumentMouseDownVariant | src/components/DropdownMenu/DropdownMenuContext.tsx:19-33 | an open menu closes iff the ref is set and the target lies outside the content |
| DropdownMenuContent.RenderVariant | src/components/DropdownMenu/DropdownMenuContext.tsx:35-43 | renders iff open, with exactly the caller props |
| DropdownMenuSubMenu.RightAligned | src/components/DropdownMenu/DropdownMenuSubMenu.tsx:58-62 | left-aligned iff the right edge passes the viewport |
| DropdownMenuSubMenu.SubMenu.constructor | src/components/DropdownMenu/DropdownMenuSubMenu.tsx:40-41 | starts unhovered and right-aligned |
| DropdownMenuSubMenu.SubMenu.HandlePositioning | src/components/DropdownMenu/DropdownMenuSubMenu.tsx:53-64 | recomputes the alignment only while the panel is rendered |
| DropdownMenuSubMenu.SubMenu.MouseEnter | src/components/DropdownMenu/DropdownMenuSubMenu.tsx:49-68 | hovered; a fresh hover repositions the panel |
| DropdownMenuSubMenu.SubMenu.MouseLeave | src/components/DropdownMenu/DropdownMenuSubMenu.tsx:50 | unhovered; alignment kept |
| DropdownMenuSubMenu.SubMenu.Resize | src/components/DropdownMenu/DropdownMenuSubMenu.tsx:70 | a resize repositions while hovered and changes nothing else |
| DropdownMenuSubMenu.SubMenu.PanelClass | src/components/DropdownMenu/DropdownMenuSubMenu.tsx:82-85 | the panel exists iff hovered, classed `align-right` or `align-left` |
| DropdownMenuSubMenu.EnterThenPanel | src/components/DropdownMenu/DropdownMenuSubMenu.tsx:49-85 | after entering, the panel's class follows the positioning rule |
| DropDownButton.FindFlyout | src/components/Controls/DropDownButton/DropDownButton.tsx:80-82 | the index of the first flyout child, or none iff there is none |
| DropDownButton.MouseUpCloses | src/components/Controls/DropDownButton/DropDownButton.tsx:52-67 | a closing mouseup needs the flyout area and the button mounted and a target outside the flyout; a target in the button element, when that element is known, never closes |
| DropDownButton.MouseUpOutsideBoth | src/components/Controls/DropDownButton/DropDownButton.tsx:52-67 | with the button's element known, a mouseup inside the flyout or the button, or with no flyout mounted, never closes; one outside both closes |
| DropDownButton.MouseUpInButtonAsWritten | src/components/Controls/DropDownButton/DropDownButton.tsx:57-61 | with the element unknown, as written, a mouseup in the button of a mounted flyout closes it; with it known, it does not |
| DropDownButton.Button.constructor | src/components/Controls/DropDownButton/DropDownButton.tsx:34 | starts closed |
| DropDownButton.Button.ToggleFlyout | src/components/Controls/DropDownButton/DropDownButton.tsx:48-50 | negates the flag |
| DropDownButton.Button.OpenFlyout | src/components/Controls/DropDownButton/DropDownButton.tsx:42 | opens |
| DropDownButton.Button.CloseFlyout | src/components/Controls/DropDownButton/DropDownButton.tsx:43 | closes |
| DropDownButton.Button.Click | src/components/Controls/DropDownButton/DropDownButton.tsx:89-92 | the mount-time caller's Click first, when given, then the toggle |
| DropDownButton.Button.OverlayClick | src/components/Controls/DropDownButton/DropDownButton.tsx:99-106 | the overlay exists only while open; it prevents the default, stops propagation and closes |
| DropDownButton.Button.DocumentMouseUp | src/components/Controls/DropDownButton/DropDownButton.tsx:52-78 | as written: an open flyout closes iff the mouseup test holds for the mounted flyout area with the button's element unknown |
| DropDownButton.Button.DocumentMouseUpCorrected | src/components/Controls/DropDownButton/DropDownButton.tsx:52-78 | the same with the button's element known, so a target in the button is spared |
| DropDownButton.ButtonClickOnOpenFlyout | src/components/Controls/DropDownButton/DropDownButton.tsx:52-92 | as written, pressing and releasing the button of an open flyout leaves it open iff it has a flyout child |
| DropDownButton.ButtonClickOnOpenFlyoutCorrected | src/components/Controls/DropDownButton/DropDownButton.tsx:52-92 | with the corrected test, the same press and release always closes the flyout |
| DropDownButton.MouseUpWithoutFlyoutChild | src/components/Controls/DropDownButton/DropDownButton.tsx:107-113 | without a flyout child no mouseup closes the open flyout |
| DropDownButton.Render | src/components/Controls/DropDownButton/DropDownButton.tsx:84-117 | the `aria-expanded` prop passed to `Button` and the overlay follow the flag; the flyout area shows the first flyout child iff open and one exists |
| DialogsMenuFlyoutItem.Activation | src/components/Dialogs/MenuFlyout/MenuFlyoutItem.tsx:22-30 | disabled does nothing; otherwise Click once when given, then closeFlyout once iff AutoClose and available, in that order |
| DialogsMenuFlyoutItem.HandleClick | src/components/Dialogs/MenuFlyout/MenuFlyoutItem.tsx:22-30 | the click handler's calls are the activation |
| DialogsMenuFlyoutItem.HandleKeyDown | src/components/Dialogs/MenuFlyout/MenuFlyoutItem.tsx:38-49 | Enter/Space on an enabled item prevent the default and then activate; everything else does nothing |
| DialogsMenuFlyoutItem.Render | src/components/Dialogs/MenuFlyout/MenuFlyoutItem.tsx:32-52 | disabled iff class has ` disabled` iff tab index −1; shows the children or else the text |
| ControlsMenuFlyoutItem.HandleClick | src/components/Controls/MenuFlyout/MenuFlyoutItem.tsx:10-12 | Action once iff given, nothing else |
| ControlsMenuFlyoutItem.HandleKeyDown | src/components/Controls/MenuFlyout/MenuFlyoutItem.tsx:21-26 | Enter/Space run the action before preventing the default; other keys do nothing |
| ControlsMenuFlyoutItem.AriaLabel | src/components/Controls/MenuFlyout/MenuFlyoutItem.tsx:18 | the text is the aria-label exactly when children are shown |
| ControlsMenuFlyoutItem.Content | src/components/Controls/MenuFlyout/MenuFlyoutItem.tsx:28 | shows the children or else the text |
| CheckStates.Normalize | src/components/Controls/CheckBox/CheckBox.tsx:50 | three-state keeps the value; two-state reads null as false |
| CheckStates.TriggerCallback | src/components/Controls/ToggleButton/ToggleButton.tsx:44-48 | at most one callback: the one matching the state, when supplied |
| CheckStates.UserToggle | src/components/Controls/ToggleButton/ToggleButton.tsx:51 | `state !== true`: never null; true iff the state was not true |
| CheckStates.UserToggleTwice | src/components/Controls/ToggleButton/ToggleButton.tsx:51 | two toggles restore a definite state and turn null into false |
| CheckStates.Initial | src/components/Controls/CheckBox/CheckBox.tsx:40 | `IsChecked` defaults to false only when absent |
| CheckBox.AriaChecked | src/components/Controls/CheckBox/CheckBox.tsx:79 | `mixed` / `true` / `false` for null / true / false |
| CheckBox.NativeChecked | src/components/Controls/CheckBox/CheckBox.tsx:87 | the input is checked iff the state is true |
| CheckBox.CheckBox.Valid | src/components/Controls/CheckBox/CheckBox.tsx:62-66 | the DOM `indeterminate` flag is set exactly when the state is null |
| CheckBox.CheckBox.constructor | src/components/Controls/CheckBox/CheckBox.tsx:33-46 | the initial state, with the DOM indeterminate flag in step |
| CheckBox.CheckBox.SetChecked | src/components/Controls/CheckBox/CheckBox.tsx:49-55 | stores the normalised value, fires its callback and keeps the DOM flag in step |
| CheckBox.CheckBox.GetChecked | src/components/Controls/CheckBox/CheckBox.tsx:56 | the current state, null exactly while the DOM checkbox is indeterminate |
| CheckBox.CheckBox.HandleChange | src/components/Controls/CheckBox/CheckBox.tsx:68-73 | the user toggle, its callback, and the DOM flag cleared |
| CheckBox.LabelClassAsWritten | src/components/Controls/CheckBox/CheckBox.tsx:77 | as written, any `Classes` object yields `checkbox-label [object Object]` |
| CheckBox.LabelClassIgnoresClasses | src/components/Controls/CheckBox/CheckBox.tsx:77 | the written class is the same meaningless token for every style object |
| CheckBox.LabelClass | src/components/Controls/CheckBox/CheckBox.tsx:77 | corrected: the caller's class names follow one space, and nothing is added when they are empty |
| ToggleButton.Style | src/components/Controls/ToggleButton/ToggleButton.tsx:61 | the class is trimmed; `toggle` alone without a style; `toggle ` and a trimmed style verbatim otherwise |
| ToggleButton.AriaChecked | src/components/Controls/ToggleButton/ToggleButton.tsx:62 | `mixed` for null, else the boolean |
| ToggleButton.ToggleButton.constructor | src/components/Controls/ToggleButton/ToggleButton.tsx:21-33 | the initial state and the three-state default; the stored click handler sees the initial state |
| ToggleButton.ToggleButton.SetChecked | src/components/Controls/ToggleButton/ToggleButton.tsx:36-40 | stores the normalised value and fires its callback |
| ToggleButton.ToggleButton.GetChecked | src/components/Controls/ToggleButton/ToggleButton.tsx:41 | the current state, as left by the constructor, SetChecked or a click |
| ToggleButton.ToggleButton.HandleClick | src/components/Controls/ToggleButton/ToggleButton.tsx:50-59 | as written: the handler `ButtonBase` stored at mount toggles the state seen at mount, whatever the state is now, and fires its callback, never `Indeterminate` |
| ToggleButton.ToggleButton.HandleClickCorrected | src/components/Controls/ToggleButton/ToggleButton.tsx:50-54 | the intended click: the user toggle of the current state and its callback, never `Indeterminate` |
| ToggleButton.TwoClicksAsWritten | src/components/Controls/ToggleButton/ToggleButton.tsx:50-59 | two clicks from the default `false` leave the button checked both times, with `Checked` fired twice |
| ToggleButton.TwoClicksCorrected | src/components/Controls/ToggleButton/ToggleButton.tsx:50-54 | with the corrected click, the two clicks check and then uncheck, firing `Checked` then `Unchecked` |
| ButtonBase.ModeOf | src/components/Controls/ButtonBase.ts:48-70 | click fires in Release, mousedown in Press and mouseenter in Hover |
| ButtonBase.Button.constructor | src/components/Controls/ButtonBase.ts:22-30 | enabled, Release and Primary by default; content is `Content`, else children, else `''` |
| ButtonBase.Button.SetContent | src/components/Controls/ButtonBase.ts:37-41 | `getContent` then returns the new content |
| ButtonBase.Button.GetContent | src/components/Controls/ButtonBase.ts:32-35 | the content stored by the constructor or the last SetContent |
| ButtonBase.Button.GetStyle | src/components/Controls/ButtonBase.ts:43-46 | the style fixed by the constructor |
| ButtonBase.Button.HandleMouse | src/components/Controls/ButtonBase.ts:48-70 | fires the handler once iff enabled, with a handler, and in the event's mode |
| ButtonBase.Button.HandleKeyPress | src/components/Controls/ButtonBase.ts:72-83 | Enter/Space prevent the default in every mode and fire the handler except in Hover |
| ButtonBase.ExactlyOneMouseEventFires | src/components/Controls/ButtonBase.ts:48-70 | an enabled button with a handler fires on exactly one of the three mouse events |
| ButtonHandlers.HandleClick | src/components/Button/handlers.ts:12-17 | onClick once iff given |
| ButtonHandlers.HandleKeyPress | src/components/Button/handlers.ts:19-28 | Enter/Space when not disabled prevent the default and act as a click; else nothing |
| ButtonHandlers.KeyPressAtMostClick | src/components/Button/handlers.ts:19-28 | a key press never calls onClick more than a click, and a disabled button prevents nothing |
| HyperlinkButton.Style | src/components/Controls/HyperlinkButton/HyperlinkButton.tsx:33 | the class is trimmed; `hyperlink` alone without a style; `hyperlink ` and a trimmed non-empty style verbatim |
| HyperlinkButton.HandleClick | src/components/Controls/HyperlinkButton/HyperlinkButton.tsx:15-27 | a truthy link opens `_blank` instead of Click; Command runs last whenever given |
| ButtonImage.PositionClass | src/components/Controls/Button/Button.Image.tsx:13-18 | `end` iff the placement is `Right` |
| ButtonImage.ClassName | src/components/Controls/Button/Button.Image.tsx:19 | `image <position>`, with the style appended after a space iff it is non-empty |
| ButtonImage.Render | src/components/Controls/Button/Button.Image.tsx:11-21 | src passed through, alt defaults to `''`, style defaults to an 18 px square |
| ButtonTypes.Defaults | src/components/Button/types.ts:11-20 | the seven default keys and their values: `children` null, `onClick` and `label` undefined, `disabled` false, `type` `button`, `variant` `secondary`, `className` empty |
| ButtonTypes.DefaultButtonProps | src/components/Button/types.ts:11-20 | overrides win, the other defaults stay, and the keys are the union |
| ButtonTypes.DefaultsWithoutOverrides | src/components/Button/types.ts:11-20 | no overrides give the defaults, each of the seven values read back; an explicit `undefined` still overrides |
| UIElements.LayoutManager.constructor | src/components/UIElement.ts:203-214 | both queues start empty |
| UIElements.MeasureCore | src/components/UIElement.ts:130-132 | a plain element desires no space |
| UIElements.AreRectEqual | src/components/UIElement.ts:149-152 | equal iff the rectangles are equal |
| UIElements.UIElement.constructor | src/components/UIElement.ts:9-58 | visible, never measured or arranged, clean passes, caches at defaults, flagged `IsUIElement`, no listener |
| UIElements.UIElement.SetFlags | src/components/UIElement.ts:85-89 | sets one flag and keeps the others |
| UIElements.UIElement.IsMeasureValid | src/components/UIElement.ts:114-116 | valid exactly while no measure is pending |
| UIElements.UIElement.IsArrangeValid | src/components/UIElement.ts:118-120 | valid exactly while no arrange is pending |
| UIElements.UIElement.InvalidateMeasure | src/components/UIElement.ts:91-96 | marks measure dirty and queues the element on its first invalidation only, keeping each queue free of duplicates |
| UIElements.UIElement.InvalidateArrange | src/components/UIElement.ts:98-103 | the same for the arrange pass |
| UIElements.UIElement.SetVisibility | src/components/UIElement.ts:109-112 | stores the visibility and invalidates the measure pass |
| UIElements.UIElement.Measure | src/components/UIElement.ts:122-128 | collapsed desires nothing; otherwise `MeasureCore` |
| UIElements.UIElement.Arrange | src/components/UIElement.ts:134-142 | runs `ArrangeCore` iff not collapsed and (dirty or a different rectangle); otherwise keeps rectangle and size |
| UIElements.UIElement.ArrangeCore | src/components/UIElement.ts:144-147 | stores the rectangle and its size as the render size |
| UIElements.UIElement.AddEventListener | src/components/UIElement.ts:164-168 | only `layoutUpdated` is kept, replacing the previous listener |
| UIElements.UIElement.RemoveEventListener | src/components/UIElement.ts:170-174 | clears the `layoutUpdated` listener whichever is named |
| UIElements.UIElement.TriggerLayoutUpdate | src/components/UIElement.ts:176-184 | calls the stored listener, if any |
| UIElements.UIElement.OnChildDesiredSizeChanged | src/components/UIElement.ts:198-200 | invalidates the parent's measure pass |
| UIElements.InvalidateRepeatedlyQueuesOnce | src/components/UIElement.ts:91-112 | three invalidations queue the element once and leave the arrange queue empty |
| UIElements.TwoElementsQueueInOrder | src/components/UIElement.ts:91-96 | elements are queued in invalidation order |
| UIElements.ArrangeSameRect | src/components/UIElement.ts:134-147 | a repeated rectangle is skipped while clean and re-arranged once dirty |
| UIElements.RemoveAnyListenerSilences | src/components/UIElement.ts:164-180 | removing a different listener still silences the event |
| FrameworkElements.ApplyTemplateHooks | src/components/FrameworkElement.ts:42-54 | pre-hook first and post-hook last, with `OnApplyTemplate` between them iff the visuals are created |
| FrameworkElements.FrameworkElement.constructor | src/components/FrameworkElement.ts:4-13 | a fresh element as `UIElement` makes it, no style, options off, no template child |
| FrameworkElements.FrameworkElement.SetStyle | src/components/FrameworkElement.ts:19-22 | as written: stores the style and reports null as the old style |
| FrameworkElements.FrameworkElement.SetStyleCorrected | src/components/FrameworkElement.ts:19-22 | corrected: reports the replaced style |
| FrameworkElements.FrameworkElement.SetUseLayoutRounding | src/components/FrameworkElement.ts:28-31 | stores the option and invalidates the measure pass |
| FrameworkElements.FrameworkElement.SetOverridesDefaultStyle | src/components/FrameworkElement.ts:37-40 | stores the option and invalidates the measure pass |
| FrameworkElements.FrameworkElement.ApplyTemplate | src/components/FrameworkElement.ts:42-54 | creates the visuals iff not yet created, with the hooks in order |
| FrameworkElements.FrameworkElement.VisualChildrenCount | src/components/FrameworkElement.ts:80-82 | one iff there is a template child |
| FrameworkElements.FrameworkElement.SetTemplateChild | src/components/FrameworkElement.ts:88-98 | the same child changes nothing; a new one removes the old child first, then adds the new one |
| FrameworkElements.FrameworkElement.ParentLayoutInvalidated | src/components/FrameworkElement.ts:108-110 | invalidates the measure pass |
| FrameworkElements.ApplyTemplateTwice | src/components/FrameworkElement.ts:42-54 | the second application creates nothing and calls only the pre- and post-hooks |
| FrameworkElements.ReplaceTemplateChild | src/components/FrameworkElement.ts:80-98 | replacing removes before adding and leaves one child; clearing leaves none |
| FrameworkElements.SecondStyleChange | src/components/FrameworkElement.ts:19-22 | as written the hook sees null as the old style; corrected it sees the first style |
| FrameworkElements.LayoutOptionsQueueOnce | src/components/FrameworkElement.ts:28-40 | changing both options queues the element once |
| Controls.Flip | src/components/Controls/Control.ts:69 | the other visibility |
| Controls.Control.constructor | src/components/Controls/Control.ts:15-21 | enabled, visible and unfocused unless given |
| Controls.Control.SetIsEnabled | src/components/Controls/Control.ts:28-32 | stores the flag and re-renders once |
| Controls.Control.SetVisibility | src/components/Controls/Control.ts:39-43 | stores the visibility and re-renders once |
| Controls.Control.Focus | src/components/Controls/Control.ts:45-49 | focused, and re-renders once |
| Controls.Control.Blur | src/components/Controls/Control.ts:51-55 | unfocused, and re-renders once |
| Controls.Control.GetIsEnabled | src/components/Controls/Control.ts:23-26 | the enabled flag last stored by the constructor or SetIsEnabled |
| Controls.Control.GetVisibility | src/components/Controls/Control.ts:34-37 | the visibility last stored by the constructor or SetVisibility |
| Controls.Control.GetIsFocused | src/components/Controls/Control.ts:57-60 | the focus flag last stored by the constructor, Focus or Blur |
| Controls.Control.ToggleIsEnabled | src/components/Controls/Control.ts:62-65 | negates the flag, and re-renders once |
| Controls.Control.ToggleVisibility | src/components/Controls/Control.ts:67-70 | flips the visibility, and re-renders once |
| Controls.ToggleTwiceRestores | src/components/Controls/Control.ts:62-70 | toggling both settings twice restores them after four renders |
| Controls.FocusThenBlur | src/components/Controls/Control.ts:45-60 | focus and blur move only the focus flag |
| ControlTemplates.ValidateTargetType | src/components/Controls/ControlTemplate.ts:40-47 | accepts iff a type whose prototype is a Control, with a distinct message for null and for a wrong type |
| ControlTemplates.TriggerCollection.constructor | src/components/Controls/ControlTemplate.ts:5-6 | empty and open |
| ControlTemplates.TriggerCollection.Add | src/components/Controls/ControlTemplate.ts:8-13 | appends when open; once sealed it throws and changes nothing |
| ControlTemplates.TriggerCollection.Seal | src/components/Controls/ControlTemplate.ts:15-17 | sealed |
| ControlTemplates.TriggerCollection.Length | src/components/Controls/ControlTemplate.ts:19-21 | the number of triggers |
| ControlTemplates.ControlTemplate.constructor | src/components/Controls/ControlTemplate.ts:25-27 | no target type, no triggers, not sealed |
| ControlTemplates.ControlTemplate.TargetType | src/components/Controls/ControlTemplate.ts:50-52 | the type last accepted by SetTargetType, or none |
| ControlTemplates.ControlTemplate.SetTargetType | src/components/Controls/ControlTemplate.ts:54-58 | validation first, then the sealed check; a throw changes nothing; otherwise stores the type |
| ControlTemplates.ControlTemplate.CheckSealed | src/components/Controls/ControlTemplate.ts:83-87 | throws iff sealed |
| ControlTemplates.ControlTemplate.Triggers | src/components/Controls/ControlTemplate.ts:61-69 | lazily creates one collection, sealed iff the template is, and returns the same one afterwards |
| ControlTemplates.ControlTemplate.Seal | src/components/Controls/ControlTemplate.ts:90-95 | seals the template and any existing collection, keeping its triggers |
| ControlTemplates.ControlTemplate.ValidateTemplatedParent | src/components/Controls/ControlTemplate.ts:72-80 | accepts iff the parent is a Control whose template is this one, with a message for each refusal |
| ControlTemplates.NewControlTemplate | src/components/Controls/ControlTemplate.ts:32-37 | no type gives an empty template; a refused type throws its validation error; an accepted type is stored |
| ControlTemplates.SealedTemplateRejects | src/components/Controls/ControlTemplate.ts:54-95 | after sealing, a valid type and triggers are refused, whether the collection came before or after |
| ControlTemplates.ControlItselfRefused | src/components/Controls/ControlTemplate.ts:30-47 | `Control` itself, the default target type, is refused; a subclass is accepted |
| Names.NameRegistry.constructor | src/components/Names.ts:3 | the registry starts empty |
| Names.NameRegistry.GetByName | src/components/Names.ts:20-22 | the element registered under the name, iff any |
| Names.NameRegistry.RemoveByName | src/components/Names.ts:28-30 | forgets that name only |
| Names.Names.constructor | src/components/Names.ts:5-8 | registers the element under the name, replacing any previous one |
| Names.Names.SetName | src/components/Names.ts:14-18 | unregisters the old name, then registers the element under the new one |
| Names.Names.GetName | src/components/Names.ts:10-12 | the current name |
| Names.Names.IsNamed | src/components/Names.ts:24-26 | iff the name equals |
| Names.RenameMovesEntry | src/components/Names.ts:14-22 | after a rename the new name finds the element, the old finds nothing, and others are untouched |
| Names.SharedNameRenamed | src/components/Names.ts:5-18 | a second holder of a name takes it over, and renaming it unregisters the name for both |
| JsDates.DaysInYear | src/components/Calendar/CalendarBody.tsx:17 | 366 iff a Gregorian leap year, else 365 |
| JsDates.DayFromYearStep | src/components/Calendar/CalendarBody.tsx:17 | consecutive years start `DaysInYear` days apart |
| JsDates.DaysInMonth | src/components/Calendar/CalendarBody.tsx:21 | 28..31; February has 29 iff leap; April, June, September and November have 30 |
| JsDates.PrevMonth | src/utils/dateUtils.ts:10-14 | the previous month stays in 0..11 |
| JsDates.NextMonth | src/utils/dateUtils.ts:21-25 | the next month stays in 0..11 |
| JsDates.NextMonthStart | src/utils/dateUtils.ts:21-25 | a month starts where the previous one ends, across years too |
| JsDates.MakeDay | src/components/Calendar/CalendarBody.tsx:16-17 | the month carries whole years, then the date counts from that month's first day |
| JsDates.WeekDay | src/components/Calendar/CalendarBody.tsx:19 | 0..6, congruent to day + 4 modulo 7 (1 January 1970 was a Thursday) |
| JsDates.DateInMonth | src/utils/dateUtils.ts:12 | the normalised date is a valid civil date |
| JsDates.DateInMonthDayNumber | src/utils/dateUtils.ts:12 | its day number is the month's first day plus `day − 1`, however far out `day` is |
| JsDates.FullYear | src/utils/dateUtils.ts:5-6 | the `Date` constructor's year rule: 0..99 become 1900..1999, any other year is kept, and the result is never a two-digit year |
| JsDates.NewDate | src/utils/dateUtils.ts:5-6 | `new Date(y, m, d)` is a valid civil date |
| JsDates.NewDateDayNumber | src/utils/dateUtils.ts:5-6 | and it lies on day `MakeDay(FullYear(y), m, d)`: the two-digit year rule first, then the month carry |
| JsDates.NewDateOfFullYear | src/utils/dateUtils.ts:5-6 | passing the full year instead of the year gives the same date |
| JsDates.TwoDigitYears | src/utils/dateUtils.ts:5-6 | `new Date(50, 0, 1)` is 1 January 1950, a Sunday; day 0 of month 2 of year 0 is 28 February 1900 |
| JsDates.NewDateNormalised | src/utils/dateUtils.ts:17 | a month in 0..11 is not carried, and the year is the full year |
| JsDates.NewDateInMonth | src/utils/dateUtils.ts:16-19 | a day within the month of the full year is that day of that month |
| JsDates.NewDatePrevMonth | src/utils/dateUtils.ts:10-14 | day 0 and earlier fall back into the previous month |
| JsDates.NewDateNextMonth | src/utils/dateUtils.ts:21-25 | days past the end run into the next month |
| JsDates.NewDateMonthAfter | src/utils/dateUtils.ts:23 | day `i` of `month + 1` is day `i` of the next month |
| JsDates.LastDayOfMonth | src/components/Calendar/CalendarBody.tsx:17 | day 0 of `month + 1` is the last day of the month |
| JsDates.KnownDates | src/components/Calendar/CalendarBody.tsx:19 | 1970-01-01 was a Thursday and 2000-01-01 a Saturday; 2000 leap, 1900 not |
| CalendarGrid.StartDay | src/components/Calendar/CalendarBody.tsx:19 | the week day of the 1st is in 0..6 |
| CalendarGrid.EndDay | src/utils/dateUtils.ts:21 | the week day of the last day is in 0..6 |
| CalendarGrid.WeekColumn | src/utils/dateUtils.ts:10-25 | counting from the Sunday before the 1st, position `k` falls on week day `k mod 7` |
| CalendarGrid.WholeWeeks | src/utils/dateUtils.ts:21-25 | the leading and trailing padding complete whole weeks |
| CalendarGrid.GridConsecutive | src/utils/dateUtils.ts:10-25 | grid dates are consecutive days, and column `k mod 7` is their week day |
| CalendarGrid.GridCells | src/utils/dateUtils.ts:10-25 | leading cells hold the previous month's last days, then the month, then the next month from day 1, all around the full year |
| CalendarGrid.MonthEnds | src/components/Calendar/CalendarBody.tsx:16-21 | the 1st and the last day, and their week days, read back as the source expects |
| CalendarGrid.TrailingDate | src/utils/dateUtils.ts:21-25 | day `i` of `month + 1` continues the month at `length + i` |
| CalendarGrid.PaddedGridShape | src/utils/dateUtils.ts:1-28 | the padded grid's length is a multiple of 7 between 28 and 42 |
| CalendarBody.CalendarDays | src/components/Calendar/CalendarBody.tsx:13-26 | as many blanks as the week day of the 1st, then days 1..length in order, each at its grid position; a year 0..99 shows the month of 1900 + year |
| CalendarBody.CellClass | src/components/Calendar/CalendarBody.tsx:31 | blanks are `calendar-day empty`; days are `calendar-day ` |
| DateUtils.LeadingDays | src/utils/dateUtils.ts:10-14 | the first loop yields exactly the start day's count of entries, the previous month's last days in order, none current |
| DateUtils.CurrentDays | src/utils/dateUtils.ts:16-19 | the second loop keeps what came before and appends days 1..length of the month, all current |
| DateUtils.TrailingDays | src/utils/dateUtils.ts:21-25 | the third loop keeps what came before and appends days 1..(6 − end day) of `month + 1`, none current |
| DateUtils.GetDaysInMonth | src/utils/dateUtils.ts:1-28 | entry `k` is the grid date at `k`; the length is the padded grid's, flagged current exactly for the month's own days; a year 0..99 gives the grid of 1900 + year |
| DateUtils.DayLabels | src/utils/dateUtils.ts:30-32 | seven labels from Sunday to Saturday |
| DateUtils.LabelsMatchWeekDays | src/utils/dateUtils.ts:30-32 | the labels name `getDay` values: 1970-01-01 is Thu, and every grid's first column is Sun |

## Left out

- Rendering and reconciliation by React and the DOM are not modelled. Markup, CSS classes beyond
  those listed above, `key` props and the SCSS imports are out.
- Timers are events: the Dialogs flyout's 300 ms timer is the `CloseTimerFires` event, with no clock.
- The ordering of handlers within one browser tick is not modelled. For example, a `DropDownButton`
  click's bubbling runs against its document `mouseup` listener. Each handler is a separate event.
- Effects that depend on `Target` or `Placement` changes in the Dialogs flyout are not modelled;
  the position is recomputed on every render, and those inputs are parameters.
- `console.log` calls are left out, in `DropdownTrigger` and `ensureElementVisibility`.
- `RepeatButton`, `DropdownMenuAction`, `DropdownMenuSeparator`, `ErrorBoundary`, `DatePicker`,
  `Calendar`/`CalendarHeader` and the pass-through wrappers (`Button.tsx`, `Button.logic.ts`,
  `Icon`, `Label`, the `*.Content`/`*.Flyout` wrappers) are outside the modelled core.
- The build scripts (`rollup.config.mjs`, `copy-scss.js`, `utils/*.js`) are outside the modelled core.
- `ControlBoolFlags`, `daysOfWeek` and `buttonSizes` are data files with no behaviour of their own.
- `UIElement.RegisterEvents`, `RenderOptions` and `UIPropertyMetadata` are left out. They are stubs
  whose callbacks are never invoked.
- `FrameworkElement.BeginStoryboard` and `BeginStoryboardWithOptions` are left out. They only
  forward to a caller-supplied storyboard object.
- `FrameworkElement` extends `UIElement` in the source. Here it owns a `UIElement` (composition), so
  aliasing between a framework element and its own base object is not represented.
- The `Visibility` enum of src/enums is not part of this model. It is taken to have `Visible`,
  `Hidden` and `Collapsed`.
- `HyperlinkButton.HandleClick`: it is a function of the props it is given. The component
  renders a `ButtonBase`, which stores the first render's handler, so the `NavigateUri`, `Click`
  and `Command` a click uses are those of the first render; later prop changes are not seen.
- `ToggleButton.AriaChecked`: the value is computed and passed to `Button`, but the `Button` class
  (src/components/Controls/Button/Button.tsx:27-40) never renders it.
- `DropDownButton.Render`: `aria-expanded` and `aria-haspopup` are props passed to the `Button`
  class, whose render (Button.tsx:27-40) never outputs them, so neither reaches the DOM. The model
  states the prop passed (`ariaExpandedProp`), not a rendered attribute.
- `DropDownButton.Button.Click`: `ButtonBase` keeps the `Click` closure of the first render
  (src/components/Controls/ButtonBase.ts:26), so the caller's `Click` that runs is the one given at
  mount; `hasCallerClick` stands for that one, and later prop changes are not seen. The toggle
  itself uses a functional update and is unaffected.
- `Control` as a class and `instanceof` checks are represented by booleans: `prototypeIsControl`
  and `parentIsControl`. As written, src/components/Controls/ControlTemplate.ts:2 imports
  `{ Control }`, but src/components/Controls/Control.ts:73 exports `Control` only as the default.
  So the `instanceof Control` tests at ControlTemplate.ts:44 and :73 would have `undefined` on
  their right-hand side and throw a `TypeError`. The model takes the class the import evidently
  means; it does not model that `TypeError`.
- `ControlTemplates.ControlTemplate.ValidateTemplatedParent`: the parent's template is a parameter.
  In the source neither `FrameworkElement` nor `Control` declares a `Template` member, so
  `templatedParent.Template` is `undefined` and the check at ControlTemplate.ts:77 always throws.
  The model covers that case as a null template, which it refuses.
- `DropdownMenu.tsx:8` declares `DropdownContext` without `export`, yet the trigger, content,
  context and sub-menu files import `{ DropdownContext }` from it. The model takes the exported
  context those imports evidently mean.
- `DropDownButton.tsx:11` imports `ButtonProps` and `ButtonRef` from
  src/components/Controls/Button/Button.tsx, which exports neither; only types are affected.
- `UIElements.AreRectEqual`: coordinates are reals, so the JavaScript `NaN !== NaN` case is not
  modelled. In the source a rectangle holding `NaN` never equals itself and is always arranged
  again.
- `UIElements.UIElement.ArrangeCore`: the source stores the caller's rectangle object by
  reference. The model stores its value, so later mutation of that object by the caller is not
  represented.
- `ControlsFlyout.FlyoutBase`: `forceUpdate` is a no-op in the source and is not modelled.
- `ButtonBase.Button.SetContent`: its `forceUpdate` is React's own and re-renders the mounted button with the new content (Button.tsx:38); the re-render is left out with the rest of rendering, and the model states only what `getContent` then returns.
- `Controls.Control` counts `forceUpdate` calls instead.
- `VisibilityHelper.ParseOffset`: only the empty string, `auto` and pixel lengths are modelled.
  Other CSS values `parseFloat` might meet are not.
- `VisibilityHelper.EnsureElementVisibility`: floating-point rounding is not modelled; lengths are
  exact reals.
- `DialogFlyout.PlacementTable`: `px` strings are modelled as their numbers.
- `ControlsFlyout.CalculatePosition`: the same applies to its `px` strings.
- Calendar dates are read in a time zone equal to UTC. The ECMAScript time-value range (±8.64e15 ms)
  and invalid dates are not modelled.
- `CheckBox.CheckBox` is without `FocusCheckBox`. Focus is a DOM side effect.
- `DropdownMenuTrigger.Render`: the `classnames` package is modelled only for a string base and
  `{ active }`.

## Findings

| source | as written | input that shows it | evidently intended | confidence | as-written member | corrected member |
|---|---|---|---|---|---|---|
| src/components/Controls/ToggleButton/ToggleButton.tsx:50-59 | `ButtonBase` stores `Click` once in its constructor (ButtonBase.ts:26), so every click runs the first render's `handleClick`, which reads the initial `checkedState` | mount without `IsChecked`; click twice: the state stays `true` and `Checked` fires twice | each click toggles the current state | not executed; high | ToggleButton.TwoClicksAsWritten | ToggleButton.TwoClicksCorrected |
| src/components/Controls/DropDownButton/DropDownButton.tsx:57-61 | `buttonRef.current` is the `Button` class instance, which has no `Element`, so a target in the button is never spared | open flyout with a flyout child; press and release on the button, if the overlay's stylesheet lets the button take the click: the mouseup closes the flyout and the click reopens it | a mouseup on the button is left to the button's click, which closes the flyout | not executed; medium | DropDownButton.ButtonClickOnOpenFlyout | DropDownButton.ButtonClickOnOpenFlyoutCorrected |
| src/components/DropdownMenu/DropdownMenuContent.tsx:41-51 | `triggerRef` is a local ref that is never attached, so the trigger is never spared by the outside-click test | open menu; mousedown and click on the `DropdownTrigger` | a mousedown on the trigger leaves the menu to the trigger's click, which closes it | not executed; high | DropdownMenuContent.TriggerClickOnOpenMenu | DropdownMenuContent.TriggerClickOnOpenMenuCorrected |
| src/components/Controls/CheckBox/CheckBox.tsx:77 | `' ' + Classes` concatenates a style object | `Classes = { color: 'red' }` gives `checkbox-label [object Object]` | the caller's class names appended after a space | not executed; high | CheckBox.LabelClassIgnoresClasses | CheckBox.LabelClass |
| src/components/FrameworkElement.ts:19-22 | `OnStyleChanged(null, value)` reports null as the previous style | set style A, then B: the hook receives (null, B) | the hook receives (A, B) | not executed; medium | FrameworkElements.SecondStyleChange | FrameworkElements.FrameworkElement.SetStyleCorrected |
| src/components/Dialogs/Flyout/Flyout.tsx:92 | `getFlyoutPosition` runs on every render before the `shouldRender` check and dereferences `flyoutRef.current!` | closed flyout, mounted `Target`, `Placement` Top; call `Show()`: the next render reads `offsetHeight` of null | no coordinates until the flyout element is mounted, as the Controls flyout guards `flyoutRef.current` | not executed; high | DialogFlyout.ShowWithSizedPlacementThrows | DialogFlyout.ShowRendersCorrected |
