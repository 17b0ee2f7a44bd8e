/** `ButtonBase` (src/components/Controls/ButtonBase.ts): a button whose stored click handler
    fires on click, mousedown or mouseenter depending on its click mode, and on Enter/Space. */
module ButtonBase {
  import opened Wrappers
  import opened ReactNodes
  import opened Effects

  datatype ClickMode = Release | Press | Hover
  datatype ButtonStyle = Primary | Secondary | Accent

  /** The mouse events the base handles. */
  datatype MouseEvent = ClickEvent | MouseDown | MouseEnter

  /** The mode in which each mouse event fires the handler. */
  function ModeOf(e: MouseEvent): (m: ClickMode)
    ensures e == ClickEvent <==> m == Release
    ensures e == MouseDown <==> m == Press
    ensures e == MouseEnter <==> m == Hover
  {
    match e
    case ClickEvent => Release
    case MouseDown => Press
    case MouseEnter => Hover
  }

  predicate IsActivationKey(key: string) {
    key == "Enter" || key == " "
  }

  /** The props the constructor reads; absent props are `None`. */
  datatype BaseProps = BaseProps(content: Node, hasClick: bool, isEnabled: Option<bool>,
                                 clickMode: Option<ClickMode>, style: Option<ButtonStyle>, children: Node)

  class Button {
    const isEnabled: bool
    const hasClickHandler: bool
    const clickMode: ClickMode
    var content: Node
    const style: ButtonStyle

    /** Defaults: enabled, Release mode, Primary style; the content is `Content`, else
        `children`, else `''`. */
    constructor (props: BaseProps)
      ensures isEnabled == props.isEnabled.GetOr(true)
      ensures hasClickHandler == props.hasClick
      ensures clickMode == props.clickMode.GetOr(Release)
      ensures style == props.style.GetOr(Primary)
      ensures Truthy(props.content) ==> content == props.content
      ensures !Truthy(props.content) && Truthy(props.children) ==> content == props.children
      ensures !Truthy(props.content) && !Truthy(props.children) ==> content == Text("")
    {
      isEnabled := props.isEnabled.GetOr(true);
      hasClickHandler := props.hasClick;
      clickMode := props.clickMode.GetOr(Release);
      content := Or(Or(props.content, props.children), Text(""));
      style := props.style.GetOr(Primary);
    }

    /** `getContent`: the content stored by the constructor or the last `setContent`. */
    function GetContent(): (c: Node)
      reads this
      ensures c == content
    {
      content
    }

    /** `setContent` replaces what `getContent` returns and nothing else. */
    method SetContent(c: Node)
      modifies this`content
      ensures GetContent() == c
    {
      content := c;
    }

    /** `getStyle`: the style fixed by the constructor. */
    function GetStyle(): (s: ButtonStyle)
      ensures s == style
    {
      style
    }

    /** `handleClick`, `handleMouseDown` and `handleMouseEnter`: each fires the handler once
        exactly when the button is enabled, has a handler, and is in that event's mode. */
    method HandleMouse(e: MouseEvent) returns (trace: seq<Effect>)
      ensures |trace| == Count(trace, InvokeHandler)
      ensures Count(trace, InvokeHandler) == (if isEnabled && hasClickHandler && clickMode == ModeOf(e) then 1 else 0)
    {
      trace := [];
      if isEnabled && hasClickHandler {
        match e {
          case ClickEvent =>
            if clickMode == Release {
              trace := [InvokeHandler];
            }
          case MouseDown =>
            if clickMode == Press {
              trace := [InvokeHandler];
            }
          case MouseEnter =>
            if clickMode == Hover {
              trace := [InvokeHandler];
            }
        }
      }
    }

    /** `handleKeyPress`: on an enabled button with a handler, Enter and Space are prevented in
        every mode and then fire the handler in Press and Release modes; otherwise nothing. */
    method HandleKeyPress(key: string) returns (trace: seq<Effect>)
      ensures isEnabled && hasClickHandler && IsActivationKey(key) ==>
                trace == [PreventDefault] + (if clickMode != Hover then [InvokeHandler] else [])
      ensures !(isEnabled && hasClickHandler && IsActivationKey(key)) ==> trace == []
    {
      trace := [];
      if isEnabled && hasClickHandler && (key == "Enter" || key == " ") {
        trace := trace + [PreventDefault];
        if clickMode == Press || clickMode == Release {
          trace := trace + [InvokeHandler];
        }
      }
    }
  }

  /** On an enabled button with a handler, exactly one of the three mouse events fires it:
      the one belonging to its mode. */
  method ExactlyOneMouseEventFires(props: BaseProps) returns (fired: nat, onClick: bool, onMouseDown: bool, onMouseEnter: bool)
    requires props.isEnabled != Some(false) && props.hasClick
    ensures fired == 1
    ensures onClick <==> props.clickMode.GetOr(Release) == Release
    ensures onMouseDown <==> props.clickMode.GetOr(Release) == Press
    ensures onMouseEnter <==> props.clickMode.GetOr(Release) == Hover
  {
    var b := new Button(props);
    var t1 := b.HandleMouse(ClickEvent);
    var t2 := b.HandleMouse(MouseDown);
    var t3 := b.HandleMouse(MouseEnter);
    fired := |t1| + |t2| + |t3|;
    onClick, onMouseDown, onMouseEnter := t1 != [], t2 != [], t3 != [];
  }
}

/** The click and key helpers of the simple `Button` (src/components/Button/handlers.ts). */
module ButtonHandlers {
  import opened Wrappers
  import opened Effects

  /** `handleClick`: calls `onClick` once with the event when it is given. There is no
      disabled check here. */
  function HandleClick(hasOnClick: bool): (trace: seq<Effect>)
    ensures Count(trace, InvokeClick) == (if hasOnClick then 1 else 0)
    ensures |trace| == Count(trace, InvokeClick)
  {
    if hasOnClick then [InvokeClick] else []
  }

  /** `handleKeyPress`: Enter or Space on a button that is not disabled prevents the default and
      then acts as a click; everything else does nothing. */
  function HandleKeyPress(key: string, hasOnClick: bool, disabled: Option<bool>): (trace: seq<Effect>)
    ensures (key == "Enter" || key == " ") && disabled != Some(true) ==>
              trace == [PreventDefault] + HandleClick(hasOnClick)
    ensures !((key == "Enter" || key == " ") && disabled != Some(true)) ==> trace == []
  {
    if (key == "Enter" || key == " ") && !disabled.GetOr(false) then
      [PreventDefault] + HandleClick(hasOnClick)
    else []
  }

  /** A key press never calls `onClick` more often than a click, and a disabled button's key
      presses are not prevented. */
  lemma KeyPressAtMostClick(key: string, hasOnClick: bool, disabled: Option<bool>)
    ensures Count(HandleKeyPress(key, hasOnClick, disabled), InvokeClick) <= Count(HandleClick(hasOnClick), InvokeClick)
    ensures disabled == Some(true) ==> Count(HandleKeyPress(key, hasOnClick, disabled), PreventDefault) == 0
  {
    var t := HandleKeyPress(key, hasOnClick, disabled);
    if t != [] {
      assert multiset(t) == multiset([PreventDefault]) + multiset(HandleClick(hasOnClick));
    }
  }
}

/** `HyperlinkButton` (src/components/Controls/HyperlinkButton/HyperlinkButton.tsx). */
module HyperlinkButton {
  import opened Wrappers
  import opened Effects
  import opened JsStrings

  /** A truthy `NavigateUri`: present and non-empty. */
  predicate Navigates(uri: Option<string>) {
    uri.Some? && uri.value != ""
  }

  /** `handleClick`: a truthy link opens in a new window and `Click` is skipped; otherwise `Click`
      runs when given; in both cases `Command` runs last when given. */
  function HandleClick(navigateUri: Option<string>, hasClick: bool, hasCommand: bool): (trace: seq<Effect>)
    ensures Navigates(navigateUri) ==> Count(trace, OpenWindow(navigateUri.value, "_blank")) == 1
    ensures Count(trace, InvokeClick) == (if !Navigates(navigateUri) && hasClick then 1 else 0)
    ensures Count(trace, InvokeCommand) == (if hasCommand then 1 else 0)
    ensures hasCommand ==> trace[|trace| - 1] == InvokeCommand
    ensures |trace| == (if Navigates(navigateUri) || hasClick then 1 else 0) + (if hasCommand then 1 else 0)
  {
    (if Navigates(navigateUri) then [OpenWindow(navigateUri.value, "_blank")]
     else if hasClick then [InvokeClick] else [])
    + (if hasCommand then [InvokeCommand] else [])
  }

  /** `Style`: `'hyperlink ' + (Style || '')`, trimmed. */
  function Style(style: Option<string>): (s: string)
    ensures Trimmed(s)
    ensures style.None? || style == Some("") ==> s == "hyperlink"
    ensures style.Some? && style.value != "" && Trimmed(style.value) ==> s == "hyperlink " + style.value
  {
    ClassWithStyleCases("hyperlink", style.GetOr(""));
    ClassWithStyle("hyperlink", style.GetOr(""))
  }

}

/** `ButtonImage` (src/components/Controls/Button/Button.Image.tsx). */
module ButtonImage {
  import opened Wrappers

  /** The `<img>` the component renders. */
  datatype Img = Img(src: string, className: string, alt: string, style: map<string, string>)

  /** `'end'` for the placement `'Right'`, `'start'` for `'Left'` and for the default. */
  function PositionClass(placement: Option<string>): (c: string)
    ensures c == "end" <==> placement == Some("Right")
    ensures c == "start" <==> placement != Some("Right")
  {
    if placement.GetOr("start") == "Right" then "end" else "start"
  }

  /** `image <position>`, then a space and the caller's style only when it is non-empty. */
  function ClassName(placement: Option<string>, style: Option<string>): (s: string)
    ensures style.None? || style == Some("") ==> s == "image " + PositionClass(placement)
    ensures style.Some? && style.value != "" ==> s == "image " + PositionClass(placement) + " " + style.value
  {
    var st := style.GetOr("");
    "image " + PositionClass(placement) + (if st != "" then " " + st else "")
  }

  /** The rendered image: `src` passed through, `alt` defaulting to `''`, and an 18px square
      inline style unless the caller supplies one. */
  function Render(source: string, placement: Option<string>, alt: Option<string>, style: Option<string>,
                  classes: Option<map<string, string>>): (img: Img)
    ensures img.src == source
    ensures img.className == ClassName(placement, style)
    ensures alt.None? ==> img.alt == ""
    ensures alt.Some? ==> img.alt == alt.value
    ensures classes.None? ==> img.style == map["height" := "18px", "width" := "18px"]
    ensures classes.Some? ==> img.style == classes.value
  {
    Img(source, ClassName(placement, style), alt.GetOr(""),
        classes.GetOr(map["height" := "18px", "width" := "18px"]))
  }
}

/** `defaultButtonProps` (src/components/Button/types.ts). */
module ButtonTypes {
  import opened Props

  /** The defaults, including the keys given the value `undefined`. */
  function Defaults(): (d: Props)
    ensures d.Keys == {"children", "onClick", "disabled", "label", "type", "variant", "className"}
    ensures d["type"] == Str("button") && d["variant"] == Str("secondary") && d["disabled"] == Flag(false)
    ensures d["children"] == Null && d["className"] == Str("")
    ensures d["onClick"] == Undefined && d["label"] == Undefined
  {
    map["children" := Null, "onClick" := Undefined, "disabled" := Flag(false), "label" := Undefined,
        "type" := Str("button"), "variant" := Str("secondary"), "className" := Str("")]
  }

  /** `{ ...defaults, ...overrides }`. */
  function DefaultButtonProps(overrides: Props): (r: Props)
    ensures r.Keys == Defaults().Keys + overrides.Keys
    ensures forall k :: k in overrides ==> r[k] == overrides[k]
    ensures forall k :: k in Defaults() && k !in overrides ==> r[k] == Defaults()[k]
  {
    Spread(Defaults(), overrides)
  }

  /** With no overrides the defaults come back; an override given as `undefined` still
      replaces its default. */
  lemma DefaultsWithoutOverrides()
    ensures DefaultButtonProps(map[]) == Defaults()
    ensures DefaultButtonProps(map[])["type"] == Str("button")
    ensures DefaultButtonProps(map[])["variant"] == Str("secondary")
    ensures DefaultButtonProps(map[])["disabled"] == Flag(false)
    ensures DefaultButtonProps(map[])["children"] == Null
    ensures DefaultButtonProps(map[])["className"] == Str("")
    ensures DefaultButtonProps(map[])["onClick"] == Undefined
    ensures DefaultButtonProps(map[])["label"] == Undefined
    ensures DefaultButtonProps(map["disabled" := Undefined])["disabled"] == Undefined
  {
    assert DefaultButtonProps(map[]) == Defaults();
  }
}
