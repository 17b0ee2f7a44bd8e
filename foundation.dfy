/** Small datatypes shared by the whole model. */
module Wrappers {
  /** A value that may be absent: `undefined`, `null` or an unset ref in the library. */
  datatype Option<+T> = None | Some(value: T) {
    /** The value, or `default` when absent (a JavaScript default parameter or `??`). */
    function GetOr(default: T): T {
      match this
      case Some(v) => v
      case None => default
    }
  }

  /** The outcome of an operation that may throw: `Throw` carries the error message. */
  datatype Outcome = Done | Throw(message: string)
}

/** The `Placement` enumeration of src/enums/Placement.ts, with its numeric values. */
module Placements {
  datatype Placement =
    | Top | Bottom | Left | Right | Full
    | TopEdgeAlignedLeft | TopEdgeAlignedRight
    | BottomEdgeAlignedLeft | BottomEdgeAlignedRight
    | LeftEdgeAlignedTop | LeftEdgeAlignedBottom
    | RightEdgeAlignedTop | RightEdgeAlignedBottom
    | Auto

  /** The number a TypeScript numeric enum assigns to each member, in declaration order. */
  function Code(p: Placement): (n: nat)
    ensures n < 14
    ensures n == 0 <==> p == Top
  {
    match p
    case Top => 0
    case Bottom => 1
    case Left => 2
    case Right => 3
    case Full => 4
    case TopEdgeAlignedLeft => 5
    case TopEdgeAlignedRight => 6
    case BottomEdgeAlignedLeft => 7
    case BottomEdgeAlignedRight => 8
    case LeftEdgeAlignedTop => 9
    case LeftEdgeAlignedBottom => 10
    case RightEdgeAlignedTop => 11
    case RightEdgeAlignedBottom => 12
    case Auto => 13
  }

  /** Distinct members have distinct numbers. */
  lemma CodeInjective(p: Placement, q: Placement)
    ensures Code(p) == Code(q) ==> p == q
  {
  }
}

/** What the model needs of the DOM: rectangles, sizes, CSS lengths and an element's inline style. */
module Dom {
  import opened Wrappers

  /** The result of `getBoundingClientRect()`, in CSS pixels. */
  datatype Rect = Rect(top: real, left: real, right: real, bottom: real)

  /** An element's `offsetWidth` / `offsetHeight`. */
  datatype Size = Size(width: real, height: real)

  /** A CSS length as the library writes it into a style: `12px`, `50%`, `100vw`, `100vh`. */
  datatype Length = Px(px: real) | Percent(pct: real) | Vw(vw: real) | Vh(vh: real)

  /** The values of the CSS `position` property. */
  datatype CssPosition = Static | Relative | Absolute | Fixed | Sticky

  /** The inline `style` of an HTML element: the fields the library writes. */
  class InlineStyle {
    var position: Option<CssPosition>
    var top: Option<Length>
    var left: Option<Length>
    var transform: Option<string>

    constructor ()
      ensures position == None && top == None && left == None && transform == None
    {
      position, top, left, transform := None, None, None, None;
    }
  }
}

/** React values the components inspect: children/content nodes and their JavaScript truthiness. */
module ReactNodes {
  /** A `ReactNode` as far as the components look at it. */
  datatype Node = NoNode | Text(text: string) | Element(key: nat)

  /** JavaScript truthiness of a node: `undefined`/`null` and `''` are falsy, elements are truthy. */
  predicate Truthy(n: Node) {
    match n
    case NoNode => false
    case Text(s) => s != ""
    case Element(_) => true
  }

  /** `a || b` on nodes. */
  function Or(a: Node, b: Node): (r: Node)
    ensures Truthy(a) ==> r == a
    ensures !Truthy(a) ==> r == b
  {
    if Truthy(a) then a else b
  }
}

/** String helpers with ECMAScript semantics. */
module JsStrings {
  /** WhiteSpace and LineTerminator code points, as `String.prototype.trim` strips them
      (section 22.1.3.32 and section 12.2 of ECMA-262). */
  predicate IsWhiteSpace(c: char) {
    c == '\U{9}' || c == '\U{B}' || c == '\U{C}' || c == ' ' || c == '\U{A0}' || c == '\U{FEFF}'
    || c == '\U{A}' || c == '\U{D}' || c == '\U{2028}' || c == '\U{2029}'
    || c == '\U{1680}' || ('\U{2000}' <= c <= '\U{200A}') || c == '\U{202F}' || c == '\U{205F}'
    || c == '\U{3000}'
  }

  /** A string that `trim` leaves alone: empty, or neither end is white space. */
  predicate Trimmed(s: string) {
    s == [] || (!IsWhiteSpace(s[0]) && !IsWhiteSpace(s[|s| - 1]))
  }

  /** The first index at or after `i` that is not white space, or `|s|`. */
  function SkipWhiteSpace(s: string, i: nat): (n: nat)
    requires i <= |s|
    ensures i <= n <= |s|
    ensures forall k :: i <= k < n ==> IsWhiteSpace(s[k])
    ensures n == |s| || !IsWhiteSpace(s[n])
    decreases |s| - i
  {
    if i == |s| || !IsWhiteSpace(s[i]) then i else SkipWhiteSpace(s, i + 1)
  }

  /** The end of `s[lo..j]` once its trailing white space is dropped. */
  function DropTrailingWhiteSpace(s: string, lo: nat, j: nat): (n: nat)
    requires lo <= j <= |s|
    ensures lo <= n <= j
    ensures forall k :: n <= k < j ==> IsWhiteSpace(s[k])
    ensures n == lo || !IsWhiteSpace(s[n - 1])
    decreases j
  {
    if j == lo || !IsWhiteSpace(s[j - 1]) then j else DropTrailingWhiteSpace(s, lo, j - 1)
  }

  /** How many characters `trim` removes from the front of `s`. */
  function LeadingWhiteSpace(s: string): nat {
    SkipWhiteSpace(s, 0)
  }

  /** `String.prototype.trim`: the infix of `s` that neither starts nor ends with white space,
      obtained by removing only white space from both ends. */
  function Trim(s: string): (r: string)
    ensures Trimmed(r)
    ensures LeadingWhiteSpace(s) + |r| <= |s|
    ensures r == s[LeadingWhiteSpace(s)..LeadingWhiteSpace(s) + |r|]
    ensures forall k :: 0 <= k < LeadingWhiteSpace(s) ==> IsWhiteSpace(s[k])
    ensures forall k :: LeadingWhiteSpace(s) + |r| <= k < |s| ==> IsWhiteSpace(s[k])
  {
    var a := SkipWhiteSpace(s, 0);
    s[a..DropTrailingWhiteSpace(s, a, |s|)]
  }

  /** A trimmed string is its own trim. */
  lemma TrimOfTrimmed(s: string)
    requires Trimmed(s)
    ensures Trim(s) == s
  {
    assert s[0..|s|] == s;
  }

  /** `(prefix + ' ' + '').trim()` is `prefix` when the prefix is non-empty and trimmed. */
  lemma TrimPrefixSpace(prefix: string)
    requires prefix != [] && Trimmed(prefix)
    ensures Trim(prefix + " ") == prefix
  {
    var s := prefix + " ";
    assert SkipWhiteSpace(s, 0) == 0;
    assert DropTrailingWhiteSpace(s, 0, |s| - 1) == |s| - 1;
    assert s[0..|s| - 1] == prefix;
  }

  /** `(prefix + ' ' + style).trim()` keeps the style verbatim when it is non-empty and trimmed. */
  lemma TrimPrefixStyle(prefix: string, style: string)
    requires prefix != [] && Trimmed(prefix) && style != [] && Trimmed(style)
    ensures Trim(prefix + " " + style) == prefix + " " + style
  {
    var s := prefix + " " + style;
    assert s[0] == prefix[0] && s[|s| - 1] == style[|style| - 1];
    assert s[0..|s|] == s;
  }
  /** A component's class attribute `(base + ' ' + style).trim()`, as the toggle and hyperlink
      buttons build it from their own class and the caller's `Style || ''`. */
  function ClassWithStyle(base: string, style: string): (s: string)
    ensures Trimmed(s)
  {
    Trim(base + " " + style)
  }

  /** Without a caller style the class is exactly the base; a non-empty trimmed caller style is
      kept verbatim after one space. */
  lemma ClassWithStyleCases(base: string, style: string)
    requires base != [] && Trimmed(base)
    ensures style == "" ==> ClassWithStyle(base, style) == base
    ensures style != "" && Trimmed(style) ==> ClassWithStyle(base, style) == base + " " + style
  {
    if style == "" {
      assert base + " " + style == base + " ";
      TrimPrefixSpace(base);
    } else if Trimmed(style) {
      TrimPrefixStyle(base, style);
    }
  }

}

/** Observable side effects of event handlers, recorded in the order they happen. */
module Effects {
  datatype Effect =
    | PreventDefault
    | StopPropagation
    | InvokeClick          // the caller's `Click` / `onClick`
    | InvokeCommand        // the caller's `Command`
    | InvokeAction         // the caller's `Action`
    | InvokeCloseFlyout    // the enclosing flyout's `closeFlyout`
    | InvokeHandler        // a button's stored click handler
    | OpenWindow(url: string, target: string)
    | FireChecked | FireUnchecked | FireIndeterminate

  /** How many times `e` occurs in `trace`. */
  function Count(trace: seq<Effect>, e: Effect): nat {
    multiset(trace)[e]
  }

  /** Every occurrence of `a` comes before every occurrence of `b`. */
  predicate Before(trace: seq<Effect>, a: Effect, b: Effect) {
    forall i, j :: 0 <= i < |trace| && 0 <= j < |trace| && trace[i] == a && trace[j] == b ==> i < j
  }
}

/** JavaScript objects used as React props: string-keyed records combined with object spread. */
module Props {
  /** A prop value as far as the model inspects it. */
  datatype Prop =
    | Str(s: string)
    | Flag(b: bool)
    | Handler(name: string)   // a function value, identified by the handler it is
    | RefTo(name: string)     // a React ref object
    | Undefined               // a key present with the value `undefined`
    | Null

  type Props = map<string, Prop>

  /** `{ ...a, ...b }`: every key of `b` takes `b`'s value, every other key of `a` keeps its value,
      and no other key appears. */
  function Spread(a: Props, b: Props): (r: Props)
    ensures r.Keys == a.Keys + b.Keys
    ensures forall k :: k in b ==> r[k] == b[k]
    ensures forall k :: k in a && k !in b ==> r[k] == a[k]
  {
    a + b
  }
}
