/** `ensureElementVisibility` (src/utils/VisibilityHelper.ts): nudges a positioned element back
    inside the viewport, keeping `padding` pixels clear of each edge, by rewriting its inline
    `position`, `top` and `left`. */
module VisibilityHelper {
  import opened Wrappers
  import opened Dom

  /** The default of the `padding` parameter. */
  const DefaultPadding: real := 10.0

  /** A number as `parseFloat` yields it: finite, or NaN. */
  datatype Num = Finite(v: real) | NaN

  /** A computed `top` / `left` value: the empty string, `auto`, or a pixel length. */
  datatype ComputedOffset = Empty | AutoOffset | PxOffset(px: real)

  /** What `getComputedStyle` reports that the helper reads. */
  datatype ComputedStyle = ComputedStyle(position: CssPosition, top: ComputedOffset, left: ComputedOffset)

  /** `parseFloat(value || '0')`: the empty string reads as 0 and `auto` does not parse. */
  function ParseOffset(c: ComputedOffset): (n: Num)
    ensures n.NaN? <==> c.AutoOffset?
    ensures c.Empty? ==> n == Finite(0.0)
    ensures c.PxOffset? ==> n == Finite(c.px)
  {
    match c
    case Empty => Finite(0.0)
    case AutoOffset => NaN
    case PxOffset(x) => Finite(x)
  }

  /** How far one axis moves. The low edge (top or left) is checked first: when it lies inside
      the padding band the element moves so that this edge lands exactly on `padding`;
      otherwise, when the high edge lies past `extent - padding`, it moves back so that edge
      lands exactly there; otherwise it does not move. */
  function Shift(lo: real, hi: real, extent: real, padding: real): (d: real)
    ensures lo < padding ==> lo + d == padding
    ensures padding <= lo && hi > extent - padding ==> hi + d == extent - padding && d < 0.0
    ensures padding <= lo && hi <= extent - padding ==> d == 0.0
  {
    if lo < padding then padding - lo
    else if hi > extent - padding then -(hi - (extent - padding))
    else 0.0
  }

  /** The adjusted offset: the parsed current offset moved by the shift; NaN stays NaN. */
  function Adjusted(current: Num, lo: real, hi: real, extent: real, padding: real): (n: Num)
    ensures current.NaN? <==> n.NaN?
    ensures current.Finite? ==> n.v - current.v == Shift(lo, hi, extent, padding)
  {
    match current
    case NaN => NaN
    case Finite(v) => Finite(v + Shift(lo, hi, extent, padding))
  }

  /** An element that fits in the padded viewport along an axis ends up wholly inside the band. */
  lemma ShiftFits(lo: real, hi: real, extent: real, padding: real)
    requires lo <= hi && hi - lo <= extent - 2.0 * padding
    ensures padding <= lo + Shift(lo, hi, extent, padding)
    ensures hi + Shift(lo, hi, extent, padding) <= extent - padding
  {
    var d := Shift(lo, hi, extent, padding);
    if lo < padding {
      assert lo + d == padding;
    } else if hi > extent - padding {
      assert hi + d == extent - padding;
    }
  }

  /** An element already inside the band does not move. */
  lemma InsideDoesNotMove(lo: real, hi: real, extent: real, padding: real)
    requires padding <= lo && hi <= extent - padding
    ensures Shift(lo, hi, extent, padding) == 0.0
  {
  }

  /** When an element is taller (or wider) than the band, the top (or left) edge wins: it lands on
      `padding` and the opposite edge stays past the band. */
  lemma LowEdgeWins(lo: real, hi: real, extent: real, padding: real)
    requires lo < padding && hi - lo > extent - 2.0 * padding
    ensures lo + Shift(lo, hi, extent, padding) == padding
    ensures hi + Shift(lo, hi, extent, padding) > extent - padding
  {
  }

  /** The CSS written back as an inline `top`/`left`: a pixel length; `NaNpx` is not a valid
      length, so the style keeps its previous value. */
  function Written(n: Num, previous: Option<Length>): (l: Option<Length>)
    ensures n.Finite? ==> l == Some(Px(n.v))
    ensures n.NaN? ==> l == previous
  {
    if n.Finite? then Some(Px(n.v)) else previous
  }

  /** `ensureElementVisibility(element, padding)`; `rect` is the element's bounding rectangle
      and `innerWidth`/`innerHeight` the window's size. */
  method EnsureElementVisibility(element: InlineStyle?, rect: Rect, computed: ComputedStyle,
                                 innerWidth: real, innerHeight: real, padding: Option<real>)
    modifies element
    ensures element != null ==>
              var pad := padding.GetOr(DefaultPadding);
              element.position == Some(if computed.position == Absolute then Absolute else Fixed)
              && element.top == Written(Adjusted(ParseOffset(computed.top), rect.top, rect.bottom, innerHeight, pad), old(element.top))
              && element.left == Written(Adjusted(ParseOffset(computed.left), rect.left, rect.right, innerWidth, pad), old(element.left))
              && element.transform == old(element.transform)
  {
    if element == null {
      return;
    }
    var pad := padding.GetOr(DefaultPadding);
    var adjustedTop := ParseOffset(computed.top);
    var adjustedLeft := ParseOffset(computed.left);
    if adjustedTop.Finite? {
      if rect.top < pad {
        adjustedTop := Finite(adjustedTop.v + (pad - rect.top));
      } else if rect.bottom > innerHeight - pad {
        adjustedTop := Finite(adjustedTop.v - (rect.bottom - (innerHeight - pad)));
      }
    }
    if adjustedLeft.Finite? {
      if rect.left < pad {
        adjustedLeft := Finite(adjustedLeft.v + (pad - rect.left));
      } else if rect.right > innerWidth - pad {
        adjustedLeft := Finite(adjustedLeft.v - (rect.right - (innerWidth - pad)));
      }
    }
    element.position := Some(if computed.position == Absolute then Absolute else Fixed);
    if adjustedTop.Finite? {
      element.top := Some(Px(adjustedTop.v));
    }
    if adjustedLeft.Finite? {
      element.left := Some(Px(adjustedLeft.v));
    }
  }

  /** A fixed element at left -5 (computed left 0, default padding) moves right by 15 pixels. */
  lemma LeftOverflowExample()
    ensures Adjusted(ParseOffset(PxOffset(0.0)), -5.0, 95.0, 1024.0, DefaultPadding) == Finite(15.0)
  {
  }
}
