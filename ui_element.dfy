/** `UIElement` and `ContextLayoutManager` (src/components/UIElement.ts): layout bookkeeping in the
    style of a desktop toolkit. An element marks its measure or arrange pass dirty and queues itself
    on the layout manager's measure or arrange queue, once; measuring stores a desired size and
    arranging stores the final rectangle and the render size. The manager's queues are static in
    the source; here they are fields of one shared `LayoutManager` that every element refers to. */
module UIElements {
  import opened Wrappers

  /** The element's visibility. */
  datatype Visibility = Visible | Hidden | Collapsed

  datatype Size = Size(width: real, height: real)

  datatype LayoutRect = LayoutRect(x: real, y: real, width: real, height: real)

  /** An event listener, by identity. */
  datatype Listener = Listener(id: nat)

  const ZeroSize := Size(0.0, 0.0)
  const ZeroRect := LayoutRect(0.0, 0.0, 0.0, 0.0)

  /** `ContextLayoutManager`: the measure queue and the arrange queue. Nothing in the source
      drains them. */
  class LayoutManager {
    var measureQueue: seq<UIElement>
    var arrangeQueue: seq<UIElement>

    constructor ()
      ensures measureQueue == [] && arrangeQueue == []
    {
      measureQueue := [];
      arrangeQueue := [];
    }
  }

  /** `MeasureCore` of a plain element: it asks for no space. */
  function MeasureCore(available: Size): (s: Size)
    ensures s == ZeroSize
  {
    ZeroSize
  }

  /** `AreRectEqual`: component-wise equality of the four numbers. */
  predicate AreRectEqual(a: LayoutRect, b: LayoutRect)
    ensures AreRectEqual(a, b) <==> a == b
  {
    a.x == b.x && a.y == b.y && a.width == b.width && a.height == b.height
  }

  class UIElement {
    const manager: LayoutManager
    var visibility: Visibility
    var snapsToDevicePixelsCache: bool
    var clipToBoundsCache: bool
    var visibilityCache: Visibility
    var measureDirty: bool
    var arrangeDirty: bool
    var neverMeasured: bool
    var neverArranged: bool
    var measureInProgress: bool
    var arrangeInProgress: bool
    var desiredSize: Size
    var finalRect: LayoutRect
    var renderSize: Size
    var flags: map<string, bool>
    var layoutUpdated: Option<Listener>

    /** The queues hold this element exactly while its pass is dirty, and at most once. No pass
        is ever in progress: nothing in the source sets those flags. */
    predicate Valid()
      reads this, manager
    {
      && !measureInProgress && !arrangeInProgress
      && (measureDirty <==> this in manager.measureQueue)
      && (arrangeDirty <==> this in manager.arrangeQueue)
      && multiset(manager.measureQueue)[this] <= 1
      && multiset(manager.arrangeQueue)[this] <= 1
    }

    /** The field initialisers, then `Initialize`: never measured or arranged, both passes clean,
        visible, and flagged as a UI element. */
    constructor (manager: LayoutManager)
      ensures this.manager == manager
      ensures Valid()
      ensures visibility == Visible && visibilityCache == Visible
      ensures !snapsToDevicePixelsCache && !clipToBoundsCache
      ensures !measureDirty && !arrangeDirty && neverMeasured && neverArranged
      ensures desiredSize == ZeroSize && finalRect == ZeroRect && renderSize == ZeroSize
      ensures flags == map["IsUIElement" := true]
      ensures layoutUpdated.None?
    {
      this.manager := manager;
      visibility := Visible;
      measureDirty := false;
      arrangeDirty := false;
      measureInProgress := false;
      arrangeInProgress := false;
      desiredSize := ZeroSize;
      finalRect := ZeroRect;
      renderSize := ZeroSize;
      flags := map["IsUIElement" := true];
      layoutUpdated := None;
      snapsToDevicePixelsCache := false;
      clipToBoundsCache := false;
      visibilityCache := Visible;
      neverMeasured := true;
      neverArranged := true;
    }

    /** `SetFlags`: sets one flag and leaves the others. */
    method SetFlags(value: bool, flag: string)
      modifies this`flags
      ensures flags == old(flags)[flag := value]
    {
      flags := flags[flag := value];
    }

    /** `IsMeasureValid`. */
    function IsMeasureValid(): (b: bool)
      reads this
      ensures b <==> !measureDirty
    {
      !measureDirty
    }

    /** `IsArrangeValid`. */
    function IsArrangeValid(): (b: bool)
      reads this
      ensures b <==> !arrangeDirty
    {
      !arrangeDirty
    }

    /** `InvalidateMeasure`: queues the element on its first invalidation only; afterwards the
        measure pass stays dirty. */
    method InvalidateMeasure()
      requires Valid()
      modifies this`measureDirty, manager`measureQueue
      ensures Valid()
      ensures measureDirty && !IsMeasureValid()
      ensures manager.measureQueue == old(manager.measureQueue) + (if old(measureDirty) then [] else [this])
    {
      if !measureDirty && !measureInProgress {
        manager.measureQueue := manager.measureQueue + [this];
        measureDirty := true;
      }
    }

    /** `InvalidateArrange`: the same for the arrange pass. */
    method InvalidateArrange()
      requires Valid()
      modifies this`arrangeDirty, manager`arrangeQueue
      ensures Valid()
      ensures arrangeDirty && !IsArrangeValid()
      ensures manager.arrangeQueue == old(manager.arrangeQueue) + (if old(arrangeDirty) then [] else [this])
    {
      if !arrangeDirty && !arrangeInProgress {
        manager.arrangeQueue := manager.arrangeQueue + [this];
        arrangeDirty := true;
      }
    }

    /** The `Visibility` setter: stores the value and invalidates the measure pass, even when the
        value is unchanged. */
    method SetVisibility(value: Visibility)
      requires Valid()
      modifies this`visibility, this`measureDirty, manager`measureQueue
      ensures Valid()
      ensures visibility == value && measureDirty
      ensures manager.measureQueue == old(manager.measureQueue) + (if old(measureDirty) then [] else [this])
    {
      visibility := value;
      InvalidateMeasure();
    }

    /** `Measure`: a collapsed element desires no space; any other asks `MeasureCore`. The dirty
        flag is left as it was. */
    method Measure(available: Size)
      modifies this`desiredSize
      ensures desiredSize == if visibility == Collapsed then ZeroSize else MeasureCore(available)
    {
      if visibility == Collapsed {
        desiredSize := ZeroSize;
      } else {
        desiredSize := MeasureCore(available);
      }
    }

    /** `Arrange`: a collapsed element keeps its rectangle; any other runs `ArrangeCore` exactly
        when its arrange pass is dirty or the rectangle differs from the stored one. `ran` says
        whether `ArrangeCore` ran. The dirty flag is left as it was. */
    method Arrange(rect: LayoutRect) returns (ran: bool)
      modifies this`finalRect, this`renderSize
      ensures ran <==> visibility != Collapsed && (!IsArrangeValid() || !AreRectEqual(rect, old(finalRect)))
      ensures ran ==> finalRect == rect && renderSize == Size(rect.width, rect.height)
      ensures !ran ==> finalRect == old(finalRect) && renderSize == old(renderSize)
    {
      ran := false;
      if visibility == Collapsed {
        return;
      }
      if !IsArrangeValid() || !AreRectEqual(rect, finalRect) {
        ArrangeCore(rect);
        ran := true;
      }
    }

    /** `ArrangeCore`: stores the rectangle and its size as the render size. */
    method ArrangeCore(rect: LayoutRect)
      modifies this`finalRect, this`renderSize
      ensures finalRect == rect && renderSize == Size(rect.width, rect.height)
    {
      finalRect := rect;
      renderSize := Size(rect.width, rect.height);
    }

    /** `addEventListener`: only `layoutUpdated` is recognised, and a new listener replaces the
        previous one. */
    method AddEventListener(event: string, listener: Listener)
      modifies this`layoutUpdated
      ensures event == "layoutUpdated" ==> layoutUpdated == Some(listener)
      ensures event != "layoutUpdated" ==> layoutUpdated == old(layoutUpdated)
    {
      if event == "layoutUpdated" {
        layoutUpdated := Some(listener);
      }
    }

    /** `removeEventListener`: clears the `layoutUpdated` listener whichever listener is named. */
    method RemoveEventListener(event: string, listener: Listener)
      modifies this`layoutUpdated
      ensures event == "layoutUpdated" ==> layoutUpdated.None?
      ensures event != "layoutUpdated" ==> layoutUpdated == old(layoutUpdated)
    {
      if event == "layoutUpdated" {
        layoutUpdated := None;
      }
    }

    /** `triggerLayoutUpdate` (and `invalidateLayout`, which only calls it): the listener that is
        called, if any. */
    method TriggerLayoutUpdate() returns (called: Option<Listener>)
      ensures called == layoutUpdated
    {
      called := layoutUpdated;
    }

    /** `OnChildDesiredSizeChanged`: the parent's measure pass becomes dirty. */
    method OnChildDesiredSizeChanged(child: UIElement)
      requires Valid()
      modifies this`measureDirty, manager`measureQueue
      ensures Valid()
      ensures measureDirty
      ensures manager.measureQueue == old(manager.measureQueue) + (if old(measureDirty) then [] else [this])
    {
      InvalidateMeasure();
    }
  }

  /** Invalidating an element's measure pass twice, and then once more through a visibility
      change, queues it once; the arrange queue is untouched. */
  method InvalidateRepeatedlyQueuesOnce() returns (measureQueued: nat, arrangeQueued: nat, valid: bool)
    ensures measureQueued == 1 && arrangeQueued == 0 && !valid
  {
    var lm := new LayoutManager();
    var e := new UIElement(lm);
    e.InvalidateMeasure();
    e.InvalidateMeasure();
    e.SetVisibility(Hidden);
    measureQueued := |lm.measureQueue|;
    arrangeQueued := |lm.arrangeQueue|;
    valid := e.IsMeasureValid();
  }

  /** Two elements on one manager are queued in the order they were invalidated, and invalidating
      one leaves the other's validity alone. */
  method TwoElementsQueueInOrder() returns (first: UIElement, second: UIElement, queue: seq<UIElement>, secondValid: bool)
    ensures queue == [first, second] && first != second
    ensures !secondValid
  {
    var lm := new LayoutManager();
    first := new UIElement(lm);
    second := new UIElement(lm);
    first.InvalidateMeasure();
    assert second.Valid();
    second.InvalidateMeasure();
    queue := lm.measureQueue;
    secondValid := second.IsMeasureValid();
  }

  /** On a clean element, arranging to a new rectangle runs `ArrangeCore` and repeating it does
      not; once the arrange pass is dirty, the same rectangle runs it again, since nothing clears
      the flag. */
  method ArrangeSameRect(r: LayoutRect) returns (firstRan: bool, repeatRan: bool, dirtyRan: bool)
    ensures firstRan <==> r != ZeroRect
    ensures !repeatRan
    ensures dirtyRan
  {
    var lm := new LayoutManager();
    var e := new UIElement(lm);
    firstRan := e.Arrange(r);
    repeatRan := e.Arrange(r);
    e.InvalidateArrange();
    dirtyRan := e.Arrange(r);
  }

  /** Removing a different listener than the one added still silences the event. */
  method RemoveAnyListenerSilences(a: Listener, b: Listener) returns (called: Option<Listener>)
    ensures called.None?
  {
    var lm := new LayoutManager();
    var e := new UIElement(lm);
    e.AddEventListener("layoutUpdated", a);
    e.RemoveEventListener("layoutUpdated", b);
    called := e.TriggerLayoutUpdate();
  }
}
