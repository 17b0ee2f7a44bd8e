/** `FrameworkElement` (src/components/FrameworkElement.ts): a `UIElement` with a style, layout
    options that invalidate the measure pass, a one-shot template application and at most one
    template child. The subclass relation is modelled by composition: a framework element owns the
    `UIElement` whose bookkeeping it drives. The overridable hooks (`OnPreApplyTemplate`,
    `OnStyleChanged`, `AddVisualChild`, ...) are empty in the source; here each call to one is
    recorded in a trace, in order. */
module FrameworkElements {
  import opened UIElements

  /** A style value: `null` or some style object, by identity. */
  datatype StyleValue = NoStyle | StyleObject(id: nat)

  /** A call to one of the overridable hooks. */
  datatype Hook =
    | OnPreApplyTemplate
    | OnApplyTemplate
    | OnPostApplyTemplate
    | OnStyleChanged(oldStyle: StyleValue, newStyle: StyleValue)
    | AddVisualChild(child: UIElement)
    | RemoveVisualChild(child: UIElement)

  /** The hooks one template application calls: the pre-hook, `OnApplyTemplate` only when the
      visuals are created, then the post-hook. */
  function ApplyTemplateHooks(created: bool): (hooks: seq<Hook>)
    ensures |hooks| == if created then 3 else 2
    ensures hooks[0] == OnPreApplyTemplate && hooks[|hooks| - 1] == OnPostApplyTemplate
    ensures OnApplyTemplate in hooks <==> created
  {
    [OnPreApplyTemplate] + (if created then [OnApplyTemplate] else []) + [OnPostApplyTemplate]
  }

  class FrameworkElement {
    const element: UIElement
    var style: StyleValue
    var useLayoutRounding: bool
    var overridesDefaultStyle: bool
    var hasTemplateGeneratedSubTree: bool
    var templateChild: UIElement?

    predicate Valid()
      reads this, element, element.manager
    {
      element.Valid()
    }

    /** The `UIElement` constructor, the field initialisers, then `Initialize` a second time, which
        stores the same values again. */
    constructor (manager: LayoutManager)
      ensures Valid() && fresh(element) && element.manager == manager
      ensures element.visibility == Visible && !element.measureDirty && !element.arrangeDirty
      ensures element.flags == map["IsUIElement" := true]
      ensures style == NoStyle && !useLayoutRounding && !overridesDefaultStyle
      ensures !hasTemplateGeneratedSubTree && templateChild == null
    {
      element := new UIElement(manager);
      style := NoStyle;
      useLayoutRounding := false;
      overridesDefaultStyle := false;
      hasTemplateGeneratedSubTree := false;
      templateChild := null;
    }

    /** The `Style` setter as written: it stores the value and reports `null` as the old style,
        whatever style was set before. */
    method SetStyle(value: StyleValue) returns (hooks: seq<Hook>)
      modifies this`style
      ensures style == value
      ensures hooks == [OnStyleChanged(NoStyle, value)]
    {
      style := value;
      hooks := [OnStyleChanged(NoStyle, value)];
    }

    /** The `Style` setter as evidently intended: the hook learns the style being replaced. */
    method SetStyleCorrected(value: StyleValue) returns (hooks: seq<Hook>)
      modifies this`style
      ensures style == value
      ensures hooks == [OnStyleChanged(old(style), value)]
    {
      var previous := style;
      style := value;
      hooks := [OnStyleChanged(previous, value)];
    }

    /** The `UseLayoutRounding` setter: stores the value and invalidates the measure pass. */
    method SetUseLayoutRounding(value: bool)
      requires Valid()
      modifies this`useLayoutRounding, element`measureDirty, element.manager`measureQueue
      ensures Valid()
      ensures useLayoutRounding == value && element.measureDirty
      ensures element.manager.measureQueue ==
                old(element.manager.measureQueue) + (if old(element.measureDirty) then [] else [element])
    {
      useLayoutRounding := value;
      element.InvalidateMeasure();
    }

    /** The `OverridesDefaultStyle` setter: the same for the other option. */
    method SetOverridesDefaultStyle(value: bool)
      requires Valid()
      modifies this`overridesDefaultStyle, element`measureDirty, element.manager`measureQueue
      ensures Valid()
      ensures overridesDefaultStyle == value && element.measureDirty
      ensures element.manager.measureQueue ==
                old(element.manager.measureQueue) + (if old(element.measureDirty) then [] else [element])
    {
      overridesDefaultStyle := value;
      element.InvalidateMeasure();
    }

    /** `ApplyTemplate`: the visuals are created on the first call only. */
    method ApplyTemplate() returns (created: bool, hooks: seq<Hook>)
      modifies this`hasTemplateGeneratedSubTree
      ensures created <==> !old(hasTemplateGeneratedSubTree)
      ensures hasTemplateGeneratedSubTree
      ensures hooks == ApplyTemplateHooks(created)
    {
      hooks := [OnPreApplyTemplate];
      created := false;
      if !hasTemplateGeneratedSubTree {
        created := true;
        hasTemplateGeneratedSubTree := true;
        hooks := hooks + [OnApplyTemplate];
      }
      hooks := hooks + [OnPostApplyTemplate];
    }

    /** `VisualChildrenCount`: one while there is a template child, else none. */
    function VisualChildrenCount(): (n: nat)
      reads this
      ensures n <= 1
      ensures n == 1 <==> templateChild != null
    {
      if templateChild != null then 1 else 0
    }

    /** The `TemplateChild` setter: the same child again changes nothing; a different one
        removes the previous child (when there is one), stores the new one and adds it (when it
        is not null). */
    method SetTemplateChild(value: UIElement?) returns (hooks: seq<Hook>)
      modifies this`templateChild
      ensures templateChild == value
      ensures value == old(templateChild) ==> hooks == []
      ensures value != old(templateChild) ==>
                hooks == (if old(templateChild) != null then [RemoveVisualChild(old(templateChild))] else [])
                         + (if value != null then [AddVisualChild(value)] else [])
    {
      hooks := [];
      if value != templateChild {
        if templateChild != null {
          hooks := hooks + [RemoveVisualChild(templateChild)];
        }
        templateChild := value;
        if value != null {
          hooks := hooks + [AddVisualChild(value)];
        }
      }
    }

    /** `ParentLayoutInvalidated`: the element's measure pass becomes dirty. */
    method ParentLayoutInvalidated(child: UIElement)
      requires Valid()
      modifies element`measureDirty, element.manager`measureQueue
      ensures Valid()
      ensures element.measureDirty
      ensures element.manager.measureQueue ==
                old(element.manager.measureQueue) + (if old(element.measureDirty) then [] else [element])
    {
      element.InvalidateMeasure();
    }
  }

  /** The template is applied once: the first call creates the visuals and calls
      `OnApplyTemplate`, the second does neither. */
  method ApplyTemplateTwice() returns (first: bool, second: bool, secondHooks: seq<Hook>)
    ensures first && !second
    ensures secondHooks == [OnPreApplyTemplate, OnPostApplyTemplate]
  {
    var lm := new LayoutManager();
    var fe := new FrameworkElement(lm);
    var hooks;
    first, hooks := fe.ApplyTemplate();
    second, secondHooks := fe.ApplyTemplate();
  }

  /** Replacing one template child by another removes the first before adding the second, and
      leaves one visual child; clearing it leaves none. */
  method ReplaceTemplateChild() returns (a: UIElement, b: UIElement, hooks: seq<Hook>, count: nat, clearedCount: nat)
    ensures a != b
    ensures hooks == [RemoveVisualChild(a), AddVisualChild(b)]
    ensures count == 1 && clearedCount == 0
  {
    var lm := new LayoutManager();
    var fe := new FrameworkElement(lm);
    a := new UIElement(lm);
    b := new UIElement(lm);
    var h := fe.SetTemplateChild(a);
    hooks := fe.SetTemplateChild(b);
    count := fe.VisualChildrenCount();
    h := fe.SetTemplateChild(null);
    clearedCount := fe.VisualChildrenCount();
  }

  /** Setting a second style as written tells the hook the old style was `null`; the corrected
      setter reports the first style. */
  method SecondStyleChange(s1: StyleValue, s2: StyleValue) returns (asWritten: seq<Hook>, corrected: seq<Hook>)
    ensures asWritten == [OnStyleChanged(NoStyle, s2)]
    ensures corrected == [OnStyleChanged(s1, s2)]
    ensures s1 != NoStyle ==> asWritten != corrected
  {
    var lm := new LayoutManager();
    var fe := new FrameworkElement(lm);
    var h := fe.SetStyle(s1);
    asWritten := fe.SetStyle(s2);
    var fe2 := new FrameworkElement(lm);
    h := fe2.SetStyleCorrected(s1);
    corrected := fe2.SetStyleCorrected(s2);
  }

  /** Changing a layout option on a fresh element queues its `UIElement` for measuring once, even
      when both options change. */
  method LayoutOptionsQueueOnce() returns (queued: seq<UIElement>, element: UIElement)
    ensures queued == [element]
  {
    var lm := new LayoutManager();
    var fe := new FrameworkElement(lm);
    fe.SetUseLayoutRounding(true);
    fe.SetOverridesDefaultStyle(true);
    queued := lm.measureQueue;
    element := fe.element;
  }
}
