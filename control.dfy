/** `Control` (src/components/Controls/Control.ts): a component holding an enabled flag, a
    visibility and a focus flag, each with a setter that stores the value and forces a re-render.
    The re-render is modelled as a counter of `forceUpdate` calls. */
module Controls {
  import opened Wrappers

  /** The control's visibility, `'visible'` or `'hidden'`. */
  datatype ControlVisibility = Visible | Hidden

  /** The props the constructor reads; absent props are `None`. */
  datatype ControlProps = ControlProps(isEnabled: Option<bool>, visibility: Option<ControlVisibility>, isFocused: Option<bool>)

  /** The other visibility. */
  function Flip(v: ControlVisibility): (w: ControlVisibility)
    ensures w != v
  {
    if v == Visible then Hidden else Visible
  }

  class Control {
    var isEnabled: bool
    var visibility: ControlVisibility
    var isFocused: bool
    var renders: nat    // calls to forceUpdate

    /** Each prop, defaulting to enabled, visible and not focused when absent. */
    constructor (props: ControlProps)
      ensures isEnabled == props.isEnabled.GetOr(true)
      ensures visibility == props.visibility.GetOr(Visible)
      ensures isFocused == props.isFocused.GetOr(false)
      ensures renders == 0
    {
      isEnabled := props.isEnabled.GetOr(true);
      visibility := props.visibility.GetOr(Visible);
      isFocused := props.isFocused.GetOr(false);
      renders := 0;
    }

    /** `getIsEnabled`: the stored enabled flag. */
    function GetIsEnabled(): (v: bool)
      reads this
      ensures v == isEnabled
    {
      isEnabled
    }

    /** `setIsEnabled`: stores the flag and re-renders once. */
    method SetIsEnabled(value: bool)
      modifies this`isEnabled, this`renders
      ensures isEnabled == value && renders == old(renders) + 1
    {
      isEnabled := value;
      renders := renders + 1;
    }

    /** `getVisibility`: the stored visibility. */
    function GetVisibility(): (v: ControlVisibility)
      reads this
      ensures v == visibility
    {
      visibility
    }

    /** `setVisibility`: stores the visibility and re-renders once. */
    method SetVisibility(value: ControlVisibility)
      modifies this`visibility, this`renders
      ensures visibility == value && renders == old(renders) + 1
    {
      visibility := value;
      renders := renders + 1;
    }

    /** `focus`: the control is focused, and re-renders once. */
    method Focus()
      modifies this`isFocused, this`renders
      ensures isFocused && renders == old(renders) + 1
    {
      isFocused := true;
      renders := renders + 1;
    }

    /** `blur`: the control is not focused, and re-renders once. */
    method Blur()
      modifies this`isFocused, this`renders
      ensures !isFocused && renders == old(renders) + 1
    {
      isFocused := false;
      renders := renders + 1;
    }

    /** `getIsFocused`: the stored focus flag. */
    function GetIsFocused(): (v: bool)
      reads this
      ensures v == isFocused
    {
      isFocused
    }

    /** `toggleIsEnabled`: the opposite flag, through `setIsEnabled`. */
    method ToggleIsEnabled()
      modifies this`isEnabled, this`renders
      ensures isEnabled == !old(isEnabled) && renders == old(renders) + 1
    {
      SetIsEnabled(!isEnabled);
    }

    /** `toggleVisibility`: the other visibility, through `setVisibility`. */
    method ToggleVisibility()
      modifies this`visibility, this`renders
      ensures visibility == Flip(old(visibility)) && renders == old(renders) + 1
    {
      SetVisibility(if visibility == Visible then Hidden else Visible);
    }
  }

  /** Toggling both settings twice restores them, and renders four times. */
  method ToggleTwiceRestores(props: ControlProps) returns (enabled: bool, visibility: ControlVisibility, renders: nat)
    ensures enabled == props.isEnabled.GetOr(true)
    ensures visibility == props.visibility.GetOr(Visible)
    ensures renders == 4
  {
    var c := new Control(props);
    c.ToggleIsEnabled();
    c.ToggleVisibility();
    c.ToggleIsEnabled();
    c.ToggleVisibility();
    enabled := c.GetIsEnabled();
    visibility := c.GetVisibility();
    renders := c.renders;
  }

  /** Focus and blur only move the focus flag: the enabled flag and the visibility stay. */
  method FocusThenBlur(props: ControlProps) returns (focused: bool, blurred: bool, enabled: bool)
    ensures focused && !blurred
    ensures enabled == props.isEnabled.GetOr(true)
  {
    var c := new Control(props);
    c.Focus();
    focused := c.GetIsFocused();
    c.Blur();
    blurred := c.GetIsFocused();
    enabled := c.GetIsEnabled();
  }
}
