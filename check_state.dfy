/** The three-valued check state shared by `CheckBox` and `ToggleButton`: `true`, `false` or
    `null` (indeterminate), with the callbacks fired on each transition. */
module CheckStates {
  import opened Wrappers
  import opened Effects

  datatype Tri = True | False | Null

  /** Which of the `Checked`, `Unchecked` and `Indeterminate` callbacks the caller supplied. */
  datatype Callbacks = Callbacks(checked: bool, unchecked: bool, indeterminate: bool)

  /** The state `SetChecked(value)` stores: the value itself on a three-state control, and
      otherwise the value with `null` read as `false`. */
  function Normalize(isThreeState: bool, value: Tri): (r: Tri)
    ensures isThreeState ==> r == value
    ensures !isThreeState ==> r != Null
    ensures !isThreeState && value != Null ==> r == value
  {
    if isThreeState then value else if value == Null then False else value
  }

  /** The callback fired for a new state: only the one matching it, and only when supplied. */
  function TriggerCallback(state: Tri, cb: Callbacks): (trace: seq<Effect>)
    ensures |trace| <= 1
    ensures trace == [FireChecked] <==> state == True && cb.checked
    ensures trace == [FireUnchecked] <==> state == False && cb.unchecked
    ensures trace == [FireIndeterminate] <==> state == Null && cb.indeterminate
  {
    match state
    case True => if cb.checked then [FireChecked] else []
    case False => if cb.unchecked then [FireUnchecked] else []
    case Null => if cb.indeterminate then [FireIndeterminate] else []
  }

  /** A user click or change: `checkedState !== true`, so `true` becomes `false`, and `false`
      or `null` become `true`; it never yields `null`. */
  function UserToggle(state: Tri): (r: Tri)
    ensures r != Null
    ensures r == True <==> state != True
  {
    if state != True then True else False
  }

  /** Two user toggles from a definite state come back to it; from `null` they end at `false`. */
  lemma UserToggleTwice(state: Tri)
    ensures state != Null ==> UserToggle(UserToggle(state)) == state
    ensures state == Null ==> UserToggle(UserToggle(state)) == False
  {
  }

  /** The initial state: `IsChecked`, defaulting to `false` only when absent, so an explicit
      `null` starts indeterminate even on a two-state control. */
  function Initial(isChecked: Option<Tri>): (r: Tri)
    ensures isChecked.None? ==> r == False
    ensures isChecked.Some? ==> r == isChecked.value
  {
    isChecked.GetOr(False)
  }
}

/** `CheckBox` (src/components/Controls/CheckBox/CheckBox.tsx). The check state and the DOM
    input's `indeterminate` flag are fields that the imperative handle, the change handler and
    the effect on the state update. */
module CheckBox {
  import opened Wrappers
  import opened Effects
  import opened CheckStates

  /** The `aria-checked` value, per the aria-checked state of WAI-ARIA 1.2 (section 6.7). */
  function AriaChecked(state: Tri): (s: string)
    ensures s == "mixed" <==> state == Null
    ensures s == "true" <==> state == True
    ensures s == "false" <==> state == False
  {
    match state
    case Null => "mixed"
    case True => "true"
    case False => "false"
  }

  /** The native input's `checked` property. */
  function NativeChecked(state: Tri): (b: bool)
    ensures b <==> state == True
  {
    state == True
  }

  class CheckBox {
    const isThreeState: bool
    const callbacks: Callbacks
    var checkedState: Tri
    var domIndeterminate: bool    // checkboxRef.current.indeterminate

    /** The effect on `checkedState` keeps the DOM flag equal to "the state is null". */
    function Valid(): (b: bool)
      reads this
      ensures b ==> (domIndeterminate <==> checkedState == Null)
    {
      domIndeterminate == (checkedState == Null)
    }

    /** Mounting stores the initial state and runs the effect once. */
    constructor (isThreeState: Option<bool>, callbacks: Callbacks, isChecked: Option<Tri>)
      ensures Valid()
      ensures this.isThreeState == isThreeState.GetOr(false) && this.callbacks == callbacks
      ensures checkedState == Initial(isChecked)
    {
      this.isThreeState := isThreeState.GetOr(false);
      this.callbacks := callbacks;
      checkedState := Initial(isChecked);
      domIndeterminate := Initial(isChecked) == Null;
    }

    /** The handle's `SetChecked`: stores the normalised value and fires the matching callback. */
    method SetChecked(value: Tri) returns (fired: seq<Effect>)
      requires Valid()
      modifies this
      ensures Valid()
      ensures checkedState == Normalize(isThreeState, value)
      ensures fired == TriggerCallback(checkedState, callbacks)
    {
      var newState := if isThreeState then value else if value == Null then False else value;
      checkedState := newState;
      fired := [];
      if newState == True && callbacks.checked {
        fired := [FireChecked];
      } else if newState == False && callbacks.unchecked {
        fired := [FireUnchecked];
      } else if newState == Null && callbacks.indeterminate {
        fired := [FireIndeterminate];
      }
      domIndeterminate := checkedState == Null;
    }

    /** The handle's `GetChecked`: the current state, which is null exactly while the DOM
        checkbox shows as indeterminate. */
    function GetChecked(): (s: Tri)
      reads this
      ensures s == checkedState
      ensures Valid() ==> (s == Null <==> domIndeterminate)
    {
      checkedState
    }

    /** `handleChange`: toggles and fires `Checked` on true, `Unchecked` on false. */
    method HandleChange() returns (fired: seq<Effect>)
      requires Valid()
      modifies this
      ensures Valid()
      ensures checkedState == UserToggle(old(checkedState))
      ensures fired == TriggerCallback(checkedState, callbacks)
      ensures !domIndeterminate
    {
      var newChecked := checkedState != True;
      checkedState := if newChecked then True else False;
      fired := [];
      if newChecked {
        if callbacks.checked {
          fired := [FireChecked];
        }
      } else {
        if callbacks.unchecked {
          fired := [FireUnchecked];
        }
      }
      domIndeterminate := checkedState == Null;
    }
  }

  /** The label's class as written: `Classes` is a style object, and concatenating an object
      with a string yields `[object Object]`. */
  function LabelClassAsWritten(hasClasses: bool): (s: string)
    ensures !hasClasses ==> s == "checkbox-label"
    ensures hasClasses ==> s == "checkbox-label [object Object]"
  {
    "checkbox-label" + (if hasClasses then " " + "[object Object]" else "")
  }

  /** Whatever style object is passed, the written class is the same meaningless token. */
  lemma LabelClassIgnoresClasses()
    ensures LabelClassAsWritten(true) == "checkbox-label [object Object]"
    ensures LabelClassAsWritten(true) != "checkbox-label"
  {
    assert "checkbox-label" + (" " + "[object Object]") == "checkbox-label [object Object]";
  }

  /** The evidently intended class: the caller's extra class names appended after a space when
      non-empty. */
  function LabelClass(classes: string): (s: string)
    ensures classes == "" ==> s == "checkbox-label"
    ensures classes != "" ==> |s| == |"checkbox-label "| + |classes|
    ensures classes != "" ==> s[..|"checkbox-label "|] == "checkbox-label " && s[|"checkbox-label "|..] == classes
  {
    "checkbox-label" + (if classes != "" then " " + classes else "")
  }
}

/** `ToggleButton` (src/components/Controls/ToggleButton/ToggleButton.tsx). */
module ToggleButton {
  import opened Wrappers
  import opened Effects
  import opened JsStrings
  import opened CheckStates

  /** `AriaChecked`: `'mixed'` for null, otherwise the boolean itself. */
  datatype AriaValue = Mixed | Bool(b: bool)

  function AriaChecked(state: Tri): (a: AriaValue)
    ensures a == Mixed <==> state == Null
    ensures a == Bool(true) <==> state == True
    ensures a == Bool(false) <==> state == False
  {
    match state
    case Null => Mixed
    case True => Bool(true)
    case False => Bool(false)
  }

  /** `Style`: `'toggle ' + (Style || '')`, trimmed. */
  function Style(style: Option<string>): (s: string)
    ensures Trimmed(s)
    ensures style.GetOr("") == "" ==> s == "toggle"
    ensures style.Some? && Trimmed(style.value) ==> s == "toggle" + (if style.value == "" then "" else " " + style.value)
  {
    ClassWithStyleCases("toggle", style.GetOr(""));
    ClassWithStyle("toggle", style.GetOr(""))
  }


  class ToggleButton {
    const isThreeState: bool
    const callbacks: Callbacks
    /** The `checkedState` seen by the `handleClick` of the first render. The `Button` it renders
        is a `ButtonBase`, which stores `Click` once, in its constructor, and calls that
        closure on every click; later renders' handlers never reach it. */
    const clickState: Tri
    var checkedState: Tri

    constructor (isThreeState: Option<bool>, callbacks: Callbacks, isChecked: Option<Tri>)
      ensures this.isThreeState == isThreeState.GetOr(false) && this.callbacks == callbacks
      ensures checkedState == Initial(isChecked) && clickState == checkedState
    {
      this.isThreeState := isThreeState.GetOr(false);
      this.callbacks := callbacks;
      checkedState := Initial(isChecked);
      clickState := Initial(isChecked);
    }

    /** The handle's `SetChecked`: the same normalisation as the check box, then
        `triggerCallback`. */
    method SetChecked(value: Tri) returns (fired: seq<Effect>)
      modifies this
      ensures checkedState == Normalize(isThreeState, value)
      ensures fired == TriggerCallback(checkedState, callbacks)
    {
      checkedState := Normalize(isThreeState, value);
      fired := TriggerCallback(checkedState, callbacks);
    }

    /** The handle's `GetChecked`: the current state. */
    function GetChecked(): (s: Tri)
      reads this
      ensures s == checkedState
    {
      checkedState
    }

    /** A click as written: the stored first-render `handleClick` toggles the state it saw at
        mount, whatever the state is now, then fires the callback for the result. */
    method HandleClick() returns (fired: seq<Effect>)
      modifies this
      ensures checkedState == UserToggle(clickState)
      ensures fired == TriggerCallback(checkedState, callbacks)
      ensures fired != [FireIndeterminate]
    {
      var newState := clickState != True;
      checkedState := if newState then True else False;
      fired := TriggerCallback(checkedState, callbacks);
    }

    /** The evidently intended click: `true` becomes `false`, `false` or `null` becomes `true`,
        from the current state, then the callback for the new state. */
    method HandleClickCorrected() returns (fired: seq<Effect>)
      modifies this
      ensures checkedState == UserToggle(old(checkedState))
      ensures fired == TriggerCallback(checkedState, callbacks)
      ensures fired != [FireIndeterminate]
    {
      var newState := checkedState != True;
      checkedState := if newState then True else False;
      fired := TriggerCallback(checkedState, callbacks);
    }
  }

  /** Two clicks on a toggle button mounted without `IsChecked`, as written: both compute from
      the initial `false`, so the button stays checked and `Checked` fires each time. */
  method TwoClicksAsWritten(callbacks: Callbacks) returns (first: Tri, second: Tri, fired: seq<Effect>)
    ensures first == True && second == True
    ensures fired == TriggerCallback(True, callbacks) + TriggerCallback(True, callbacks)
    ensures callbacks.checked ==> fired == [FireChecked, FireChecked]
  {
    var button := new ToggleButton(None, callbacks, None);
    var f1 := button.HandleClick();
    first := button.checkedState;
    var f2 := button.HandleClick();
    second := button.checkedState;
    fired := f1 + f2;
  }

  /** The same two clicks with the corrected handler check and then uncheck the button. */
  method TwoClicksCorrected(callbacks: Callbacks) returns (first: Tri, second: Tri, fired: seq<Effect>)
    ensures first == True && second == False
    ensures fired == TriggerCallback(True, callbacks) + TriggerCallback(False, callbacks)
  {
    var button := new ToggleButton(None, callbacks, None);
    var f1 := button.HandleClickCorrected();
    first := button.checkedState;
    var f2 := button.HandleClickCorrected();
    second := button.checkedState;
    fired := f1 + f2;
  }
}
