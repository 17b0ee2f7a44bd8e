/** `ControlTemplate` and its `TriggerCollection` (src/components/Controls/ControlTemplate.ts): a
    template for a control type that can be sealed, after which neither its target type nor its
    triggers can change. A thrown error is an `Outcome` of `Throw` with the error's message. */
module ControlTemplates {
  import opened Wrappers

  /** A trigger, by identity. */
  datatype Trigger = Trigger(id: nat)

  /** A constructor function passed as a target type: its name, and whether its prototype is an
      instance of `Control`, which holds for the subclasses of `Control` and not for `Control`
      itself. */
  datatype TypeRef = TypeRef(name: string, prototypeIsControl: bool)

  /** `validateTargetType`: a null type and a type that is not a `Control` subclass are refused,
      each with its own message. */
  function ValidateTargetType(targetType: Option<TypeRef>): (r: Outcome)
    ensures r.Done? <==> targetType.Some? && targetType.value.prototypeIsControl
    ensures targetType.None? ==> r == Throw("TargetType cannot be null.")
    ensures targetType.Some? && !targetType.value.prototypeIsControl ==>
              r == Throw("Invalid ControlTemplate target type: " + targetType.value.name)
  {
    if targetType.None? then Throw("TargetType cannot be null.")
    else if !targetType.value.prototypeIsControl then Throw("Invalid ControlTemplate target type: " + targetType.value.name)
    else Done
  }

  /** `DefaultTargetType`: `Control` itself. */
  const DefaultTargetType := TypeRef("Control", false)

  const SealedCollectionMessage := "Cannot add triggers to a sealed TriggerCollection."
  const SealedTemplateMessage := "Cannot modify a sealed ControlTemplate."

  class TriggerCollection {
    var triggers: seq<Trigger>
    var sealed: bool

    /** The field initialisers: empty and open. */
    constructor ()
      ensures triggers == [] && !sealed
    {
      triggers := [];
      sealed := false;
    }

    /** `add`: appends the trigger, or throws once the collection is sealed. */
    method Add(trigger: Trigger) returns (outcome: Outcome)
      modifies this`triggers
      ensures old(sealed) ==> outcome == Throw(SealedCollectionMessage) && triggers == old(triggers)
      ensures !old(sealed) ==> outcome == Done && triggers == old(triggers) + [trigger]
    {
      if sealed {
        return Throw(SealedCollectionMessage);
      }
      triggers := triggers + [trigger];
      outcome := Done;
    }

    /** `Seal`. */
    method Seal()
      modifies this`sealed
      ensures sealed
    {
      sealed := true;
    }

    /** `length`. */
    function Length(): (n: nat)
      reads this
      ensures n == |triggers|
    {
      |triggers|
    }
  }

  class ControlTemplate {
    var targetType: Option<TypeRef>
    var triggerCollection: TriggerCollection?
    var isSealed: bool

    /** A sealed template's trigger collection, once created, is sealed too. */
    predicate Valid()
      reads this, triggerCollection
    {
      isSealed && triggerCollection != null ==> triggerCollection.sealed
    }

    /** The field initialisers: no target type, no triggers, not sealed. */
    constructor ()
      ensures Valid()
      ensures targetType.None? && triggerCollection == null && !isSealed
    {
      targetType := None;
      triggerCollection := null;
      isSealed := false;
    }

    /** The `TargetType` getter: the type last accepted by the setter, or none. */
    function TargetType(): (t: Option<TypeRef>)
      reads this
      ensures t == targetType
    {
      targetType
    }

    /** The `TargetType` setter: validation comes first, then the sealed check, then the store;
        a throw leaves the template as it was. */
    method SetTargetType(value: Option<TypeRef>) returns (outcome: Outcome)
      requires Valid()
      modifies this`targetType
      ensures Valid()
      ensures ValidateTargetType(value).Throw? ==> outcome == ValidateTargetType(value) && targetType == old(targetType)
      ensures ValidateTargetType(value).Done? && isSealed ==> outcome == Throw(SealedTemplateMessage) && targetType == old(targetType)
      ensures ValidateTargetType(value).Done? && !isSealed ==> outcome == Done && targetType == value
    {
      outcome := ValidateTargetType(value);
      if outcome.Throw? {
        return;
      }
      outcome := CheckSealed();
      if outcome.Throw? {
        return;
      }
      targetType := value;
    }

    /** `checkSealed`. */
    method CheckSealed() returns (outcome: Outcome)
      ensures outcome == if isSealed then Throw(SealedTemplateMessage) else Done
    {
      outcome := if isSealed then Throw(SealedTemplateMessage) else Done;
    }

    /** The `Triggers` getter: creates the collection on first use, sealed when the template
        already is, and returns the same collection afterwards. */
    method Triggers() returns (tc: TriggerCollection)
      requires Valid()
      modifies this`triggerCollection
      ensures Valid()
      ensures triggerCollection == tc
      ensures old(triggerCollection) != null ==> tc == old(triggerCollection)
      ensures old(triggerCollection) == null ==> fresh(tc) && tc.triggers == [] && tc.sealed == isSealed
    {
      if triggerCollection == null {
        tc := new TriggerCollection();
        if isSealed {
          tc.Seal();
        }
        triggerCollection := tc;
      } else {
        tc := triggerCollection;
      }
    }

    /** `Seal`: the template and any existing trigger collection are sealed. */
    method Seal()
      requires Valid()
      modifies this`isSealed, triggerCollection
      ensures Valid()
      ensures isSealed
      ensures triggerCollection == old(triggerCollection)
      ensures triggerCollection != null ==> triggerCollection.triggers == old(triggerCollection.triggers)
    {
      isSealed := true;
      if triggerCollection != null {
        triggerCollection.Seal();
      }
    }

    /** `validateTemplatedParent`: the parent must be a `Control`, and one whose template is this
        one. */
    method ValidateTemplatedParent(parentIsControl: bool, parentTemplate: ControlTemplate?) returns (outcome: Outcome)
      ensures !parentIsControl ==> outcome == Throw("Templated parent must be a Control.")
      ensures parentIsControl && parentTemplate != this ==>
                outcome == Throw("Cannot template a control that is not associated with this template.")
      ensures outcome.Done? <==> parentIsControl && parentTemplate == this
    {
      if !parentIsControl {
        return Throw("Templated parent must be a Control.");
      }
      if parentTemplate != this {
        return Throw("Cannot template a control that is not associated with this template.");
      }
      outcome := Done;
    }
  }

  /** `new ControlTemplate(targetType)`: without a target type the template has none; with one,
      the type is validated and the constructor throws (no template results) when it is refused. */
  method NewControlTemplate(targetType: Option<TypeRef>) returns (t: ControlTemplate?, outcome: Outcome)
    ensures outcome.Done? <==> targetType.None? || targetType.value.prototypeIsControl
    ensures outcome.Throw? ==> t == null && outcome == ValidateTargetType(targetType)
    ensures outcome.Done? ==> t != null && fresh(t)
    ensures outcome.Done? && t != null ==> t.Valid() && t.targetType == targetType && t.triggerCollection == null && !t.isSealed
  {
    t := new ControlTemplate();
    outcome := Done;
    if targetType.Some? {
      outcome := ValidateTargetType(targetType);
      if outcome.Throw? {
        t := null;
        return;
      }
      t.targetType := targetType;
    }
  }

  /** Once sealed, a template refuses a valid new target type and its triggers refuse additions,
      whether the collection existed before sealing or is created after; sealing twice changes
      nothing more. */
  method SealedTemplateRejects(valid: TypeRef, trigger: Trigger)
    returns (setOutcome: Outcome, earlyAdd: Outcome, lateAdd: Outcome, count: nat)
    requires valid.prototypeIsControl
    ensures setOutcome == Throw(SealedTemplateMessage)
    ensures earlyAdd == Throw(SealedCollectionMessage) && lateAdd == Throw(SealedCollectionMessage)
    ensures count == 1
  {
    var early := new ControlTemplate();
    var tc := early.Triggers();
    var ok := tc.Add(trigger);
    early.Seal();
    early.Seal();
    earlyAdd := tc.Add(trigger);
    count := tc.Length();
    setOutcome := early.SetTargetType(Some(valid));

    var late := new ControlTemplate();
    late.Seal();
    var tc2 := late.Triggers();
    lateAdd := tc2.Add(trigger);
  }

  /** The default target type, `Control` itself, is refused as a target type, because its own
      prototype is not an instance of it; a subclass is accepted. */
  method ControlItselfRefused(sub: TypeRef) returns (own: Outcome, subclass: Outcome)
    requires sub.prototypeIsControl
    ensures own == Throw("Invalid ControlTemplate target type: Control")
    ensures subclass == Done
  {
    var t1, o1 := NewControlTemplate(Some(DefaultTargetType));
    own := o1;
    var t2, o2 := NewControlTemplate(Some(sub));
    subclass := o2;
  }
}
