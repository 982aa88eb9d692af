/** The "first failing validator wins" rule shared by the data-entry
    contexts that show no change indicator. */
module DataEntryValidation {
  import opened Wrappers
  import opened Text

  /** The result of one validator: whether the value passed and why not. */
  datatype IsValid = IsValid(valid: bool, explanation: string)

  /** The state a validation pass leaves behind. */
  datatype Outcome = Outcome(hasValidationIssues: bool, validationMessage: string)

  /** Index of the first validator at or after `from` that rejects `value`. */
  function FirstFailureFrom<T>(validators: seq<T -> IsValid>, value: T, from: nat): (r: Option<nat>)
    decreases |validators| - from
    ensures r.Some? ==> from <= r.value < |validators| && !validators[r.value](value).valid
    ensures r.Some? ==> forall k :: from <= k < r.value ==> validators[k](value).valid
    ensures r.None? ==> forall k :: from <= k < |validators| ==> validators[k](value).valid
  {
    if from >= |validators| then None
    else if !validators[from](value).valid then Some(from)
    else FirstFailureFrom(validators, value, from + 1)
  }

  /** Index of the first validator, in list order, that rejects `value`. */
  function FirstFailure<T>(validators: seq<T -> IsValid>, value: T): (r: Option<nat>)
    ensures r.Some? ==> r.value < |validators| && !validators[r.value](value).valid
    ensures r.Some? ==> forall k :: 0 <= k < r.value ==> validators[k](value).valid
    ensures r.None? <==> forall k :: 0 <= k < |validators| ==> validators[k](value).valid
  {
    FirstFailureFrom(validators, value, 0)
  }

  /** The fields a validation pass sets: the first failure's explanation,
      or no issue and an empty message. */
  function Validate<T>(validators: seq<T -> IsValid>, value: T): (o: Outcome)
    ensures o.hasValidationIssues <==> exists k :: 0 <= k < |validators| && !validators[k](value).valid
    ensures !o.hasValidationIssues ==> o.validationMessage == ""
    ensures o.hasValidationIssues ==>
              exists k :: (0 <= k < |validators| && !validators[k](value).valid
                           && (forall j :: 0 <= j < k ==> validators[j](value).valid)
                           && o.validationMessage == validators[k](value).explanation)
  {
    match FirstFailure(validators, value)
    case None => Outcome(false, "")
    case Some(k) => Outcome(true, validators[k](value).explanation)
  }

  /** The number of validators a pass calls: up to and including the first
      failure, or all of them. */
  function EvaluatedCount<T>(validators: seq<T -> IsValid>, value: T): (n: nat)
    ensures n <= |validators|
    ensures n < |validators| ==> n > 0 && !validators[n - 1](value).valid
  {
    match FirstFailure(validators, value)
    case None => |validators|
    case Some(k) => k + 1
  }

  /** An empty validator list never reports an issue. */
  lemma NoValidatorsNoIssue<T>(value: T)
    ensures Validate([], value) == Outcome(false, "")
  {
  }

  /** Validators after a failing one cannot change the outcome. */
  lemma {:induction false} FirstFailureFromIgnoresSuffix<T>(validators: seq<T -> IsValid>, more: seq<T -> IsValid>, value: T, from: nat)
    requires FirstFailureFrom(validators, value, from).Some?
    ensures FirstFailureFrom(validators + more, value, from) == FirstFailureFrom(validators, value, from)
    decreases |validators| - from
  {
    assert (validators + more)[from] == validators[from];
    if validators[from](value).valid {
      FirstFailureFromIgnoresSuffix(validators, more, value, from + 1);
    }
  }

  /** Appending validators after a failing list leaves the message alone. */
  lemma ValidateIgnoresSuffix<T>(validators: seq<T -> IsValid>, more: seq<T -> IsValid>, value: T)
    requires Validate(validators, value).hasValidationIssues
    ensures Validate(validators + more, value) == Validate(validators, value)
    ensures EvaluatedCount(validators + more, value) == EvaluatedCount(validators, value)
  {
    FirstFailureFromIgnoresSuffix(validators, more, value, 0);
    var k := FirstFailure(validators, value).value;
    assert (validators + more)[k] == validators[k];
  }

  /** The trigger test: blank names are ignored, otherwise the name must be
      one of `watched`. */
  predicate Triggers(propertyName: Option<string>, watched: set<string>)
  {
    !IsNullOrWhiteSpace(propertyName) && propertyName.value in watched
  }

  /** Watched names are never blank, so a trigger is exactly a watched name. */
  lemma TriggersIffWatched(propertyName: Option<string>, watched: set<string>)
    requires forall w :: w in watched ==> !IsBlank(w)
    ensures Triggers(propertyName, watched) <==> propertyName.Some? && propertyName.value in watched
  {
  }
}

/** The bool data-entry context without a change indicator. */
module BoolDataEntryNoChangeIndicatorContext {
  import opened Wrappers
  import opened Text
  import opened DataEntryValidation

  /** The properties whose change re-runs validation. */
  const WatchedProperties: set<string> := {"ReferenceValue", "UserValue", "ValidationFunctions", "IsEnabled"}

  class BoolDataEntryNoChangeIndicatorContext {
    var helpText: string
    var isEnabled: bool
    var referenceValue: bool
    var title: string
    var userValue: bool
    var validationFunctions: seq<bool -> IsValid>
    var validationMessage: string
    var hasValidationIssues: bool

    /** `CreateInstance`: every property at its initial value; no
        validation has run yet. */
    constructor ()
      ensures helpText == "" && isEnabled && !referenceValue && title == "" && !userValue
      ensures validationFunctions == [] && validationMessage == "" && !hasValidationIssues
    {
      helpText := "";
      isEnabled := true;
      referenceValue := false;
      title := "";
      userValue := false;
      validationFunctions := [];
      validationMessage := "";
      hasValidationIssues := false;
    }

    /** A bool context never reports changes. */
    function HasChanges(): (r: bool)
      ensures !r
    {
      false
    }

    /** The user value is never nullable. */
    function UserValueIsNullable(): (r: bool)
      ensures !r
    {
      false
    }

    /** Runs the validators in order and stops at the first failure;
        `evaluated` counts the validators that were called. */
    method CheckForChangesAndValidate() returns (ghost evaluated: nat)
      modifies this
      ensures Outcome(hasValidationIssues, validationMessage) == Validate(validationFunctions, userValue)
      ensures evaluated == EvaluatedCount(validationFunctions, userValue)
      ensures helpText == old(helpText) && isEnabled == old(isEnabled) && referenceValue == old(referenceValue)
      ensures title == old(title) && userValue == old(userValue) && validationFunctions == old(validationFunctions)
    {
      var i := 0;
      while i < |validationFunctions|
        invariant 0 <= i <= |validationFunctions|
        invariant forall k :: 0 <= k < i ==> validationFunctions[k](userValue).valid
        invariant FirstFailure(validationFunctions, userValue) == FirstFailureFrom(validationFunctions, userValue, i)
      {
        var validationResult := validationFunctions[i](userValue);
        if !validationResult.valid {
          hasValidationIssues := true;
          validationMessage := validationResult.explanation;
          return i + 1;
        }
        i := i + 1;
      }
      hasValidationIssues := false;
      validationMessage := "";
      return i;
    }

    /** The property-changed handler: a change to a watched property
        re-validates; any other change, or a blank name, does nothing. */
    method OnPropertyChanged(propertyName: Option<string>)
      modifies this
      ensures Triggers(propertyName, WatchedProperties) ==>
                Outcome(hasValidationIssues, validationMessage) == Validate(validationFunctions, userValue)
      ensures !Triggers(propertyName, WatchedProperties) ==>
                hasValidationIssues == old(hasValidationIssues) && validationMessage == old(validationMessage)
      ensures helpText == old(helpText) && isEnabled == old(isEnabled) && referenceValue == old(referenceValue)
      ensures title == old(title) && userValue == old(userValue) && validationFunctions == old(validationFunctions)
    {
      if IsNullOrWhiteSpace(propertyName) { return; }
      if propertyName.value in WatchedProperties {
        var _ := CheckForChangesAndValidate();
      }
    }
  }

  /** Exactly the four watched names re-validate. */
  lemma TriggerNames(propertyName: Option<string>)
    ensures Triggers(propertyName, WatchedProperties) <==>
              propertyName in {Some("ReferenceValue"), Some("UserValue"), Some("ValidationFunctions"), Some("IsEnabled")}
  {
    forall w | w in WatchedProperties ensures !IsBlank(w) {
      assert !IsWhiteSpace(w[0]);
    }
    TriggersIffWatched(propertyName, WatchedProperties);
  }
}

/** The string data-entry context without a change indicator. */
module StringDataEntryNoChangeIndicatorContext {
  import opened Wrappers
  import opened Text
  import opened DataEntryValidation

  /** The properties whose change re-runs validation; IsEnabled is not one. */
  const WatchedProperties: set<string> := {"ReferenceValue", "UserValue", "ValidationFunctions"}

  class StringDataEntryNoChangeIndicatorContext {
    var bindingDelay: int
    var helpText: string
    var referenceValue: string
    var title: string
    var userValue: string
    var validationFunctions: seq<string -> IsValid>
    var validationMessage: string
    var hasValidationIssues: bool

    /** `CreateInstance`: every property at its initial value. */
    constructor ()
      ensures bindingDelay == 10 && helpText == "" && referenceValue == "" && title == "" && userValue == ""
      ensures validationFunctions == [] && validationMessage == "" && !hasValidationIssues
    {
      bindingDelay := 10;
      helpText := "";
      referenceValue := "";
      title := "";
      userValue := "";
      validationFunctions := [];
      validationMessage := "";
      hasValidationIssues := false;
    }

    /** A string context without indicator never reports changes. */
    function HasChanges(): (r: bool)
      ensures !r
    {
      false
    }

    /** Runs the validators in order, awaiting each, and stops at the first
        failure; `evaluated` counts the validators that were called. */
    method CheckForChangesAndValidationIssues() returns (ghost evaluated: nat)
      modifies this
      ensures Outcome(hasValidationIssues, validationMessage) == Validate(validationFunctions, userValue)
      ensures evaluated == EvaluatedCount(validationFunctions, userValue)
      ensures bindingDelay == old(bindingDelay) && helpText == old(helpText) && referenceValue == old(referenceValue)
      ensures title == old(title) && userValue == old(userValue) && validationFunctions == old(validationFunctions)
    {
      var i := 0;
      while i < |validationFunctions|
        invariant 0 <= i <= |validationFunctions|
        invariant forall k :: 0 <= k < i ==> validationFunctions[k](userValue).valid
        invariant FirstFailure(validationFunctions, userValue) == FirstFailureFrom(validationFunctions, userValue, i)
      {
        var validationResult := validationFunctions[i](userValue);
        if !validationResult.valid {
          hasValidationIssues := true;
          validationMessage := validationResult.explanation;
          return i + 1;
        }
        i := i + 1;
      }
      hasValidationIssues := false;
      validationMessage := "";
      return i;
    }

    /** The property-changed handler: only a change to ReferenceValue,
        UserValue or ValidationFunctions re-validates. */
    method OnPropertyChanged(propertyName: Option<string>)
      modifies this
      ensures Triggers(propertyName, WatchedProperties) ==>
                Outcome(hasValidationIssues, validationMessage) == Validate(validationFunctions, userValue)
      ensures !Triggers(propertyName, WatchedProperties) ==>
                hasValidationIssues == old(hasValidationIssues) && validationMessage == old(validationMessage)
      ensures bindingDelay == old(bindingDelay) && helpText == old(helpText) && referenceValue == old(referenceValue)
      ensures title == old(title) && userValue == old(userValue) && validationFunctions == old(validationFunctions)
    {
      if IsNullOrWhiteSpace(propertyName) { return; }
      if propertyName.value in WatchedProperties {
        var _ := CheckForChangesAndValidationIssues();
      }
    }
  }

  /** Exactly the three watched names re-validate; IsEnabled does not. */
  lemma TriggerNames(propertyName: Option<string>)
    ensures Triggers(propertyName, WatchedProperties) <==>
              propertyName in {Some("ReferenceValue"), Some("UserValue"), Some("ValidationFunctions")}
    ensures !Triggers(Some("IsEnabled"), WatchedProperties)
  {
    forall w | w in WatchedProperties ensures !IsBlank(w) {
      assert !IsWhiteSpace(w[0]);
    }
    TriggersIffWatched(propertyName, WatchedProperties);
  }
}
