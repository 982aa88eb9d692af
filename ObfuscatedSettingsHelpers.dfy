/** Validator factories for settings objects and for text typed by the user.
    Each factory takes a property selector and returns the validator, a
    function from the settings (or the entry) to (isValid, message). The
    runtime's bool.TryParse and int.TryParse are parameters (true when the
    text parses). */
module ObfuscatedSettingsHelpers {
  import opened Text

  datatype Validation = Validation(isValid: bool, message: string)

  const ValueCanNotBeBlank := "Value can not be blank."
  const TheValueCanNotBeBlank := "The value can not be blank."

  function PropertyIsValidIfNotNullOrWhiteSpace<T(!new)>(propertySelector: T -> string): (validator: T -> Validation)
    ensures forall settings :: (validator(settings) ==
      if IsBlank(propertySelector(settings)) then Validation(false, ValueCanNotBeBlank) else Validation(true, ""))
  {
    settings =>
      if IsBlank(propertySelector(settings)) then Validation(false, ValueCanNotBeBlank)
      else Validation(true, "")
  }

  function PropertyIsValidIfPositiveInt<T(!new)>(propertySelector: T -> int): (validator: T -> Validation)
    ensures forall settings :: validator(settings).isValid <==> propertySelector(settings) >= 1
    ensures forall settings :: (validator(settings).message ==
      if propertySelector(settings) >= 1 then "" else "Value must be a positive number.")
  {
    backupSettings =>
      if propertySelector(backupSettings) < 1 then Validation(false, "Value must be a positive number.")
      else Validation(true, "")
  }

  function ShouldSetPropertyIfNullOrWhiteSpace<T(!new)>(propertySelector: T -> string): (shouldSet: T -> bool)
    ensures forall settings :: shouldSet(settings) <==> IsBlank(propertySelector(settings))
  {
    settings => IsBlank(propertySelector(settings))
  }

  function UserEntryIsValidIfBool(tryParseBool: string -> bool): (validator: string -> Validation)
    ensures forall userEntry :: (validator(userEntry) ==
      if IsBlank(userEntry) then Validation(false, TheValueCanNotBeBlank)
      else if !tryParseBool(userEntry) then Validation(false, "The value must be a boolean (true or false).")
      else Validation(true, ""))
  {
    userEntry =>
      if IsBlank(userEntry) then Validation(false, TheValueCanNotBeBlank)
      else if !tryParseBool(userEntry) then Validation(false, "The value must be a boolean (true or false).")
      else Validation(true, "")
  }

  function UserEntryIsValidIfInt(tryParseInt: string -> bool): (validator: string -> Validation)
    ensures forall userEntry :: (validator(userEntry) ==
      if IsBlank(userEntry) then Validation(false, TheValueCanNotBeBlank)
      else if !tryParseInt(userEntry) then Validation(false, "The value must be a number.")
      else Validation(true, ""))
  {
    userEntry =>
      if IsBlank(userEntry) then Validation(false, TheValueCanNotBeBlank)
      else if !tryParseInt(userEntry) then Validation(false, "The value must be a number.")
      else Validation(true, "")
  }

  function UserEntryIsValidIfNotNullOrWhiteSpace(): (validator: string -> Validation)
    ensures forall userEntry :: validator(userEntry).isValid <==> !IsBlank(userEntry)
    ensures forall userEntry :: (validator(userEntry).message ==
      if IsBlank(userEntry) then TheValueCanNotBeBlank else "")
  {
    userEntry =>
      if IsBlank(userEntry) then Validation(false, TheValueCanNotBeBlank)
      else Validation(true, "")
  }

  /** Every validator reports the empty message exactly when it accepts, and
      a non-empty one when it rejects. */
  lemma ValidMeansEmptyMessage<T(!new)>(stringSelector: T -> string, intSelector: T -> int,
                                  tryParseBool: string -> bool, tryParseInt: string -> bool,
                                  settings: T, userEntry: string)
    ensures var v := PropertyIsValidIfNotNullOrWhiteSpace(stringSelector)(settings); v.isValid <==> v.message == ""
    ensures var v := PropertyIsValidIfPositiveInt(intSelector)(settings); v.isValid <==> v.message == ""
    ensures var v := UserEntryIsValidIfBool(tryParseBool)(userEntry); v.isValid <==> v.message == ""
    ensures var v := UserEntryIsValidIfInt(tryParseInt)(userEntry); v.isValid <==> v.message == ""
    ensures var v := UserEntryIsValidIfNotNullOrWhiteSpace()(userEntry); v.isValid <==> v.message == ""
  {
    var v := PropertyIsValidIfNotNullOrWhiteSpace(stringSelector)(settings);
    assert v.isValid <==> v.message == "" by {
      if !v.isValid { assert v.message[0] == 'V'; }
    }
    var w := PropertyIsValidIfPositiveInt(intSelector)(settings);
    assert w.isValid <==> w.message == "" by {
      if !w.isValid { assert w.message[0] == 'V'; }
    }
    var b := UserEntryIsValidIfBool(tryParseBool)(userEntry);
    assert b.isValid <==> b.message == "" by {
      if IsBlank(userEntry) { assert b.message[0] == 'T'; }
      else if !tryParseBool(userEntry) {
        assert b.message == "The value must be a boolean (true or false).";
        assert |b.message| > 0;
      }
    }
    var i := UserEntryIsValidIfInt(tryParseInt)(userEntry);
    assert i.isValid <==> i.message == "" by {
      if IsBlank(userEntry) { assert i.message[0] == 'T'; }
      else if !tryParseInt(userEntry) { assert i.message[0] == 'T'; }
    }
    var n := UserEntryIsValidIfNotNullOrWhiteSpace()(userEntry);
    assert n.isValid <==> n.message == "" by {
      if !n.isValid { assert n.message[0] == 'T'; }
    }
  }

  /** A check that stands on blankness alone, for a settings property and a
      user entry, accepts exactly what ShouldSetPropertyIfNullOrWhiteSpace
      says need not be set. */
  lemma BlankChecksAgree<T(!new)>(propertySelector: T -> string, settings: T)
    ensures PropertyIsValidIfNotNullOrWhiteSpace(propertySelector)(settings).isValid
        <==> !ShouldSetPropertyIfNullOrWhiteSpace(propertySelector)(settings)
    ensures PropertyIsValidIfNotNullOrWhiteSpace(propertySelector)(settings).isValid
        <==> UserEntryIsValidIfNotNullOrWhiteSpace()(propertySelector(settings)).isValid
  {
  }
}
