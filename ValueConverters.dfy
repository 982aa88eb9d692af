/** The boxed values a WPF value converter receives and the Visibility it
    may return. */
module ConverterValues {
  import opened Wrappers

  /** An `object?` as the converters distinguish it: null, a boxed bool, a
      string, or any other object with whatever its ToString() returns
      (which may be null). */
  datatype Object = Null | Boolean(b: bool) | Str(s: string) | OtherObject(toString: Option<string>)

  /** `value?.ToString()`. */
  function ToStringOrNull(value: Object): (s: Option<string>)
    ensures s.None? <==> value.Null? || (value.OtherObject? && value.toString.None?)
  {
    match value
    case Null => None
    case Boolean(b) => Some(if b then "True" else "False")
    case Str(s) => Some(s)
    case OtherObject(t) => t
  }

  datatype Visibility = Visible | Hidden | Collapsed
}

/** Visible only when every bound value is the boolean false. */
module VisibleWhenAllFalseOtherwiseCollapsedMultiConverter {
  import opened Wrappers
  import opened ConverterValues

  method Convert(values: Option<seq<Object>>) returns (r: Visibility)
    ensures r == Visible || r == Collapsed
    ensures r == Visible <==> values.Some? && |values.value| > 0
                              && forall i :: 0 <= i < |values.value| ==> values.value[i] == Boolean(false)
  {
    if values.None? { return Collapsed; }
    var vs := values.value;
    if |vs| == 0 { return Collapsed; }
    var i := 0;
    while i < |vs|
      invariant 0 <= i <= |vs|
      invariant forall k :: 0 <= k < i ==> vs[k] == Boolean(false)
    {
      if vs[i] == Boolean(false) {
        i := i + 1;
        continue;
      }
      return Collapsed;
    }
    return Visible;
  }

  /** ConvertBack is not implemented: it always throws. */
  function ConvertBack(value: Object): (r: Result<seq<Object>>)
    ensures r == Failure(NotImplementedException)
  {
    Failure(NotImplementedException)
  }
}

/** False for null, empty or white-space text; true otherwise. */
module NullOrWhiteSpaceStringToFalseConverter {
  import opened Wrappers
  import opened Text
  import opened ConverterValues

  function Convert(value: Object): (r: bool)
    ensures value.Null? ==> !r
    ensures value.Str? ==> (r <==> !IsBlank(value.s))
    ensures r <==> ToStringOrNull(value).Some? && !IsBlank(ToStringOrNull(value).value)
  {
    if IsNullOrWhiteSpace(ToStringOrNull(value)) then false else true
  }

  function ConvertBack(value: Object): (r: Result<Object>)
    ensures r == Failure(NotSupportedException)
  {
    Failure(NotSupportedException)
  }
}

/** True for null, empty or white-space text; false otherwise. */
module NullOrWhiteSpaceStringToTrueConverter {
  import opened Wrappers
  import opened Text
  import opened ConverterValues
  import ToFalse = NullOrWhiteSpaceStringToFalseConverter

  function Convert(value: Object): (r: bool)
    ensures value.Null? ==> r
    ensures value.Str? ==> (r <==> IsBlank(value.s))
    ensures r <==> ToStringOrNull(value).None? || IsBlank(ToStringOrNull(value).value)
  {
    if IsNullOrWhiteSpace(ToStringOrNull(value)) then true else false
  }

  function ConvertBack(value: Object): (r: Result<Object>)
    ensures r == Failure(NotSupportedException)
  {
    Failure(NotSupportedException)
  }

  /** The two converters are each other's negation on every input. */
  lemma ConvertNegatesToFalse(value: Object)
    ensures Convert(value) == !ToFalse.Convert(value)
  {
  }

  /** Booleans always render as non-blank text. */
  lemma BooleansAreNotBlank(b: bool)
    ensures !Convert(Boolean(b)) && ToFalse.Convert(Boolean(b))
  {
    var s := if b then "True" else "False";
    assert !IsWhiteSpace(s[0]);
  }
}
