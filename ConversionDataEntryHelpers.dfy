/** Text-to-value conversions behind the conversion data-entry controls.
    Each returns whether the text converted, a message for the user and the
    value. The number and date parsers of the runtime (TryParse), the
    rendering of a parsed value into the message and the trimming of a
    DateTime to whole seconds are parameters of the model. */
module ConversionDataEntryHelpers {
  import opened Wrappers
  import opened Text

  /** A DateTime as its count of 100 ns ticks; DateTime.MinValue is tick 0. */
  datatype DateTime = DateTime(ticks: int)

  const MinValue := DateTime(0)

  /** The (passed, conversionMessage, value) tuple every conversion returns. */
  datatype Conversion<T> = Conversion(passed: bool, conversionMessage: string, value: T)

  /** A runtime parser: TryParse (None when it returns false) and the
      default ToString used to render a parsed value in a message. */
  datatype Parser<!T> = Parser(tryParse: string -> Option<T>, show: T -> string)

  /** TrimNullToEmpty on a non-null string: string.Trim(). */
  function TrimNullToEmpty(s: string): string
  {
    Trim(s)
  }

  function ConvertedMessage<T>(p: Parser<T>, userText: string, v: T): string
  {
    "Converted " + userText + " to " + p.show(v)
  }

  function DateTimeConversion(p: Parser<DateTime>, trimToSeconds: DateTime -> DateTime, userText: string)
    : (r: Conversion<DateTime>)
    ensures IsBlank(userText) ==> r == Conversion(false, "Please enter a valid date", MinValue)
    ensures !IsBlank(userText) ==>
      match p.tryParse(Trim(userText))
      case Some(v) => r == Conversion(true, ConvertedMessage(p, userText, v), trimToSeconds(v))
      case None => r == Conversion(false, "Could not convert " + userText + " into an Date/Time?", MinValue)
    ensures r.passed <==> !IsBlank(userText) && p.tryParse(Trim(userText)).Some?
  {
    TrimBlank(userText);
    var cleanedUserText := TrimNullToEmpty(userText);
    if IsBlank(cleanedUserText) then Conversion(false, "Please enter a valid date", MinValue)
    else match p.tryParse(cleanedUserText)
      case Some(parsedValue) => Conversion(true, ConvertedMessage(p, userText, parsedValue), trimToSeconds(parsedValue))
      case None => Conversion(false, "Could not convert " + userText + " into an Date/Time?", MinValue)
  }

  function DateTimeNullableConversion(p: Parser<DateTime>, trimToSeconds: DateTime -> DateTime, userText: string)
    : (r: Conversion<Option<DateTime>>)
    ensures IsBlank(userText) ==> r == Conversion(true, "Found an Empty Value", None)
    ensures !IsBlank(userText) ==>
      match p.tryParse(Trim(userText))
      case Some(v) => r == Conversion(true, ConvertedMessage(p, userText, v), Some(trimToSeconds(v)))
      case None => r == Conversion(false, "Could not convert " + userText + " into an Date/Time?", Some(MinValue))
    ensures !r.passed ==> r.value == Some(MinValue)
  {
    TrimBlank(userText);
    var cleanedUserText := TrimNullToEmpty(userText);
    if IsBlank(cleanedUserText) then Conversion(true, "Found an Empty Value", None)
    else match p.tryParse(cleanedUserText)
      case Some(parsedValue) => Conversion(true, ConvertedMessage(p, userText, parsedValue), Some(trimToSeconds(parsedValue)))
      case None => Conversion(false, "Could not convert " + userText + " into an Date/Time?", Some(MinValue))
  }

  function DoubleConversion(p: Parser<real>, userText: string): (r: Conversion<real>)
    ensures IsBlank(userText) ==> r == Conversion(false, "Please enter a valid number", 0.0)
    ensures !IsBlank(userText) ==>
      match p.tryParse(Trim(userText))
      case Some(v) => r == Conversion(true, ConvertedMessage(p, userText, v), v)
      case None => r == Conversion(false, "Could not convert " + userText + " into an Number?", 0.0)
    ensures r.passed <==> !IsBlank(userText) && p.tryParse(Trim(userText)).Some?
  {
    TrimBlank(userText);
    var cleanedUserText := TrimNullToEmpty(userText);
    if IsBlank(cleanedUserText) then Conversion(false, "Please enter a valid number", 0.0)
    else match p.tryParse(cleanedUserText)
      case Some(parsedValue) => Conversion(true, ConvertedMessage(p, userText, parsedValue), parsedValue)
      case None => Conversion(false, "Could not convert " + userText + " into an Number?", 0.0)
  }

  function DoubleNullableConversion(p: Parser<real>, userText: string): (r: Conversion<Option<real>>)
    ensures IsBlank(userText) ==> r == Conversion(true, "Found an Empty Value", None)
    ensures !IsBlank(userText) ==>
      match p.tryParse(Trim(userText))
      case Some(v) => r == Conversion(true, ConvertedMessage(p, userText, v), Some(v))
      case None => r == Conversion(false, "Could not convert " + userText + " into an Number?", Some(0.0))
    ensures !r.passed ==> r.value == Some(0.0)
  {
    TrimBlank(userText);
    var cleanedUserText := TrimNullToEmpty(userText);
    if IsBlank(cleanedUserText) then Conversion(true, "Found an Empty Value", None)
    else match p.tryParse(cleanedUserText)
      case Some(parsedValue) => Conversion(true, ConvertedMessage(p, userText, parsedValue), Some(parsedValue))
      case None => Conversion(false, "Could not convert " + userText + " into an Number?", Some(0.0))
  }

  /** Blank is judged on the trimmed text, but the raw text is what is parsed. */
  function IntConversion(p: Parser<int>, userText: string): (r: Conversion<int>)
    ensures IsBlank(userText) ==> r == Conversion(false, "Please enter a valid number", 0)
    ensures !IsBlank(userText) ==>
      match p.tryParse(userText)
      case Some(v) => r == Conversion(true, ConvertedMessage(p, userText, v), v)
      case None => r == Conversion(false, "Could not convert " + userText + " into an Integer?", 0)
    ensures r.passed <==> !IsBlank(userText) && p.tryParse(userText).Some?
  {
    TrimBlank(userText);
    var cleanedUserText := TrimNullToEmpty(userText);
    if IsBlank(cleanedUserText) then Conversion(false, "Please enter a valid number", 0)
    else match p.tryParse(userText)
      case Some(parsedValue) => Conversion(true, ConvertedMessage(p, userText, parsedValue), parsedValue)
      case None => Conversion(false, "Could not convert " + userText + " into an Integer?", 0)
  }

  function IntGreaterThanZeroConversion(p: Parser<int>, userText: string): (r: Conversion<int>)
    ensures r.passed ==> r.value > 0
    ensures !r.passed ==> r.value == 0
    ensures r.passed <==> !IsBlank(userText) && p.tryParse(userText).Some? && p.tryParse(userText).value > 0
    ensures r.passed ==> r == Conversion(true, ConvertedMessage(p, userText, r.value), p.tryParse(userText).value)
    ensures !IsBlank(userText) && p.tryParse(userText).Some? && p.tryParse(userText).value <= 0 ==>
      r == Conversion(false, "Please enter a number greater than 0", 0)
    ensures IsBlank(userText) ==> r.conversionMessage == "Please enter a valid number"
    ensures !IsBlank(userText) && p.tryParse(userText).None? ==>
      r.conversionMessage == "Could not convert " + userText + " into an Integer?"
  {
    TrimBlank(userText);
    var cleanedUserText := TrimNullToEmpty(userText);
    if IsBlank(cleanedUserText) then Conversion(false, "Please enter a valid number", 0)
    else match p.tryParse(userText)
      case None => Conversion(false, "Could not convert " + userText + " into an Integer?", 0)
      case Some(parsedValue) =>
        if parsedValue <= 0 then Conversion(false, "Please enter a number greater than 0", 0)
        else Conversion(true, ConvertedMessage(p, userText, parsedValue), parsedValue)
  }

  function IntNullableConversion(p: Parser<int>, userText: string): (r: Conversion<Option<int>>)
    ensures IsBlank(userText) ==> r == Conversion(true, "Found an Empty Value", None)
    ensures !IsBlank(userText) ==>
      match p.tryParse(Trim(userText))
      case Some(v) => r == Conversion(true, ConvertedMessage(p, userText, v), Some(v))
      case None => r == Conversion(false, "Could not convert " + userText + " into an Integer?", Some(0))
    ensures !r.passed ==> r.value == Some(0)
  {
    TrimBlank(userText);
    var cleanedUserText := TrimNullToEmpty(userText);
    if IsBlank(cleanedUserText) then Conversion(true, "Found an Empty Value", None)
    else match p.tryParse(cleanedUserText)
      case Some(parsedValue) => Conversion(true, ConvertedMessage(p, userText, parsedValue), Some(parsedValue))
      case None => Conversion(false, "Could not convert " + userText + " into an Integer?", Some(0))
  }

  /** The greater-than-zero conversion agrees with the plain one except that
      it also rejects the values that are not positive. */
  lemma IntGreaterThanZeroRefinesInt(p: Parser<int>, userText: string)
    ensures IntGreaterThanZeroConversion(p, userText).passed
        <==> IntConversion(p, userText).passed && IntConversion(p, userText).value > 0
    ensures IntGreaterThanZeroConversion(p, userText).passed ==>
      IntGreaterThanZeroConversion(p, userText) == IntConversion(p, userText)
  {
  }

  /** The nullable and the plain conversion agree on every non-blank text:
      same verdict, same message, and the nullable value is the plain one. */
  lemma NullableAgreesOnNonBlank(pd: Parser<real>, pi: Parser<int>, pt: Parser<DateTime>,
                                 trimToSeconds: DateTime -> DateTime, userText: string)
    requires !IsBlank(userText)
    ensures DoubleNullableConversion(pd, userText)
         == Conversion(DoubleConversion(pd, userText).passed, DoubleConversion(pd, userText).conversionMessage,
                       Some(DoubleConversion(pd, userText).value))
    ensures DateTimeNullableConversion(pt, trimToSeconds, userText)
         == Conversion(DateTimeConversion(pt, trimToSeconds, userText).passed,
                       DateTimeConversion(pt, trimToSeconds, userText).conversionMessage,
                       Some(DateTimeConversion(pt, trimToSeconds, userText).value))
    ensures pi.tryParse(userText) == pi.tryParse(Trim(userText)) ==>
      IntNullableConversion(pi, userText)
         == Conversion(IntConversion(pi, userText).passed, IntConversion(pi, userText).conversionMessage,
                       Some(IntConversion(pi, userText).value))
  {
  }
}
