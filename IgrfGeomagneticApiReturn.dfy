/** The JSON reply of the online IGRF calculator, as deserialised objects
    whose reference-typed properties may be null, and its presence check. */
module IgrfGeomagneticApiReturn {
  import opened Wrappers

  /** Every leaf object of the reply: a unit label and a number. */
  datatype Measure = Measure(units: string, value: real)

  datatype Date = Date(value: string)

  datatype Coordinates = Coordinates(altitude: Option<Measure>, latitude: Option<Measure>, longitude: Option<Measure>)

  /** The `field-value` and `secular-variation` objects share this shape. */
  datatype FieldValue = FieldValue(
    declination: Option<Measure>,
    eastIntensity: Option<Measure>,
    horizontalIntensity: Option<Measure>,
    inclination: Option<Measure>,
    northIntensity: Option<Measure>,
    totalIntensity: Option<Measure>,
    verticalIntensity: Option<Measure>)

  datatype GeomagneticFieldResult = GeomagneticFieldResult(
    coordinates: Option<Coordinates>,
    date: Option<Date>,
    fieldValue: Option<FieldValue>,
    model: string,
    modelRevision: string,
    secularVariation: Option<FieldValue>)

  datatype IgrfGeomagneticApiReturn = IgrfGeomagneticApiReturn(geomagneticFieldModelResult: Option<GeomagneticFieldResult>)

  const MissingFieldsMessage := "Invalid response: One or more required fields are missing."

  /** All seven entries of a field-value object are present. */
  predicate AllFieldValuesPresent(f: FieldValue)
  {
    f.declination.Some? && f.eastIntensity.Some? && f.horizontalIntensity.Some?
    && f.inclination.Some? && f.northIntensity.Some? && f.totalIntensity.Some?
    && f.verticalIntensity.Some?
  }

  /** Validate either returns normally or throws InvalidOperationException. */
  function Validate(r: IgrfGeomagneticApiReturn): (outcome: Result<()>)
    ensures outcome.Success? <==>
      r.geomagneticFieldModelResult.Some?
      && r.geomagneticFieldModelResult.value.fieldValue.Some?
      && AllFieldValuesPresent(r.geomagneticFieldModelResult.value.fieldValue.value)
    ensures outcome.Failure? ==> outcome.error == InvalidOperationException(MissingFieldsMessage)
  {
    match r.geomagneticFieldModelResult
    case None => Failure(InvalidOperationException(MissingFieldsMessage))
    case Some(result) =>
      match result.fieldValue
      case None => Failure(InvalidOperationException(MissingFieldsMessage))
      case Some(f) =>
        if f.declination.None? || f.eastIntensity.None? || f.horizontalIntensity.None?
           || f.inclination.None? || f.northIntensity.None? || f.totalIntensity.None?
           || f.verticalIntensity.None?
        then Failure(InvalidOperationException(MissingFieldsMessage))
        else Success(())
  }

  /** The secular-variation object, the coordinates and the date play no part
      in Validate: replacing them, even with null, never changes its outcome. */
  lemma ValidateIgnoresOptionalParts(result: GeomagneticFieldResult, sv: Option<FieldValue>,
                                     coordinates: Option<Coordinates>, date: Option<Date>)
    ensures Validate(IgrfGeomagneticApiReturn(Some(result)))
         == Validate(IgrfGeomagneticApiReturn(Some(result.(secularVariation := sv, coordinates := coordinates, date := date))))
  {
  }

  /** Dropping any single one of the seven field values makes Validate throw. */
  lemma ValidateRejectsEachMissingValue(result: GeomagneticFieldResult, f: FieldValue, k: int)
    requires 0 <= k < 7
    ensures var g :=
              if k == 0 then f.(declination := None)
              else if k == 1 then f.(eastIntensity := None)
              else if k == 2 then f.(horizontalIntensity := None)
              else if k == 3 then f.(inclination := None)
              else if k == 4 then f.(northIntensity := None)
              else if k == 5 then f.(totalIntensity := None)
              else f.(verticalIntensity := None);
            Validate(IgrfGeomagneticApiReturn(Some(result.(fieldValue := Some(g)))))
              == Failure(InvalidOperationException(MissingFieldsMessage))
  {
  }
}
