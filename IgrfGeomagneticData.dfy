/** The result record of a geomagnetic-field evaluation. */
module IgrfGeomagneticData {
  import opened Calendar

  /** Instantaneous field values (degrees for angles, nT for intensities)
      and their secular variation (arc-minutes per year for angles, nT per year
      for intensities), with the query that produced them. */
  datatype IgrfGeomagneticData = IgrfGeomagneticData(
    altitudeInMeters: real,
    date: DateOnly,
    declination: real,
    eastComponent: real,
    horizontalIntensity: real,
    inclination: real,
    latitude: real,
    longitude: real,
    northComponent: real,
    secularVariationDeclination: real,
    secularVariationEast: real,
    secularVariationHorizontalIntensity: real,
    secularVariationInclination: real,
    secularVariationNorth: real,
    secularVariationTotalIntensity: real,
    secularVariationVertical: real,
    totalIntensity: real,
    verticalComponent: real)
}
