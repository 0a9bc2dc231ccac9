/** Rows shared by the leaderboard, the profile page and the update script. */
module Records {

  /** A nullable value: a missing row, a null column or an absent JSON field. */
  datatype Option<T> = None | Some(value: T)

  /** Four-letter ICAO airport code, e.g. "KATL". */
  type StationId = string

  /** Calendar date in ISO form, "YYYY-MM-DD". */
  type Date = string

  type UserId = string

  /**
   * A row of the `predictions` table. Temperatures are whole degrees, wind speed
   * whole knots, wind direction whole degrees, precipitation hundredths of an inch.
   */
  datatype Prediction = Prediction(
    userId: UserId,
    stationId: StationId,
    predictionDate: Date,
    pHigh: int,
    pWindSpeed: int,
    pWindDir: int,
    pPrecip: int)

  /**
   * A row of the `actual_weather` table, one per (station, date): `temp` is the
   * running daily high and `minTemp` the running daily low (a column that may be
   * null).
   */
  datatype Observation = Observation(
    stationId: StationId,
    date: Date,
    currentTemp: int,
    temp: int,
    minTemp: Option<int>,
    windSpeed: int,
    windDir: int,
    precip: int,
    updatedAt: int)
}
