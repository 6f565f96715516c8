/** The NASA NeoWs feed as both the server and the browser receive it.  String
    fields that the code passes through `parseFloat` are kept as their parsed
    value (`Parsed`, NaN as `None`); dates the code passes to `new Date` are
    kept as milliseconds since the epoch. */
module Feed {
  import opened JsNumber

  /** One entry of `close_approach_data`. */
  datatype RawApproach = RawApproach(
    date: string,            // close_approach_date, e.g. "2024-02-15"
    dateFullMs: int,         // new Date(close_approach_date_full)
    velocityKmh: Parsed,     // parseFloat(relative_velocity.kilometers_per_hour)
    missKm: Parsed,          // parseFloat(miss_distance.kilometers)
    orbitingBody: string)

  /** One near-Earth object of a date bucket. */
  datatype RawNeo = RawNeo(
    id: string,
    name: string,
    absoluteMagnitude: real,
    diameterMinKm: real,     // estimated_diameter.kilometers.estimated_diameter_min
    diameterMaxKm: real,     // estimated_diameter.kilometers.estimated_diameter_max
    hazardous: bool,         // is_potentially_hazardous_asteroid
    approaches: seq<RawApproach>)

  /** `close_approach_data[0]` exists; reading a field of it otherwise throws
      a TypeError. */
  predicate HasApproach(neo: RawNeo) {
    |neo.approaches| > 0
  }

  function FirstApproach(neo: RawNeo): RawApproach
    requires HasApproach(neo)
  {
    neo.approaches[0]
  }
}
