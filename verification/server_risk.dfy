/** The server's banded risk heuristic (`calculateRiskScore` in the risk
    service): four independent additive bands, capped at 100. */
module ServerRisk {
  import opened Wrappers
  import opened JsNumber
  import opened Feed

  /** Hazard flag band: 40 points or none. */
  function HazardPoints(hazardous: bool): (p: int)
    ensures p == 40 <==> hazardous
    ensures p == 0 <==> !hazardous
  {
    if hazardous then 40 else 0
  }

  /** Miss-distance band, first match wins from the smallest threshold. */
  function DistancePoints(missKm: Parsed): (p: int)
    ensures p == 30 <==> missKm.Some? && missKm.value < 1000000.0
    ensures p == 20 <==> missKm.Some? && 1000000.0 <= missKm.value < 5000000.0
    ensures p == 10 <==> missKm.Some? && 5000000.0 <= missKm.value < 10000000.0
    ensures p == 5 <==> missKm.Some? && 10000000.0 <= missKm.value < 30000000.0
    ensures p == 0 <==> missKm.None? || missKm.value >= 30000000.0
  {
    if Lt(missKm, 1000000.0) then 30
    else if Lt(missKm, 5000000.0) then 20
    else if Lt(missKm, 10000000.0) then 10
    else if Lt(missKm, 30000000.0) then 5
    else 0
  }

  /** Diameter band on the estimated maximum, strict comparisons. */
  function DiameterPoints(maxKm: real): (p: int)
    ensures p == 20 <==> maxKm > 1.0
    ensures p == 15 <==> 0.5 < maxKm <= 1.0
    ensures p == 10 <==> 0.1 < maxKm <= 0.5
    ensures p == 5 <==> 0.05 < maxKm <= 0.1
    ensures p == 0 <==> maxKm <= 0.05
  {
    if maxKm > 1.0 then 20
    else if maxKm > 0.5 then 15
    else if maxKm > 0.1 then 10
    else if maxKm > 0.05 then 5
    else 0
  }

  /** Relative-velocity band, strict comparisons. */
  function VelocityPoints(kmh: Parsed): (p: int)
    ensures p == 10 <==> kmh.Some? && kmh.value > 100000.0
    ensures p == 7 <==> kmh.Some? && 70000.0 < kmh.value <= 100000.0
    ensures p == 4 <==> kmh.Some? && 40000.0 < kmh.value <= 70000.0
    ensures p == 0 <==> kmh.None? || kmh.value <= 40000.0
  {
    if Gt(kmh, 100000.0) then 10
    else if Gt(kmh, 70000.0) then 7
    else if Gt(kmh, 40000.0) then 4
    else 0
  }

  /** The score of already extracted telemetry.  The band maxima add up to
      exactly 100, so the final `Math.min(score, 100)` never clips. */
  function Score(hazardous: bool, missKm: Parsed, maxDiameterKm: real, velocityKmh: Parsed): (score: int)
    ensures 0 <= score <= 100
    ensures score == HazardPoints(hazardous) + DistancePoints(missKm)
                     + DiameterPoints(maxDiameterKm) + VelocityPoints(velocityKmh)
  {
    Min(HazardPoints(hazardous) + DistancePoints(missKm)
        + DiameterPoints(maxDiameterKm) + VelocityPoints(velocityKmh), 100)
  }

  /** `calculateRiskScore(neo)`: `None` when the object has no close-approach
      entry, where reading `close_approach_data[0].miss_distance` throws. */
  function CalculateRiskScore(neo: RawNeo): (r: Option<int>)
    ensures r.Some? <==> HasApproach(neo)
    ensures r.Some? ==> 0 <= r.value <= 100
    ensures r.Some? && neo.hazardous ==> r.value >= 40
    ensures r.Some? && !neo.hazardous ==> r.value <= 60
  {
    if !HasApproach(neo) then None
    else
      var a := FirstApproach(neo);
      Some(Score(neo.hazardous, a.missKm, neo.diameterMaxKm, a.velocityKmh))
  }

  /** The hazard flag is worth exactly 40 points, whatever the other bands. */
  lemma HazardAddsForty(missKm: Parsed, maxDiameterKm: real, velocityKmh: Parsed)
    ensures Score(true, missKm, maxDiameterKm, velocityKmh)
            == Score(false, missKm, maxDiameterKm, velocityKmh) + 40
  {
  }

  /** A closer approach never lowers the score. */
  lemma CloserNeverLowers(hazardous: bool, near: real, far: real, maxDiameterKm: real, velocityKmh: Parsed)
    requires near <= far
    ensures Score(hazardous, Some(near), maxDiameterKm, velocityKmh)
            >= Score(hazardous, Some(far), maxDiameterKm, velocityKmh)
  {
  }

  /** A larger object never lowers the score. */
  lemma LargerNeverLowers(hazardous: bool, missKm: Parsed, small: real, large: real, velocityKmh: Parsed)
    requires small <= large
    ensures Score(hazardous, missKm, large, velocityKmh) >= Score(hazardous, missKm, small, velocityKmh)
  {
  }

  /** A faster object never lowers the score. */
  lemma FasterNeverLowers(hazardous: bool, missKm: Parsed, maxDiameterKm: real, slow: real, fast: real)
    requires slow <= fast
    ensures Score(hazardous, missKm, maxDiameterKm, Some(fast))
            >= Score(hazardous, missKm, maxDiameterKm, Some(slow))
  {
  }

  /** An unparseable distance or velocity scores like one beyond every band. */
  lemma NaNScoresNothing(hazardous: bool, maxDiameterKm: real)
    ensures Score(hazardous, None, maxDiameterKm, None)
            == Score(hazardous, Some(30000000.0), maxDiameterKm, Some(40000.0))
            == HazardPoints(hazardous) + DiameterPoints(maxDiameterKm)
  {
  }

  /** The two reference points: every band at its maximum, and none at all. */
  lemma ReferenceScores()
    ensures Score(true, Some(500000.0), 1.2, Some(120000.0)) == 100
    ensures Score(false, Some(50000000.0), 0.01, Some(10000.0)) == 0
  {
  }
}
