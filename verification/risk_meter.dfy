/** The dashboard's radar risk meter: its band, colour, clamped arc progress,
    critical pulse and bar fill.  The dashboard passes its average score,
    which is NaN for an empty list; `None` stands for that NaN, and every
    comparison with it is false. */
module RiskMeter3D {
  import opened AsteroidData
  import JsNumber
  import Dashboard
  import opened Wrappers

  datatype Band = Band(name: string, cls: string)

  /** `score >= c` evaluated by JavaScript. */
  predicate AtLeast(score: Option<int>, c: int) {
    score.Some? && score.value >= c
  }

  /** `getRiskBand`: a NaN score falls through every threshold to Low. */
  function GetRiskBand(score: Option<int>): (b: Band)
    ensures score.None? ==> b == Band("Low", "")
    ensures score.Some? ==> b.name == GetRiskLevel(score.value).name
    ensures b.cls == Dashboard.RiskFillClass(score)
  {
    if AtLeast(score, 70) then Band("Critical", "is-critical")
    else if AtLeast(score, 50) then Band("High", "is-high")
    else if AtLeast(score, 30) then Band("Moderate", "is-moderate")
    else Band("Low", "")
  }

  /** The arc and needle colour, switching at the band thresholds. */
  function Color(score: Option<int>): (c: string)
    ensures c == "rgba(255, 80, 120, 0.95)" <==> GetRiskBand(score).name == "Critical"
    ensures c == "rgba(255, 165, 55, 0.95)" <==> GetRiskBand(score).name == "High"
    ensures c == "rgba(255, 214, 85, 0.95)" <==> GetRiskBand(score).name == "Moderate"
    ensures c == "rgba(45, 255, 192, 0.95)" <==> GetRiskBand(score).name == "Low"
  {
    if AtLeast(score, 70) then "rgba(255, 80, 120, 0.95)"
    else if AtLeast(score, 50) then "rgba(255, 165, 55, 0.95)"
    else if AtLeast(score, 30) then "rgba(255, 214, 85, 0.95)"
    else "rgba(45, 255, 192, 0.95)"
  }

  /** `Math.max(0, Math.min(score, 100)) / 100`: the filled share of the arc;
      NaN stays NaN through both clamps. */
  function ProgressFraction(score: Option<int>): (f: Option<real>)
    ensures f.None? <==> score.None?
    ensures f.Some? ==> 0.0 <= f.value <= 1.0
    ensures f.Some? && 0 <= score.value <= 100 ==> f.value == score.value as real / 100.0
    ensures f.Some? && score.value <= 0 ==> f.value == 0.0
    ensures f.Some? && score.value >= 100 ==> f.value == 1.0
  {
    match score
    case None => None
    case Some(v) => Some(JsNumber.Max(0, JsNumber.Min(v, 100)) as real / 100.0)
  }

  /** A higher score never fills less of the arc. */
  lemma ProgressMonotone(a: int, b: int)
    requires a <= b
    ensures ProgressFraction(Some(a)).value <= ProgressFraction(Some(b)).value
  {
  }

  /** The wrapper's pulse class: it pulses exactly when the dashboard's risk
      panel turns red. */
  function PulseClass(score: Option<int>): (c: string)
    ensures c == "cw-pulseCritical" <==> score.Some? && GetRiskLevel(score.value) == Critical
    ensures c == "cw-pulseCritical" <==> Dashboard.CriticalAccent(score)
    ensures c == "" <==> !AtLeast(score, 70)
  {
    if AtLeast(score, 70) then "cw-pulseCritical" else ""
  }

  /** `Math.min(score, 100)` percent, the same fill the dashboard bar uses;
      NaN gives a NaN width. */
  function BarPercent(score: Option<int>): (p: Option<int>)
    ensures p.None? <==> score.None?
    ensures p.Some? ==> p.value <= 100 && p.value <= score.value
    ensures p.Some? && score.value <= 100 ==> p == score
    ensures p == Dashboard.RiskFillPercent(score)
  {
    match score
    case None => None
    case Some(v) => Some(JsNumber.Min(v, 100))
  }

  /** With no asteroids the average is NaN: the meter shows the Low band in
      green, does not pulse, and has neither arc progress nor bar width. */
  lemma EmptyListMeter(xs: seq<Asteroid>)
    requires |xs| == 0
    ensures GetRiskBand(Dashboard.AvgRiskScore(xs)) == Band("Low", "")
    ensures Color(Dashboard.AvgRiskScore(xs)) == "rgba(45, 255, 192, 0.95)"
    ensures PulseClass(Dashboard.AvgRiskScore(xs)) == ""
    ensures ProgressFraction(Dashboard.AvgRiskScore(xs)).None?
    ensures BarPercent(Dashboard.AvgRiskScore(xs)).None?
  {
  }
}
