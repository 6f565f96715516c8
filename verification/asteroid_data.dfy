/** The browser's asteroid record, its own risk heuristic (different from the
    server's: distance in lunar units, heavier diameter weight, no velocity
    term), the four-level risk banding and the display formatters. */
module AsteroidData {
  import opened Wrappers
  import opened JsNumber
  import opened Text
  import opened Grouping
  import ServerRisk

  datatype Diameter = Diameter(min: real, max: real, unit: string)

  /** The `Asteroid` interface. */
  datatype Asteroid = Asteroid(
    id: string,
    name: string,
    nasaId: string,
    diameter: Diameter,
    velocity: Parsed,
    missDistance: Parsed,
    isHazardous: bool,
    closeApproachDate: string,
    orbitingBody: string,
    riskScore: int,
    absoluteMagnitude: real)

  /** Kilometres per lunar distance. */
  const LunarKm: real := 384400.0

  /** `missDistance / 384400`; NaN stays NaN. */
  function InLunarDistances(missKm: Parsed): (l: Parsed)
    ensures l.Some? <==> missKm.Some?
    ensures l.Some? ==> l.value * LunarKm == missKm.value
  {
    if missKm.None? then None else Some(missKm.value / LunarKm)
  }

  /** Distance band: three bands in lunar units, nothing beyond ten. */
  function DistancePoints(missKm: Parsed): (p: int)
    ensures p == 30 <==> missKm.Some? && missKm.value < 384400.0
    ensures p == 20 <==> missKm.Some? && 384400.0 <= missKm.value < 1922000.0
    ensures p == 10 <==> missKm.Some? && 1922000.0 <= missKm.value < 3844000.0
    ensures p == 0 <==> missKm.None? || missKm.value >= 3844000.0
  {
    var lunar := InLunarDistances(missKm);
    if Lt(lunar, 1.0) then 30
    else if Lt(lunar, 5.0) then 20
    else if Lt(lunar, 10.0) then 10
    else 0
  }

  /** Diameter band on the maximum estimate, strict comparisons. */
  function DiameterPoints(maxKm: real): (p: int)
    ensures p == 30 <==> maxKm > 1.0
    ensures p == 20 <==> 0.5 < maxKm <= 1.0
    ensures p == 10 <==> 0.1 < maxKm <= 0.5
    ensures p == 0 <==> maxKm <= 0.1
  {
    if maxKm > 1.0 then 30
    else if maxKm > 0.5 then 20
    else if maxKm > 0.1 then 10
    else 0
  }

  /** The client `calculateRiskScore`.  It reads only the hazard flag, the miss
      distance and the maximum diameter; 40 + 30 + 30 is exactly 100, so the
      final `Math.min(score, 100)` never clips. */
  function CalculateRiskScore(isHazardous: bool, missDistance: Parsed, diameterMax: real): (score: int)
    ensures 0 <= score <= 100
    ensures isHazardous ==> score >= 40
    ensures !isHazardous ==> score <= 60
    ensures score == (if isHazardous then 40 else 0) + DistancePoints(missDistance) + DiameterPoints(diameterMax)
  {
    var score := (if isHazardous then 40 else 0) + DistancePoints(missDistance) + DiameterPoints(diameterMax);
    Min(score, 100)
  }

  /** The score of a built record. */
  function ScoreOf(a: Asteroid): int {
    CalculateRiskScore(a.isHazardous, a.missDistance, a.diameter.max)
  }

  /** A closer pass never lowers the client score. */
  lemma ClientCloserNeverLowers(hazardous: bool, near: real, far: real, diameterMax: real)
    requires near <= far
    ensures CalculateRiskScore(hazardous, Some(near), diameterMax)
            >= CalculateRiskScore(hazardous, Some(far), diameterMax)
  {
  }

  /** A larger object never lowers the client score. */
  lemma ClientLargerNeverLowers(hazardous: bool, missDistance: Parsed, small: real, large: real)
    requires small <= large
    ensures CalculateRiskScore(hazardous, missDistance, large)
            >= CalculateRiskScore(hazardous, missDistance, small)
  {
  }

  /** The client heuristic has no velocity term: the speed never matters. */
  lemma ClientIgnoresVelocity(a: Asteroid, v: Parsed)
    ensures ScoreOf(a.(velocity := v)) == ScoreOf(a)
  {
  }

  /** The two heuristics are different functions and are kept apart: the
      browser has no fourth distance band, no smallest diameter band and no
      velocity term, and weighs diameter more heavily. */
  lemma ScorersDisagree()
    ensures ServerRisk.Score(false, Some(20000000.0), 0.07, Some(50000.0)) == 14
    ensures CalculateRiskScore(false, Some(20000000.0), 0.07) == 0
    ensures ServerRisk.Score(false, Some(300000.0), 0.7, Some(0.0)) == 45
    ensures CalculateRiskScore(false, Some(300000.0), 0.7) == 50
  {
  }

  /** `getRiskLevel`'s result. */
  datatype RiskLevel = RiskLevel(name: string, color: string)

  const Critical := RiskLevel("Critical", "destructive")
  const High := RiskLevel("High", "warning")
  const Moderate := RiskLevel("Moderate", "accent")
  const Low := RiskLevel("Low", "success")

  /** `getRiskLevel`: total over the integers, four bands at 70/50/30. */
  function GetRiskLevel(score: int): (r: RiskLevel)
    ensures r == Critical <==> score >= 70
    ensures r == High <==> 50 <= score < 70
    ensures r == Moderate <==> 30 <= score < 50
    ensures r == Low <==> score < 30
  {
    if score >= 70 then Critical
    else if score >= 50 then High
    else if score >= 30 then Moderate
    else Low
  }

  /** Severity order of the four levels, Low lowest. */
  function Rank(r: RiskLevel): nat {
    if r == Critical then 3 else if r == High then 2 else if r == Moderate then 1 else 0
  }

  /** A higher score never gets a lower level. */
  lemma RiskLevelMonotone(a: int, b: int)
    requires a <= b
    ensures Rank(GetRiskLevel(a)) <= Rank(GetRiskLevel(b))
  {
  }

  /** `n` as two digits, with a leading zero below ten. */
  function TwoDigits(n: nat): (s: string)
    requires n < 100
    ensures |s| == 2 && AllDigits(s) && Value(s) == n
  {
    var s := [DigitChar(n / 10), DigitChar(n % 10)];
    assert s[..1] == [DigitChar(n / 10)] && s[..1][..0] == [];
    assert Value(s[..1]) == n / 10;
    assert Value(s) == 10 * (n / 10) + n % 10;
    s
  }

  /** `(km / 1000000).toFixed(2)` for a natural `km`: the number of millions
      rounded half up to hundredths. */
  function MillionsFixed2(km: nat): (s: string)
    ensures exists whole: nat, frac: string ::
              |frac| == 2 && AllDigits(frac) && s == Digits(whole) + "." + frac
              && 100 * whole + Value(frac) == (km + 5000) / 10000
  {
    var hundredths := (km + 5000) / 10000;
    var frac := TwoDigits(hundredths % 100);
    Digits(hundredths / 100) + "." + frac
  }

  /** `formatDistance(km)` for a natural `km`. */
  function FormatDistance(km: nat): (r: string)
    ensures EndsWith(r, "M km") <==> km >= 1000000
    ensures km >= 1000000 ==> r == MillionsFixed2(km) + "M km"
    ensures km < 1000000 ==> EndsWith(r, " km") && RemoveCommas(r[..|r| - 3]) == Digits(km)
    ensures km < 1000000 ==> r[0] != ','
    ensures km < 1000000 ==> r[..|r| - 3] == Join(Groups(Digits(km)))
  {
    if km >= 1000000 then
      MillionsFixed2(km) + "M km"
    else
      var g := GroupDigits(km);
      KmSuffix(g);
      g + " km"
  }

  /** Grouped digits followed by " km" end in " km" but not in "M km", and
      dropping the suffix gives the digits back. */
  lemma KmSuffix(g: string)
    requires |g| > 0 && IsDigit(g[|g| - 1])
    ensures EndsWith(g + " km", " km") && !EndsWith(g + " km", "M km")
    ensures (g + " km")[..|g|] == g && (g + " km")[0] == g[0]
  {
    var r := g + " km";
    assert r[|r| - 4] == g[|g| - 1];
    assert r[|r| - 3..] == " km";
  }

  /** `formatVelocity(kmh)` for a natural `kmh`. */
  function FormatVelocity(kmh: nat): (r: string)
    ensures EndsWith(r, " km/h")
    ensures r[0] != ',' && RemoveCommas(r[..|r| - 5]) == Digits(kmh)
    ensures r[..|r| - 5] == Join(Groups(Digits(kmh)))
  {
    var g := GroupDigits(kmh);
    var r := g + " km/h";
    assert r[..|r| - 5] == g;
    r
  }

  /** A concrete rendering: 1234567 becomes "1,234,567". */
  lemma FormatExample()
    ensures GroupDigits(1234567) == "1,234,567"
  {
    DigitsExample();
    GroupsExample();
    JoinExample();
  }

  lemma JoinExample()
    ensures Join(["1", "234", "567"]) == "1,234,567"
  {
    var gs: seq<string> := ["1", "234", "567"];
    assert gs[..2] == ["1", "234"] && ["1", "234"][..1] == ["1"];
    assert Join(["1", "234"]) == "1,234";
  }

  lemma DigitsExample()
    ensures Digits(1234567) == "1234567"
  {
    assert Digits(1) == "1";
    assert Digits(12) == "12";
    assert Digits(123) == "123";
    assert Digits(1234) == "1234";
    assert Digits(12345) == "12345";
    assert Digits(123456) == "123456";
  }

  lemma GroupsExample()
    ensures Groups("1234567") == ["1", "234", "567"]
  {
    var d := "1234567";
    assert d[..4] == "1234" && d[4..] == "567";
    assert "1234"[..1] == "1" && "1234"[1..] == "234";
    assert Groups("1") == ["1"];
    assert Groups("1234") == ["1", "234"];
  }
}
