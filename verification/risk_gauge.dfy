/** The small half-circle risk gauge: its geometry per size, its label and
    colour, and its unclamped progress. */
module RiskGauge {
  import opened AsteroidData

  datatype Size = Sm | Md | Lg

  function Width(s: Size): int {
    match s
    case Sm => 80
    case Md => 120
    case Lg => 160
  }

  function Stroke(s: Size): int {
    match s
    case Sm => 8
    case Md => 10
    case Lg => 12
  }

  /** `(width - stroke) / 2`: the arc sits inside the box, half a stroke in. */
  function Radius(s: Size): (r: real)
    ensures 2.0 * r + Stroke(s) as real == Width(s) as real
    ensures r == match s case Sm => 36.0 case Md => 55.0 case Lg => 74.0
  {
    (Width(s) - Stroke(s)) as real / 2.0
  }

  /** `getLabel`. */
  function Label(score: int): (l: string)
    ensures l == GetRiskLevel(score).name
  {
    if score >= 70 then "Critical" else if score >= 50 then "High" else if score >= 30 then "Moderate" else "Low"
  }

  /** `getColor`, annotated with the theme colour each value stands for. */
  function Color(score: int): (c: string)
    ensures c == "hsl(0 84% 60%)" <==> GetRiskLevel(score).color == "destructive"
    ensures c == "hsl(38 92% 50%)" <==> GetRiskLevel(score).color == "warning"
    ensures c == "hsl(270 100% 65%)" <==> GetRiskLevel(score).color == "accent"
    ensures c == "hsl(142 76% 45%)" <==> GetRiskLevel(score).color == "success"
  {
    if score >= 70 then "hsl(0 84% 60%)"
    else if score >= 50 then "hsl(38 92% 50%)"
    else if score >= 30 then "hsl(270 100% 65%)"
    else "hsl(142 76% 45%)"
  }

  /** Label and colour switch at the same scores. */
  lemma LabelAndColorAgree(a: int, b: int)
    ensures Label(a) == Label(b) <==> Color(a) == Color(b)
  {
  }

  /** `score / 100`: the share of the arc drawn, not clamped. */
  function ProgressFraction(score: int): (f: real)
    ensures f * 100.0 == score as real
  {
    score as real / 100.0
  }

  /** Out-of-range scores overdraw or underdraw the arc. */
  lemma ProgressUnclamped()
    ensures ProgressFraction(150) > 1.0
    ensures ProgressFraction(-10) < 0.0
  {
  }
}
