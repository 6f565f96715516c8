/** The asteroid card: styles, badge and bar colour derived from the risk
    level's colour, the hazard badge and the watch label. */
module AsteroidCard {
  import opened AsteroidData

  /** `getRiskStyles`. */
  function RiskStyles(color: string): string {
    if color == "destructive" then "border-destructive/50 bg-destructive/5 shadow-[0_0_30px_-5px] shadow-destructive/20"
    else if color == "warning" then "border-warning/50 bg-warning/5 shadow-[0_0_30px_-5px] shadow-warning/20"
    else if color == "accent" then "border-accent/50 bg-accent/5"
    else "border-success/50 bg-success/5"
  }

  /** The four levels get four different card styles. */
  lemma StylesDistinguishLevels(a: int, b: int)
    ensures RiskStyles(GetRiskLevel(a).color) == RiskStyles(GetRiskLevel(b).color) <==> GetRiskLevel(a) == GetRiskLevel(b)
  {
  }

  /** `getBadgeVariant`. */
  function BadgeVariant(color: string): (v: string)
    ensures v == "destructive" <==> color == "destructive"
    ensures v == "secondary" <==> color != "destructive"
  {
    if color == "destructive" then "destructive" else "secondary"
  }

  /** The bar's background class. */
  function BarClass(color: string): (c: string)
    ensures color in {"destructive", "warning", "accent"} ==> c == "bg-" + color
    ensures color !in {"destructive", "warning", "accent"} ==> c == "bg-success"
  {
    if color == "destructive" then "bg-destructive"
    else if color == "warning" then "bg-warning"
    else if color == "accent" then "bg-accent"
    else "bg-success"
  }

  /** For every score the bar is painted in the level's own colour. */
  lemma BarFollowsLevel(score: int)
    ensures BarClass(GetRiskLevel(score).color) == "bg-" + GetRiskLevel(score).color
  {
  }

  /** The text of the level badge. */
  function LevelBadge(score: int): (s: string)
    ensures s == "Critical Risk" <==> score >= 70
    ensures s == "High Risk" <==> 50 <= score < 70
    ensures s == "Moderate Risk" <==> 30 <= score < 50
    ensures s == "Low Risk" <==> score < 30
  {
    var s := GetRiskLevel(score).name + " Risk";
    // The four texts differ in their first letter.
    assert s[0] == GetRiskLevel(score).name[0];
    assert "Critical Risk"[0] == 'C' && "High Risk"[0] == 'H';
    assert "Moderate Risk"[0] == 'M' && "Low Risk"[0] == 'L';
    s
  }

  predicate ShowsHazardBadge(a: Asteroid) {
    a.isHazardous
  }

  function WatchLabel(isWatched: bool): (s: string)
    ensures s == "Watching" <==> isWatched
    ensures s == "Watch" <==> !isWatched
  {
    if isWatched then "Watching" else "Watch"
  }
}
