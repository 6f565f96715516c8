/** One asteroid tile of the dashboard and watchlist grids: risk class, bar
    fill, labels and what its two buttons call. */
module AsteroidTile {
  import opened AsteroidData
  import RiskMeter3D
  import JsNumber
  import opened Wrappers

  /** `riskClass`. */
  function RiskClass(score: int): (c: string)
    ensures c == RiskMeter3D.GetRiskBand(Some(score)).cls
    ensures c == "is-critical" <==> GetRiskLevel(score) == Critical
  {
    if score >= 70 then "is-critical"
    else if score >= 50 then "is-high"
    else if score >= 30 then "is-moderate"
    else ""
  }

  function BarPercent(a: Asteroid): (p: int)
    ensures Some(p) == RiskMeter3D.BarPercent(Some(a.riskScore))
    ensures p <= 100
  {
    JsNumber.Min(a.riskScore, 100)
  }

  function WatchLabel(isWatched: bool): (s: string)
    ensures s == "Unwatch" <==> isWatched
    ensures s == "Watch" <==> !isWatched
  {
    if isWatched then "Unwatch" else "Watch"
  }

  function Status(a: Asteroid): (s: string)
    ensures s == "HAZARDOUS" <==> a.isHazardous
    ensures s == "MONITORED" <==> !a.isHazardous
  {
    if a.isHazardous then "HAZARDOUS" else "MONITORED"
  }

  datatype Button = ChatButton | WatchButton

  /** The callback a click makes: `onWatch(asteroid.id)`, or `onChat(asteroid)`
      when an `onChat` was passed. */
  datatype Call = OnWatch(id: string) | OnChat(asteroid: Asteroid)

  function Click(b: Button, a: Asteroid, hasOnChat: bool): (c: seq<Call>)
    ensures b == WatchButton ==> c == [OnWatch(a.id)]
    ensures b == ChatButton ==> (c == [OnChat(a)] <==> hasOnChat) && (c == [] <==> !hasOnChat)
  {
    match b
    case WatchButton => [OnWatch(a.id)]
    case ChatButton => if hasOnChat then [OnChat(a)] else []
  }
}
