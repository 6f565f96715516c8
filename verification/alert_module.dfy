/** One alert card: its type heading, the unread pulse and the actions it
    offers. */
module AlertModule {
  import opened AlertsPage

  datatype TypeMeta = TypeMeta(heading: string, accent: string)

  /** `typeMeta`: total, with "Risk Threshold" for every other type. */
  function TypeMetaOf(kind: string): (m: TypeMeta)
    ensures m.heading == "Hazardous Detection" <==> kind == "hazardous"
    ensures m.heading == "Close Approach" <==> kind == "approach"
    ensures m.heading == "Risk Threshold" <==> kind != "hazardous" && kind != "approach"
  {
    if kind == "hazardous" then TypeMeta("Hazardous Detection", "rgba(255,80,120,0.35)")
    else if kind == "approach" then TypeMeta("Close Approach", "rgba(255,165,55,0.30)")
    else TypeMeta("Risk Threshold", "rgba(87,185,255,0.25)")
  }

  /** The card's heading and the Alerts page's badge classify every type
      string the same way. */
  lemma HeadingMatchesBadge(kind: string)
    ensures TypeMetaOf(kind).heading == "Risk Threshold" <==> BadgeLabel(kind) == "Threshold"
    ensures TypeMetaOf(kind).heading == "Hazardous Detection" <==> BadgeLabel(kind) == "Hazardous"
  {
  }

  function PulseClass(a: Alert): (c: string)
    ensures c == "cw-pulseCritical" <==> !a.read
    ensures c == "" <==> a.read
  {
    if a.read then "" else "cw-pulseCritical"
  }

  datatype Action = MarkRead | Remove

  /** The buttons, left to right. */
  function Actions(a: Alert): (acts: seq<Action>)
    ensures Remove in acts && acts[|acts| - 1] == Remove
    ensures MarkRead in acts <==> !a.read
    ensures |acts| == if a.read then 1 else 2
  {
    if a.read then [Remove] else [MarkRead, Remove]
  }

  /** Once marked, the cards with that id stop pulsing and no longer offer
      "Mark Read". */
  lemma MarkedCardsSettle(alerts: seq<Alert>, id: string)
    ensures forall a :: a in MarkAsRead(alerts, id) && a.id == id ==>
              PulseClass(a) == "" && Actions(a) == [Remove]
  {
    MarkAsReadIdempotent(alerts, id);
  }
}
