/** The Alerts page's list state: unread count, received alerts, mark-as-read,
    delete, the scientist gate and the hand-off of a newly created alert. */
module AlertsPage {
  import opened Wrappers
  import opened Text
  import Seqs

  /** The page's `Alert`; `kind` is the `type` string as received. */
  datatype Alert = Alert(
    id: string,
    kind: string,
    title: string,
    description: string,
    timestamp: string,
    read: bool,
    asteroidName: Option<string>)

  /** `getAlertBadge`'s text. */
  function BadgeLabel(kind: string): (b: string)
    ensures b == "Hazardous" <==> kind == "hazardous"
    ensures b == "Approach" <==> kind == "approach"
    ensures b == "Threshold" <==> kind != "hazardous" && kind != "approach"
  {
    if kind == "hazardous" then "Hazardous" else if kind == "approach" then "Approach" else "Threshold"
  }

  function IsUnread(): Alert -> bool {
    (a: Alert) => !a.read
  }

  /** `unreadCount`. */
  function UnreadCount(alerts: seq<Alert>): (n: nat)
    ensures n <= |alerts|
    ensures n == 0 <==> forall a :: a in alerts ==> a.read
  {
    Seqs.FilterCount(alerts, IsUnread());
    |Seqs.Filter(alerts, IsUnread())|
  }

  /** `receive_alert`: the new alert goes first, the rest keep their order. */
  function Receive(alerts: seq<Alert>, incoming: Alert): (r: seq<Alert>)
    ensures |r| == |alerts| + 1 && r[0] == incoming && r[1..] == alerts
  {
    [incoming] + alerts
  }

  /** Receiving an unread alert raises the count by one, a read one not at all. */
  lemma ReceiveCounts(alerts: seq<Alert>, incoming: Alert)
    ensures UnreadCount(Receive(alerts, incoming)) == UnreadCount(alerts) + (if incoming.read then 0 else 1)
  {
    Seqs.FilterCons(incoming, alerts, IsUnread());
  }

  function MarkOne(a: Alert, id: string): Alert {
    if a.id == id then a.(read := true) else a
  }

  /** `markAsRead`: every alert with the id becomes read, nothing else changes. */
  function MarkAsRead(alerts: seq<Alert>, id: string): (r: seq<Alert>)
    ensures |r| == |alerts|
    ensures forall i :: 0 <= i < |alerts| ==>
              (alerts[i].id == id ==> r[i] == alerts[i].(read := true)) &&
              (alerts[i].id != id ==> r[i] == alerts[i])
  {
    if |alerts| == 0 then [] else [MarkOne(alerts[0], id)] + MarkAsRead(alerts[1..], id)
  }

  /** Marking twice is marking once, and afterwards no alert with the id is unread. */
  lemma MarkAsReadIdempotent(alerts: seq<Alert>, id: string)
    ensures MarkAsRead(MarkAsRead(alerts, id), id) == MarkAsRead(alerts, id)
    ensures forall a :: a in MarkAsRead(alerts, id) && a.id == id ==> a.read
  {
    var once := MarkAsRead(alerts, id);
    var twice := MarkAsRead(once, id);
    assert forall i :: 0 <= i < |twice| ==> twice[i] == once[i];
  }

  /** Marking never raises the unread count. */
  lemma {:induction false} MarkAsReadNeverRaisesUnread(alerts: seq<Alert>, id: string)
    ensures UnreadCount(MarkAsRead(alerts, id)) <= UnreadCount(alerts)
  {
    Seqs.FilterLengthMono(alerts, MarkAsRead(alerts, id), IsUnread());
  }

  function NotId(id: string): Alert -> bool {
    (a: Alert) => a.id != id
  }

  /** `deleteAlert`: exactly the alerts with the id go, the rest keep their order. */
  function DeleteAlert(alerts: seq<Alert>, id: string): (r: seq<Alert>)
    ensures forall a :: a in r <==> a in alerts && a.id != id
    ensures Seqs.IsSubsequence(r, alerts)
    ensures forall a :: multiset(r)[a] == if a.id != id then multiset(alerts)[a] else 0
  {
    forall a ensures multiset(Seqs.Filter(alerts, NotId(id)))[a] == if a.id != id then multiset(alerts)[a] else 0 {
      Seqs.FilterMultiplicity(alerts, NotId(id), a);
    }
    Seqs.Filter(alerts, NotId(id))
  }

  lemma DeleteAlertIdempotent(alerts: seq<Alert>, id: string)
    ensures DeleteAlert(DeleteAlert(alerts, id), id) == DeleteAlert(alerts, id)
  {
    Seqs.FilterIdempotent(alerts, NotId(id));
  }

  /** `isScientist`: the stored role, lower-cased, is "scientist"; the create
      button is shown exactly then. */
  predicate IsScientist(role: Option<string>) {
    role.Some? && ToLower(role.value) == "scientist"
  }

  /** A scientist's payload carries exactly the role "scientist", whatever
      case it was stored in. */
  lemma ScientistSendsLowerCase(role: Option<string>)
    requires IsScientist(role)
    ensures LowerRole(role) == Some("scientist")
    ensures IsScientist(LowerRole(role))
  {
    assert ToLower("scientist") == "scientist" by {
      ToLowerIdempotent(role.value);
    }
  }

  /** The `create_alert` payload: the alert plus the lower-cased role
      (`undefined` when no role is stored). */
  datatype Outgoing = Outgoing(alert: Alert, role: Option<string>)

  function LowerRole(role: Option<string>): (r: Option<string>)
    ensures r.None? <==> role.None?
    ensures r.Some? ==> r.value == ToLower(role.value)
  {
    match role
    case None => None
    case Some(x) => Some(ToLower(x))
  }

  /** `handleCreateAlert`: with a socket the alert is emitted and the list is
      left to the broadcast; without one it is prepended locally. */
  function HandleCreateAlert(alerts: seq<Alert>, newAlert: Alert, socketUp: bool, role: Option<string>)
    : (out: (seq<Alert>, Option<Outgoing>))
    ensures socketUp ==> out.0 == alerts && out.1 == Some(Outgoing(newAlert, LowerRole(role)))
    ensures !socketUp ==> out.0 == Receive(alerts, newAlert) && out.1.None?
  {
    if socketUp then (alerts, Some(Outgoing(newAlert, LowerRole(role))))
    else (Receive(alerts, newAlert), None)
  }
}
