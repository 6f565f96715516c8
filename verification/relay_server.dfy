/** The stand-alone socket relay the browser's Alerts page connects to: it
    stores nothing, relays chat messages to a room and broadcasts alerts
    unless the payload names a role other than "scientist". */
module RelayServer {
  import opened Wrappers
  import opened Rooms
  import AlertsPage

  /** A `send_message` payload, relayed as received. */
  datatype ChatData = ChatData(asteroidId: string, user: string, text: string, timestamp: string, role: Option<string>)

  datatype Payload = Chat(data: ChatData) | AlertBroadcast(alert: AlertsPage.Outgoing)

  /** One emitted event on one socket. */
  datatype Delivery = Delivery(to: SocketId, event: string, payload: Payload)

  /** `send_message`: the payload, unchanged, to the sockets of its room. */
  function SendMessage(t: Table, data: ChatData): (ds: set<Delivery>)
    ensures forall d :: d in ds <==>
              d.to in Members(t, data.asteroidId) && d.event == "receive_message" && d.payload == Chat(data)
  {
    set s | s in Members(t, data.asteroidId) :: Delivery(s, "receive_message", Chat(data))
  }

  /** `alertData.role && alertData.role !== 'scientist'`: a non-empty role
      that is not exactly "scientist". */
  predicate Rejected(role: Option<string>) {
    role.Some? && role.value != "" && role.value != "scientist"
  }

  /** `create_alert`: dropped when rejected, otherwise sent to every socket. */
  function CreateAlert(t: Table, alertData: AlertsPage.Outgoing): (ds: set<Delivery>)
    ensures Rejected(alertData.role) ==> ds == {}
    ensures !Rejected(alertData.role) ==>
              forall d :: d in ds <==>
                d.to in Everyone(t) && d.event == "receive_alert" && d.payload == AlertBroadcast(alertData)
  {
    if Rejected(alertData.role) then {}
    else set s | s in Everyone(t) :: Delivery(s, "receive_alert", AlertBroadcast(alertData))
  }

  /** The check is exact: only the lower-case spelling passes, and a payload
      without a role passes too. */
  lemma RoleCheckIsCaseSensitive(t: Table, a: AlertsPage.Alert)
    requires |t| > 0
    ensures CreateAlert(t, AlertsPage.Outgoing(a, Some("Scientist"))) == {}
    ensures CreateAlert(t, AlertsPage.Outgoing(a, None)) != {}
    ensures CreateAlert(t, AlertsPage.Outgoing(a, Some("scientist"))) != {}
  {
    var s :| s in t;
    assert Delivery(s, "receive_alert", AlertBroadcast(AlertsPage.Outgoing(a, None))) in CreateAlert(t, AlertsPage.Outgoing(a, None));
    assert Delivery(s, "receive_alert", AlertBroadcast(AlertsPage.Outgoing(a, Some("scientist"))))
      in CreateAlert(t, AlertsPage.Outgoing(a, Some("scientist")));
  }

  /** The Alerts page lower-cases the role before emitting, so an alert a
      scientist creates with the socket up reaches every connected socket. */
  lemma ScientistAlertsReachEveryone(t: Table, alerts: seq<AlertsPage.Alert>, a: AlertsPage.Alert,
                                     role: Option<string>)
    requires AlertsPage.IsScientist(role)
    ensures var sent := AlertsPage.HandleCreateAlert(alerts, a, true, role).1;
            sent.Some? &&
            forall s :: s in t ==> Delivery(s, "receive_alert", AlertBroadcast(sent.value)) in CreateAlert(t, sent.value)
  {
    AlertsPage.ScientistSendsLowerCase(role);
  }

  /** Chat stays in its room: a socket outside the room receives nothing. */
  lemma ChatStaysInRoom(t: Table, data: ChatData, s: SocketId)
    requires s !in Members(t, data.asteroidId)
    ensures forall d :: d in SendMessage(t, data) ==> d.to != s
  {
  }
}
