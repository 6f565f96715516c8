/** The API server's socket handlers: rooms by asteroid id, chat messages
    persisted before they are sent to the room, and an inert `create_alert`.
    The database is a sequence of stored messages; a failed write for any
    other reason than validation is the parameter `saveOk`. */
module BackendSocket {
  import opened Wrappers
  import opened Rooms

  /** The `send_message` payload; `None` is an absent field. */
  datatype IncomingChat = IncomingChat(asteroidId: Option<string>, user: Option<string>,
                                       role: Option<string>, text: Option<string>)

  /** A `ChatMessage` document. */
  datatype StoredMessage = StoredMessage(asteroidId: string, user: string, role: string,
                                         text: string, timestampMs: int)

  datatype Delivery = Delivery(to: SocketId, event: string, message: StoredMessage)

  const DefaultRole := "Enthusiast"

  /** A required string field passes validation when present and non-empty. */
  predicate Present(x: Option<string>) {
    x.Some? && x.value != ""
  }

  predicate Valid(data: IncomingChat) {
    Present(data.asteroidId) && Present(data.user) && Present(data.text)
  }

  /** The document built from the payload, stamped with the server clock. */
  function ToStored(data: IncomingChat, now: int): (m: StoredMessage)
    requires Valid(data)
    ensures m.asteroidId == data.asteroidId.value && m.user == data.user.value && m.text == data.text.value
    ensures m.role == if data.role.Some? then data.role.value else DefaultRole
    ensures m.timestampMs == now
  {
    StoredMessage(data.asteroidId.value, data.user.value, data.role.GetOr(DefaultRole), data.text.value, now)
  }

  /** `send_message`: save, then emit the saved document to the room; a
      failed save is logged and nothing is emitted. */
  function SendMessage(t: Table, db: seq<StoredMessage>, data: IncomingChat, now: int, saveOk: bool)
    : (out: (seq<StoredMessage>, set<Delivery>))
    ensures !(Valid(data) && saveOk) ==> out == (db, {})
    ensures Valid(data) && saveOk ==>
              var m := ToStored(data, now);
              && out.0 == db + [m]
              && forall d :: d in out.1 <==>
                   d.to in Members(t, m.asteroidId) && d.event == "receive_message" && d.message == m
  {
    if Valid(data) && saveOk then
      var m := ToStored(data, now);
      (db + [m], set s | s in Members(t, m.asteroidId) :: Delivery(s, "receive_message", m))
    else (db, {})
  }

  /** Whatever reaches a socket is the document just stored. */
  lemma EmittedIsStored(t: Table, db: seq<StoredMessage>, data: IncomingChat, now: int, saveOk: bool)
    ensures var out := SendMessage(t, db, data, now, saveOk);
            out.1 != {} ==> |out.0| == |db| + 1 && forall d :: d in out.1 ==> d.message == out.0[|db|]
  {
  }

  /** `create_alert`: the handler body is empty. */
  function CreateAlert(t: Table, db: seq<StoredMessage>): (out: (Table, seq<StoredMessage>, set<Delivery>))
    ensures out == (t, db, {})
  {
    (t, db, {})
  }
}
