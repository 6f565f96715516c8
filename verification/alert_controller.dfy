/** The alert API: `createAlert` behind `requireRole('scientist')`, and
    `getAlerts` newest first.  The alert collection is a sequence of documents;
    a failed write for any reason other than validation is `saveOk`. */
module AlertController {
  import opened Wrappers
  import opened RoleMiddleware
  import Seqs

  /** `req.body`; `None` is an absent field. */
  datatype AlertBody = AlertBody(kind: Option<string>, title: Option<string>,
                                 description: Option<string>, asteroidName: Option<string>)

  /** An `Alert` document. */
  datatype StoredAlert = StoredAlert(kind: string, title: string, description: string,
                                     asteroidName: Option<string>, createdByRole: string,
                                     timestampMs: int, read: bool)

  datatype Reply = Created(alert: StoredAlert) | ServerError | AlertList(alerts: seq<StoredAlert>)

  predicate Present(x: Option<string>) {
    x.Some? && x.value != ""
  }

  /** The schema's validation: a known type, a title and a description. */
  predicate Valid(body: AlertBody) {
    && body.kind.Some? && body.kind.value in {"approach", "hazardous", "threshold"}
    && Present(body.title) && Present(body.description)
  }

  function ToStored(body: AlertBody, user: User, now: int): (a: StoredAlert)
    requires Valid(body)
    ensures a.kind == body.kind.value && a.title == body.title.value && a.description == body.description.value
    ensures a.asteroidName == body.asteroidName
    ensures a.createdByRole == if user.role.Some? then user.role.value else "system"
    ensures a.timestampMs == now && !a.read
  {
    StoredAlert(body.kind.value, body.title.value, body.description.value, body.asteroidName,
                user.role.GetOr("system"), now, false)
  }

  /** What one call does: the collection after it, the reply, and the alert
      sent to every socket with `receive_alert`, if any. */
  datatype Outcome = Outcome(db: seq<StoredAlert>, reply: Reply, broadcast: Option<StoredAlert>)

  /** `createAlert`, given whether `req.io` is set. */
  function CreateAlert(db: seq<StoredAlert>, body: AlertBody, user: Option<User>, now: int,
                       saveOk: bool, ioAttached: bool): (o: Outcome)
    ensures o.reply.Created? <==> user.Some? && Valid(body) && saveOk
    ensures !o.reply.Created? ==> o == Outcome(db, ServerError, None)
    ensures o.reply.Created? ==>
              && o.reply.alert == ToStored(body, user.value, now)
              && o.db == db + [o.reply.alert]
              && o.broadcast == (if ioAttached then Some(o.reply.alert) else None)
  {
    if user.None? || !Valid(body) || !saveOk then Outcome(db, ServerError, None)
    else
      var a := ToStored(body, user.value, now);
      Outcome(db + [a], Created(a), if ioAttached then Some(a) else None)
  }

  /** No broadcast without a stored alert, and the broadcast is the stored one. */
  lemma BroadcastOnlyAfterSave(db: seq<StoredAlert>, body: AlertBody, user: Option<User>, now: int,
                               saveOk: bool, ioAttached: bool)
    ensures var o := CreateAlert(db, body, user, now, saveOk, ioAttached);
            o.broadcast.Some? ==> saveOk && |o.db| == |db| + 1 && o.broadcast.value == o.db[|db|]
  {
  }

  /** Guard and controller in sequence, as `POST /api/alerts` runs them. */
  datatype RouteReply = Guarded(status: int, message: string) | Crashed | Handled(o: Outcome)

  function PostAlertWith(ioAttached: bool, db: seq<StoredAlert>, body: AlertBody, user: Option<User>,
                         now: int, saveOk: bool): (r: RouteReply)
    ensures RequireRole("scientist", user).Next? <==> r.Handled?
    ensures r.Handled? ==> r.o == CreateAlert(db, body, user, now, saveOk, ioAttached)
  {
    match RequireRole("scientist", user)
    case Respond(status, message) => Guarded(status, message)
    case Throws => Crashed
    case Next => Handled(CreateAlert(db, body, user, now, saveOk, ioAttached))
  }

  /** Only a scientist (in any letter case) can store an alert. */
  lemma OnlyScientistsCreate(db: seq<StoredAlert>, body: AlertBody, user: Option<User>, now: int,
                             saveOk: bool, ioAttached: bool)
    ensures var r := PostAlertWith(ioAttached, db, body, user, now, saveOk);
            r.Handled? && r.o.reply.Created? ==>
              user.Some? && user.value.role.Some? && Text.ToLower(user.value.role.value) == "scientist"
  {
    assert Text.ToLower("scientist") == "scientist" by {
      Text.ToLowerIdempotent("scientist");
    }
  }

  /** The layers of the Express application in registration order: the
      routers mounted by the application module, and the middleware the server
      module adds afterwards to set `req.io`. */
  datatype Layer = Mount(prefix: string) | AttachIo

  /** The routers answer every request they match (none calls `next`), so a
      handler sees `req.io` only when `AttachIo` comes before its router. */
  function IoSeenBy(stack: seq<Layer>, prefix: string): bool {
    if |stack| == 0 then false
    else match stack[0]
      case AttachIo => true
      case Mount(p) => if p == prefix then false else IoSeenBy(stack[1..], prefix)
  }

  const AlertsPrefix := "/api/alerts"

  const Routers := [Mount("/api/auth"), Mount("/api/asteroids"), Mount("/api/watchlist"),
                    Mount(AlertsPrefix), Mount("/api/chat"), Mount("/")]

  /** As written: the middleware is added after the routers. */
  const AsWrittenStack := Routers + [AttachIo]

  /** As intended: the middleware runs before the routers. */
  const CorrectedStack := [AttachIo] + Routers

  /** As written, `createAlert` never finds `req.io`, so an alert created
      through the API is stored and answered 201 but never broadcast. */
  lemma AsWrittenNeverBroadcasts(db: seq<StoredAlert>, body: AlertBody, user: Option<User>, now: int,
                                 saveOk: bool)
    ensures !IoSeenBy(AsWrittenStack, AlertsPrefix)
    ensures var r := PostAlertWith(IoSeenBy(AsWrittenStack, AlertsPrefix), db, body, user, now, saveOk);
            r.Handled? ==> r.o.broadcast.None?
  {
    var pre := [Mount("/api/auth"), Mount("/api/asteroids"), Mount("/api/watchlist")];
    var rest := [Mount("/api/chat"), Mount("/"), AttachIo];
    assert AsWrittenStack == pre + [Mount(AlertsPrefix)] + rest;
    RouterBeforeIo(pre, AlertsPrefix, rest);
  }

  /** A router reached before any `AttachIo` answers without `req.io`. */
  lemma {:induction false} RouterBeforeIo(pre: seq<Layer>, p: string, rest: seq<Layer>)
    requires forall l :: l in pre ==> l.Mount? && l.prefix != p
    ensures !IoSeenBy(pre + [Mount(p)] + rest, p)
  {
    var s := pre + [Mount(p)] + rest;
    if |pre| > 0 {
      assert s[0] == pre[0];
      assert s[1..] == pre[1..] + [Mount(p)] + rest;
      RouterBeforeIo(pre[1..], p, rest);
    } else {
      assert s[0] == Mount(p);
    }
  }

  /** `POST /api/alerts` with the middleware in front of the routers. */
  function PostAlert(db: seq<StoredAlert>, body: AlertBody, user: Option<User>, now: int, saveOk: bool)
    : (r: RouteReply)
    ensures RequireRole("scientist", user).Next? <==> r.Handled?
    ensures r.Handled? && r.o.reply.Created? ==> r.o.broadcast == Some(r.o.reply.alert)
    ensures r.Handled? && !r.o.reply.Created? ==> r.o.broadcast.None?
  {
    assert IoSeenBy(CorrectedStack, AlertsPrefix);
    PostAlertWith(IoSeenBy(CorrectedStack, AlertsPrefix), db, body, user, now, saveOk)
  }

  function TimestampKey(a: StoredAlert): int {
    a.timestampMs
  }

  /** `getAlerts`: every stored alert, newest first. */
  function GetAlerts(db: seq<StoredAlert>, dbOk: bool): (r: Reply)
    ensures !dbOk ==> r == ServerError
    ensures dbOk ==> r.AlertList? && multiset(r.alerts) == multiset(db)
    ensures dbOk ==> forall i, j :: 0 <= i < j < |r.alerts| ==> r.alerts[i].timestampMs >= r.alerts[j].timestampMs
  {
    if !dbOk then ServerError
    else AlertList(Seqs.SortDesc(db, TimestampKey))
  }
}
