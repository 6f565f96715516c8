# Cosmic Watch — a Dafny model of its core

Cosmic Watch tracks near-Earth objects. The backend pulls today's feed from
NASA's NeoWs service, scores each object's risk, and caches the records in
MongoDB. It serves them over an Express API that also keeps per-user
watchlists and lets scientists publish alerts. Two socket.io relays broadcast
chat messages and alerts in real time. The React front end scores the same
feed again with its own formula. It shows a dashboard (search, tabs,
statistics, risk meters), a watchlist page backed by `localStorage`, an alerts
page, and a role-gated login.

This project models that core as pure Dafny functions over immutable data and
proves what the code promises:

- **Risk scoring.** The server formula (hazard, distance, diameter, velocity)
  and the client formula (hazard, lunar distance, diameter) are modelled
  separately. Both give 0..100, never fall when the object passes closer or
  is larger (nor, for the server, when it is faster), and score NaN as
  nothing. A lemma shows that the two formulas disagree.
- **Risk bands.** `getRiskLevel` and its re-implementations in the gauge, the
  3D meter, the tile, the card and the dashboard fill all pick the same band.
- **Feed refresh.** `fetchAndCache` normalises and upserts each object in feed
  order. It never deletes. A later duplicate wins. A throw keeps the writes
  made before it. The staleness test (older than one hour) and the
  controllers' 500 paths are modelled too.
- **Client fetch.** The hook fetches, builds every asteroid, and sorts by risk
  stably. The result is a permutation of the feed, in descending order, with
  ties kept in feed order.
- **Watchlists.** The server keeps a set of (user, asteroid) pairs. The client
  keeps a set of ids persisted as a JSON array, and toggling an id twice
  restores the set.
- **Alerts.** Creation is role-gated and saved. As the server is wired, the
  saved alert is never broadcast (see Findings); with the corrected
  middleware order every created alert is. The alerts
  page covers unread counts, mark-as-read and delete. The modal builds the
  alert text.
- **Sockets.** Rooms, chat delivery to room members only, and the
  alert-relay's case-sensitive role check.
- **Access control.** `requireRole` and the client's `ProtectedRoute` and
  login flow.

Modules follow the source files. `Seqs`, `Text`, `Grouping`, `JsNumber` and
`Wrappers` are shared helpers. They cover stable filtering and sorting, ASCII
case folding and trimming, thousands separators, `parseFloat` results with NaN
as `None`, and `Option`/`Result`.

Time is an integer count of milliseconds. Calls into MongoDB, `fetch`, sockets
and `localStorage` become parameters:

- a flag saying whether the write succeeded;
- the upstream reply;
- the index at which a write throws;
- the parsed storage value.

## Model

| member | source | states |
|---|---|---|
| ServerRisk.HazardPoints | backend/src/services/risk.service.js:13-15 | a potentially hazardous object earns 40 points, any other 0 |
| ServerRisk.DistancePoints | backend/src/services/risk.service.js:20-24 | miss distance bands < 1e6, < 5e6, < 1e7, < 3e7 km give 30/20/10/5; farther or NaN gives 0 |
| ServerRisk.DiameterPoints | backend/src/services/risk.service.js:28-32 | max diameter bands > 1, > 0.5, > 0.1, > 0.05 km give 20/15/10/5, else 0 |
| ServerRisk.VelocityPoints | backend/src/services/risk.service.js:36-39 | velocity bands > 100000, > 70000, > 40000 km/h give 10/7/4; slower or NaN gives 0 |
| ServerRisk.Score | backend/src/services/risk.service.js:9-42 | the score is the sum of the four parts and always lies in 0..100 |
| ServerRisk.CalculateRiskScore | backend/src/services/risk.service.js:9-42 | a score exists exactly when the object has a close-approach entry; hazardous objects score at least 40, others at most 60 |
| ServerRisk.HazardAddsForty | backend/src/services/risk.service.js:13-15 | flipping the hazard flag shifts the score by exactly 40 |
| ServerRisk.CloserNeverLowers | backend/src/services/risk.service.js:20-24 | a smaller miss distance never lowers the score |
| ServerRisk.LargerNeverLowers | backend/src/services/risk.service.js:28-32 | a larger diameter never lowers the score |
| ServerRisk.FasterNeverLowers | backend/src/services/risk.service.js:36-39 | a higher velocity never lowers the score |
| ServerRisk.NaNScoresNothing | backend/src/services/risk.service.js:17-39 | an unparsable distance or velocity scores like the farthest or slowest band |
| ServerRisk.ReferenceScores | backend/src/services/risk.service.js:9-42 | a large, close, fast hazardous object scores 100; a small, far, slow one scores 0 |
| AsteroidData.InLunarDistances | src/lib/asteroidData.ts:43-65 | the lunar-distance ratio exists exactly when the distance parsed, and multiplied back gives the distance |
| AsteroidData.DistancePoints | src/lib/asteroidData.ts:53-57 | under 1, 5 and 10 lunar distances earn 30/20/10; farther or NaN earns 0 |
| AsteroidData.DiameterPoints | src/lib/asteroidData.ts:59-62 | max diameter > 1, > 0.5, > 0.1 km earns 30/20/10, else 0 |
| AsteroidData.CalculateRiskScore | src/lib/asteroidData.ts:43-65 | the client score is hazard + distance + diameter, lies in 0..100, is at least 40 when hazardous and at most 60 otherwise |
| AsteroidData.ClientCloserNeverLowers | src/lib/asteroidData.ts:43-65 | a closer pass never lowers the client score |
| AsteroidData.ClientLargerNeverLowers | src/lib/asteroidData.ts:43-65 | a larger maximum diameter never lowers the client score |
| AsteroidData.ClientIgnoresVelocity | src/lib/asteroidData.ts:43-65 | changing an asteroid's velocity never changes its client score |
| AsteroidData.ScorersDisagree | src/lib/asteroidData.ts:43-65 | for named inputs the server formula and the client formula give different scores |
| AsteroidData.GetRiskLevel | src/lib/asteroidData.ts:67-72 | the level is Critical iff score >= 70, High iff 50..69, Moderate iff 30..49, Low iff below 30 |
| AsteroidData.RiskLevelMonotone | src/lib/asteroidData.ts:67-72 | a higher score never yields a lower risk level |
| AsteroidData.TwoDigits | src/lib/asteroidData.ts:74-79 | the two-place fraction of toFixed(2) is two digits whose value is the input |
| AsteroidData.MillionsFixed2 | src/lib/asteroidData.ts:74-79 | millions of km with two decimals: whole*100 + fraction equals km/10000 rounded half up |
| AsteroidData.FormatDistance | src/lib/asteroidData.ts:74-79 | the text ends in "M km" iff the distance is at least a million; otherwise it is the digits of the distance split into groups of three from the right, joined by commas, plus " km", so removing the commas gives back the digits |
| AsteroidData.FormatVelocity | src/lib/asteroidData.ts:81-83 | the text is the comma-grouped digits of the speed plus " km/h"; removing commas gives back the digits |
| AsteroidData.FormatExample | src/lib/asteroidData.ts:81-83 | 1234567 groups as "1,234,567" |
| Grouping.GroupDigits | src/lib/asteroidData.ts:81-83 | en-US grouping never starts with a comma, ends in a digit, and removing its commas gives back the decimal digits |
| Grouping.GroupDigitsRoundTrip | src/lib/asteroidData.ts:81-83 | reading the grouped text back without commas gives back the number |
| NasaService.Normalize | backend/src/services/nasa.service.js:23-34 | the record copies id, name, diameters, the first approach's velocity, distance and date, and the hazard flag; its risk score is the server score, in 0..100; lastUpdated is now |
| NasaService.NormalizeAll | backend/src/services/nasa.service.js:19-43 | one record per feed entry, in feed order |
| NasaService.Upsert | backend/src/services/nasa.service.js:37-42 | the record is stored under its NASA id and every other key is unchanged |
| NasaService.UpsertAll | backend/src/services/nasa.service.js:19-43 | after upserting a list, a key is present iff it was before or the list names it; its value is the list's last record for it; untouched keys keep their value |
| NasaService.StopIndex | backend/src/services/nasa.service.js:19-51 | the loop stops at the first entry with no close approach or whose write throws |
| NasaService.FetchAndCache | backend/src/services/nasa.service.js:6-52 | a failed request writes nothing; a missing bucket gives an empty success; nothing is ever deleted; success returns one fresh record per object in feed order; a throw keeps the upserts before it |
| NasaService.FetchAndCacheLoop | backend/src/services/nasa.service.js:6-52 | the loop, with its invariants, computes exactly FetchAndCache |
| NasaService.UpsertLoop | backend/src/services/nasa.service.js:19-43 | after the loop, the store is the upsert of the normalised prefix up to the stop index |
| NasaService.RefreshedStore | backend/src/services/nasa.service.js:19-43 | after a successful refresh, each id in today's feed maps to its last entry, normalised and stamped now; other ids keep their stored record |
| NasaService.LaterDuplicateWins | backend/src/services/nasa.service.js:37-42 | when an id appears twice in the feed, the later entry is the one stored |
| AsteroidController.FindSortedByDate | backend/src/controllers/asteroid.controller.js:8 | the listing holds every stored record exactly once, earliest close approach first |
| AsteroidController.GetAsteroids | backend/src/controllers/asteroid.controller.js:5-28 | when the initial database read throws, nothing is fetched, the store is unchanged and the reply is the 500 "Server error fetching asteroids"; otherwise a fresh cache is served untouched, sorted by close-approach date, and a stale or empty one is refreshed, returning the fresh list or the same 500 |
| AsteroidController.RefreshAsteroids | backend/src/controllers/asteroid.controller.js:30-38 | always refreshes; replies with the fetched list or a 500 "Server error refreshing asteroids" |
| AsteroidController.ExactlyOneHourIsFresh | backend/src/controllers/asteroid.controller.js:11-14 | a non-empty cache whose records are all at most one hour old is not refreshed |
| AsteroidController.OneStaleDocumentSuffices | backend/src/controllers/asteroid.controller.js:11-14 | one record older than one hour forces a refresh |
| AsteroidController.RefreshedCollectionIsFresh | backend/src/controllers/asteroid.controller.js:11-21 | after a successful refresh whose feed names every cached id, the cache no longer needs refreshing |
| UseAsteroids.Flatten | src/hooks/useAsteroids.ts:55-56 | every object of every date bucket appears in the flattened list, nothing else does, and its length is the sum of the bucket sizes |
| UseAsteroids.FlattenSingle | src/hooks/useAsteroids.ts:55-56 | one date bucket flattens to its own list, in feed order |
| UseAsteroids.FlattenAppend | src/hooks/useAsteroids.ts:55-56 | flattening the buckets of two date ranges gives the first range's objects followed by the second's |
| UseAsteroids.BuildAsteroid | src/hooks/useAsteroids.ts:57-76 | the client asteroid copies the feed fields and the first approach; its risk score is the client formula applied to itself |
| UseAsteroids.BuildAll | src/hooks/useAsteroids.ts:55-79 | one asteroid per feed object, in feed order |
| UseAsteroids.FetchAsteroids | src/hooks/useAsteroids.ts:35-83 | a non-OK reply throws "Failed to fetch asteroid data"; an object with no approach throws a TypeError; success is exactly an OK reply whose objects all have approaches, and the result is a permutation of the built asteroids in descending risk order |
| UseAsteroids.ListedComeFromFeed | src/hooks/useAsteroids.ts:55-82 | every listed asteroid was built from some object in the feed |
| UseAsteroids.TiesKeepFeedOrder | src/hooks/useAsteroids.ts:82 | asteroids with equal risk keep their feed order (the sort is stable) |
| UseAsteroids.AddToWatchlist | src/hooks/useAsteroids.ts:98-100 | the id is added and nothing else changes |
| UseAsteroids.RemoveFromWatchlist | src/hooks/useAsteroids.ts:102-104 | the id is removed and nothing else changes |
| UseAsteroids.WatchlistOps | src/hooks/useAsteroids.ts:94-109 | remove undoes a fresh add; add and remove are idempotent; isWatched reflects the last operation |
| Seqs.SortDescStable | src/hooks/useAsteroids.ts:82 | for any property that depends only on the sort key, sorting keeps the filtered order |
| Dashboard.Displayed | src/pages/Dashboard.tsx:35 | the API list is shown when present, the mock list otherwise |
| Dashboard.SearchResults | src/pages/Dashboard.tsx:41-45 | the result holds exactly the displayed asteroids whose lower-cased name contains the lower-cased term, or whose id contains the term as typed; each keeps its original order and every copy of a match survives |
| Dashboard.EmptySearchShowsAll | src/pages/Dashboard.tsx:41-45 | an empty search term shows everything |
| Dashboard.SearchIgnoresNameCase | src/pages/Dashboard.tsx:41-45 | lower-casing a name never changes whether it matches |
| Dashboard.HazardousCount | src/pages/Dashboard.tsx:47 | the count is at most the list length, equals it iff every object is hazardous, and is zero iff none is |
| Dashboard.HazardousCountCons | src/pages/Dashboard.tsx:47 | one more object raises the count by one exactly when it is hazardous, so the count is the number of hazardous objects |
| Dashboard.Round | src/pages/Dashboard.tsx:48-51 | Math.round returns the integer within half a unit, ties going up |
| Dashboard.AvgRiskScore | src/pages/Dashboard.tsx:48-51 | the average exists iff the list is non-empty (the source's 0/0 is NaN) and lies within half a unit of the mean |
| Dashboard.SumBounds | src/pages/Dashboard.tsx:48-51 | the sum of scores lies between n*lo and n*hi |
| Dashboard.AvgWithinScoreRange | src/pages/Dashboard.tsx:48-51 | the rounded average lies within any bounds that all scores respect |
| Dashboard.ClosestApproach | src/pages/Dashboard.tsx:52-55 | the closest distance is absent iff no distance parsed; otherwise it is one of the distances and no parsed distance is smaller |
| Dashboard.RiskFillClass | src/pages/Dashboard.tsx:134 | the fill class is is-critical, is-high, is-moderate or empty exactly when getRiskLevel gives Critical, High, Moderate or Low |
| Dashboard.RiskFillPercent | src/pages/Dashboard.tsx:134 | the fill is min(average, 100): never above 100 or the average, and equal to the average up to 100 |
| Dashboard.CriticalAccentIsCriticalLevel | src/pages/Dashboard.tsx:152 | the red accent appears exactly when the average is at the Critical level |
| Dashboard.TabItems | src/pages/Dashboard.tsx:225-270 | the All tab shows the filtered list; Hazardous shows exactly the hazardous ones; Watched shows exactly the watched ones; each keeps its order and every copy of a kept object |
| Dashboard.TilesShowWatchState | src/pages/Dashboard.tsx:225-270 | every tile's watch state equals membership in the watchlist, and an empty watchlist shows an empty Watched tab |
| WatchlistPage.WatchedAsteroids | src/pages/Watchlist.tsx:25 | the page lists exactly the catalogue objects whose id is watched, in catalogue order, with every copy kept |
| WatchlistPage.UncataloguedIdsNeverShown | src/pages/Watchlist.tsx:25 | a watched id missing from the catalogue never shows up |
| WatchlistPage.FilteredWatched | src/pages/Watchlist.tsx:26-30 | the search keeps exactly the watched objects matching the term, in watchlist order, with every copy kept |
| WatchlistPage.Counters | src/pages/Watchlist.tsx:110-116 | the first counter is the number watched; the hazardous counter is at most that, equal to it iff all watched objects are hazardous, and zero iff none is |
| WatchlistPage.CountersCons | src/pages/Watchlist.tsx:110-116 | watching one more object raises the first counter by one and the hazardous counter by one exactly when that object is hazardous |
| WatchlistPage.NextApproachOf | src/pages/Watchlist.tsx:123-134 | with nothing watched the card shows none; any unparsable date makes the minimum invalid; otherwise it is the earliest watched approach |
| WatchlistPage.MinDate | src/pages/Watchlist.tsx:125-130 | the minimum over a non-empty list is one of its dates and no date is earlier, or it is invalid iff some date does not parse |
| WatchlistPage.ViewOf | src/pages/Watchlist.tsx:154-185 | results show iff the search keeps something; the empty-watchlist note shows iff nothing is watched; "no results" shows otherwise |
| WatchlistPage.EmptyTermNeverNoResults | src/pages/Watchlist.tsx:154-185 | with an empty search the "no results" note never shows |
| WatchlistContext.ToggleWatch | src/context/WatchlistContext.tsx:15-25 | toggling flips exactly the given id |
| WatchlistContext.ToggleTwice | src/context/WatchlistContext.tsx:15-25 | toggling twice restores the set, and toggles of two ids commute |
| WatchlistContext.Load | src/context/WatchlistContext.tsx:6-9 | no stored value gives the empty set; a stored array gives exactly its ids |
| WatchlistContext.Save | src/context/WatchlistContext.tsx:11-13 | the stored array lists each watched id once, and loading it gives back the same set |
| WatchlistController.AddToWatchlist | backend/src/controllers/watchlist.controller.js:23-44 | a falsy id gives 400; otherwise a failed write gives 500 whether or not the pair exists; with a working database an existing pair gives 400 "Already in watchlist" (the duplicate-key error) and a new pair is added (201); the entries change iff 201; other users' entries never change |
| WatchlistController.RemoveFromWatchlist | backend/src/controllers/watchlist.controller.js:46-57 | a successful delete removes the pair (even if absent) and replies 200; a failed one gives 500 and changes nothing; no other pair changes |
| WatchlistController.AddThenRemove | backend/src/controllers/watchlist.controller.js:23-57 | removing a freshly added pair restores the entries, and a second remove changes nothing |
| WatchlistController.WatchedBy | backend/src/models/Watchlist.model.js:20 | the user's watched ids are exactly the ids paired with that user |
| WatchlistController.GetWatchlist | backend/src/controllers/watchlist.controller.js:5-21 | the reply holds exactly the cached records the user watches, or a 500 when the read fails |
| WatchlistController.OthersDoNotInterfere | backend/src/controllers/watchlist.controller.js:5-57 | another user's add or remove never changes this user's watchlist |
| AlertController.ToStored | backend/src/controllers/alert.controller.js:18-24 | the saved alert copies type, title, description and asteroid name, and createdByRole is the user's role or "system"; it is unread and stamped now |
| AlertController.CreateAlert | backend/src/controllers/alert.controller.js:15-46 | 201 iff a user is present, type, title and description are valid and the save succeeds; any failure is a 500 that changes nothing; on 201 the alert is appended and broadcast iff the socket server is attached |
| AlertController.BroadcastOnlyAfterSave | backend/src/controllers/alert.controller.js:26-38 | a broadcast implies the save succeeded, and what is broadcast is the alert just stored |
| AlertController.PostAlertWith | backend/src/routes/alert.routes.js:8 | the controller runs iff the role guard passes "scientist" |
| AlertController.OnlyScientistsCreate | backend/src/routes/alert.routes.js:8 | an alert is created only for a user whose role lower-cases to "scientist" |
| AlertController.AsWrittenNeverBroadcasts | backend/src/server.js:23-26 | with the io middleware registered after the routers, the alert route never sees it, so no alert is ever broadcast |
| AlertController.RouterBeforeIo | backend/src/app.js:16-20 | a router mounted before the io middleware never sees it |
| AlertController.PostAlert | backend/src/controllers/alert.controller.js:36-38 | with io attached before the routers, every created alert is broadcast and a failure broadcasts nothing |
| AlertController.GetAlerts | backend/src/controllers/alert.controller.js:4-13 | the reply is a permutation of all stored alerts, newest first, or a 500 when the read fails |
| RoleMiddleware.RequireRole | backend/src/middlewares/role.middleware.js:1-12 | no user gives 401; a user without a role throws; a role equal ignoring case passes; any other role gives 403 |
| RoleMiddleware.GuardIgnoresCase | backend/src/middlewares/role.middleware.js:6 | lower-casing the user's role never changes the outcome, and lower-casing the required role never changes whether the guard passes |
| AlertsPage.UnreadCount | src/pages/Alerts.tsx:82 | the unread count is at most the number of alerts and is zero iff every alert is read |
| AlertsPage.Receive | src/pages/Alerts.tsx:89-91 | a received alert is put first and the rest follow unchanged |
| AlertsPage.ReceiveCounts | src/pages/Alerts.tsx:82-91 | receiving an unread alert raises the count by one; a read one leaves it |
| AlertsPage.MarkAsRead | src/pages/Alerts.tsx:114-118 | alerts with that id become read; every other alert and the order stay as they were |
| AlertsPage.MarkAsReadIdempotent | src/pages/Alerts.tsx:114-118 | marking twice equals marking once, and afterwards every alert with that id is read |
| AlertsPage.MarkAsReadNeverRaisesUnread | src/pages/Alerts.tsx:82-118 | marking as read never raises the unread count |
| AlertsPage.DeleteAlert | src/pages/Alerts.tsx:120-122 | exactly the alerts with another id remain, each as many times as before, in their order |
| AlertsPage.DeleteAlertIdempotent | src/pages/Alerts.tsx:120-122 | deleting twice equals deleting once |
| AlertsPage.LowerRole | src/pages/Alerts.tsx:104-112 | the role sent with an alert is the current role lower-cased, or absent when there is none |
| AlertsPage.ScientistSendsLowerCase | src/pages/Alerts.tsx:80 | a user shown the create button sends the role "scientist" exactly |
| AlertsPage.HandleCreateAlert | src/pages/Alerts.tsx:104-112 | with a socket the alert is only sent, with the lower-cased role; without one it is added locally |
| AlertModule.TypeMetaOf | src/components/AlertModule.jsx:4-8 | hazardous and approach alerts get their own heading; every other type reads "Risk Threshold" |
| AlertsPage.BadgeLabel | src/pages/Alerts.tsx:135-146 | the badge reads Hazardous, Approach or Threshold, matching the type the same way |
| AlertModule.HeadingMatchesBadge | src/components/AlertModule.jsx:4-8 | the card heading and the badge agree on every type |
| AlertModule.PulseClass | src/components/AlertModule.jsx:16 | a card pulses iff it is unread |
| AlertModule.Actions | src/components/AlertModule.jsx:34-41 | every card offers Remove last; Mark Read is offered iff unread |
| AlertModule.MarkedCardsSettle | src/components/AlertModule.jsx:16-41 | after mark-as-read the card stops pulsing and only offers Remove |
| CreateAlertModal.FindById | src/components/CreateAlertModal.jsx:16 | find returns the first asteroid with that id, or nothing iff none has it |
| CreateAlertModal.TitleFor | src/components/CreateAlertModal.jsx:21 | hazardous gives "High Risk Alert", threshold gives "Threshold Breached", any other type "Close Approach Alert" |
| CreateAlertModal.Description | src/components/CreateAlertModal.jsx:22 | the description starts with the sentence naming the asteroid and type, and ends with " Threshold: t" iff a threshold was typed |
| CreateAlertModal.Submit | src/components/CreateAlertModal.jsx:14-34 | submitting calls onCreate with the built alert, then onClose, and resets the form; the alert is unread and named after the found asteroid or "Unknown" |
| CreateAlertModal.ThresholdSurvivesTypeChange | src/components/CreateAlertModal.jsx:22 | a threshold typed before switching to another type still ends the description |
| ChatInput.HandleSubmit | src/components/Chat/ChatInput.jsx:6-12 | blank text sends nothing and stays; other text is sent once, unchanged, and the box is cleared |
| ChatInput.NoDoubleSend | src/components/Chat/ChatInput.jsx:6-12 | submitting again right after a send sends nothing |
| ProtectedRoute.Guard | src/components/ProtectedRoute.jsx:7-23 | unauthenticated users go to /login; authenticated users go home iff the route restricts roles and theirs is missing or not listed; otherwise the page renders |
| ProtectedRoute.RenderIffAllowed | src/components/ProtectedRoute.jsx:16-19 | an authenticated user sees a restricted page iff their stored role is non-empty and listed |
| ProtectedRoute.OnlyExactTrueAuthenticates | src/components/ProtectedRoute.jsx:9 | only the exact string "true" authenticates, and role matching is case-sensitive |
| Login.CompleteLogin | src/pages/Login.jsx:29-34 | login stores auth "true" and the role, leaving other storage keys alone |
| Login.Submit | src/pages/Login.jsx:36-52 | without a role the error asks for one; with blank email or password it asks for credentials; login happens iff a role is chosen and both are non-blank |
| Login.BlankCredentialsRefused | src/pages/Login.jsx:36-52 | a whitespace-only email never logs in |
| Login.Guest | src/pages/Login.jsx:54-57 | guest login always succeeds with the role "enthusiast" |
| Login.LoginOpensGuard | src/pages/Login.jsx:29-52 | after login every unrestricted route renders, and a restricted one renders iff the chosen role is listed |
| Rooms.Connect | server/index.js:17 | a new socket joins the table in the room named by its own id, and nothing else changes |
| Rooms.OwnRoomReachesSocket | server/index.js:17-27 | a room named by a newly connected socket's id reaches that socket, so `io.to(asteroidId)` also reaches a socket whose id equals that string |
| Rooms.Join | server/index.js:20-23 | `join_asteroid` (handled the same way at backend/src/server.js:32-35) adds exactly that room to that socket |
| Rooms.Disconnect | server/index.js:42-44 | a disconnected socket leaves every room |
| Rooms.Members | server/index.js:27 | a room's audience is exactly the connected sockets in it: those that joined it, and the socket whose own id names it |
| Rooms.JoinIsolation | server/index.js:20-23 | joining adds the socket to that room's audience and leaves every other room's audience unchanged |
| Rooms.AudienceWithinEveryone | server/index.js:27-38 | a room's audience is within the broadcast audience, and a disconnected socket is in no room |
| RelayServer.SendMessage | server/index.js:25-28 | the message goes, unchanged, to exactly the sockets in its room |
| RelayServer.CreateAlert | server/index.js:30-40 | an alert whose role is present, non-empty and not exactly "scientist" is dropped; any other alert reaches every socket |
| RelayServer.RoleCheckIsCaseSensitive | server/index.js:32-35 | "Scientist" is dropped, while no role or "scientist" is broadcast |
| RelayServer.ScientistAlertsReachEveryone | server/index.js:30-40 | an alert created on the alerts page by a scientist reaches every connected socket |
| RelayServer.ChatStaysInRoom | server/index.js:25-28 | a socket outside the room never receives its chat |
| BackendSocket.ToStored | backend/src/models/ChatMessage.model.js:4-20 | the stored message copies room, user and text; the role defaults to "Enthusiast"; it is stamped now |
| BackendSocket.SendMessage | backend/src/server.js:38-54 | a message missing a required field, or whose save fails, is neither stored nor sent; otherwise it is appended and goes to exactly the room's sockets |
| BackendSocket.EmittedIsStored | backend/src/server.js:48-50 | anything delivered is the message just stored |
| BackendSocket.CreateAlert | backend/src/server.js:57-65 | the backend's create_alert handler changes nothing and sends nothing |
| RiskMeter3D.GetRiskBand | src/components/RiskMeter3D.jsx:3-8 | the meter's band name equals getRiskLevel's name, and its class equals the dashboard fill class; a NaN score falls through to Low with no class |
| RiskMeter3D.Color | src/components/RiskMeter3D.jsx:13-18 | each band has its own colour, chosen exactly when the band is named |
| RiskMeter3D.ProgressFraction | src/components/RiskMeter3D.jsx:20-24 | progress is score/100 clamped to 0..1, and NaN for a NaN score |
| RiskMeter3D.ProgressMonotone | src/components/RiskMeter3D.jsx:20-24 | a higher score never shows less progress |
| RiskMeter3D.PulseClass | src/components/RiskMeter3D.jsx:27 | the meter pulses iff the score is a number at the Critical level, exactly when the dashboard's risk panel turns red |
| RiskMeter3D.BarPercent | src/components/RiskMeter3D.jsx:82 | the bar width equals the dashboard fill, min(score, 100), and is NaN for a NaN score |
| RiskMeter3D.EmptyListMeter | src/pages/Dashboard.tsx:48-51 | with no asteroids the average is NaN, and the meter it feeds (line 191) shows Low in green, no pulse, and no arc or bar width |
| AsteroidTile.RiskClass | src/components/AsteroidTile.jsx:4-9 | the tile's class equals the meter's band class, and is-critical iff the level is Critical |
| AsteroidTile.BarPercent | src/components/AsteroidTile.jsx:82 | the tile's bar, min(score, 100), matches the meter's bar for the same score and never exceeds 100 |
| AsteroidTile.WatchLabel | src/components/AsteroidTile.jsx:44 | the button reads Unwatch iff the asteroid is watched |
| AsteroidTile.Status | src/components/AsteroidTile.jsx:71-79 | status reads HAZARDOUS iff the object is hazardous, MONITORED otherwise |
| AsteroidTile.Click | src/components/AsteroidTile.jsx:34-42 | the watch button always calls onWatch with the id; the chat button calls onChat iff a handler was given |
| RiskGauge.Radius | src/components/RiskGauge.tsx:7-14 | the radius is half of width minus stroke for every size |
| RiskGauge.Label | src/components/RiskGauge.tsx:25-30 | the gauge label is getRiskLevel's name |
| RiskGauge.Color | src/components/RiskGauge.tsx:18-23 | each colour is chosen exactly when getRiskLevel gives the matching colour token |
| RiskGauge.LabelAndColorAgree | src/components/RiskGauge.tsx:18-30 | two scores share a label iff they share a colour |
| RiskGauge.ProgressFraction | src/components/RiskGauge.tsx:16 | the filled fraction is score/100, not clamped |
| RiskGauge.ProgressUnclamped | src/components/RiskGauge.tsx:16 | scores outside 0..100 overfill or underfill the gauge |
| AsteroidCard.StylesDistinguishLevels | src/components/AsteroidCard.tsx:16-27 | two scores get the same card style iff they are at the same risk level |
| AsteroidCard.BadgeVariant | src/components/AsteroidCard.tsx:29-38 | the badge is destructive iff the level colour is destructive, secondary otherwise |
| AsteroidCard.BarClass | src/components/AsteroidCard.tsx:105-113 | the bar uses the level colour, falling back to success |
| AsteroidCard.BarFollowsLevel | src/components/AsteroidCard.tsx:105-113 | for every score the bar class is the level's own colour |
| AsteroidCard.LevelBadge | src/components/AsteroidCard.tsx:59-61 | the badge reads "Critical Risk" exactly from 70 up, "High Risk" exactly from 50 to 69, "Moderate Risk" exactly from 30 to 49 and "Low Risk" exactly below 30 |
| AsteroidCard.WatchLabel | src/components/AsteroidCard.tsx:137 | the button reads Watching iff the asteroid is watched |

## Left out

- HTTP, MongoDB, socket.io transport, `fetch`, `localStorage` and JSON are
  not modelled. Their outcomes enter as parameters: the upstream reply, a
  save-succeeded flag, the index at which a write throws, and the parsed
  stored value.
- Clocks and dates enter as integers (milliseconds) or as a date-parsing
  function parameter. `new Date()`, `toISOString` and date formatting are not
  modelled.
- Concurrency is not modelled: overlapping refreshes, React render timing,
  the Watchlist page's loading timer, and socket reconnection.
- `Text.ToLower` and `Text.Trim` handle ASCII letters and the common ASCII
  and Unicode space characters only. Full Unicode case mapping is not
  modelled.
- `AsteroidData.MillionsFixed2` rounds the exact number of millions half up
  to hundredths. `toFixed(2)` rounds the nearest binary double instead, so
  the two differ at some exact halves: 1005000 km gives "1.01" here and
  "1.00" in the source. Floating-point doubles are not modelled.
- `AsteroidData.FormatDistance` and `AsteroidData.FormatVelocity` take
  natural numbers of kilometres. The source formats floating-point values, so
  fractional or negative inputs and binary rounding in `toFixed` are not
  modelled.
- `RiskGauge.ProgressFraction` and `RiskMeter3D.ProgressFraction` give the
  fraction of the ring. The SVG stroke arithmetic with π is not modelled.
- `NasaService.FetchAndCache` follows the code: there is no single-flight
  guard and no skipping of a record without close-approach data. Such a
  record throws, the refresh fails, and earlier upserts stay.
- `AsteroidController.FindSortedByDate` keeps input order for records with
  the same approach date. MongoDB's order for ties is unspecified.
- `WatchlistController.GetWatchlist` returns a set of records. The order of
  MongoDB's `$in` query is not modelled.
- `authenticateToken` (backend/src/middlewares/auth.middleware.js) is not
  part of this model. The decoded user enters as an `Option<User>`.
- `getChatHistory` (chat.controller.js), `bot.js`, the auth routes and the
  configuration files are not modelled.
- The three.js scenes (src/three/*), markup-only components, animations and
  the mock-data tables are not modelled. The mock list is a parameter of
  `Dashboard.Displayed`.
- The Alerts page's notification-settings switches hold only local UI state.
  They are not modelled.
- `useWatchlist` outside its provider throws; that path is not modelled.
- `JSON.parse` of a corrupt stored watchlist throws on page load; that path
  is not modelled. `WatchlistContext.Load` takes the parsed array, or nothing.
- `AlertsPage.ScientistSendsLowerCase`, `RoleMiddleware.GuardIgnoresCase`: no
  lemma covers every mixed-case spelling of "scientist". Only the lower-case
  round trip is stated.

## Findings

| source | as written | input that shows it | evidently intended | confidence | as-written member | corrected member |
|---|---|---|---|---|---|---|
| backend/src/server.js:23-26 | the middleware that sets `req.io` is registered after app.js mounts the routers, so `createAlert`'s `if (req.io)` branch (alert.controller.js:36-38) never runs | a scientist's valid POST /api/alerts whose save succeeds: it replies 201, but no `receive_alert` is emitted | every saved alert is broadcast to all sockets | not executed | AlertController.AsWrittenNeverBroadcasts | AlertController.PostAlert |
