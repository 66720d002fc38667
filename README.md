# IDS Dock Tracker, modelled in Dafny

The IDS Dock Tracker shows the state of the airport's de-icing docks to every
open client in real time. There are 13 southeast docks and 11 named southwest
docks, and each is available, occupied, out of service or de-iced. The
repository has four historical backends and three React pages:

- an Elysia/TypeScript server (`backend/src/index.ts`);
- a single-file Go server (`backend_2/main.go`);
- a package-based Go server (`backend_2/internal/...`);
- a FastAPI server (`main.py`);
- an aiohttp server (`api/index.py`);
- the websocket page (`frontend/src/app/dock-tracker.tsx`);
- the server-sent-events page (`src/app/dock-tracker.tsx`);
- the stand-alone redesigned page (`src/components/dock-tracker-redesigned.tsx`).

This project models the core of all of them:

- the connection registries and their broadcast loops;
- the TTL cache of the TypeScript server;
- the dock store, with status validation, update by id and the seed tables;
- the per-connection message dispatch;
- the client-side reducers the pages apply to their dock lists.

Each piece takes the form of its source. Registries, caches, tables and hubs
that the source mutates are classes whose methods carry `modifies` clauses.
The loops (broadcasts, queue cleanup, seeding, receive loops) are methods with
invariants, proved against specification functions. The client reducers,
validation and seed tables are functions with lemmas.

The model is split into these modules:

- **Shared:**
  - `Wrappers`, `Sequences` and `Sets` hold Option/Result and sequence facts.
  - `Models` holds the records of `backend_2/internal/models/dock.go`.
  - `Decimal` holds `%d` formatting and Go's `strconv.Atoi`.
  - `Docks` holds lookup and update on row lists.
  - `Store` is the SQL table as a class.
  - `Seeds` holds the four seed tables.
  - `Transport` holds what each socket has been sent and which sockets are closed.
- **Backends:**
  - `TsBackend` models `backend/src/index.ts`.
  - `GoMain` models `backend_2/main.go`.
  - `GoSql`, `GoJson`, `GoDatabase`, `GoHub` and `GoHandlers` model the Go packages.
  - `PyStore`, `PyMain` and `PyApi` model the two Python servers.
- **Pages:**
  - `Tracker` models the two dock-tracker pages.
  - `Redesigned` models the redesigned page.

Clocks, socket sends, database availability and generated ids are not computed
by the model; they are inputs to it:

- The wall clock is a parameter: `now` in milliseconds for the TypeScript
  cache, `nanos` and Unix seconds for the Go servers.
- Whether a send on a socket fails is decided by the `broken` set of a
  `Transport.Network`.
- Whether the database answers at all is `Table.reachable`.
- Fresh client ids come from the `nanos` parameter.

## Model

| member | source | states |
|---|---|---|
| Models.ParseStatus | backend_2/internal/models/dock.go:7-10 | a text parses to a status exactly when it is one of the four status texts, and then to the status with that text |
| Models.ParseStatusText | backend_2/internal/models/dock.go:7-10 | parsing the text of any status gives that status back |
| Models.ValidStatusesAreStatusTexts | backend_2/internal/database/db.go:48-55 | the validStatuses table accepts a text exactly when it is the text of one of the four statuses |
| Models.FourStatuses | backend_2/internal/models/dock.go:7-10 | there are exactly four distinct status texts |
| Models.Classify | backend/src/index.ts:258-269 | a frame asks for a pong exactly when its type is "ping" and for a full sync exactly when its type is "request_full_sync"; anything else, malformed frames included, asks nothing |
| Decimal.Atoi | backend_2/internal/handlers/handlers.go:95 | strconv.Atoi: an accepted text is a digit run with at most one leading sign, only a leading minus gives a negative value, and every value lies in the int64 range |
| Decimal.AtoiMeaning | backend_2/main.go:357 | strconv.Atoi accepts exactly the texts of an optional sign followed by one or more digits whose value is in the int64 range, and answers that value, "+n" and leading zeros included; "12x", "", "+" and "-" are rejected |
| Decimal.AtoiOfIntToString | backend_2/internal/handlers/handlers.go:44 | an id printed with FormatInt reads back as the same integer |
| Decimal.IntToStringInjective | backend_2/internal/database/db.go:132 | different dock numbers give different "Dock n" texts |
| Seeds.TsSeedLayout | backend/src/index.ts:129-135 | initDb's 24 seed docks are all available, numbered within their zone, and cover every southeast seat 1..13 and southwest seat 1..11 exactly once |
| Seeds.PySeedLayout | main.py:240-242 | init_db's 24 seed docks are all available and cover every seat of the 13 + 11 layout exactly once |
| Seeds.GoSeedLayout | backend_2/internal/database/db.go:116-136 | InitializeDB's 24 seed docks are all available and cover every seat of the 13 + 11 layout exactly once |
| Seeds.SouthwestNamesDistinct | backend_2/internal/database/db.go:116 | the eleven southwest names are pairwise different |
| Seeds.GoSeedNamesDistinct | backend_2/internal/database/db.go:106-108 | every backend_2 seed dock has a name and no two share one, as the UNIQUE(name) column demands |
| Docks.Find | backend_2/internal/database/db.go:142-151 | the row found for an id is a row of the table with that id, and there is none exactly when no row has the id |
| Docks.FindUnique | backend_2/internal/database/db.go:102 | with unique primary keys, the row found for the id of row k is row k |
| Docks.WithStatus | backend/src/index.ts:227-228 | `UPDATE docks SET status = ? WHERE id = ?`: rows with the id get the status, every other row is kept, and the length is kept |
| Docks.WithStatusAbsent | backend_2/internal/database/db.go:74-75 | an update of an id no row has changes nothing |
| Docks.LastWriteWins | main.py:200-201 | a second update of the same id overrides the first |
| Docks.WithStatusKeepsKeys | backend_2/internal/database/db.go:107-108 | an update keeps unique ids, unique seats and unique names |
| Docks.FindAfterWithStatus | backend_2/internal/database/db.go:78-89 | after an update, the row read back for the id is the old row with the new status, and every other id reads as before |
| Docks.ByIdAt | backend_2/internal/database/db.go:142-151 | in the map view id -> row, a key is present exactly when some row has it, and it maps to the row found |
| Docks.ByIdAfterWithStatus | backend/src/index.ts:227-228 | in the map view, an update is a single-key overwrite of the status, or nothing for a missing id |
| Store.Materialize | backend/src/index.ts:137-141 | inserting a seed list gives one row per entry, with consecutive ids and the entry's fields |
| Store.Table.SelectAll | backend/src/index.ts:154 | SELECT * answers every row in order, or fails without change when the database does not answer |
| Store.Table.SelectById | main.py:196 | a read by id answers the row found, or none, and changes nothing |
| Store.Table.UpdateStatus | backend_2/internal/database/db.go:60-76 | the UPDATE applies WithStatus and answers the rows affected: 1 when a row has the id (ids are unique), 0 otherwise; an unreachable database fails with nothing changed |
| Store.Table.UpdateReturning | backend/src/index.ts:226-229 | UPDATE ... RETURNING applies WithStatus and answers the updated row, or nothing for an unknown id |
| Store.Table.Insert | backend_2/internal/database/db.go:118-124 | an insert appends the row under the next id, or fails without change when the constraints of a constrained schema reject it |
| Store.Table.Recreate | backend_2/internal/database/db.go:94-113 | DROP then CREATE leaves an empty table whose ids restart at 1 |
| Transport.Network.Send | backend/src/index.ts:89 | a send delivers the message exactly when the socket is neither broken nor closed |
| Transport.Network.SendEachClosingFailed | backend_2/internal/websocket/hub.go:69-77 | the Go broadcast loop: every connection whose write succeeds receives the message once, every failing one is closed, and the failing keys are answered |
| Transport.Network.SendInOrder | main.py:154-156 | the Python broadcast loop: sockets before the first failing one each receive the message, the loop stops there, and the result says whether every send went through |
| Transport.DeliverEachAt | main.py:155-156 | a socket listed n times before the stop receives the message n times and nothing else |
| Transport.BroadcastFate | backend_2/internal/websocket/hub.go:69-77 | one open client of a broadcast receives the message exactly when it is not broken; otherwise it is closed and dropped |
| Transport.SecondBroadcast | backend_2/internal/handlers/handlers.go:49-57 | after a registration and one broadcast, a second broadcast fails on no client: it reaches exactly the connections the first one reached and closes nothing more |
| TsBackend.LookupStored | backend/src/index.ts:53-63 | after `set(key, data, ttl)` at `now`, `get(key)` at t answers data exactly while t < now + 1000*ttl; other keys answer as before |
| TsBackend.LookupAtExpiry | backend/src/index.ts:55 | expiry is strict: at the expiry instant the entry already reads as null |
| TsBackend.LookupStaysExpired | backend/src/index.ts:55 | once an entry reads as null it stays null as time passes |
| TsBackend.InvalidatedMisses | backend/src/index.ts:239 | after `set(key, null, 0)` every later `get(key)` misses |
| TsBackend.SimpleCache.Get | backend/src/index.ts:53-59 | get answers the stored value exactly while strictly before its expiry, and null otherwise |
| TsBackend.SimpleCache.Set | backend/src/index.ts:61-63 | set overwrites the key's entry with expiry now + 1000*ttl and leaves other keys untouched |
| TsBackend.CoherentLater | backend/src/index.ts:99 | a cache holding the current dock list, or nothing, still does so later while the table is unchanged |
| TsBackend.ConnectionManager.constructor | backend/src/index.ts:70 | the registry starts empty |
| TsBackend.ConnectionManager.Connect | backend/src/index.ts:73-79 | admits the socket exactly when fewer than 1000 are registered, and otherwise leaves the set unchanged; the size never exceeds 1000 |
| TsBackend.ConnectionManager.Disconnect | backend/src/index.ts:81-83 | removes exactly the given socket; removing an absent one changes nothing |
| TsBackend.ConnectionManager.SendOrDrop | backend/src/index.ts:88-93 | one iteration: a send that throws disconnects the socket, and a delivered one keeps it |
| TsBackend.ConnectionManager.Broadcast | backend/src/index.ts:85-95 | every non-failing socket receives the message once and stays registered; exactly the failing ones are removed; the loop goes on past failures |
| TsBackend.App.FetchAllDocks | backend/src/index.ts:152-157 | answers the table's rows and caches them for 60 seconds, or fails leaving the cache as it was |
| TsBackend.App.SendFullSync | backend/src/index.ts:97-107 | sends the cached list on a hit, or a fresh read on a miss, as one untimestamped full_sync; a failing read sends nothing; a coherent cache stays coherent |
| TsBackend.App.GetDocks | backend/src/index.ts:209-220 | answers the cached list or a fresh read; with a coherent cache that is the current table |
| TsBackend.App.UpdateDock | backend/src/index.ts:221-241 | fails with "Dock not found" exactly when no row has the id, with no broadcast and the cache kept; otherwise stores any status text, broadcasts the returned row as dock_updated, then invalidates the cache and answers the row |
| TsBackend.App.Open | backend/src/index.ts:251-256 | an admitted socket is registered and sent a full sync; the 1001st is closed with code 1013 and sent nothing |
| TsBackend.App.OnMessage | backend/src/index.ts:258-269 | for a frame that reaches the handler as text: ping gets exactly a pong, request_full_sync gets a full sync, anything else (unparsable included) sends nothing and closes nothing |
| TsBackend.App.OnClose | backend/src/index.ts:270-272 | the closed socket leaves the registry |
| TsBackend.App.InitDb | backend/src/index.ts:113-150 | an empty table receives the 24 seed rows; a table holding docks, or an unreachable one, is left alone |
| GoMain.Truncate | backend_2/main.go:125 | `int64(f)` of an in-range float truncates toward zero: the result lies within 1 of the real, on its side of zero |
| GoMain.KeptMembers | backend_2/main.go:121-131 | one pass keeps exactly the messages with a numeric timestamp younger than 24 hours, in their original order, each as often as it was queued |
| GoMain.KeptLater | backend_2/main.go:126 | a pass at a later time after an earlier pass keeps what the later pass alone keeps; a second pass at the same time changes nothing |
| GoMain.KeepYoung | backend_2/main.go:120-131 | the inner loop rebuilds the queue as exactly the young messages, in order |
| GoMain.CleanedQueuesKeep | backend_2/main.go:132-136 | after a pass an id keeps a queue exactly when it had a young message; that queue is non-empty and holds the young messages in order, each as often as it was queued |
| GoMain.CleanedQueuesLater | backend_2/main.go:119-137 | a pass at a later time absorbs a pass at an earlier one |
| GoMain.SendQueued | backend_2/main.go:76-79 | a reconnecting client is sent its queued texts verbatim, in queue order (nothing in main.go fills the queues; see Left out) |
| GoMain.ConnectionManager.constructor | backend_2/main.go:53-58 | no connections, no queues, and the mutex free |
| GoMain.ConnectionManager.Connect | backend_2/main.go:64-84 | never completes once the mutex is held for good (see Findings); otherwise answers "" and changes nothing when 1000 are registered, and else registers the socket under the clock's decimal id, flushes and deletes that id's queue, and answers the id |
| GoMain.ConnectionManager.Disconnect | backend_2/main.go:86-94 | a known id is closed and forgotten; an unknown id changes nothing; nothing changes once the mutex is held for good |
| GoMain.ConnectionManager.Broadcast | backend_2/main.go:86-110 | as written: writes in map order while holding the mutex; the connections before the first failing write each receive the message once, and at that write `disconnect` re-locks the mutex, so the manager stalls for good with that connection neither closed nor removed; with no failing write the registry is unchanged |
| GoMain.ConnectionManager.BroadcastIntended | backend_2/main.go:96-110 | with the failing connection closed and removed without re-locking: every connection whose write succeeds receives the message once; exactly the failing ones are closed and removed; queues are untouched |
| GoMain.ConnectionManager.CleanupQueues | backend_2/main.go:117-138 | one pass replaces the queues by their cleaned form and leaves the connections alone; nothing changes once the mutex is held for good |
| GoMain.ConnectionManager.UpdateDockStatus | backend_2/main.go:253-274 | the status is written whenever the database answers; dock_updated is broadcast, as written, exactly when the re-read of a present, named row succeeds; no connection is closed or removed, and the manager stalls exactly when a write fails |
| GoMain.HandleUpdateDockStatus | backend_2/main.go:354-380 | 400 for a non-integer id or an undecodable body with nothing changed; a `null` body or status stores the empty status; 500 exactly when updateDockStatus fails; 200 exactly when it succeeds and no write failed; no answer at all when a write failed and the handler stalls in the broadcast |
| GoMain.RepliesAppend | backend_2/main.go:221-250 | the answers to a sequence of frames are the answers to each part in turn |
| GoMain.RepliesSkipIgnored | backend_2/main.go:229-232 | a malformed frame, or one of another type, adds no answer and the loop reads on |
| GoMain.RepliesShape | backend_2/main.go:234-249 | every answer is a pong or a full sync of the read, at most one per frame, and ping is always answered |
| GoMain.Answer | backend_2/main.go:234-249 | one frame is answered as the dispatch specifies |
| GoMain.AnswerAll | backend_2/main.go:221-250 | the read loop sends exactly the answers to the frames, in order |
| GoMain.Serve | backend_2/main.go:206-250 | an admitted socket is sent the initial full sync before any reply |
| GoMain.Admitted | backend_2/main.go:204-250 | the session of a registered socket ends with its id disconnected, unless the manager is stalled |
| GoMain.HandleWebSocket | backend_2/main.go:191-251 | a refused socket is closed and sent nothing; an admitted one gets its queue, the full sync and the answers, then is disconnected; on a stalled manager the handler never gets past connect |
| GoMain.TwoSockets | backend_2/main.go:64-84 | two sockets connect to a one-dock table, the first of which fails every write; both are registered and nothing has been sent to the second |
| GoMain.BrokenSocketAsWritten | backend_2/main.go:96-110 | as written, an update over a registry holding a failing socket gets no answer, the healthy socket receives nothing when the failing one is written first, and the failing one stays registered and open |
| GoMain.BrokenSocketIntended | backend_2/main.go:96-110 | with the intended broadcast, the healthy socket receives the update and the failing one is closed and removed |
| GoSql.ScanOneAgrees | backend_2/internal/database/db.go:142-153 | when the full read succeeds, a read by id answers exactly the listed row |
| GoSql.QueryDocks | backend_2/internal/database/db.go:27-44 | answers every row when all are named; fails when the query fails or a NULL name is scanned |
| GoSql.QueryDockById | backend_2/internal/database/db.go:142-153 | answers the row with the id; fails for no row (sql.ErrNoRows), a NULL name or a failing query |
| GoDatabase.UpdateAnswerMeaning | backend_2/internal/database/db.go:46-90 | succeeds exactly for one of the four statuses on a reachable table with a named row of that id, and then answers that row with the new status |
| GoDatabase.UpdateAnswerRepeat | backend_2/internal/database/db.go:46-90 | repeating an update answers the same dock |
| GoDatabase.UpdateDockStatus | backend_2/internal/database/db.go:46-90 | rejects an invalid status before touching the table, reports "no dock found" from a zero row count, and writes only the row with the id |
| GoDatabase.GoSeedAdmissible | backend_2/internal/database/db.go:100-136 | every seed row passes the UNIQUE and NOT NULL constraints over the rows inserted before it |
| GoDatabase.InitializeDB | backend_2/internal/database/db.go:92-140 | a reachable database ends with exactly the 24 seed rows, ids 1..24; an unreachable one is left as it was |
| GoDatabase.InitializedTable | backend_2/internal/database/db.go:100-136 | the seeded table has 24 available docks with distinct names and distinct seats |
| GoHub.Hub.constructor | backend_2/internal/websocket/hub.go:30-38 | no clients, and Run ready to receive |
| GoHub.Hub.RunBroadcast | backend_2/internal/websocket/hub.go:66-78 | every client whose write succeeds receives the message once; failing ones are closed and deleted; the loop goes on |
| GoHub.Hub.Post | backend_2/internal/websocket/hub.go:96 | a post is received and broadcast unless Run is stalled, and then nothing changes |
| GoHub.Hub.BroadcastUpdate | backend_2/internal/websocket/hub.go:83-97 | posts exactly the given dock as dock_updated: unless Run is stalled, every client whose write succeeds receives it once, and exactly the failing clients are closed and deleted |
| GoHub.Hub.BroadcastFullSync | backend_2/internal/websocket/hub.go:99-113 | posts exactly the given list as full_sync with the clock's timestamp |
| GoHub.Hub.Register | backend_2/internal/websocket/hub.go:43-55 | as written: stores the client under its id (replacing one with the same id), and on a readable table Run stalls with nothing written to any client |
| GoHub.Hub.RegisterIntended | backend_2/internal/websocket/hub.go:43-55 | stores the client under its id and, when the read succeeds, writes the full sync to every client, the new one included |
| GoHub.Hub.Unregister | backend_2/internal/websocket/hub.go:57-64 | a stored id is deleted and its connection closed; an unknown id changes nothing |
| GoHub.FirstRegistrationAsWritten | backend_2/internal/websocket/hub.go:55 | after the first registration the new client has received nothing, and a later update post never completes |
| GoHub.FirstRegistrationIntended | backend_2/internal/websocket/hub.go:43-55 | with the intended register case, the client receives the full sync and then the update |
| GoJson.DecodedStatusMeaning | backend_2/internal/handlers/handlers.go:101-107 | `json.Decode` into a one-field struct: a body that is not JSON, or whose status member is not a string or null, is rejected; a string status is taken as is; `null`, a missing member or a `null` body leave the empty status, which is not a valid status |
| GoHandlers.UpdateResponseMeaning | backend_2/internal/handlers/handlers.go:109-117 | a well-formed request is answered 200 exactly when the status is valid and a named row has the id, with that row in its new status; otherwise 500 |
| GoHandlers.Handler.constructor | backend_2/internal/handlers/handlers.go:29-34 | the handler holds the given database and hub |
| GoHandlers.Handler.HandleUpdateDock | backend_2/internal/handlers/handlers.go:93-123 | 400 for a bad id or body and the store untouched; a `null` body or status decodes to the empty status, which is answered 500; 500 with no broadcast on a store error; on success the response and the broadcast carry the same dock, failing clients are closed and deleted, and nothing is sent while the hub is stalled |
| GoHandlers.Handler.HandleWebSocket | backend_2/internal/handlers/handlers.go:36-67 | built on the intended register case (see Findings), which as written stalls the hub: the client is registered before the full sync is posted; a failing read leaves it registered with its connection open; otherwise the two full syncs reach exactly the clients, the new one included, whose connections are neither broken nor closed, those that fail are closed and deleted, and the new client ends unregistered and closed |
| GoHandlers.Handler.SyncAndServe | backend_2/internal/handlers/handlers.go:57-66 | on a hub that is not stalled, which as written holds only until the first registration (see Findings): the full sync reaches every client whose write succeeds, the failing ones are closed and deleted, and the serving client ends unregistered with its connection closed |
| PyStore.AsSent | main.py:207-212 | the serialised dock keeps id, location, number and status, and has no name |
| PyStore.AllAsSent | api/index.py:51 | every row is serialised in table order |
| PyStore.InitDb | main.py:232-252 | an empty readable table receives the 24 seed rows in one commit; a table holding docks, or one that cannot be read, is left alone |
| PyStore.PySeededTable | api/index.py:123-130 | the seeded table holds 24 available, unnamed docks with consecutive ids, southeast first, every seat once |
| PyMain.RemoveFirstCounts | main.py:151-152 | list.remove takes away exactly one occurrence when there is one, so a socket listed once is gone afterwards |
| PyMain.ConnectThenDisconnect | main.py:147-152 | removing the socket just appended gives back the earlier list |
| PyMain.SessionMeaning | main.py:221-227 | the loop runs through all frames exactly when every frame is answered, and then has sent the answers in order; a loop that stopped has sent what the frames before the failing one asked for |
| PyMain.SessionStops | main.py:220-228 | once the loop has raised, later frames are never read |
| PyMain.OnlyPongsAsWritten | main.py:158-159 | as written, a socket is only ever sent pong, and any full-sync request raises |
| PyMain.ConnectionManager.constructor | main.py:144-145 | the list starts empty |
| PyMain.ConnectionManager.Connect | main.py:147-149 | the socket is appended |
| PyMain.ConnectionManager.Disconnect | main.py:151-152 | removes the first occurrence and raises exactly when the socket is not listed |
| PyMain.ConnectionManager.Broadcast | main.py:154-156 | sends in list order until the first failing send, which aborts the rest |
| PyMain.ConnectionManager.SendFullSync | main.py:158-163 | as written, raises NameError for the undefined db; given a table, sends every row as one full sync, or raises a database error for an unreachable table |
| PyMain.Answer | main.py:223-227 | one frame is answered as Reply specifies, or raises |
| PyMain.ReceiveLoop | main.py:220-227 | the socket is sent exactly what the session sends, and the loop ends with the session's exception |
| PyMain.WebsocketEndpointAsWritten | main.py:217-229 | the socket is listed and then closed but never removed, and the handler always ends in NameError |
| PyMain.WebsocketEndpoint | main.py:217-229 | with the disconnect caught, a client that leaves is removed from the list; any other exception leaves it listed |
| PyMain.UpdateOutcomeMeaning | main.py:194-215 | succeeds exactly for a known id on a readable table, whatever the status text; the status is stored verbatim, and 404 is answered exactly for an unknown id |
| PyMain.UpdateDock | main.py:194-215 | an unknown id is answered 404 with no change and no broadcast; otherwise the status is committed, then dock_updated goes to the listed sockets in order; a failing send answers 500 after the commit |
| PyMain.ThreeClients | main.py:217-229 | three clients connect and the second leaves: as written all three stay listed, as intended the second is removed |
| PyMain.LeftClientAsWritten | main.py:154-156 | as written, after a client leaves, an update is committed but answered 500, and the client listed after the one that left never receives it |
| PyMain.LeftClientIntended | main.py:154-156 | with the disconnect caught, the update is answered with the dock and both remaining clients receive it |
| PyApi.DistinctCount | api/index.py:43 | a socket listed without repeats occurs once when listed and otherwise not at all |
| PyApi.BroadcastOnce | api/index.py:86-87 | a completed broadcast gives each registered socket the update once and no one else anything |
| PyApi.UpdateOutcomeMeaning | api/index.py:58-95 | succeeds exactly for a valid id, a status among the four and a known dock, answering it in its new status; a missing status, or an array or string body without "status", is 400 "Status is required"; a `null` or non-string status is 400 "Invalid status"; a body that is not JSON, is `null`, a number or a boolean, or an array or string containing "status", is answered 500; a rejected body gets the same answer whatever the table holds; 404 exactly for an unknown id |
| PyApi.Connections.constructor | api/index.py:43 | no sockets |
| PyApi.Connections.Opened | api/index.py:101 | the socket is added to the set |
| PyApi.Connections.Closed | api/index.py:110-111 | the socket is removed, raising KeyError exactly when it is not in the set |
| PyApi.UpdateDock | api/index.py:58-95 | the body is checked before the table is read; on success the status is committed and the same dock_updated goes to every socket in set order; a failing send answers 500 after the commit |
| PyApi.StoreAndSend | api/index.py:69-89 | 500 "database error" or 404 with nothing changed, otherwise commit then send in order |
| PyApi.Lifetime | api/index.py:97-113 | a socket receives the updates made while its handler runs and none after it ends |
| Tracker.DockNameNamesSeat | frontend/src/app/dock-tracker.tsx:96-101 | on the layout, two docks with the same derived name sit on the same seat |
| Tracker.DockNameAgreesWithGoSeed | src/app/dock-tracker.tsx:95-100 | the derived name of every backend_2 seed row is the name it was stored with |
| Tracker.Named | frontend/src/app/dock-tracker.tsx:73 | renaming changes the name only, to the derived one |
| Tracker.NameAll | src/app/dock-tracker.tsx:47-50 | fetched docks keep every field but the name, which is derived |
| Tracker.NameAllNames | frontend/src/app/dock-tracker.tsx:78 | renaming is stable, and docks on distinct seats of the layout get distinct names |
| Tracker.ApplyUpdateMeaning | frontend/src/app/dock-tracker.tsx:69-75 | dock_updated replaces exactly the docks with the message's id by the renamed message dock, keeps the others, changes nothing for an unknown id, and is idempotent |
| Tracker.OnMessage | frontend/src/app/dock-tracker.tsx:66-80 | full_sync installs the message's docks, renamed; any other type leaves the list as it was |
| Tracker.OnSseMessage | src/app/dock-tracker.tsx:71-82 | only dock_updated changes the list, as on the websocket page; every other type is ignored |
| Tracker.UpdateConverges | frontend/src/app/dock-tracker.tsx:69-113 | the dock_updated the server sends for an update turns the page's copy of the table into the updated table; the optimistic update reaches the same list, and the echo after it changes nothing |
| Tracker.SentIsUpdatedRow | frontend/src/app/dock-tracker.tsx:73 | the renamed message dock is the renamed updated row, whatever name the server sent |
| Tracker.FullSyncConverges | frontend/src/app/dock-tracker.tsx:76-79 | after a full sync the websocket page shows exactly the server's rows, renamed; the server-sent-events page ignores it |
| Tracker.Located | frontend/src/app/dock-tracker.tsx:138 | the tab filter is an order-preserving sublist holding exactly the docks of the tab, each as often as it occurs |
| Tracker.InStatus | frontend/src/app/dock-tracker.tsx:140 | the status filter is an order-preserving sublist holding exactly the docks with the status, each as often as it occurs |
| Tracker.VisibleMeaning | src/app/dock-tracker.tsx:136-142 | the shown docks are an order-preserving sublist holding exactly the tab's docks with the filtered status, if one is set, each as often as it occurs |
| Tracker.TalliedMeaning | frontend/src/app/dock-tracker.tsx:146-151 | the counts have the four statuses as keys, each counting the docks in that status; any other status that occurs becomes a NaN key |
| Tracker.OccurrencesSum | src/app/dock-tracker.tsx:144-153 | when every status is one of the four, the four counts add up to the number of docks |
| Tracker.StatusCountsSum | frontend/src/app/dock-tracker.tsx:145-154 | over a tab whose docks all carry one of the four statuses, the counts have exactly the four keys and sum to the tab's dock count |
| Tracker.ToggleMeaning | frontend/src/app/dock-tracker.tsx:165-167 | the filter is cleared exactly when the clicked status was selected, and is otherwise that status; a second click on the same status restores the filter exactly when it was unset or that status |
| Redesigned.Initial | src/components/dock-tracker-redesigned.tsx:16-18 | 13 docks with ids 1..13, all available |
| Redesigned.SetTileStatus | src/components/dock-tracker-redesigned.tsx:20-24 | the list keeps its length |
| Redesigned.Statuses | src/components/dock-tracker-redesigned.tsx:28 | the docks' statuses, in order |
| Redesigned.StatusCountsMeaning | src/components/dock-tracker-redesigned.tsx:26-31 | each count is the number of docks in that status, and the three add up to the number of docks |
| Redesigned.InitialState | src/components/dock-tracker-redesigned.tsx:16-31 | the initial ids are distinct and the initial counts are 13 available and none otherwise |
| Redesigned.SetTileStatusMeaning | src/components/dock-tracker-redesigned.tsx:20-24 | only the docks with the id change, and only their status; an unknown id leaves the list as it was; repeating a choice changes nothing more |
| Redesigned.SetTileStatusCounts | src/components/dock-tracker-redesigned.tsx:20-31 | with distinct ids, moving one dock to a new status moves one from its old status's count to the new one's |

## Left out

- Concurrency is not modelled: goroutines, mutexes, channels, asyncio and event-loop interleaving are absent. Each handler and each case of `Hub.Run` runs as one sequential step. These defects need interleavings and are not captured:
  - `delete` runs under a read lock (backend_2/internal/websocket/hub.go:73).
  - aiohttp's `ws_connections` may change while `update_dock` iterates over it (api/index.py:86).
- A mutex that can never be taken again is modelled as the `stalled` flag of `GoMain.ConnectionManager` and `GoHub.Hub`: a call that would block changes nothing and reports that it did not complete.
- `Client.ReadPump` and `Client.WritePump` (backend_2/internal/websocket/hub.go:115-160) are defined but never started by the handlers. They are not modelled; that nothing else receives from `Broadcast` is why the register case stalls (see Findings).
- backend_2/main.go never adds to `messageQueues`: `connect` reads and deletes queues (lines 76-80) and `cleanupQueues` rewrites them (lines 119-135), but nothing enqueues. `GoMain.SendQueued`, `GoMain.KeepYoung`, `GoMain.ConnectionManager.CleanupQueues` and the queue part of `Connect` and `GoMain.HandleWebSocket` model that code for any queue contents, though the program only ever runs them on empty queues.
- GoMain.Truncate: Go's conversion of a float outside the int64 range (implementation-defined) is not modelled, and neither is the saturation of `time.Time.Sub`; the cleanup test uses unbounded integers.
- TsBackend.App.OnMessage: the handler is assumed to receive each frame as the text the client sent. Elysia can hand a JSON text frame to `message` already parsed (backend/src/index.ts:260 then applies `JSON.parse` to an object); that framework behaviour is not modelled.
- Timers and tickers are left out: `periodicFullSync`, the hourly `cleanupQueues` ticker, read deadlines and the ping ticker. One cleanup pass is modelled with an explicit `now`.
- The heartbeat constants of backend_2/main.go are unused by the source and are not modelled.
- JSON encoding and decoding are left out. Frames and bodies arrive already classified (`Frame`, `Body`), and messages are a datatype.
  - Go's `null` for an empty dock slice is not represented.
  - Go's case-insensitive matching of the "status" member name is not modelled; only the exact name is.
  - main.py sends `dock.__dict__`, which also holds SQLAlchemy's `_sa_instance_state`, so `send_json` would raise TypeError for any non-empty table (main.py:161-163). `PyMain.ConnectionManager.SendFullSync` with a table sends the serialised columns instead (see Findings).
  - In main.py a frame whose "type" is not a string is treated like one without a type.
- The SQL drivers, SQLAlchemy sessions and `DatabasePool`'s random connection choice are abstracted as one `Store.Table`. An unreachable database fails every statement without change. The exception texts of SQLAlchemy, which api/index.py returns, are modelled as the fixed text "database error".
- PyMain.UpdateDock, PyApi.UpdateDock, GoDatabase.UpdateDockStatus: an id outside the database's integer range is treated as an id no row has, answered 404 or "no dock found". The source fails differently. sqlite3 raises OverflowError for an id of 2^63 or more: main.py:195-196 then answers 500, and api/index.py:70 answers 500 "An unexpected error occurred". The Postgres `id SERIAL` column is 32 bits (backend_2/internal/database/db.go:102), so for an id from 2^31 up to the int64 limit the UPDATE fails with "failed to update dock status". The model has no column width.
- HTTP plumbing is left out: routing, CORS, swagger, authentication (JWT, passwords, `authenticateMiddleware`) and the start-up of every server.
- FastAPI/pydantic validation (the 422 answer for a body without a string status) is not modelled. `PyMain.UpdateDock` receives the status text already validated.
- Python's `int()` parsing of the api/index.py path id is reduced to "parsed or not". aiohttp's default text for the uncaught error is modelled as "Internal Server Error".
- The close code uvicorn sends when a handler raises is modelled as a dropped connection.
- api/index.py's `init_db` exceptions propagate rather than being logged. Both Python `init_db`s are modelled as leaving an unreachable table alone.
- The read-only `get_docks` endpoints of main.py, api/index.py and backend_2 are not modelled separately. `TsBackend.App.GetDocks` and the read functions of `GoSql` cover the reads they perform.
- `generateUniqueID` takes the clock reading as the `nanos` parameter. Two connections in the same nanosecond take over each other's registry entry, as `GoMain.ConnectionManager.Connect` states, but the clock itself is not modelled.
- The frames that backend_2's handler reads after the full sync are discarded by the source. The model reduces the read loop to its end: the client is unregistered.
- The frontend page's initial fetch installs the fetched data without renaming it (frontend/src/app/dock-tracker.tsx:45). Rows installed that way are not modelled. Its error handling, and the revert-by-refetch after a failed update, are fetch plumbing.
- `acc[dock.status]++` with a status that names an `Object.prototype` member (such as `__proto__`) is not modelled. Any status outside the four becomes a NaN key.
- The UI is left out: JSX, icons, the login page, layouts, flight arrivals, the auth context and `next.config.js`.
- Tracker.UpdateConverges: the convergence property assumes the table has unique ids and that the message carries the updated row. The convergence of a page under interleaved messages from several writers is not stated.

## Findings

| source | as written | input that shows it | evidently intended | confidence | as-written member | corrected member |
|---|---|---|---|---|---|---|
| backend_2/internal/websocket/hub.go:55 | Run's register case calls `BroadcastFullSync`, which sends on the unbuffered `Broadcast` channel (line 112). Only Run itself receives from that channel, so Run waits forever. | The first client registers while the table reads successfully. It receives nothing, and every later post to the hub blocks. | The full sync is written to the registered clients, as Run's broadcast case does. `GoHandlers.Handler.HandleWebSocket` and `SyncAndServe` are built on this corrected case. | not executed | GoHub.Hub.Register, GoHub.FirstRegistrationAsWritten | GoHub.Hub.RegisterIntended, GoHub.FirstRegistrationIntended |
| main.py:228 | `WebSocketDisconnect` is never imported, so the `except` clause raises NameError when the loop ends. The socket is never removed from `active_connections`. The next broadcast fails at that socket: the update is committed but answered 500, and clients listed after it get nothing. | Clients 0, 1 and 2 connect, client 1 leaves, and then a PUT sets dock 1 to "occupied". | The client that left is removed, and every remaining client receives the update. | not executed | PyMain.WebsocketEndpointAsWritten, PyMain.LeftClientAsWritten | PyMain.WebsocketEndpoint, PyMain.LeftClientIntended |
| main.py:159 | `send_full_sync` reads a module-level `db` that does not exist, so every request_full_sync raises NameError. The socket is only ever sent pong. | A client sends `{"type": "request_full_sync"}`. | The docks are read from a session and sent as a full sync. A second fix is needed for that: `dock.__dict__` includes `_sa_instance_state`, which `send_json` cannot serialise, so the columns must be listed explicitly; the corrected member sends the serialised columns. | not executed | PyMain.ConnectionManager.SendFullSync (null db), PyMain.OnlyPongsAsWritten | PyMain.ConnectionManager.SendFullSync (a table), PyMain.SessionMeaning |
| backend_2/main.go:104 | `broadcast` holds `cm.mu` (lines 97-98) while it writes, and on a failed write calls `disconnect`, which locks the same non-reentrant mutex again (line 87). The goroutine blocks for good: the failing connection stays registered and open, connections after it in map order get nothing, the PUT is never answered, and every later connect, disconnect, broadcast and queue cleanup blocks. | Two sockets connect, the first of which fails its writes, and a PUT sets dock 1 to "occupied" with the failing socket first in map order. | The failing connection is closed and removed without re-locking, and the loop goes on to the other connections. | not executed | GoMain.ConnectionManager.Broadcast, GoMain.BrokenSocketAsWritten | GoMain.ConnectionManager.BroadcastIntended, GoMain.BrokenSocketIntended |
