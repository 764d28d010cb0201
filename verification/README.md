# chatapp relay core in Dafny

This project models the message path of the chatapp backend and the small authentication
pieces around it, and proves properties of that model.

A chat message comes in over a websocket or a POST to /messages. It gets an id and a
timestamp, is checked against the length limit and the schema validator, and is published on
the Kafka topic. A relay loop takes messages off the bus, writes each one to every connected
websocket client, and then stores it in MongoDB. Around this sit the OIDC bearer-token checks,
the provider discovery backoff, the configuration helpers, and the development HTTP side of
the password connector (sessions, HTML escaping, request ids).

Modules, one per source file:

| module | models | style |
|---|---|---|
| `Models` | `models.Message`, with the timestamp as an integer where 0 is the zero time | datatype |
| `Optional` | Go's `(value, error)` pairs as `Option` and `Result` | datatype |
| `Strconv`, `Text` | the parts of `strconv` and `strings` the core calls | functions |
| `Config` | `config.GetEnv` and the package-level settings | functions |
| `Http` | status codes and reply bodies | datatype |
| `Websocket` | connection handles and the log of `WriteJSON` calls, plus what a fan-out is | functions, lemmas |
| `ApiHub` | `api.Hub` | class |
| `Store` | the `store` package: `messages` collection, init guards, upsert, cursor | class |
| `Kafka` | `getWriter`, `Writer` retry, `DLQWriter`, `Reader` | class, methods with loops |
| `ApiServer` | `api.Server`: `withAuth`, `handleWS`, `handleMessages`, `broadcastLoop`, `ParseMaxLen` | class, methods with loops |
| `BackendMain` | `backend/src/main.go`: `maxMsgLen`, `handleConnections`, `handleMessages`, `handleMessagesBroadcasting` | class, methods with loops |
| `Oidc` | `VerifyToken`, `AuthMiddleware`, error texts, `initProviderWithBackoff` | functions, methods with loops |
| `AuthService` | `AuthService.Authenticate` | functions |
| `Connector` | `dex_password/src/main.go`: `getEnv`, `htmlEscape`, `clientIP`, `randomID`, `reqID`, `register`/`login`/`auth`, `loggingResponseWriter` | functions, classes |

Everything outside the process is an input to the operation that uses it. That covers:

- each `WriteJSON` result, given as the set of connections whose write fails;
- each Kafka write result, given as a function from attempt number to error;
- each Mongo driver result;
- the OIDC library's signature check and claim decoding, each as a function of the token,
  with the configured audience and the current time;
- the api server's token verifier, as a function of the token;
- `uuid.NewString` and `time.Now`, given as a fresh id and a clock reading;
- the bytes from `crypto/rand`;
- `net.SplitHostPort`.

A goroutine that loops over a channel becomes a method that loops over a finite sequence of
the values it would receive.

Ghost write logs record the observable effects on connections: the writes, and the closes.
A shared ghost call log (`Trace.EventLog`) records the calls that matter for ordering. The
call itself appends the entry: `Hub.Broadcast`, `Hub.BroadcastExcept`, the backend's evicting
broadcast, `MongoStore.InsertMessage` and `Bus.DLQWriter` each append one. The server, its
hub and its store share one log, and so do the backend, its store and its bus. The relay
loops state their order ("persist after broadcast") over that log.

## Model

| member | source | states |
|---|---|---|
| ApiHub.Hub.constructor | backend/src/api/hub.go:16 | a new hub has no members and has written to and closed nothing |
| ApiHub.Hub.Add | backend/src/api/hub.go:18-23 | conn becomes a member; adding a member again leaves the set unchanged; no writes or closes |
| ApiHub.Hub.Remove | backend/src/api/hub.go:25-31 | conn stops being a member and every other member stays; conn is closed even when it was not a member |
| ApiHub.Hub.WriteEach | backend/src/api/hub.go:36-40 | one write of msg to each target; a failed write is only logged, and membership and closes are unchanged |
| ApiHub.Hub.Broadcast | backend/src/api/hub.go:33-41 | the writes are one fan-out to the members: each member is written exactly once, and failing members are not removed; the call is logged once |
| ApiHub.Hub.BroadcastExcept | backend/src/api/hub.go:44-55 | one write to every member other than except and none to except; with a non-member except, the same fan-out as Broadcast; membership unchanged |
| Websocket.FanoutShape | backend/src/api/hub.go:36-40 | a fan-out log has one write per target and no other write, all of msg, each successful exactly when its connection is not failing |
| Websocket.FanoutWritesEachOnce | backend/src/api/hub.go:36-40 | counted per connection: a target gets one write, a non-target none |
| Websocket.FanoutSameWrites | backend/src/api/hub.go:36-40 | two fan-outs to the same targets are the same multiset of writes, whatever order the map iteration takes |
| Websocket.RemoveConn | backend/src/api/hub.go:47-50 | removing c's write from a fan-out that includes c leaves a fan-out to the other targets |
| Websocket.RoundsWriteEachTargetOncePerRound | backend/src/api/server.go:179-185 | over several broadcast rounds to the same members, each member is written once per round and no one else is written |
| Websocket.FanoutFailedConns | backend/src/main.go:254-262 | the failed writes of a fan-out are exactly those to the failing targets, one each |
| Websocket.FailedConnsAppend | backend/src/main.go:254-262 | the failed connections of two logs joined are those of the first, then those of the second |
| Config.Getenv | backend/src/config/config.go:33 | an unset variable reads as "" |
| Config.GetEnv | backend/src/config/config.go:32-37 | the value when set and non-empty; the default when unset or ""; the result is always one of the two, so it is non-empty when the default is |
| Config.Load | backend/src/config/config.go:5-29 | every setting the core reads is non-empty, and with an empty environment each is its default |
| Strconv.Atoi | backend/src/api/server.go:189 | a parsed value lies in the 64-bit range, comes from text that starts with a digit or a sign, and is negative only after a '-' |
| Strconv.AtoiItoa | backend/src/api/server.go:188-193 | parsing the decimal text of any 64-bit integer gives that integer back |
| ApiServer.ParseMaxLen | backend/src/api/server.go:188-193 | n when v parses to an integer n > 0, otherwise the fallback |
| ApiServer.ParseMaxLenItoa | backend/src/api/server.go:188-193 | a printed positive 64-bit limit is read back exactly; zero and negative limits give the fallback |
| ApiServer.BearerToken | backend/src/api/server.go:63-67 | a token exists exactly when the header has at least 8 characters and starts with "Bearer "; the token is the rest of the header and is non-empty |
| ApiServer.BearerTokenOfPrefixed | backend/src/api/server.go:68 | the verifier receives exactly what follows "Bearer " |
| ApiServer.NormalizeWs | backend/src/api/server.go:99-104 | an empty id becomes the fresh id and a zero timestamp becomes now; a set id or timestamp is kept; user and content are untouched |
| ApiServer.NormalizeWsIdempotent | backend/src/api/server.go:99-104 | normalising twice changes nothing more than normalising once |
| ApiServer.WsPublishesAdmitted | backend/src/api/server.go:105-113 | only messages that pass the length check and the validator are published, at most one per frame |
| ApiServer.WsFallbacksPublished | backend/src/api/server.go:113-116 | every fallback broadcast is of a message whose publish was attempted first |
| ApiServer.WsInsertsFellBack | backend/src/api/server.go:116-121 | the handler inserts a message only when it also broadcast it as a fallback |
| ApiServer.DroppedFrameHasNoEffect | backend/src/api/server.go:105-112 | a frame that is too long or rejected by the validator is not published, not broadcast and not stored |
| ApiServer.PublishedFrameHasNoFallback | backend/src/api/server.go:113-125 | a frame whose publish succeeds is neither broadcast nor stored by the handler |
| ApiServer.PostMessage | backend/src/api/server.go:142-145 | the id is filled only when empty, and the timestamp is always the server's time |
| ApiServer.PostReply | backend/src/api/server.go:133-165 | 400 "bad request" on a decode error, then 400 "message too long" before any fill-in, then 400 "invalid" from the validator on the filled-in message; otherwise 202 with the final id and "broadcasted-fallback" or "enqueued" depending on the publish |
| ApiServer.DeliveryRoundsAt | backend/src/api/server.go:180-181 | round i of the relay is the i-th received message |
| ApiServer.DeliveryInsertsDelivered | backend/src/api/server.go:183 | the relay stores a message only if it received it and the driver accepted the insert |
| ApiServer.RelayStepsOrder | backend/src/api/server.go:180-184 | in the calls of the relay, call 2i broadcasts the i-th message and call 2i+1 inserts that same message |
| ApiServer.FallbackEvents | backend/src/api/server.go:113-121 | each fallback round makes one broadcast call, plus one insert call when there is a repository |
| ApiServer.FallbackEventsAppend | backend/src/api/server.go:93-126 | the calls of two runs of fallback rounds, one after the other, are those of the first run, then those of the second |
| ApiServer.AfterInsert | backend/src/api/server.go:117-121 | an insert either leaves the documents unchanged or is the upsert of the message, and keeps them keyed by id |
| ApiServer.Server.constructor | backend/src/api/server.go:55 | a fresh empty hub sharing the repository's call log, the given repository, limit and validator, and no publishes yet |
| ApiServer.Server.InsertIfRepo | backend/src/api/server.go:117-121 | without a repository nothing changes and no call is logged; otherwise the store's InsertMessage, logged once |
| ApiServer.Server.HandleWsFrame | backend/src/api/server.go:99-124 | one frame: it is published when admitted; on publish failure it is broadcast to the members other than conn and then inserted, and the call log grows by that broadcast and insert; membership is unchanged |
| ApiServer.Server.ReadLoop | backend/src/api/server.go:93-126 | the frames are handled in order: the publishes, fallback rounds, inserts and logged calls of every frame; membership is unchanged |
| ApiServer.Server.HandleWS | backend/src/api/server.go:78-128 | 401 "Unauthorized", nothing registered and no call logged for an empty or rejected token; nothing after a failed upgrade; otherwise conn joins, its frames are handled in order (the publishes, fallback rounds, inserts and logged calls of every frame), and conn is then removed and closed |
| ApiServer.Server.HandlePost | backend/src/api/server.go:132-165 | the reply is PostReply; an admitted message is published, and on publish failure it is also broadcast to every member and then inserted, in that order in the call log |
| ApiServer.Server.HandleGet | backend/src/api/server.go:166-173 | 200 with the stored messages the cursor handed out, one per id, and all of them when it did not fail early; 500 "fetch failed" only without a collection, on a failed Find or on an undecodable document; a cursor that fails early still gives 200 |
| ApiServer.Server.ServeMessages | backend/src/api/server.go:61-73 | 401 and no effect without an accepted bearer token, with or without a repository; otherwise POST, GET (the HandleGet answer over the stored documents), or 405 for any other method |
| ApiServer.Server.BroadcastLoop | backend/src/api/server.go:179-185 | each received message is written once to every member and then inserted, in order: in the call log, the broadcast of message i is immediately followed by its insert; insert errors are ignored and membership is unchanged |
| Store.StoredIsValue | backend/src/store/mongo.go:94-96 | under the unique index, being stored under its own id is the same as being one of the stored documents |
| Store.Upsert | backend/src/store/mongo.go:62-65 | an unseen id adds exactly that message; a stored id keeps its document; other ids are untouched; the unique index is kept |
| Store.FirstWithId | backend/src/store/mongo.go:62-65 | the first message of a batch carrying an id, or none when no message carries it |
| Store.UpsertIdempotent | backend/src/store/mongo.go:62-65 | inserting the same message twice is inserting it once |
| Store.UpsertAllKeepsKeyed | backend/src/store/mongo.go:94-96 | any sequence of inserts keeps at most one document per message_id, stored under its own id |
| Store.UpsertAllFirstWriterWins | backend/src/store/mongo.go:62-65 | after a sequence of inserts, a stored document is unchanged and a new id holds the first message that carried it |
| Store.UpsertAllAppend | backend/src/store/mongo.go:62-65 | inserting a then b is inserting a + b |
| Store.UpsertAllIdempotent | backend/src/store/mongo.go:62-65 | replaying a sequence of inserts changes nothing |
| Store.CollectStep | backend/src/store/mongo.go:80-86 | taking one more document off the cursor keeps the collected list exact and free of duplicates |
| Store.MongoStore.constructor | backend/src/store/mongo.go:18-21 | before Init both globals are nil |
| Store.MongoStore.Init | backend/src/store/mongo.go:24-39 | each failure is reported wrapped ("mongo connect: ", "mongo ping: ", "ensure indexes: "); a connect error leaves the client unset, a ping error leaves the collection as it was, an index error and success set both; the documents are untouched |
| Store.MongoStore.Close | backend/src/store/mongo.go:42-47 | no error without a client, otherwise the disconnect result |
| Store.MongoStore.Ping | backend/src/store/mongo.go:50-55 | "mongo client not initialized" before Init, otherwise the driver's ping result |
| Store.MongoStore.InsertMessage | backend/src/store/mongo.go:58-67 | "messages collection not initialized" and no change before Init; the driver's error and no change; otherwise the upsert; every call is logged, whatever its outcome |
| Store.CursorYield | backend/src/store/mongo.go:80-86 | the cursor hands out all n documents, or fewer when it fails early: exactly the number it fails after |
| Store.CollectedIsListing | backend/src/store/mongo.go:80-86 | the documents taken off the cursor so far, none undecodable, are stored messages, one per id |
| Store.MongoStore.GetAllMessages | backend/src/store/mongo.go:70-88 | an error before Init, on a failed Find, or when a document the cursor hands out does not decode (always so when an undecodable document exists and the cursor does not fail); otherwise Ok with the stored messages the cursor handed out, one per id; all of them when the cursor does not fail early, and a shorter list with no error when it does |
| Store.MongoStore.PruneOldMessages | backend/src/store/mongo.go:102 | removes nothing and returns no error |
| Kafka.WriterFor | backend/src/kafka/kafka.go:22-38 | the writer has the requested topic, and it is the shared one exactly when the shared writer is unset or has that topic |
| Kafka.Bus.constructor | backend/src/kafka/kafka.go:19-20 | no shared writer yet and nothing published |
| Kafka.Bus.GetWriter | backend/src/kafka/kafka.go:22-38 | the first call fixes the shared writer's topic and later calls never change it; the writer returned is WriterFor; nothing is published |
| Kafka.BackoffMs | backend/src/kafka/kafka.go:48-59 | the wait after failed attempt k is at least the 50 ms base |
| Kafka.Sleeps | backend/src/kafka/kafka.go:59 | the i-th wait is the one after failed attempt i |
| Kafka.AttemptsFrom | backend/src/kafka/kafka.go:50-57 | attempts go on until the first success, and never beyond 5 |
| Kafka.Attempts | backend/src/kafka/kafka.go:47-57 | between 1 and 5 attempts are made |
| Kafka.AttemptsStopAtFirstSuccess | backend/src/kafka/kafka.go:50-57 | the publish succeeds exactly when the last attempt made succeeded, and every earlier attempt failed |
| Kafka.AllFailedSleeps | backend/src/kafka/kafka.go:48-59 | when every attempt fails the waits are 50, 200, 450, 800 and 1250 ms, including one after the fifth attempt |
| Kafka.RetrySleeps | backend/src/kafka/kafka.go:59 | a publish never waits more than 5 times |
| Kafka.DeadLetterRecord | backend/src/kafka/kafka.go:69-81 | a record on the dead-letter topic, keyed by the message id, holding the message, the reason and the failure time |
| Kafka.Bus.Writer | backend/src/kafka/kafka.go:41-65 | a marshal error is returned with no writer chosen; otherwise up to 5 attempts with their waits; one record keyed by the id on success; on failure "kafka write failed after retries: " plus the last attempt's error and no record |
| Kafka.Bus.DLQWriter | backend/src/kafka/kafka.go:68-87 | a marshal error is returned first; otherwise exactly one write to the dead-letter topic, whose error is returned; one record on success, none on failure; every call is logged |
| Kafka.Forwarded | backend/src/kafka/kafka.go:104-123 | at most one message is forwarded per read |
| Kafka.ForwardedAppend | backend/src/kafka/kafka.go:117-122 | a payload that decodes is forwarded at the end, one that does not is skipped, and a read error adds nothing |
| Kafka.ForwardedStopsAtError | backend/src/kafka/kafka.go:105-114 | nothing read after the first read error is forwarded |
| Kafka.ForwardedDecoded | backend/src/kafka/kafka.go:104-123 | every forwarded message was decoded from one of the reads, and a message decoded by a read with no read error before it is forwarded |
| Kafka.Reader | backend/src/kafka/kafka.go:104-123 | the loop forwards exactly Forwarded(events) |
| BackendMain.MaxMsgLenFrom | backend/src/main.go:45-81 | 1000 unless MESSAGE_MAX_LENGTH parses as a positive integer; always positive; agrees with ParseMaxLen |
| BackendMain.Backend.constructor | backend/src/main.go:42-81 | an empty client map, and the limit parsed from the environment |
| BackendMain.PlainRecord | backend/src/main.go:159 | the record a delivered publish leaves: the main topic, keyed by the message id |
| BackendMain.WsRecordsAdmitted | backend/src/main.go:141-162 | only filled-in messages within the limit that the schema accepts reach the bus, at most one per frame |
| BackendMain.UndeliveredFrameLeavesNothing | backend/src/main.go:159-162 | a failed publish leaves nothing: no fallback broadcast and no insert |
| BackendMain.Backend.HandleFrame | backend/src/main.go:141-162 | fill in, skip when too long or invalid, otherwise publish; the bus grows by exactly the frame's record |
| BackendMain.Backend.ReadLoop | backend/src/main.go:129-164 | every frame is handled in order, and the bus grows by the records of all of them |
| BackendMain.Backend.HandleConnections | backend/src/main.go:106-165 | 401 "token not provided" for an empty token; 401 "Invalid token" with nothing registered unless the library accepts the token, its audience is the configured one and it has not expired; nothing after a failed upgrade; otherwise the frames are published in order and, at the read error, the connection is deleted from the map and closed |
| BackendMain.PostReply | backend/src/main.go:168-204 | 400 with the decoder's text; 400 "message too long"; 400 "Invalid message schema: " plus the validator's text, on the message as sent; 500 "Failed to enqueue message"; otherwise 202 with the final id and "enqueued" |
| BackendMain.PostValidatesRawMessage | backend/src/main.go:183-193 | the validator sees the message before the id and timestamp are filled in |
| BackendMain.Backend.HandlePost | backend/src/main.go:168-204 | the reply is PostReply, and the bus gains the filled-in message only when it is accepted |
| BackendMain.Backend.HandleGet | backend/src/main.go:205-213 | 200 with the stored messages the cursor handed out, one per id, and all of them when it did not fail early; 500 "Failed to fetch messages" only without a collection, on a failed Find or on an undecodable document |
| BackendMain.Backend.ServeMessages | backend/src/main.go:167-218 | the middleware's 401 and no effect, for a missing prefix or a token VerifyToken refuses; otherwise POST, GET (the HandleGet answer over the stored documents), or 405 for any other method |
| BackendMain.Survivors | backend/src/main.go:254-262 | the clients left are a subset of those connected at the start |
| BackendMain.SurvivorsIff | backend/src/main.go:254-262 | a client is left exactly when it was connected and no earlier round failed on it |
| BackendMain.EvictedNotWrittenAgain | backend/src/main.go:254-262 | round j writes once to each client that has survived so far, and never to an evicted one |
| BackendMain.Backend.BroadcastEvicting | backend/src/main.go:254-262 | one write to every client; exactly the failing ones are closed and deleted; the others are still written; one broadcast call is logged |
| BackendMain.RelayDeadLettersShape | backend/src/main.go:265-268 | every dead letter is for a relayed message whose insert failed, on the dead-letter topic, with reason "mongo_persist_failure"; none when every insert succeeds |
| BackendMain.RelayActionsOrder | backend/src/main.go:254-268 | in the relay's calls, every insert comes right after the broadcast of the same message, and every dead-letter write right after that message's insert |
| BackendMain.Backend.RelayOne | backend/src/main.go:252-268 | one round: the evicting broadcast, the insert, and a dead-letter write only when the insert reports an error, and those calls in that order in the call log |
| BackendMain.Backend.HandleMessagesBroadcasting | backend/src/main.go:249-270 | over the received messages, in order: the evicting broadcasts, the inserts and the dead letters; the calls it makes are in order: each insert right after the broadcast of its message, each dead letter right after the failed insert |
| Oidc.ErrorText | backend/src/oidc/oidc.go:75-83 | "invalid audience: expected E got G" and "token expired"; library errors keep their own text |
| Oidc.OwnErrorsHaveText | backend/src/oidc/oidc.go:77-83 | both texts are non-empty and differ from each other |
| Oidc.VerifyToken | backend/src/oidc/oidc.go:32-51 | verify and claim-decoding errors are returned unchanged; a wrong audience gives InvalidAudience(configured, claimed); then expired iff now > exp |
| Oidc.VerifyTokenAccepts | backend/src/oidc/oidc.go:44-50 | accepted exactly when the audience matches and now <= exp: at now == exp the token is accepted, one second later it is refused as expired |
| Oidc.MiddlewareToken | backend/src/oidc/oidc.go:58-62 | a token exists exactly when the header starts with "Bearer ", and it is the header without that prefix |
| Oidc.BarePrefixGivesEmptyToken | backend/src/oidc/oidc.go:58-62 | the bare prefix passes the header check with an empty token |
| Oidc.Check | backend/src/oidc/oidc.go:32-51 | VerifyToken on a raw token accepts exactly when the library accepts the signature and decodes the claims, the audience is the configured one, and now <= exp |
| Oidc.Middleware | backend/src/oidc/oidc.go:54-71 | 401 "Authorization header required" without the prefix; 401 "Invalid token" unless the library accepts the token, its audience is the configured one and it has not expired; otherwise through |
| Oidc.MiddlewareRefusesForeignOrExpired | backend/src/oidc/oidc.go:44-71 | a bearer token the library accepts but whose audience is wrong or whose expiry has passed gets 401 "Invalid token" |
| Oidc.MaxAttemptsFrom | backend/src/oidc/oidc.go:89-92 | 8 unless the setting parses as a positive integer, which is then used |
| Oidc.PrimaryDelayMs | backend/src/oidc/oidc.go:170 | the wait is never above 30 s |
| Oidc.PrimaryDelaySchedule | backend/src/oidc/oidc.go:170 | 2, 4, 8 and 16 s after attempts 1-4, and 30 s from attempt 5 on |
| Oidc.Waits | backend/src/oidc/oidc.go:170-192 | the i-th wait is the delay after failed attempt i |
| Oidc.DefaultPrimaryWaits | backend/src/oidc/oidc.go:132-170 | with the default 8 attempts all failing: 2, 4, 8, 16, 30, 30, 30, 30 s |
| Oidc.FallbackWaits | backend/src/oidc/oidc.go:185-192 | all four fallback attempts failing: 500, 1000, 1500, 2000 ms |
| Oidc.FirstSuccess | backend/src/oidc/oidc.go:132-163 | the first succeeding attempt in range, with every earlier one failed; none when all fail |
| Oidc.RetryPhase | backend/src/oidc/oidc.go:132-179 | the loop stops at the first success and waits once after each failed attempt |
| Oidc.InitProviderWithBackoff | backend/src/oidc/oidc.go:86-207 | the configured issuer at the first successful primary attempt; otherwise, when the fallback is enabled, the internal issuer at its first successful attempt or a fatal "after fallback attempts"; otherwise a fatal "after retries"; with the waits of each phase |
| AuthService.NormalizeEmail | dex_password/src/internal/service/auth.go:23 | lower-cased then trimmed: no white space at either end and no upper-case letter |
| AuthService.Authenticate | dex_password/src/internal/service/auth.go:22-35 | succeeds exactly when the normalised e-mail and the password are non-empty, the lookup of that e-mail succeeds and the hash matches, and then returns the user's id; every failure is (0, ErrInvalidCredentials) |
| AuthService.EmptyInputNeverQueries | dex_password/src/internal/service/auth.go:24-26 | an empty normalised e-mail or password is refused whatever the repository holds |
| AuthService.QueriesNormalizedEmail | dex_password/src/internal/service/auth.go:27-30 | only the normalised e-mail is looked up |
| AuthService.CaseInsensitiveEmail | dex_password/src/internal/service/auth.go:23 | addresses that differ only in letter case authenticate alike |
| Connector.ListenAddrs | dex_password/src/main.go:25-87 | LISTEN_ADDR and LISTEN_HTTP when set and non-empty, otherwise ":5557" and ":8080" |
| Connector.HtmlEscape | dex_password/src/main.go:243-246 | the output has no '<', '>' or '"' and is at least as long as the input |
| Connector.UnescapeHtmlEscape | dex_password/src/main.go:243-246 | each character is replaced by its entity or copied, in order: reading the entities back gives the input |
| Connector.HtmlEscapeIdentity | dex_password/src/main.go:243-246 | the text is unchanged exactly when it has none of & < > " |
| Connector.ClientIP | dex_password/src/main.go:283-297 | the trimmed text before the first comma when it is at index > 0, the whole trimmed header otherwise; without the header, the host of RemoteAddr or RemoteAddr itself |
| Connector.LeadingCommaKeepsHeader | dex_password/src/main.go:286-289 | a header starting with a comma is used whole |
| Connector.HexEncode | dex_password/src/main.go:240 | two lower-case hex digits per byte |
| Connector.HexRoundTrip | dex_password/src/main.go:240 | decoding the hex text gives the bytes back |
| Connector.RandomID | dex_password/src/main.go:237-241 | 2n hex digits that encode exactly the n random bytes |
| Connector.ReqID | dex_password/src/main.go:276-281 | the X-Request-Id header when non-empty, otherwise 16 hex digits |
| Connector.LoginPage | dex_password/src/main.go:161-167 | the escaped rd sits inside the value attribute and cannot close its quotes |
| Connector.AuthServer.constructor | dex_password/src/main.go:97-98 | an empty session table |
| Connector.AuthServer.Register | dex_password/src/main.go:112-153 | 200 on GET; 400 on a bad form, missing input or no repository; 500 on a hash error; 409 on a create error; 201 otherwise; 405 for other methods; never a cookie |
| Connector.AuthServer.Login | dex_password/src/main.go:155-213 | the login page for rd on GET; 405 for other methods; 400 on bad input or no repository; 401 on a failed lookup or password; otherwise exactly sid -> email is added, the cookie is set, then 302 to rd or 200; the session table changes only on success |
| Connector.AuthServer.Auth | dex_password/src/main.go:215-235 | 401 without a cookie or for an unknown sid; otherwise 200 with X-Remote-User and X-Remote-Email both the session's e-mail |
| Connector.LoginThenAuth | dex_password/src/main.go:196-223 | after a login under sid, that sid maps to the e-mail and every other sid is unchanged |
| Connector.LoggingResponseWriter.constructor | dex_password/src/main.go:269 | status 200 and size 0 |
| Connector.LoggingResponseWriter.WriteHeader | dex_password/src/main.go:255-258 | the status recorded is the code written; size unchanged |
| Connector.LoggingResponseWriter.Write | dex_password/src/main.go:260-264 | the size grows by what the underlying writer accepted; status unchanged |
| Text.TrimSpace | dex_password/src/internal/service/auth.go:23 | a slice of the input with only white space cut from both ends, and no white space left at either end |
| Text.ToLower | dex_password/src/internal/service/auth.go:23 | same length, each letter lowered, no upper-case letter left |
| Text.IndexByte | dex_password/src/main.go:286 | the first index of the byte, or -1 when it does not occur |

## Left out

- Transport: websocket upgrade and framing, JSON encoding and decoding, `http.ServeMux`
  routing and `ListenAndServe` are not modelled. A decode becomes an input (a message or an
  error), and an upgrade becomes a flag.
- Concurrency: the goroutines, the `broadcast` channel and the hub's `sync.RWMutex` are not
  modelled. Each goroutine is a sequential loop over the values it receives, so
  interleavings between handlers and the relay loop are not modelled.
- The Kafka client, the Mongo driver, OIDC discovery, the bcrypt compare and the JSON-schema
  validator are not modelled. Their results are inputs to the operations.
- Clocks and randomness (`time.Now`, `uuid.NewString`, `crypto/rand`) are inputs. Sleeps
  appear only as ghost logs of wait lengths.
- Metrics counters and logging are not modelled.
- `handleHealth`, `handleReady`, the connector's `health` handler, and the start-up of both
  `main` functions (signal handling, the gRPC listener, the Postgres connection and seeding)
  are not modelled.
- `backend/main.go`, the adapters, the repository SQL and the frontend are not part of this
  model.
- Oidc.InitProviderWithBackoff: does not model the dial override, the loopback detection
  (`isLoopbackIP`, DNS lookups), the custom CA, or the debug logging, which only change how
  the provider is reached. Cancellation of the context during a wait is also not modelled;
  in the source it ends the process. `log.Fatalf` becomes a `Fatal` result carrying its
  text.
- Kafka.Bus.Writer: the per-attempt 3 s timeout and the parent context are not modelled.
  Each attempt's outcome is an input.
- Kafka.Reader: context cancellation is not modelled. Both ways the loop ends are a read
  error.
- Store.MongoStore.GetAllMessages: the order of the returned list is not stated, because the
  cursor order belongs to the driver. The model states the contents: the messages the cursor
  handed out, once each.
- ApiServer.Server.HandleGet: states the contents, not the order, for the same reason.
- BackendMain.Backend.HandleGet: states the contents, not the order, for the same reason.
- ApiServer.Server.HandleGet: requires a repository. The source dereferences a nil
  repository here, and that panic is not modelled.
- ApiServer.Server.BroadcastLoop: requires a repository, for the same reason.
- ApiHub.Hub.BroadcastExcept: the model takes `except` out of the targets before the loop,
  where the source skips it inside the loop. The writes made are the same.
- Text.ToLower: lowers the ASCII letters only. Go's `strings.ToLower` also lowers other
  Unicode letters.
- Connector.ClientIP: `net.SplitHostPort` is an input (the host, or none when it fails).
- Connector.AuthServer.Register: the body of the register page is not modelled, only its
  status.
- Connector.LoggingResponseWriter.Write: the underlying writer's error is not modelled.
- Connector.AuthServer.Login: the Location header is rd as given. `http.Redirect` would
  resolve a relative rd against the request path (/login), clean it with `path.Clean` and
  escape non-ASCII characters; that rewriting is not modelled.
- BackendMain.Backend.constructor: `maxMsgLen` is set once, when the backend starts, and is
  a constant of the model afterwards. The source keeps it in a package variable that
  nothing else assigns.

Notes on the code:

- The api hub never evicts a connection whose write fails. Only `backend/src/main.go`
  evicts.
- `GetAllMessages` requests no sort order.
- `GetAllMessages` never checks the cursor's error. A cursor that fails partway (a failed
  getMore, a cancelled request context) ends the loop, and the documents read so far come
  back with no error, so both GET handlers answer 200 with a shorter list.
- `CreateUser` inserts with `ON CONFLICT (email) DO NOTHING`, so registering an e-mail that
  already exists reports no error and `register` answers 201; only a database error gives
  409.
- The websocket loop of `backend/src/main.go` has no fallback when a publish fails.
- The POST handler of `backend/src/main.go` validates the message before it fills in the id
  and timestamp. `backend/src/api/server.go` validates after.
