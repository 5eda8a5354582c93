# Support-chat messaging core, modelled in Dafny

This project models the core of a support-chat backend (soocrates/messaging-platform). The backend is a Node.js server that holds WebSocket chat sessions with a bot, keeps a per-session token-bucket rate limit, and writes every message to two stores. It reads history back by merging both stores. It signs session ids with an HMAC, checks the browser origin, and serves a few REST decisions. Those decisions are:

- the `/history` guard;
- the support-case schema;
- the contextual questions of the support form;
- the online-agent count.

The model follows the source file by file:

- **`session_manager.dfy`** (`modules/sessionManager.js`):
  - a `Registry` class whose `sessions` map the methods reassign;
  - the lazy token-bucket refill, on exact `real` token counts, with the clock as a parameter.
- **`history.dfy`** (`modules/db/index.js`):
  - the reconciler: failed reads become empty lists, then deduplication on the string key `timestamp|sender|content`, then a stable sort by timestamp, then the last N;
  - the `Stores` class for the write fan-out, where each store's failure is swallowed.
- **`security.dfy`** (`utils/security.js`):
  - session signing with the HMAC (RFC 2104, SHA-256 of FIPS 180-4) as a function parameter, plus the hex encoding;
  - the verification wrapper;
  - the `ALLOWED_ORIGINS` split/trim/filter/membership logic.
- **`message_validator.dfy`**: the inbound-frame schema. **`support_case_validator.dfy`**: the support-case schema. Both use Joi's rules:
  - `string()` refuses `''`;
  - lengths count UTF-16 code units;
  - `valid` is exact;
  - `forbidden` refuses any value;
  - with `stripUnknown`, extra keys are ignored.
- **`sockets.dfy`**: a `Socket` class. It has an outbox of frames, a close record, the `terminated` flag, `isAlive`, a ping count and the fields the modular handler stores on the socket. A connection refusal closes with 1008, "policy violation" (section 7.4.1 of RFC 6455).
- **`handlers.dfy`** (`backend/websocket/handlers.js` and the copy inlined in `server.js`):
  - the connection gatekeeper: origin, then ID token, then session id and signature;
  - the session attach and the session and history frames;
  - the frame pipeline: size guard, parse, schema, rate limit, then chat or ping;
  - the chat path: save, echo, bot reply delivered to the session's open socket.
  - the close and error listeners, with identifier resolution against the listener's parameters and the module's top-level bindings.
  - A `Variant` parameter separates the modular handler from the monolithic one.
  - A user record's sender is the connection's admitted identity in the modular handler, and "user" in the monolith. The question builder analyses only records whose sender is "user" (backend/services/questionGeneration.service.js:15).
- **`heartbeat.dfy`** (`backend/websocket/heartbeat.js` and `server.js` 388-395): the pong handler and the liveness sweep (ping/pong are the control frames of sections 5.5.2-5.5.3 of RFC 6455).
- **`auth_middleware.dfy`** (`backend/middleware/auth.middleware.js`): the session-header and `Bearer` checks (section 2.1 of RFC 6750).
- **`question_generation.dfy`**: the keyword-driven question builder.
- **`agents.dfy`**: the online-agent counter.
- **`server.dfy`**: the monolithic server's close listener and its `/history/:sessionId` route.

Shared pieces:

- `jsstrings.dfy`: JavaScript `trim`, `split`, `join`, `includes`, ASCII `toLowerCase`, UTF-16 `.length`, UTF-8 `Buffer.from`, and integer rendering.
- `json.dfy`: parsed JSON values.
- `joi.dfy`: the Joi string rules.
- `protocol.dfy`: chat records and outbound frames. The error frame's text is sent under the JSON key `message`.
- `auth.dfy`: the ID-token verifier as an oracle, and the identity taken from its claims.
- `wrappers.dfy`: `Option`.

The clock, the random session id, the JSON parser, the store results, the bot reply and the ID-token verifier are all parameters.

## Model

| member | source | states |
|---|---|---|
| SessionManager.Registry.constructor | modules/sessionManager.js:1 | the registry starts empty |
| SessionManager.Registry.GetOrCreateSession | modules/sessionManager.js:16-26 | an existing entry is returned and the map is unchanged; an unknown id gets an entry with no token, no socket, 60 tokens and last refill = now; no other id changes |
| SessionManager.Registry.AttachSocketToSession | modules/sessionManager.js:28-32 | the entry (created if missing) has only its `ws` replaced; token and rate are kept; no socket is terminated; no other id changes |
| SessionManager.Registry.SetSessionToken | modules/sessionManager.js:34-37 | the entry (created if missing) has only its token replaced; no other id changes |
| SessionManager.Registry.GetSession | modules/sessionManager.js:39-41 | a result exists iff the id is registered, and then it is that id's entry with tokens in [0, 60] |
| SessionManager.Registry.RemoveSession | modules/sessionManager.js:43-49 | exactly that id is deleted (an absent id is a no-op) and the socket that was attached to it is terminated; nothing else on that socket changes |
| SessionManager.Registry.AllowMessage | modules/sessionManager.js:51-66 | an unknown id is refused and creates no entry; a known id is refilled and then charged one token iff it has at least one; only its rate changes |
| SessionManager.Refill | modules/sessionManager.js:56-60 | a frozen or backwards clock changes nothing; a forward clock restarts the interval at now; tokens never decrease below the old count unless capped at 60; bounds [0, 60] are preserved |
| SessionManager.Consume | modules/sessionManager.js:61-65 | bounds [0, 60] are preserved and the refill time is the refill's |
| SessionManager.ConsumeSpendsOne | modules/sessionManager.js:61-65 | allowed iff post-refill tokens >= 1, and exactly one token is removed when allowed and none otherwise |
| SessionManager.ConsumeAll | modules/sessionManager.js:51-66 | a run of calls yields one verdict per clock reading |
| SessionManager.TokensStayInBounds | modules/sessionManager.js:13-66 | after any sequence of calls the tokens stay in [0, 60] |
| SessionManager.FrozenClockAllows | modules/sessionManager.js:56-65 | with a frozen clock and k tokens, exactly the first k of n calls are allowed |
| SessionManager.FreshSessionAllowsSixty | modules/sessionManager.js:13-66 | a fresh session with a frozen clock allows 60 calls and refuses the 61st |
| SessionManager.RefillAfterTwoMinutes | modules/sessionManager.js:56-61 | two idle minutes refill any bucket to 60, so the next call is allowed |
| History.GetHistoryForSession | modules/db/index.js:18-42 | the merge/dedup loop followed by the sort and the slice returns `Reconcile` of the two read results, default limit 200 |
| History.ReconcileCorrect | modules/db/index.js:24-41 | no two output records share a key; the output is sorted by timestamp; every record is the first one with its key in Dynamo-then-Postgres order; length is max(0, min(limit, distinct keys)); with a limit that does not cut, every input key is present |
| History.ReconcileFromInputs | modules/db/index.js:31-37 | every output record is one of the records read |
| History.BothReadsFail | modules/db/index.js:19-25 | two failed reads give an empty history |
| History.OneReadFails | modules/db/index.js:24-25 | a failed read contributes nothing; the history is that of the other store alone |
| History.KeyCollision | modules/db/index.js:27 | two different records whose fields contain `\|` can share a key, and only the first survives deduplication |
| History.TwoStoresExample | modules/db/index.js:18-41 | a record stored in both stores appears once, with the later record after it |
| History.DedupKeys | modules/db/index.js:27-37 | deduplication leaves distinct keys and loses no key |
| History.DedupKeepsFirst | modules/db/index.js:31-37 | each kept record is the first with its key |
| History.DedupLength | modules/db/index.js:27-37 | the deduplicated list has one record per distinct key |
| History.FirstWithKeyFound | modules/db/index.js:31-37 | a first record with a key exists iff the key occurs, and it carries that key |
| History.SortCorrect | modules/db/index.js:39 | the sort is a permutation, is ordered by timestamp, and keeps each timestamp's records in their merge order (stable) |
| History.SortUnique | modules/db/index.js:39 | two timestamp-ordered lists with the same records per timestamp, in the same order, are equal |
| History.StableSortIsSortByTimestamp | modules/db/index.js:39 | any stable sort by timestamp of the merge gives exactly the modelled sort |
| History.SortKeepsKeysDistinct | modules/db/index.js:39 | sorting keeps keys distinct and the key set unchanged |
| History.TakeLast | modules/db/index.js:40-41 | the slice has max(0, min(limit, length)) records |
| History.TakeLastSuffix | modules/db/index.js:41 | the slice is exactly the suffix starting at max(0, length - limit) |
| History.TakeLastKeeps | modules/db/index.js:39-41 | the last records of a sorted list with distinct keys stay sorted, distinct and drawn from the list |
| History.MergeDistinct | modules/db/index.js:28-37 | the seen-set loop keeps exactly the first record of each key, in input order |
| History.SortedDedupFirst | modules/db/index.js:27-39 | after deduplication and the sort, every record is still the first with its key in the merge order |
| History.Stores.constructor | modules/db/index.js:5-16 | both stores, the attempt list and the error log start empty |
| History.Stores.SaveMessage | modules/db/index.js:5-16 | Dynamo then Postgres are both attempted; each stores the record iff it accepted it; each failure is logged and swallowed, and never skips the other store |
| Security.HexEncode | utils/security.js:9 | the hex digest has two ASCII characters per byte |
| Security.SignSession | utils/security.js:5-10 | an empty secret signs as ''; otherwise the signature is 64 ASCII characters |
| Security.VerifySessionSignature | utils/security.js:12-23 | true iff the secret is non-empty and the signature equals the expected hex digest; the empty, missing and wrong-length paths all return false |
| Security.SignThenVerify | utils/security.js:5-19 | with a secret, a signature issued for an id verifies for it |
| Security.NothingVerifiesWithoutSecretOrSignature | utils/security.js:5-13 | an empty secret, or a missing or empty signature, never verifies |
| Security.AlteredSignatureFails | utils/security.js:15-19 | changing any one character of a valid signature makes it fail |
| Security.TrimmedEntries | utils/security.js:26 | the filtered list has only non-empty entries |
| Security.TrimmedEntriesMembers | utils/security.js:26 | a string is an entry iff it is non-empty and the trim of some comma-separated piece |
| Security.OriginAllowedIff | utils/security.js:25-30 | an origin is allowed iff the list is empty, or it is non-empty and equals a trimmed piece |
| Security.PaddedOriginRejected | utils/security.js:28-29 | with a non-empty list, an origin with leading or trailing white space is refused, because the origin is not trimmed |
| Security.TwoOriginsExample | utils/security.js:25-30 | with the setting `a, b`, `b` is allowed while ` b` and '' are refused |
| Security.ListOfTwo | utils/security.js:26 | the setting `a, b` lists exactly `a` and `b` |
| Security.BlankSettingAllowsAll | utils/security.js:26-27 | any setting made only of commas and white space, the empty one included, lists nothing and so allows every origin, even '' |
| Security.BlankPiecesNoEntries | utils/security.js:26 | pieces made only of white space give no entry |
| Security.SplitTwo | utils/security.js:26 | two comma-free strings joined by a comma split back into the two |
| Security.EntriesOfTwo | utils/security.js:26 | of two pieces, exactly the non-blank trims are kept, in order |
| MessageValidator.ValidateMessage | backend/validators/message.validator.js:3-10 | accepted only for an object; a ping iff `type` is 'ping' and there is no `content`; a chat iff `type` is 'message' and `content` is a string of 1..2000 UTF-16 units, which is the frame's content |
| MessageValidator.MessageRoundTrip | backend/validators/message.validator.js:3-10 | an encoded frame is accepted back as itself iff it is a ping or its content is 1..2000 units long |
| MessageValidator.UnknownKeysIgnored | backend/websocket/handlers.js:115 | adding any key other than `type` and `content` never changes the verdict |
| MessageValidator.PingWithContentRejected | backend/validators/message.validator.js:8 | a ping with any `content` is refused |
| MessageValidator.TypeRequired | backend/validators/message.validator.js:4 | a missing `type`, or one other than 'message' and 'ping', is refused |
| MessageValidator.BlankContentPasses | backend/validators/message.validator.js:7 | whitespace-only content passes the schema and is trimmed later to '' |
| MessageValidator.BmpLength | backend/validators/message.validator.js:7 | white space counts one UTF-16 unit per character |
| SupportCaseValidator.ValidateSupportCase | backend/validators/supportCase.validator.js:3-12 | an accepted case satisfies every field rule, and its fields are the body's own values |
| SupportCaseValidator.CaseRoundTrip | backend/validators/supportCase.validator.js:3-12 | every case satisfying the rules is accepted back from its JSON body |
| SupportCaseValidator.ConformingBodyAccepted | backend/controllers/support.controller.js:9 | any object carrying a conforming case is accepted as that case, whatever unknown keys it also holds |
| SupportCaseValidator.NonConformingBodyRejected | backend/validators/supportCase.validator.js:3-12 | any object carrying a case that breaks a rule is refused |
| SupportCaseValidator.UnknownCaseKeysIgnored | backend/controllers/support.controller.js:9 | a key outside the schema never changes the verdict on a case's body |
| SupportCaseValidator.NonConformingRejected | backend/validators/supportCase.validator.js:4-11 | a case breaking any rule is refused |
| Sockets.Socket.constructor | backend/websocket/handlers.js:18 | a new connection has sent nothing and is neither closed nor terminated |
| Sockets.Socket.Send | backend/websocket/handlers.js:84 | one frame is appended to the connection's outbox |
| Sockets.Socket.Close | backend/websocket/handlers.js:27 | the connection records the close code and reason |
| Sockets.Socket.Terminate | modules/sessionManager.js:46 | the connection is terminated |
| Heartbeat.OnPong | backend/websocket/heartbeat.js:1-3 | a pong marks the connection alive |
| Heartbeat.Tick | backend/websocket/heartbeat.js:8-14 | a connection marked exactly false is terminated and not pinged; every connection ends marked false; a survivor gains a ping unless the ping threw |
| Heartbeat.Sweep | backend/websocket/heartbeat.js:5-16 | every connection goes through one tick, even after a throwing ping; nothing else on a connection changes |
| Heartbeat.SilentConnectionTerminated | backend/websocket/heartbeat.js:7-15 | a connection with no pong between two ticks is terminated at the second |
| Heartbeat.PongingConnectionSurvives | backend/websocket/heartbeat.js:1-16 | a live connection that pongs after every tick is never terminated |
| Heartbeat.UndefinedIsNotDead | backend/websocket/heartbeat.js:8 | a connection never marked is not terminated, because the comparison is strict |
| Auth.VerifyIdToken | utils/auth.js:12-13 | an empty ID token fails; any other is decided by the verifier |
| Auth.UserEmailOf | backend/websocket/handlers.js:46 | the identity is the email, else the username, else the subject |
| Handlers.AdmitGates | backend/websocket/handlers.js:18-70 | a disallowed origin is refused first; an admitted connection passed the origin check and (when required) the ID token; without auth its identity is the anonymous address; a new id is minted iff none was supplied; a supplied id is admitted only with a secret and its valid signature; only the three close reasons occur |
| Handlers.ReconnectWithIssuedToken | backend/websocket/handlers.js:59-73 | reconnecting with the id and token from a session frame rejoins that same session |
| Handlers.EmptySecretOnlyMints | backend/websocket/handlers.js:59-70 | without a secret, only fresh sessions are admitted |
| Handlers.MissingIdTokenRefused | backend/websocket/handlers.js:43-55 | with auth required, a missing ID token closes with 'Authentication required' |
| Handlers.HandleConnection | backend/websocket/handlers.js:18-91 | the result is `Admit`; a refusal closes with 1008, sends nothing and leaves the registry untouched; an admission stores the token and socket for the session, marks it alive, and sends the session frame and 200 history entries (the modular variant also stores the identity on the socket) |
| Handlers.ScreenConnection | backend/websocket/handlers.js:20-56 | the verdict is `Screen`'s; a disallowed origin is closed with 1008 before the socket is marked alive; otherwise the socket is marked alive and a failed ID token closes it with 1008; nothing is sent |
| Handlers.EnterSession | backend/websocket/handlers.js:58-87 | the session step: the registry and socket effects of one admission or signature refusal |
| Handlers.ResolveSession | backend/websocket/handlers.js:59-70 | with no id supplied, the fresh id is minted and its signed token stored; a supplied id whose signature fails closes with 1008 'Invalid session token' and leaves the registry alone; a supplied valid id changes nothing |
| Handlers.SettleSession | backend/websocket/handlers.js:72-86 | the entry gets the token and the socket; the modular handler stores the identity and the id on the socket; the session frame and then the history frame are sent |
| Handlers.JoinSession | backend/websocket/handlers.js:72-83 | the session entry gets the new token and the socket, with nothing else changed |
| Handlers.Greet | backend/websocket/handlers.js:84-86 | the socket is sent the session frame, then the reconciled history |
| Handlers.Precheck | backend/websocket/handlers.js:104-119 | 'Payload too large' iff over 262144 bytes; 'Invalid JSON' iff the parse fails; 'Invalid message schema' iff the schema refuses; otherwise the frame the schema accepted |
| Handlers.SizeBoundary | backend/websocket/handlers.js:105 | a frame of exactly 262144 bytes passes the size guard |
| Handlers.HandleMessage | backend/websocket/handlers.js:101-156 | pre-rate failures send one error frame and change neither the registry nor the stores (no token spent); an unknown session or empty bucket is refused as rate limited; a ping gets a pong at the server's time and saves nothing; a chat saves the trimmed user record before echoing it, then saves the bot reply and sends it only to the session's open socket, or reports 'Failed to process message' with the user record kept; the session's registered socket, when it is not the sender's, receives nothing except a delivered bot reply |
| Handlers.HandleChat | backend/websocket/handlers.js:128-152 | the chat branch's saves and sends, in order; another registered socket receives only a delivered bot reply |
| Handlers.OnModularMessage | backend/websocket/handlers.js:89 | a user record is saved under the admitted session and attributed to the admitted identity: the ID token's email, username or subject, or the anonymous address when no identity is required |
| Handlers.FirstUnbound | backend/websocket/handlers.js:1-16 | the name found is read, bound neither as a parameter nor at the module's top level; none is found iff every read name is bound |
| Handlers.RunReads | backend/websocket/handlers.js:158-165 | a body returns iff every name it reads is bound, and otherwise ends in an uncaught `ReferenceError` for an unbound name |
| Handlers.HandleClose | backend/websocket/handlers.js:158-161 | the outcome is that of resolving the body's names; a throw leaves the registry and the socket as they were; a return removes the session and terminates its socket |
| Handlers.HandleError | backend/websocket/handlers.js:163-165 | the error handler returns iff every name its log call reads is bound |
| Handlers.CloseReadsUnboundIdentity | backend/websocket/handlers.js:158-159 | as declared, `handleClose` reads the unbound `userEmail` and throws |
| Handlers.CloseWithIdentityResolves | backend/websocket/handlers.js:90 | declaring the identity that the close listener passes binds every name `handleClose` reads |
| Handlers.ErrorListenerThrows | backend/websocket/handlers.js:163-164 | as declared, `handleError` reads the unbound `userEmail` and throws |
| Handlers.ErrorListenerWithIdentityReturns | backend/websocket/handlers.js:91 | declaring the identity that the error listener passes, `handleError` returns |
| Handlers.CloseLeavesSessionBehind | backend/websocket/handlers.js:72-161 | a close through the modular handler as written ends in an uncaught `ReferenceError` for `userEmail`, with the session still registered and its socket not terminated at the throw |
| Handlers.CloseWithIdentityRemovesSession | backend/websocket/handlers.js:72-161 | with `handleClose` declaring the identity its listener passes, the close returns, the session is gone and its socket is terminated |
| Server.OnMessage | server.js:460-510 | a user record is saved under the connection's session and attributed to "user" |
| Server.OnClose | server.js:512-515 | the close listener removes exactly that session and terminates its socket; nothing else on that socket changes |
| Server.CloseRemovesSession | server.js:447-515 | after a close through the monolithic listener the session is gone and its socket is terminated |
| Server.HistoryRoute | server.js:235-269 | 400 iff the id is empty or over 100 UTF-16 units, before any header check; success iff additionally the session guard passes; a 401 carries the guard's error; success returns at most 200 entries for the path id |
| Server.IssuedSessionReadsHistory | server.js:243-264 | a client holding its issued id and token reads the reconciled history when auth is off |
| AuthMiddleware.BearerToken | backend/middleware/auth.middleware.js:18-21 | a token is found only when the second space-separated piece is non-empty |
| AuthMiddleware.BearerRoundTrip | backend/middleware/auth.middleware.js:19-21 | `Bearer <token>` yields the token |
| AuthMiddleware.BearerIgnoresTrailer | backend/middleware/auth.middleware.js:19-21 | anything after a second space is ignored |
| AuthMiddleware.BearerStrictness | backend/middleware/auth.middleware.js:21 | a lower-case scheme or a double space yields no token |
| AuthMiddleware.ValidateSession | backend/middleware/auth.middleware.js:4-35 | next() iff both session headers are non-empty, the id header equals the path id, the signature verifies for the path id, and (with auth) a Bearer token verifies; each of the three 401 messages, including 'Invalid token' for a Bearer token the verifier rejects, corresponds exactly to the check that failed |
| AuthMiddleware.AuthorizationIgnoredWhenNotRequired | backend/middleware/auth.middleware.js:17 | with auth off, the Authorization header never changes the verdict |
| AuthMiddleware.MismatchedIdRefused | backend/middleware/auth.middleware.js:10-11 | an id header different from the path id is refused even with a signature valid for the header id |
| AuthMiddleware.IssuedHeadersAccepted | backend/middleware/auth.middleware.js:9-34 | the issued id and token pass when auth is off |
| QuestionGeneration.Questions | backend/services/questionGeneration.service.js:5-79 | the result has between 1 and 4 questions |
| QuestionGeneration.Contextual | backend/services/questionGeneration.service.js:14-58 | at most three contextual questions |
| QuestionGeneration.GenerateContextualQuestions | backend/services/questionGeneration.service.js:5-79 | the pushes into the question list give exactly `Questions` |
| QuestionGeneration.ContextualQuestions | backend/services/questionGeneration.service.js:11-58 | the history analysis pushes exactly the contextual questions |
| QuestionGeneration.AnalyseMessages | backend/services/questionGeneration.service.js:19-38 | the loop collects the service labels in first-detection order and the issue mentions |
| QuestionGeneration.UserMessages | backend/services/questionGeneration.service.js:15 | only records sent by 'user' are kept, and they come from the input |
| QuestionGeneration.AddLabel | backend/services/questionGeneration.service.js:26-30 | adding a label keeps every earlier one and adds only that one |
| QuestionGeneration.AnonymousGetsDefaults | backend/services/questionGeneration.service.js:9-72 | a falsy user reads nothing and gets 3 fixed questions for 'chat', 1 otherwise |
| QuestionGeneration.FollowUpIffContextual | backend/services/questionGeneration.service.js:64-76 | the follow-up comes last iff some contextual question was generated |
| QuestionGeneration.NoLabelsIffNoServiceNamed | backend/services/questionGeneration.service.js:20-41 | no service label iff no analysed message names a service, case-insensitively |
| QuestionGeneration.IssueMentionsIff | backend/services/questionGeneration.service.js:33-50 | an issue is recorded iff an analysed message contains 'error', 'issue' or 'problem' |
| QuestionGeneration.DetectedServicesGrow | backend/services/questionGeneration.service.js:19-31 | a label found in earlier messages stays found |
| QuestionGeneration.AddServicesKeeps | backend/services/questionGeneration.service.js:26-30 | one message's detection keeps the labels already found |
| QuestionGeneration.AddServicesFinds | backend/services/questionGeneration.service.js:23-30 | a message naming a service yields a label |
| QuestionGeneration.WordsMentionsRds | backend/services/questionGeneration.service.js:20-29 | the substring match counts "Words" as naming RDS |
| QuestionGeneration.Completed | backend/services/questionGeneration.service.js:64-76 | with no contextual questions, 3 defaults for 'chat' and 1 otherwise; else the contextual questions plus one follow-up |
| QuestionGeneration.CompleteQuestions | backend/services/questionGeneration.service.js:64-76 | the pushes give exactly `Completed` |
| QuestionGeneration.CaseReadFailureKeepsEarlier | backend/services/questionGeneration.service.js:53-61 | a failed case read adds nothing and keeps the questions pushed before it |
| Agents.GetOnlineAgents | backend/controllers/agents.controller.js:6-24 | the loop counts the online agents and reports max(count, 3), available, with the fixed message; the table is only read |
| Agents.Reported | backend/controllers/agents.controller.js:18 | the count is at least 3, and equals the online count once it reaches 3 |
| Agents.OnlineIdsStep | backend/controllers/agents.controller.js:11-15 | visiting one more agent adds one to the count iff it is online |
| Agents.TimeoutIsStrict | backend/controllers/agents.controller.js:12 | an agent seen exactly `timeout` ago is offline, and one seen a millisecond later is online |
| Agents.FutureLastSeenCounts | backend/controllers/agents.controller.js:12 | an online agent with a last-seen time in the future counts |
| Agents.EmptyTableReportsThree | server.js:59-73 | with no agents the route still reports 3 |
| JsStrings.Trim | backend/websocket/handlers.js:129 | the trimmed content neither starts nor ends with white space |
| JsStrings.TrimIsInfix | backend/websocket/handlers.js:129 | the trim is the infix of the string left after removing its leading and its trailing white space, and only white space is removed |
| JsStrings.SplitCharsFrom | utils/security.js:26 | every character of a split piece occurs in the string |
| JsStrings.TrimStartSuffix | backend/websocket/handlers.js:129 | trimming the start keeps a suffix of the string |
| JsStrings.JoinSplit | utils/security.js:26 | splitting loses nothing: joining the pieces gives the string back |
| JsStrings.Utf8EqualsAscii | utils/security.js:16-19 | against the ASCII expected digest, comparing UTF-8 bytes is comparing strings |

## Left out

- JSON parsing, `uuidv4`, `Date.now`, the bot reply (`generateBotResponse`, whose module is not part of this model), the ID-token check (`verifyCognitoIdToken`, a remote JWKS call) and every store read or write are parameters or oracles. The stores are reduced to "accepted or failed".
- `REQUIRE_AUTH`, `ALLOWED_ORIGINS` and `SESSION_HMAC_SECRET` are fields of a `Config` value fixed per call. The HMAC-SHA-256 internals are an uninterpreted function to 32 bytes.
- The constant-time property of `timingSafeEqual` is not modelled, because timing cannot be expressed.
- Interleaving of concurrent async handlers is not modelled: several frames in flight, or a close racing a pending reply. Each handler run is one sequential step, with the clock read once for the rate check, once for the record and once for the bot reply.
- The refill arithmetic uses exact `real`. JavaScript floating-point rounding and the Postgres millisecond rounding are not modelled.
- Session entries are values in the registry map, not shared objects. A caller holding a returned session does not see later updates.
- `new URL(...)` cannot fail in the model, so the catch path that sends 'Connection initialization failed' and closes the socket is not modelled.
- The `ws` library's `maxPayload` of 256 KiB, which cuts larger frames before the handler, is not modelled. The handler's own guard is.
- `ws.send` on a closed socket and failing sends are not modelled.
- Logging itself is not modelled. The listeners' log calls are modelled only by the names they read.
- The process-level effect of an uncaught exception is not modelled. Node's default is to exit the process, losing every in-memory session. The model ends the listener in `UncaughtReferenceError`, with the registry as it was at the throw.
- Name resolution covers only the module's top-level bindings and the listener's parameters. Host globals are not needed by the modelled bodies.
- Joi's coercion of a JSON string body into an object is not modelled. Non-object bodies are refused.
- `toLowerCase` folds ASCII letters only.
- Claims are assumed to carry `sub`.
- Postgres folds the unquoted `userEmail` column of `support_cases` to `useremail` (modules/db/supportCases.js:20). The open-case rows are modelled as given, one optional email per row. A row without the field counts as `None`.
- QuestionGeneration.Questions: the three store reads (two history reads keyed by the user's email, and the open-case read) are parameters. A history read failure shows as an empty history, as the reconciler makes it, rather than as a thrown error.
- The `/api/support/questions` route inlined in `server.js` (76-166), and the other REST routes, are not modelled. The route is a copy of the question builder keyed by `userSessionId`; the rest is Express wiring, library configuration, token exchange and notification I/O.
- `public/` browser code and logging are not modelled.

## Findings

| source | as written | input that shows it | evidently intended | confidence | as-written member | corrected member |
|---|---|---|---|---|---|---|
| backend/websocket/handlers.js:158-161 | `handleClose(sessionId)` logs `userEmail`, which is bound neither as its parameter nor at the module's top level, so it throws `ReferenceError` before `removeSession` runs; nothing catches it in the 'close' listener (line 90) or in the `ws` library's emit, so it is an uncaught exception | any admitted connection that then closes: the listener throws with the session still registered and its socket not terminated, and the uncaught exception by default ends the Node process | declare the identity the listener already passes, `handleClose(sessionId, userEmail)`, so the session is removed and its socket terminated, as the monolithic listener does (server.js:512-515) | high, not executed | Handlers.CloseLeavesSessionBehind | Handlers.CloseWithIdentityRemovesSession |
| backend/websocket/handlers.js:163-165 | `handleError(err, sessionId)` logs `userEmail`, which is unbound there too, so the 'error' listener (line 91) throws an uncaught `ReferenceError` instead of logging | any error event on an admitted connection | declare the identity the listener already passes, `handleError(err, sessionId, userEmail)`, so the error is logged and the listener returns | high, not executed | Handlers.ErrorListenerThrows | Handlers.ErrorListenerWithIdentityReturns |
