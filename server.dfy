/**
 * The monolithic server's own pieces.  Its connection listener is
 * `Handlers.HandleConnection` with the `Monolith` variant; its sweep is
 * `Heartbeat.Sweep`; its agent route is `Agents.GetOnlineAgents` with the
 * one-minute timeout.  What differs is below: the message listener, which
 * attributes user records to "user", the close listener, which does clean
 * up, and the `/history/:sessionId` route.
 */
module Server {
  import opened Wrappers
  import opened JsStrings
  import opened Protocol
  import opened Sockets
  import opened SessionManager
  import opened History
  import opened Security
  import opened AuthMiddleware
  import opened Handlers

  /** Sender of every user record in this variant, whoever is connected. */
  const USER_SENDER: string := "user"

  /** History entries the route returns at most. */
  const HISTORY_ROUTE_LIMIT: int := 200

  /** Longest path session id the route accepts, in UTF-16 code units. */
  const MAX_SESSION_ID: int := 100

  /**
   * The message listener: the pipeline of `Handlers.HandleMessage`, with
   * every user record attributed to "user", whoever is connected.
   */
  method OnMessage(reg: Registry, stores: Stores, ws: Socket, sessionId: string, raw: seq<byte>, inp: FrameInputs)
    returns (out: FrameOutcome)
    requires reg.Valid()
    modifies reg, stores, ws`outbox, reg.SocketOf(sessionId)`outbox
    ensures reg.Valid()
    ensures out.Chatted? ==>
      && out.user.sessionId == sessionId && out.user.sender == USER_SENDER
      && (inp.userSave.dynamoOk ==> out.user in stores.dynamo)
      && (inp.userSave.postgresOk ==> out.user in stores.postgres)
  {
    out := HandleMessage(reg, stores, ws, sessionId, USER_SENDER, raw, inp);
    if out.Chatted? {
      assert inp.userSave.dynamoOk ==> stores.dynamo[|old(stores.dynamo)|] == out.user;
      assert inp.userSave.postgresOk ==> stores.postgres[|old(stores.postgres)|] == out.user;
    }
  }

  /** The close listener: removes the session, terminating its socket; nothing else in the registry changes. */
  method OnClose(reg: Registry, sessionId: string)
    requires reg.Valid()
    modifies reg, reg.SocketOf(sessionId)`terminated
    ensures reg.Valid()
    ensures reg.sessions == old(reg.sessions) - {sessionId}
    ensures forall w :: w in old(reg.SocketOf(sessionId)) ==> w.terminated
  {
    reg.RemoveSession(sessionId);
  }

  /**
   * A socket that joined a session, as an admitted connection does, and is
   * then closed through this variant's listener is gone from the registry,
   * and the socket is terminated.
   */
  method CloseRemovesSession(sessionId: string, sig: string, now: int)
    returns (stillRegistered: bool, socketTerminated: bool)
    ensures !stillRegistered && socketTerminated
  {
    var reg := new Registry();
    var ws := new Socket();
    JoinSession(reg, ws, sessionId, sig, now);
    assert reg.SocketOf(sessionId) == {ws};
    OnClose(reg, sessionId);
    stillRegistered := sessionId in reg.sessions;
    socketTerminated := ws.terminated;
  }

  datatype HistoryResponse = HistoryOk(sessionId: string, history: seq<Message>) | HttpError(status: int, error: string)

  /**
   * `GET /history/:sessionId`: 400 for an empty or over-long id before any
   * header is looked at; then the session guard (401 with its error); then
   * the reconciled history of at most 200 entries from the two store reads.
   */
  function HistoryRoute(cfg: Config, pathId: string, h: Headers, dd: Settled<seq<Message>>, pg: Settled<seq<Message>>)
    : (r: HistoryResponse)
    ensures r == HttpError(400, "Invalid sessionId") <==> pathId == "" || Utf16Length(pathId) > MAX_SESSION_ID
    ensures r.HistoryOk? <==>
      pathId != "" && Utf16Length(pathId) <= MAX_SESSION_ID
      && ValidateSession(cfg.hmac, cfg.secret, cfg.requireAuth, cfg.verifyIdToken, pathId, h) == Next
    ensures r.HttpError? && r.status == 401 ==>
      ValidateSession(cfg.hmac, cfg.secret, cfg.requireAuth, cfg.verifyIdToken, pathId, h) == Unauthorized(r.error)
    ensures r.HttpError? ==> r.status == 400 || r.status == 401
    ensures r.HistoryOk? ==> r.sessionId == pathId && |r.history| <= HISTORY_ROUTE_LIMIT
  {
    if pathId == "" || Utf16Length(pathId) > MAX_SESSION_ID then HttpError(400, "Invalid sessionId")
    else
      match ValidateSession(cfg.hmac, cfg.secret, cfg.requireAuth, cfg.verifyIdToken, pathId, h)
      case Unauthorized(e) => HttpError(401, e)
      case Next =>
        ReconcileCorrect(dd, pg, HISTORY_ROUTE_LIMIT);
        HistoryOk(pathId, Reconcile(dd, pg, HISTORY_ROUTE_LIMIT))
  }

  /** A client holding the id and token of its session frame reads its history when no identity is required. */
  lemma IssuedSessionReadsHistory(cfg: Config, id: string, authorization: Option<string>,
                                  dd: Settled<seq<Message>>, pg: Settled<seq<Message>>)
    requires cfg.secret != "" && !cfg.requireAuth && id != "" && Utf16Length(id) <= MAX_SESSION_ID
    ensures HistoryRoute(cfg, id, Headers(Some(SignSession(cfg.hmac, cfg.secret, id)), Some(id), authorization), dd, pg)
         == HistoryOk(id, Reconcile(dd, pg, HISTORY_ROUTE_LIMIT))
  {
    IssuedHeadersAccepted(cfg.hmac, cfg.secret, cfg.verifyIdToken, id, authorization);
  }
}
