/**
 * The WebSocket connection gatekeeper and the inbound-frame pipeline.  The
 * modular server and the monolithic one run the same steps; they differ in
 * whether the connection's identity is derived from the ID-token claims and
 * remembered on the socket, and in whether the session frame carries it.
 */
module Handlers {
  import opened Wrappers
  import opened JsStrings
  import opened Json
  import opened Protocol
  import opened Sockets
  import opened SessionManager
  import opened History
  import opened Security
  import opened Auth
  import opened MessageValidator

  /** The in-handler size guard: frames longer than 256 KiB are refused, 256 KiB itself passes. */
  const MAX_FRAME_BYTES: int := 262144

  /** History entries sent when a connection opens. */
  const HISTORY_ON_CONNECT: int := 200

  /** `backend/websocket/handlers.js` (modular) or the handler inlined in `server.js` (monolith). */
  datatype Variant = Modular | Monolith

  /** Process-wide settings: ALLOWED_ORIGINS, the session secret and its HMAC, REQUIRE_AUTH, the ID-token verifier. */
  datatype Config = Config(allowedOrigins: string, secret: string, hmac: Hmac, requireAuth: bool, verifyIdToken: IdTokenVerifier)

  /** The upgrade request: the Origin header and the `sessionId`, `token`, `idToken` query parameters; `None` when absent. */
  datatype ConnectRequest = ConnectRequest(origin: Option<string>, sessionId: Option<string>, token: Option<string>, idToken: Option<string>)

  /** The gatekeeper's decision: the session the socket joins (`minted` when the id is new), or the close reason. */
  datatype Admission = Admitted(sessionId: string, userEmail: string, minted: bool) | Refused(reason: string)

  /**
   * The gatekeeper: origin first, then (when required) the ID token, then the
   * session.  A request without a session id gets the freshly generated one;
   * a supplied id needs its signature.
   */
  function Admit(cfg: Config, req: ConnectRequest, freshId: string): Admission {
    match Screen(cfg, req)
    case Blocked(reason) => Refused(reason)
    case Cleared(who) => SessionStep(cfg, req, who, freshId)
  }

  /**
   * What the gatekeeper promises: a disallowed origin is refused first; an
   * admitted connection passed every gate; an id is minted exactly when none
   * was supplied, and a supplied one is kept only with a secret and its own
   * signature; only the three close reasons occur.
   */
  lemma AdmitGates(cfg: Config, req: ConnectRequest, freshId: string)
    ensures var a := Admit(cfg, req, freshId);
      && (!IsOriginAllowed(cfg.allowedOrigins, req.origin.GetOr("")) ==> a == Refused("Origin not allowed"))
      && (a.Admitted? ==> IsOriginAllowed(cfg.allowedOrigins, req.origin.GetOr("")))
      && (a.Admitted? && cfg.requireAuth ==> VerifyIdToken(cfg.verifyIdToken, req.idToken.GetOr("")).Some?)
      && (a.Admitted? && !cfg.requireAuth ==> a.userEmail == ANONYMOUS)
      && (a.Admitted? ==> (a.minted <==> !Truthy(req.sessionId)))
      && (a.Admitted? && a.minted ==> a.sessionId == freshId)
      && (a.Admitted? && !a.minted ==>
            a.sessionId == req.sessionId.value && cfg.secret != ""
            && req.token == Some(SignSession(cfg.hmac, cfg.secret, a.sessionId)))
      && (a.Refused? ==> a.reason in {"Origin not allowed", "Authentication required", "Invalid session token"})
  {
  }

  /** The first two gates: the connection's identity, or the reason it is closed. */
  datatype Screening = Cleared(userEmail: string) | Blocked(reason: string)

  /** The origin check, then (when required) the ID token, whose claims give the identity. */
  function Screen(cfg: Config, req: ConnectRequest): Screening {
    if !IsOriginAllowed(cfg.allowedOrigins, req.origin.GetOr("")) then Blocked("Origin not allowed")
    else if !cfg.requireAuth then Cleared(ANONYMOUS)
    else
      match VerifyIdToken(cfg.verifyIdToken, req.idToken.GetOr(""))
      case None => Blocked("Authentication required")
      case Some(claims) => Cleared(UserEmailOf(claims))
  }

  /** The session part of the gatekeeper, for a connection whose origin and identity passed. */
  function SessionStep(cfg: Config, req: ConnectRequest, who: string, freshId: string): Admission {
    if !Truthy(req.sessionId) then Admitted(freshId, who, true)
    else if !VerifySessionSignature(cfg.hmac, cfg.secret, req.sessionId.value, req.token) then Refused("Invalid session token")
    else Admitted(req.sessionId.value, who, false)
  }

  /**
   * A client that reconnects with the id and token of the session frame it was
   * sent is admitted back into that same session (given a secret, and an
   * allowed origin and valid ID token as before).
   */
  lemma ReconnectWithIssuedToken(cfg: Config, req: ConnectRequest, id: string, freshId: string)
    requires cfg.secret != "" && id != ""
    requires IsOriginAllowed(cfg.allowedOrigins, req.origin.GetOr(""))
    requires cfg.requireAuth ==> VerifyIdToken(cfg.verifyIdToken, req.idToken.GetOr("")).Some?
    requires req.sessionId == Some(id) && req.token == Some(SignSession(cfg.hmac, cfg.secret, id))
    ensures Admit(cfg, req, freshId).Admitted?
    ensures Admit(cfg, req, freshId).sessionId == id && !Admit(cfg, req, freshId).minted
  {
    SignThenVerify(cfg.hmac, cfg.secret, id);
  }

  /** Without a secret no supplied session id is ever admitted: every connection starts a new session. */
  lemma EmptySecretOnlyMints(cfg: Config, req: ConnectRequest, freshId: string)
    requires cfg.secret == ""
    ensures Admit(cfg, req, freshId).Admitted? ==> Admit(cfg, req, freshId).minted
  {
  }

  /** With auth required, a missing or empty ID token is refused whatever the verifier would say. */
  lemma MissingIdTokenRefused(cfg: Config, req: ConnectRequest, freshId: string)
    requires cfg.requireAuth && IsOriginAllowed(cfg.allowedOrigins, req.origin.GetOr(""))
    requires req.idToken == None || req.idToken == Some("")
    ensures Admit(cfg, req, freshId) == Refused("Authentication required")
  {
  }

  /**
   * `getOrCreateSession`, `attachSocketToSession`, then `setSessionToken`
   * with a fresh signature: the entry (kept if it existed) points at `ws`
   * and holds `sig`.
   */
  method JoinSession(reg: Registry, ws: Socket, sessionId: string, sig: string, now: int)
    requires reg.Valid()
    modifies reg
    ensures reg.Valid()
    ensures reg.sessions == old(reg.sessions)[sessionId := EntryOf(old(reg.sessions), sessionId, now).(token := Some(sig), ws := Some(ws))]
  {
    var _ := reg.GetOrCreateSession(sessionId, now);
    var _ := reg.AttachSocketToSession(sessionId, ws, now);
    reg.SetSessionToken(sessionId, sig, now);
  }

  /** Sends the session frame, then the session's reconciled history. */
  method Greet(ws: Socket, hello: OutFrame, dd: Settled<seq<Message>>, pg: Settled<seq<Message>>)
    requires hello.SessionFrame?
    modifies ws`outbox
    ensures ws.outbox == old(ws.outbox) + [hello, HistoryFrame(hello.sessionId, Reconcile(dd, pg, HISTORY_ON_CONNECT))]
  {
    ws.Send(hello);
    var history := GetHistoryForSession(dd, pg, HISTORY_ON_CONNECT);
    ws.Send(HistoryFrame(hello.sessionId, history));
  }

  /**
   * `handleConnection` (and the monolith's connection listener).  A refusal
   * closes with 1008 and the reason, sends nothing and leaves the registry
   * alone; only an origin refusal comes before the socket is marked alive.
   * An admission stores the session's token, attaches the socket (keeping
   * the bucket of an existing entry), and sends the session frame and then
   * the reconciled history of at most 200 entries read from the two stores.
   */
  method HandleConnection(reg: Registry, ws: Socket, cfg: Config, req: ConnectRequest, variant: Variant,
                          freshId: string, now: int, dd: Settled<seq<Message>>, pg: Settled<seq<Message>>)
    returns (a: Admission)
    requires reg.Valid()
    modifies reg, ws`isAlive, ws`outbox, ws`closed, ws`userEmail, ws`sessionId
    ensures reg.Valid()
    ensures a == Admit(cfg, req, freshId)
    ensures a.Refused? ==>
      && reg.sessions == old(reg.sessions)
      && ws.outbox == old(ws.outbox)
      && ws.closed == Some(CloseInfo(POLICY_VIOLATION, a.reason))
      && ws.isAlive == (if a.reason == "Origin not allowed" then old(ws.isAlive) else Some(true))
      && ws.userEmail == old(ws.userEmail) && ws.sessionId == old(ws.sessionId)
    ensures a.Admitted? ==>
      var sig := SignSession(cfg.hmac, cfg.secret, a.sessionId);
      && reg.sessions == old(reg.sessions)[a.sessionId := EntryOf(old(reg.sessions), a.sessionId, now).(token := Some(sig), ws := Some(ws))]
      && ws.closed == old(ws.closed)
      && ws.isAlive == Some(true)
      && ws.outbox == old(ws.outbox) + [
           SessionFrame(a.sessionId, sig, if variant == Modular then Some(a.userEmail) else None),
           HistoryFrame(a.sessionId, Reconcile(dd, pg, HISTORY_ON_CONNECT))]
      && (variant == Modular ==> ws.userEmail == Some(a.userEmail) && ws.sessionId == Some(a.sessionId))
      && (variant == Monolith ==> ws.userEmail == old(ws.userEmail) && ws.sessionId == old(ws.sessionId))
  {
    var screening := ScreenConnection(ws, cfg, req);
    if screening.Blocked? {
      return Refused(screening.reason);
    }
    a := EnterSession(reg, ws, cfg, req, variant, screening.userEmail, freshId, now, dd, pg);
  }

  /**
   * The origin check, which closes a disallowed connection before anything
   * else; then the socket is marked alive, and when identity is required the
   * ID token is verified, a failure closing the connection.
   */
  method ScreenConnection(ws: Socket, cfg: Config, req: ConnectRequest) returns (screening: Screening)
    modifies ws`isAlive, ws`closed
    ensures screening == Screen(cfg, req)
    ensures ws.outbox == old(ws.outbox)
    ensures screening.Blocked? ==> ws.closed == Some(CloseInfo(POLICY_VIOLATION, screening.reason))
    ensures screening.Cleared? ==> ws.closed == old(ws.closed)
    ensures ws.isAlive == (if screening == Blocked("Origin not allowed") then old(ws.isAlive) else Some(true))
  {
    if !IsOriginAllowed(cfg.allowedOrigins, req.origin.GetOr("")) {
      ws.Close(POLICY_VIOLATION, "Origin not allowed");
      return Blocked("Origin not allowed");
    }
    ws.isAlive := Some(true);
    if !cfg.requireAuth {
      return Cleared(ANONYMOUS);
    }
    var claims := VerifyIdToken(cfg.verifyIdToken, req.idToken.GetOr(""));
    if claims.None? {
      ws.Close(POLICY_VIOLATION, "Authentication required");
      return Blocked("Authentication required");
    }
    screening := Cleared(UserEmailOf(claims.value));
  }

  /**
   * The rest of the connection handler once origin and identity passed: the
   * signature check of a supplied session id, or a new id with its token
   * stored; then join and greet.
   */
  method EnterSession(reg: Registry, ws: Socket, cfg: Config, req: ConnectRequest, variant: Variant, userEmail: string,
                      freshId: string, now: int, dd: Settled<seq<Message>>, pg: Settled<seq<Message>>)
    returns (a: Admission)
    requires reg.Valid()
    modifies reg, ws`outbox, ws`closed, ws`userEmail, ws`sessionId
    ensures reg.Valid()
    ensures ws.isAlive == old(ws.isAlive)
    ensures a == SessionStep(cfg, req, userEmail, freshId)
    ensures a.Refused? ==>
      && reg.sessions == old(reg.sessions)
      && ws.outbox == old(ws.outbox)
      && ws.closed == Some(CloseInfo(POLICY_VIOLATION, a.reason))
      && ws.userEmail == old(ws.userEmail) && ws.sessionId == old(ws.sessionId)
    ensures a.Admitted? ==>
      var sig := SignSession(cfg.hmac, cfg.secret, a.sessionId);
      && reg.sessions == old(reg.sessions)[a.sessionId := EntryOf(old(reg.sessions), a.sessionId, now).(token := Some(sig), ws := Some(ws))]
      && ws.closed == old(ws.closed)
      && ws.outbox == old(ws.outbox) + [
           SessionFrame(a.sessionId, sig, if variant == Modular then Some(a.userEmail) else None),
           HistoryFrame(a.sessionId, Reconcile(dd, pg, HISTORY_ON_CONNECT))]
      && (variant == Modular ==> ws.userEmail == Some(a.userEmail) && ws.sessionId == Some(a.sessionId))
      && (variant == Monolith ==> ws.userEmail == old(ws.userEmail) && ws.sessionId == old(ws.sessionId))
  {
    a := ResolveSession(reg, ws, cfg, req, userEmail, freshId, now);
    if a.Refused? {
      return;
    }
    var sig := SignSession(cfg.hmac, cfg.secret, a.sessionId);
    JoinOverwritesToken(old(reg.sessions), a.sessionId, now, sig, sig, ws);
    SettleSession(reg, ws, variant, a.sessionId, userEmail, sig, now, dd, pg);
  }

  /**
   * The session-id step of `handleConnection`: mints and stores a signed id
   * when none is supplied, and closes with 1008 when a supplied id's token
   * does not verify.
   */
  method ResolveSession(reg: Registry, ws: Socket, cfg: Config, req: ConnectRequest, userEmail: string,
                        freshId: string, now: int)
    returns (a: Admission)
    requires reg.Valid()
    modifies reg, ws`closed
    ensures reg.Valid()
    ensures a == SessionStep(cfg, req, userEmail, freshId)
    ensures a.Refused? ==>
      reg.sessions == old(reg.sessions) && ws.closed == Some(CloseInfo(POLICY_VIOLATION, a.reason))
    ensures a.Admitted? ==> ws.closed == old(ws.closed) && a.userEmail == userEmail
    ensures a.Admitted? && !a.minted ==> reg.sessions == old(reg.sessions)
    ensures a.Admitted? && a.minted ==>
      reg.sessions == old(reg.sessions)[a.sessionId :=
        EntryOf(old(reg.sessions), a.sessionId, now).(token := Some(SignSession(cfg.hmac, cfg.secret, a.sessionId)))]
  {
    if !Truthy(req.sessionId) {
      reg.SetSessionToken(freshId, SignSession(cfg.hmac, cfg.secret, freshId), now);
      a := Admitted(freshId, userEmail, true);
    } else if !VerifySessionSignature(cfg.hmac, cfg.secret, req.sessionId.value, req.token) {
      ws.Close(POLICY_VIOLATION, "Invalid session token");
      a := Refused("Invalid session token");
    } else {
      a := Admitted(req.sessionId.value, userEmail, false);
    }
  }

  /**
   * The rest of an admission: the registry entry gets the token and the
   * socket, the modular server tags the socket with the user and the
   * session, and the session frame and the history frame are sent.
   */
  method SettleSession(reg: Registry, ws: Socket, variant: Variant, sessionId: string, userEmail: string, sig: string,
                       now: int, dd: Settled<seq<Message>>, pg: Settled<seq<Message>>)
    requires reg.Valid()
    modifies reg, ws`outbox, ws`userEmail, ws`sessionId
    ensures reg.Valid()
    ensures reg.sessions == old(reg.sessions)[sessionId := EntryOf(old(reg.sessions), sessionId, now).(token := Some(sig), ws := Some(ws))]
    ensures ws.outbox == old(ws.outbox) + [
              SessionFrame(sessionId, sig, if variant == Modular then Some(userEmail) else None),
              HistoryFrame(sessionId, Reconcile(dd, pg, HISTORY_ON_CONNECT))]
    ensures variant == Modular ==> ws.userEmail == Some(userEmail) && ws.sessionId == Some(sessionId)
    ensures variant == Monolith ==> ws.userEmail == old(ws.userEmail) && ws.sessionId == old(ws.sessionId)
  {
    JoinSession(reg, ws, sessionId, sig, now);
    if variant == Modular {
      ws.userEmail := Some(userEmail);
      ws.sessionId := Some(sessionId);
    }
    Greet(ws, SessionFrame(sessionId, sig, if variant == Modular then Some(userEmail) else None), dd, pg);
  }

  // ---------------------------------------------------------------------------
  // Frames

  /** The outcome of the checks a frame passes before the rate limit. */
  datatype Check = Pass(frame: Inbound) | Fail(error: string)

  /**
   * The early returns in order: size guard, `JSON.parse` (the `parse`
   * parameter; `None` when it throws), schema.  Each failure names the one
   * error frame sent.
   */
  function Precheck(raw: seq<byte>, parse: seq<byte> -> Option<Json>): (c: Check)
    ensures c == Fail("Payload too large") <==> |raw| > MAX_FRAME_BYTES
    ensures c == Fail("Invalid JSON") <==> |raw| <= MAX_FRAME_BYTES && parse(raw).None?
    ensures c == Fail("Invalid message schema") <==>
      |raw| <= MAX_FRAME_BYTES && parse(raw).Some? && ValidateMessage(parse(raw).value).None?
    ensures c.Pass? <==> |raw| <= MAX_FRAME_BYTES && parse(raw).Some? && ValidateMessage(parse(raw).value).Some?
    ensures c.Pass? ==> ValidateMessage(parse(raw).value) == Some(c.frame)
  {
    if |raw| > MAX_FRAME_BYTES then Fail("Payload too large")
    else match parse(raw)
      case None => Fail("Invalid JSON")
      case Some(msg) =>
        match ValidateMessage(msg)
        case None => Fail("Invalid message schema")
        case Some(frame) => Pass(frame)
  }

  /** A frame of exactly 262144 bytes is not refused for its size. */
  lemma SizeBoundary(raw: seq<byte>, parse: seq<byte> -> Option<Json>)
    requires |raw| == MAX_FRAME_BYTES
    ensures Precheck(raw, parse) != Fail("Payload too large")
  {
  }

  /** Whether each store accepted a write. */
  datatype SaveResult = SaveResult(dynamoOk: bool, postgresOk: bool)

  /**
   * What the outside world contributes while one frame is handled: the JSON
   * parser, the clock read inside the rate check, the clock read for the
   * user record, the bot reply (`None` when generation fails) with the clock
   * read for it, and how each store took the two writes.
   */
  datatype FrameInputs = FrameInputs(
    parse: seq<byte> -> Option<Json>,
    rateNow: int,
    now: int,
    botReply: Option<string>,
    botNow: int,
    userSave: SaveResult,
    botSave: SaveResult)

  /** What became of a frame. */
  datatype FrameOutcome = ErrorReply(error: string) | Chatted(user: Message, bot: Option<Message>) | Ponged(ts: int)

  /** The records a store accepted from the writes of one frame. */
  function Accepted(m: Message, ok: bool): seq<Message> {
    if ok then [m] else []
  }

  /**
   * `handleMessage` (and the monolith's message listener), for the frame `raw`
   * on connection `ws` of session `sessionId`; `sender` is the connection's
   * identity (modular) or "user" (monolith).
   *
   * A frame refused before the rate limit sends one error frame and touches
   * neither registry nor stores, so it costs no token.  The rate check runs
   * `Consume` on the session's bucket; an unknown session is refused as rate
   * limited.  A ping is answered with the server's clock.  A chat message is
   * trimmed, saved, then echoed; the bot reply, when generated, is saved and
   * sent to the socket registered for the session if that one is open, and a
   * failed generation sends one error frame with the user record kept.
   */
  method HandleMessage(reg: Registry, stores: Stores, ws: Socket, sessionId: string, sender: string,
                       raw: seq<byte>, inp: FrameInputs)
    returns (out: FrameOutcome)
    requires reg.Valid()
    modifies reg, stores, ws`outbox, reg.SocketOf(sessionId)`outbox
    ensures reg.Valid()
    ensures Precheck(raw, inp.parse).Fail? ==>
      && out == ErrorReply(Precheck(raw, inp.parse).error)
      && reg.sessions == old(reg.sessions) && unchanged(stores)
      && ws.outbox == old(ws.outbox) + [ErrorFrame(out.error)]
    ensures Precheck(raw, inp.parse).Pass? && sessionId !in old(reg.sessions) ==>
      && out == ErrorReply("Rate limit exceeded")
      && reg.sessions == old(reg.sessions) && unchanged(stores)
      && ws.outbox == old(ws.outbox) + [ErrorFrame(out.error)]
    ensures Precheck(raw, inp.parse).Pass? && sessionId in old(reg.sessions) ==>
      var entry := old(reg.sessions)[sessionId];
      var v := Consume(entry.rate, inp.rateNow);
      reg.sessions == old(reg.sessions)[sessionId := entry.(rate := v.rate)]
      && (!v.allowed ==>
            out == ErrorReply("Rate limit exceeded") && unchanged(stores)
            && ws.outbox == old(ws.outbox) + [ErrorFrame(out.error)])
      && (v.allowed && Precheck(raw, inp.parse).frame.PingFrame? ==>
            out == Ponged(inp.now) && unchanged(stores)
            && ws.outbox == old(ws.outbox) + [PongFrame(inp.now)])
    ensures out.Chatted? ==>
      var user := Message(sessionId, sender, Trim(Precheck(raw, inp.parse).frame.content), inp.now);
      var bot := if inp.botReply.Some? then Some(Message(sessionId, "bot", inp.botReply.value, inp.botNow)) else None;
      var botSaved := inp.botReply.Some?;
      var target := old(reg.sessions)[sessionId].ws;
      var delivered := botSaved && target.Some? && old(target.value.IsOpen());
      && Precheck(raw, inp.parse).Pass? && Precheck(raw, inp.parse).frame.ChatFrame?
      && out == Chatted(user, bot)
      && stores.dynamo == old(stores.dynamo) + Accepted(user, inp.userSave.dynamoOk)
                          + (if botSaved then Accepted(bot.value, inp.botSave.dynamoOk) else [])
      && stores.postgres == old(stores.postgres) + Accepted(user, inp.userSave.postgresOk)
                          + (if botSaved then Accepted(bot.value, inp.botSave.postgresOk) else [])
      && stores.attempts == old(stores.attempts) + [Dynamo, Postgres] + (if botSaved then [Dynamo, Postgres] else [])
      && ws.outbox == old(ws.outbox) + [MessageFrame(user)]
                      + (if !botSaved then [ErrorFrame("Failed to process message")] else [])
                      + (if delivered && target.value == ws then [MessageFrame(bot.value)] else [])
      && (delivered && target.value != ws ==> target.value.outbox == old(target.value.outbox) + [MessageFrame(bot.value)])
    ensures Precheck(raw, inp.parse).Pass? && Precheck(raw, inp.parse).frame.ChatFrame?
            && sessionId in old(reg.sessions) && Consume(old(reg.sessions)[sessionId].rate, inp.rateNow).allowed
            ==> out.Chatted?
    ensures forall w :: w in old(reg.SocketOf(sessionId)) && w != ws && !(out.Chatted? && out.bot.Some? && old(w.IsOpen()))
              ==> w.outbox == old(w.outbox)
  {
    if |raw| > MAX_FRAME_BYTES {
      ws.Send(ErrorFrame("Payload too large"));
      return ErrorReply("Payload too large");
    }
    var msg := inp.parse(raw);
    if msg.None? {
      ws.Send(ErrorFrame("Invalid JSON"));
      return ErrorReply("Invalid JSON");
    }
    var frame := ValidateMessage(msg.value);
    if frame.None? {
      ws.Send(ErrorFrame("Invalid message schema"));
      return ErrorReply("Invalid message schema");
    }

    ghost var socketBefore := reg.SocketOf(sessionId);
    var allowed := reg.AllowMessage(sessionId, inp.rateNow);
    if !allowed {
      ws.Send(ErrorFrame("Rate limit exceeded"));
      return ErrorReply("Rate limit exceeded");
    }
    assert reg.SocketOf(sessionId) == socketBefore;

    match frame.value
    case PingFrame =>
      ws.Send(PongFrame(inp.now));
      out := Ponged(inp.now);
    case ChatFrame(content) =>
      out := HandleChat(reg, stores, ws, sessionId, sender, content, inp);
  }

  /**
   * The chat branch: the trimmed user record is saved and echoed; then the
   * bot reply, if generated, is saved and sent to the session's registered
   * socket when that one is open; a failed generation sends one error frame.
   */
  method HandleChat(reg: Registry, stores: Stores, ws: Socket, sessionId: string, sender: string,
                    content: string, inp: FrameInputs)
    returns (out: FrameOutcome)
    requires reg.Valid() && sessionId in reg.sessions
    modifies stores, ws`outbox, reg.SocketOf(sessionId)`outbox
    ensures
      var user := Message(sessionId, sender, Trim(content), inp.now);
      var bot := if inp.botReply.Some? then Some(Message(sessionId, "bot", inp.botReply.value, inp.botNow)) else None;
      var botSaved := inp.botReply.Some?;
      var target := reg.sessions[sessionId].ws;
      var delivered := botSaved && target.Some? && old(target.value.IsOpen());
      && out == Chatted(user, bot)
      && stores.dynamo == old(stores.dynamo) + Accepted(user, inp.userSave.dynamoOk)
                          + (if botSaved then Accepted(bot.value, inp.botSave.dynamoOk) else [])
      && stores.postgres == old(stores.postgres) + Accepted(user, inp.userSave.postgresOk)
                          + (if botSaved then Accepted(bot.value, inp.botSave.postgresOk) else [])
      && stores.attempts == old(stores.attempts) + [Dynamo, Postgres] + (if botSaved then [Dynamo, Postgres] else [])
      && ws.outbox == old(ws.outbox) + [MessageFrame(user)]
                      + (if !botSaved then [ErrorFrame("Failed to process message")] else [])
                      + (if delivered && target.value == ws then [MessageFrame(bot.value)] else [])
      && (delivered && target.value != ws ==> target.value.outbox == old(target.value.outbox) + [MessageFrame(bot.value)])
    ensures forall w :: w in reg.SocketOf(sessionId) && w != ws && !(inp.botReply.Some? && old(w.IsOpen()))
              ==> w.outbox == old(w.outbox)
  {
    var user := Message(sessionId, sender, Trim(content), inp.now);
    stores.SaveMessage(user, inp.userSave.dynamoOk, inp.userSave.postgresOk);
    ws.Send(MessageFrame(user));
    if inp.botReply.None? {
      ws.Send(ErrorFrame("Failed to process message"));
      return Chatted(user, None);
    }
    var bot := Message(sessionId, "bot", inp.botReply.value, inp.botNow);
    stores.SaveMessage(bot, inp.botSave.dynamoOk, inp.botSave.postgresOk);
    var s := reg.GetSession(sessionId);
    if s.Some? && s.value.ws.Some? && s.value.ws.value.IsOpen() {
      s.value.ws.value.Send(MessageFrame(bot));
    }
    out := Chatted(user, Some(bot));
  }

  /**
   * The modular message listener: `handleMessage` with the session and the
   * identity the gatekeeper admitted the connection with, so a user record is
   * attributed to the ID token's identity, or to the anonymous address when
   * no identity is required.
   */
  method OnModularMessage(reg: Registry, stores: Stores, ws: Socket, cfg: Config, req: ConnectRequest, freshId: string,
                          raw: seq<byte>, inp: FrameInputs)
    returns (out: FrameOutcome)
    requires reg.Valid() && Admit(cfg, req, freshId).Admitted?
    modifies reg, stores, ws`outbox, reg.SocketOf(Admit(cfg, req, freshId).sessionId)`outbox
    ensures reg.Valid()
    ensures out.Chatted? ==>
      && out.user.sessionId == Admit(cfg, req, freshId).sessionId
      && out.user.sender == Screen(cfg, req).userEmail
      && (!cfg.requireAuth ==> out.user.sender == ANONYMOUS)
      && (cfg.requireAuth ==> out.user.sender == UserEmailOf(VerifyIdToken(cfg.verifyIdToken, req.idToken.GetOr("")).value))
      && (inp.userSave.dynamoOk ==> out.user in stores.dynamo)
      && (inp.userSave.postgresOk ==> out.user in stores.postgres)
  {
    var a := Admit(cfg, req, freshId);
    out := HandleMessage(reg, stores, ws, a.sessionId, a.userEmail, raw, inp);
    if out.Chatted? {
      assert inp.userSave.dynamoOk ==> stores.dynamo[|old(stores.dynamo)|] == out.user;
      assert inp.userSave.postgresOk ==> stores.postgres[|old(stores.postgres)|] == out.user;
    }
  }

  // ---------------------------------------------------------------------------
  // Close and error

  /**
   * The names bound at the top level of handlers.js: its imports and its own
   * functions.  A listener's body resolves every other name against its
   * parameters; reading a name bound in neither place throws `ReferenceError`.
   */
  const MODULE_BINDINGS: set<string> := {
    "uuidv4", "heartbeat", "isOriginAllowed", "signSession", "verifySessionSignature",
    "verifyCognitoIdToken", "requireAuthEnabled", "getOrCreateSession", "attachSocketToSession",
    "getSession", "removeSession", "setSessionToken", "allowMessage", "saveMessage",
    "getHistoryForSession", "generateBotResponse", "messageSchema", "logger",
    "handleConnection", "handleMessage", "handleClose", "handleError"}

  /** The names `handleClose`'s body reads, in evaluation order: the log call, then `removeSession(sessionId)`. */
  const CLOSE_READS: seq<string> := ["logger", "sessionId", "userEmail", "removeSession", "sessionId"]

  /** The names `handleError`'s body reads, in evaluation order (its log call). */
  const ERROR_READS: seq<string> := ["logger", "sessionId", "userEmail", "err"]

  /** `handleClose(sessionId)` and `handleError(err, sessionId)` as declared. */
  const CLOSE_PARAMS: seq<string> := ["sessionId"]
  const ERROR_PARAMS: seq<string> := ["err", "sessionId"]

  /**
   * The same functions declaring the identity that their listeners already
   * pass as the last argument: `handleClose(sessionId, userEmail)`,
   * `handleError(err, sessionId, userEmail)`.
   */
  const CLOSE_PARAMS_WITH_IDENTITY: seq<string> := ["sessionId", "userEmail"]
  const ERROR_PARAMS_WITH_IDENTITY: seq<string> := ["err", "sessionId", "userEmail"]

  /**
   * How a listener call ends.  Neither listener, nor the `ws` library that
   * emits the event, catches what a handler throws, so a throw escapes as an
   * uncaught exception.
   */
  datatype ListenerOutcome = Returned | UncaughtReferenceError(name: string)

  /** The first name of `names` bound neither as a parameter nor at the top level of the module. */
  function FirstUnbound(params: seq<string>, names: seq<string>): (r: Option<string>)
    ensures r.None? <==> forall n :: n in names ==> n in params || n in MODULE_BINDINGS
    ensures r.Some? ==> r.value in names && r.value !in params && r.value !in MODULE_BINDINGS
    ensures r.Some? && names[0] != r.value ==> names[0] in params || names[0] in MODULE_BINDINGS
    decreases |names|
  {
    if |names| == 0 then None
    else if names[0] in params || names[0] in MODULE_BINDINGS then FirstUnbound(params, names[1..])
    else Some(names[0])
  }

  /** Runs a body reading `names` under `params`: it returns, or throws at the first unbound name. */
  function RunReads(params: seq<string>, names: seq<string>): (out: ListenerOutcome)
    ensures out == Returned <==> forall n :: n in names ==> n in params || n in MODULE_BINDINGS
    ensures out.UncaughtReferenceError? ==> out.name in names && out.name !in params && out.name !in MODULE_BINDINGS
  {
    match FirstUnbound(params, names)
    case None => Returned
    case Some(n) => UncaughtReferenceError(n)
  }

  /**
   * `handleClose`, declared with `params`: the log call's names are read
   * first, so an unbound one throws before `removeSession` runs and changes
   * nothing; otherwise the session is removed and its socket terminated.
   */
  method HandleClose(reg: Registry, params: seq<string>, sessionId: string) returns (out: ListenerOutcome)
    requires reg.Valid()
    modifies reg, reg.SocketOf(sessionId)`terminated
    ensures reg.Valid()
    ensures out == RunReads(params, CLOSE_READS)
    ensures out.UncaughtReferenceError? ==>
      reg.sessions == old(reg.sessions) && forall w :: w in old(reg.SocketOf(sessionId)) ==> w.terminated == old(w.terminated)
    ensures out.Returned? ==>
      reg.sessions == old(reg.sessions) - {sessionId} && forall w :: w in old(reg.SocketOf(sessionId)) ==> w.terminated
  {
    var unbound := FirstUnbound(params, CLOSE_READS);
    if unbound.Some? {
      return UncaughtReferenceError(unbound.value);
    }
    reg.RemoveSession(sessionId);
    out := Returned;
  }

  /** `handleError`, declared with `params`: it only logs, and throws when the log call reads an unbound name. */
  function HandleError(params: seq<string>): (out: ListenerOutcome)
    ensures out == Returned <==> forall n :: n in ERROR_READS ==> n in params || n in MODULE_BINDINGS
  {
    RunReads(params, ERROR_READS)
  }

  /** As declared, `handleClose` reads `userEmail`, which nothing binds: the close listener throws. */
  lemma CloseReadsUnboundIdentity()
    ensures RunReads(CLOSE_PARAMS, CLOSE_READS) == UncaughtReferenceError("userEmail")
  {
    assert "logger" in MODULE_BINDINGS && "userEmail" !in MODULE_BINDINGS;
    assert FirstUnbound(CLOSE_PARAMS, CLOSE_READS[2..]) == Some("userEmail");
  }

  /** Declaring the identity the listener passes binds every name `handleClose` reads. */
  lemma CloseWithIdentityResolves()
    ensures RunReads(CLOSE_PARAMS_WITH_IDENTITY, CLOSE_READS) == Returned
  {
    assert "logger" in MODULE_BINDINGS && "removeSession" in MODULE_BINDINGS;
  }

  /** As declared, `handleError` reads the unbound `userEmail`: the error listener throws instead of logging. */
  lemma ErrorListenerThrows()
    ensures HandleError(ERROR_PARAMS) == UncaughtReferenceError("userEmail")
  {
    assert "logger" in MODULE_BINDINGS && "userEmail" !in MODULE_BINDINGS;
    assert FirstUnbound(ERROR_PARAMS, ERROR_READS[2..]) == Some("userEmail");
  }

  /** Declaring the identity the listener passes, `handleError` logs and returns. */
  lemma ErrorListenerWithIdentityReturns()
    ensures HandleError(ERROR_PARAMS_WITH_IDENTITY) == Returned
  {
    assert "logger" in MODULE_BINDINGS;
  }

  /**
   * A socket that joined a session, as an admitted connection does, and is
   * then closed through the modular handler as written: the close listener
   * ends in an uncaught `ReferenceError`, and at that point the session is
   * still registered with the socket attached and the socket not terminated.
   */
  method CloseLeavesSessionBehind(sessionId: string, sig: string, now: int)
    returns (out: ListenerOutcome, stillRegistered: bool, socketTerminated: bool)
    ensures out == UncaughtReferenceError("userEmail") && stillRegistered && !socketTerminated
  {
    var reg := new Registry();
    var ws := new Socket();
    JoinSession(reg, ws, sessionId, sig, now);
    assert reg.SocketOf(sessionId) == {ws} && !ws.terminated;
    ghost var joined := reg.sessions;
    CloseReadsUnboundIdentity();
    out := HandleClose(reg, CLOSE_PARAMS, sessionId);
    assert reg.sessions == joined;
    stillRegistered := sessionId in reg.sessions && reg.sessions[sessionId].ws == Some(ws);
    socketTerminated := ws.terminated;
  }

  /**
   * The same close with `handleClose` declaring the identity its listener
   * passes: the listener returns, the session is gone and the socket is
   * terminated.
   */
  method CloseWithIdentityRemovesSession(sessionId: string, sig: string, now: int)
    returns (out: ListenerOutcome, stillRegistered: bool, socketTerminated: bool)
    ensures out == Returned && !stillRegistered && socketTerminated
  {
    var reg := new Registry();
    var ws := new Socket();
    JoinSession(reg, ws, sessionId, sig, now);
    assert reg.SocketOf(sessionId) == {ws};
    CloseWithIdentityResolves();
    out := HandleClose(reg, CLOSE_PARAMS_WITH_IDENTITY, sessionId);
    stillRegistered := sessionId in reg.sessions;
    socketTerminated := ws.terminated;
  }
}
