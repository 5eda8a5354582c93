/**
 * The session registry: a process-wide map from session id to
 * `{sessionId, token, ws, rate}`, and the per-session token bucket that
 * admits at most a burst of 60 frames and refills lazily at 30 per minute.
 * The clock (`Date.now()`) is the parameter `now`, in milliseconds.
 */
module SessionManager {
  import opened Wrappers
  import opened Sockets

  const TOKENS_PER_MINUTE: real := 30.0
  const BURST_TOKENS: real := 60.0
  const MS_PER_MINUTE: int := 60000

  /** `s.rate`: the (fractional) number of tokens and the clock reading of the last refill. */
  datatype RateState = RateState(tokens: real, lastRefillMs: int)

  /** One registry entry; `token` and `ws` are `null` until set. */
  datatype Session = Session(sessionId: string, token: Option<string>, ws: Option<Socket>, rate: RateState)

  /** The outcome of one `allowMessage` call on an existing session. */
  datatype Verdict = Verdict(allowed: bool, rate: RateState)

  /** The bucket never holds a negative count nor more than a burst. */
  predicate InBounds(r: RateState) {
    0.0 <= r.tokens <= BURST_TOKENS
  }

  function Min(a: real, b: real): real {
    if a <= b then a else b
  }

  /** A full bucket, last refilled now. */
  function FreshRate(now: int): RateState {
    RateState(BURST_TOKENS, now)
  }

  /** The entry `getOrCreateSession` inserts for an unknown id. */
  function NewSession(sessionId: string, now: int): Session {
    Session(sessionId, None, None, FreshRate(now))
  }

  /** The entry for `sessionId` in `sessions`, or the one `getOrCreateSession` would insert at `now`. */
  function EntryOf(sessions: map<string, Session>, sessionId: string, now: int): Session {
    if sessionId in sessions then sessions[sessionId] else NewSession(sessionId, now)
  }

  /**
   * Storing a token and then joining the same session leaves what joining
   * alone leaves: the later token and socket overwrite the earlier ones.
   */
  lemma JoinOverwritesToken(sessions: map<string, Session>, sessionId: string, now: int,
                            early: string, sig: string, ws: Socket)
    ensures var mid := sessions[sessionId := EntryOf(sessions, sessionId, now).(token := Some(early))];
      mid[sessionId := EntryOf(mid, sessionId, now).(token := Some(sig), ws := Some(ws))]
      == sessions[sessionId := EntryOf(sessions, sessionId, now).(token := Some(sig), ws := Some(ws))]
  {
  }

  /**
   * The lazy refill: when the clock has moved forward, add 30 tokens per
   * elapsed minute (capped at the burst) and restart the interval; a frozen or
   * backwards clock changes nothing.
   */
  function Refill(r: RateState, now: int): (r': RateState)
    ensures now <= r.lastRefillMs ==> r' == r
    ensures now > r.lastRefillMs ==> r'.lastRefillMs == now
    ensures r.tokens <= r'.tokens || r'.tokens == BURST_TOKENS
    ensures InBounds(r) ==> InBounds(r')
  {
    var minutes := (now - r.lastRefillMs) as real / MS_PER_MINUTE as real;
    if minutes > 0.0 then RateState(Min(BURST_TOKENS, r.tokens + minutes * TOKENS_PER_MINUTE), now)
    else r
  }

  /** Refill, then spend one token if at least one is there. */
  function Consume(r: RateState, now: int): (v: Verdict)
    ensures InBounds(r) ==> InBounds(v.rate)
    ensures v.rate.lastRefillMs == Refill(r, now).lastRefillMs
  {
    var refilled := Refill(r, now);
    if refilled.tokens >= 1.0 then Verdict(true, refilled.(tokens := refilled.tokens - 1.0))
    else Verdict(false, refilled)
  }

  /** A call is allowed exactly when the refilled bucket holds a whole token, and then exactly one is spent. */
  lemma ConsumeSpendsOne(r: RateState, now: int)
    ensures Consume(r, now).allowed <==> Refill(r, now).tokens >= 1.0
    ensures Consume(r, now).rate.tokens
         == Refill(r, now).tokens - (if Consume(r, now).allowed then 1.0 else 0.0)
  {
  }

  /** Successive `allowMessage` calls on one session at the given clock readings: the verdicts and the final bucket. */
  function ConsumeAll(r: RateState, clock: seq<int>): (res: (seq<bool>, RateState))
    ensures |res.0| == |clock|
    decreases |clock|
  {
    if |clock| == 0 then ([], r)
    else
      var v := Consume(r, clock[0]);
      var rest := ConsumeAll(v.rate, clock[1..]);
      ([v.allowed] + rest.0, rest.1)
  }

  /** Whatever the clock does, a bucket that starts in bounds stays within [0, 60]. */
  lemma {:induction false} TokensStayInBounds(r: RateState, clock: seq<int>)
    requires InBounds(r)
    ensures InBounds(ConsumeAll(r, clock).1)
    decreases |clock|
  {
    if |clock| > 0 {
      TokensStayInBounds(Consume(r, clock[0]).rate, clock[1..]);
    }
  }

  /** With the clock frozen at or before the last refill, a bucket holding k tokens allows exactly the first k calls. */
  lemma {:induction false} FrozenClockAllows(r: RateState, now: int, n: nat, k: nat)
    requires now <= r.lastRefillMs && r.tokens == k as real
    ensures ConsumeAll(r, seq(n, _ => now)).0 == seq(n, i => i < k)
    decreases n
  {
    if n > 0 {
      var clock := seq(n, _ => now);
      assert clock[0] == now && clock[1..] == seq(n - 1, _ => now);
      var v := Consume(r, now);
      var k' := if k > 0 then k - 1 else 0;
      assert v.rate.lastRefillMs == r.lastRefillMs && v.rate.tokens == k' as real;
      FrozenClockAllows(v.rate, now, n - 1, k');
      var rest := seq(n - 1, i => i < k');
      assert v.allowed == (0 < k);
      assert [v.allowed] + rest == seq(n, i => i < k);
    }
  }

  /** A fresh session under a frozen clock allows 60 frames and rejects the 61st. */
  lemma FreshSessionAllowsSixty(now: int)
    ensures ConsumeAll(FreshRate(now), seq(61, _ => now)).0 == seq(60, _ => true) + [false]
  {
    FrozenClockAllows(FreshRate(now), now, 61, 60);
    assert seq(61, i => i < 60) == seq(60, _ => true) + [false];
  }

  /** Two idle minutes refill any in-bounds bucket to the burst, so the next call is allowed. */
  lemma RefillAfterTwoMinutes(r: RateState, now: int)
    requires InBounds(r) && now >= r.lastRefillMs + 2 * MS_PER_MINUTE
    ensures Refill(r, now).tokens == BURST_TOKENS
    ensures Consume(r, now).allowed
  {
    var minutes := (now - r.lastRefillMs) as real / MS_PER_MINUTE as real;
    assert minutes >= 2.0;
  }

  /** The registry; one instance stands for the module-level `sessions` Map. */
  class Registry {
    var sessions: map<string, Session>

    /** Every entry is filed under its own id and its bucket is in bounds. */
    ghost predicate Valid()
      reads this
    {
      forall id :: id in sessions ==> sessions[id].sessionId == id && InBounds(sessions[id].rate)
    }

    constructor ()
      ensures Valid() && sessions == map[]
    {
      sessions := map[];
    }

    /** The socket attached to `sessionId`, as a set of at most one. */
    function SocketOf(sessionId: string): set<Socket>
      reads this
    {
      if sessionId in sessions && sessions[sessionId].ws.Some? then {sessions[sessionId].ws.value} else {}
    }

    /** `getSession`: a plain lookup. */
    function GetSession(sessionId: string): (r: Option<Session>)
      requires Valid()
      reads this
      ensures r.Some? <==> sessionId in sessions
      ensures r.Some? ==> r.value.sessionId == sessionId && InBounds(r.value.rate)
    {
      if sessionId in sessions then Some(sessions[sessionId]) else None
    }

    /** An existing entry is returned untouched; an unknown id gets a full bucket, no token and no socket. */
    method GetOrCreateSession(sessionId: string, now: int) returns (s: Session)
      requires Valid()
      modifies this
      ensures Valid()
      ensures sessions == old(sessions)[sessionId := EntryOf(old(sessions), sessionId, now)]
      ensures s == sessions[sessionId]
      ensures sessionId in old(sessions) ==> sessions == old(sessions)
    {
      if sessionId !in sessions {
        sessions := sessions[sessionId := NewSession(sessionId, now)];
      }
      s := sessions[sessionId];
    }

    /**
     * Points the entry at `ws`, creating it if needed.  Only `ws` changes; a
     * previously attached socket is neither closed nor terminated (the method
     * modifies no socket).
     */
    method AttachSocketToSession(sessionId: string, ws: Socket, now: int) returns (s: Session)
      requires Valid()
      modifies this
      ensures Valid()
      ensures sessions == old(sessions)[sessionId := EntryOf(old(sessions), sessionId, now).(ws := Some(ws))]
      ensures s == sessions[sessionId]
    {
      var e := GetOrCreateSession(sessionId, now);
      s := e.(ws := Some(ws));
      sessions := sessions[sessionId := s];
    }

    /** Records the session's current signed token, creating the entry if needed. */
    method SetSessionToken(sessionId: string, token: string, now: int)
      requires Valid()
      modifies this
      ensures Valid()
      ensures sessions == old(sessions)[sessionId := EntryOf(old(sessions), sessionId, now).(token := Some(token))]
    {
      var e := GetOrCreateSession(sessionId, now);
      sessions := sessions[sessionId := e.(token := Some(token))];
    }

    /** Terminates the attached socket, if any, and deletes only this entry; an unknown id is a no-op. */
    method RemoveSession(sessionId: string)
      requires Valid()
      modifies this, SocketOf(sessionId)`terminated
      ensures Valid()
      ensures sessions == old(sessions) - {sessionId}
      ensures forall w :: w in old(SocketOf(sessionId)) ==> w.terminated
    {
      if sessionId in sessions && sessions[sessionId].ws.Some? {
        sessions[sessionId].ws.value.Terminate();
      }
      sessions := sessions - {sessionId};
    }

    /**
     * `allowMessage`: false without creating anything for an unknown id;
     * otherwise refill and try to spend one token, updating only this entry's bucket.
     */
    method AllowMessage(sessionId: string, now: int) returns (ok: bool)
      requires Valid()
      modifies this
      ensures Valid()
      ensures sessionId !in old(sessions) ==> !ok && sessions == old(sessions)
      ensures sessionId in old(sessions) ==>
        var v := Consume(old(sessions)[sessionId].rate, now);
        ok == v.allowed && sessions == old(sessions)[sessionId := old(sessions)[sessionId].(rate := v.rate)]
    {
      if sessionId !in sessions {
        return false;
      }
      var s := sessions[sessionId];
      var minutes := (now - s.rate.lastRefillMs) as real / MS_PER_MINUTE as real;
      var rate := s.rate;
      if minutes > 0.0 {
        rate := RateState(Min(BURST_TOKENS, rate.tokens + minutes * TOKENS_PER_MINUTE), now);
      }
      if rate.tokens >= 1.0 {
        rate := rate.(tokens := rate.tokens - 1.0);
        ok := true;
      } else {
        ok := false;
      }
      sessions := sessions[sessionId := s.(rate := rate)];
    }
  }
}
