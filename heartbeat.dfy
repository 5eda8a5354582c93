/**
 * The liveness sweep.  The pong listener marks a connection alive.  Every
 * tick visits each connection once: one still marked not-alive since the last
 * tick is terminated and not pinged; any other is marked not-alive and pinged
 * (sections 5.5.2 and 5.5.3 of RFC 6455), a ping that throws being ignored.
 */
module Heartbeat {
  import opened Wrappers
  import opened Sockets

  /** `heartbeat`, registered as the `pong` listener with the connection as receiver. */
  method OnPong(ws: Socket)
    modifies ws`isAlive
    ensures ws.isAlive == Some(true)
  {
    ws.isAlive := Some(true);
  }

  /** The pong listener on the liveness state alone. */
  function Ponged(l: Liveness): Liveness {
    l.(isAlive := Some(true))
  }

  /**
   * One tick on one connection; `pingThrows` says whether `ws.ping()` threw.
   * Only a connection marked exactly `false` is terminated; every survivor
   * leaves the tick marked `false`, and gains a ping unless the ping threw.
   */
  function Tick(l: Liveness, pingThrows: bool): (l': Liveness)
    ensures l'.terminated <==> l.terminated || l.isAlive == Some(false)
    ensures l'.isAlive == Some(false)
    ensures l'.pings == l.pings + (if l.isAlive == Some(false) || pingThrows then 0 else 1)
  {
    if l.isAlive == Some(false) then l.(terminated := true)
    else
      var marked := l.(isAlive := Some(false));
      if pingThrows then marked else marked.(pings := l.pings + 1)
  }

  /** A connection that sends no pong between two ticks is terminated by the second, whatever it was before. */
  lemma SilentConnectionTerminated(l: Liveness, throws1: bool, throws2: bool)
    ensures Tick(Tick(l, throws1), throws2).terminated
  {
  }

  /** A live connection that answers every ping is never terminated, however many ticks pass. */
  lemma {:induction false} PongingConnectionSurvives(l: Liveness, throws: seq<bool>)
    requires !l.terminated && l.isAlive != Some(false)
    ensures !TicksWithPongs(l, throws).terminated
    ensures TicksWithPongs(l, throws).isAlive == Some(true) || |throws| == 0
    decreases |throws|
  {
    if |throws| > 0 {
      var next := Ponged(Tick(l, throws[0]));
      assert !next.terminated;
      PongingConnectionSurvives(next, throws[1..]);
    }
  }

  /** Ticks with a pong answered after each one. */
  function TicksWithPongs(l: Liveness, throws: seq<bool>): Liveness
    decreases |throws|
  {
    if |throws| == 0 then l else TicksWithPongs(Ponged(Tick(l, throws[0])), throws[1..])
  }

  /** `isAlive` still undefined (no listener ran yet) is not "false": such a connection is pinged, not terminated. */
  lemma UndefinedIsNotDead(terminated: bool, pings: nat, pingThrows: bool)
    ensures Tick(Liveness(None, terminated, pings), pingThrows).terminated == terminated
  {
  }

  /**
   * The `setInterval` callback: visits the connections in order.  The
   * connections are distinct (they come from a `Set`).  Each one's liveness
   * becomes `Tick` of its old liveness; nothing else about any connection
   * changes, and a throwing ping does not stop the loop.
   */
  method Sweep(clients: seq<Socket>, pingThrows: seq<bool>)
    requires |pingThrows| == |clients|
    requires forall i, j :: 0 <= i < j < |clients| ==> clients[i] != clients[j]
    modifies set ws | ws in clients
    ensures forall i :: 0 <= i < |clients| ==> clients[i].Live() == Tick(old(clients[i].Live()), pingThrows[i])
    ensures forall ws :: ws in clients ==>
      ws.outbox == old(ws.outbox) && ws.closed == old(ws.closed)
      && ws.userEmail == old(ws.userEmail) && ws.sessionId == old(ws.sessionId)
  {
    for i := 0 to |clients|
      invariant forall j :: 0 <= j < i ==> clients[j].Live() == Tick(old(clients[j].Live()), pingThrows[j])
      invariant forall j :: i <= j < |clients| ==> clients[j].Live() == old(clients[j].Live())
      invariant forall ws :: ws in clients ==>
        ws.outbox == old(ws.outbox) && ws.closed == old(ws.closed)
        && ws.userEmail == old(ws.userEmail) && ws.sessionId == old(ws.sessionId)
    {
      var ws := clients[i];
      if ws.isAlive == Some(false) {
        ws.Terminate();
      } else {
        ws.isAlive := Some(false);
        if !pingThrows[i] {
          ws.pings := ws.pings + 1;
        }
      }
    }
  }
}
