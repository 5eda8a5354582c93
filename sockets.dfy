/**
 * A server-side WebSocket connection, reduced to what the chat core reads and
 * writes on it: the frames it was asked to send, close and terminate calls,
 * control pings, and the properties the handlers attach to it.
 */
module Sockets {
  import opened Wrappers
  import opened Protocol

  /** Close code 1008, "policy violation" (section 7.4.1 of RFC 6455). */
  const POLICY_VIOLATION: int := 1008

  datatype CloseInfo = CloseInfo(code: int, reason: string)

  /** The part of a connection the liveness sweep reads and writes. */
  datatype Liveness = Liveness(isAlive: Option<bool>, terminated: bool, pings: nat)

  class Socket {
    /** Every frame handed to `ws.send`, in order. */
    var outbox: seq<OutFrame>
    /** The code and reason of `ws.close(code, reason)`, once called. */
    var closed: Option<CloseInfo>
    /** Set by `ws.terminate()`. */
    var terminated: bool
    /** `ws.isAlive`; `None` is `undefined`. */
    var isAlive: Option<bool>
    /** Ping control frames sent (section 5.5.2 of RFC 6455). */
    var pings: nat
    /** `ws.userEmail` and `ws.sessionId`, attached by the connection handler. */
    var userEmail: Option<string>
    var sessionId: Option<string>

    /** A freshly accepted, open connection with no handler properties yet. */
    constructor ()
      ensures outbox == [] && closed == None && !terminated
      ensures isAlive == None && pings == 0 && userEmail == None && sessionId == None
    {
      outbox := [];
      closed := None;
      terminated := false;
      isAlive := None;
      pings := 0;
      userEmail := None;
      sessionId := None;
    }

    /** `ws.readyState === ws.OPEN`. */
    predicate IsOpen()
      reads this
    {
      closed.None? && !terminated
    }

    function Live(): Liveness
      reads this
    {
      Liveness(isAlive, terminated, pings)
    }

    method Send(f: OutFrame)
      modifies this`outbox
      ensures outbox == old(outbox) + [f]
    {
      outbox := outbox + [f];
    }

    method Close(code: int, reason: string)
      modifies this`closed
      ensures closed == Some(CloseInfo(code, reason))
    {
      closed := Some(CloseInfo(code, reason));
    }

    method Terminate()
      modifies this`terminated
      ensures terminated
    {
      terminated := true;
    }
  }
}
