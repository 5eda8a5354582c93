/**
 * The online-agent count behind the support widget: agents seen within the
 * timeout with status "online" are counted, and the reported count is
 * padded to at least three.  The agent table is only read.
 */
module Agents {

  /** An entry of the agent table: when the agent was last seen (ms) and its status. */
  datatype Agent = Agent(lastSeen: int, status: string)

  /** `{count, available, message}` as sent to the client. */
  datatype Report = Report(count: int, available: bool, message: string)

  /** One minute: `config.websocket.agentTimeout`, and the literal in the monolith. */
  const AGENT_TIMEOUT: int := 60000
  const MIN_REPORTED: int := 3
  const AVAILABILITY: string := "24/7 Support Available"

  /** The counting rule: seen strictly less than `timeout` ms ago, and status exactly "online". */
  predicate Online(a: Agent, now: int, timeout: int) {
    now - a.lastSeen < timeout && a.status == "online"
  }

  /** The ids among `ids` whose agents are online. */
  function OnlineIds(agents: map<string, Agent>, ids: set<string>, now: int, timeout: int): set<string> {
    set id | id in ids && id in agents && Online(agents[id], now, timeout)
  }

  /** `Math.max(onlineCount, 3)`. */
  function Reported(onlineCount: nat): (count: int)
    ensures count >= MIN_REPORTED
    ensures onlineCount >= MIN_REPORTED ==> count == onlineCount
    ensures onlineCount < MIN_REPORTED ==> count == MIN_REPORTED
  {
    if onlineCount > MIN_REPORTED then onlineCount else MIN_REPORTED
  }

  lemma OnlineIdsStep(agents: map<string, Agent>, ids: set<string>, id: string, now: int, timeout: int)
    requires id !in ids && id in agents
    ensures |OnlineIds(agents, ids + {id}, now, timeout)|
         == |OnlineIds(agents, ids, now, timeout)| + (if Online(agents[id], now, timeout) then 1 else 0)
  {
    if Online(agents[id], now, timeout) {
      assert OnlineIds(agents, ids + {id}, now, timeout) == OnlineIds(agents, ids, now, timeout) + {id};
    } else {
      assert OnlineIds(agents, ids + {id}, now, timeout) == OnlineIds(agents, ids, now, timeout);
    }
  }

  /**
   * `getOnlineAgents` (and the monolith's route): the `forEach` counts the
   * online agents; the report carries at least three, and is always available.
   */
  method GetOnlineAgents(agents: map<string, Agent>, now: int, timeout: int) returns (r: Report)
    ensures r.count == Reported(|OnlineIds(agents, agents.Keys, now, timeout)|)
    ensures r.available && r.message == AVAILABILITY
  {
    var onlineCount := 0;
    var remaining := agents.Keys;
    ghost var visited: set<string> := {};
    while remaining != {}
      invariant remaining + visited == agents.Keys && remaining !! visited
      invariant onlineCount == |OnlineIds(agents, visited, now, timeout)|
      decreases |remaining|
    {
      var id :| id in remaining;
      OnlineIdsStep(agents, visited, id, now, timeout);
      if now - agents[id].lastSeen < timeout && agents[id].status == "online" {
        onlineCount := onlineCount + 1;
      }
      visited := visited + {id};
      remaining := remaining - {id};
    }
    r := Report(if onlineCount > MIN_REPORTED then onlineCount else MIN_REPORTED, true, AVAILABILITY);
  }

  /** An agent seen exactly `timeout` ms ago is no longer counted; one seen a millisecond later still is. */
  lemma TimeoutIsStrict(a: Agent, now: int, timeout: int)
    requires a.status == "online"
    ensures !Online(a.(lastSeen := now - timeout), now, timeout)
    ensures Online(a.(lastSeen := now - timeout + 1), now, timeout)
  {
  }

  /** A last-seen time ahead of the clock counts as online. */
  lemma FutureLastSeenCounts(a: Agent, now: int, timeout: int)
    requires a.status == "online" && a.lastSeen > now && timeout > 0
    ensures Online(a, now, timeout)
  {
  }

  /** With no agents at all the client still hears of three. */
  lemma EmptyTableReportsThree(agents: map<string, Agent>, now: int, timeout: int)
    requires agents == map[]
    ensures Reported(|OnlineIds(agents, agents.Keys, now, timeout)|) == MIN_REPORTED
  {
    assert OnlineIds(agents, agents.Keys, now, timeout) == {};
  }
}
