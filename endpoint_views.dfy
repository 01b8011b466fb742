/** The agent status rules of endpoint_monitor/views.py over the Agent and
    AgentHeartbeat tables of endpoint_monitor/models.py: the heartbeat API, the offline
    sweep done by the dashboard, and the forced disconnect. Times are whole minutes. */
module EndpointViews {
  import opened Wrappers
  import opened EndpointLogic

  datatype Status = Online | Offline | Risk | Disconnected

  /** A row of the Agent table. */
  datatype Agent = Agent(
    agentId: string, hostname: string, ipAddress: Option<string>,
    lastHeartbeat: int, status: Status, isActive: bool)

  /** A row of the AgentHeartbeat table: the agent, the hooks it reported and how many
      of them were suspicious. */
  datatype HeartbeatRow = HeartbeatRow(agentId: string, hooks: seq<string>, riskScore: nat)

  /** The decoded JSON body of a heartbeat. */
  datatype HeartbeatBody = HeartbeatBody(agentId: Option<string>, hostname: Option<string>, hooks: seq<string>)

  /** 200 with the risk flag, 400 for a missing agent id, 500 for a body that cannot be
      decoded, 405 for a request that is not a POST. */
  datatype HeartbeatResponse = Ok(riskDetected: bool) | BadRequest | ServerError | MethodNotAllowed

  datatype DisconnectResponse = Redirected | NotFound

  const UnknownHost := "Unknown"

  /** An agent whose last heartbeat is this many minutes old or more is timed out. */
  const OfflineAfter := 5

  /** Agent.is_online (models.py:13-15). */
  predicate IsOnline(agent: Agent, now: int) {
    agent.lastHeartbeat >= now - OfflineAfter
  }

  /** Every agent is stored under its own id. */
  predicate WellKeyed(agents: map<string, Agent>) {
    forall id :: id in agents ==> agents[id].agentId == id
  }

  /** The row `get_or_create` inserts: no address yet, status Offline, active, and the
      creation time as last heartbeat (models.py:8-11). */
  function NewAgent(agentId: string, hostname: string, now: int): Agent
  {
    Agent(agentId, hostname, None, now, Offline, true)
  }

  /** Whether the request gets as far as get_or_create: a POST whose body decodes and
      carries a non-empty agent id. */
  predicate Reaches(isPost: bool, body: Option<HeartbeatBody>) {
    isPost && body.Some? && body.value.agentId.Some? && body.value.agentId.value != ""
  }

  function HostnameOf(body: HeartbeatBody): string
  {
    body.hostname.GetOr(UnknownHost)
  }

  /** The heartbeat's answer. */
  function HeartbeatOutcome(isPost: bool, body: Option<HeartbeatBody>): HeartbeatResponse
  {
    if !isPost then MethodNotAllowed
    else if body.None? then ServerError
    else if !Reaches(isPost, body) then BadRequest
    else Ok(|Suspicious(body.value.hooks)| > 0)
  }

  /** The agent object after lines 27-51: hostname, address and status set, not yet
      saved. */
  function Touched(agent: Agent, hostname: string, remoteAddr: Option<string>, risky: bool): Agent
  {
    var named := if hostname != UnknownHost then agent.(hostname := hostname) else agent;
    named.(ipAddress := remoteAddr, status := if risky then Risk else Online)
  }

  /** The Agent table after a heartbeat that reaches get_or_create: the agent is created
      if new, and saved with the new fields and a refreshed last heartbeat only while it
      is active. */
  function AfterHeartbeat(agents: map<string, Agent>, body: HeartbeatBody, remoteAddr: Option<string>, now: int): map<string, Agent>
    requires body.agentId.Some?
  {
    var id := body.agentId.value;
    var hostname := HostnameOf(body);
    var agent := if id in agents then agents[id] else NewAgent(id, hostname, now);
    var created := agents[id := agent];
    if agent.isActive
    then created[id := Touched(agent, hostname, remoteAddr, |Suspicious(body.hooks)| > 0).(lastHeartbeat := now)]
    else created
  }

  /** The row the heartbeat records. */
  function RowOf(body: HeartbeatBody): HeartbeatRow
    requires body.agentId.Some?
  {
    HeartbeatRow(body.agentId.value, body.hooks, |Suspicious(body.hooks)|)
  }

  /** Lines 75-78 for one agent the sweep visits. */
  function SweptAgent(agent: Agent, now: int): Agent
  {
    if agent.isActive && agent.lastHeartbeat < now - OfflineAfter && agent.status != Risk
    then agent.(status := Offline, lastHeartbeat := now)
    else agent
  }

  /** The Agent table after the dashboard's sweep (lines 70-78). */
  function Swept(agents: map<string, Agent>, now: int): map<string, Agent>
  {
    map id | id in agents :: SweptAgent(agents[id], now)
  }

  /** Lines 86-88: the agent after a forced disconnect and its save. */
  function DisconnectedAgent(agent: Agent, now: int): Agent
  {
    agent.(isActive := false, status := Disconnected, lastHeartbeat := now)
  }

  /** The two tables. An agent is looked up by its agent id. */
  class AgentTable {
    var agents: map<string, Agent>
    var heartbeats: seq<HeartbeatRow>

    /** The table's key invariant: every agent is stored under its own agent id, the
        unique `agent_id` column of models.py:6. Every operation keeps it. */
    ghost predicate Valid()
      reads this
    {
      WellKeyed(agents)
    }

    constructor()
      ensures Valid() && agents == map[] && heartbeats == []
    {
      agents := map[];
      heartbeats := [];
    }

    /** heartbeat_api. */
    method Heartbeat(isPost: bool, body: Option<HeartbeatBody>, remoteAddr: Option<string>, now: int)
      returns (response: HeartbeatResponse)
      requires Valid()
      modifies this
      ensures Valid()
      ensures response == HeartbeatOutcome(isPost, body)
      ensures Reaches(isPost, body) ==>
        agents == AfterHeartbeat(old(agents), body.value, remoteAddr, now)
        && heartbeats == old(heartbeats) + [RowOf(body.value)]
      ensures !Reaches(isPost, body) ==> agents == old(agents) && heartbeats == old(heartbeats)
    {
      if !isPost {
        return MethodNotAllowed;
      }
      if body.None? {
        return ServerError;
      }
      var agentId := body.value.agentId;
      if agentId.None? || agentId.value == "" {
        return BadRequest;
      }
      var isRisk := RecordHeartbeat(body.value, remoteAddr, now);
      response := Ok(isRisk);
    }

    /** The part of heartbeat_api after the agent id is known: get_or_create, the
        heartbeat row, the hook analysis and the save of an active agent. */
    method RecordHeartbeat(data: HeartbeatBody, remoteAddr: Option<string>, now: int) returns (isRisk: bool)
      requires Valid()
      requires data.agentId.Some? && data.agentId.value != ""
      modifies this
      ensures Valid()
      ensures isRisk <==> |Suspicious(data.hooks)| > 0
      ensures agents == AfterHeartbeat(old(agents), data, remoteAddr, now)
      ensures heartbeats == old(heartbeats) + [RowOf(data)]
    {
      var id := data.agentId.value;
      var hostname := data.hostname.GetOr(UnknownHost);
      var hooks := data.hooks;
      var agent: Agent;
      if id in agents {
        agent := agents[id];
      } else {
        agent := NewAgent(id, hostname, now);
        agents := agents[id := agent];
      }
      ghost var created := agents;
      ghost var found := agent;
      assert created == old(agents)[id := found];
      if hostname != UnknownHost {
        agent := agent.(hostname := hostname);
      }
      agent := agent.(ipAddress := remoteAddr);
      var suspicious;
      isRisk, suspicious := AnalyzeHooks(hooks);
      heartbeats := heartbeats + [HeartbeatRow(id, hooks, |suspicious|)];
      if isRisk {
        agent := agent.(status := Risk);
      } else {
        agent := agent.(status := Online);
      }
      assert agent == Touched(found, hostname, remoteAddr, |Suspicious(hooks)| > 0);
      if agent.isActive {
        agents := agents[id := agent.(lastHeartbeat := now)];
      }
      assert agents == AfterHeartbeat(old(agents), data, remoteAddr, now);
      OperationsKeepKeys(old(agents), data, remoteAddr, id, now);
    }

    /** The status update at the start of endpoint_dashboard_view. */
    method DashboardSweep(now: int)
      requires Valid()
      modifies this
      ensures Valid()
      ensures agents == Swept(old(agents), now)
      ensures heartbeats == old(heartbeats)
    {
      var threshold := now - OfflineAfter;
      var pending := set id | id in agents && agents[id].isActive;
      ghost var start := agents;
      while pending != {}
        invariant pending <= start.Keys && agents.Keys == start.Keys
        invariant forall id :: id in start ==> agents[id] == if id in pending then start[id] else SweptAgent(start[id], now)
        invariant heartbeats == old(heartbeats)
        decreases pending
      {
        var id :| id in pending;
        var agent := agents[id];
        if agent.lastHeartbeat < threshold {
          if agent.status != Risk {
            agents := agents[id := agent.(status := Offline, lastHeartbeat := now)];
          }
        }
        pending := pending - {id};
      }
      assert agents == Swept(start, now);
    }

    /** disconnect_agent_view: a missing agent gives 404. */
    method DisconnectAgent(id: string, now: int) returns (response: DisconnectResponse)
      requires Valid()
      modifies this
      ensures Valid()
      ensures id in old(agents) ==> response == Redirected && agents == old(agents)[id := DisconnectedAgent(old(agents)[id], now)]
      ensures id !in old(agents) ==> response == NotFound && agents == old(agents)
      ensures heartbeats == old(heartbeats)
    {
      if id !in agents {
        return NotFound;
      }
      var agent := agents[id];
      agent := agent.(isActive := false);
      agent := agent.(status := Disconnected);
      agents := agents[id := agent.(lastHeartbeat := now)];
      response := Redirected;
    }
  }

  // ---- properties of the heartbeat ----

  /** The answers: 405 exactly for a request that is not a POST, 400 exactly for a
      decoded body without a usable agent id, and 200 with the risk flag otherwise. */
  lemma HeartbeatAnswers(isPost: bool, body: Option<HeartbeatBody>)
    ensures HeartbeatOutcome(isPost, body) == MethodNotAllowed <==> !isPost
    ensures HeartbeatOutcome(isPost, body) == BadRequest <==> isPost && body.Some? && !Reaches(isPost, body)
    ensures HeartbeatOutcome(isPost, body).Ok? <==> Reaches(isPost, body)
    ensures Reaches(isPost, body) ==>
      HeartbeatOutcome(isPost, body).riskDetected == (Suspicious(body.value.hooks) != [])
  {
  }

  /** A heartbeat for a new or active agent leaves it active, with the reporting address,
      status Risk exactly when some hook is suspicious and Online otherwise, and a fresh
      last heartbeat, so the agent counts as online. */
  lemma HeartbeatStatus(agents: map<string, Agent>, body: HeartbeatBody, remoteAddr: Option<string>, now: int)
    requires body.agentId.Some?
    requires body.agentId.value in agents ==> agents[body.agentId.value].isActive
    ensures var a := AfterHeartbeat(agents, body, remoteAddr, now)[body.agentId.value];
      a.isActive && a.ipAddress == remoteAddr && a.lastHeartbeat == now && IsOnline(a, now)
      && (a.status == Risk <==> Suspicious(body.hooks) != [])
      && (a.status == Online <==> Suspicious(body.hooks) == [])
  {
  }

  /** The hostname: a new agent takes the one sent (or "Unknown"), and an existing
      agent's changes only when the one sent is not "Unknown". */
  lemma HostnameRule(agents: map<string, Agent>, body: HeartbeatBody, remoteAddr: Option<string>, now: int)
    requires body.agentId.Some?
    ensures var id := body.agentId.value;
      var a := AfterHeartbeat(agents, body, remoteAddr, now)[id];
      (id !in agents ==> a.hostname == body.hostname.GetOr("Unknown"))
      && (id in agents && agents[id].isActive ==>
            a.hostname == if HostnameOf(body) != "Unknown" then HostnameOf(body) else agents[id].hostname)
  {
  }

  /** A heartbeat touches only the agent it names. */
  lemma HeartbeatIsLocal(agents: map<string, Agent>, body: HeartbeatBody, remoteAddr: Option<string>, now: int, other: string)
    requires body.agentId.Some? && other != body.agentId.value
    ensures var after := AfterHeartbeat(agents, body, remoteAddr, now);
      after.Keys == agents.Keys + {body.agentId.value}
      && (other in agents ==> after[other] == agents[other])
  {
  }

  /** The heartbeat row is recorded for every heartbeat that reaches the table, with the
      number of suspicious hooks as its risk score. */
  lemma RowRecordsRisk(body: HeartbeatBody)
    requires body.agentId.Some?
    ensures RowOf(body).riskScore == |Suspicious(body.hooks)|
    ensures RowOf(body).riskScore > 0 <==> Suspicious(body.hooks) != []
  {
  }

  /** An agent that is not active is never saved by a heartbeat: the table stays as it
      was, though a heartbeat row is still recorded. */
  lemma InactiveUntouchedByHeartbeat(agents: map<string, Agent>, body: HeartbeatBody, remoteAddr: Option<string>, now: int)
    requires body.agentId.Some? && body.agentId.value in agents && !agents[body.agentId.value].isActive
    ensures AfterHeartbeat(agents, body, remoteAddr, now) == agents
  {
  }

  // ---- properties of the sweep ----

  /** The sweep changes exactly the active agents whose last heartbeat is older than
      five minutes and whose status is not Risk, marking them Offline. */
  lemma SweepChangesOnlyStale(agents: map<string, Agent>, now: int, id: string)
    requires id in agents
    ensures var a := agents[id];
      (Swept(agents, now)[id] != a <==> a.isActive && a.lastHeartbeat < now - 5 && a.status != Risk)
      && (Swept(agents, now)[id] != a ==> Swept(agents, now)[id].status == Offline)
    ensures Swept(agents, now).Keys == agents.Keys
  {
  }

  /** Sweeping twice at the same moment changes nothing more. */
  lemma SweepIdempotent(agents: map<string, Agent>, now: int)
    ensures Swept(Swept(agents, now), now) == Swept(agents, now)
  {
    var once := Swept(agents, now);
    forall id | id in once
      ensures Swept(once, now)[id] == once[id]
    {
      assert SweptAgent(SweptAgent(agents[id], now), now) == SweptAgent(agents[id], now);
    }
  }

  /** Saving refreshes the last heartbeat, so an agent the sweep has just marked Offline
      counts as online for the next five minutes and is not swept again before that. */
  lemma SweptAgentLooksOnline(agent: Agent, now: int, later: int)
    requires agent.isActive && agent.lastHeartbeat < now - 5 && agent.status != Risk
    requires now <= later <= now + 5
    ensures SweptAgent(agent, now).status == Offline && IsOnline(SweptAgent(agent, now), now)
    ensures SweptAgent(SweptAgent(agent, now), later) == SweptAgent(agent, now)
  {
  }

  // ---- properties of the disconnect ----

  /** A disconnected agent is inactive with status Disconnected, and from then on no
      heartbeat and no sweep changes its record, at any time. */
  lemma DisconnectIsFinal(agents: map<string, Agent>, id: string, now: int, body: HeartbeatBody, remoteAddr: Option<string>, later: int)
    requires id in agents && body.agentId == Some(id)
    ensures var d := DisconnectedAgent(agents[id], now);
      var after := agents[id := d];
      !d.isActive && d.status == Disconnected && d.lastHeartbeat == now
      && AfterHeartbeat(after, body, remoteAddr, later) == after
      && Swept(after, later)[id] == d
  {
  }

  /** An agent created by a heartbeat starts active with the default status Offline,
      which the same heartbeat then replaces. */
  lemma NewAgentsStartActive(id: string, hostname: string, now: int)
    ensures NewAgent(id, hostname, now).status == Offline && NewAgent(id, hostname, now).isActive
  {
  }

  /** Every operation keeps each agent stored under its own id. */
  lemma OperationsKeepKeys(agents: map<string, Agent>, body: HeartbeatBody, remoteAddr: Option<string>, id: string, now: int)
    requires WellKeyed(agents) && body.agentId.Some?
    ensures WellKeyed(AfterHeartbeat(agents, body, remoteAddr, now))
    ensures WellKeyed(Swept(agents, now))
    ensures id in agents ==> WellKeyed(agents[id := DisconnectedAgent(agents[id], now)])
  {
  }
}
