/** The requests that reach the ledger and the sessions: src/api/routes/proposals.py:31-69 and
    src/api/routes/simulations.py:20-79. Each is one step of the world that ApprovedSessions is about. */
module Requests {
  import opened Common
  import opened ContractValidator
  import opened ProposalLedger
  import opened SessionManager
  import opened ApprovedSessions
  import L = LedgerTheorems
  import S = SessionTheorems

  ghost function StatesOf(sessions: map<Id, Session>, agents: map<Id, seq<AgentContract>>): map<Id, S.State>
    requires sessions.Keys == agents.Keys
  {
    map id | id in sessions :: S.State(sessions[id], agents[id])
  }

  lemma StatesGrow(sessions: map<Id, Session>, agents: map<Id, seq<AgentContract>>, id: Id, s: Session,
                   a: seq<AgentContract>)
    requires sessions.Keys == agents.Keys
    ensures StatesOf(sessions[id := s], agents[id := a]) == StatesOf(sessions, agents)[id := S.State(s, a)]
  {
  }

  /** Where only the entry of id may have changed, so has only its state. */
  lemma StatesUpdated(was: map<Id, Session>, now: map<Id, Session>, wasAgents: map<Id, seq<AgentContract>>,
                      nowAgents: map<Id, seq<AgentContract>>, id: Id)
    requires was.Keys == wasAgents.Keys && now.Keys == nowAgents.Keys
    requires if id in now then now == was[id := now[id]] else now == was
    requires if id in now then nowAgents == wasAgents[id := nowAgents[id]] else nowAgents == wasAgents
    ensures id in now ==>
              StatesOf(now, nowAgents) == StatesOf(was, wasAgents)[id := S.State(now[id], nowAgents[id])]
    ensures id !in now ==> StatesOf(now, nowAgents) == StatesOf(was, wasAgents)
  {
  }

  /** The table, the sessions and the summaries the two objects hold. */
  ghost function WorldOf(ledger: Ledger, manager: Manager): World
    reads ledger, manager
    requires manager.Valid()
  {
    World(ledger.rows, StatesOf(manager.sessions, manager.sessionAgents), manager.summaries)
  }

  /** proposals.py:31-62, and generation. */
  method ReviewProposal(ledger: Ledger, op: L.Op) returns (r: Result<Row, LedgerError>)
    modifies ledger
    ensures ledger.rows == L.Step(old(ledger.rows), op)
  {
    match op
    case Generate(agentType, outcome, now) => r := ledger.PersistProposal(agentType, outcome, now);
    case Approve(agentType, expert, now) => r := ledger.ApproveProposal(agentType, expert, now);
    case Edit(agentType, expert, edits, now) => r := ledger.EditProposal(agentType, expert, edits, now);
    case Reject(agentType, reason, outcome, now) => r := ledger.RejectProposal(agentType, reason, outcome, now);
  }

  /** simulations.py:20-25. The id of the session is fresh. */
  method CreateSession(ledger: Ledger, manager: Manager, agentType: string, id: Id)
    returns (r: Result<Session, SimError>)
    requires manager.Valid() && id !in manager.sessions
    modifies manager
    ensures manager.Valid()
    ensures WorldOf(ledger, manager) == Step(old(WorldOf(ledger, manager)), Start(agentType, id))
  {
    var latest := ledger.GetLatestProposal(agentType);
    r := manager.StartSession(agentType, latest, id);
    if r.Ok? {
      StatesGrow(old(manager.sessions), old(manager.sessionAgents), id, r.value, latest.value.agents);
    }
  }

  /** simulations.py:36-55 */
  method PostTurn(ledger: Ledger, manager: Manager, id: Id, role: string, message: string, toAgent: string,
                  fields: seq<string>)
    returns (r: Result<Turn, SimError>)
    requires manager.Valid()
    modifies manager
    ensures manager.Valid()
    ensures WorldOf(ledger, manager) ==
            Step(old(WorldOf(ledger, manager)), InSession(id, S.Submit(role, message, toAgent, fields)))
  {
    r := manager.SubmitTurn(id, role, message, toAgent, fields);
    StatesUpdated(old(manager.sessions), manager.sessions, old(manager.sessionAgents), manager.sessionAgents, id);
  }

  /** simulations.py:57-69 */
  method ResolveTurnViolation(ledger: Ledger, manager: Manager, id: Id, index: nat, resolution: string,
                              clarification: Option<string>)
    returns (r: Result<bool, SimError>)
    requires manager.Valid()
    modifies manager
    ensures manager.Valid()
    ensures WorldOf(ledger, manager) ==
            Step(old(WorldOf(ledger, manager)), InSession(id, S.Resolve(index, resolution, clarification)))
  {
    r := manager.ResolveViolation(id, index, resolution, clarification);
    StatesUpdated(old(manager.sessions), manager.sessions, old(manager.sessionAgents), manager.sessionAgents, id);
  }

  /** Closing stores the summary that the session determines, and answers with it. */
  method CloseOnce(manager: Manager, id: Id) returns (r: Result<Summary, SimError>)
    requires manager.Valid()
    modifies manager
    ensures manager.Valid() && manager.sessionAgents == old(manager.sessionAgents)
    ensures r.Ok? <==> id in old(manager.sessions) && !old(manager.sessions)[id].closed
    ensures r.Err? ==> manager.sessions == old(manager.sessions) && manager.summaries == old(manager.summaries)
    ensures r.Ok? ==>
              var s := old(manager.sessions)[id];
              && manager.sessions == old(manager.sessions)[id := s.(closed := true)]
              && r.value == S.Summarised(id, s)
              && manager.summaries == old(manager.summaries) + [r.value]
  {
    ghost var stats;
    r, stats := manager.CloseSession(id);
    if r.Ok? {
      S.EdgesAreCleanPairs(stats, AllObservations(old(manager.sessions)[id].turns));
    }
  }

  /** simulations.py:72-79 */
  method Close(ledger: Ledger, manager: Manager, id: Id) returns (r: Result<Summary, SimError>)
    requires manager.Valid()
    modifies manager
    ensures manager.Valid()
    ensures WorldOf(ledger, manager) == Step(old(WorldOf(ledger, manager)), InSession(id, S.Close))
  {
    r := CloseOnce(manager, id);
    StatesUpdated(old(manager.sessions), manager.sessions, old(manager.sessionAgents), manager.sessionAgents, id);
  }

  /** Whatever the request, the objects go through one step of the world and keep its invariant. */
  method Serve(ledger: Ledger, manager: Manager, event: Event)
    requires manager.Valid() && (event.Start? ==> event.id !in manager.sessions)
    modifies ledger, manager
    ensures manager.Valid()
    ensures WorldOf(ledger, manager) == Step(old(WorldOf(ledger, manager)), event)
    ensures old(WorldOk(WorldOf(ledger, manager))) ==> WorldOk(WorldOf(ledger, manager))
  {
    ghost var before := WorldOf(ledger, manager);
    match event {
      case Review(op) =>
        var r := ReviewProposal(ledger, op);
      case Start(agentType, id) =>
        var r := CreateSession(ledger, manager, agentType, id);
      case InSession(id, Submit(role, message, toAgent, fields)) =>
        var r := PostTurn(ledger, manager, id, role, message, toAgent, fields);
      case InSession(id, Resolve(index, resolution, clarification)) =>
        var r := ResolveTurnViolation(ledger, manager, id, index, resolution, clarification);
      case InSession(id, Close) =>
        var r := Close(ledger, manager, id);
    }
    if WorldOk(before) {
      StepKeeps(before, event);
    }
  }
}
