/** Simulation sessions: src/apprentice/simulation/session_manager.py:24-357. */
module SessionManager {
  import opened Common
  import opened ContractValidator
  import opened ProposalLedger

  datatype ObservationKind = ViolationSeen | Learned

  datatype Observation = Observation(kind: ObservationKind, reason: Option<Reason>, turnIndex: nat, roles: seq<string>,
                                     coordEdgeWritten: bool)

  datatype Turn = Turn(index: nat, role: string, message: string, violations: seq<Violation>,
                       observations: seq<Observation>, paused: bool)

  /** The session's own observation list shares its elements with the turns: it holds references. */
  datatype Ref = Ref(turn: nat, position: nat)

  datatype CoordWrite = CoordWrite(agentName: string, field: string, fieldType: string, turnIndex: nat)

  datatype Session = Session(agentType: string, compositionVersion: int, currentRole: Option<string>, turns: seq<Turn>,
                             observations: seq<Ref>, coordWrites: seq<CoordWrite>, closed: bool)

  datatype Summary = Summary(sessionId: Id, agentType: string, compositionVersion: int, coordEdgesWritten: nat,
                             observationsCaptured: nat, violationsTotal: nat, violationsUnresolved: nat)

  datatype SimError =
    | NotFound | NotApproved | SessionClosed | PausedForViolation(unresolved: nat)
    | NoTurns | IndexOutOfRange | BadResolution(error: ResolutionError)

  // ---------- transitions of one session ----------

  function PendingIn(violations: seq<Violation>): nat {
    if violations == [] then 0 else
      PendingIn(violations[..|violations| - 1]) + if violations[|violations| - 1].resolution == Pending then 1 else 0
  }

  /** Looks at the last turn only. */
  function Unresolved(s: Session): nat {
    if s.turns == [] then 0 else PendingIn(s.turns[|s.turns| - 1].violations)
  }

  function Seen(v: Violation, turnIndex: nat): Observation {
    Observation(ViolationSeen, Some(v.reason), turnIndex, [v.fromAgent, v.toAgent], false)
  }

  function ObservationsForTurn(fromAgent: string, toAgent: string, turnIndex: nat, violations: seq<Violation>)
    : seq<Observation>
  {
    if violations == [] then
      [Observation(Learned, None, turnIndex, [fromAgent, toAgent], false)]
    else
      seq(|violations|, i requires 0 <= i < |violations| => Seen(violations[i], turnIndex))
  }

  function Refs(turn: nat, count: nat): seq<Ref> {
    seq(count, k requires 0 <= k < count => Ref(turn, k))
  }

  function Opened(agentType: string, version: int): Session {
    Session(agentType, version, None, [], [], [], false)
  }

  function Submitted(s: Session, agents: seq<AgentContract>, role: string, message: string, toAgent: string,
                     fields: seq<string>)
    : Result<Session, SimError>
  {
    if s.closed then Err(SessionClosed)
    else if Unresolved(s) > 0 then Err(PausedForViolation(Unresolved(s)))
    else
      var violations := Violations(fields, role, toAgent, agents);
      var observations := ObservationsForTurn(role, toAgent, |s.turns|, violations);
      Ok(s.(turns := s.turns + [Turn(|s.turns|, role, message, violations, observations, violations != [])],
            observations := s.observations + Refs(|s.turns|, |observations|),
            currentRole := Some(role)))
  }

  function MarkedOne(o: Observation, fromAgent: string, toAgent: string): Observation {
    if o.kind == ViolationSeen && fromAgent in o.roles && toAgent in o.roles then o.(coordEdgeWritten := true) else o
  }

  function Marked(observations: seq<Observation>, fromAgent: string, toAgent: string): seq<Observation> {
    seq(|observations|, i requires 0 <= i < |observations| => MarkedOne(observations[i], fromAgent, toAgent))
  }

  /** The last turn after one of its violations has been resolved. */
  function ResolvedTurn(turn: Turn, index: nat, written: bool): Turn
    requires index < |turn.violations|
  {
    var v := turn.violations[index];
    var violations := turn.violations[index := v.(resolution := if written then ClarifyContract else MarkEdgeCase)];
    turn.(violations := violations,
          observations := if written then Marked(turn.observations, v.fromAgent, v.toAgent) else turn.observations,
          paused := PendingIn(violations) > 0)
  }

  function Resolving(s: Session, agents: seq<AgentContract>, index: nat, resolution: string,
                     clarification: Option<string>)
    : Result<(Session, seq<AgentContract>, bool), SimError>
  {
    var n := |s.turns|;
    if n == 0 then Err(NoTurns)
    else if index >= |s.turns[n - 1].violations| then Err(IndexOutOfRange)
    else
      var turn := s.turns[n - 1];
      var v := turn.violations[index];
      match Resolved(v, resolution, clarification, agents)
      case Err(e) => Err(BadResolution(e))
      case Ok((updated, written)) =>
        Ok((s.(turns := s.turns[n - 1 := ResolvedTurn(turn, index, written)],
               coordWrites :=
                   if written then s.coordWrites + [CoordWrite(v.toAgent, v.field, clarification.value, turn.index)]
                   else s.coordWrites),
            updated, written))
  }

  function ViolationsTotal(turns: seq<Turn>): nat {
    if turns == [] then 0 else ViolationsTotal(turns[..|turns| - 1]) + |turns[|turns| - 1].violations|
  }

  // ---------- handoff statistics ----------

  type Pair = (string, string)

  datatype Stats = Stats(clean: nat, total: nat)

  function AllObservations(turns: seq<Turn>): seq<Observation> {
    if turns == [] then [] else AllObservations(turns[..|turns| - 1]) + turns[|turns| - 1].observations
  }

  predicate IsOf(o: Observation, p: Pair) {
    |o.roles| == 2 && (o.roles[0], o.roles[1]) == p
  }

  ghost function OfPair(p: Pair): Observation -> bool {
    (o: Observation) => IsOf(o, p)
  }

  ghost function CleanOfPair(p: Pair): Observation -> bool {
    (o: Observation) => IsOf(o, p) && o.kind == Learned
  }

  ghost function StatsOf(observations: seq<Observation>, p: Pair): Stats {
    Stats(|Filter(observations, CleanOfPair(p))|, |Filter(observations, OfPair(p))|)
  }

  /** Exactly the pairs that occur, each with its clean and total counts. */
  ghost predicate IsPairStats(stats: Dict<Pair, Stats>, observations: seq<Observation>) {
    && stats.Valid()
    && forall p {:trigger StatsRight(stats, observations, p)} :: StatsRight(stats, observations, p)
  }

  ghost predicate StatsRight(stats: Dict<Pair, Stats>, observations: seq<Observation>, p: Pair) {
    && stats.GetOr(p, Stats(0, 0)) == StatsOf(observations, p)
    && (p in stats.vals <==> StatsOf(observations, p).total > 0)
  }

  lemma StatsGrow(observations: seq<Observation>, o: Observation, p: Pair)
    ensures StatsOf(observations + [o], p) ==
            Stats(StatsOf(observations, p).clean + (if IsOf(o, p) && o.kind == Learned then 1 else 0),
                  StatsOf(observations, p).total + (if IsOf(o, p) then 1 else 0))
  {
    FilterAppend(observations, o, OfPair(p));
    FilterAppend(observations, o, CleanOfPair(p));
  }

  lemma StatsStep(stats: Dict<Pair, Stats>, observations: seq<Observation>, o: Observation)
    requires IsPairStats(stats, observations)
    ensures |o.roles| != 2 ==> IsPairStats(stats, observations + [o])
    ensures |o.roles| == 2 ==>
              var p := (o.roles[0], o.roles[1]);
              var was := stats.GetOr(p, Stats(0, 0));
              IsPairStats(stats.Set(p, Stats(was.clean + if o.kind == Learned then 1 else 0, was.total + 1)),
                          observations + [o])
  {
    var now := if |o.roles| != 2 then stats else
      var q := (o.roles[0], o.roles[1]);
      var was := stats.GetOr(q, Stats(0, 0));
      stats.Set(q, Stats(was.clean + if o.kind == Learned then 1 else 0, was.total + 1));
    forall p
      ensures StatsRight(now, observations + [o], p)
    {
      assert StatsRight(stats, observations, p);
      StatsGrow(observations, o, p);
    }
  }

  /** session_manager.py:282-290: the observations of one turn, added to the counts of those before. */
  method AddPairStats(stats: Dict<Pair, Stats>, observations: seq<Observation>, ghost before: seq<Observation>)
    returns (stats': Dict<Pair, Stats>)
    requires IsPairStats(stats, before)
    ensures IsPairStats(stats', before + observations)
  {
    stats' := stats;
    ghost var seen := before;
    for k := 0 to |observations|
      invariant IsPairStats(stats', seen) && seen == before + observations[..k]
    {
      var o := observations[k];
      StatsStep(stats', seen, o);
      seen := seen + [o];
      if |o.roles| != 2 {
        continue;
      }
      var pair := (o.roles[0], o.roles[1]);
      var was := stats'.GetOr(pair, Stats(0, 0));
      stats' := stats'.Set(pair, Stats(was.clean + if o.kind == Learned then 1 else 0, was.total + 1));
    }
    assert observations[..|observations|] == observations;
  }

  /** session_manager.py:281-290 */
  method CollectPairStats(turns: seq<Turn>) returns (stats: Dict<Pair, Stats>)
    ensures IsPairStats(stats, AllObservations(turns))
  {
    stats := Dict([], map[]);
    for i := 0 to |turns|
      invariant IsPairStats(stats, AllObservations(turns[..i]))
    {
      stats := AddPairStats(stats, turns[i].observations, AllObservations(turns[..i]));
      assert turns[..i + 1][..i] == turns[..i];
    }
    assert turns[..|turns|] == turns;
  }

  function Confidence(s: Stats): real {
    if s.total > 0 then s.clean as real / s.total as real else 0.0
  }

  ghost function Observed(stats: Dict<Pair, Stats>): Pair -> bool {
    (p: Pair) => p in stats.vals && Confidence(stats.vals[p]) > 0.0
  }

  type Key = (string, string)
  type Handoff = (string, string, string)

  /** The agent roles after one upsert per contract, in order: a later contract of a name wins. */
  function RolesAfter(roles: map<Key, AgentContract>, agentType: string, agents: seq<AgentContract>)
    : map<Key, AgentContract>
  {
    if agents == [] then roles else
      var last := agents[|agents| - 1];
      RolesAfter(roles, agentType, agents[..|agents| - 1])[(agentType, last.agentName) := last]
  }

  /** An upsert changes an edge that exists, creates one between two existing roles, and otherwise
      does nothing. */
  predicate CanWrite(handoffs: map<Handoff, real>, roles: map<Key, AgentContract>, h: Handoff) {
    h in handoffs || ((h.0, h.1) in roles && (h.0, h.2) in roles)
  }

  /** What the handoff edge h is after the pairs in `done` have been upserted. */
  ghost predicate EdgeAfter(was: map<Handoff, real>, now: map<Handoff, real>, roles: map<Key, AgentContract>,
                            agentType: string, stats: Dict<Pair, Stats>, done: seq<Pair>, h: Handoff) {
    if h.0 == agentType && (h.1, h.2) in done && Observed(stats)((h.1, h.2)) && CanWrite(was, roles, h)
    then h in now && now[h] == Round3(Confidence(stats.vals[(h.1, h.2)]))
    else (h in now <==> h in was) && (h in was ==> now[h] == was[h])
  }

  ghost predicate EdgesAfter(was: map<Handoff, real>, now: map<Handoff, real>, roles: map<Key, AgentContract>,
                             agentType: string, stats: Dict<Pair, Stats>, done: seq<Pair>) {
    forall h {:trigger EdgeAfter(was, now, roles, agentType, stats, done, h)} ::
        EdgeAfter(was, now, roles, agentType, stats, done, h)
  }

  lemma EdgeStep(was: map<Handoff, real>, now: map<Handoff, real>, roles: map<Key, AgentContract>,
                 agentType: string, stats: Dict<Pair, Stats>, done: seq<Pair>, p: Pair)
    requires EdgesAfter(was, now, roles, agentType, stats, done) && p !in done && p in stats.vals
    ensures var h := (agentType, p.0, p.1);
            CanWrite(now, roles, h) <==> CanWrite(was, roles, h)
    ensures var h := (agentType, p.0, p.1);
            var written := Observed(stats)(p) && CanWrite(now, roles, h);
            EdgesAfter(was, if written then now[h := Round3(Confidence(stats.vals[p]))] else now,
                       roles, agentType, stats, done + [p])
  {
    var h := (agentType, p.0, p.1);
    var next :=
        if Observed(stats)(p) && CanWrite(now, roles, h) then now[h := Round3(Confidence(stats.vals[p]))] else now;
    assert EdgeAfter(was, now, roles, agentType, stats, done, h);
    forall g
      ensures EdgeAfter(was, next, roles, agentType, stats, done + [p], g)
    {
      assert EdgeAfter(was, now, roles, agentType, stats, done, g);
    }
  }

  /** Sessions in memory, their working contracts, the coordination graph (agent roles by agent type
      and name, handoff confidences by agent type and pair) and the stored summaries. */
  class Manager {
    var sessions: map<Id, Session>
    var sessionAgents: map<Id, seq<AgentContract>>
    var roles: map<Key, AgentContract>
    var handoffs: map<Handoff, real>
    var summaries: seq<Summary>

    ghost predicate Valid()
      reads this
    {
      sessions.Keys == sessionAgents.Keys
    }

    constructor ()
      ensures Valid()
      ensures sessions == map[] && sessionAgents == map[] && roles == map[] && handoffs == map[] && summaries == []
    {
      sessions, sessionAgents, roles, handoffs, summaries := map[], map[], map[], map[], [];
    }

    /** session_manager.py:44-57. `latest` is what get_latest_proposal returned, `id` a fresh session id. */
    method StartSession(agentType: string, latest: Option<Row>, id: Id) returns (r: Result<Session, SimError>)
      requires Valid() && id !in sessions
      modifies this`sessions, this`sessionAgents
      ensures Valid()
      ensures if latest.None? || latest.value.status != Approved then
                r == Err(NotApproved) && sessions == old(sessions) && sessionAgents == old(sessionAgents)
              else
                && r == Ok(Opened(agentType, latest.value.version))
                && sessions == old(sessions)[id := r.value]
                && sessionAgents == old(sessionAgents)[id := latest.value.agents]
    {
      if latest.None? || latest.value.status != Approved {
        return Err(NotApproved);
      }
      var session := Opened(agentType, latest.value.version);
      sessions := sessions[id := session];
      sessionAgents := sessionAgents[id := latest.value.agents];
      return Ok(session);
    }

    /** session_manager.py:67-107 */
    method SubmitTurn(id: Id, role: string, message: string, toAgent: string, fields: seq<string>)
      returns (r: Result<Turn, SimError>)
      requires Valid()
      modifies this`sessions
      ensures Valid()
      ensures id !in old(sessions) ==> r == Err(NotFound) && sessions == old(sessions)
      ensures id in old(sessions) ==>
                match Submitted(old(sessions)[id], sessionAgents[id], role, message, toAgent, fields)
                case Err(e) => r == Err(e) && sessions == old(sessions)
                case Ok(s) => |s.turns| > 0 && r == Ok(s.turns[|s.turns| - 1]) && sessions == old(sessions)[id := s]
    {
      if id !in sessions {
        return Err(NotFound);
      }
      var session := sessions[id];
      if session.closed {
        return Err(SessionClosed);
      }
      var unresolved := Unresolved(session);
      if unresolved > 0 {
        return Err(PausedForViolation(unresolved));
      }
      var violations := ValidateMessage(fields, role, toAgent, sessionAgents[id]);
      var turnIndex := |session.turns|;
      var observations := ObservationsForTurn(role, toAgent, turnIndex, violations);
      var result := Turn(turnIndex, role, message, violations, observations, violations != []);
      sessions := sessions[id := session.(turns := session.turns + [result],
                                          observations := session.observations + Refs(turnIndex, |observations|),
                                          currentRole := Some(role))];
      return Ok(result);
    }

    /** session_manager.py:110-156 */
    method ResolveViolation(id: Id, index: nat, resolution: string, clarification: Option<string>)
      returns (r: Result<bool, SimError>)
      requires Valid()
      modifies this`sessions, this`sessionAgents
      ensures Valid()
      ensures id !in old(sessions) ==>
              r == Err(NotFound) && sessions == old(sessions) && sessionAgents == old(sessionAgents)
      ensures id in old(sessions) ==>
                match Resolving(old(sessions)[id], old(sessionAgents)[id], index, resolution, clarification)
                case Err(e) => r == Err(e) && sessions == old(sessions) && sessionAgents == old(sessionAgents)
                case Ok((s, updated, written)) =>
                  r == Ok(written) && sessions == old(sessions)[id := s]
                  && sessionAgents == old(sessionAgents)[id := updated]
    {
      if id !in sessions {
        return Err(NotFound);
      }
      var session := sessions[id];
      if |session.turns| == 0 {
        return Err(NoTurns);
      }
      var last := |session.turns| - 1;
      var lastTurn := session.turns[last];
      if index >= |lastTurn.violations| {
        return Err(IndexOutOfRange);
      }
      var violation := lastTurn.violations[index];
      var outcome := ApplyResolution(violation, resolution, clarification, sessionAgents[id]);
      if outcome.Err? {
        return Err(BadResolution(outcome.error));
      }
      var (updatedAgents, written) := outcome.value;
      sessionAgents := sessionAgents[id := updatedAgents];
      var chosen := if resolution == "clarify_contract" then ClarifyContract else MarkEdgeCase;
      lastTurn := lastTurn.(violations := lastTurn.violations[index := violation.(resolution := chosen)]);
      if written {
        session :=
            session.(coordWrites :=
                     session.coordWrites
                     + [CoordWrite(violation.toAgent, violation.field, clarification.value, lastTurn.index)]);
        var marked := MarkCoordEdges(lastTurn.observations, violation.fromAgent, violation.toAgent);
        lastTurn := lastTurn.(observations := marked);
      }
      lastTurn := lastTurn.(paused := PendingIn(lastTurn.violations) > 0);
      sessions := sessions[id := session.(turns := session.turns[last := lastTurn])];
      return Ok(written);
    }

    /** session_manager.py:147-153 */
    method MarkCoordEdges(observations: seq<Observation>, fromAgent: string, toAgent: string)
      returns (marked: seq<Observation>)
      ensures marked == Marked(observations, fromAgent, toAgent)
      ensures |marked| == |observations| && forall k :: 0 <= k < |observations| ==>
                var o := observations[k];
                marked[k] == o.(coordEdgeWritten := o.coordEdgeWritten
                                  || (o.kind == ViolationSeen && fromAgent in o.roles && toAgent in o.roles))
    {
      marked := observations;
      for i := 0 to |observations|
        invariant |marked| == |observations|
        invariant forall k :: 0 <= k < |observations| ==>
                    marked[k] == if k < i then MarkedOne(observations[k], fromAgent, toAgent) else observations[k]
      {
        var o := observations[i];
        if o.kind == ViolationSeen && fromAgent in o.roles && toAgent in o.roles {
          marked := marked[i := o.(coordEdgeWritten := true)];
        }
      }
    }

    /** session_manager.py:165-166, 232-277: a role row is updated when its name exists, else created. */
    method UpsertAgentRoles(agentType: string, agents: seq<AgentContract>)
      modifies this`roles
      ensures roles == RolesAfter(old(roles), agentType, agents)
    {
      for i := 0 to |agents|
        invariant roles == RolesAfter(old(roles), agentType, agents[..i])
      {
        assert agents[..i + 1][..i] == agents[..i];
        roles := roles[(agentType, agents[i].agentName) := agents[i]];
      }
      assert agents[..|agents|] == agents;
    }

    /** session_manager.py:302-351 */
    method UpsertHandoffEdge(agentType: string, fromRole: string, toRole: string, confidence: real)
      modifies this`handoffs
      ensures var h := (agentType, fromRole, toRole);
              handoffs == if CanWrite(old(handoffs), roles, h) then old(handoffs)[h := confidence] else old(handoffs)
    {
      if (agentType, fromRole, toRole) in handoffs {
        handoffs := handoffs[(agentType, fromRole, toRole) := confidence];
        return;
      }
      if (agentType, fromRole) in roles && (agentType, toRole) in roles {
        handoffs := handoffs[(agentType, fromRole, toRole) := confidence];
      }
    }

    /** session_manager.py:280-299: every pair with a positive confidence counts, whether or not its
        upsert found both roles. */
    method WriteHandoffEdges(agentType: string, turns: seq<Turn>)
      returns (edgesWritten: nat, ghost stats: Dict<Pair, Stats>)
      modifies this`handoffs
      ensures IsPairStats(stats, AllObservations(turns))
      ensures edgesWritten == |Filter(stats.keys, Observed(stats))|
      ensures EdgesAfter(old(handoffs), handoffs, roles, agentType, stats, stats.keys)
    {
      var pairStats := CollectPairStats(turns);
      stats := pairStats;
      edgesWritten := 0;
      NothingWritten(handoffs, roles, agentType, stats);
      for i := 0 to |pairStats.keys|
        invariant edgesWritten == |Filter(stats.keys[..i], Observed(stats))|
        invariant EdgesAfter(old(handoffs), handoffs, roles, agentType, stats, stats.keys[..i])
      {
        var pair := pairStats.keys[i];
        assert stats.keys[..i + 1] == stats.keys[..i] + [pair];
        FilterAppend(stats.keys[..i], pair, Observed(stats));
        EdgeStep(old(handoffs), handoffs, roles, agentType, stats, stats.keys[..i], pair);
        var confidence := Confidence(pairStats.vals[pair]);
        if confidence <= 0.0 {
          continue;
        }
        UpsertHandoffEdge(agentType, pair.0, pair.1, Round3(confidence));
        edgesWritten := edgesWritten + 1;
      }
      assert stats.keys[..|stats.keys|] == stats.keys;
    }

    /** session_manager.py:159-192 */
    method CloseSession(id: Id) returns (r: Result<Summary, SimError>, ghost stats: Dict<Pair, Stats>)
      requires Valid()
      modifies this`sessions, this`roles, this`handoffs, this`summaries
      ensures Valid()
      ensures r.Err? ==>
              sessions == old(sessions) && roles == old(roles) && handoffs == old(handoffs)
              && summaries == old(summaries)
      ensures id !in old(sessions) ==> r == Err(NotFound)
      ensures id in old(sessions) && old(sessions)[id].closed ==> r == Err(SessionClosed)
      ensures id in old(sessions) && !old(sessions)[id].closed ==>
                var s := old(sessions)[id];
                && IsPairStats(stats, AllObservations(s.turns))
                && r == Ok(Summary(id, s.agentType, s.compositionVersion,
                                   |s.coordWrites| + |Filter(stats.keys, Observed(stats))|,
                                   |s.observations|, ViolationsTotal(s.turns), Unresolved(s)))
                && sessions == old(sessions)[id := s.(closed := true)]
                && summaries == old(summaries) + [r.value]
                && roles == RolesAfter(old(roles), s.agentType, sessionAgents[id])
                && EdgesAfter(old(handoffs), handoffs, roles, s.agentType, stats, stats.keys)
    {
      stats := Dict([], map[]);
      if id !in sessions {
        return Err(NotFound), stats;
      }
      var session := sessions[id];
      if session.closed {
        return Err(SessionClosed), stats;
      }
      var agentType := session.agentType;
      UpsertAgentRoles(agentType, sessionAgents[id]);
      var coordEdgesWritten := |session.coordWrites|;
      var edgesWritten;
      edgesWritten, stats := WriteHandoffEdges(agentType, session.turns);
      coordEdgesWritten := coordEdgesWritten + edgesWritten;
      var violationsTotal := ViolationsTotal(session.turns);
      var violationsUnresolved := Unresolved(session);
      sessions := sessions[id := session.(closed := true)];
      var summary :=
          Summary(id, agentType, session.compositionVersion, coordEdgesWritten, |session.observations|, violationsTotal,
                  violationsUnresolved);
      summaries := summaries + [summary];
      r := Ok(summary);
    }
  }

  lemma NothingWritten(handoffs: map<Handoff, real>, roles: map<Key, AgentContract>, agentType: string,
                       stats: Dict<Pair, Stats>)
    ensures EdgesAfter(handoffs, handoffs, roles, agentType, stats, stats.keys[..0])
  {
    forall h
      ensures EdgeAfter(handoffs, handoffs, roles, agentType, stats, stats.keys[..0], h)
    {
    }
  }
}
