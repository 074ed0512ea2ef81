/** What every run of a simulation session keeps. */
module SessionTheorems {
  import opened Common
  import opened ContractValidator
  import opened SessionManager

  /** A session with its working contracts. */
  datatype State = State(session: Session, agents: seq<AgentContract>)

  datatype Event =
    | Submit(role: string, message: string, toAgent: string, fields: seq<string>)
    | Resolve(index: nat, resolution: string, clarification: Option<string>)
    | Close

  /** A request that raises changes nothing. */
  function Step(st: State, event: Event): State {
    match event
    case Submit(role, message, toAgent, fields) =>
      var r := Submitted(st.session, st.agents, role, message, toAgent, fields);
      if r.Ok? then st.(session := r.value) else st
    case Resolve(index, resolution, clarification) =>
      var r := Resolving(st.session, st.agents, index, resolution, clarification);
      if r.Ok? then State(r.value.0, r.value.1) else st
    case Close =>
      st.(session := st.session.(closed := true))
  }

  function Run(st: State, events: seq<Event>): State
    decreases |events|
  {
    if events == [] then st else Run(Step(st, events[0]), events[1..])
  }

  // ---------- the invariant ----------

  /** A clean turn carries one learned observation; any other carries one observation per violation,
      in order, between the turn's role and one receiver. */
  ghost predicate Shaped(t: Turn) {
    if t.violations == [] then
      && |t.observations| == 1 && t.observations[0].kind == Learned && t.observations[0].turnIndex == t.index
      && |t.observations[0].roles| == 2 && t.observations[0].roles[0] == t.role
    else
      && |t.observations| == |t.violations|
      && forall k :: 0 <= k < |t.violations| ==>
           && t.observations[k].kind == ViolationSeen && t.observations[k].turnIndex == t.index
           && t.observations[k].reason == Some(t.violations[k].reason)
           && t.observations[k].roles == [t.violations[k].fromAgent, t.violations[k].toAgent]
           && t.violations[k].fromAgent == t.role && t.violations[k].toAgent == t.violations[0].toAgent
  }

  ghost predicate TurnOk(turns: seq<Turn>, i: nat)
    requires i < |turns|
  {
    && turns[i].index == i
    && Shaped(turns[i])
    && (turns[i].paused <==> PendingIn(turns[i].violations) > 0)
    && (i < |turns| - 1 ==> PendingIn(turns[i].violations) == 0)
  }

  ghost predicate TurnsOk(turns: seq<Turn>) {
    forall i {:trigger TurnOk(turns, i)} :: 0 <= i < |turns| ==> TurnOk(turns, i)
  }

  function AllRefs(turns: seq<Turn>): seq<Ref> {
    if turns == [] then [] else
      var n := |turns| - 1;
      AllRefs(turns[..n]) + Refs(n, |turns[n].observations|)
  }

  /** The contracts after the recorded clarifications, replayed in order. */
  function Replay(start: seq<AgentContract>, writes: seq<CoordWrite>): seq<AgentContract> {
    if writes == [] then start else
      var w := writes[|writes| - 1];
      Clarified(Replay(start, writes[..|writes| - 1]), w.agentName, w.field, w.fieldType)
  }

  ghost predicate Inv(st: State, start: seq<AgentContract>) {
    && TurnsOk(st.session.turns)
    && st.session.observations == AllRefs(st.session.turns)
    && st.agents == Replay(start, st.session.coordWrites)
  }

  lemma {:induction false} PendingAtMost(violations: seq<Violation>)
    ensures PendingIn(violations) <= |violations|
    ensures PendingIn(violations) == 0 <==> forall v :: v in violations ==> v.resolution != Pending
  {
    if violations != [] {
      var n := |violations| - 1;
      PendingAtMost(violations[..n]);
      assert violations == violations[..n] + [violations[n]];
    }
  }

  lemma {:induction false} FreshIsPending(violations: seq<Violation>)
    requires forall v :: v in violations ==> v.resolution == Pending
    ensures PendingIn(violations) == |violations|
  {
    if violations != [] {
      var n := |violations| - 1;
      assert violations == violations[..n] + [violations[n]];
      FreshIsPending(violations[..n]);
    }
  }

  lemma NewTurnShaped(index: nat, role: string, message: string, toAgent: string, violations: seq<Violation>)
    requires forall v :: v in violations ==> v.fromAgent == role && v.toAgent == toAgent
    ensures Shaped(Turn(index, role, message, violations, ObservationsForTurn(role, toAgent, index, violations),
                        violations != []))
  {
    forall k | 0 <= k < |violations|
      ensures violations[k].fromAgent == role && violations[k].toAgent == toAgent
    {
      assert violations[k] in violations;
    }
  }

  lemma NewTurnOk(turns: seq<Turn>, agents: seq<AgentContract>, role: string, message: string, toAgent: string,
                  fields: seq<string>)
    requires TurnsOk(turns) && (turns == [] || PendingIn(turns[|turns| - 1].violations) == 0)
    ensures var violations := Violations(fields, role, toAgent, agents);
            var t :=
                Turn(|turns|, role, message, violations, ObservationsForTurn(role, toAgent, |turns|, violations),
                     violations != []);
            TurnsOk(turns + [t]) && PendingIn(violations) == |violations|
  {
    var violations := Violations(fields, role, toAgent, agents);
    var t :=
        Turn(|turns|, role, message, violations, ObservationsForTurn(role, toAgent, |turns|, violations),
             violations != []);
    ViolationsAreExact(fields, role, toAgent, agents);
    FreshIsPending(violations);
    NewTurnShaped(|turns|, role, message, toAgent, violations);
    forall i | 0 <= i < |turns| + 1
      ensures TurnOk(turns + [t], i)
    {
      if i < |turns| {
        assert TurnOk(turns, i);
      }
    }
  }

  lemma SubmitKeeps(st: State, start: seq<AgentContract>, role: string, message: string, toAgent: string,
                    fields: seq<string>)
    requires Inv(st, start)
    ensures Inv(Step(st, Submit(role, message, toAgent, fields)), start)
  {
    var s := st.session;
    var r := Submitted(s, st.agents, role, message, toAgent, fields);
    if r.Ok? {
      NewTurnOk(s.turns, st.agents, role, message, toAgent, fields);
      assert r.value.turns[..|s.turns|] == s.turns;
    }
  }

  /** What an accepted message leaves behind: one new turn of the sender, with the violations of the
      message against the working contracts, and one observation per violation, or a single learned one
      without any, each between the sender and the addressed receiver. */
  lemma SubmitRecords(s: Session, agents: seq<AgentContract>, role: string, message: string, toAgent: string,
                      fields: seq<string>)
    requires Submitted(s, agents, role, message, toAgent, fields).Ok?
    ensures var later := Submitted(s, agents, role, message, toAgent, fields).value;
            var n := |s.turns|;
            && |later.turns| == n + 1 && later.turns[..n] == s.turns
            && later == s.(turns := later.turns, observations := later.observations, currentRole := Some(role))
            && |later.observations| == |s.observations| + |later.turns[n].observations|
            && later.turns[n].index == n && later.turns[n].role == role && later.turns[n].message == message
            && (later.turns[n].paused <==> later.turns[n].violations != [])
            && later.turns[n].violations == Violations(fields, role, toAgent, agents)
            && RecordedBetween(later.turns[n], role, toAgent)
  {
    ViolationsAreExact(fields, role, toAgent, agents);
    var t := Submitted(s, agents, role, message, toAgent, fields).value.turns[|s.turns|];
    forall k | 0 <= k < |t.violations|
      ensures t.violations[k].fromAgent == role && t.violations[k].toAgent == toAgent
    {
      assert t.violations[k] in t.violations;
    }
  }

  ghost predicate RecordedBetween(t: Turn, role: string, toAgent: string) {
    && |t.observations| == (if t.violations == [] then 1 else |t.violations|)
    && forall k :: 0 <= k < |t.observations| ==>
         && t.observations[k].turnIndex == t.index && t.observations[k].roles == [role, toAgent]
         && !t.observations[k].coordEdgeWritten
         && (t.violations == [] ==> t.observations[k].kind == Learned && t.observations[k].reason == None)
         && (t.violations != [] ==>
               && t.observations[k].kind == ViolationSeen
               && t.observations[k].reason == Some(t.violations[k].reason))
  }

  lemma ResolvedTurnShaped(t: Turn, index: nat, written: bool)
    requires Shaped(t) && index < |t.violations|
    ensures Shaped(ResolvedTurn(t, index, written))
    ensures |ResolvedTurn(t, index, written).observations| == |t.observations|
  {
  }

  lemma ReplaceLastKeeps(turns: seq<Turn>, t: Turn)
    requires TurnsOk(turns) && turns != []
    requires t.index == |turns| - 1 && Shaped(t) && (t.paused <==> PendingIn(t.violations) > 0)
    requires |t.observations| == |turns[|turns| - 1].observations|
    ensures TurnsOk(turns[|turns| - 1 := t])
    ensures AllRefs(turns[|turns| - 1 := t]) == AllRefs(turns)
  {
    var n := |turns| - 1;
    var turns' := turns[n := t];
    forall i | 0 <= i < |turns'|
      ensures TurnOk(turns', i)
    {
      assert TurnOk(turns, i);
    }
    assert turns'[..n] == turns[..n];
  }

  lemma ResolveKeeps(st: State, start: seq<AgentContract>, index: nat, resolution: string,
                     clarification: Option<string>)
    requires Inv(st, start)
    ensures Inv(Step(st, Resolve(index, resolution, clarification)), start)
  {
    var s := st.session;
    var r := Resolving(s, st.agents, index, resolution, clarification);
    if r.Ok? {
      var n := |s.turns| - 1;
      assert TurnOk(s.turns, n);
      ResolvedTurnShaped(s.turns[n], index, r.value.2);
      ReplaceLastKeeps(s.turns, ResolvedTurn(s.turns[n], index, r.value.2));
      ResolveReplays(s, st.agents, start, index, resolution, clarification);
    }
  }

  lemma ResolveReplays(s: Session, agents: seq<AgentContract>, start: seq<AgentContract>, index: nat,
                       resolution: string, clarification: Option<string>)
    requires agents == Replay(start, s.coordWrites)
    requires Resolving(s, agents, index, resolution, clarification).Ok?
    ensures var (later, updated, _) := Resolving(s, agents, index, resolution, clarification).value;
            updated == Replay(start, later.coordWrites)
  {
    var (later, _, written) := Resolving(s, agents, index, resolution, clarification).value;
    if written {
      assert later.coordWrites[..|later.coordWrites| - 1] == s.coordWrites;
    }
  }

  lemma StepKeeps(st: State, start: seq<AgentContract>, event: Event)
    requires Inv(st, start)
    ensures Inv(Step(st, event), start)
    ensures Step(st, event).session.agentType == st.session.agentType
    ensures Step(st, event).session.compositionVersion == st.session.compositionVersion
  {
    match event
    case Submit(role, message, toAgent, fields) => SubmitKeeps(st, start, role, message, toAgent, fields);
    case Resolve(index, resolution, clarification) => ResolveKeeps(st, start, index, resolution, clarification);
    case Close =>
  }

  lemma OpenedIsOk(agentType: string, version: int, start: seq<AgentContract>)
    ensures Inv(State(Opened(agentType, version), start), start)
  {
  }

  /** Every reachable state of a session satisfies the invariant. */
  lemma {:induction false} RunKeeps(st: State, start: seq<AgentContract>, events: seq<Event>)
    requires Inv(st, start)
    ensures Inv(Run(st, events), start)
    decreases |events|
  {
    if events != [] {
      StepKeeps(st, start, events[0]);
      RunKeeps(Step(st, events[0]), start, events[1..]);
    }
  }

  // ---------- pausing ----------

  function AllPending(turns: seq<Turn>): nat {
    if turns == [] then 0 else AllPending(turns[..|turns| - 1]) + PendingIn(turns[|turns| - 1].violations)
  }

  /** Resolving a violation never makes another one pending. */
  lemma {:induction false} ResolvingLowersPending(violations: seq<Violation>, index: nat, v: Violation)
    requires index < |violations| && v.resolution != Pending
    ensures PendingIn(violations[index := v]) ==
            PendingIn(violations) - if violations[index].resolution == Pending then 1 else 0
  {
    var n := |violations| - 1;
    if index < n {
      ResolvingLowersPending(violations[..n], index, v);
      assert violations[index := v][..n] == violations[..n][index := v];
    } else {
      assert violations[index := v][..n] == violations[..n];
      PendingAtMost(violations);
    }
  }

  lemma ResolvingShrinks(turns: seq<Turn>, index: nat, written: bool)
    requires turns != [] && index < |turns[|turns| - 1].violations|
    ensures var n := |turns| - 1;
            AllPending(turns[n := ResolvedTurn(turns[n], index, written)]) <= AllPending(turns)
  {
    var n := |turns| - 1;
    var v := turns[n].violations[index];
    ResolvingLowersPending(turns[n].violations, index,
                           v.(resolution := if written then ClarifyContract else MarkEdgeCase));
    assert turns[n := ResolvedTurn(turns[n], index, written)][..n] == turns[..n];
  }

  /** A closed session takes no more messages, and what is pending in it can only shrink. */
  lemma ClosedOnlyShrinks(st: State, start: seq<AgentContract>, event: Event)
    requires Inv(st, start) && st.session.closed
    ensures Step(st, event).session.closed
    ensures AllPending(Step(st, event).session.turns) <= AllPending(st.session.turns)
  {
    match event
    case Submit(_, _, _, _) =>
    case Resolve(index, resolution, clarification) =>
      var r := Resolving(st.session, st.agents, index, resolution, clarification);
      if r.Ok? {
        ResolvingShrinks(st.session.turns, index, r.value.2);
      }
    case Close =>
  }

  lemma {:induction false} NothingPending(turns: seq<Turn>)
    requires forall i :: 0 <= i < |turns| ==> PendingIn(turns[i].violations) == 0
    ensures AllPending(turns) == 0
  {
    if turns != [] {
      NothingPending(turns[..|turns| - 1]);
    }
  }

  /** Looking at the last turn is looking at the whole history: the count the pause check and the
      closing summary use is the number of pending violations anywhere. */
  lemma LastTurnCountsAll(st: State, start: seq<AgentContract>)
    requires Inv(st, start)
    ensures Unresolved(st.session) == AllPending(st.session.turns)
    ensures Unresolved(st.session) == 0 <==>
            forall t, v :: t in st.session.turns && v in t.violations ==> v.resolution != Pending
  {
    var turns := st.session.turns;
    if turns != [] {
      var n := |turns| - 1;
      assert TurnOk(turns, n);
      PendingAtMost(turns[n].violations);
      forall i | 0 <= i < n
        ensures PendingIn(turns[..n][i].violations) == 0
        ensures forall v :: v in turns[i].violations ==> v.resolution != Pending
      {
        assert TurnOk(turns, i);
        PendingAtMost(turns[i].violations);
      }
      NothingPending(turns[..n]);
      if Unresolved(st.session) == 0 {
        forall t, v | t in turns && v in t.violations
          ensures v.resolution != Pending
        {
          var i :| 0 <= i < |turns| && turns[i] == t;
        }
      } else {
        assert turns[n] in turns;
      }
    }
  }

  /** A message is refused exactly when the session is closed or a violation is pending somewhere. */
  lemma SubmitIsGated(st: State, start: seq<AgentContract>, role: string, message: string, toAgent: string,
                      fields: seq<string>)
    requires Inv(st, start)
    ensures Submitted(st.session, st.agents, role, message, toAgent, fields).Err? <==>
            st.session.closed || AllPending(st.session.turns) > 0
  {
    LastTurnCountsAll(st, start);
  }

  /** Which requests to resolve are accepted, and what each other one is answered with. */
  lemma ResolvingIsChecked(s: Session, agents: seq<AgentContract>, index: nat, resolution: string,
                           clarification: Option<string>)
    ensures var r := Resolving(s, agents, index, resolution, clarification);
            var found := |s.turns| > 0 && index < |s.turns[|s.turns| - 1].violations|;
            var missing := clarification == None || clarification == Some("");
            && (r == Err(NoTurns) <==> s.turns == [])
            && (r == Err(IndexOutOfRange) <==> s.turns != [] && !found)
            && (r.Ok? <==> found && (resolution == "mark_edge_case" || (resolution == "clarify_contract" && !missing)))
  {
    if |s.turns| > 0 && index < |s.turns[|s.turns| - 1].violations| {
      ResolutionIsChecked(s.turns[|s.turns| - 1].violations[index], resolution, clarification, agents);
    }
  }

  /** A resolution settles the addressed violation of the last turn and no other, with the resolution
      that was asked for. A clarification is recorded for the receiver of the violation, removes exactly
      that receiver's violations of that field from every later message, and flags every observation of
      the turn, since all of them lie between one sender and one receiver. Marking an edge case changes
      no contract and no observation. */
  lemma ResolutionEffects(st: State, start: seq<AgentContract>, index: nat, resolution: string,
                          clarification: Option<string>)
    requires Inv(st, start) && Resolving(st.session, st.agents, index, resolution, clarification).Ok?
    ensures var (s, agents, written) := Resolving(st.session, st.agents, index, resolution, clarification).value;
            var n := |st.session.turns| - 1;
            && n >= 0 && |s.turns| == n + 1 && s.turns[..n] == st.session.turns[..n]
            && s == st.session.(turns := s.turns, coordWrites := s.coordWrites)
            && (written <==> resolution == "clarify_contract")
            && Settled(st.session.turns[n], s.turns[n], index, written)
            && (!written ==> agents == st.agents && s.coordWrites == st.session.coordWrites)
            && (written ==>
                  var v := st.session.turns[n].violations[index];
                  && clarification.Some?
                  && s.coordWrites == st.session.coordWrites + [CoordWrite(v.toAgent, v.field, clarification.value, n)]
                  && forall fields, a, b ::
                       Violations(fields, a, b, agents) ==
                       Filter(Violations(fields, a, b, st.agents), SurvivorTest(v.toAgent, v.field)))
  {
    var (s, agents, written) := Resolving(st.session, st.agents, index, resolution, clarification).value;
    var n := |st.session.turns| - 1;
    var t := st.session.turns[n];
    assert TurnOk(st.session.turns, n);
    ResolvingIsChecked(st.session, st.agents, index, resolution, clarification);
    ResolutionIsChecked(t.violations[index], resolution, clarification, st.agents);
    ClarificationTakesEffect(t.violations[index], resolution, clarification, st.agents);
    ResolvedIsSettled(t, index, written);
  }

  /** Of the turn only the addressed violation, the flags of its observations and the pause may change. */
  ghost predicate Settled(t: Turn, later: Turn, index: nat, written: bool) {
    && index < |t.violations|
    && later == t.(violations := later.violations, observations := later.observations, paused := later.paused)
    && later.violations ==
       t.violations[index := t.violations[index].(resolution := if written then ClarifyContract else MarkEdgeCase)]
    && (later.paused <==> exists v :: v in later.violations && v.resolution == Pending)
    && |later.observations| == |t.observations|
    && forall k :: 0 <= k < |t.observations| ==>
         later.observations[k] ==
         if written then t.observations[k].(coordEdgeWritten := true) else t.observations[k]
  }

  lemma ResolvedIsSettled(t: Turn, index: nat, written: bool)
    requires Shaped(t) && index < |t.violations|
    ensures Settled(t, ResolvedTurn(t, index, written), index, written)
  {
    var later := ResolvedTurn(t, index, written);
    PendingAtMost(later.violations);
    forall k | 0 <= k < |t.observations|
      ensures written ==> later.observations[k] == t.observations[k].(coordEdgeWritten := true)
    {
      assert t.observations[k].roles == [t.violations[k].fromAgent, t.violations[k].toAgent];
    }
  }

  // ---------- contracts ----------

  function SchemaAfter(schema: map<string, string>, writes: seq<CoordWrite>, name: string): map<string, string> {
    if writes == [] then schema else
      var w := writes[|writes| - 1];
      var before := SchemaAfter(schema, writes[..|writes| - 1], name);
      if w.agentName == name then before[w.field := w.fieldType] else before
  }

  ghost predicate Writes(writes: seq<CoordWrite>, name: string, field: string) {
    exists i :: 0 <= i < |writes| && writes[i].agentName == name && writes[i].field == field
  }

  /** Input schemas grow by exactly the clarified fields. */
  lemma {:induction false} SchemaGrowsByWrites(schema: map<string, string>, writes: seq<CoordWrite>, name: string,
                                               field: string)
    ensures field in SchemaAfter(schema, writes, name) <==> field in schema || Writes(writes, name, field)
    ensures field in schema && !Writes(writes, name, field) ==>
            SchemaAfter(schema, writes, name)[field] == schema[field]
  {
    if writes != [] {
      var n := |writes| - 1;
      SchemaGrowsByWrites(schema, writes[..n], name, field);
      if Writes(writes[..n], name, field) {
        var i :| 0 <= i < n && writes[..n][i].agentName == name && writes[..n][i].field == field;
        assert writes[i].agentName == name && writes[i].field == field;
      }
      if Writes(writes, name, field) && !(writes[n].agentName == name && writes[n].field == field) {
        var i :| 0 <= i < |writes| && writes[i].agentName == name && writes[i].field == field;
        assert writes[..n][i] == writes[i];
      }
    }
  }

  /** Replaying clarifications changes nothing but input schemas: names, outputs, prohibitions, the
      order and the number of contracts stay as approved. */
  lemma {:induction false} ReplayKeepsContracts(start: seq<AgentContract>, writes: seq<CoordWrite>)
    ensures |Replay(start, writes)| == |start|
    ensures forall i :: 0 <= i < |start| ==>
              Replay(start, writes)[i] ==
                  start[i].(inputSchema := SchemaAfter(start[i].inputSchema, writes, start[i].agentName))
  {
    if writes != [] {
      ReplayKeepsContracts(start, writes[..|writes| - 1]);
    }
  }

  lemma {:induction false} ReceiverInStep(start: seq<AgentContract>, now: seq<AgentContract>, name: string)
    requires |start| == |now|
    requires forall i :: 0 <= i < |start| ==> now[i] == start[i].(inputSchema := now[i].inputSchema)
    ensures Receiver(start, name).None? <==> Receiver(now, name).None?
    ensures Receiver(start, name).Some? ==>
              exists i ::
                  0 <= i < |start| && Receiver(start, name) == Some(start[i]) && Receiver(now, name) == Some(now[i])
  {
    if start != [] && start[0].agentName != name {
      ReceiverInStep(start[1..], now[1..], name);
      if Receiver(start, name).Some? {
        var i :| 0 <= i < |start| - 1 && Receiver(start[1..], name) == Some(start[1..][i])
                 && Receiver(now[1..], name) == Some(now[1..][i]);
        assert start[1..][i] == start[i + 1] && now[1..][i] == now[i + 1];
      }
    }
  }

  /** A prohibition in the approved composition still binds the working contracts. */
  lemma ProhibitionsPersist(start: seq<AgentContract>, writes: seq<CoordWrite>, toAgent: string, field: string)
    requires Receiver(start, toAgent).Some? && field in Receiver(start, toAgent).value.prohibitedFields
    ensures Judge(Receiver(Replay(start, writes), toAgent), field) == Some(Prohibited)
  {
    ReplayKeepsContracts(start, writes);
    ReceiverInStep(start, Replay(start, writes), toAgent);
  }

  /** A field the approved composition prohibits for a receiver violates and pauses in every reachable
      state that takes messages, whatever was clarified before. */
  lemma ProhibitedAlwaysPauses(st: State, start: seq<AgentContract>, role: string, message: string, toAgent: string,
                               fields: seq<string>, field: string)
    requires Inv(st, start)
    requires Receiver(start, toAgent).Some? && field in Receiver(start, toAgent).value.prohibitedFields
             && field in fields
    requires Submitted(st.session, st.agents, role, message, toAgent, fields).Ok?
    ensures var s := Submitted(st.session, st.agents, role, message, toAgent, fields).value;
            && |s.turns| == |st.session.turns| + 1
            && Violation(field, Prohibited, role, toAgent, Pending) in s.turns[|st.session.turns|].violations
            && s.turns[|st.session.turns|].paused
            && Unresolved(s) > 0
  {
    ProhibitionsPersist(start, st.session.coordWrites, toAgent, field);
    var violations := Violations(fields, role, toAgent, st.agents);
    ViolationsAreExact(fields, role, toAgent, st.agents);
    var v := Violation(field, Prohibited, role, toAgent, Pending);
    assert IsViolation(v, fields, role, toAgent, st.agents);
    assert v in violations;
    PendingAtMost(violations);
  }

  // ---------- closing ----------

  function CleanTurns(turns: seq<Turn>): nat {
    if turns == [] then 0 else CleanTurns(turns[..|turns| - 1]) + if turns[|turns| - 1].violations == [] then 1 else 0
  }

  /** One observation per clean turn and one per violation. */
  lemma {:induction false} ObservationsConserved(turns: seq<Turn>)
    requires forall i :: 0 <= i < |turns| ==> Shaped(turns[i])
    ensures |AllRefs(turns)| == |AllObservations(turns)| == CleanTurns(turns) + ViolationsTotal(turns)
    ensures forall o :: o in AllObservations(turns) ==> |o.roles| == 2
  {
    if turns != [] {
      var n := |turns| - 1;
      ObservationsConserved(turns[..n]);
      assert Shaped(turns[n]);
    }
  }

  function SumOf(keys: seq<Pair>, observations: seq<Observation>): nat
  {
    if keys == [] then 0 else SumOf(keys[1..], observations) + CountOf(observations, keys[0])
  }

  function CountOf(observations: seq<Observation>, p: Pair): nat {
    if observations == [] then 0 else
      CountOf(observations[..|observations| - 1], p) + if IsOf(observations[|observations| - 1], p) then 1 else 0
  }

  lemma {:induction false} CountIsTotal(observations: seq<Observation>, p: Pair)
    ensures CountOf(observations, p) == StatsOf(observations, p).total
  {
    if observations != [] {
      CountIsTotal(observations[..|observations| - 1], p);
    }
  }

  lemma {:induction false} SumGrows(keys: seq<Pair>, observations: seq<Observation>, o: Observation)
    requires Distinct(keys) && |o.roles| == 2
    ensures SumOf(keys, observations + [o]) ==
            SumOf(keys, observations) + if (o.roles[0], o.roles[1]) in keys then 1 else 0
  {
    if keys != [] {
      SumGrows(keys[1..], observations, o);
      assert (observations + [o])[..|observations|] == observations;
      assert keys == [keys[0]] + keys[1..];
      assert keys[0] !in keys[1..];
    }
  }

  lemma {:induction false} SumOfNone(keys: seq<Pair>)
    ensures SumOf(keys, []) == 0
  {
    if keys != [] {
      SumOfNone(keys[1..]);
    }
  }

  lemma {:induction false} SumCoversAll(keys: seq<Pair>, observations: seq<Observation>)
    requires Distinct(keys)
    requires forall o :: o in observations ==> |o.roles| == 2 && (o.roles[0], o.roles[1]) in keys
    ensures SumOf(keys, observations) == |observations|
  {
    if observations == [] {
      SumOfNone(keys);
    } else {
      var n := |observations| - 1;
      SumCoversAll(keys, observations[..n]);
      SumGrows(keys, observations[..n], observations[n]);
      assert observations == observations[..n] + [observations[n]];
    }
  }

  function SumTotals(stats: Dict<Pair, Stats>, keys: seq<Pair>): nat {
    if keys == [] then 0 else SumTotals(stats, keys[1..]) + stats.GetOr(keys[0], Stats(0, 0)).total
  }

  lemma {:induction false} SumTotalsIsSum(stats: Dict<Pair, Stats>, keys: seq<Pair>, observations: seq<Observation>)
    requires IsPairStats(stats, observations)
    ensures SumTotals(stats, keys) == SumOf(keys, observations)
  {
    if keys != [] {
      SumTotalsIsSum(stats, keys[1..], observations);
      assert StatsRight(stats, observations, keys[0]);
      CountIsTotal(observations, keys[0]);
    }
  }

  lemma PairOccurs(stats: Dict<Pair, Stats>, observations: seq<Observation>, p: Pair)
    requires IsPairStats(stats, observations)
    ensures p in stats.vals <==> exists o :: o in observations && IsOf(o, p)
    ensures p in stats.vals && stats.vals[p].clean > 0 <==>
            exists o :: o in observations && IsOf(o, p) && o.kind == Learned
  {
    assert StatsRight(stats, observations, p);
    FilterContents(observations, OfPair(p));
    FilterContents(observations, CleanOfPair(p));
    var all, clean := Filter(observations, OfPair(p)), Filter(observations, CleanOfPair(p));
    FilterNarrows(observations, CleanOfPair(p), OfPair(p));
    if all != [] {
      assert all[0] in observations && IsOf(all[0], p);
    }
    if clean != [] {
      assert clean[0] in observations && IsOf(clean[0], p) && clean[0].kind == Learned;
    }
  }

  /** Closing conserves what was observed: the captured count is the clean turns plus all violations,
      and the per-pair totals add up to it. */
  lemma ClosingConserves(st: State, start: seq<AgentContract>, stats: Dict<Pair, Stats>)
    requires Inv(st, start) && IsPairStats(stats, AllObservations(st.session.turns))
    ensures |st.session.observations| == CleanTurns(st.session.turns) + ViolationsTotal(st.session.turns)
    ensures SumTotals(stats, stats.keys) == |st.session.observations|
  {
    var turns := st.session.turns;
    forall i | 0 <= i < |turns|
      ensures Shaped(turns[i])
    {
      assert TurnOk(turns, i);
    }
    ObservationsConserved(turns);
    var observations := AllObservations(turns);
    forall o | o in observations
      ensures (o.roles[0], o.roles[1]) in stats.keys
    {
      PairOccurs(stats, observations, (o.roles[0], o.roles[1]));
      assert IsOf(o, (o.roles[0], o.roles[1]));
    }
    SumTotalsIsSum(stats, stats.keys, observations);
    SumCoversAll(stats.keys, observations);
  }

  /** A pair's confidence lies in (0, 1] or is 0, and is 1 exactly when no violation was seen on it. */
  lemma ConfidenceIsCleanShare(stats: Dict<Pair, Stats>, observations: seq<Observation>, p: Pair)
    requires IsPairStats(stats, observations) && p in stats.vals
    ensures 0.0 <= Confidence(stats.vals[p]) <= 1.0
    ensures Confidence(stats.vals[p]) == 1.0 <==> forall o :: o in observations && IsOf(o, p) ==> o.kind == Learned
    ensures Confidence(stats.vals[p]) > 0.0 <==> exists o :: o in observations && IsOf(o, p) && o.kind == Learned
  {
    assert StatsRight(stats, observations, p);
    FilterNarrows(observations, CleanOfPair(p), OfPair(p));
    PairOccurs(stats, observations, p);
    var s := stats.vals[p];
    ShareInUnit(s.clean, s.total);
  }

  lemma CleanIsAtMostTotal(observations: seq<Observation>, p: Pair)
    ensures StatsOf(observations, p).clean <= StatsOf(observations, p).total
  {
    FilterNarrows(observations, CleanOfPair(p), OfPair(p));
  }

  lemma ShareInUnit(clean: nat, total: nat)
    requires clean <= total && total > 0
    ensures 0.0 <= clean as real / total as real <= 1.0
    ensures clean as real / total as real == 1.0 <==> clean == total
    ensures clean as real / total as real > 0.0 <==> clean > 0
  {
    var q := clean as real / total as real;
    assert q * total as real == clean as real;
  }

  /** The pairs with a clean observation. */
  function CleanPairs(observations: seq<Observation>): set<Pair> {
    set o | o in observations && |o.roles| == 2 && o.kind == Learned :: (o.roles[0], o.roles[1])
  }

  /** What closing stores about a session: the counts, and one edge for each clean pair. */
  function Summarised(id: Id, s: Session): Summary {
    Summary(id, s.agentType, s.compositionVersion, |s.coordWrites| + |CleanPairs(AllObservations(s.turns))|,
            |s.observations|, ViolationsTotal(s.turns), Unresolved(s))
  }

  lemma CleanPairOccurs(observations: seq<Observation>, p: Pair)
    ensures p in CleanPairs(observations) <==> exists o :: o in observations && IsOf(o, p) && o.kind == Learned
  {
    if o :| o in observations && IsOf(o, p) && o.kind == Learned {
      assert (o.roles[0], o.roles[1]) in CleanPairs(observations);
    }
    if p in CleanPairs(observations) {
      var o :| o in observations && |o.roles| == 2 && o.kind == Learned && p == (o.roles[0], o.roles[1]);
      assert IsOf(o, p);
    }
  }

  lemma WrittenIsClean(stats: Dict<Pair, Stats>, observations: seq<Observation>, p: Pair)
    requires IsPairStats(stats, observations)
    ensures p in Filter(stats.keys, Observed(stats)) <==> p in CleanPairs(observations)
  {
    FilterContents(stats.keys, Observed(stats));
    PairOccurs(stats, observations, p);
    if p in stats.vals {
      ConfidenceIsCleanShare(stats, observations, p);
    }
    CleanPairOccurs(observations, p);
  }

  /** The number of edges counted is determined by the observations. */
  lemma EdgesAreCleanPairs(stats: Dict<Pair, Stats>, observations: seq<Observation>)
    requires IsPairStats(stats, observations)
    ensures |Filter(stats.keys, Observed(stats))| == |CleanPairs(observations)|
  {
    var written := Filter(stats.keys, Observed(stats));
    FilterDistinct(stats.keys, Observed(stats));
    DistinctCardinality(written);
    forall p
      ensures p in SetOf(written) <==> p in CleanPairs(observations)
    {
      WrittenIsClean(stats, observations, p);
    }
    assert SetOf(written) == CleanPairs(observations);
  }

  ghost predicate LastOfName(agents: seq<AgentContract>, i: nat)
    requires i < |agents|
  {
    forall j :: i < j < |agents| ==> agents[j].agentName != agents[i].agentName
  }

  /** The role rows after closing: the last contract of a name wins. */
  lemma {:induction false} LastContractWins(roles: map<Key, AgentContract>, agentType: string,
                                            agents: seq<AgentContract>, i: nat)
    requires i < |agents| && LastOfName(agents, i)
    ensures var key := (agentType, agents[i].agentName);
            key in RolesAfter(roles, agentType, agents) && RolesAfter(roles, agentType, agents)[key] == agents[i]
  {
    var n := |agents| - 1;
    if i < n {
      assert forall j :: i < j < n ==> agents[..n][j] == agents[j];
      LastContractWins(roles, agentType, agents[..n], i);
      assert agents[n].agentName != agents[i].agentName;
    }
  }

  /** Role rows of other agent types and other names are untouched. */
  lemma {:induction false} OtherRolesKept(roles: map<Key, AgentContract>, agentType: string, agents: seq<AgentContract>,
                                          key: Key)
    requires key.0 != agentType || forall i :: 0 <= i < |agents| ==> agents[i].agentName != key.1
    ensures key in RolesAfter(roles, agentType, agents) <==> key in roles
    ensures key in roles ==> RolesAfter(roles, agentType, agents)[key] == roles[key]
  {
    if agents != [] {
      OtherRolesKept(roles, agentType, agents[..|agents| - 1], key);
    }
  }

  lemma {:induction false} ContractHasRole(roles: map<Key, AgentContract>, agentType: string,
                                           agents: seq<AgentContract>, i: nat)
    requires i < |agents|
    ensures (agentType, agents[i].agentName) in RolesAfter(roles, agentType, agents)
  {
    if i < |agents| - 1 {
      ContractHasRole(roles, agentType, agents[..|agents| - 1], i);
    }
  }

  /** Closing writes the clean share of every cleanly observed pair of agents of the composition. */
  lemma HandoffsOfContractsAreWritten(was: map<Handoff, real>, now: map<Handoff, real>, roles: map<Key, AgentContract>,
                                      agentType: string, agents: seq<AgentContract>,
                                      observations: seq<Observation>, stats: Dict<Pair, Stats>,
                                      i: nat, j: nat, o: Observation)
    requires IsPairStats(stats, observations)
    requires EdgesAfter(was, now, RolesAfter(roles, agentType, agents), agentType, stats, stats.keys)
    requires i < |agents| && j < |agents|
    requires o in observations && IsOf(o, (agents[i].agentName, agents[j].agentName)) && o.kind == Learned
    ensures var s := StatsOf(observations, (agents[i].agentName, agents[j].agentName));
            var h := (agentType, agents[i].agentName, agents[j].agentName);
            s.total > 0 && h in now && now[h] == Round3(s.clean as real / s.total as real)
  {
    var p := (agents[i].agentName, agents[j].agentName);
    PairOccurs(stats, observations, p);
    assert StatsRight(stats, observations, p);
    CleanIsAtMostTotal(observations, p);
    ShareInUnit(stats.vals[p].clean, stats.vals[p].total);
    ContractHasRole(roles, agentType, agents, i);
    ContractHasRole(roles, agentType, agents, j);
    assert EdgeAfter(was, now, RolesAfter(roles, agentType, agents), agentType, stats, stats.keys,
                     (agentType, p.0, p.1));
  }
}
