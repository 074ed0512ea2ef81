/** From the messages of a session to the handoff edges written when it closes:
    src/apprentice/simulation/session_manager.py:67-107, 205-229, 280-351. */
module HandoffTheorems {
  import opened Common
  import opened ContractValidator
  import opened SessionManager
  import opened SessionTheorems

  function Plus(a: Stats, b: Stats): Stats {
    Stats(a.clean + b.clean, a.total + b.total)
  }

  /** What one request says about a pair: an accepted message from its first to its second agent counts
      as one clean message, or as many violations as it has fields that offend the working contracts. */
  function Exchange(st: State, e: Event, p: Pair): Stats {
    if e.Submit? && (e.role, e.toAgent) == p
       && Submitted(st.session, st.agents, e.role, e.message, e.toAgent, e.fields).Ok?
    then
      var found := Violations(e.fields, e.role, e.toAgent, st.agents);
      if found == [] then Stats(1, 1) else Stats(0, |found|)
    else Stats(0, 0)
  }

  /** What the requests of a run say together, each met by the state the earlier ones left. */
  ghost function SumOver(st: State, events: seq<Event>, gain: (State, Event) -> Stats): Stats
    decreases |events|
  {
    if events == [] then Stats(0, 0)
    else Plus(gain(st, events[0]), SumOver(Step(st, events[0]), events[1..], gain))
  }

  ghost function ExchangeOf(p: Pair): (State, Event) -> Stats {
    (st: State, e: Event) => Exchange(st, e, p)
  }

  /** The counts of a pair over a whole run, read off the requests and not off the observations. */
  ghost function Tally(st: State, events: seq<Event>, p: Pair): Stats {
    SumOver(st, events, ExchangeOf(p))
  }

  // ---------- one request ----------

  lemma {:induction false} StatsConcat(a: seq<Observation>, b: seq<Observation>, p: Pair)
    ensures StatsOf(a + b, p) == Plus(StatsOf(a, p), StatsOf(b, p))
  {
    if b == [] {
      assert a + b == a;
    } else {
      var k := |b| - 1;
      StatsConcat(a, b[..k], p);
      StatsGrow(a + b[..k], b[k], p);
      StatsGrow(b[..k], b[k], p);
      assert a + b == a + b[..k] + [b[k]];
      assert b == b[..k] + [b[k]];
    }
  }

  /** Observations that agree on kind and roles count the same. */
  lemma {:induction false} StatsAgree(a: seq<Observation>, b: seq<Observation>, p: Pair)
    requires |a| == |b| && forall k :: 0 <= k < |a| ==> a[k].kind == b[k].kind && a[k].roles == b[k].roles
    ensures StatsOf(a, p) == StatsOf(b, p)
  {
    if a != [] {
      var k := |a| - 1;
      StatsAgree(a[..k], b[..k], p);
      StatsGrow(a[..k], a[k], p);
      StatsGrow(b[..k], b[k], p);
      assert a == a[..k] + [a[k]] && b == b[..k] + [b[k]];
    }
  }

  /** Observations that all lie between one pair. */
  lemma {:induction false} StatsBetween(observations: seq<Observation>, kind: ObservationKind, role: string,
                                        toAgent: string, p: Pair)
    requires forall k :: 0 <= k < |observations| ==>
               observations[k].kind == kind && observations[k].roles == [role, toAgent]
    ensures StatsOf(observations, p) ==
            if (role, toAgent) != p then Stats(0, 0)
            else Stats(if kind == Learned then |observations| else 0, |observations|)
  {
    if observations != [] {
      var k := |observations| - 1;
      StatsBetween(observations[..k], kind, role, toAgent, p);
      StatsGrow(observations[..k], observations[k], p);
      assert observations == observations[..k] + [observations[k]];
    }
  }

  lemma TurnCounts(t: Turn, role: string, toAgent: string, p: Pair)
    requires RecordedBetween(t, role, toAgent)
    ensures StatsOf(t.observations, p) ==
            if (role, toAgent) != p then Stats(0, 0)
            else if t.violations == [] then Stats(1, 1) else Stats(0, |t.violations|)
  {
    StatsBetween(t.observations, if t.violations == [] then Learned else ViolationSeen, role, toAgent, p);
  }

  lemma AppendedTurnCounts(turns: seq<Turn>, later: seq<Turn>, role: string, toAgent: string, p: Pair)
    requires |later| == |turns| + 1 && later[..|turns|] == turns
    requires RecordedBetween(later[|turns|], role, toAgent)
    ensures var found := later[|turns|].violations;
            StatsOf(AllObservations(later), p) ==
            Plus(StatsOf(AllObservations(turns), p),
                 if (role, toAgent) != p then Stats(0, 0)
                 else if found == [] then Stats(1, 1) else Stats(0, |found|))
  {
    StatsConcat(AllObservations(turns), later[|turns|].observations, p);
    TurnCounts(later[|turns|], role, toAgent, p);
  }

  lemma SubmitCounts(st: State, role: string, message: string, toAgent: string, fields: seq<string>, p: Pair)
    requires Submitted(st.session, st.agents, role, message, toAgent, fields).Ok?
    ensures var later := Submitted(st.session, st.agents, role, message, toAgent, fields).value;
            StatsOf(AllObservations(later.turns), p) ==
            Plus(StatsOf(AllObservations(st.session.turns), p),
                 Exchange(st, Submit(role, message, toAgent, fields), p))
  {
    SubmitRecords(st.session, st.agents, role, message, toAgent, fields);
    var later := Submitted(st.session, st.agents, role, message, toAgent, fields).value;
    AppendedTurnCounts(st.session.turns, later.turns, role, toAgent, p);
  }

  lemma ResolveCounts(st: State, start: seq<AgentContract>, e: Event, p: Pair)
    requires Inv(st, start) && e.Resolve?
    ensures StatsOf(AllObservations(Step(st, e).session.turns), p) == StatsOf(AllObservations(st.session.turns), p)
  {
    var r := Resolving(st.session, st.agents, e.index, e.resolution, e.clarification);
    if r.Ok? {
      ResolutionEffects(st, start, e.index, e.resolution, e.clarification);
      var turns, later, n := st.session.turns, r.value.0.turns, |st.session.turns| - 1;
      StatsAgree(turns[n].observations, later[n].observations, p);
      StatsConcat(AllObservations(turns[..n]), turns[n].observations, p);
      StatsConcat(AllObservations(turns[..n]), later[n].observations, p);
    }
  }

  lemma StepCounts(st: State, start: seq<AgentContract>, e: Event, p: Pair)
    requires Inv(st, start)
    ensures StatsOf(AllObservations(Step(st, e).session.turns), p) ==
            Plus(StatsOf(AllObservations(st.session.turns), p), Exchange(st, e, p))
  {
    match e
    case Submit(role, message, toAgent, fields) =>
      if Submitted(st.session, st.agents, role, message, toAgent, fields).Ok? {
        SubmitCounts(st, role, message, toAgent, fields, p);
      }
    case Resolve(_, _, _) => ResolveCounts(st, start, e, p);
    case Close =>
  }

  // ---------- whole runs ----------

  /** After any run the counts of a pair are those of the messages exchanged, whatever was resolved. */
  lemma RunCounts(st: State, start: seq<AgentContract>, events: seq<Event>, p: Pair)
    requires Inv(st, start)
    ensures StatsOf(AllObservations(Run(st, events).session.turns), p) ==
            Plus(StatsOf(AllObservations(st.session.turns), p), Tally(st, events, p))
  {
    var counts := (s: State) => StatsOf(AllObservations(s.session.turns), p);
    forall s, e | Inv(s, start)
      ensures Adds(counts, ExchangeOf(p), s, e)
    {
      StepCounts(s, start, e, p);
    }
    RunAdds(st, start, events, counts, ExchangeOf(p));
  }

  ghost predicate Adds(counts: State -> Stats, gain: (State, Event) -> Stats, s: State, e: Event) {
    counts(Step(s, e)) == Plus(counts(s), gain(s, e))
  }

  /** What every request adds, a run adds up. */
  lemma {:induction false} RunAdds(st: State, start: seq<AgentContract>, events: seq<Event>, counts: State -> Stats,
                                   gain: (State, Event) -> Stats)
    requires Inv(st, start)
    requires forall s, e {:trigger Adds(counts, gain, s, e)} :: Inv(s, start) ==> Adds(counts, gain, s, e)
    ensures counts(Run(st, events)) == Plus(counts(st), SumOver(st, events, gain))
    decreases |events|
  {
    if events != [] {
      assert Adds(counts, gain, st, events[0]);
      StepKeeps(st, start, events[0]);
      RunAdds(Step(st, events[0]), start, events[1..], counts, gain);
    }
  }

  /** Request k is an accepted message of the pair that met contracts under which it was clean. */
  ghost predicate CleanAt(st: State, events: seq<Event>, p: Pair, k: nat) {
    && k < |events| && events[k].Submit? && (events[k].role, events[k].toAgent) == p
    && var now := Run(st, events[..k]);
    && Submitted(now.session, now.agents, events[k].role, events[k].message, events[k].toAgent, events[k].fields).Ok?
    && Violations(events[k].fields, events[k].role, events[k].toAgent, now.agents) == []
  }

  lemma {:induction false} TallyIsPositive(st: State, events: seq<Event>, p: Pair)
    ensures Tally(st, events, p).clean > 0 <==> exists k: nat :: CleanAt(st, events, p, k)
    decreases |events|
  {
    if events != [] {
      var next, rest := Step(st, events[0]), events[1..];
      TallyIsPositive(next, rest, p);
      CleanAtFirst(st, events, p);
      forall k: nat
        ensures CleanAt(st, events, p, k + 1) <==> CleanAt(next, rest, p, k)
      {
        CleanAtLater(st, events, p, k);
      }
      if k: nat :| CleanAt(st, events, p, k) {
        assert k > 0 ==> CleanAt(next, rest, p, k - 1);
      }
      if k: nat :| CleanAt(next, rest, p, k) {
        assert CleanAt(st, events, p, k + 1);
      }
    }
  }

  lemma CleanAtFirst(st: State, events: seq<Event>, p: Pair)
    requires events != []
    ensures CleanAt(st, events, p, 0) <==> Exchange(st, events[0], p).clean > 0
  {
    assert events[..0] == [];
  }

  lemma CleanAtLater(st: State, events: seq<Event>, p: Pair, k: nat)
    requires events != []
    ensures CleanAt(st, events, p, k + 1) <==> CleanAt(Step(st, events[0]), events[1..], p, k)
  {
    if k < |events| - 1 {
      assert events[..k + 1][0] == events[0];
      assert events[..k + 1][1..] == events[1..][..k];
    }
  }

  lemma CountedAreClean(stats: Dict<Pair, Stats>, observations: seq<Observation>, p: Pair)
    requires IsPairStats(stats, observations)
    ensures stats.GetOr(p, Stats(0, 0)) == StatsOf(observations, p)
    ensures p in Filter(stats.keys, Observed(stats)) <==> StatsOf(observations, p).clean > 0
  {
    assert StatsRight(stats, observations, p);
    WrittenIsClean(stats, observations, p);
    CleanPairOccurs(observations, p);
    PairOccurs(stats, observations, p);
    CleanIsAtMostTotal(observations, p);
  }

  /** A session from its start to `final`: a pair is counted at close exactly when one of its accepted
      messages was clean when it was sent, and its counts are those of the messages. A session that
      StartSession opens satisfies the first line, by OpenedIsOk. */
  lemma HandoffsOfRun(st: State, start: seq<AgentContract>, events: seq<Event>, final: State,
                      stats: Dict<Pair, Stats>, p: Pair)
    requires Inv(st, start) && st.session.turns == []
    requires final == Run(st, events) && IsPairStats(stats, AllObservations(final.session.turns))
    ensures stats.GetOr(p, Stats(0, 0)) == Tally(st, events, p)
    ensures Distinct(Filter(stats.keys, Observed(stats)))
    ensures p in Filter(stats.keys, Observed(stats)) <==> exists k: nat :: CleanAt(st, events, p, k)
  {
    RunCounts(st, start, events, p);
    TallyIsPositive(st, events, p);
    FilterDistinct(stats.keys, Observed(stats));
    CountedAreClean(stats, AllObservations(final.session.turns), p);
  }

  // ---------- closing ----------

  /** A role row exists after closing exactly when it existed or a working contract has its name. */
  lemma RoleExists(roles: map<Key, AgentContract>, agentType: string, agents: seq<AgentContract>, name: string)
    ensures (agentType, name) in RolesAfter(roles, agentType, agents) <==>
            (agentType, name) in roles || exists i :: 0 <= i < |agents| && agents[i].agentName == name
  {
    if i :| 0 <= i < |agents| && agents[i].agentName == name {
      ContractHasRole(roles, agentType, agents, i);
    } else {
      OtherRolesKept(roles, agentType, agents, (agentType, name));
    }
  }

  /** The handoff edges after closing, one by one: an edge is there exactly when it was, or its pair was
      cleanly observed and both its agents have roles; a cleanly observed pair's edge has the rounded
      share of clean observations, and any other edge keeps its confidence. */
  lemma ClosingHandoffs(was: map<Handoff, real>, now: map<Handoff, real>, roles: map<Key, AgentContract>,
                        agentType: string, stats: Dict<Pair, Stats>, h: Handoff)
    requires stats.Valid() && EdgesAfter(was, now, roles, agentType, stats, stats.keys)
    requires forall p :: p in stats.vals ==> stats.vals[p].clean <= stats.vals[p].total && stats.vals[p].total > 0
    ensures var s := stats.GetOr((h.1, h.2), Stats(0, 0));
            var counted := h.0 == agentType && s.clean > 0;
            && (h in now <==> h in was || (counted && (h.0, h.1) in roles && (h.0, h.2) in roles))
            && (h in now && counted ==> now[h] == Round3(s.clean as real / s.total as real))
            && (h in now && !counted ==> now[h] == was[h])
  {
    assert EdgeAfter(was, now, roles, agentType, stats, stats.keys, h);
    if (h.1, h.2) in stats.vals {
      var s := stats.vals[(h.1, h.2)];
      ShareInUnit(s.clean, s.total);
    }
  }

  lemma StatsAreShares(stats: Dict<Pair, Stats>, observations: seq<Observation>)
    requires IsPairStats(stats, observations)
    ensures forall p :: p in stats.vals ==> stats.vals[p].clean <= stats.vals[p].total && stats.vals[p].total > 0
  {
    forall p | p in stats.vals
      ensures stats.vals[p].clean <= stats.vals[p].total && stats.vals[p].total > 0
    {
      assert StatsRight(stats, observations, p);
      CleanIsAtMostTotal(observations, p);
    }
  }

  /** Clarifications neither add nor rename agents. */
  lemma AgentsKeepNames(st: State, start: seq<AgentContract>, i: nat)
    requires Inv(st, start) && i < |start|
    ensures i < |st.agents| && st.agents[i].agentName == start[i].agentName
  {
    ReplayKeepsContracts(start, st.session.coordWrites);
  }

  /** Closing a session: the edge of each pair of agents of the composition carries the rounded share of
      clean messages among what the session exchanged between them; a pair without one is untouched. */
  lemma HandoffWeights(st: State, start: seq<AgentContract>, events: seq<Event>, final: State,
                       roles: map<Key, AgentContract>, was: map<Handoff, real>, now: map<Handoff, real>,
                       stats: Dict<Pair, Stats>, i: nat, j: nat)
    requires Inv(st, start) && st.session.turns == [] && i < |start| && j < |start|
    requires final == Run(st, events) && IsPairStats(stats, AllObservations(final.session.turns))
    requires EdgesAfter(was, now, RolesAfter(roles, final.session.agentType, final.agents), final.session.agentType,
                        stats, stats.keys)
    ensures var t := Tally(st, events, (start[i].agentName, start[j].agentName));
            var h := (final.session.agentType, start[i].agentName, start[j].agentName);
            && (t.clean > 0 ==> t.total >= t.clean && h in now && now[h] == Round3(t.clean as real / t.total as real))
            && (t.clean == 0 ==> (h in now <==> h in was) && (h in was ==> now[h] == was[h]))
  {
    var agentType, p := final.session.agentType, (start[i].agentName, start[j].agentName);
    HandoffsOfRun(st, start, events, final, stats, p);
    StatsAreShares(stats, AllObservations(final.session.turns));
    ClosingHandoffs(was, now, RolesAfter(roles, agentType, final.agents), agentType, stats, (agentType, p.0, p.1));
    RunKeeps(st, start, events);
    AgentsKeepNames(final, start, i);
    AgentsKeepNames(final, start, j);
    RoleExists(roles, agentType, final.agents, p.0);
    RoleExists(roles, agentType, final.agents, p.1);
  }
}
