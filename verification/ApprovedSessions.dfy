/** The ledger and the sessions together: src/apprentice/simulation/session_manager.py:44-57, 128-134
    over src/apprentice/proposal_review_service.py:169-178. */
module ApprovedSessions {
  import opened Common
  import opened ContractValidator
  import opened ProposalLedger
  import opened SessionManager
  import L = LedgerTheorems
  import S = SessionTheorems

  datatype World = World(rows: seq<Row>, sessions: map<Id, S.State>, summaries: seq<Summary>)

  datatype Event =
    | Review(op: L.Op)
    | Start(agentType: string, id: Id)
    | InSession(id: Id, event: S.Event)

  /** Session ids are fresh; a request that raises changes nothing. */
  function Step(w: World, event: Event): World {
    match event
    case Review(op) => w.(rows := L.Step(w.rows, op))
    case Start(agentType, id) =>
      var latest := Latest(w.rows, agentType);
      if id in w.sessions || latest.None? || latest.value.status != Approved then w
      else w.(sessions := w.sessions[id := S.State(Opened(agentType, latest.value.version), latest.value.agents)])
    case InSession(id, e) =>
      if id !in w.sessions then w
      else
        var s := w.sessions[id].session;
        w.(sessions := w.sessions[id := S.Step(w.sessions[id], e)],
           summaries := if e.Close? && !s.closed then w.summaries + [S.Summarised(id, s)] else w.summaries)
  }

  /** cert1_service.py:75-90: the newest summary of the agent type, or 1 when there is none. */
  function CertUnresolved(summaries: seq<Summary>, agentType: string): nat {
    if summaries == [] then 1
    else if summaries[|summaries| - 1].agentType == agentType then summaries[|summaries| - 1].violationsUnresolved
    else CertUnresolved(summaries[..|summaries| - 1], agentType)
  }

  function Run(w: World, events: seq<Event>): World
    decreases |events|
  {
    if events == [] then w else Run(Step(w, events[0]), events[1..])
  }

  /** Row i is the signed, approved composition the session was started from. */
  ghost predicate BackedBy(rows: seq<Row>, st: S.State, i: nat) {
    && i < |rows|
    && rows[i].agentType == st.session.agentType
    && rows[i].version == st.session.compositionVersion
    && rows[i].status == Approved && rows[i].signature.Some?
    && S.Inv(st, rows[i].agents)
  }

  ghost predicate Backed(rows: seq<Row>, st: S.State) {
    exists i: nat :: BackedBy(rows, st, i)
  }

  /** The session a summary is about is closed, and has no more pending than the summary says. */
  ghost predicate SummaryOk(w: World, c: Summary) {
    && c.sessionId in w.sessions
    && var s := w.sessions[c.sessionId].session;
    && s.closed && s.agentType == c.agentType && s.compositionVersion == c.compositionVersion
    && S.AllPending(s.turns) <= c.violationsUnresolved
  }

  ghost predicate HasSummary(w: World, id: Id) {
    exists c :: c in w.summaries && c.sessionId == id
  }

  /** Every closed session has a summary, and no session has two. */
  ghost predicate SummarisedOnce(w: World) {
    && (forall id :: id in w.sessions && w.sessions[id].session.closed ==> HasSummary(w, id))
    && forall i, j :: 0 <= i < j < |w.summaries| ==> w.summaries[i].sessionId != w.summaries[j].sessionId
  }

  ghost predicate WorldOk(w: World) {
    && L.LedgerOk(w.rows)
    && (forall id :: id in w.sessions ==> Backed(w.rows, w.sessions[id]))
    && (forall c {:trigger SummaryOk(w, c)} :: c in w.summaries ==> SummaryOk(w, c))
    && SummarisedOnce(w)
  }

  lemma BackedAfterReview(rows: seq<Row>, op: L.Op, st: S.State)
    requires L.LedgerOk(rows) && Backed(rows, st)
    ensures Backed(L.Step(rows, op), st)
  {
    var i: nat :| BackedBy(rows, st, i);
    L.StepKeeps(rows, op);
    assert L.Preserved(rows, L.Step(rows, op), i);
    assert BackedBy(L.Step(rows, op), st, i);
  }

  lemma StartIsBacked(rows: seq<Row>, agentType: string)
    requires L.LedgerOk(rows) && Latest(rows, agentType).Some? && Latest(rows, agentType).value.status == Approved
    ensures var latest := Latest(rows, agentType).value;
            Backed(rows, S.State(Opened(agentType, latest.version), latest.agents))
  {
    L.LatestIsLast(rows, agentType);
    var latest := Latest(rows, agentType).value;
    var i :| 0 <= i < |rows| && rows[i] == latest && !L.Superseded(rows, i);
    assert L.RowOk(rows, i);
    S.OpenedIsOk(agentType, latest.version, latest.agents);
    assert BackedBy(rows, S.State(Opened(agentType, latest.version), latest.agents), i);
  }

  /** With the same sessions and summaries, whatever the ledger, summaries stay right. */
  lemma SameSummaries(w: World, w': World)
    requires (forall c :: c in w.summaries ==> SummaryOk(w, c)) && SummarisedOnce(w)
    requires w'.sessions == w.sessions && w'.summaries == w.summaries
    ensures (forall c :: c in w'.summaries ==> SummaryOk(w', c)) && SummarisedOnce(w')
  {
    forall c | c in w'.summaries
      ensures SummaryOk(w', c)
    {
      assert SummaryOk(w, c);
    }
    forall id | id in w'.sessions && w'.sessions[id].session.closed
      ensures HasSummary(w', id)
    {
      assert HasSummary(w, id);
    }
  }

  lemma ReviewKeeps(w: World, op: L.Op)
    requires WorldOk(w)
    ensures WorldOk(Step(w, Review(op)))
  {
    var w' := Step(w, Review(op));
    L.StepKeeps(w.rows, op);
    forall id | id in w.sessions
      ensures Backed(w'.rows, w.sessions[id])
    {
      BackedAfterReview(w.rows, op, w.sessions[id]);
    }
    SameSummaries(w, w');
  }

  lemma StartKeeps(w: World, agentType: string, id: Id)
    requires WorldOk(w)
    ensures WorldOk(Step(w, Start(agentType, id)))
  {
    var latest := Latest(w.rows, agentType);
    var w' := Step(w, Start(agentType, id));
    if latest.Some? && latest.value.status == Approved {
      StartIsBacked(w.rows, agentType);
    }
    forall c | c in w'.summaries
      ensures SummaryOk(w', c)
    {
      assert SummaryOk(w, c);
    }
    forall other | other in w'.sessions && w'.sessions[other].session.closed
      ensures HasSummary(w', other)
    {
      assert HasSummary(w, other);
    }
  }

  lemma SessionStepKeeps(w: World, id: Id, e: S.Event)
    requires WorldOk(w)
    ensures WorldOk(Step(w, InSession(id, e)))
  {
    if id in w.sessions {
      var w', st := Step(w, InSession(id, e)), w.sessions[id];
      var i: nat :| BackedBy(w.rows, st, i);
      S.StepKeeps(st, w.rows[i].agents, e);
      assert BackedBy(w.rows, S.Step(st, e), i);
      SummariesKept(w, id, e, w.rows[i].agents);
      ClosingSummarises(w, id, e);
    }
  }

  lemma SummariesKept(w: World, id: Id, e: S.Event, start: seq<AgentContract>)
    requires (forall c :: c in w.summaries ==> SummaryOk(w, c)) && id in w.sessions && S.Inv(w.sessions[id], start)
    ensures var w' := Step(w, InSession(id, e));
            forall c :: c in w'.summaries ==> SummaryOk(w', c)
  {
    var w', st := Step(w, InSession(id, e)), w.sessions[id];
    forall c | c in w'.summaries
      ensures SummaryOk(w', c)
    {
      if c in w.summaries {
        assert SummaryOk(w, c);
        if c.sessionId == id {
          S.ClosedOnlyShrinks(st, start, e);
        }
      } else {
        S.LastTurnCountsAll(st, start);
      }
    }
  }

  lemma ClosingSummarises(w: World, id: Id, e: S.Event)
    requires (forall c :: c in w.summaries ==> SummaryOk(w, c)) && SummarisedOnce(w) && id in w.sessions
    ensures SummarisedOnce(Step(w, InSession(id, e)))
  {
    var w', s := Step(w, InSession(id, e)), w.sessions[id].session;
    forall other | other in w'.sessions && w'.sessions[other].session.closed
      ensures HasSummary(w', other)
    {
      if w.sessions[other].session.closed {
        assert HasSummary(w, other);
        var c :| c in w.summaries && c.sessionId == other;
        assert c in w'.summaries;
      } else {
        assert S.Summarised(id, s) in w'.summaries;
      }
    }
    if e.Close? && !s.closed {
      forall c | c in w.summaries
        ensures c.sessionId != id
      {
        assert SummaryOk(w, c);
      }
    }
  }

  lemma StepKeeps(w: World, event: Event)
    requires WorldOk(w)
    ensures WorldOk(Step(w, event))
  {
    match event
    case Review(op) => ReviewKeeps(w, op);
    case Start(agentType, id) => StartKeeps(w, agentType, id);
    case InSession(id, e) => SessionStepKeeps(w, id, e);
  }

  /** In every run, from an empty ledger and no sessions or from any later state, each session stays
      backed by a signed and approved row of its recorded version. */
  lemma {:induction false} RunKeeps(w: World, events: seq<Event>)
    requires WorldOk(w)
    ensures WorldOk(Run(w, events))
    decreases |events|
  {
    if events != [] {
      StepKeeps(w, events[0]);
      RunKeeps(Step(w, events[0]), events[1..]);
    }
  }

  /** Every world reachable from an empty ledger and no sessions. */
  lemma ReachableWorldOk(events: seq<Event>)
    ensures WorldOk(Run(World([], map[], []), events))
  {
    RunKeeps(World([], map[], []), events);
  }

  /** The row behind a session is the same row, field for field, at the end of any continuation, and
      the session's working contracts are that row's contracts with the clarifications replayed. */
  lemma {:induction false} BackingRowNeverChanges(w: World, events: seq<Event>, id: Id, i: nat)
    requires WorldOk(w) && id in w.sessions && BackedBy(w.rows, w.sessions[id], i)
    ensures var w' := Run(w, events);
            && i < |w'.rows| && w'.rows[i] == w.rows[i]
            && id in w'.sessions && BackedBy(w'.rows, w'.sessions[id], i)
            && w'.sessions[id].agents == S.Replay(w.rows[i].agents, w'.sessions[id].session.coordWrites)
    decreases |events|
  {
    if events != [] {
      StepKeeps(w, events[0]);
      BackingRowSurvivesStep(w, events[0], id, i);
      BackingRowNeverChanges(Step(w, events[0]), events[1..], id, i);
    }
  }

  lemma BackingRowSurvivesStep(w: World, event: Event, id: Id, i: nat)
    requires WorldOk(w) && id in w.sessions && BackedBy(w.rows, w.sessions[id], i)
    ensures var w' := Step(w, event);
            i < |w'.rows| && w'.rows[i] == w.rows[i] && id in w'.sessions && BackedBy(w'.rows, w'.sessions[id], i)
  {
    match event
    case Review(op) =>
      L.StepKeeps(w.rows, op);
      assert L.Preserved(w.rows, L.Step(w.rows, op), i);
    case Start(agentType, other) =>
    case InSession(other, e) =>
      if other == id {
        S.StepKeeps(w.sessions[id], w.rows[i].agents, e);
      }
  }

  /** A session is closed exactly when a summary is stored for it, and never gets a second one. */
  lemma ClosedMeansSummarised(w: World, id: Id)
    requires WorldOk(w) && id in w.sessions
    ensures w.sessions[id].session.closed <==> HasSummary(w, id)
    ensures forall i, j :: 0 <= i < j < |w.summaries| ==>
              w.summaries[i].sessionId != id || w.summaries[j].sessionId != id
  {
    if HasSummary(w, id) {
      var c :| c in w.summaries && c.sessionId == id;
      assert SummaryOk(w, c);
    }
  }

  /** The recorded version names one row only. */
  lemma BackingRowIsUnique(w: World, id: Id, i: nat, j: nat)
    requires WorldOk(w) && id in w.sessions && BackedBy(w.rows, w.sessions[id], i)
    requires j < |w.rows| && w.rows[j].agentType == w.sessions[id].session.agentType
    requires w.rows[j].version == w.sessions[id].session.compositionVersion
    ensures j == i
  {
    L.VersionIsUnique(w.rows, i, j);
  }

  /** Summary k is the newest of the agent type. */
  ghost predicate IsNewest(summaries: seq<Summary>, agentType: string, k: nat) {
    && k < |summaries| && summaries[k].agentType == agentType
    && forall j :: k < j < |summaries| ==> summaries[j].agentType != agentType
  }

  /** The status is the newest summary's count, or 1 without any summary of the agent type. */
  lemma {:induction false} CertReadsNewest(summaries: seq<Summary>, agentType: string)
    ensures forall k: nat :: IsNewest(summaries, agentType, k) ==>
            CertUnresolved(summaries, agentType) == summaries[k].violationsUnresolved
    ensures (exists k: nat :: IsNewest(summaries, agentType, k)) || CertUnresolved(summaries, agentType) == 1
  {
    if summaries != [] {
      var n := |summaries| - 1;
      CertReadsNewest(summaries[..n], agentType);
      if summaries[n].agentType == agentType {
        assert IsNewest(summaries, agentType, n);
      } else {
        forall k: nat
          ensures IsNewest(summaries, agentType, k) <==> IsNewest(summaries[..n], agentType, k)
        {
          if IsNewest(summaries[..n], agentType, k) {
            assert forall j :: k < j < n ==> summaries[..n][j] == summaries[j];
          }
        }
      }
    }
  }

  /** When the certification status reads zero unresolved violations there is a newest summary of the agent
      type, and the session it is about is closed, has nothing pending in its whole history, and ran on a
      signed composition. */
  lemma CertZeroMeansNothingPending(w: World, agentType: string) returns (k: nat, i: nat)
    requires WorldOk(w) && CertUnresolved(w.summaries, agentType) == 0
    ensures IsNewest(w.summaries, agentType, k)
    ensures var id := w.summaries[k].sessionId;
            && id in w.sessions && w.sessions[id].session.closed && w.sessions[id].session.agentType == agentType
            && (forall t, v :: t in w.sessions[id].session.turns && v in t.violations ==> v.resolution != Pending)
            && BackedBy(w.rows, w.sessions[id], i)
  {
    CertReadsNewest(w.summaries, agentType);
    var newest: nat :| IsNewest(w.summaries, agentType, newest);
    k := newest;
    assert SummaryOk(w, w.summaries[k]);
    var st := w.sessions[w.summaries[k].sessionId];
    var j: nat :| BackedBy(w.rows, st, j);
    i := j;
    S.LastTurnCountsAll(st, w.rows[i].agents);
  }
}
