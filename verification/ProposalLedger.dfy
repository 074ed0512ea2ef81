/** The team_compositions ledger: src/apprentice/proposal_review_service.py:15-178 and
    src/apprentice/proposal_engine.py:110-172, 338-354. Every handler is one atomic step. */
module ProposalLedger {
  import opened Common
  import opened ContractValidator

  datatype Status = Proposed | Approved | Archived

  datatype HandoffContract = HandoffContract(
    fromAgent: string, toAgent: string, condition: string, validates: seq<string>, rationale: string)

  datatype Rationale = Rationale(perAgent: map<string, string>, perContract: map<string, string>,
                                 rejectionReason: Option<string>)

  /** The content of a proposal, as the model or the expert supplies it. */
  datatype Draft = Draft(id: Id, topology: string, agents: seq<AgentContract>, contracts: seq<HandoffContract>,
                         perAgent: map<string, string>, perContract: map<string, string>)

  datatype Row = Row(id: Id, agentType: string, version: int, topology: string, agents: seq<AgentContract>,
                     contracts: seq<HandoffContract>, rationale: Rationale, status: Status,
                     signature: Option<string>, signedAt: Option<int>, createdAt: int)

  datatype LedgerError =
    | NoProposalFound
    | AlreadyApproved(version: int)
    | GenerationFailed
    | UncoveredRationale
    | DuplicateId

  // ---------- queries ----------

  function MaxVersion(rows: seq<Row>, agentType: string): int {
    if rows == [] then 0 else
      var rest := MaxVersion(rows[..|rows| - 1], agentType);
      var last := rows[|rows| - 1];
      if last.agentType == agentType && last.version > rest then last.version else rest
  }

  /** ORDER BY version DESC LIMIT 1 among the rows of the agent type. */
  function Latest(rows: seq<Row>, agentType: string): Option<Row> {
    if rows == [] then None else
      var rest := Latest(rows[..|rows| - 1], agentType);
      var last := rows[|rows| - 1];
      if last.agentType == agentType && (rest.None? || last.version > rest.value.version) then Some(last) else rest
  }

  predicate HasId(rows: seq<Row>, id: Id) {
    exists i :: 0 <= i < |rows| && rows[i].id == id
  }

  /** UPDATE ... WHERE agent_type = t AND version = v. */
  function Updated(rows: seq<Row>, agentType: string, version: int, change: Row -> Row): (r: seq<Row>)
    ensures |r| == |rows|
  {
    seq(|rows|, i requires 0 <= i < |rows| =>
      if rows[i].agentType == agentType && rows[i].version == version then change(rows[i]) else rows[i])
  }

  function Signing(expert: string, now: int): Row -> Row {
    (r: Row) => r.(status := Approved, signature := Some(expert), signedAt := Some(now))
  }

  function Archiving(): Row -> Row {
    (r: Row) => r.(status := Archived)
  }

  function Rejecting(reason: string): Row -> Row {
    (r: Row) => r.(status := Archived, rationale := r.rationale.(rejectionReason := Some(reason)))
  }

  // ---------- steps ----------

  function MutableLatest(rows: seq<Row>, agentType: string): Result<Row, LedgerError> {
    var latest := Latest(rows, agentType);
    if latest.None? then Err(NoProposalFound)
    else if latest.value.status == Approved || latest.value.signature.Some? then
      Err(AlreadyApproved(latest.value.version))
    else Ok(latest.value)
  }

  function ContractKey(c: HandoffContract): string {
    c.fromAgent + "->" + c.toAgent
  }

  predicate Covered(d: Draft) {
    && (forall a :: a in d.agents ==> a.agentName in d.perAgent)
    && (forall c :: c in d.contracts ==> ContractKey(c) in d.perContract)
  }

  function NewRow(d: Draft, agentType: string, version: int, status: Status, signature: Option<string>,
                  signedAt: Option<int>, now: int): Row
  {
    Row(d.id, agentType, version, d.topology, d.agents, d.contracts, Rationale(d.perAgent, d.perContract, None),
        status, signature, signedAt, now)
  }

  /** `outcome` is what the model call and parsing produced; nothing when they raised. */
  function Generated(rows: seq<Row>, agentType: string, outcome: Option<Draft>, now: int)
    : (seq<Row>, Result<Row, LedgerError>)
  {
    if outcome.None? then (rows, Err(GenerationFailed))
    else if !Covered(outcome.value) then (rows, Err(UncoveredRationale))
    else if HasId(rows, outcome.value.id) then (rows, Err(DuplicateId))
    else
      var row := NewRow(outcome.value, agentType, MaxVersion(rows, agentType) + 1, Proposed, None, None, now);
      (rows + [row], Ok(row))
  }

  function Signed(rows: seq<Row>, agentType: string, expert: string, now: int): (seq<Row>, Result<Row, LedgerError>) {
    match MutableLatest(rows, agentType)
    case Err(e) => (rows, Err(e))
    case Ok(latest) => (Updated(rows, agentType, latest.version, Signing(expert, now)),
                        Ok(Signing(expert, now)(latest)))
  }

  function Edited(rows: seq<Row>, agentType: string, expert: string, edits: Draft, now: int)
    : (seq<Row>, Result<Row, LedgerError>)
  {
    match MutableLatest(rows, agentType)
    case Err(e) => (rows, Err(e))
    case Ok(latest) =>
      if HasId(rows, edits.id) then (rows, Err(DuplicateId))
      else
        var row := NewRow(edits, agentType, latest.version + 1, Approved, Some(expert), Some(now), now);
        (Updated(rows, agentType, latest.version, Archiving()) + [row], Ok(row))
  }

  function Rejected(rows: seq<Row>, agentType: string, reason: string, outcome: Option<Draft>, now: int)
    : (seq<Row>, Result<Row, LedgerError>)
  {
    match MutableLatest(rows, agentType)
    case Err(e) => (rows, Err(e))
    case Ok(latest) => Generated(Updated(rows, agentType, latest.version, Rejecting(reason)), agentType, outcome, now)
  }

  /** The table and the handlers that change it. */
  class Ledger {
    var rows: seq<Row>

    constructor ()
      ensures rows == []
    {
      rows := [];
    }

    /** proposal_review_service.py:15-31 */
    method GetLatestProposal(agentType: string) returns (latest: Option<Row>)
      ensures latest == Latest(rows, agentType)
    {
      latest := None;
      for i := 0 to |rows|
        invariant latest == Latest(rows[..i], agentType)
      {
        assert rows[..i + 1][..i] == rows[..i];
        if rows[i].agentType == agentType && (latest.None? || rows[i].version > latest.value.version) {
          latest := Some(rows[i]);
        }
      }
      assert rows[..|rows|] == rows;
    }

    /** proposal_review_service.py:169-178 */
    method RequireMutableLatest(agentType: string) returns (r: Result<Row, LedgerError>)
      ensures r == MutableLatest(rows, agentType)
      ensures match Latest(rows, agentType)
              case None => r == Err(NoProposalFound)
              case Some(latest) =>
                r == if latest.status == Approved || latest.signature != None then Err(AlreadyApproved(latest.version))
                     else Ok(latest)
    {
      var latest := GetLatestProposal(agentType);
      if latest.None? {
        return Err(NoProposalFound);
      }
      if latest.value.status == Approved || latest.value.signature.Some? {
        return Err(AlreadyApproved(latest.value.version));
      }
      return Ok(latest.value);
    }

    /** proposal_engine.py:126-172 */
    method PersistProposal(agentType: string, outcome: Option<Draft>, now: int) returns (r: Result<Row, LedgerError>)
      modifies this
      ensures (rows, r) == Generated(old(rows), agentType, outcome, now)
    {
      if outcome.None? {
        return Err(GenerationFailed);
      }
      if !Covered(outcome.value) {
        return Err(UncoveredRationale);
      }
      var nextVersion := MaxVersion(rows, agentType) + 1;
      if HasId(rows, outcome.value.id) {
        return Err(DuplicateId);
      }
      var row := NewRow(outcome.value, agentType, nextVersion, Proposed, None, None, now);
      rows := rows + [row];
      return Ok(row);
    }

    /** proposal_review_service.py:34-58 */
    method ApproveProposal(agentType: string, expert: string, now: int) returns (r: Result<Row, LedgerError>)
      modifies this
      ensures (rows, r) == Signed(old(rows), agentType, expert, now)
    {
      var latest := RequireMutableLatest(agentType);
      if latest.Err? {
        return Err(latest.error);
      }
      rows := Updated(rows, agentType, latest.value.version, Signing(expert, now));
      return Ok(latest.value.(status := Approved, signature := Some(expert), signedAt := Some(now)));
    }

    /** proposal_review_service.py:61-128; both statements run in one transaction. */
    method EditProposal(agentType: string, expert: string, edits: Draft, now: int) returns (r: Result<Row, LedgerError>)
      modifies this
      ensures (rows, r) == Edited(old(rows), agentType, expert, edits, now)
    {
      var latest := RequireMutableLatest(agentType);
      if latest.Err? {
        return Err(latest.error);
      }
      var newVersion := latest.value.version + 1;
      if HasId(rows, edits.id) {
        return Err(DuplicateId);
      }
      rows := Updated(rows, agentType, latest.value.version, Archiving());
      var row := NewRow(edits, agentType, newVersion, Approved, Some(expert), Some(now), now);
      rows := rows + [row];
      return Ok(row);
    }

    /** proposal_review_service.py:131-166: the archiving update stays when regeneration fails. */
    method RejectProposal(agentType: string, reason: string, outcome: Option<Draft>, now: int)
      returns (r: Result<Row, LedgerError>)
      modifies this
      ensures (rows, r) == Rejected(old(rows), agentType, reason, outcome, now)
    {
      var latest := RequireMutableLatest(agentType);
      if latest.Err? {
        return Err(latest.error);
      }
      rows := Updated(rows, agentType, latest.value.version, Rejecting(reason));
      r := PersistProposal(agentType, outcome, now);
    }
  }
}
