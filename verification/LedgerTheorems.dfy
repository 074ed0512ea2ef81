/** What every run of ledger steps keeps. */
module LedgerTheorems {
  import opened Common
  import opened ProposalLedger

  function CountOf(rows: seq<Row>, agentType: string): nat {
    if rows == [] then 0 else
      CountOf(rows[..|rows| - 1], agentType) + if rows[|rows| - 1].agentType == agentType then 1 else 0
  }

  ghost predicate RowOk(rows: seq<Row>, i: nat)
    requires i < |rows|
  {
    && rows[i].version == CountOf(rows[..i], rows[i].agentType) + 1
    && (rows[i].status == Approved <==> rows[i].signature.Some?)
    && (rows[i].signedAt.Some? <==> rows[i].signature.Some?)
  }

  /** Versions of an agent type count 1, 2, 3, ... in insertion order; approved means signed. */
  ghost predicate LedgerOk(rows: seq<Row>) {
    forall i {:trigger RowOk(rows, i)} :: 0 <= i < |rows| ==> RowOk(rows, i)
  }

  /** A newer version of the same agent type exists. */
  ghost predicate Superseded(rows: seq<Row>, i: nat)
    requires i < |rows|
  {
    exists j :: i < j < |rows| && rows[j].agentType == rows[i].agentType
  }

  /** What no later step may change: a row's identity and content always, and the whole row once it
      is signed or superseded. */
  ghost predicate Preserved(rows: seq<Row>, rows': seq<Row>, i: nat)
    requires i < |rows| <= |rows'|
  {
    var r, r' := rows[i], rows'[i];
    && r'.id == r.id && r'.agentType == r.agentType && r'.version == r.version && r'.topology == r.topology
    && r'.agents == r.agents && r'.contracts == r.contracts && r'.createdAt == r.createdAt
    && r'.rationale.perAgent == r.rationale.perAgent && r'.rationale.perContract == r.rationale.perContract
    && (r.signature.Some? || Superseded(rows, i) ==> r' == r)
  }

  ghost predicate Extends(rows: seq<Row>, rows': seq<Row>) {
    && |rows| <= |rows'|
    && forall i {:trigger Preserved(rows, rows', i)} :: 0 <= i < |rows| ==> Preserved(rows, rows', i)
  }

  // ---------- versions ----------

  lemma {:induction false} CountSplit(rows: seq<Row>, i: nat, agentType: string)
    requires i < |rows|
    ensures CountOf(rows[..i], agentType) <= CountOf(rows, agentType)
    ensures rows[i].agentType == agentType ==> CountOf(rows[..i], agentType) < CountOf(rows, agentType)
  {
    var n := |rows| - 1;
    if i < n {
      CountSplit(rows[..n], i, agentType);
      assert rows[..n][..i] == rows[..i];
    }
  }

  lemma OkPrefix(rows: seq<Row>, n: nat)
    requires LedgerOk(rows) && n <= |rows|
    ensures LedgerOk(rows[..n])
  {
    forall i | 0 <= i < n
      ensures RowOk(rows[..n], i)
    {
      assert RowOk(rows, i);
      assert rows[..n][..i] == rows[..i];
    }
  }

  /** The latest proposal is the row inserted last, and its version is the number of rows. */
  lemma {:induction false} LatestIsLast(rows: seq<Row>, agentType: string)
    requires LedgerOk(rows)
    ensures MaxVersion(rows, agentType) == CountOf(rows, agentType)
    ensures Latest(rows, agentType).None? <==> CountOf(rows, agentType) == 0
    ensures Latest(rows, agentType).Some? ==>
              && Latest(rows, agentType).value.version == CountOf(rows, agentType)
              && Latest(rows, agentType).value.agentType == agentType
              && exists i :: 0 <= i < |rows| && rows[i] == Latest(rows, agentType).value && !Superseded(rows, i)
  {
    if rows != [] {
      var n := |rows| - 1;
      OkPrefix(rows, n);
      LatestIsLast(rows[..n], agentType);
      assert RowOk(rows, n);
      if rows[n].agentType == agentType {
        assert rows[n] == Latest(rows, agentType).value && !Superseded(rows, n);
      } else if Latest(rows, agentType).Some? {
        var i :| 0 <= i < n && rows[..n][i] == Latest(rows[..n], agentType).value && !Superseded(rows[..n], i);
        forall j | i < j < |rows|
          ensures rows[j].agentType != agentType
        {
          if j < n {
            assert rows[..n][j] == rows[j];
          }
        }
        assert rows[i] == Latest(rows, agentType).value && !Superseded(rows, i);
      }
    }
  }

  lemma VersionIsUnique(rows: seq<Row>, i: nat, j: nat)
    requires LedgerOk(rows) && i < |rows| && j < |rows|
    requires rows[i].agentType == rows[j].agentType && rows[i].version == rows[j].version
    ensures i == j
  {
    assert RowOk(rows, i) && RowOk(rows, j);
    if i < j {
      assert rows[..j][..i] == rows[..i];
      CountSplit(rows[..j], i, rows[i].agentType);
    } else if j < i {
      assert rows[..i][..j] == rows[..j];
      CountSplit(rows[..i], j, rows[j].agentType);
    }
  }

  /** Versions of an agent type are exactly 1..n, each once. */
  lemma {:induction false} VersionsAreConsecutive(rows: seq<Row>, agentType: string, v: int) returns (i: nat)
    requires LedgerOk(rows) && 1 <= v <= CountOf(rows, agentType)
    ensures i < |rows| && rows[i].agentType == agentType && rows[i].version == v
    ensures forall j :: 0 <= j < |rows| && rows[j].agentType == agentType && rows[j].version == v ==> j == i
    ensures forall j :: 0 <= j < |rows| && rows[j].agentType == agentType ==>
            1 <= rows[j].version <= CountOf(rows, agentType)
  {
    i := FindVersion(rows, agentType, v);
    forall j | 0 <= j < |rows| && rows[j].agentType == agentType
      ensures 1 <= rows[j].version <= CountOf(rows, agentType)
      ensures rows[j].version == v ==> j == i
    {
      assert RowOk(rows, j);
      CountSplit(rows, j, agentType);
      if rows[j].version == v {
        VersionIsUnique(rows, i, j);
      }
    }
  }

  lemma {:induction false} FindVersion(rows: seq<Row>, agentType: string, v: int) returns (i: nat)
    requires LedgerOk(rows) && 1 <= v <= CountOf(rows, agentType)
    ensures i < |rows| && rows[i].agentType == agentType && rows[i].version == v
  {
    var n := |rows| - 1;
    OkPrefix(rows, n);
    assert RowOk(rows, n);
    if v <= CountOf(rows[..n], agentType) {
      i := FindVersion(rows[..n], agentType, v);
    } else {
      i := n;
    }
  }

  // ---------- one step ----------

  lemma {:induction false} CountDependsOnTypes(rows: seq<Row>, rows': seq<Row>, agentType: string)
    requires |rows| == |rows'| && forall i :: 0 <= i < |rows| ==> rows[i].agentType == rows'[i].agentType
    ensures CountOf(rows, agentType) == CountOf(rows', agentType)
  {
    if rows != [] {
      var n := |rows| - 1;
      CountDependsOnTypes(rows[..n], rows'[..n], agentType);
    }
  }

  /** The update addresses one row: the latest, which is neither signed nor superseded. */
  lemma UpdateHitsLatest(rows: seq<Row>, agentType: string, change: Row -> Row) returns (i: nat)
    requires LedgerOk(rows) && MutableLatest(rows, agentType).Ok?
    ensures i < |rows| && rows[i].agentType == agentType && !Superseded(rows, i)
    ensures rows[i] == MutableLatest(rows, agentType).value && rows[i].signature.None? && rows[i].signedAt.None?
            && rows[i].status != Approved
    ensures rows[i].version == CountOf(rows, agentType) == MaxVersion(rows, agentType)
    ensures Updated(rows, agentType, MutableLatest(rows, agentType).value.version, change) == rows[i := change(rows[i])]
  {
    LatestIsLast(rows, agentType);
    i :| 0 <= i < |rows| && rows[i] == Latest(rows, agentType).value && !Superseded(rows, i);
    assert RowOk(rows, i);
    forall j | 0 <= j < |rows| && rows[j].agentType == agentType && rows[j].version == rows[i].version
      ensures j == i
    {
      VersionIsUnique(rows, i, j);
    }
  }

  /** Replacing one unsigned latest row by one that keeps identity and content. */
  ghost predicate Rewrites(r: Row, r': Row) {
    && r' == r.(status := r'.status, signature := r'.signature, signedAt := r'.signedAt, rationale := r'.rationale)
    && r'.rationale == r.rationale.(rejectionReason := r'.rationale.rejectionReason)
    && (r'.status == Approved <==> r'.signature.Some?)
    && (r'.signedAt.Some? <==> r'.signature.Some?)
  }

  lemma RewriteKeeps(rows: seq<Row>, i: nat, r': Row)
    requires LedgerOk(rows) && i < |rows| && !Superseded(rows, i) && rows[i].signature.None?
    requires Rewrites(rows[i], r')
    ensures LedgerOk(rows[i := r']) && Extends(rows, rows[i := r'])
  {
    var rows' := rows[i := r'];
    forall k | 0 <= k < |rows|
      ensures RowOk(rows', k) && Preserved(rows, rows', k)
    {
      assert RowOk(rows, k);
      CountDependsOnTypes(rows[..k], rows'[..k], rows[k].agentType);
    }
  }

  lemma AppendKeeps(rows: seq<Row>, row: Row)
    requires LedgerOk(rows) && row.version == CountOf(rows, row.agentType) + 1
    requires row.status == Approved <==> row.signature.Some?
    requires row.signedAt.Some? <==> row.signature.Some?
    ensures LedgerOk(rows + [row]) && Extends(rows, rows + [row])
  {
    var rows' := rows + [row];
    forall k | 0 <= k < |rows'|
      ensures RowOk(rows', k)
      ensures k < |rows| ==> Preserved(rows, rows', k)
    {
      if k < |rows| {
        assert RowOk(rows, k);
        assert rows'[..k] == rows[..k];
      } else {
        assert rows'[..k] == rows;
      }
    }
  }

  lemma ExtendsTransitive(a: seq<Row>, b: seq<Row>, c: seq<Row>)
    requires Extends(a, b) && Extends(b, c)
    ensures Extends(a, c)
  {
    forall i | 0 <= i < |a|
      ensures Preserved(a, c, i)
    {
      assert Preserved(a, b, i) && Preserved(b, c, i);
      if Superseded(a, i) {
        var j :| i < j < |a| && a[j].agentType == a[i].agentType;
        assert Preserved(a, b, j);
        assert Superseded(b, i);
      }
    }
  }

  lemma GenerateKeeps(rows: seq<Row>, agentType: string, outcome: Option<Draft>, now: int)
    requires LedgerOk(rows)
    ensures LedgerOk(Generated(rows, agentType, outcome, now).0)
    ensures Extends(rows, Generated(rows, agentType, outcome, now).0)
  {
    LatestIsLast(rows, agentType);
    var (rows', r) := Generated(rows, agentType, outcome, now);
    if r.Ok? {
      AppendKeeps(rows, r.value);
    } else {
      ExtendsReflexive(rows);
    }
  }

  lemma ExtendsReflexive(rows: seq<Row>)
    ensures Extends(rows, rows)
  {
    forall i | 0 <= i < |rows|
      ensures Preserved(rows, rows, i)
    {
    }
  }

  lemma ApproveKeeps(rows: seq<Row>, agentType: string, expert: string, now: int)
    requires LedgerOk(rows)
    ensures LedgerOk(Signed(rows, agentType, expert, now).0)
    ensures Extends(rows, Signed(rows, agentType, expert, now).0)
  {
    ExtendsReflexive(rows);
    if MutableLatest(rows, agentType).Ok? {
      var i := UpdateHitsLatest(rows, agentType, Signing(expert, now));
      RewriteKeeps(rows, i, Signing(expert, now)(rows[i]));
    }
  }

  lemma EditKeeps(rows: seq<Row>, agentType: string, expert: string, edits: Draft, now: int)
    requires LedgerOk(rows)
    ensures LedgerOk(Edited(rows, agentType, expert, edits, now).0)
    ensures Extends(rows, Edited(rows, agentType, expert, edits, now).0)
  {
    ExtendsReflexive(rows);
    var (rows', r) := Edited(rows, agentType, expert, edits, now);
    if r.Ok? {
      var i := UpdateHitsLatest(rows, agentType, Archiving());
      var archived := rows[i := Archiving()(rows[i])];
      RewriteKeeps(rows, i, Archiving()(rows[i]));
      CountDependsOnTypes(rows, archived, agentType);
      AppendKeeps(archived, r.value);
      ExtendsTransitive(rows, archived, archived + [r.value]);
    }
  }

  lemma RejectKeeps(rows: seq<Row>, agentType: string, reason: string, outcome: Option<Draft>, now: int)
    requires LedgerOk(rows)
    ensures LedgerOk(Rejected(rows, agentType, reason, outcome, now).0)
    ensures Extends(rows, Rejected(rows, agentType, reason, outcome, now).0)
  {
    ExtendsReflexive(rows);
    if MutableLatest(rows, agentType).Ok? {
      var i := UpdateHitsLatest(rows, agentType, Rejecting(reason));
      var archived := rows[i := Rejecting(reason)(rows[i])];
      RewriteKeeps(rows, i, Rejecting(reason)(rows[i]));
      GenerateKeeps(archived, agentType, outcome, now);
      ExtendsTransitive(rows, archived, Generated(archived, agentType, outcome, now).0);
    }
  }

  // ---------- outcomes ----------

  ghost predicate Carries(row: Row, d: Draft) {
    && row.id == d.id && row.topology == d.topology && row.agents == d.agents && row.contracts == d.contracts
    && row.rationale.perAgent == d.perAgent && row.rationale.perContract == d.perContract
    && row.rationale.rejectionReason == None
  }

  lemma AppendIsLatest(rows: seq<Row>, row: Row)
    requires LedgerOk(rows + [row])
    ensures Latest(rows + [row], row.agentType) == Some(row)
  {
    LatestIsLast(rows + [row], row.agentType);
    var all := rows + [row];
    var i :| 0 <= i < |all| && all[i] == Latest(all, row.agentType).value && !Superseded(all, i);
    assert all[|rows|] == row;
  }

  /** Every agent and every handoff of the draft has its rationale. */
  ghost predicate Explained(d: Draft) {
    && (forall i :: 0 <= i < |d.agents| ==> d.agents[i].agentName in d.perAgent)
    && (forall i :: 0 <= i < |d.contracts| ==>
          d.contracts[i].fromAgent + "->" + d.contracts[i].toAgent in d.perContract)
  }

  lemma CoveredMeansExplained(d: Draft)
    ensures Covered(d) <==> Explained(d)
  {
    if Covered(d) {
      assert forall i :: 0 <= i < |d.agents| ==> d.agents[i] in d.agents;
      forall i | 0 <= i < |d.contracts|
        ensures d.contracts[i].fromAgent + "->" + d.contracts[i].toAgent in d.perContract
      {
        assert ContractKey(d.contracts[i]) in d.perContract;
      }
    }
    if Explained(d) {
      forall c | c in d.contracts
        ensures ContractKey(c) in d.perContract
      {
        var i :| 0 <= i < |d.contracts| && d.contracts[i] == c;
      }
    }
  }

  /** Generation succeeds exactly for a draft that explains all its agents and handoffs, under an unused id,
      and proposes that draft as the unsigned latest row; otherwise the ledger is untouched. */
  lemma GenerationProposes(rows: seq<Row>, agentType: string, outcome: Option<Draft>, now: int)
    requires LedgerOk(rows)
    ensures var (rows', r) := Generated(rows, agentType, outcome, now);
            && (r.Ok? <==> outcome.Some? && Explained(outcome.value) && !HasId(rows, outcome.value.id))
            && (r == Err(GenerationFailed) <==> outcome == None)
            && (r == Err(UncoveredRationale) <==> outcome.Some? && !Explained(outcome.value))
            && (r.Err? ==> rows' == rows)
            && (r.Ok? ==>
                  && rows' == rows + [r.value] && Latest(rows', agentType) == Some(r.value)
                  && Carries(r.value, outcome.value) && r.value.agentType == agentType
                  && r.value.status == Proposed && r.value.signature == None && r.value.signedAt == None
                  && r.value.createdAt == now && r.value.version == MaxVersion(rows, agentType) + 1
                  && MutableLatest(rows', agentType) == Ok(r.value))
  {
    if outcome.Some? {
      CoveredMeansExplained(outcome.value);
    }
    GenerateKeeps(rows, agentType, outcome, now);
    var (rows', r) := Generated(rows, agentType, outcome, now);
    if r.Ok? {
      AppendIsLatest(rows, r.value);
    }
  }

  /** An accepted edit archives the old latest row, content kept, and installs the edits as the next
      version, approved and signed by the expert; every further review is refused while it is the
      latest. */
  lemma EditInstalls(rows: seq<Row>, agentType: string, expert: string, edits: Draft, now: int)
    requires LedgerOk(rows)
    ensures var (rows', r) := Edited(rows, agentType, expert, edits, now);
            && (r.Ok? <==> MutableLatest(rows, agentType).Ok? && !HasId(rows, edits.id))
            && (r.Err? ==> rows' == rows)
            && (r.Ok? ==>
                  && Carries(r.value, edits) && r.value.version == MutableLatest(rows, agentType).value.version + 1
                  && r.value.status == Approved && r.value.signature == Some(expert) && r.value.signedAt == Some(now)
                  && r.value.agentType == agentType && r.value.createdAt == now
                  && MutableLatest(rows', agentType) == Err(AlreadyApproved(r.value.version))
                  && exists i :: 0 <= i < |rows| && rows[i] == MutableLatest(rows, agentType).value
                                 && rows' == rows[i := rows[i].(status := Archived)] + [r.value])
  {
    EditKeeps(rows, agentType, expert, edits, now);
    var (rows', r) := Edited(rows, agentType, expert, edits, now);
    if r.Ok? {
      var i := UpdateHitsLatest(rows, agentType, Archiving());
      assert rows' == rows[i := rows[i].(status := Archived)] + [r.value];
      AppendIsLatest(rows[i := rows[i].(status := Archived)], r.value);
    }
  }

  /** An accepted approval changes the latest row alone: it is approved and signed, content kept. */
  lemma ApprovalSigns(rows: seq<Row>, agentType: string, expert: string, now: int)
    requires LedgerOk(rows)
    ensures var (rows', r) := Signed(rows, agentType, expert, now);
            && (r.Ok? <==> MutableLatest(rows, agentType).Ok?)
            && (r.Err? ==> rows' == rows)
            && (r.Ok? ==> exists i ::
                  && 0 <= i < |rows| && rows[i] == MutableLatest(rows, agentType).value && !Superseded(rows, i)
                  && r.value == rows[i].(status := Approved, signature := Some(expert), signedAt := Some(now))
                  && rows' == rows[i := r.value])
  {
    if MutableLatest(rows, agentType).Ok? {
      var i := UpdateHitsLatest(rows, agentType, Signing(expert, now));
      assert rows[i] == MutableLatest(rows, agentType).value && !Superseded(rows, i);
    }
  }

  /** Generation produces no row: the call or the parsing raised, the rationale has gaps, or the id is taken. */
  predicate RegenerationFails(rows: seq<Row>, outcome: Option<Draft>) {
    outcome.None? || !Covered(outcome.value) || HasId(rows, outcome.value.id)
  }

  /** The row after a rejection: archived, with the reason, and otherwise the same. */
  function Refused(row: Row, reason: string): Row {
    row.(status := Archived, rationale := row.rationale.(rejectionReason := Some(reason)))
  }

  lemma RejectionArchives(rows: seq<Row>, agentType: string, reason: string) returns (i: nat)
    requires LedgerOk(rows) && MutableLatest(rows, agentType).Ok?
    ensures i < |rows| && rows[i] == MutableLatest(rows, agentType).value && !Superseded(rows, i)
    ensures rows[i].agentType == agentType && rows[i].version == CountOf(rows, agentType) && rows[i].signature.None?
    ensures var archived := rows[i := Refused(rows[i], reason)];
            && Updated(rows, agentType, rows[i].version, Rejecting(reason)) == archived
            && LedgerOk(archived) && CountOf(archived, agentType) == CountOf(rows, agentType)
            && MutableLatest(archived, agentType) == Ok(archived[i])
            && forall id :: HasId(archived, id) <==> HasId(rows, id)
  {
    i := UpdateHitsLatest(rows, agentType, Rejecting(reason));
    var archived := rows[i := Refused(rows[i], reason)];
    RewriteKeeps(rows, i, archived[i]);
    LatestIsLast(rows, agentType);
    LatestIsLast(archived, agentType);
    CountDependsOnTypes(rows, archived, agentType);
    var j :| 0 <= j < |archived| && archived[j] == Latest(archived, agentType).value && !Superseded(archived, j);
    VersionIsUnique(archived, i, j);
    RefusingKeepsIds(rows, i, reason);
  }

  lemma RefusingKeepsIds(rows: seq<Row>, i: nat, reason: string)
    requires i < |rows|
    ensures forall id :: HasId(rows[i := Refused(rows[i], reason)], id) <==> HasId(rows, id)
  {
    var archived := rows[i := Refused(rows[i], reason)];
    forall id
      ensures HasId(archived, id) <==> HasId(rows, id)
    {
      if HasId(rows, id) {
        var k :| 0 <= k < |rows| && rows[k].id == id;
        assert archived[k].id == id;
      }
      if HasId(archived, id) {
        var k :| 0 <= k < |archived| && archived[k].id == id;
        assert rows[k].id == id;
      }
    }
  }

  /** A rejection is accepted exactly when the latest row is open, and then always archives that row with
      the reason. The row is closed to further review exactly when regeneration succeeds, which proposes the
      new draft as the next version; otherwise the archived row is itself the open latest proposal. */
  lemma RejectionOutcome(rows: seq<Row>, agentType: string, reason: string, outcome: Option<Draft>, now: int)
    requires LedgerOk(rows)
    ensures MutableLatest(rows, agentType).Err? ==>
              Rejected(rows, agentType, reason, outcome, now) == (rows, Err(MutableLatest(rows, agentType).error))
    ensures MutableLatest(rows, agentType).Ok? ==>
              var (rows', r) := Rejected(rows, agentType, reason, outcome, now);
              var current := MutableLatest(rows, agentType).value;
              && (r.Err? <==> RegenerationFails(rows, outcome))
              && (exists i :: 0 <= i < |rows| && rows[i] == current
                              && rows' == rows[i := Refused(current, reason)] + if r.Ok? then [r.value] else [])
              && MutableLatest(rows', agentType) == Ok(if r.Ok? then r.value else Refused(current, reason))
              && (MutableLatest(rows', agentType).value.version == current.version <==>
                  RegenerationFails(rows, outcome))
              && (r.Ok? ==>
                    && Carries(r.value, outcome.value) && r.value.version == current.version + 1
                    && r.value.status == Proposed && r.value.signature == None)
  {
    if MutableLatest(rows, agentType).Ok? {
      var i := RejectionArchives(rows, agentType, reason);
      var archived := rows[i := Refused(rows[i], reason)];
      var (rows', r) := Rejected(rows, agentType, reason, outcome, now);
      GenerationProposes(archived, agentType, outcome, now);
      LatestIsLast(archived, agentType);
      assert rows' == archived + if r.Ok? then [r.value] else [];
    }
  }

  /** The next approval signs the rejected row itself exactly when regeneration failed; otherwise it signs
      the newly proposed one and the rejected row stays archived. */
  lemma ApprovalAfterRejection(rows: seq<Row>, agentType: string, reason: string, outcome: Option<Draft>, now: int,
                               expert: string, later: int) returns (i: nat)
    requires LedgerOk(rows) && MutableLatest(rows, agentType).Ok?
    ensures i < |rows| && rows[i] == MutableLatest(rows, agentType).value
    ensures var rejected := Rejected(rows, agentType, reason, outcome, now).0;
            var (rows', r) := Signed(rejected, agentType, expert, later);
            && r.Ok? && |rows'| == |rejected| >= |rows|
            && rows'[i].rationale.rejectionReason == Some(reason)
            && (rows'[i].status == Approved <==> RegenerationFails(rows, outcome))
            && (rows'[i].status != Approved ==> rows'[i].status == Archived && rows'[|rows|] == r.value)
  {
    i := RejectionArchives(rows, agentType, reason);
    var archived := rows[i := Refused(rows[i], reason)];
    GenerationProposes(archived, agentType, outcome, now);
    LatestIsLast(archived, agentType);
    RejectKeeps(rows, agentType, reason, outcome, now);
    var (rejected, g) := Rejected(rows, agentType, reason, outcome, now);
    var k := UpdateHitsLatest(rejected, agentType, Signing(expert, later));
    var at := if g.Ok? then |rows| else i;
    VersionIsUnique(rejected, k, at);
  }

  // ---------- runs ----------

  datatype Op =
    | Generate(agentType: string, outcome: Option<Draft>, now: int)
    | Approve(agentType: string, expert: string, now: int)
    | Edit(agentType: string, expert: string, edits: Draft, now: int)
    | Reject(agentType: string, reason: string, outcome: Option<Draft>, now: int)

  function Step(rows: seq<Row>, op: Op): seq<Row> {
    match op
    case Generate(t, outcome, now) => Generated(rows, t, outcome, now).0
    case Approve(t, expert, now) => Signed(rows, t, expert, now).0
    case Edit(t, expert, edits, now) => Edited(rows, t, expert, edits, now).0
    case Reject(t, reason, outcome, now) => Rejected(rows, t, reason, outcome, now).0
  }

  function Run(rows: seq<Row>, ops: seq<Op>): seq<Row>
    decreases |ops|
  {
    if ops == [] then rows else Run(Step(rows, ops[0]), ops[1..])
  }

  lemma StepKeeps(rows: seq<Row>, op: Op)
    requires LedgerOk(rows)
    ensures LedgerOk(Step(rows, op)) && Extends(rows, Step(rows, op))
  {
    match op
    case Generate(t, outcome, now) => GenerateKeeps(rows, t, outcome, now);
    case Approve(t, expert, now) => ApproveKeeps(rows, t, expert, now);
    case Edit(t, expert, edits, now) => EditKeeps(rows, t, expert, edits, now);
    case Reject(t, reason, outcome, now) => RejectKeeps(rows, t, reason, outcome, now);
  }

  /** Over every run: versions stay 1..n, approved means signed, and signed or superseded rows are frozen. */
  lemma {:induction false} RunKeeps(rows: seq<Row>, ops: seq<Op>)
    requires LedgerOk(rows)
    ensures LedgerOk(Run(rows, ops)) && Extends(rows, Run(rows, ops))
    decreases |ops|
  {
    if ops == [] {
      ExtendsReflexive(rows);
    } else {
      StepKeeps(rows, ops[0]);
      RunKeeps(Step(rows, ops[0]), ops[1..]);
      ExtendsTransitive(rows, Step(rows, ops[0]), Run(rows, ops));
    }
  }

  /** Every ledger reachable from the empty one. */
  lemma ReachableLedgerOk(ops: seq<Op>)
    ensures LedgerOk(Run([], ops))
  {
    RunKeeps([], ops);
  }

  /** Once signed, a row is the same after every continuation of the run, and while it is the latest
      every review of its agent type is refused. */
  lemma SignedRowsAreFinal(rows: seq<Row>, ops: seq<Op>, i: nat)
    requires LedgerOk(rows) && i < |rows| && rows[i].signature.Some?
    ensures i < |Run(rows, ops)| && Run(rows, ops)[i] == rows[i]
    ensures !Superseded(rows, i) ==> MutableLatest(rows, rows[i].agentType) == Err(AlreadyApproved(rows[i].version))
  {
    RunKeeps(rows, ops);
    assert Preserved(rows, Run(rows, ops), i);
    if !Superseded(rows, i) {
      var t := rows[i].agentType;
      LatestIsLast(rows, t);
      CountSplit(rows, i, t);
      var j :| 0 <= j < |rows| && rows[j] == Latest(rows, t).value && !Superseded(rows, j);
    }
  }
}
