/** Messages against agent contracts: src/apprentice/simulation/contract_validator.py:6-77. */
module ContractValidator {
  import opened Common

  datatype AgentContract = AgentContract(
    agentName: string, inputSchema: map<string, string>, outputSchema: map<string, string>,
    prohibitedFields: seq<string>)

  /** Why a field violates: the receiver has no contract, forbids the field, or does not declare it. */
  datatype Reason = NoContract | Prohibited | Undeclared

  datatype Resolution = Pending | ClarifyContract | MarkEdgeCase

  datatype Violation = Violation(field: string, reason: Reason, fromAgent: string, toAgent: string,
                                 resolution: Resolution)

  datatype ResolutionError = UnknownResolution | MissingClarification

  // ---------- specification ----------

  /** The first contract of that name, as `_find_agent` returns it. */
  function Receiver(agents: seq<AgentContract>, name: string): Option<AgentContract> {
    if agents == [] then None
    else if agents[0].agentName == name then Some(agents[0])
    else Receiver(agents[1..], name)
  }

  function Judge(receiver: Option<AgentContract>, field: string): Option<Reason> {
    if receiver.None? then Some(NoContract)
    else if field in receiver.value.prohibitedFields then Some(Prohibited)
    else if field !in receiver.value.inputSchema then Some(Undeclared)
    else None
  }

  /** One pending violation per offending field, in message order. */
  function Violations(fields: seq<string>, fromAgent: string, toAgent: string, agents: seq<AgentContract>)
    : seq<Violation>
  {
    if fields == [] then [] else
      var n := |fields| - 1;
      var verdict := Judge(Receiver(agents, toAgent), fields[n]);
      Violations(fields[..n], fromAgent, toAgent, agents) +
      if verdict.Some? then [Violation(fields[n], verdict.value, fromAgent, toAgent, Pending)] else []
  }

  function ClarifiedAgent(agent: AgentContract, name: string, field: string, fieldType: string): AgentContract {
    if agent.agentName == name then agent.(inputSchema := agent.inputSchema[field := fieldType]) else agent
  }

  /** Every contract of that name declares the field; all else is kept. */
  function Clarified(agents: seq<AgentContract>, name: string, field: string, fieldType: string)
    : (r: seq<AgentContract>)
    ensures |r| == |agents|
  {
    seq(|agents|, i requires 0 <= i < |agents| => ClarifiedAgent(agents[i], name, field, fieldType))
  }

  /** The updated contracts and whether a coordination write is due. */
  function Resolved(violation: Violation, resolution: string, clarification: Option<string>, agents: seq<AgentContract>)
    : Result<(seq<AgentContract>, bool), ResolutionError>
  {
    if resolution == "mark_edge_case" then Ok((agents, false))
    else if resolution != "clarify_contract" then Err(UnknownResolution)
    else if clarification.None? || clarification.value == "" then Err(MissingClarification)
    else Ok((Clarified(agents, violation.toAgent, violation.field, clarification.value), true))
  }

  // ---------- the code ----------

  /** contract_validator.py:73-77 */
  method FindAgent(agentName: string, agents: seq<AgentContract>) returns (found: Option<AgentContract>)
    ensures found == Receiver(agents, agentName)
  {
    for i := 0 to |agents|
      invariant Receiver(agents, agentName) == Receiver(agents[i..], agentName)
    {
      if agents[i].agentName == agentName {
        return Some(agents[i]);
      }
      assert agents[i..][1..] == agents[i + 1..];
    }
    return None;
  }

  /** contract_validator.py:6-46 */
  method ValidateMessage(fields: seq<string>, fromAgent: string, toAgent: string, agents: seq<AgentContract>)
    returns (violations: seq<Violation>)
    ensures violations == Violations(fields, fromAgent, toAgent, agents)
  {
    var receivingAgent := FindAgent(toAgent, agents);
    violations := [];
    if receivingAgent.None? {
      for i := 0 to |fields|
        invariant violations == Violations(fields[..i], fromAgent, toAgent, agents)
      {
        assert fields[..i + 1][..i] == fields[..i];
        violations := violations + [Violation(fields[i], NoContract, fromAgent, toAgent, Pending)];
      }
      assert fields[..|fields|] == fields;
      return;
    }
    for i := 0 to |fields|
      invariant violations == Violations(fields[..i], fromAgent, toAgent, agents)
    {
      var field := fields[i];
      assert fields[..i + 1][..i] == fields[..i];
      if field in receivingAgent.value.prohibitedFields {
        violations := violations + [Violation(field, Prohibited, fromAgent, toAgent, Pending)];
      } else if field !in receivingAgent.value.inputSchema {
        violations := violations + [Violation(field, Undeclared, fromAgent, toAgent, Pending)];
      }
    }
    assert fields[..|fields|] == fields;
  }

  /** contract_validator.py:49-70 */
  method ApplyResolution(violation: Violation, resolution: string, clarification: Option<string>,
                         agents: seq<AgentContract>)
    returns (r: Result<(seq<AgentContract>, bool), ResolutionError>)
    ensures r == Resolved(violation, resolution, clarification, agents)
  {
    if resolution == "mark_edge_case" {
      return Ok((agents, false));
    }
    if resolution != "clarify_contract" {
      return Err(UnknownResolution);
    }
    if clarification.None? || clarification.value == "" {
      return Err(MissingClarification);
    }
    var updatedAgents: seq<AgentContract> := [];
    for i := 0 to |agents|
      invariant updatedAgents == Clarified(agents, violation.toAgent, violation.field, clarification.value)[..i]
    {
      var agent := agents[i];
      if agent.agentName == violation.toAgent {
        var inputSchema := agent.inputSchema[violation.field := clarification.value];
        updatedAgents := updatedAgents + [agent.(inputSchema := inputSchema)];
      } else {
        updatedAgents := updatedAgents + [agent];
      }
    }
    assert updatedAgents == Clarified(agents, violation.toAgent, violation.field, clarification.value);
    return Ok((updatedAgents, true));
  }

  // ---------- what validation means ----------

  ghost predicate IsViolation(v: Violation, fields: seq<string>, fromAgent: string, toAgent: string,
                              agents: seq<AgentContract>)
  {
    && v.field in fields
    && v.fromAgent == fromAgent && v.toAgent == toAgent && v.resolution == Pending
    && match Receiver(agents, toAgent)
       case None => v.reason == NoContract
       case Some(a) =>
         if v.field in a.prohibitedFields then v.reason == Prohibited
         else v.field !in a.inputSchema && v.reason == Undeclared
  }

  lemma {:induction false} ViolationsAreExact(fields: seq<string>, fromAgent: string, toAgent: string,
                                              agents: seq<AgentContract>)
    ensures forall v :: v in Violations(fields, fromAgent, toAgent, agents) <==>
            IsViolation(v, fields, fromAgent, toAgent, agents)
    ensures |Violations(fields, fromAgent, toAgent, agents)| <= |fields|
  {
    if fields != [] {
      var n := |fields| - 1;
      ViolationsAreExact(fields[..n], fromAgent, toAgent, agents);
      assert fields == fields[..n] + [fields[n]];
    }
  }

  ghost function OffendTest(receiver: Option<AgentContract>): string -> bool {
    field => receiver.None? || field in receiver.value.prohibitedFields || field !in receiver.value.inputSchema
  }

  /** The violations follow the message: the k-th is about the k-th offending field. */
  lemma {:induction false} ViolationsInOrder(fields: seq<string>, fromAgent: string, toAgent: string,
                                             agents: seq<AgentContract>)
    ensures var offending := Filter(fields, OffendTest(Receiver(agents, toAgent)));
            var violations := Violations(fields, fromAgent, toAgent, agents);
            |violations| == |offending| && forall k :: 0 <= k < |offending| ==> violations[k].field == offending[k]
  {
    if fields != [] {
      var n := |fields| - 1;
      ViolationsInOrder(fields[..n], fromAgent, toAgent, agents);
    }
  }

  /** A message passes exactly when the receiver has a contract that declares every field and forbids none. */
  lemma CleanMessage(fields: seq<string>, fromAgent: string, toAgent: string, agents: seq<AgentContract>)
    ensures Violations(fields, fromAgent, toAgent, agents) == [] <==>
            forall f :: f in fields ==>
              && Receiver(agents, toAgent).Some?
              && f !in Receiver(agents, toAgent).value.prohibitedFields
              && f in Receiver(agents, toAgent).value.inputSchema
  {
    ViolationsAreExact(fields, fromAgent, toAgent, agents);
    var vs := Violations(fields, fromAgent, toAgent, agents);
    if vs != [] {
      assert vs[0] in vs;
      assert IsViolation(vs[0], fields, fromAgent, toAgent, agents);
    } else {
      forall f | f in fields
        ensures Judge(Receiver(agents, toAgent), f) == None
      {
        var verdict := Judge(Receiver(agents, toAgent), f);
        if verdict.Some? {
          assert IsViolation(Violation(f, verdict.value, fromAgent, toAgent, Pending), fields, fromAgent, toAgent,
                             agents);
          assert false;
        }
      }
    }
  }

  /** The contract a message meets after a clarification: the first of that name, clarified. */
  lemma {:induction false} ClarifiedReceiver(agents: seq<AgentContract>, name: string, field: string, fieldType: string,
                                             to: string)
    ensures Receiver(Clarified(agents, name, field, fieldType), to) ==
            match Receiver(agents, to) case None => None case Some(a) => Some(ClarifiedAgent(a, name, field, fieldType))
  {
    if agents != [] && agents[0].agentName != to {
      ClarifiedReceiver(agents[1..], name, field, fieldType, to);
      assert Clarified(agents, name, field, fieldType)[1..] == Clarified(agents[1..], name, field, fieldType);
    }
  }

  predicate Survives(v: Violation, name: string, field: string) {
    !(v.reason == Undeclared && v.toAgent == name && v.field == field)
  }

  ghost function SurvivorTest(name: string, field: string): Violation -> bool {
    (v: Violation) => Survives(v, name, field)
  }

  /** One clarification removes exactly the undeclared-field violations of that field at that receiver,
      for every later message between any two agents, and touches no other violation. */
  lemma {:induction false} ClarificationRemovesExactly(
    fields: seq<string>, fromAgent: string, toAgent: string, agents: seq<AgentContract>, name: string, field: string,
    fieldType: string)
    ensures Violations(fields, fromAgent, toAgent, Clarified(agents, name, field, fieldType)) ==
            Filter(Violations(fields, fromAgent, toAgent, agents), SurvivorTest(name, field))
  {
    if fields != [] {
      var n := |fields| - 1;
      ClarificationRemovesExactly(fields[..n], fromAgent, toAgent, agents, name, field, fieldType);
      ClarifiedReceiver(agents, name, field, fieldType, toAgent);
      ReceiverIsNamed(agents, toAgent);
      var after := Clarified(agents, name, field, fieldType);
      var before := Violations(fields[..n], fromAgent, toAgent, agents);
      var verdict, verdict' := Judge(Receiver(agents, toAgent), fields[n]), Judge(Receiver(after, toAgent), fields[n]);
      if verdict.Some? {
        var v := Violation(fields[n], verdict.value, fromAgent, toAgent, Pending);
        FilterAppend(before, v, SurvivorTest(name, field));
        assert Violations(fields, fromAgent, toAgent, agents) == before + [v];
        assert verdict' == if Survives(v, name, field) then verdict else None;
      } else {
        assert verdict' == None;
        assert Violations(fields, fromAgent, toAgent, agents) == before;
      }
    }
  }

  /** Contract i is the first of that name. */
  ghost predicate IsFirst(agents: seq<AgentContract>, name: string, i: nat) {
    i < |agents| && agents[i].agentName == name && forall j :: 0 <= j < i ==> agents[j].agentName != name
  }

  lemma {:induction false} ReceiverIsNamed(agents: seq<AgentContract>, name: string)
    ensures Receiver(agents, name).Some? ==>
            exists i: nat :: IsFirst(agents, name, i) && Receiver(agents, name) == Some(agents[i])
    ensures Receiver(agents, name).None? <==> forall a :: a in agents ==> a.agentName != name
  {
    if agents != [] {
      if agents[0].agentName == name {
        assert IsFirst(agents, name, 0);
      } else {
        ReceiverIsNamed(agents[1..], name);
        assert agents == [agents[0]] + agents[1..];
        if Receiver(agents, name).Some? {
          var i: nat :| IsFirst(agents[1..], name, i) && Receiver(agents[1..], name) == Some(agents[1..][i]);
          assert IsFirst(agents, name, i + 1) by {
            forall j | 0 <= j < i + 1
              ensures agents[j].agentName != name
            {
              assert j > 0 ==> agents[1..][j - 1] == agents[j];
            }
          }
        }
      }
    }
  }

  /** Which resolutions are accepted, and the error of each other one. */
  lemma ResolutionIsChecked(v: Violation, resolution: string, clarification: Option<string>, agents: seq<AgentContract>)
    ensures var r := Resolved(v, resolution, clarification, agents);
            var missing := clarification == None || clarification == Some("");
            && (r.Ok? <==> resolution == "mark_edge_case" || (resolution == "clarify_contract" && !missing))
            && (r == Err(MissingClarification) <==> resolution == "clarify_contract" && missing)
            && (r.Ok? ==> (r.value.1 <==> resolution == "clarify_contract"))
  {
    assert "mark_edge_case"[0] != "clarify_contract"[0];
  }

  /** Whom a clarification concerns: at the receiver of the violation the field is declared with the
      clarified type, so exactly the violations of its kind vanish from every later message; every other
      contract stays. An edge case changes no contract. */
  lemma ClarificationTakesEffect(v: Violation, resolution: string, clarification: Option<string>,
                                 agents: seq<AgentContract>)
    requires Resolved(v, resolution, clarification, agents).Ok?
    ensures var updated := Resolved(v, resolution, clarification, agents).value.0;
            && |updated| == |agents|
            && (resolution != "clarify_contract" ==> updated == agents)
            && (resolution == "clarify_contract" ==>
                  && clarification.Some?
                  && (forall i :: 0 <= i < |agents| && agents[i].agentName != v.toAgent ==> updated[i] == agents[i])
                  && (forall i :: 0 <= i < |agents| && agents[i].agentName == v.toAgent ==>
                        updated[i].inputSchema == agents[i].inputSchema[v.field := clarification.value]
                        && updated[i] == agents[i].(inputSchema := updated[i].inputSchema))
                  && (forall fields, a, b ::
                        Violations(fields, a, b, updated) ==
                        Filter(Violations(fields, a, b, agents), SurvivorTest(v.toAgent, v.field))))
  {
    ResolutionIsChecked(v, resolution, clarification, agents);
    if resolution == "clarify_contract" {
      forall fields, a, b
        ensures Violations(fields, a, b, Resolved(v, resolution, clarification, agents).value.0) ==
                Filter(Violations(fields, a, b, agents), SurvivorTest(v.toAgent, v.field))
      {
        ClarificationRemovesExactly(fields, a, b, agents, v.toAgent, v.field, clarification.value);
      }
    }
  }
}
