# Verified model of the apprentice phase

agent-worx lets a domain expert teach an agent type by answering questions. The answers grow a
knowledge graph; the graph is searched for gaps, scored for readiness and cut into clusters, from which
a team composition is proposed, reviewed and rehearsed in simulation sessions. This project models those
components in Dafny and proves what they promise, over all inputs and all runs.

Code that changes state step by step is written as classes and methods with loops, each proved against a
specification (`DisjointSets`, `KnowledgeGraph`, `Ledger`, `Manager`, `StateStore`, `Registry`, the
breadth-first search, the gap classifiers, the clustering loops). The theorems are lemmas about those
specifications, in the `...Theorems` modules and beside the code.

| file | subject |
|---|---|
| `Common.dfy` | optional values, insertion-ordered dictionaries, filters, half-even rounding |
| `UnionFind.dfy`, `Connectivity.dfy` | path-halving union-find; chains of non-handoff edges |
| `ProposalEngine.dfy`, `ClusterTheorems.dfy`, `CrossClusterEdges.dfy` | clusters, partition and order independence, candidate handoffs |
| `BoundedSearch.dfy`, `GapDetector.dfy`, `GapReports.dfy`, `GapPriorities.dfy` | depth-bounded search, gap classes, the prioritised report and what decides a place in it |
| `ContractValidator.dfy`, `SessionManager.dfy`, `SessionTheorems.dfy`, `HandoffTheorems.dfy` | messages against contracts, simulation sessions, closing; from messages to handoff edges |
| `ProposalLedger.dfy`, `LedgerTheorems.dfy`, `ApprovedSessions.dfy` | proposal versions and signatures; ledger and sessions together |
| `Requests.dfy` | the routes over both objects: each request is one step of the runs that the theorems are about |
| `GraphWriter.dfy`, `GraphTheorems.dfy`, `ConfidenceTheorems.dfy` | the upserting writer and every run of writes; what an answer makes of an edge |
| `AnswerProcessor.dfy`, `ConsistencyTheorems.dfy` | the contradiction gate; gate and writer together |
| `Readiness.dfy`, `ReadinessTheorems.dfy` | the score, its bounds and monotonicity |
| `AgentTypeRegistry.dfy` | creating an agent type, with compensation |

Modelling choices. Query results are sequences in arbitrary order. Confidences and scores are reals;
Python's `round` is half-even rounding of the exact value. Generated ids are parameters assumed fresh.
Foreign calls (language model, clock) are parameters: `outcome` is the parsed proposal or nothing when the
call or the parsing raised, `Extraction` is the parsed answer. Handlers are atomic steps. Python
dictionaries whose order matters are `Dict` values that keep insertion order. A namespace is one of the two
that `src/core/models.py` names, or any other text.

Findings. (1) The contradiction gate compares an answer only with the stored graph, so an answer that
contradicts itself can pass, for example on an empty graph: `SelfContradictionPassesGate` gives one,
`GateKeepsConsistency` the exact condition; apart from that the gate is exact (`GateIsExact`). (2) A rejection does not always close the row it archives:
it does exactly when regeneration succeeds (`RejectionOutcome`), and otherwise the next approval signs the
rejected row (`ApprovalAfterRejection`). (3) The two readiness thresholds are independent settings, so an agent
type can be ready for certification without being ready for a proposal: `CertReadyImpliesProposalReady` gives
the exact condition.

## Model

| member | source | states |
|---|---|---|
| Common.Round3IsNearest | src/apprentice/gap_detector.py:140-183 | a value rounded to three digits is the nearest thousandth, and of two equally near ones the even |
| Common.Round4IsNearest | src/apprentice/readiness_scorer.py:25-37 | a value rounded to four digits is the nearest ten-thousandth, and of two equally near ones the even |
| UnionFind.RootIsUnique | src/apprentice/proposal_engine.py:180-192 | in a parent forest a node has exactly one root: the only self-parented node its pointers lead to in any number of steps |
| UnionFind.HalvingKeepsForest | src/apprentice/proposal_engine.py:182-186 | redirecting a node to its grandparent changes no node's root and keeps the forest acyclic |
| UnionFind.LinkingMerges | src/apprentice/proposal_engine.py:188-192 | linking the right root under the left one, without ranks, keeps an acyclic forest whose classes are the old ones with exactly two merged |
| UnionFind.DisjointSets.constructor | src/apprentice/proposal_engine.py:180 | at the start every node is its own root |
| UnionFind.DisjointSets.Find | src/apprentice/proposal_engine.py:182-186 | terminates, returns the unique root, and changes no root although it rewrites parent pointers |
| UnionFind.DisjointSets.Union | src/apprentice/proposal_engine.py:188-192 | merges exactly the classes of its two arguments |
| Connectivity.CaseIsIgnored | src/apprentice/proposal_engine.py:322-323 | whether a relation is a handoff does not depend on the case of its letters |
| ProposalEngine.UnionAddsEdge | src/apprentice/proposal_engine.py:194-198 | if equal roots meant connected before an edge is united, they do after it, with that edge available to chains |
| ProposalEngine.UniteEdges | src/apprentice/proposal_engine.py:180-198 | after all edges two task nodes share a root exactly when a chain of non-handoff edges links them, read in either direction |
| ProposalEngine.GroupByRoot | src/apprentice/proposal_engine.py:200-202 | the groups are exactly the root classes in load order, although find keeps rewriting pointers while they are read |
| ProposalEngine.SplitBySize | src/apprentice/proposal_engine.py:204-216 | groups at the threshold become clusters in group order, the members of all others are collected in order |
| ProposalEngine.LeftoverContents | src/apprentice/proposal_engine.py:215-218 | the general bucket holds, without repetition, exactly the nodes of groups below the threshold |
| ProposalEngine.FindClusters | src/apprentice/proposal_engine.py:175-227 | the clusters are the connected components of at least 8 nodes, each once, and one final general cluster of all smaller components, absent exactly when there are none |
| ClusterTheorems.ClusterMembersBelongTogether | src/apprentice/proposal_engine.py:204-225 | two clustered nodes are in one cluster exactly when they are connected or both in small components |
| ClusterTheorems.EveryNodeIsPlaced | src/apprentice/proposal_engine.py:200-225 | every task node is in some cluster |
| ClusterTheorems.ClustersPartitionNodes | src/apprentice/proposal_engine.py:200-227 | every task node occurs exactly once over all clusters and the sizes add up to the node count |
| ClusterTheorems.ClusteringIgnoresOrder | src/apprentice/proposal_engine.py:175-227 | which nodes are clustered together depends on the node set and the edge set only, not on row order or repetition |
| CrossClusterEdges.LoadTaskNodes | src/apprentice/proposal_engine.py:290-303 | the node dictionary holds exactly the ids of the rows, in the order of their first rows, each with the label of its last row |
| CrossClusterEdges.HomesOf | src/apprentice/proposal_engine.py:234-237 | each clustered node is mapped to the last cluster that lists it, and no other node is mapped |
| CrossClusterEdges.FindCrossClusterEdges | src/apprentice/proposal_engine.py:230-262 | the edges between different clusters are reported once each, in row order, with both cluster names, and no others |
| CrossClusterEdges.CrossingMeansApart | src/apprentice/proposal_engine.py:250-252 | with generated ids a row is reported exactly when its ends share no cluster |
| CrossClusterEdges.ReportedEdgesAreHandoffs | src/apprentice/proposal_engine.py:194-262 | on one snapshot a row is reported exactly when it carries a handoff relation and its ends share no cluster |
| CrossClusterEdges.GatherCandidates | src/apprentice/proposal_engine.py:89-90 | clustering followed by edge extraction yields only handoff relations between distinct clusters, one per qualifying row |
| BoundedSearch.SkipKeepsSearch | src/apprentice/gap_detector.py:202-203 | dropping a queue entry already seen or too deep loses no node, because nothing was marked deeper than the front of the first-in-first-out queue |
| BoundedSearch.MarkKeepsSearch | src/apprentice/gap_detector.py:204-210 | marking the front and queueing its successors keeps soundness, queue layering and completeness |
| BoundedSearch.SearchIsComplete | src/apprentice/gap_detector.py:200-212 | when the queue is empty the end of every walk within the bound is marked, at a level no deeper than the walk is long |
| BoundedSearch.DependentsAreReached | src/apprentice/gap_detector.py:192-212 | the counted set holds exactly the nodes that end a walk of 1 to max_depth edges |
| BoundedSearch.CountDependentConcepts | src/apprentice/gap_detector.py:192-212 | terminates and returns the size of the set of all nodes that end a walk of 1 to max_depth edges, for any graph and any bound |
| GapDetector.GroupOutgoingEdges | src/apprentice/gap_detector.py:91-95 | each concept's list is exactly the edges that leave it, in order, and concepts come in the order of their first edge |
| GapDetector.GroupIncomingEdges | src/apprentice/gap_detector.py:98-102 | each concept's list is exactly the edges that enter it, in order, and concepts come in the order of their first edge |
| Common.FirstSeenKeepsOrder | src/apprentice/gap_detector.py:91-102 | the keys of a grouping are exactly the keys that occur, each once, in the order of their first occurrence |
| GapDetector.FindOrphanNodes | src/apprentice/gap_detector.py:105-125 | one orphan gap for each concept without edges, in concept order |
| GapDetector.MinConfidenceIsLeast | src/apprentice/gap_detector.py:139 | the rated confidence is the least among the low edges and is attained |
| GapDetector.FindLowConfidenceEdges | src/apprentice/gap_detector.py:128-153 | one gap for each source with a low edge, in the order of the grouped sources; LowIsExplained says what the gap holds |
| GapDetector.FindUnexploredBranches | src/apprentice/gap_detector.py:156-189 | one gap for each non-orphan task concept with fewer than two outgoing edges, in concept order; UnexploredIsExplained says what the gap holds |
| GapReports.SortIsStable | src/apprentice/gap_detector.py:39 | the sort is a descending permutation that keeps the order within every priority |
| GapReports.StableOrderIsUnique | src/apprentice/gap_detector.py:39 | a descending, stable arrangement is unique, so the report order is fully determined |
| GapReports.DetectGaps | src/apprentice/gap_detector.py:28-48 | the report is the stable descending sort of the three classes with their exact counts; it is empty exactly on a fully explored graph; GapPriorities says what the priorities are |
| GapReports.NoGapsMeansFullyExplored | src/apprentice/gap_detector.py:28-48 | no gap is reported exactly when every concept has an edge, no edge is below 0.4 and every task concept has at least two outgoing edges |
| GapReports.UnderexploredIsClassified | src/apprentice/gap_detector.py:105-189 | a task concept with fewer than two outgoing edges is exactly one of orphan and unexplored |
| GapReports.LowGapsAreUrgent | src/apprentice/gap_detector.py:139-149 | a low-confidence gap has breadth at least 1 and priority at least 0.6 |
| GapReports.UnexploredGapsAreUrgent | src/apprentice/gap_detector.py:170-185 | an unexplored gap has priority at least 0.75 |
| GapReports.UnexploredSeverityIsGraded | src/apprentice/gap_detector.py:170-176 | the severity is 1 without outgoing edges and 0.75 with one |
| GapReports.LowSeverityInUnit | src/apprentice/gap_detector.py:140 | a low-confidence severity lies in [0.6, 1], so validation never rejects the gap |
| GapReports.OrphansComeLast | src/apprentice/gap_detector.py:38-39 | in the report every orphan follows every other gap |
| GapPriorities.OrphanIsRated | src/apprentice/gap_detector.py:112-124 | an orphan gap has severity 1, breadth 0 and priority 0 |
| GapPriorities.WeakestSetsSeverity | src/apprentice/gap_detector.py:134-140 | a low-confidence severity is the rounded distance from certainty of the weakest edge that leaves the concept, which is below 0.4 |
| GapPriorities.PriorityIsProduct | src/apprentice/gap_detector.py:149-185 | a priority is the product of severity and breadth, rounded to three digits |
| GapPriorities.LowIsExplained | src/apprentice/gap_detector.py:134-151 | every low-confidence gap belongs to a concept with a low edge: its severity is that of the weakest edge, its breadth the number of concepts reachable in 1 to 3 steps, its priority that of both |
| GapPriorities.UnexploredIsExplained | src/apprentice/gap_detector.py:170-187 | every unexplored gap has severity 1 without and 0.75 with an outgoing edge, its breadth is the number of concepts reachable in 1 to 3 steps but at least 1, its priority that of both |
| GapPriorities.MoreReachIsMoreUrgent | src/apprentice/gap_detector.py:149-185 | at equal severity more breadth gives a strictly larger priority |
| GapPriorities.MoreReachComesFirst | src/apprentice/gap_detector.py:36-39 | in the report, of two gaps of one kind and severity the one with more breadth comes first |
| GapPriorities.ClassBreaksTies | src/apprentice/gap_detector.py:36-39 | gaps of equal priority come in the order orphans, low confidence, unexplored |
| ContractValidator.FindAgent | src/apprentice/simulation/contract_validator.py:73-77 | returns the first contract of that name, or none |
| ContractValidator.ReceiverIsNamed | src/apprentice/simulation/contract_validator.py:73-77 | a found contract is the first of the list with that name, and none is found exactly when no contract has it |
| ContractValidator.ValidateMessage | src/apprentice/simulation/contract_validator.py:6-46 | one pending violation per offending field, in message order |
| ContractValidator.ViolationsAreExact | src/apprentice/simulation/contract_validator.py:12-44 | a violation is reported exactly for a message field that the receiver forbids, does not declare, or has no contract for, with that reason |
| ContractValidator.ViolationsInOrder | src/apprentice/simulation/contract_validator.py:12-44 | the k-th violation is about the k-th offending field of the message |
| ContractValidator.CleanMessage | src/apprentice/simulation/contract_validator.py:12-46 | a message passes exactly when the receiver has a contract that declares every field and forbids none |
| ContractValidator.ApplyResolution | src/apprentice/simulation/contract_validator.py:49-70 | the loop builds the contracts that ResolutionIsChecked and ClarificationTakesEffect are about, and raises the same errors |
| ContractValidator.ResolutionIsChecked | src/apprentice/simulation/contract_validator.py:55-60 | accepted are an edge case and a clarification with text; a clarification without text and any other resolution have their own error |
| ContractValidator.ClarificationTakesEffect | src/apprentice/simulation/contract_validator.py:49-70 | a clarification declares the field with its type at the contracts of the receiver of the violation and at no others, and so removes exactly that receiver's undeclared violations of the field from every later message; an edge case changes no contract |
| ContractValidator.ClarificationRemovesExactly | src/apprentice/simulation/contract_validator.py:62-70 | one clarification removes exactly that field's undeclared violations at that receiver, for all later messages, and no others |
| ProposalLedger.Ledger.GetLatestProposal | src/apprentice/proposal_review_service.py:15-31 | returns the row of the highest version of the agent type, or none |
| ProposalLedger.Ledger.RequireMutableLatest | src/apprentice/proposal_review_service.py:169-178 | fails when there is no proposal or the latest is approved or signed |
| ProposalLedger.Ledger.PersistProposal | src/apprentice/proposal_engine.py:110-172 | inserts a covered draft as the next version, and otherwise changes nothing |
| ProposalLedger.Ledger.ApproveProposal | src/apprentice/proposal_review_service.py:34-58 | the table becomes the approval step that ApprovalSigns and RunKeeps are about; a refusal leaves it unchanged |
| ProposalLedger.Ledger.EditProposal | src/apprentice/proposal_review_service.py:61-128 | the table becomes the edit step that EditInstalls and RunKeeps are about; a refusal or a duplicate id leaves it unchanged |
| ProposalLedger.Ledger.RejectProposal | src/apprentice/proposal_review_service.py:131-166 | archives the latest row with the reason and then generates; the archiving stays when regeneration fails |
| LedgerTheorems.LatestIsLast | src/apprentice/proposal_review_service.py:18-27 | the latest proposal is the row inserted last for its agent type and its version is the number of rows |
| LedgerTheorems.VersionsAreConsecutive | src/apprentice/proposal_engine.py:136-141 | the versions of an agent type are exactly 1..n, each once |
| LedgerTheorems.GenerationProposes | src/apprentice/proposal_engine.py:110-172 | generation succeeds exactly for a draft that gives a rationale for every agent and for every handoff under from->to, under an unused id; the draft becomes the unsigned latest row, created now; otherwise the ledger is untouched, with the error of the step that failed |
| LedgerTheorems.ApprovalSigns | src/apprentice/proposal_review_service.py:34-58 | an accepted approval signs the latest row and changes nothing else in the table |
| LedgerTheorems.EditInstalls | src/apprentice/proposal_review_service.py:61-128 | an accepted edit archives the old latest row with its content and installs the edits as the next version, approved and signed; the agent type then accepts no review |
| LedgerTheorems.RunKeeps | src/apprentice/proposal_review_service.py:34-178 | in every run of generate, approve, edit and reject: versions stay 1..n, approved means signed, signed or superseded rows never change, and no row ever changes its content |
| LedgerTheorems.ReachableLedgerOk | src/apprentice/proposal_review_service.py:34-178 | in every ledger reachable from the empty one versions are 1..n and approved means signed |
| LedgerTheorems.SignedRowsAreFinal | src/apprentice/proposal_review_service.py:169-178 | a signed row is the same after every continuation, and while it is the latest every review is refused |
| LedgerTheorems.RejectionOutcome | src/apprentice/proposal_review_service.py:131-166 | whatever the generator answers: a rejection is refused with nothing changed exactly when the latest row is not mutable; otherwise exactly that row is archived with the reason, and the latest row is a new unsigned proposal of the next version, or the archived row itself exactly when regeneration fails (no draft, incomplete rationale or a used id) |
| LedgerTheorems.ApprovalAfterRejection | src/apprentice/proposal_review_service.py:34-166 | the approval after a rejection always succeeds; it signs the rejected row exactly when regeneration failed, and otherwise signs the new row while the rejected one stays archived |
| SessionManager.StatsStep | src/apprentice/simulation/session_manager.py:284-290 | counting one more observation gives the clean and total counts of the longer list, for every pair |
| SessionManager.CollectPairStats | src/apprentice/simulation/session_manager.py:281-290 | the table holds exactly the pairs that occur, each with its clean and total observation counts |
| SessionManager.Manager.StartSession | src/apprentice/simulation/session_manager.py:44-57 | opens a session on the latest composition with a copy of its contracts, or fails unless it is approved |
| SessionManager.Manager.SubmitTurn | src/apprentice/simulation/session_manager.py:67-107 | appends the validated turn that SubmitRecords describes, or refuses a closed or paused session and changes nothing |
| SessionManager.Manager.ResolveViolation | src/apprentice/simulation/session_manager.py:110-156 | takes the step that ResolvingIsChecked and ResolutionEffects describe, or fails and changes nothing |
| SessionManager.Manager.MarkCoordEdges | src/apprentice/simulation/session_manager.py:147-153 | flags exactly the violation observations that involve both agents |
| SessionManager.Manager.UpsertAgentRoles | src/apprentice/simulation/session_manager.py:232-277 | one upsert per working contract |
| SessionManager.Manager.UpsertHandoffEdge | src/apprentice/simulation/session_manager.py:302-351 | sets the confidence of an existing edge, creates it between two existing roles, else does nothing |
| SessionManager.Manager.WriteHandoffEdges | src/apprentice/simulation/session_manager.py:280-299 | every pair of positive confidence is counted and its edge gets the rounded clean share where it can be written; all other edges are untouched |
| SessionManager.Manager.CloseSession | src/apprentice/simulation/session_manager.py:159-192 | writes roles and handoffs, closes the session and stores the summary, or fails and changes nothing |
| SessionTheorems.RunKeeps | src/apprentice/simulation/session_manager.py:67-192 | in every reachable session state only the last turn can hold pending violations, each turn's pause flag agrees with its pending count, observations match turns, and the working contracts are the starting ones with the recorded clarifications replayed |
| SessionTheorems.LastTurnCountsAll | src/apprentice/simulation/session_manager.py:195-202 | the count over the last turn equals the count over the whole history, and is zero exactly when nothing anywhere is pending |
| SessionTheorems.SubmitIsGated | src/apprentice/simulation/session_manager.py:73-79 | a message is refused exactly when the session is closed or a violation is pending anywhere in its history |
| SessionTheorems.SubmitRecords | src/apprentice/simulation/session_manager.py:81-107 | an accepted message adds one turn of the sender with one observation per violation, or one learned observation without any, each between the sender and the addressed receiver |
| SessionTheorems.ResolvingIsChecked | src/apprentice/simulation/session_manager.py:116-132 | which requests to resolve are accepted, and the error of each other one |
| SessionTheorems.ResolutionEffects | src/apprentice/simulation/session_manager.py:127-155 | a resolution settles only the addressed violation, as asked; a clarification is recorded for the receiver with its field and type, removes exactly that receiver's violations of the field from later messages and flags every observation of the turn; an edge case changes no contract and no observation |
| SessionTheorems.ClosedOnlyShrinks | src/apprentice/simulation/session_manager.py:67-156 | a closed session stays closed and its pending count never grows, although resolving stays possible |
| SessionTheorems.ReplayKeepsContracts | src/apprentice/simulation/session_manager.py:127-135 | however many clarifications follow, names, outputs, prohibitions and the order of contracts stay as approved |
| SessionTheorems.SchemaGrowsByWrites | src/apprentice/simulation/contract_validator.py:62-70 | an input schema grows by exactly the clarified fields and keeps the type of every other field |
| SessionTheorems.ProhibitedAlwaysPauses | src/apprentice/simulation/contract_validator.py:26-35 | in every reachable state a field the approved composition prohibits for a receiver violates and pauses the session |
| SessionTheorems.ClosingConserves | src/apprentice/simulation/session_manager.py:168-229 | captured observations equal clean turns plus all violations, and the per-pair totals add up to them |
| SessionTheorems.ConfidenceIsCleanShare | src/apprentice/simulation/session_manager.py:293-296 | a pair's unrounded confidence lies in [0, 1], is positive exactly with a clean observation and 1 exactly without violations |
| HandoffTheorems.RunCounts | src/apprentice/simulation/session_manager.py:67-107 | after any run the observations count, for every pair, exactly the accepted messages between the two: one for a clean message, one violation per offending field, whatever was resolved in between |
| HandoffTheorems.HandoffsOfRun | src/apprentice/simulation/session_manager.py:280-299 | a pair is counted at close exactly when some accepted message from the first to the second met contracts under which it was clean |
| HandoffTheorems.ClosingHandoffs | src/apprentice/simulation/session_manager.py:280-351 | an edge exists after closing exactly when it did before, or its pair was cleanly observed and both ends have roles; every other edge keeps its confidence |
| HandoffTheorems.HandoffWeights | src/apprentice/simulation/session_manager.py:159-351 | over a whole session, the edge between two agents of the composition ends up with the rounded share of clean messages among what was exchanged between them, and is untouched without a clean one |
| SessionTheorems.EdgesAreCleanPairs | src/apprentice/simulation/session_manager.py:280-299 | the number of handoff edges in a summary is determined by the observations: it is the number of distinct pairs with a clean one |
| SessionTheorems.LastContractWins | src/apprentice/simulation/session_manager.py:251-277 | after closing the role of a name carries the last contract of that name |
| SessionTheorems.OtherRolesKept | src/apprentice/simulation/session_manager.py:232-277 | roles of other agent types and names are untouched |
| SessionTheorems.HandoffsOfContractsAreWritten | src/apprentice/simulation/session_manager.py:280-351 | closing writes the rounded clean share of every cleanly observed pair of agents of the composition |
| ApprovedSessions.RunKeeps | src/apprentice/simulation/session_manager.py:44-57 | in every run of reviews, starts and session events each session's recorded version names a signed, approved row, each summary's session is closed with no more pending than the summary says, and every closed session has exactly one summary |
| ApprovedSessions.ReachableWorldOk | src/apprentice/simulation/session_manager.py:44-57 | the same in every world reachable from an empty ledger without sessions |
| ApprovedSessions.BackingRowNeverChanges | src/apprentice/simulation/session_manager.py:44-134 | that row is the same field for field at the end of any continuation, and the working contracts are its contracts with the clarifications replayed |
| ApprovedSessions.BackingRowIsUnique | src/apprentice/simulation/session_manager.py:49-52 | the recorded version names one row only |
| ApprovedSessions.ClosedMeansSummarised | src/apprentice/simulation/session_manager.py:159-192 | in every such world a session is closed exactly when a summary is stored for it, and no session has two |
| ApprovedSessions.CertReadsNewest | src/apprentice/cert1_service.py:75-90 | the status is the unresolved count of the newest summary of the agent type, and 1 when there is none |
| ApprovedSessions.CertZeroMeansNothingPending | src/apprentice/cert1_service.py:75-90 | when the certification status reads zero, the session of the newest summary of the agent type is closed, has nothing pending in its whole history and ran on a signed composition |
| Requests.ReviewProposal | src/api/routes/proposals.py:31-62 | the ledger goes through exactly the step of the run theorems that the request names |
| Requests.CreateSession | src/api/routes/simulations.py:20-25 | ledger and sessions go through the start step of the run theorems, whether or not the session is opened |
| Requests.PostTurn | src/api/routes/simulations.py:36-55 | a message is the submit step of the run theorems on its session and leaves everything else alone |
| Requests.ResolveTurnViolation | src/api/routes/simulations.py:57-69 | a resolution is the resolve step on its session and leaves everything else alone |
| Requests.CloseOnce | src/apprentice/simulation/session_manager.py:159-192 | closing succeeds exactly on an open session and stores and answers the one summary that the session determines |
| Requests.Close | src/api/routes/simulations.py:72-79 | closing is the close step of the run theorems, summary included |
| Requests.Serve | src/api/routes/simulations.py:20-79 | every request takes the two objects through one step of the runs and keeps the invariant that ReachableWorldOk establishes |
| GraphWriter.KnowledgeGraph.FindOrCreateConcept | src/apprentice/graph_writer.py:51-104 | matches the first concept of the label, raising its confidence only upwards, or creates a task concept |
| GraphWriter.KnowledgeGraph.UpsertRelation | src/apprentice/graph_writer.py:120-197 | skips a relation with an unknown end, bumps an existing triple or creates it at version 1 |
| GraphWriter.KnowledgeGraph.WriteToGraph | src/apprentice/graph_writer.py:21-48 | the graph afterwards, which AnswerDeterminesEdge, AnswerRaisesEdge and PlacedAllKeeps describe; created plus matched equals the entity count, created plus updated the relations with known ends |
| GraphTheorems.PlacedIsMax | src/apprentice/graph_writer.py:51-104 | an entity with a new label adds one task concept with its confidence; otherwise only the first concept of that label changes, to the larger confidence |
| GraphTheorems.PlacedAllKeeps | src/apprentice/graph_writer.py:40-104 | concepts keep id, label, namespace and place, lose no confidence, labels stay unique, and every entity label resolves to a concept of that label |
| GraphTheorems.ResolvedIdIsNamed | src/apprentice/graph_writer.py:127-214 | an end resolves exactly when the answer names it or the graph already has it, and to a concept of that label |
| GraphTheorems.EndsResolveByLabel | src/apprentice/graph_writer.py:127-134 | the name table of an answer is a cache: an end resolves to the first concept of its label, with or without it |
| GraphTheorems.LogDeterminesEdge | src/apprentice/graph_writer.py:139-197 | after any sequence of edge writes each triple's version and confidence are the count and the maximum of its writes, on top of what was there |
| GraphTheorems.LoggedKeeps | src/apprentice/graph_writer.py:139-197 | at most one edge per triple is preserved and no edge loses confidence or version |
| ConfidenceTheorems.AssignmentTiers | src/apprentice/graph_writer.py:107-117 | a follow-up is assigned 0.8; a direct relation 0.9 exactly from 0.85 up, 0.8 exactly from 0.5 up to 0.85, 0.6 exactly below |
| ConfidenceTheorems.AnswerDeterminesEdge | src/apprentice/graph_writer.py:107-197 | an edge that one answer adds has the number of relations about it as version and the worth of the surest of them as confidence |
| ConfidenceTheorems.AnswerRaisesEdge | src/apprentice/graph_writer.py:107-177 | an edge that was there gains one version per relation about it, and its confidence rises to the worth of the surest of them or stays |
| ConfidenceTheorems.UpsertSetsEveryCopy | src/apprentice/graph_writer.py:155-177 | an upsert sets every stored copy of its triple to the same confidence and version and touches no other edge |
| GraphTheorems.RelationsAreAccountedFor | src/apprentice/graph_writer.py:120-197 | written plus skipped relations equal the relation count |
| GraphTheorems.WrittenKeeps | src/apprentice/graph_writer.py:21-48 | one answer keeps the graph well-formed, labels and triples unique, and lowers no confidence |
| GraphTheorems.KnownEntitiesCreateNothing | src/apprentice/graph_writer.py:51-104 | entities create no concept exactly when every label is known already, and then no label resolves differently than before |
| GraphTheorems.KnownTriplesCreateNothing | src/apprentice/graph_writer.py:139-197 | writes create no edge exactly when every written triple exists already |
| GraphTheorems.KnownAnswerCreatesNothing | src/apprentice/graph_writer.py:21-48 | an answer creates no concept and no edge exactly when all its labels are known and every relation with known ends has its edge already |
| GraphTheorems.RunDeterminesEdge | src/apprentice/graph_writer.py:139-197 | in any run, from any graph with unique triples, the version of each edge the run added is the number of times its triple was written and its confidence the largest ever assigned |
| GraphTheorems.RunKeeps | src/apprentice/graph_writer.py:21-197 | in any run of writes unique labels and unique triples survive and no confidence falls |
| AnswerProcessor.CheckContradictions | src/apprentice/answer_processor.py:122-157 | returns none exactly when no relation contradicts a stored edge, and otherwise a conflict that names both labels of the first such relation, and an edge that contradicts it with its relation and confidence |
| AnswerProcessor.ProcessAnswer | src/apprentice/answer_processor.py:68-102 | asks a follow-up exactly when ambiguous or below 0.5, accepts exactly when the gate passes, and reports the first conflict otherwise; GateIsExact and ConflictIsJustified say when that is |
| AnswerProcessor.SubmitAnswer | src/api/routes/apprentice.py:57-62 | only an accepted answer changes the graph, and only then is the score written from the new graph, with each flag under its own key and no other key changed |
| ConsistencyTheorems.PassesMeansNoRival | src/apprentice/answer_processor.py:126-143 | the gate passes exactly when no edge above 0.5 between the two labels of a relation of the answer carries another relation |
| ConsistencyTheorems.RefusalIsJustified | src/apprentice/answer_processor.py:122-157 | on any well-formed graph, writing a refused answer would leave two relations between the same labels |
| ConsistencyTheorems.GateIsExact | src/apprentice/answer_processor.py:122-157 | writing an answer keeps a good graph consistent exactly when the gate lets it pass and it does not contradict itself on known ends |
| ConsistencyTheorems.ConflictIsJustified | src/apprentice/answer_processor.py:68-102 | an unambiguous answer of confidence 0.5 or more is written, or else nothing is and writing it would break consistency |
| ConsistencyTheorems.GateKeepsConsistency | src/apprentice/answer_processor.py:122-157 | an accepted answer keeps a consistent graph consistent exactly when it does not contradict itself on ends that are known when it is written |
| ConsistencyTheorems.SelfContradictionPassesGate | src/apprentice/answer_processor.py:126-143 | an answer with two relations for one label pair is accepted on an empty graph and leaves it inconsistent |
| ConsistencyTheorems.WrittenAtLeast | src/apprentice/graph_writer.py:107-177 | no write takes an edge below 0.6 |
| ConsistencyTheorems.AnswersStayConsistent | src/api/routes/apprentice.py:57-62 | over any run of self-consistent answers no two edges between the same labels ever carry different relations and none falls below 0.6 |
| ConsistencyTheorems.AnswersFromNoEdges | src/api/routes/apprentice.py:57-62 | the same from any concepts without edges, such as those of a new agent type |
| ConsistencyTheorems.NoLowConfidenceGaps | src/apprentice/gap_detector.py:128-153 | after any such run the gap detector reports no low-confidence gap |
| Readiness.ComputeNodeCoverage | src/apprentice/readiness_scorer.py:50-70 | the share of task concepts that are an end of some edge, 0 without task concepts |
| Readiness.ComputeConfidenceMean | src/apprentice/readiness_scorer.py:84-94 | the mean edge confidence, 0 without edges |
| ReadinessTheorems.CoverageCountsEnds | src/apprentice/readiness_scorer.py:50-70 | coverage is the number of task concepts that are source or target of an edge over the number of task concepts |
| Readiness.StateStore.ComputeAndStore | src/apprentice/readiness_scorer.py:21-47 | the rounded score 0.40 coverage + 0.35 density + 0.25 mean, its rounded parts, the flags against the configured thresholds or 0.55 and 0.80, each under its own key, and no other key changed |
| ReadinessTheorems.ScoreInUnit | src/apprentice/readiness_scorer.py:22-30 | the unrounded score lies in [0, 1] and is 1 exactly when every task concept is an end, there are five edges per concept and every edge has confidence 1 |
| ReadinessTheorems.WriterRunBound | src/apprentice/readiness_scorer.py:25-30 | on graphs built by the writer alone the score is at most 0.975, and 0.80 forces 2.5 edges per concept and coverage of at least 0.5625 |
| ReadinessTheorems.ReconfirmingNeverLowers | src/apprentice/graph_writer.py:51-197 | an answer whose labels are all known and whose relations with known ends all have their edge already never lowers the score |
| ReadinessTheorems.StrongEdgeNeverLowers | src/apprentice/readiness_scorer.py:73-94 | a further edge at or above the mean confidence never lowers the score |
| ReadinessTheorems.RoundedInUnit | src/apprentice/readiness_scorer.py:25-41 | rounding keeps the reported score in [0, 1] |
| ReadinessTheorems.GradeIsReached | src/apprentice/readiness_scorer.py:22-36 | every multiple of 0.0001 in [0, 1] is the score of a well-formed graph, so no reported value is out of reach |
| ReadinessTheorems.CertReadyImpliesProposalReady | src/apprentice/readiness_scorer.py:38-39 | with the certification threshold at or above the proposal threshold, as by default, cert-ready implies proposal-ready; with any thresholds it does so on every well-formed graph exactly when no possible score is at least the first and below the second |
| AgentTypeRegistry.Registry.Populate | src/core/agent_type_service.py:65-87 | up to the failing call the concepts so far are added, without failure all concepts and the three keys |
| AgentTypeRegistry.Registry.Compensate | src/core/agent_type_service.py:88-98 | undoing restores the agent table and the concept set and removes the three keys |
| AgentTypeRegistry.Registry.CreateAgentType | src/core/agent_type_service.py:22-114 | for every topic list and failure point: failure restores table and concepts exactly and leaves no state key, success adds one row and one fresh zero-confidence task concept per topic |
| AgentTypeRegistry.RootsAreWellFormed | src/core/agent_type_service.py:68-83 | the concepts of a new agent type are well-formed, with unique labels exactly when no topic is listed twice |
| AgentTypeRegistry.FreshTypeScoresZero | src/core/agent_type_service.py:68-87 | a new agent type scores 0, and every root is a zero-confidence task concept |

## Left out

- Language model calls, prompts, JSON extraction and formatting: foreign or plain text.
- Databases, drivers, schemas and migrations: replaced by sequences and maps. A failing write of the session summary or of a later key is not modelled.
- HTTP routes other than the order process, write, score in `submit_answer` and the requests of `Requests.dfy`; status codes, and the route that reads a session, are not modelled.
- Rewriting of generated questions that mention known concepts, and follow-up questions: text only.
- Floating-point storage and Python's rounding of binary fractions: reals, rounded half-even.
- Timestamps are integers supplied by the caller; ids are supplied and assumed fresh.
- Interleaving inside one handler: every handler is one atomic step.
- Phases 2 and 3, certification decisions and events.
- CountDependentConcepts: takes the grouped edges as a value, because the original never changes them.
- Manager.ResolveViolation: takes the index as a natural number; a negative index is not modelled.
- Requests.ResolveTurnViolation: takes a natural number in the same way.
- Manager.CloseSession: agent roles are kept by agent type and name, so role ids and a graph that already holds two roles of one name are not modelled; closing times are not stored.
- Turns, violations and observations are values inside the session; a session's own observation list holds references to the turns' observations, which stands for the shared objects of the original.
- ValidateMessage: the reason text is an enumeration of its three causes.
- Registry.CreateAgentType: a failing call is taken to have no effect of its own and compensation to succeed; defaults used when state keys are missing are not modelled.
