# Path Diversity Fabric: a verified model

Path Diversity Fabric decides whether sets of network paths are independent, keeps a
registry of those verdicts while evidence, policies, publishers and fences move under it,
and stores and ships the verdicts as bytes.  This project models those three parts in Dafny
and proves what they promise.

## How it is organised

**The evaluator.** `Ordering` and `TotalOrder` (identity order, in-place sort and compaction,
sorted intersection, unique sorted forms), `Triangle` (matrix addressing), `Graph` (the memoized exact solver, the greedy
canonical witness, the exhaustive cross-check), `Evidence` (policies, structure, evidence,
results), `PairClasses` and `Evaluator` (the reference evaluation against one snapshot),
`ConflictOrder` and `Verdicts` (what its lists and outcomes mean).  `LiveViews`, `LiveClasses`, `LiveMatrix`,
`SetEvaluation` and `LiveEvaluation` are the program's loops over views that may move between
any two reads; each is proved against the reference.  `Observations` states what the reads of
an unlocked evaluation find, and derives snapshot isolation from it; `Samples` holds small
concrete inputs.

**The runtime.** `Authority` and `Lifecycle`; `Registry`, `Invalidation` and `Operations`
(every operation under the state lock as a function on the whole state, the eight reverse
indexes, the theorems about single operations); `Protocol` and `Runs` (the state machine: an
evaluation is admitted, reads without the lock, takes the lock, checks the epoch, checks the
fence and commits in separate steps, interleaved with every other operation; invariants and
theorems over all runs); `Runtime` (the stateful object, every method proved equal to its
operation), `Consultation` and `Guarantees` (the end-to-end statements), `Callers`, `Progress`
and `Reachability` (their premises can be met, and exactly which decisive verdicts can become
current proofs).  The read step of the state machine takes whatever the reads of an unlocked
evaluation can find (`Observations.Observable`), coherent views or not; only the theorems
about verdicts ask for coherent views.  Its load step takes whatever the stores offer: the
safety theorems hold for any stores, and the runs that are exhibited load only what some
accepted store file holds (`Loading.Loadable`).

**The codecs.** `Bytes`, `Fnv`, `Digest`, `Wire`; `RecordParts`, `Records`, `PolicyRecords`,
`Snapshots` and `Store` (layout, what is accepted, and round trips, as functions),
`RecordStreams`, `RecordWriters`, `SnapshotStreams` and `StoreStreams` (the cursor and the
buffer the program uses, proved against them), `ResultShape` and `Persistence` (evaluator output
against the record decoder), `Sizes` and `Loading` (how few bytes bring a policy, and what a load
can find), `Identity` and `IdentityDigests` (what the two content digests hash).

Views are a function of time (`world(t)`), and every question to a view may find a later
instant than the one before; nothing is assumed about what writers do except
`Coherent`: content is a function of the generation that labels it, generations never
decrease, and an authorization that was withdrawn does not come back at its generation (the
last is needed: `Samples.IsolationNeedsLastingWithdrawal`).
A proof's identity is its canonical request and its semantic digest is its semantic content:
the byte streams the digests hash are proved to tell contents apart (`Identity`), and only
the absence of hash collisions is assumed.

## Where the code and its documentation differ

- A class with a conflict and incomplete evidence is NOT_DIVERSE also under
  REQUIRE_COMPLETE_EVIDENCE (`Samples.ConflictOutweighsMissingEvidence`); the model follows
  the code, where completeness only decides between classes.
- A call can commit nothing and keep its attempt (`Operations.UnchangedIsNotReleased`); the
  exact condition, on what is known before the call's last phase, is
  `Operations.ReleaseIffRefused`, and over runs `Runs.EndedCallsAreAccountedFor`.
- Revalidation that finds nothing new returns the stored revision even if it was demoted
  (`Operations.RevalidationIsUnchanged`), and evaluating the request of a revoked proof
  replaces it (`Operations.CommitIgnoresLifecycle`, `Operations.RevokedProofComesBack`); only
  `revalidate` and the lifecycle operation treat terminal states as final.
- Bytes that arrive after a stream has failed are dropped, so the left-over count can differ
  from the whole stream's (`Wire.DroppedChunkExists`, `Wire.LeftOverIffNothingDropped`).
- The frame encoder does not refuse reserved identifiers that the decoder refuses
  (`Wire.FrameRoundTrip`).
- A policy description may be four times as long as a stored policy's
  (`PolicyRecords.PolicyRoundTrip`).
- A registration refused for lack of room still fences the publisher's other boots
  (`Authority.RefusedRegistration`).
- Domain demotions are exact only for proofs that consulted at most `max_domain_evidence_entries`
  domains (`Guarantees.DomainIndexAnswersWithinBound`, `Consultation.CutListIsMissed`); the
  documentation mentions the bound of the index, not that a demotion can miss a proof.
- Evaluator output is only decodable when the classes a policy does not require fit
  `max_required_classes` (`Persistence.EvaluatorOutputSurvives`).

## Model

| member | source | states |
|---|---|---|
| Guarantees.CurrentProofsAreTrue | src/runtime.cpp:183-438 | End to end: over coherent views, in every reachable state of every interleaving, a current proof that was not read from a store was committed under exactly a policy that had been published, with the identity and generation the proof names, before its call began; it is the atomic verdict at an instant between that beginning and the commit, at the generations it binds, and at that instant PROVEN means what the semantics says (every pair free and complete, or K independent paths in every completion) |
| Reachability.DecisiveVerdictsBecomeCurrent | src/runtime.cpp:74-438 | The converse without a load: a decisive verdict that the evidence gives at any instant becomes a current proof, committed under exactly this policy, in some run of well-formed calls if and only if the policy is canonical and more attempts are tracked than its generation counts publications |
| Reachability.DecisiveVerdictsBecomeCurrentAfterLoad | src/runtime_store.cpp:40-107 | The converse in full: it becomes one in some run, loads of decodable store files included, if and only if the policy is available: its record fits and so does the store file that holds it alone, or it is canonical and can be published with an attempt to spare, from generation one or on top of the smallest policy of the generation before that a store file can hold |
| Runs.CurrentTakesTwoAttempts | src/authority.cpp:195-243 | Two tracked attempts are also necessary: until the first load, limits that track one attempt allow no current proof in any reachable state |
| Reachability.ProvenProofsBecomeCurrent | src/runtime_store.cpp:40-54 | Under self-consistent limits some coherent views, policy and request lead to a current proof of independence, committed in the run, if and only if two attempts are tracked or a store file may have 57 bytes |
| Verdicts.AllPairsOutcome | src/evaluate_set.cpp:394-438 | Absence of evidence is never independence: under ALL_PAIRS the outcome is the declarative set verdict, and it is PROVEN_DIVERSE exactly when for every pair and required class nothing is shared and everything the class consults is COMPLETE |
| Samples.ConflictOutweighsMissingEvidence | src/evaluate_set.cpp:394-438 | Two paths over one link, known only in part: although complete evidence is required the outcome is NOT_DIVERSE |
| Verdicts.SubsetOutcome | src/evaluate_set.cpp:317-371 | Under AT_LEAST_K the outcome is PROVEN exactly when K mutually independent paths exist in every completion of the unknown pairs, NOT_DIVERSE exactly when in none, otherwise the policy's unknown outcome; a PROVEN witness passes `verify_witness` and has at least K paths |
| Verdicts.NoRetraction | src/evaluate_set.cpp:394-438 | Refining failure-domain and shared-risk evidence never retracts PROVEN_DIVERSE or NOT_DIVERSE, for both semantics and both completeness modes |
| Verdicts.DecisiveReachesMatrix | src/evaluate_set.cpp:117-320 | A decisive outcome is only reached through every shape, authority, structure and limit check |
| Verdicts.ArrivalOrderIrrelevant | src/pathset.cpp:38-89 | Two permutations of a request canonicalize to one request and evaluate to one result: matrix, witness, outcome, dependencies |
| Verdicts.CanonicalPathOrder | src/pathset.cpp:16-40 | Every multiset of references has one sorted order, by path and then by authority generation, and the sort produces it |
| ConflictOrder.PrecedenceIsTotal | src/proof.cpp:182-193 | The precedence of shared resources (kind, identity, relation, indices) is a strict total order |
| ConflictOrder.CanonicalConflictOrder | src/proof.cpp:195-197 | Two lists with the same conflicts have one canonical form, which is sorted by the precedence |
| ConflictOrder.PrimaryIsFirst | src/evaluate_set.cpp:284-293 | A cell has a primary conflict exactly when it has any, and it is the first of all of them by precedence |
| ConflictOrder.PolicyOrderIrrelevant | src/policy.cpp:116-119 | Policies listing the same classes and relations in different orders canonicalize to one policy |
| Verdicts.ExtremeCompletions | src/evaluate_graph.cpp:161-179 | The conservative and the optimistic graph are themselves completions of the unknown pairs, and every completion lies between them |
| Verdicts.AggregateOutcome | src/evaluate_graph.cpp:187-225 | Set-wise aggregation: a conflict anywhere dominates, then an unknown, and evidence is complete exactly when it is for every source |
| Verdicts.IndependentListIsVerified | src/evaluate_graph.cpp:294-310 | Every maximum independent list of the conservative graph is a verified witness: every pair's cell exists, is independent and complete |
| PairClasses.ClassVerdict | src/evaluate_pair.cpp:399-472 | Each class result carries exactly the verdict of what the two paths share and of the coverage it consulted, with a bounded, counted list that is non-empty only for a conflict |
| PairClasses.ConflictsAreGenuine | src/evaluate_pair.cpp:115-146 | Every listed conflict names an entity, domain or group the pair really shares, under the relation it is filed under |
| PairClasses.ClassNoRetraction | src/evaluate_pair.cpp:272-397 | A class verdict that is PROVEN or NOT_DIVERSE stays so when evidence is refined |
| PairClasses.AddAllEffect | src/evaluate_pair.cpp:137-146 | Adding conflicts counts all of them, keeps at most the bound, and changes nothing else of the result |
| Graph.MisSolver.Cardinality | src/evaluate_graph.cpp:67-95 | The memoized recursion returns the true maximum independent set size of the candidates, and every memo entry stays exact across calls |
| Graph.AlphaBranch | src/evaluate_graph.cpp:72-94 | The branching step is exact: the maximum is the larger of leaving the vertex out and taking it without its neighbours |
| Graph.AlphaAntitone | src/evaluate_graph.cpp:161-179 | A graph with more conflicts never has a larger maximum independent set |
| Graph.FirstExtending | src/evaluate_graph.cpp:104-124 | A reconstruction round finds the lowest vertex that extends to a maximum set, and finds one exactly when one exists |
| Graph.MisWitness | src/evaluate_graph.cpp:96-128 | The greedy reconstruction always makes progress and returns the canonical witness |
| Graph.WitnessIsMaximumList | src/evaluate_graph.cpp:96-128 | The canonical witness is strictly ascending, independent, within the candidates and of maximum size |
| Graph.WitnessIsSmallest | src/evaluate_graph.cpp:96-128 | It is the lexicographically smallest maximum independent list |
| Graph.MisExhaustive | src/evaluate_graph.cpp:132-159 | The scan over all masks returns an ascending maximum independent set |
| Graph.TestMask | src/evaluate_graph.cpp:136-152 | The inner loops accept a mask exactly when its members are pairwise unconnected, and list them in order |
| SetEvaluation.CrossCheckedWitness | src/evaluate_set.cpp:326-336 | The two computations never disagree: the cross-check always reports an exact maximum |
| SetEvaluation.FindSubset | src/evaluate_set.cpp:317-371 | The subset step returns the specified finding; its last branch is unreachable |
| SetEvaluation.GraphFromMatrix | src/evaluate_graph.cpp:161-179 | The fill loops build the symmetric conservative or optimistic graph of the matrix |
| SetEvaluation.VerifyWitness | src/evaluate_graph.cpp:294-310 | The check accepts exactly the index lists whose pairs are distinct, known, independent and complete |
| SetEvaluation.MaximumIndependentSubset | src/evaluate_graph.cpp:312-342 | The public entry point returns the canonical maximum, exact, or reports why it was not asked |
| SetEvaluation.AggregateClass | src/evaluate_graph.cpp:187-225 | The aggregation loop over gathered results computes the specified bounded aggregate |
| SetEvaluation.AggregateClasses | src/evaluate_set.cpp:373-391 | One aggregate per class, in order |
| SetEvaluation.SubsetCells | src/evaluate_set.cpp:63-75 | The cells of all pairs of a subset, in row-major order |
| SetEvaluation.ClassifyResults | src/evaluate_set.cpp:394-438 | The flags of the loop decide the outcome as specified, malformed first |
| SetEvaluation.CollectConflicts | src/evaluate_set.cpp:443-451 | The bounded conflict list is the canonical order of the first conflicts, next to their full count |
| SetEvaluation.ConcludeEvaluation | src/evaluate_set.cpp:312-452 | Steps five and six together compute the specified conclusion of a matrix |
| Triangle.CellOrder | src/proof.cpp:202-219 | Cell indices are strictly increasing in row-major order, hence injective |
| Triangle.EveryCellHasOnePair | src/proof.cpp:202-219 | Every cell below the count belongs to exactly one pair i < j |
| Triangle.CellIndexIsRowPlusColumn | src/proof.cpp:202-215 | The halving is exact and the index does not depend on the order of its arguments |
| Triangle.CellInRange | src/proof.cpp:202-219 | Every pair's index is below n(n-1)/2 |
| Verdicts.MatrixAt | src/proof.cpp:221-232 | `at(i, j)` and `at(j, i)` are the cell built for that pair |
| LiveMatrix.FillMatrix | src/evaluate_set.cpp:251-310 | While the evidence stands still the fill loop writes every cell once with the pair's classification and consults exactly the domains and groups the set touches |
| LiveMatrix.ClassifyPair | src/evaluate_pair.cpp:476-516 | The required classes come first with their verdicts, every other class is consulted as an advisory |
| LiveMatrix.RemapCell | src/evaluate_graph.cpp:26-39 | Conflict lists are renamed to the pair's indices and put in canonical order |
| LiveMatrix.KeepRequired | src/evaluate_set.cpp:268-273 | Only required classes stay in a cell |
| LiveMatrix.BuildCell | src/evaluate_set.cpp:274-293 | A cell is independent exactly when every class is proven with complete evidence; its primary conflict is the first in canonical order |
| LiveClasses.SingleClass | src/evaluate_pair.cpp:399-472 | Every class evaluator, over live views, returns the specified class result when the evidence stands still |
| LiveClasses.FailureDomainClass | src/evaluate_pair.cpp:405-465 | Folding the relations one by one equals the specified merge |
| LiveClasses.DomainRelationClass | src/evaluate_pair.cpp:307-352 | One relation: shared domains of both footprints, complete only if every entity's entry is |
| LiveClasses.CollectDomains | src/evaluate_pair.cpp:272-288 | The collected domains are exactly those of the footprint, ascending, complete only if every entry is COMPLETE |
| LiveClasses.ExemptEndpoints | src/evaluate_pair.cpp:75-105 | The exempted nodes are exactly the specified ones for each policy setting |
| Ordering.IntersectSorted | src/evaluate_pair.cpp:30-48 | The two-pointer loop returns the strictly ascending intersection of two ascending lists |
| Ordering.CanonicalSortUnique | include/path_diversity/canonical.hpp:88-107 | In place: the prefix holds the strictly ascending sequence with the same elements |
| Ordering.ExchangeSort | include/path_diversity/canonical.hpp:90-98 | The exchange loops leave a sorted permutation of what the array held |
| Ordering.AscendingUnique | include/path_diversity/canonical.hpp:88-107 | A set of identities has one strictly ascending listing |
| LiveEvaluation.EvaluateUnlocked | src/runtime.cpp:238-264 | The unlocked phase returns nothing but what its reads found, whatever the writers do in between; over coherent views an undrifted conclusive result is therefore the atomic evaluation at one instant of the interval |
| Observations.ObservableIsIsolated | src/runtime.cpp:238-264 | Snapshot isolation of the reads: whatever an unlocked evaluation can return from what its reads find, an undrifted conclusive result is the atomic evaluation at one instant of the interval, if the views are coherent |
| Observations.EvidenceOfOneInstant | src/runtime.cpp:238-264 | Without any promise about authorizations the evidence behind the verdict is still that of one instant, and every path was backed before it and again after it |
| Observations.AtomicIsObservable | src/runtime.cpp:238-264 | A decisive atomic evaluation whose watermarks are read again at once is among the things an unlocked evaluation can return |
| Samples.IsolationNeedsLastingWithdrawal | src/runtime.cpp:248-264 | When a withdrawn authorization may return, isolation fails: an undrifted PROVEN_DIVERSE is observed although the atomic evaluation is UNAUTHORIZED at every instant |
| LiveEvaluation.EvaluateDiversity | src/evaluate_set.cpp:91-453 | The evaluation over moving views equals the atomic one whenever the evidence it read stood still |
| LiveEvaluation.ResolvePaths | src/evaluate_set.cpp:193-241 | Structures are resolved in order and the first refusal is final |
| LiveEvaluation.CheckAuthority | src/evaluate_set.cpp:155-179 | Without a verdict every path was backed at some instant of the interval |
| LiveEvaluation.CollectFootprint | src/evaluate_set.cpp:218-249 | The sorted unique footprint of all structures |
| LiveEvaluation.FootprintMembers | src/evaluate_set.cpp:242-243 | Nothing is lost or added: the canonical footprint lists exactly the entities |
| LiveEvaluation.FootprintIsSorted | src/evaluate_set.cpp:242-243 | Grouping by kind and ordering within a kind is the order of the sort |
| Runs.SnapshotIsolation | src/runtime.cpp:183-438 | Every current proof in every reachable state that was not read from a store was committed as it stands, is decisive, used exactly a policy published (or loaded) before its call began under the identity and generation it names, and, as far as observations are faithful, is the verdict at one instant between the beginning and the reading of its call at the generations it binds |
| Runs.EveryCommitIsIsolated | src/runtime.cpp:267-438 | The same for every revision ever committed as current, demoted or replaced since, loads included |
| Runs.FenceSafety | src/runtime_ops.cpp:155-161 | Once fencing a boot has returned, no later state before the next load holds a current proof of that boot, whatever was loaded earlier and wherever the fence landed in an evaluation |
| Runs.AtMostOneCommitPerAttempt | src/authority.cpp:195-243 | In every run one attempt commits at most one revision or policy generation |
| Runs.AttemptsAreAccountedFor | src/authority.cpp:195-243 | In every reachable state the attempts that evaluations and publications have taken are exactly those of calls in flight and those that ended with a policy, a revision or nothing new to say, and none is both |
| Runs.EndedCallsAreAccountedFor | src/runtime.cpp:267-438 | When a call ends, in any run, its attempt is released exactly if it committed nothing, except when, as could be seen before the commit step, the expected stored revision already said the same: then it ends without a revision and keeps its attempt |
| Runs.GenerationsCountPublications | src/runtime.cpp:74-147 | In every run a policy's generation counts its accepted publications, unless a load brought a policy of its identity |
| Runs.CommitNeedsPolicy | src/runtime.cpp:74-147 | In every run a revision is only ever committed under a policy published from generation one on, by as many attempts as its generation and one for the evaluation, or, after a load, one that a store brings or that was published on top of one a store brings |
| Runs.IndexesAnswerForTheRegistry | src/runtime.cpp:417-432 | In every reachable state, loads included, every current proof is indexed under everything it binds, those committed in the run also under every domain and group they list as consulted (at most max_domain_evidence_entries of each), and every entry comes from a committed or loaded revision |
| Runs.ConsultedEntriesAreExact | src/runtime.cpp:417-432 | Until the first load the proofs found under a domain or group are exactly those of which some revision lists it as consulted |
| Guarantees.DomainIndexAnswersWithinBound | src/evaluate_set.cpp:299-310 | Over coherent views a current proof committed in the run is found under every domain and group consulted at its instant, and reached by every demotion of one of these domains, if they are at most max_domain_evidence_entries; without a load, for the only revision of its identity, if and only if |
| Runs.DemotionsAreExact | src/runtime_ops.cpp:287-339 | Without a load a path demotion affects exactly the current proofs that bind the path, and a policy demotion exactly those of the policy below the generation |
| Runs.DomainDemotionsAreComplete | src/runtime_ops.cpp:256-285 | In every reachable state a domain demotion leaves current no proof committed in the run that lists one of the domains as consulted (at most max_domain_evidence_entries are listed) and binds an older generation |
| Runs.AuthorityOverRuns | src/authority.cpp:93-243 | Over every run the epoch never decreases, fences are never lifted, and the session invariant holds |
| Runs.RunHolds | src/runtime.cpp:183-438 | The invariant of the whole system holds at the end of every run |
| Runs.EventKeeps | src/runtime.cpp:183-438 | Every step of every operation, at the granularity of the locks, keeps it |
| Protocol.CommitKeeps | src/runtime.cpp:288-438 | The commit step keeps it, including the fence, log, attempt and index parts |
| Operations.ReleaseIffRefused | src/runtime.cpp:267-345 | Releasing the attempt and committing nothing come apart exactly when, before phase three, the policy, the epoch and the fence pass, the proof is stored at the expected generation below the maximum, and the stored revision already says the same; then nothing at all changes |
| Operations.UnchangedIsNotReleased | src/runtime.cpp:394-403 | A run in which an attempt commits nothing and is not released |
| Operations.RevalidationIsUnchanged | src/runtime.cpp:372-403 | Evaluating again what is stored commits nothing, whoever asks, and leaves the registry as it is |
| Operations.CommitIgnoresLifecycle | src/runtime.cpp:318-438 | What an evaluation commits depends on neither lifecycle nor currentness of the stored revision |
| Operations.RevokedProofComesBack | src/runtime.cpp:394-411 | A revoked proof that is current again after its request was evaluated |
| Operations.PublishEffect | src/runtime.cpp:74-147 | Exactly what an accepted publication adds; a refused one leaves everything as it was |
| Operations.PublishAdvancesByOne | src/runtime.cpp:100-147 | An accepted publication advances its own policy by one from the expected generation and no other policy |
| Progress.UninterruptedIsFinish | src/runtime.cpp:267-438 | Taken without interruption, the protocol's lock, epoch, fence and commit steps are the third phase of the evaluate method |
| Runtime.DiversityRuntime.Publish | src/runtime.cpp:74-147 | The method's new state and status are those of the specified publication |
| Runtime.DiversityRuntime.BeginPhase | src/runtime.cpp:183-236 | Phase one: admission, replay, unknown and stale policies |
| Runtime.DiversityRuntime.FinishPhase | src/runtime.cpp:267-438 | Phase three: policy, epoch and fence checked again in order, then the commit |
| Runtime.DiversityRuntime.CommitRevision | src/runtime.cpp:318-438 | Registry bound, expected generation, unchanged content, numbering, history and indexes as specified |
| Runtime.DiversityRuntime.Evaluate | src/runtime.cpp:183-438 | All three phases: what is committed as current is the verdict of one instant of the call under the policy that was published |
| Runtime.DiversityRuntime.Revalidate | src/runtime.cpp:440-456 | Unknown and terminal proofs are refused without any effect; otherwise the stored request is evaluated, and what is committed as current is the verdict of one instant of the call under the published policy |
| Runtime.DiversityRuntime.ChangeLifecycle | src/runtime_ops.cpp:65-124 | The lifecycle operation's new state and status, replays and illegal transitions included |
| Runtime.DiversityRuntime.FenceBoot | src/runtime_ops.cpp:155-161 | Fence, then demote every current proof of the boot |
| Runtime.DiversityRuntime.DemoteEach | src/runtime_ops.cpp:287-364 | The shared loop demotes exactly the current candidates its guard admits and touches no other record |
| Runtime.DiversityRuntime.DemoteOnPath | src/runtime_ops.cpp:287-310 | The method is the specified path demotion |
| Runtime.DiversityRuntime.DemoteOnPolicy | src/runtime_ops.cpp:312-339 | The method is the specified policy demotion |
| Runtime.DiversityRuntime.DemoteOnBoot | src/runtime_ops.cpp:341-364 | The method is the specified boot demotion |
| Runtime.DiversityRuntime.DemoteOnEntities | src/runtime_ops.cpp:163-196 | The method is the specified entity demotion |
| Runtime.DiversityRuntime.DemoteOnDomains | src/runtime_ops.cpp:256-285 | The method is the specified domain demotion |
| Runtime.DiversityRuntime.DemoteOnTopology | src/runtime_ops.cpp:198-225 | The method is the specified topology-generation demotion, index entries erased |
| Runtime.DiversityRuntime.DemoteOnDomainGeneration | src/runtime_ops.cpp:227-254 | The method is the specified domain-generation demotion, index entries erased |
| Runtime.DiversityRuntime.RefreshCurrentness | src/runtime_ops.cpp:366-446 | What is left current was backed when asked and under its published policy generation; the demotions are the specified refresh |
| Runtime.DiversityRuntime.Load | src/runtime_store.cpp:40-110 | Policies, records, histories, indexes, epoch and fences after a load |
| Runtime.BoundedResult | src/runtime_ops.cpp:450-462 | A repeat-free part of the answer, complete exactly when it was not truncated, with the full count |
| Runtime.UnlockedPhaseIsTrustworthy | src/runtime.cpp:238-264 | The protocol's read step takes exactly what an unlocked evaluation over the views can return, and calls trustworthy what the views call isolated |
| Runtime.CoherentViewsAreFaithful | src/runtime.cpp:238-264 | Over coherent views every observation the protocol's read step can take is trustworthy |
| Invalidation.CommitKeepsIndexes | src/runtime.cpp:417-432 | A commit keeps the indexes complete and sound |
| Invalidation.DemotePathIsScan | src/runtime_ops.cpp:287-310 | The path demotion leaves no current matching proof, changes nothing outside its result, and demotes only what some revision bound |
| Invalidation.DemotePolicyIsScan | src/runtime_ops.cpp:312-339 | The same for a policy below a generation |
| Invalidation.DemoteBootIsScan | src/runtime_ops.cpp:341-364 | The same for a boot |
| Invalidation.DemoteEntitiesIsScan | src/runtime_ops.cpp:163-196 | The same for topology entities below a generation |
| Invalidation.DemoteTopologyGenerationIsScan | src/runtime_ops.cpp:198-225 | After a topology-generation demotion no current proof is bound below the bound, and the erased entries keep the indexes complete |
| Invalidation.DemoteDomainGenerationIsScan | src/runtime_ops.cpp:227-254 | The same for failure-domain generations |
| Invalidation.DemoteDomainsIsJustified | src/runtime_ops.cpp:256-285 | A domain demotion affects only proofs some revision of which named the domain, and leaves none of the indexed ones current |
| Invalidation.DemoteDomainsIsScan | src/runtime_ops.cpp:256-285 | Where what revisions list as consulted is indexed, a domain demotion leaves current no proof that lists one of the domains (at most max_domain_evidence_entries) below the generation |
| Consultation.EvaluationListsConsulted | src/evaluate_set.cpp:299-310 | An evaluation that reaches the matrix lists, in order, the first of the domains and groups it consulted: exactly those before which fewer than max_domain_evidence_entries others come, so all of them if and only if they are no more than that |
| Consultation.ReachedIffFound | src/runtime_ops.cpp:256-285 | Demotions naming any of a set of domains, at any higher generation, all reach a current proof if and only if it is filed under every one of them |
| Consultation.CutListIsMissed | src/evaluate_set.cpp:299-310 | With room for one domain, a committed proof that consulted the domains m and n is filed under m alone, and no demotion of n reaches it |
| Invalidation.DemotePolicyIsExact | src/runtime_ops.cpp:312-339 | While revisions are stored under their own identities a policy demotion affects exactly the matching current proofs below the generation |
| Invalidation.RefreshKeepsComplete | src/runtime_ops.cpp:366-446 | A refresh demotes exactly the stale live proofs and keeps the indexes complete |
| Invalidation.ReindexingCompletes | src/runtime_store.cpp:61-102 | Whatever was loaded, after re-indexing every current proof is found under everything it binds |
| Invalidation.ReindexingIsSound | src/runtime_store.cpp:61-102 | Re-indexing adds only entries some stored revision accounts for |
| Authority.RunKeepsAuthority | src/authority.cpp:93-243 | Over every run of authority operations: invariant kept, epoch monotone, fences permanent |
| Authority.StepKeepsAuthority | src/authority.cpp:93-243 | Every operation keeps them, refused ones included |
| Authority.AdmitRefinesValidate | src/authority.cpp:165-238 | Admission adds a verdict of its own exactly when validation accepts, and validation accepts exactly the live, current, matching sessions |
| Authority.OneLiveBoot | src/authority.cpp:113-142 | Two accepted authorities of one publisher act for one boot |
| Authority.FencedBootIsNeverAdmitted | src/authority.cpp:144-163 | A fenced boot is never admitted or registered again, whatever happens in between |
| Authority.RefusedRegistration | src/authority.cpp:113-142 | A refused registration changes the state only when there is no room, and then fences exactly the publisher's other boots |
| Authority.PublicationAuthority.RegisterPublisher | src/authority.cpp:113-142 | The method's new state and status are those of the specified registration |
| Authority.PublicationAuthority.AdmitAttempt | src/authority.cpp:195-238 | The method's new state and status are those of the specified admission |
| Authority.PublicationAuthority.Restore | src/authority.cpp:93-106 | Restoring an epoch never lowers one that was restored before |
| Authority.PublicationAuthority.Fence | src/authority.cpp:144-157 | Fencing marks the boot and its session |
| Authority.PublicationAuthority.Check | src/authority.cpp:165-193 | Validation, in the order of its checks |
| Authority.PublicationAuthority.ForgetAttempt | src/authority.cpp:240-243 | Releasing removes exactly the attempt |
| Persistence.EvaluatorOutputSurvives | src/persistence_records.cpp:514-828 | A revision committed from an evaluation that reached the matrix comes back from its record, rest untouched, if and only if the unrequired classes fit the class bound and, unless it awaits revalidation, every generation and the epoch are set |
| ResultShape.EvaluationHasShape | src/evaluate_set.cpp:251-452 | Every such evaluation has bounded, counted lists, index pairs within the set, a strictly ascending subset no smaller than what it achieves, and no proven claim without complete evidence |
| Records.ProofRoundTrip | src/persistence_records.cpp:452-828 | decode(encode(p) followed by anything) is p with exactly the rest left, if and only if p is storable |
| Records.OnlyStorableIsTaken | src/persistence_records.cpp:514-828 | Whatever the bytes, every structural and semantic check holds of a decoded revision |
| Records.AcceptedBytesRewrite | src/persistence_records.cpp:452-828 | Accepted bytes can be written and read again |
| Records.ClassRoundTrip | src/persistence_records.cpp:109-169 | Class results that fit come back |
| Records.ClassFits | src/persistence_records.cpp:121-169 | No class result with an impossible count or an unsupported claim is decoded |
| Records.MatrixRoundTrip | src/persistence_records.cpp:485-503 | Matrices that fit come back |
| Records.MatrixFits | src/persistence_records.cpp:647-713 | No matrix with mismatched dimensions or foreign indices is decoded |
| Records.WitnessFits | src/persistence_records.cpp:262-308 | A decoded subset is strictly ascending, bounded and no smaller than what it achieves |
| Records.DependenciesRoundTrip | src/persistence_records.cpp:171-249 | Dependency bindings that fit come back |
| RecordParts.ConflictRoundTrip | src/persistence_records.cpp:71-107 | Shared resources that fit come back |
| RecordParts.IdRoundTrip | src/persistence_records.cpp:32-54 | Identities of the accepted alphabet and length come back |
| RecordParts.IdFits | src/digest.cpp:15-31 | No other identity is decoded |
| RecordParts.ListRoundTrip | src/persistence_records.cpp:56-69 | A counted list comes back when its length is within the bound and its items come back |
| PolicyRecords.PolicyRoundTrip | src/persistence_records.cpp:332-450 | A valid policy comes back if and only if its description fills at most a quarter of a record, although validation allows four times that |
| PolicyRecords.PolicyFits | src/persistence_records.cpp:353-450 | Whatever the bytes, a decoded policy is valid and bounded |
| RecordStreams.DecodeProof | src/persistence_records.cpp:514-828 | The reading method returns exactly the specified revision or reason and stops where the record ends |
| RecordStreams.DecodePolicy | src/persistence_records.cpp:353-450 | The same for policies |
| RecordStreams.ReadClass | src/persistence_records.cpp:121-169 | The same for class results |
| RecordStreams.ReadConflict | src/persistence_records.cpp:73-107 | The same for shared resources |
| RecordStreams.ReadDependencies | src/persistence_records.cpp:189-249 | The same for dependencies |
| RecordStreams.ReadWitness | src/persistence_records.cpp:262-308 | The same for witness subsets |
| RecordStreams.ReadMatrix | src/persistence_records.cpp:647-713 | The same for matrices |
| RecordWriters.EncodeProof | src/persistence_records.cpp:452-512 | The writing method appends exactly the encoding, whatever follows |
| RecordWriters.EncodePolicy | src/persistence_records.cpp:332-351 | The same for policies |
| Snapshots.SnapshotRoundTrip | src/persistence_store.cpp:308-558 | A snapshot comes back if and only if its parts fit, its digest is that of its content, and its identity is the derived one and within the identity bound |
| Snapshots.OnlySealedIsTaken | src/persistence_store.cpp:538-557 | Whatever the bytes, a decoded snapshot carries the recomputed digest of its content and the identity derived from it |
| Snapshots.CapturedSnapshotSurvives | src/snapshot.cpp:127-144 | The snapshot of a storable revision comes back if and only if its paths are within the snapshot bound and a derived identity is within the identity bound |
| Snapshots.DerivedIdIsValid | src/limits.cpp:149-151 | Every derived identity has 38 characters of the accepted alphabet |
| SnapshotStreams.DecodeSnapshot | src/persistence_store.cpp:343-558 | The reading method returns exactly the specified snapshot or reason |
| SnapshotStreams.EncodeSnapshot | src/persistence_store.cpp:308-341 | The writing method appends exactly the encoding |
| Snapshots.StoreWithSnapshots | src/persistence_store.cpp:563-872 | A store file with all seven sections comes back if and only if it is within its size bound, every section fits, and derived identities are within the identity bound if there are any snapshots |
| Store.StoreRoundTrip | src/persistence_store.cpp:563-872 | The same for any codec of the last section that gives back what it put; counts are never absurd |
| Store.StoreComesBack | src/persistence_store.cpp:563-872 | The same for a last codec that takes more from arbitrary bytes than it gives back from its own |
| Store.OneByteCorruptionIsCaught | src/persistence_store.cpp:635-653 | Changing exactly one byte of any encoded store, anywhere, makes decoding fail |
| Store.PayloadFits | src/persistence_store.cpp:655-872 | Whatever the payload, decoded contents satisfy every section's checks |
| Sizes.BroughtIffStoreFits | src/persistence_store.cpp:624-872 | Some bytes decode to a store that holds a given policy if and only if the policy fits its record and the store file of that policy alone is within the size bound: no accepted bytes, written by whatever encoder, bring it in less |
| Sizes.TakePolicySize | src/persistence_records.cpp:353-450 | No policy is read from fewer bytes than it is written in |
| Loading.LoadableIffStoreFits | src/runtime_store.cpp:40-64 | A load can find a policy in some store file under exactly the same condition |
| Store.HistoryRoundTrip | src/persistence_store.cpp:602-609 | History entries that fit come back |
| StoreStreams.ReadStore | src/persistence_store.cpp:624-872 | The reading method returns exactly the specified contents or reason, checks in order |
| StoreStreams.WriteStore | src/persistence_store.cpp:563-622 | The writing method produces exactly the encoding |
| Wire.FrameRoundTrip | src/wire.cpp:131-224 | A frame comes back if and only if its identifier is defined and not reserved and its payload fits; the encoder refuses only the payload |
| Wire.OneByteCorruptionIsCaught | src/wire.cpp:156-224 | Changing exactly one byte of an encoded frame makes decoding fail |
| Wire.ChunkingIsInvisible | src/wire.cpp:237-286 | Whatever the chunks, below the assembly bound, the frames and final status are those of the whole stream, and the left-over bytes differ only by what arrived after a failure |
| Wire.LeftOverIffNothingDropped | src/wire.cpp:237-252 | The left-over count is the whole stream's exactly when no chunk arrived after a failure |
| Wire.DroppedChunkExists | src/wire.cpp:238-240 | A stream whose second chunk is dropped |
| Wire.ConcatenationRoundTrip | src/wire.cpp:131-286 | A concatenation of encoded frames parses into exactly those frames with nothing left |
| Wire.ChunkedFramesComeBack | src/wire.cpp:237-286 | The same however the concatenation is cut into chunks |
| Wire.WriteFrame | src/wire.cpp:131-154 | The method produces the sealed frame or nothing |
| Wire.FrameAssembler.Append | src/wire.cpp:237-252 | Consumed bytes are dropped, the chunk is added, the bound is enforced, a failed stream takes nothing in |
| Wire.FrameAssembler.Next | src/wire.cpp:254-286 | One cut of the stream: wait, fail for good, or one frame and its bytes consumed |
| Wire.FrameAssembler.Feed | src/wire.cpp:237-286 | Append and drain equal one step of the specified assembly |
| Fnv.OneByteChangesHash | src/digest.cpp:217-225 | Changing one byte of any input changes the 64-bit hash |
| Fnv.StepInjective | src/digest.cpp:220-223 | A step is injective in the state and in the byte |
| Fnv.Fnv1a64 | src/digest.cpp:217-225 | The loop computes the specified hash |
| Digest.FnvMultiply | src/digest.cpp:72-88 | Four-limb schoolbook multiplication in place is multiplication by 2^64 + 0x13b modulo 2^128 |
| Digest.AccumulatorFits | src/digest.cpp:77-82 | The 64-bit accumulator never overflows and its carry is a limb |
| Digest.RowsAreProduct | src/digest.cpp:72-88 | All rows together are the product up to multiples of 2^128 |
| Digest.AddRow | src/digest.cpp:74-84 | One row adds its partial product, its carry leaving above the top limb |
| Digest.Streaming | src/digest.cpp:90-96 | Absorbing a then b is absorbing a followed by b, for every split |
| Digest.UpdateTwice | src/digest.cpp:117-138 | Two updates leave the sixteen bytes that one update with the joined input leaves |
| Digest.DigestState.Update | src/digest.cpp:117-138 | Rebuilding, absorbing and storing back equals absorbing into the stored value |
| Digest.Finalize | src/digest.cpp:98-105 | The sixteen bytes rebuild exactly the limbs |
| Digest.DigestOf | src/digest.cpp:109-115 | A fresh digest absorbs from the offset basis |
| Digest.RebuiltInjective | src/digest.cpp:98-138 | Different stored bytes are different limbs |
| Identity.RequestStreamInjective | src/pathset.cpp:77-89 | Two canonical requests that are hashed from one byte stream are one request |
| Identity.SemanticStreamInjective | src/pathset.cpp:130-203 | Two revisions feed the semantic digest one byte stream exactly when their semantic contents are equal |
| Identity.ContentRoundTrip | src/pathset.cpp:130-203 | The stream can be taken apart again into exactly the content |
| IdentityDigests.SemanticDigest | src/pathset.cpp:130-203 | All the small updates together absorb exactly that stream, starting from zero |
| IdentityDigests.RequestDigest | src/pathset.cpp:77-89 | The buffered digest absorbs exactly the request stream, starting from the offset basis |
| IdentityDigests.UpdateConflict | src/pathset.cpp:108-116 | One shared resource is absorbed as its encoding |
| IdentityDigests.UpdateClassContent | src/pathset.cpp:118-126 | One class result is absorbed as its encoding, detail and total left out |
| Bytes.TakePutVarint | src/canonical.cpp:31-41 | Every 64-bit varint comes back with the rest untouched |
| Bytes.OverlongIsAccepted | src/canonical.cpp:147-174 | Overlong forms decode too, so decoding is not injective |
| Bytes.LittleEndianRoundTrip | src/canonical.cpp:14-29 | Fixed-width integers come back |
| Bytes.FromLittleEndianInjective | src/canonical.cpp:96-145 | Different bytes of one width are different numbers |
| Bytes.TakePutBytes | src/canonical.cpp:43-55 | A byte string comes back, or is refused exactly when it is over the bound |
| Bytes.ByteWriter.WriteVarint | src/canonical.cpp:31-41 | The loop appends exactly the varint |
| Bytes.ByteReader.ReadVarint | src/canonical.cpp:147-174 | The shift loop, with its lost high bits and its tenth-byte rule, reads exactly the specified varint; the first failure sticks |
| Bytes.ByteReader.ReadBytes | src/canonical.cpp:176-192 | Over the bound, past the end and malformed lengths are told apart |
| Bytes.ByteReader.ReadBool | src/canonical.cpp:196-207 | Only zero and one are booleans |

## Left out

- Sockets, threads, file replacement, the command line, benchmarks, examples and the synthetic generator: input and output.
- Detail strings, rendering, explanations, diffs and enum-to-text tables: no state depends on them; stored revisions carry arbitrary bounded details.
- Runtime statistics, the snapshots a runtime keeps, batches of evaluations and the query methods beyond `Runtime.BoundedResult`: copies and counters around the modelled state.
- The payload codecs of single wire messages: they repeat the record codec's readers.
- Snapshots.SnapshotRoundTrip: the digest of a snapshot's content enters as any function to sixteen bytes.
- Hash collisions: proof identities and semantic contents stand for their digests; the streams themselves are proved injective in `Identity`.
- Cryptographic or standard strength of the 128-bit digest: the program uses its own multiplier, and that multiplier is what is modelled.
- Records.ProofRoundTrip: a digest field shorter than sixteen bytes is refused, where the program reads on past the end of the text it was given.
- Bytes.TakePutVarint: only decoding after encoding is a round trip; overlong forms and excess bits of a tenth byte are accepted, as in the code.
- Verdicts.NoRetraction: refinement keeps authority, structure, policy and limits fixed; moving those is a new generation, covered by the runtime theorems.
- LiveEvaluation.EvaluateUnlocked: what it observes is stated for any views; only the clause about one instant rests on `Coherent` ones, and an evidence authority that changes content without moving its generation is outside the design.
- Runs.FenceSafety: holds up to the next load, because a load restores revisions of fenced boots as they were stored.
- Runs.SnapshotIsolation: says nothing of proofs read from a store, which carry whatever verdict was stored.
- Runs.DemotionsAreExact: paths and policies only, before the first load; entries of older revisions stay in the entity, domain and generation indexes, so those demotions may affect more than a scan would.
- Runs.DomainDemotionsAreComplete: speaks of the domains a revision lists, which are cut to `max_domain_evidence_entries`; `Guarantees.DomainIndexAnswersWithinBound` says when they are all that were consulted. Proofs read from a store are indexed only under the domains they list as conflicts, so nothing is claimed of them.
- Invalidation.DemoteDomainsIsScan: speaks of listed domains in the same way.
- Invalidation.DemoteDomainsIsJustified: speaks of indexed proofs only; `Runs.DomainDemotionsAreComplete` says which those are.
- Protocol.LoadOf: a load is one step. The publication authority has its own lock, so in the program a registration, a restored epoch or a fence can fall between the restoring of the epoch and the fencing of the loaded boots (src/runtime_store.cpp:56-107); in the model these fall before or after, or the load is a RestoreEpoch, a load of the same contents without epoch and fences, and Fence steps.
- Evidence.Snapshot: one entry per path answers both `current_generation` and `is_authorized`, so that the generation in force is the one that is authorized, as their comments in include/path_diversity/path.hpp:42-47 describe them; the interface leaves the two calls independent, and a view whose answers disagree is not modelled.
- Loading.Carries: a proof identity in a store file stands for a request through any function, and of what a stored evaluation consulted nothing is known.
- Reachability.DecisiveVerdictsBecomeCurrentAfterLoad: of current proofs committed in the run; proofs that a store file itself holds are not counted.
- Runtime.DiversityRuntime.RefreshCurrentness: the unlocked questions of a refresh are one step of the protocol that may find any answers.
- Protocol.BeginOf: phase one is one step; it runs entirely under the state lock.
- Graph.MisExhaustive: equality with the greedy witness is not claimed, only equal size; the exhaustive winner is the smallest mask.
- Standard-library sorts (`std::sort`, `std::unique`) and ordered containers are their specifications; the project's own sort in `canonical.hpp` is modelled as written.
- Conflict graphs hold one row of booleans per path instead of a packed vector, and the solver's bit masks are sets of path indices; the callers bound the paths by 32, so no mask overflows.
- Advisory verdicts: cells keep only required classes, so every advisory is vacuously proven; their number matters to persistence and is modelled.
- An empty record left behind by a failed expected-generation check is modelled as a blank record (`Registry`), not as a valid proof.
