/**
 * Policies, path compositions, the evidence the three views serve, and the
 * records an evaluation produces.
 */
module Evidence {
  import opened Ordering

  datatype Option<T> = None | Some(value: T)

  // ----- Structure and coverage ------------------------------------------------

  datatype EntityKind = ENDPOINT | NODE | LINK | DEVICE

  datatype EntityRef = EntityRef(kind: EntityKind, id: string)

  datatype DomainRelation = FAILURE_DOMAIN | RACK | POD | SITE | POWER_DOMAIN | CONDUIT | COOLING

  datatype Coverage = COMPLETE | PARTIAL | ABSENT

  /** Where one entity belongs, and how far that is known. */
  datatype Membership = Membership(coverage: Coverage, members: seq<string>)

  datatype PathComposition = PathComposition(
    path: string,
    authorityGeneration: nat,
    topologyGeneration: nat,
    sources: seq<string>,
    destinations: seq<string>,
    transitNodes: seq<string>,
    links: seq<string>,
    devices: seq<string>,
    linkCoverage: Coverage,
    nodeCoverage: Coverage,
    deviceCoverage: Coverage,
    endpointCoverage: Coverage)
  {
    /** Every structural set is strictly ascending: sorted and free of repeats. */
    ghost predicate Canonical() {
      && StrictlyAscending(sources)
      && StrictlyAscending(destinations)
      && StrictlyAscending(transitNodes)
      && StrictlyAscending(links)
      && StrictlyAscending(devices)
    }
  }

  datatype AuthorityEntry = AuthorityEntry(generation: nat, authorized: bool)

  /** What the structure and failure-domain views serve at one instant. */
  datatype Facts = Facts(
    topologyGeneration: nat,
    compositions: map<string, PathComposition>,
    domainGeneration: nat,
    domainMemberships: map<(EntityRef, DomainRelation), Membership>,
    riskGroups: map<EntityRef, Membership>)
  {
    function Composition(path: string): Option<PathComposition> {
      if path in compositions then Some(compositions[path]) else None
    }

    /** An entity nobody classified has ABSENT coverage; it is not known to belong nowhere. */
    function DomainMembership(entity: EntityRef, relation: DomainRelation): Membership {
      if (entity, relation) in domainMemberships then domainMemberships[(entity, relation)]
      else Membership(ABSENT, [])
    }

    function RiskGroupMembership(entity: EntityRef): Membership {
      if entity in riskGroups then riskGroups[entity] else Membership(ABSENT, [])
    }
  }

  /** Everything the three views would serve at one instant. */
  datatype Snapshot = Snapshot(authority: map<string, AuthorityEntry>, facts: Facts) {

    function CurrentGeneration(path: string): Option<nat> {
      if path in authority && authority[path].authorized then Some(authority[path].generation) else None
    }

    predicate IsAuthorized(path: string, generation: nat) {
      path in authority && authority[path].authorized && authority[path].generation == generation
    }
  }

  // ----- Policy ----------------------------------------------------------------

  datatype DiversityClass =
    | LINK_DISJOINT
    | TRANSIT_NODE_DISJOINT
    | DEVICE_DISJOINT
    | RACK_DISJOINT
    | POD_DISJOINT
    | SITE_DISJOINT
    | FAILURE_DOMAIN_DISJOINT
    | SHARED_RISK_GROUP_DISJOINT

  datatype EndpointExemption =
    | NONE
    | SHARED_SOURCE_AND_DESTINATION
    | SHARED_SOURCE_ONLY
    | SHARED_DESTINATION_ONLY
    | ANY_ENDPOINT

  datatype SetSemantics = ALL_PAIRS | AT_LEAST_K_INDEPENDENT

  datatype CompletenessRequirement = REQUIRE_COMPLETE_EVIDENCE | PROVEN_CONFLICT_DECISIVE

  datatype UnknownBehavior = REJECT_PROOF | DEMOTE_TO_REVALIDATION

  datatype Policy = Policy(
    id: string,
    generation: nat,
    scope: string,
    requiredClasses: seq<DiversityClass>,
    endpointExemption: EndpointExemption,
    minimumIndependentPaths: nat,
    semantics: SetSemantics,
    completeness: CompletenessRequirement,
    unknownBehavior: UnknownBehavior,
    relations: seq<DomainRelation>,
    requireAuthorityCurrent: bool,
    description: string)

  datatype Limits = Limits(
    maxPolicies: nat,
    maxProofs: nat,
    maxPathsPerProof: nat,
    maxRequiredClasses: nat,
    maxConflictsPerProof: nat,
    maxPairwiseCells: nat,
    maxDomainEvidenceEntries: nat,
    maxQueryResults: nat,
    maxHistory: nat,
    maxBatchSize: nat,
    maxPublishers: nat,
    maxFrameBytes: nat,
    maxPersistenceRecordBytes: nat,
    maxExplanationEntries: nat,
    maxKSubsetPaths: nat,
    maxSnapshotPaths: nat,
    maxIdentityLength: nat,
    maxAttemptsTracked: nat,
    maxWireAssemblyBytes: nat,
    maxStoreRecords: nat,
    maxStoreBytes: nat,
    maxDiffEntries: nat,
    maxTopologyDependencies: nat)
  {
    /** Every bound leaves room for something, sets for a pair, and the bounds agree with each other. */
    predicate SelfConsistent() {
      && maxPolicies > 0 && maxProofs > 0 && maxPathsPerProof >= 2
      && maxRequiredClasses > 0 && maxConflictsPerProof > 0 && maxPairwiseCells > 0
      && maxDomainEvidenceEntries > 0 && maxQueryResults > 0 && maxHistory > 0
      && maxBatchSize > 0 && maxPublishers > 0 && maxFrameBytes > 0
      && maxPersistenceRecordBytes > 0 && maxExplanationEntries > 0
      && maxKSubsetPaths >= 2 && maxSnapshotPaths >= 2 && maxIdentityLength > 0
      && maxAttemptsTracked > 0 && maxWireAssemblyBytes >= maxFrameBytes
      && maxStoreRecords > 0 && maxStoreBytes > 0 && maxDiffEntries > 0
      && maxTopologyDependencies > 0
      && maxPathsPerProof * (maxPathsPerProof - 1) / 2 <= maxPairwiseCells
      && maxKSubsetPaths <= maxPathsPerProof
      && maxSnapshotPaths <= maxPathsPerProof
    }
  }

  function ClassRank(c: DiversityClass): nat {
    match c
    case LINK_DISJOINT => 1
    case TRANSIT_NODE_DISJOINT => 2
    case DEVICE_DISJOINT => 3
    case RACK_DISJOINT => 4
    case POD_DISJOINT => 5
    case SITE_DISJOINT => 6
    case FAILURE_DOMAIN_DISJOINT => 7
    case SHARED_RISK_GROUP_DISJOINT => 8
  }

  function RelationRank(r: DomainRelation): nat {
    match r
    case FAILURE_DOMAIN => 1
    case RACK => 2
    case POD => 3
    case SITE => 4
    case POWER_DOMAIN => 5
    case CONDUIT => 6
    case COOLING => 7
  }

  const ALL_CLASSES: seq<DiversityClass> := [
    LINK_DISJOINT, TRANSIT_NODE_DISJOINT, DEVICE_DISJOINT, RACK_DISJOINT,
    POD_DISJOINT, SITE_DISJOINT, FAILURE_DOMAIN_DISJOINT, SHARED_RISK_GROUP_DISJOINT]

  function InsertByRank<T>(rank: T -> nat, x: T, s: seq<T>): seq<T> {
    if s == [] then [x]
    else if rank(x) <= rank(s[0]) then [x] + s
    else [s[0]] + InsertByRank(rank, x, s[1..])
  }

  function SortByRank<T>(rank: T -> nat, s: seq<T>): seq<T> {
    if s == [] then [] else InsertByRank(rank, s[0], SortByRank(rank, s[1..]))
  }

  function CanonicalPolicy(p: Policy): Policy {
    p.(requiredClasses := SortByRank(ClassRank, p.requiredClasses),
       relations := SortByRank(RelationRank, p.relations))
  }

  predicate Distinct<T(==)>(s: seq<T>) {
    forall i, j | 0 <= i < j < |s| :: s[i] != s[j]
  }

  /** The policy is accepted; identities only need to be set, their text is checked on parsing. */
  predicate ValidPolicy(p: Policy, limits: Limits) {
    && p.id != "" && p.generation > 0 && p.scope != ""
    && 0 < |p.requiredClasses| <= limits.maxRequiredClasses
    && Distinct(p.requiredClasses)
    && 2 <= p.minimumIndependentPaths <= limits.maxPathsPerProof
    && Distinct(p.relations)
    && (FAILURE_DOMAIN_DISJOINT in p.requiredClasses ==> p.relations != [])
    && |p.description| <= limits.maxPersistenceRecordBytes
  }

  // ----- Requests --------------------------------------------------------------

  datatype PathRef = PathRef(path: string, generation: nat)

  datatype Request = Request(policy: string, policyGeneration: nat, paths: seq<PathRef>)

  // ----- Results ---------------------------------------------------------------

  datatype Outcome =
    | PROVEN_DIVERSE
    | NOT_DIVERSE
    | UNKNOWN_INCOMPLETE_EVIDENCE
    | STALE_PATH_AUTHORITY
    | STALE_TOPOLOGY
    | STALE_FAILURE_DOMAIN
    | STALE_POLICY
    | REVALIDATION_REQUIRED
    | UNAUTHORIZED
    | RESOURCE_LIMIT
    | MALFORMED

  datatype ConflictClass =
    | SHARED_FAILURE_DOMAIN
    | SHARED_RISK_GROUP
    | SHARED_SITE
    | SHARED_POD
    | SHARED_RACK
    | SHARED_POWER_DOMAIN
    | SHARED_CONDUIT
    | SHARED_COOLING
    | SHARED_DEVICE
    | SHARED_TRANSIT_NODE
    | SHARED_LINK
    | SHARED_ENDPOINT
    | INCOMPLETE_EVIDENCE
    | STALE_DEPENDENCY

  datatype SharedResource = SharedResource(
    kind: ConflictClass,
    relation: DomainRelation,
    id: string,
    paths: seq<nat>)

  datatype ClassResult = ClassResult(
    klass: DiversityClass,
    outcome: Outcome,
    evidenceComplete: bool,
    shared: seq<SharedResource>,
    sharedTotal: nat,
    detail: string)

  datatype PairwiseCell = PairwiseCell(
    left: nat,
    right: nat,
    independent: bool,
    evidenceComplete: bool,
    classes: seq<ClassResult>,
    primaryConflict: Option<SharedResource>)

  datatype PairwiseMatrix = PairwiseMatrix(order: seq<string>, cells: seq<PairwiseCell>)

  datatype WitnessSubset = WitnessSubset(
    present: bool,
    requestedK: nat,
    indices: seq<nat>,
    achieved: nat,
    maximumExact: bool)

  const NO_WITNESS := WitnessSubset(false, 0, [], 0, false)

  datatype ResourceBound =
    | MAX_POLICIES
    | MAX_PROOFS
    | MAX_PATHS_PER_PROOF
    | MAX_REQUIRED_CLASSES
    | MAX_CONFLICTS_PER_PROOF
    | MAX_PAIRWISE_CELLS
    | MAX_DOMAIN_EVIDENCE_ENTRIES
    | MAX_QUERY_RESULTS
    | MAX_HISTORY
    | MAX_BATCH_SIZE
    | MAX_PUBLISHERS
    | MAX_FRAME_BYTES
    | MAX_PERSISTENCE_RECORD_BYTES
    | MAX_EXPLANATION_ENTRIES
    | MAX_K_SUBSET_PATHS
    | MAX_SNAPSHOT_PATHS
    | MAX_IDENTITY_LENGTH
    | MAX_ATTEMPTS_TRACKED
    | MAX_WIRE_ASSEMBLY_BYTES
    | MAX_STORE_RECORDS
    | MAX_STORE_BYTES
    | MAX_DIFF_ENTRIES
    | MAX_TOPOLOGY_DEPENDENCIES

  datatype LimitNotice = LimitNotice(bound: ResourceBound, observed: nat, allowed: nat)

  datatype Dependencies = Dependencies(
    policyGeneration: nat,
    topologyGeneration: nat,
    domainGeneration: nat,
    epoch: nat,
    paths: seq<PathRef>,
    topologyEntities: seq<EntityRef>,
    endpointExemption: EndpointExemption)

  const NO_DEPENDENCIES := Dependencies(0, 0, 0, 0, [], [], SHARED_SOURCE_AND_DESTINATION)

  /** The failure domains and shared-risk groups an evaluation consulted, for the indexes. */
  datatype Consulted = Consulted(domains: seq<string>, riskGroups: seq<string>)

  datatype EvaluationResult = EvaluationResult(
    outcome: Outcome,
    limit: Option<LimitNotice>,
    classes: seq<ClassResult>,
    advisories: seq<ClassResult>,
    conflicts: seq<SharedResource>,
    conflictsTotal: nat,
    matrix: PairwiseMatrix,
    witnessSubset: WitnessSubset,
    dependencies: Dependencies,
    consulted: Consulted,
    observedTopology: nat,
    observedDomains: nat)

  predicate Decisive(outcome: Outcome) {
    outcome == PROVEN_DIVERSE || outcome == NOT_DIVERSE
  }

  /** An evaluation together with the second look at the watermarks. */
  datatype Observation = Observation(evaluation: EvaluationResult, topologyAfter: nat, domainsAfter: nat,
                                     authorityDrift: bool)
  {
    predicate Undrifted() {
      && topologyAfter == evaluation.observedTopology
      && domainsAfter == evaluation.observedDomains
      && !authorityDrift
    }

    /** The evaluation got as far as the matrix, and nothing it read again had moved. */
    predicate Conclusive() {
      Undrifted() && (Decisive(evaluation.outcome) || evaluation.matrix.order != [])
    }
  }

  function KindRank(k: ConflictClass): nat {
    match k
    case SHARED_FAILURE_DOMAIN => 1
    case SHARED_RISK_GROUP => 2
    case SHARED_SITE => 3
    case SHARED_POD => 4
    case SHARED_RACK => 5
    case SHARED_POWER_DOMAIN => 6
    case SHARED_CONDUIT => 7
    case SHARED_COOLING => 8
    case SHARED_DEVICE => 9
    case SHARED_TRANSIT_NODE => 10
    case SHARED_LINK => 11
    case SHARED_ENDPOINT => 12
    case INCOMPLETE_EVIDENCE => 13
    case STALE_DEPENDENCY => 14
  }

  predicate IndicesLess(a: seq<nat>, b: seq<nat>) {
    if b == [] then false
    else if a == [] then true
    else a[0] < b[0] || (a[0] == b[0] && IndicesLess(a[1..], b[1..]))
  }

  /** The fixed total precedence of shared resources. */
  predicate ConflictLess(a: SharedResource, b: SharedResource) {
    if a.kind != b.kind then KindRank(a.kind) < KindRank(b.kind)
    else if a.id != b.id then Less(a.id, b.id)
    else if a.relation != b.relation then RelationRank(a.relation) < RelationRank(b.relation)
    else IndicesLess(a.paths, b.paths)
  }

  function InsertConflict(c: SharedResource, s: seq<SharedResource>): (r: seq<SharedResource>)
    ensures multiset(r) == multiset(s) + multiset{c}
  {
    if s == [] then [c]
    else if ConflictLess(s[0], c) then
      assert s == [s[0]] + s[1..];
      [s[0]] + InsertConflict(c, s[1..])
    else [c] + s
  }

  function SortConflicts(s: seq<SharedResource>): (r: seq<SharedResource>)
    ensures multiset(r) == multiset(s)
  {
    if s == [] then []
    else
      assert s == [s[0]] + s[1..];
      InsertConflict(s[0], SortConflicts(s[1..]))
  }
}
