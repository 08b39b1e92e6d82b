/**
 * The proof registry and its eight reverse indexes.  Every operation that runs under
 * the state lock is a function on the whole registry; the theorems say that the
 * indexes stand in for a full scan.
 */
module Registry {
  import opened Evidence
  import opened Evaluator
  import L = Lifecycle
  import A = Authority

  // ----- Revisions and records ----------------------------------------------------------

  /** The identity of a proof is its canonical request: two requests have one identity only when equal. */
  type ProofId = Request

  datatype Provenance = Provenance(epoch: nat, publisher: string, boot: string, attempt: string)

  datatype Proof = Proof(
    id: ProofId,
    request: Request,
    generation: nat,
    evaluation: EvaluationResult,
    dependencies: Dependencies,
    provenance: Provenance,
    lifecycle: L.State,
    currentness: L.Currentness)
  {
    predicate Current() {
      lifecycle == L.State.CURRENT && currentness == L.Currentness.CURRENT
    }

    /** A blank record holds no revision. */
    predicate Stored() {
      id.policy != ""
    }
  }

  const NO_REQUEST := Request("", 0, [])

  const BLANK := Proof(NO_REQUEST, NO_REQUEST, 0, Reject(Outcome.MALFORMED, None, 0, 0), NO_DEPENDENCIES,
                       Provenance(0, "", "", ""), L.State.DECLARED, L.Currentness.REVALIDATION_REQUIRED)

  datatype Record = Record(current: Proof, history: seq<Proof>)

  const MAX_GENERATION: nat := 0xFFFF_FFFF_FFFF_FFFF

  /** Index maps; an absent key has no proofs. */
  type Index<K> = map<K, set<ProofId>>

  function Lookup<K>(m: Index<K>, key: K): set<ProofId> {
    if key in m then m[key] else {}
  }

  function Insert<K>(m: Index<K>, key: K, id: ProofId): Index<K> {
    m[key := Lookup(m, key) + {id}]
  }

  function InsertAll<K>(m: Index<K>, keys: seq<K>, id: ProofId): Index<K>
    decreases |keys|
  {
    if keys == [] then m else Insert(InsertAll(m, keys[..|keys| - 1], id), keys[|keys| - 1], id)
  }

  datatype Indexes = Indexes(
    byPath: Index<string>,
    byDomain: Index<string>,
    byRiskGroup: Index<string>,
    byEntity: Index<EntityRef>,
    byPolicy: Index<string>,
    byBoot: Index<string>,
    byTopology: Index<nat>,
    byDomainGeneration: Index<nat>)

  const NO_INDEXES := Indexes(map[], map[], map[], map[], map[], map[], map[], map[])

  datatype Registry = Registry(policies: map<string, Policy>, proofs: map<ProofId, Record>, index: Indexes) {
    predicate IsCurrent(id: ProofId) {
      id in proofs && proofs[id].current.Current()
    }

    /** Two registries that differ in nothing but this record. */
    function Store(id: ProofId, record: Record): Registry {
      this.(proofs := proofs[id := record])
    }
  }

  const EMPTY := Registry(map[], map[], NO_INDEXES)

  // ----- Semantic content ---------------------------------------------------------------

  datatype ClassContent = ClassContent(klass: DiversityClass, outcome: Outcome, evidenceComplete: bool,
                                       shared: seq<SharedResource>)

  datatype CellContent = CellContent(independent: bool, evidenceComplete: bool, classes: seq<ClassContent>)

  /** What the semantic digest covers; equal digests mean equal content. */
  datatype SemanticContent = SemanticContent(
    request: Request,
    outcome: Outcome,
    limit: Option<LimitNotice>,
    classes: seq<ClassContent>,
    advisories: seq<ClassContent>,
    conflicts: seq<SharedResource>,
    subset: WitnessSubset,
    cells: seq<CellContent>,
    dependencies: Dependencies)

  function ClassContents(classes: seq<ClassResult>): seq<ClassContent> {
    seq(|classes|, k requires 0 <= k < |classes| =>
      ClassContent(classes[k].klass, classes[k].outcome, classes[k].evidenceComplete, classes[k].shared))
  }

  function SemanticOf(p: Proof): SemanticContent {
    var e := p.evaluation;
    SemanticContent(p.request, e.outcome, e.limit, ClassContents(e.classes), ClassContents(e.advisories), e.conflicts,
                    e.witnessSubset,
                    seq(|e.matrix.cells|, k requires 0 <= k < |e.matrix.cells| =>
                      CellContent(e.matrix.cells[k].independent, e.matrix.cells[k].evidenceComplete,
                                  ClassContents(e.matrix.cells[k].classes))),
                    p.dependencies)
  }

  // ----- Committing a revision --------------------------------------------------------------

  datatype MutationStatus =
    | APPLIED
    | IDEMPOTENT
    | UNCHANGED
    | UNAUTHORIZED
    | FENCED_PUBLISHER
    | STALE_EPOCH
    | SCOPE_MISMATCH
    | GENERATION_CONFLICT
    | ATTEMPT_CONFLICT
    | LIMIT_EXCEEDED
    | MALFORMED
    | NOT_FOUND
    | ILLEGAL_TRANSITION
    | REVALIDATION_REQUIRED

  /** What an evaluation and the second look at the watermarks found. */
  datatype Finished = Finished(evaluation: EvaluationResult, drifted: bool)

  function MakeProof(request: Request, generation: nat, finished: Finished, acting: A.Acting): Proof {
    var evaluation := if finished.drifted then finished.evaluation.(outcome := Outcome.REVALIDATION_REQUIRED)
        else finished.evaluation;
    Proof(request, request, generation, evaluation, evaluation.dependencies.(epoch := acting.epoch),
          Provenance(acting.epoch, acting.publisher, acting.boot, acting.attempt),
          L.StateFor(evaluation.outcome), L.CurrentnessFor(evaluation.outcome))
  }

  /** The oldest revision makes room once the history is full. */
  function Remember(history: seq<Proof>, p: Proof, maxHistory: nat): seq<Proof> {
    (if |history| >= maxHistory && |history| > 0 then history[1..] else history) + [p]
  }

  function IndexProof(ix: Indexes, id: ProofId, p: Proof, consulted: Consulted): Indexes {
    Indexes(
      InsertAll(ix.byPath, PathsOf(p.request.paths), id),
      InsertAll(ix.byDomain, consulted.domains, id),
      InsertAll(ix.byRiskGroup, consulted.riskGroups, id),
      InsertAll(ix.byEntity, p.dependencies.topologyEntities, id),
      Insert(ix.byPolicy, p.request.policy, id),
      Insert(ix.byBoot, p.provenance.boot, id),
      Insert(ix.byTopology, p.dependencies.topologyGeneration, id),
      Insert(ix.byDomainGeneration, p.dependencies.domainGeneration, id))
  }

  /** Stores a record and indexes its current revision. */
  function Install(r: Registry, id: ProofId, record: Record, consulted: Consulted): Registry {
    Registry(r.policies, r.proofs[id := record], IndexProof(r.index, id, record.current, consulted))
  }

  datatype Commitment = Commitment(registry: Registry, status: MutationStatus, committed: Option<Proof>)

  /** The stored revision already says the same. */
  predicate SaysTheSame(record: Record, request: Request, finished: Finished, acting: A.Acting) {
    && !finished.drifted
    && record.current.Stored()
    && SemanticOf(record.current) == SemanticOf(MakeProof(request, 0, finished, acting))
  }

  /** Phase three of an evaluation once policy, epoch and fence have been checked again. */
  function Commit(r: Registry, request: Request, finished: Finished, acting: A.Acting, limits: Limits): Commitment {
    if request !in r.proofs && |r.proofs| >= limits.maxProofs then Commitment(r, LIMIT_EXCEEDED, None)
    else
      var ready := if request in r.proofs then r else r.Store(request, Record(BLANK, []));
      var record := ready.proofs[request];
      if acting.expectedProofGeneration > 0 && acting.expectedProofGeneration != record.current.generation then
        Commitment(ready, GENERATION_CONFLICT, None)
      else if record.current.Stored() && record.current.generation == MAX_GENERATION then
        Commitment(ready, GENERATION_CONFLICT, None)
      else if SaysTheSame(record, request, finished, acting) then Commitment(ready, UNCHANGED, None)
      else
        var next := if record.current.Stored() then record.current.generation + 1 else 1;
        var p := MakeProof(request, next, finished, acting);
        var history := if record.current.Stored() then Remember(record.history, record.current, limits.maxHistory)
            else record.history;
        Commitment(Install(ready, request, Record(p, history), finished.evaluation.consulted),
                   if finished.drifted then MutationStatus.REVALIDATION_REQUIRED else APPLIED, Some(p))
  }

  // ----- Demotions ----------------------------------------------------------------------------

  function DemoteProof(p: Proof, reason: L.Currentness): Proof {
    p.(lifecycle := L.State.REVALIDATION_REQUIRED, currentness := reason)
  }

  function DemoteIds(r: Registry, ids: set<ProofId>, reason: L.Currentness): Registry {
    r.(proofs := map id | id in r.proofs ::
         if id in ids then r.proofs[id].(current := DemoteProof(r.proofs[id].current, reason)) else r.proofs[id])
  }

  datatype Demotion = Demotion(registry: Registry, affected: set<ProofId>)

  function DemotePath(r: Registry, path: string): Demotion {
    var ids := set id | id in Lookup(r.index.byPath, path) && r.IsCurrent(id);
    Demotion(DemoteIds(r, ids, L.Currentness.STALE_PATH_AUTHORITY), ids)
  }

  function DemoteBoot(r: Registry, boot: string): Demotion {
    var ids := set id | id in Lookup(r.index.byBoot, boot) && r.IsCurrent(id);
    Demotion(DemoteIds(r, ids, L.Currentness.FENCED_PUBLISHER), ids)
  }

  function DemotePolicy(r: Registry, policy: string, generation: nat): Demotion {
    var ids := set id | id in Lookup(r.index.byPolicy, policy) && r.IsCurrent(id)
                        && r.proofs[id].current.dependencies.policyGeneration < generation;
    Demotion(DemoteIds(r, ids, L.Currentness.STALE_POLICY), ids)
  }

  function LookupAny<K>(m: Index<K>, keys: seq<K>): set<ProofId> {
    set key, id | key in keys && id in Lookup(m, key) :: id
  }

  function DemoteEntities(r: Registry, entities: seq<EntityRef>, generation: nat): Demotion {
    var ids := set id | id in LookupAny(r.index.byEntity, entities) && r.IsCurrent(id)
                        && r.proofs[id].current.dependencies.topologyGeneration < generation;
    Demotion(DemoteIds(r, ids, L.Currentness.STALE_TOPOLOGY), ids)
  }

  function DemoteDomains(r: Registry, domains: seq<string>, generation: nat): Demotion {
    var ids := set id | id in LookupAny(r.index.byDomain, domains) && r.IsCurrent(id)
                        && r.proofs[id].current.dependencies.domainGeneration < generation;
    Demotion(DemoteIds(r, ids, L.Currentness.STALE_FAILURE_DOMAIN), ids)
  }

  function Below(m: Index<nat>, generation: nat): set<ProofId> {
    set key, id | key in m && key < generation && id in m[key] :: id
  }

  function DropBelow(m: Index<nat>, generation: nat): Index<nat> {
    map key | key in m && key >= generation :: m[key]
  }

  function DemoteTopologyGeneration(r: Registry, generation: nat): Demotion {
    var ids := set id | id in Below(r.index.byTopology, generation) && r.IsCurrent(id);
    var demoted := DemoteIds(r, ids, L.Currentness.STALE_TOPOLOGY);
    Demotion(demoted.(index := r.index.(byTopology := DropBelow(r.index.byTopology, generation))), ids)
  }

  function DemoteDomainGeneration(r: Registry, generation: nat): Demotion {
    var ids := set id | id in Below(r.index.byDomainGeneration, generation) && r.IsCurrent(id);
    var demoted := DemoteIds(r, ids, L.Currentness.STALE_FAILURE_DOMAIN);
    Demotion(demoted.(index := r.index.(byDomainGeneration := DropBelow(r.index.byDomainGeneration, generation))), ids)
  }

  /** Last phase of `refresh_currentness`: a stale policy is reported before a stale path. */
  function Refresh(r: Registry, live: set<ProofId>, stalePolicies: set<ProofId>, stalePaths: set<ProofId>): Demotion {
    var policies := set id | id in live && r.IsCurrent(id) && id in stalePolicies;
    var paths := set id | id in live && r.IsCurrent(id) && id in stalePaths && id !in stalePolicies;
    Demotion(DemoteIds(DemoteIds(r, policies, L.Currentness.STALE_POLICY), paths, L.Currentness.STALE_PATH_AUTHORITY),
             policies + paths)
  }

  // ----- Loading -------------------------------------------------------------------------------

  datatype StoreContents = StoreContents(
    epoch: nat,
    policies: seq<Policy>,
    proofs: seq<Proof>,
    history: seq<(ProofId, seq<Proof>)>,
    fencedBoots: seq<string>)

  /** A store that holds a policy and nothing else. */
  function OnlyPolicy(p: Policy): StoreContents {
    StoreContents(0, [p], [], [], [])
  }

  function LoadPolicies(policies: map<string, Policy>, loaded: seq<Policy>): map<string, Policy>
    decreases |loaded|
  {
    if loaded == [] then policies
    else LoadPolicies(policies, loaded[..|loaded| - 1])[loaded[|loaded| - 1].id := loaded[|loaded| - 1]]
  }

  function LoadProofs(proofs: map<ProofId, Record>, loaded: seq<Proof>): map<ProofId, Record>
    decreases |loaded|
  {
    if loaded == [] then proofs
    else LoadProofs(proofs, loaded[..|loaded| - 1])[loaded[|loaded| - 1].id := Record(loaded[|loaded| - 1], [])]
  }

  function LoadHistory(proofs: map<ProofId, Record>, loaded: seq<(ProofId, seq<Proof>)>): map<ProofId, Record>
    decreases |loaded|
  {
    if loaded == [] then proofs
    else
      var front := LoadHistory(proofs, loaded[..|loaded| - 1]);
      var (id, history) := loaded[|loaded| - 1];
      if id in front then front[id := front[id].(history := history)] else front
  }

  predicate DomainConflict(kind: ConflictClass) {
    kind in {SHARED_FAILURE_DOMAIN, SHARED_SITE, SHARED_POD, SHARED_RACK, SHARED_POWER_DOMAIN, SHARED_CONDUIT,
             SHARED_COOLING}
  }

  function ConflictIds(conflicts: seq<SharedResource>, domains: bool): seq<string> {
    if conflicts == [] then []
    else
      var front := ConflictIds(conflicts[..|conflicts| - 1], domains);
      var last := conflicts[|conflicts| - 1];
      if (if domains then DomainConflict(last.kind) else last.kind == SHARED_RISK_GROUP) then front + [last.id]
          else front
  }

  /** Every entry stands for a revision that consulted the domain or group, and every such revision has its entry. */
  ghost predicate ConsultedExact(byDomain: Index<string>, byRiskGroup: Index<string>, seen: set<Seen>) {
    && (forall id, d :: id in Lookup(byDomain, d) <==> SomeSeen(seen, id, d, ConsultedDomain))
    && (forall id, g :: id in Lookup(byRiskGroup, g) <==> SomeSeen(seen, id, g, ConsultedGroup))
  }

  predicate ConsultedDomain(p: Proof, domain: string) {
    domain in p.evaluation.consulted.domains
  }

  predicate ConsultedGroup(p: Proof, group: string) {
    group in p.evaluation.consulted.riskGroups
  }

  /** What a load takes from the store. */
  ghost function RestoredFrom(contents: StoreContents): set<Seen> {
    set p | p in contents.proofs :: Seen(p.id, p)
  }

  /** A stored revision only tells which domains and groups it lists as conflicts. */
  function ListedBy(p: Proof): Consulted {
    var listed := AllShared(p.evaluation.classes);
    Consulted(ConflictIds(listed, true), ConflictIds(listed, false))
  }

  /** The entries of an index once every record has been inserted again. */
  ghost predicate Filed<K(!new)>(before: Index<K>, after: Index<K>, proofs: map<ProofId, Record>,
                                 files: (Proof, K) -> bool)
  {
    forall id, key ::
      id in Lookup(after, key) <==> id in Lookup(before, key) || (id in proofs && files(proofs[id].current, key))
  }

  /** Every record is inserted again under what its current revision binds; nothing is removed. */
  ghost predicate Reindexed(before: Indexes, proofs: map<ProofId, Record>, after: Indexes) {
    && Filed(before.byPath, after.byPath, proofs, BindsPath)
    && Filed(before.byDomain, after.byDomain, proofs, ListsDomain)
    && Filed(before.byRiskGroup, after.byRiskGroup, proofs, ListsRiskGroup)
    && Filed(before.byEntity, after.byEntity, proofs, BindsEntity)
    && Filed(before.byPolicy, after.byPolicy, proofs, BindsPolicy)
    && Filed(before.byBoot, after.byBoot, proofs, BindsBoot)
    && Filed(before.byTopology, after.byTopology, proofs, BindsTopology)
    && Filed(before.byDomainGeneration, after.byDomainGeneration, proofs, BindsDomains)
  }

  // ----- What a revision binds --------------------------------------------------------------------

  predicate BindsPath(p: Proof, path: string) {
    path in PathsOf(p.request.paths)
  }

  predicate BindsEntity(p: Proof, e: EntityRef) {
    e in p.dependencies.topologyEntities
  }

  predicate BindsPolicy(p: Proof, policy: string) {
    p.request.policy == policy
  }

  predicate BindsBoot(p: Proof, boot: string) {
    p.provenance.boot == boot
  }

  predicate BindsTopology(p: Proof, generation: nat) {
    p.dependencies.topologyGeneration == generation
  }

  predicate BindsDomains(p: Proof, generation: nat) {
    p.dependencies.domainGeneration == generation
  }

  predicate ListsDomain(p: Proof, domain: string) {
    domain in ListedBy(p).domains
  }

  predicate ListsRiskGroup(p: Proof, group: string) {
    group in ListedBy(p).riskGroups
  }

  /** A failure domain the revision consulted or lists. */
  predicate NamesDomain(p: Proof, domain: string) {
    domain in p.evaluation.consulted.domains || domain in ListedBy(p).domains
  }

  predicate NamesRiskGroup(p: Proof, group: string) {
    group in p.evaluation.consulted.riskGroups || group in ListedBy(p).riskGroups
  }

  // ----- The index invariant ------------------------------------------------------------------------

  /** The revision is found under everything it binds. */
  ghost predicate Found(ix: Indexes, id: ProofId, p: Proof) {
    && (forall path | BindsPath(p, path) :: id in Lookup(ix.byPath, path))
    && (forall e | BindsEntity(p, e) :: id in Lookup(ix.byEntity, e))
    && id in Lookup(ix.byPolicy, p.request.policy)
    && id in Lookup(ix.byBoot, p.provenance.boot)
    && id in Lookup(ix.byTopology, p.dependencies.topologyGeneration)
    && id in Lookup(ix.byDomainGeneration, p.dependencies.domainGeneration)
  }

  /** Every current proof is found under everything its revision binds. */
  ghost predicate Complete(r: Registry) {
    forall id | r.IsCurrent(id) :: Found(r.index, id, r.proofs[id].current)
  }

  /** A revision that was committed or loaded under some identity. */
  datatype Seen = Seen(id: ProofId, revision: Proof)

  /** The proof is found under every domain and group its evaluation consulted. */
  ghost predicate ConsultedFound(ix: Indexes, id: ProofId, p: Proof) {
    && (forall d | d in p.evaluation.consulted.domains :: id in Lookup(ix.byDomain, d))
    && (forall g | g in p.evaluation.consulted.riskGroups :: id in Lookup(ix.byRiskGroup, g))
  }

  /** The same for every current proof that was not read from a store. */
  ghost predicate ConsultedComplete(r: Registry, restored: set<Seen>) {
    forall id | r.IsCurrent(id) && Seen(id, r.proofs[id].current) !in restored ::
      ConsultedFound(r.index, id, r.proofs[id].current)
  }

  ghost predicate Justified<K(!new)>(m: Index<K>, seen: set<Seen>, binds: (Proof, K) -> bool) {
    forall key, id | id in Lookup(m, key) :: SomeSeen(seen, id, key, binds)
  }

  ghost predicate SomeSeen<K>(seen: set<Seen>, id: ProofId, key: K, binds: (Proof, K) -> bool) {
    exists s | s in seen :: s.id == id && binds(s.revision, key)
  }

  /** Every index entry comes from a revision that was committed or loaded. */
  ghost predicate Sound(ix: Indexes, seen: set<Seen>) {
    && Justified(ix.byPath, seen, BindsPath)
    && Justified(ix.byDomain, seen, NamesDomain)
    && Justified(ix.byRiskGroup, seen, NamesRiskGroup)
    && Justified(ix.byEntity, seen, BindsEntity)
    && Justified(ix.byPolicy, seen, BindsPolicy)
    && Justified(ix.byBoot, seen, BindsBoot)
    && Justified(ix.byTopology, seen, BindsTopology)
    && Justified(ix.byDomainGeneration, seen, BindsDomains)
  }
}
