/**
 * The evaluation of one request against one evidence snapshot: the reference that
 * the live evaluation is compared with, and its theorems.
 */
module Evaluator {
  import opened Ordering
  import opened Triangle
  import opened Graph
  import opened Evidence
  import opened PairClasses

  // ----- Canonical requests --------------------------------------------------------

  predicate RefLess(a: PathRef, b: PathRef) {
    if a.path != b.path then Less(a.path, b.path) else a.generation < b.generation
  }

  function InsertRef(x: PathRef, s: seq<PathRef>): (r: seq<PathRef>)
    ensures multiset(r) == multiset(s) + multiset{x}
  {
    if s == [] then [x]
    else if RefLess(s[0], x) then
      assert s == [s[0]] + s[1..];
      [s[0]] + InsertRef(x, s[1..])
    else [x] + s
  }

  /** `canonical_path_order`: insertion by `RefLess`. */
  function SortRefs(s: seq<PathRef>): (r: seq<PathRef>)
    ensures multiset(r) == multiset(s)
  {
    if s == [] then []
    else
      assert s == [s[0]] + s[1..];
      InsertRef(s[0], SortRefs(s[1..]))
  }

  predicate HasDuplicatePaths(s: seq<PathRef>) {
    exists i, j | 0 <= i < j < |s| :: s[i].path == s[j].path
  }

  function CanonicalRequest(r: Request): Request {
    r.(paths := SortRefs(r.paths))
  }

  // ----- Matrix ----------------------------------------------------------------------

  function Remap(result: ClassResult, i: nat, j: nat): ClassResult {
    result.(shared := SortConflicts(seq(|result.shared|,
                                        k requires 0 <= k < |result.shared| => result.shared[k].(paths := [i, j]))))
  }

  function AllShared(classes: seq<ClassResult>): seq<SharedResource> {
    if classes == [] then [] else AllShared(classes[..|classes| - 1]) + classes[|classes| - 1].shared
  }

  predicate ProvenClass(c: ClassResult) {
    c.outcome == PROVEN_DIVERSE && c.evidenceComplete
  }

  function MakeCell(i: nat, j: nat, classes: seq<ClassResult>): PairwiseCell {
    var conflicts := SortConflicts(AllShared(classes));
    PairwiseCell(i, j,
                 forall c | c in classes :: ProvenClass(c),
                 forall c | c in classes :: c.evidenceComplete,
                 classes,
                 if conflicts == [] then None else Some(conflicts[0]))
  }

  ghost function CellClasses(i: nat, j: nat, l: PathComposition, r: PathComposition, p: Policy,
                             facts: Facts, bound: nat): seq<ClassResult> {
    seq(|p.requiredClasses|, k requires 0 <= k < |p.requiredClasses| =>
      Remap(ClassOf(p.requiredClasses[k], l, r, p, facts, bound), i, j))
  }

  ghost function CellOf(i: nat, j: nat, l: PathComposition, r: PathComposition, p: Policy,
                        facts: Facts, bound: nat): PairwiseCell {
    MakeCell(i, j, CellClasses(i, j, l, r, p, facts, bound))
  }

  ghost function MatrixOf(order: seq<string>, comps: seq<PathComposition>, p: Policy,
                          facts: Facts, bound: nat): PairwiseMatrix
    requires |order| == |comps|
  {
    var n := |order|;
    PairwiseMatrix(order, seq(CellCount(n), cell requires 0 <= cell < CellCount(n) =>
      var (i, j) := PairAt(n, cell);
      CellOf(i, j, comps[i], comps[j], p, facts, bound)))
  }

  /** `PairwiseMatrix::at`, symmetric in its arguments. */
  function At(m: PairwiseMatrix, i: nat, j: nat): Option<PairwiseCell> {
    if i == j || i >= |m.order| || j >= |m.order| then None
    else
      var low := if i < j then i else j;
      var high := if i < j then j else i;
      var cell := CellIndex(|m.order|, low, high);
      if 0 <= cell < |m.cells| then Some(m.cells[cell]) else None
  }

  predicate CellHasConflict(c: PairwiseCell) {
    exists result | result in c.classes :: result.outcome == NOT_DIVERSE
  }

  predicate ConflictEdge(m: PairwiseMatrix, knownOnly: bool, i: nat, j: nat) {
    match At(m, i, j)
    case None => false
    case Some(cell) => if knownOnly then CellHasConflict(cell) else !cell.independent
  }

  /** The conservative graph, or with `knownOnly` the optimistic one. */
  function GraphOf(m: PairwiseMatrix, knownOnly: bool): (g: ConflictGraph)
    ensures g.Valid() && g.pathCount == |m.order|
    ensures forall i: nat, j: nat | i < |m.order| && j < |m.order| :: g.Edge(i, j) == ConflictEdge(m, knownOnly, i, j)
    ensures g.Symmetric()
  {
    var n := |m.order|;
    ConflictGraph(n, seq(n, i requires 0 <= i < n => seq(n, j requires 0 <= j < n => ConflictEdge(m, knownOnly, i, j))))
  }

  // ----- Aggregation -----------------------------------------------------------------

  function FirstOfClass(classes: seq<ClassResult>, klass: DiversityClass): Option<ClassResult> {
    if classes == [] then None
    else if classes[0].klass == klass then Some(classes[0])
    else FirstOfClass(classes[1..], klass)
  }

  function Gather(cells: seq<PairwiseCell>, klass: DiversityClass): seq<ClassResult> {
    if cells == [] then []
    else
      var front := Gather(cells[..|cells| - 1], klass);
      match FirstOfClass(cells[|cells| - 1].classes, klass)
      case None => front
      case Some(result) => front + [result]
  }

  function TakeUpTo(list: seq<SharedResource>, more: seq<SharedResource>, bound: nat): seq<SharedResource> {
    if |list| >= bound then list
    else if |list| + |more| <= bound then list + more
    else list + more[..bound - |list|]
  }

  function AggregateStep(out: ClassResult, source: ClassResult, maxShared: nat): ClassResult {
    ClassResult(
      out.klass,
      if source.outcome == NOT_DIVERSE then NOT_DIVERSE
      else if source.outcome == UNKNOWN_INCOMPLETE_EVIDENCE && out.outcome != NOT_DIVERSE
          then UNKNOWN_INCOMPLETE_EVIDENCE
      else out.outcome,
      out.evidenceComplete && source.evidenceComplete,
      TakeUpTo(out.shared, source.shared, maxShared),
      out.sharedTotal + source.sharedTotal,
      out.detail)
  }

  function AggregateFold(sources: seq<ClassResult>, klass: DiversityClass, maxShared: nat): ClassResult
    decreases |sources|
  {
    if sources == [] then ClassResult(klass, PROVEN_DIVERSE, true, [], 0, "")
    else AggregateStep(AggregateFold(sources[..|sources| - 1], klass, maxShared), sources[|sources| - 1], maxShared)
  }

  function Aggregate(cells: seq<PairwiseCell>, klass: DiversityClass, maxShared: nat): ClassResult {
    var folded := AggregateFold(Gather(cells, klass), klass, maxShared);
    folded.(shared := SortConflicts(folded.shared))
  }

  function AggregateAll(cells: seq<PairwiseCell>, classes: seq<DiversityClass>, maxShared: nat): seq<ClassResult> {
    seq(|classes|, k requires 0 <= k < |classes| => Aggregate(cells, classes[k], maxShared))
  }

  function AdvisoryClasses(p: Policy, all: seq<DiversityClass>): seq<DiversityClass> {
    if all == [] then []
    else (if all[0] in p.requiredClasses then [] else [all[0]]) + AdvisoryClasses(p, all[1..])
  }

  // ----- Subset analysis ----------------------------------------------------------------

  function CellsOfRow(m: PairwiseMatrix, subset: seq<nat>, a: nat, b: nat): seq<PairwiseCell>
    requires a < |subset| && b <= |subset|
  {
    if b <= a + 1 then []
    else
      var front := CellsOfRow(m, subset, a, b - 1);
      match At(m, subset[a], subset[b - 1])
      case None => front
      case Some(cell) => front + [cell]
  }

  /** `cells_within`: the cells of all pairs of the subset, rows below `rows`. */
  function CellsWithin(m: PairwiseMatrix, subset: seq<nat>, rows: nat): seq<PairwiseCell>
    requires rows <= |subset|
  {
    if rows == 0 then []
    else CellsWithin(m, subset, rows - 1) + CellsOfRow(m, subset, rows - 1, |subset|)
  }

  function UnknownOutcome(p: Policy): Outcome {
    if p.unknownBehavior == DEMOTE_TO_REVALIDATION then REVALIDATION_REQUIRED else UNKNOWN_INCOMPLETE_EVIDENCE
  }

  /** What the subset step decides: an outcome unless a proven witness was found. */
  datatype Finding = Finding(decided: Option<Outcome>, subset: WitnessSubset, cells: seq<PairwiseCell>)

  ghost function SubsetFinding(m: PairwiseMatrix, p: Policy): Finding {
    var certain := GraphOf(m, false);
    var optimistic := GraphOf(m, true);
    var certainWitness := Witness(certain, certain.All());
    var optimisticWitness := Witness(optimistic, optimistic.All());
    var k := p.minimumIndependentPaths;
    if |certainWitness| >= k then
      Finding(None, WitnessSubset(true, k, certainWitness, |certainWitness|, true),
              CellsWithin(m, certainWitness, |certainWitness|))
    else if |optimisticWitness| >= k then
      Finding(Some(UnknownOutcome(p)), WitnessSubset(true, k, optimisticWitness, |certainWitness|, true), m.cells)
    else
      Finding(Some(NOT_DIVERSE), WitnessSubset(true, k, certainWitness, |certainWitness|, true), m.cells)
  }

  ghost function FindingOf(m: PairwiseMatrix, p: Policy): Finding {
    if p.semantics == AT_LEAST_K_INDEPENDENT then SubsetFinding(m, p) else Finding(None, NO_WITNESS, m.cells)
  }

  // ----- Classification --------------------------------------------------------------------

  function Classify(required: seq<ClassResult>, p: Policy): Outcome {
    var anyConflict := exists c | c in required :: c.outcome == NOT_DIVERSE;
    var anyUnknown := exists c | c in required :: c.outcome == UNKNOWN_INCOMPLETE_EVIDENCE;
    if exists c | c in required ::
         c.outcome !in {NOT_DIVERSE, UNKNOWN_INCOMPLETE_EVIDENCE, PROVEN_DIVERSE} then MALFORMED
    else if anyUnknown && p.completeness == REQUIRE_COMPLETE_EVIDENCE then UnknownOutcome(p)
    else if anyConflict then NOT_DIVERSE
    else if anyUnknown then UnknownOutcome(p)
    else PROVEN_DIVERSE
  }

  // ----- The evaluation -----------------------------------------------------------------------

  function Reject(outcome: Outcome, limit: Option<LimitNotice>, topology: nat, domains: nat): EvaluationResult {
    EvaluationResult(outcome, limit, [], [], [], 0, PairwiseMatrix([], []), NO_WITNESS, NO_DEPENDENCIES,
                     Consulted([], []), topology, domains)
  }

  datatype Refusal = Refusal(outcome: Outcome, limit: Option<LimitNotice>)

  /** Shape and limit checks, in order; nothing here consults a view. */
  function Prelude(request: Request, p: Policy, limits: Limits): Option<Refusal> {
    var n := |request.paths|;
    if !limits.SelfConsistent() then Some(Refusal(MALFORMED, None))
    else if !ValidPolicy(CanonicalPolicy(p), limits) then Some(Refusal(MALFORMED, None))
    else if HasDuplicatePaths(CanonicalRequest(request).paths) then Some(Refusal(MALFORMED, None))
    else if n < 2 then Some(Refusal(MALFORMED, None))
    else if n < p.minimumIndependentPaths then Some(Refusal(MALFORMED, None))
    else if n > limits.maxPathsPerProof then
      Some(Refusal(RESOURCE_LIMIT, Some(LimitNotice(MAX_PATHS_PER_PROOF, n, limits.maxPathsPerProof))))
    else if CellCount(n) > limits.maxPairwiseCells then
      Some(Refusal(RESOURCE_LIMIT, Some(LimitNotice(MAX_PAIRWISE_CELLS, CellCount(n), limits.maxPairwiseCells))))
    else None
  }

  function PathVerdict(ref: PathRef, snap: Snapshot): Option<Outcome> {
    match snap.CurrentGeneration(ref.path)
    case None => Some(UNAUTHORIZED)
    case Some(current) =>
      if current != ref.generation then Some(STALE_PATH_AUTHORITY)
      else if !snap.IsAuthorized(ref.path, ref.generation) then Some(UNAUTHORIZED)
      else None
  }

  /** The first path, in canonical order, that Path Authority does not currently back. */
  function AuthorityVerdict(paths: seq<PathRef>, snap: Snapshot): Option<Outcome> {
    if paths == [] then None
    else match PathVerdict(paths[0], snap)
      case Some(outcome) => Some(outcome)
      case None => AuthorityVerdict(paths[1..], snap)
  }

  predicate Repeats(c: PathComposition) {
    || !NoRepeat(c.sources) || !NoRepeat(c.destinations) || !NoRepeat(c.transitNodes)
    || !NoRepeat(c.links) || !NoRepeat(c.devices)
  }

  predicate NoRepeat(s: seq<string>) {
    forall i, j | 0 <= i < j < |s| :: s[i] != s[j]
  }

  ghost function CanonicalComposition(c: PathComposition): (r: PathComposition)
    ensures r.Canonical()
  {
    c.(sources := Ascending(Elements(c.sources)),
       destinations := Ascending(Elements(c.destinations)),
       transitNodes := Ascending(Elements(c.transitNodes)),
       links := Ascending(Elements(c.links)),
       devices := Ascending(Elements(c.devices)))
  }

  /** Resolution of one path's structure. */
  ghost function Resolve(ref: PathRef, facts: Facts): (Option<Outcome>, PathComposition) {
    var blank := PathComposition("", 0, 0, [], [], [], [], [], COMPLETE, COMPLETE, COMPLETE, COMPLETE);
    match facts.Composition(ref.path)
    case None => (Some(MALFORMED), blank)
    case Some(c) =>
      if c.authorityGeneration != ref.generation then (Some(STALE_PATH_AUTHORITY), blank)
      else if c.topologyGeneration != facts.topologyGeneration then (Some(STALE_TOPOLOGY), blank)
      else if Repeats(c) then (Some(MALFORMED), blank)
      else (None, CanonicalComposition(c))
  }

  /** Structures of a prefix of the paths, or the first refusal. */
  ghost function ResolveAll(paths: seq<PathRef>, facts: Facts): (r: (Option<Outcome>, seq<PathComposition>))
    ensures r.0 == None ==> |r.1| == |paths|
    decreases |paths|
  {
    if paths == [] then (None, [])
    else
      var last := |paths| - 1;
      var (refused, front) := ResolveAll(paths[..last], facts);
      if refused != None then (refused, front)
      else
        var (outcome, c) := Resolve(paths[last], facts);
        if outcome != None then (outcome, []) else (None, front + [c])
  }

  ghost function IdsOfKind(entities: set<EntityRef>, kind: EntityKind): set<string> {
    set e | e in entities && e.kind == kind :: e.id
  }

  /** Sorted by kind, then by identity, without repeats. */
  ghost function CanonicalEntities(entities: set<EntityRef>): seq<EntityRef> {
    Tag(ENDPOINT, Ascending(IdsOfKind(entities, ENDPOINT))) + Tag(NODE, Ascending(IdsOfKind(entities, NODE)))
    + Tag(LINK, Ascending(IdsOfKind(entities, LINK))) + Tag(DEVICE, Ascending(IdsOfKind(entities, DEVICE)))
  }

  ghost function Footprint(comps: seq<PathComposition>): set<EntityRef> {
    set c, e | c in comps && e in Entities(c) :: e
  }

  /** The pairwise step asks for these relations whatever the policy requires. */
  function ConsultedRelations(p: Policy): seq<DomainRelation> {
    [RACK, POD, SITE] + p.relations
  }

  ghost function AllDomains(comps: seq<PathComposition>, p: Policy, facts: Facts): set<string> {
    set c, relation, d | c in comps && relation in ConsultedRelations(p)
                         && d in DomainsOf(facts, Entities(c), relation) :: d
  }

  ghost function AllRiskGroups(comps: seq<PathComposition>, facts: Facts): set<string> {
    set c, d | c in comps && d in RiskGroupsOf(facts, Entities(c)) :: d
  }

  function Bounded(ids: seq<string>, bound: nat): seq<string> {
    if |ids| > bound then ids[..bound] else ids
  }

  ghost function ConsultedBy(comps: seq<PathComposition>, p: Policy, facts: Facts, bound: nat): Consulted {
    Consulted(Bounded(Ascending(AllDomains(comps, p, facts)), bound),
              Bounded(Ascending(AllRiskGroups(comps, facts)), bound))
  }

  function PathsOf(refs: seq<PathRef>): seq<string> {
    seq(|refs|, i requires 0 <= i < |refs| => refs[i].path)
  }

  /** Everything after the authority check, over canonical inputs. */
  ghost function Body(request: Request, p: Policy, facts: Facts, limits: Limits): EvaluationResult {
    var (refused, comps) := ResolveAll(request.paths, facts);
    var topology, domains := facts.topologyGeneration, facts.domainGeneration;
    if refused != None then Reject(refused.value, None, topology, domains)
    else
      var footprint := CanonicalEntities(Footprint(comps));
      if |footprint| > limits.maxTopologyDependencies then
        Reject(RESOURCE_LIMIT,
               Some(LimitNotice(MAX_TOPOLOGY_DEPENDENCIES, |footprint|, limits.maxTopologyDependencies)), topology,
                   domains)
      else
        var n := |request.paths|;
        if p.semantics == AT_LEAST_K_INDEPENDENT && (n > limits.maxKSubsetPaths || n > 32) then
          Reject(RESOURCE_LIMIT, Some(LimitNotice(MAX_K_SUBSET_PATHS, n, limits.maxKSubsetPaths)), topology, domains)
        else
          Conclude(MatrixOf(PathsOf(request.paths), comps, p, facts, limits.maxConflictsPerProof), p,
                   Dependencies(p.generation, topology, domains, 0, request.paths, footprint, p.endpointExemption),
                   ConsultedBy(comps, p, facts, limits.maxDomainEvidenceEntries),
                   limits.maxConflictsPerProof)
  }

  /** Aggregation, classification and the bounded conflict list. */
  ghost function Conclude(m: PairwiseMatrix, p: Policy, dependencies: Dependencies, consulted: Consulted,
                          maxShared: nat): EvaluationResult {
    var finding := FindingOf(m, p);
    var required := AggregateAll(finding.cells, p.requiredClasses, maxShared);
    var all := AllShared(required);
    EvaluationResult(
      if finding.decided == None then Classify(required, p) else finding.decided.value,
      None,
      required,
      AggregateAll(finding.cells, AdvisoryClasses(p, ALL_CLASSES), maxShared),
      SortConflicts(TakeUpTo([], all, maxShared)),
      |all|,
      m,
      finding.subset,
      dependencies,
      consulted,
      dependencies.topologyGeneration,
      dependencies.domainGeneration)
  }

  /** `evaluate_diversity` once Path Authority has answered. */
  ghost function EvaluateGiven(request: Request, policy: Policy, verdict: Option<Outcome>, facts: Facts,
                               limits: Limits): EvaluationResult {
    match Prelude(request, policy, limits)
    case Some(refusal) => Reject(refusal.outcome, refusal.limit, facts.topologyGeneration, facts.domainGeneration)
    case None =>
      match verdict
      case Some(outcome) => Reject(outcome, None, facts.topologyGeneration, facts.domainGeneration)
      case None => Body(CanonicalRequest(request), CanonicalPolicy(policy), facts, limits)
  }

  ghost function AuthorityStep(request: Request, policy: Policy, snap: Snapshot): Option<Outcome> {
    if policy.requireAuthorityCurrent then AuthorityVerdict(CanonicalRequest(request).paths, snap) else None
  }

  /** `evaluate_diversity` against one instant. */
  ghost function Evaluate(request: Request, policy: Policy, snap: Snapshot, limits: Limits): EvaluationResult {
    EvaluateGiven(request, policy, AuthorityStep(request, policy, snap), snap.facts, limits)
  }

  /** The evaluation got as far as the pairwise matrix. */
  ghost predicate ReachesMatrix(request: Request, policy: Policy, snap: Snapshot, limits: Limits) {
    var canonical := CanonicalRequest(request);
    var p := CanonicalPolicy(policy);
    && Prelude(request, policy, limits) == None
    && AuthorityStep(request, policy, snap) == None
    && ResolveAll(canonical.paths, snap.facts).0 == None
    && |CanonicalEntities(Footprint(ResolveAll(canonical.paths, snap.facts).1))| <= limits.maxTopologyDependencies
    && (p.semantics == AT_LEAST_K_INDEPENDENT ==> |request.paths| <= limits.maxKSubsetPaths && |request.paths| <= 32)
  }
}
