/**
 * Evaluator output survives persistence: what an evaluation that reached the matrix
 * commits passes every check of the record decoder, or exactly when it does not.
 */
module Persistence {
  import opened Bytes
  import opened Evidence
  import opened Evaluator
  import opened Verdicts
  import opened ResultShape
  import RecordParts
  import Records
  import PolicyRecords
  import T = Triangle
  import A = Authority
  import L = Lifecycle
  import R = Registry

  // ----- From a committed revision to its record ----------------------------------------------------

  /** Equal but for the text, which the model of the evaluation does not carry. */
  predicate SameClass(stored: ClassResult, c: ClassResult) {
    stored == c.(detail := stored.detail)
  }

  ghost predicate SameClasses(stored: seq<ClassResult>, classes: seq<ClassResult>) {
    |stored| == |classes| && forall k | 0 <= k < |stored| :: SameClass(stored[k], classes[k])
  }

  ghost predicate SameCell(stored: PairwiseCell, c: PairwiseCell) {
    stored == c.(classes := stored.classes) && SameClasses(stored.classes, c.classes)
  }

  ghost predicate SameMatrix(stored: PairwiseMatrix, m: PairwiseMatrix) {
    && stored.order == m.order && |stored.cells| == |m.cells|
    && forall k | 0 <= k < |stored.cells| :: SameCell(stored.cells[k], m.cells[k])
  }

  /** The record holds this revision, whatever its identity text, digests and details. */
  ghost predicate Holds(stored: Records.StoredProof, p: R.Proof) {
    var e := p.evaluation;
    && stored.head.request == p.request && stored.head.generation == p.generation
    && stored.findings.outcome == e.outcome && stored.findings.limit == e.limit
    && SameClasses(stored.findings.classes, e.classes) && SameClasses(stored.findings.advisories, e.advisories)
    && stored.findings.conflicts == e.conflicts && stored.findings.conflictsTotal == e.conflictsTotal
    && SameMatrix(stored.matrix, e.matrix)
    && stored.witnessSubset == e.witnessSubset && stored.dependencies == p.dependencies
    && stored.standing == Records.Standing(p.provenance, p.lifecycle, p.currentness)
  }

  // ----- Texts and numbers in their fields -------------------------------------------------------------

  ghost predicate ConflictText(c: SharedResource, limits: Limits) {
    RecordParts.FitsText(c.id, limits.maxIdentityLength)
  }

  ghost predicate ClassText(c: ClassResult, limits: Limits) {
    && RecordParts.FitsText(c.detail, Records.TextBound(limits)) && c.sharedTotal < TWO_64
    && forall k | 0 <= k < |c.shared| :: ConflictText(c.shared[k], limits)
  }

  ghost predicate ClassTexts(classes: seq<ClassResult>, limits: Limits) {
    forall k | 0 <= k < |classes| :: ClassText(classes[k], limits)
  }

  ghost predicate CellText(c: PairwiseCell, limits: Limits) {
    ClassTexts(c.classes, limits) && (c.primaryConflict.Some? ==> ConflictText(c.primaryConflict.value, limits))
  }

  ghost predicate RefTexts(refs: seq<PathRef>, limits: Limits) {
    forall k | 0 <= k < |refs| :: Records.FitsRef(refs[k], limits)
  }

  /** Every bound is a 32-bit field. */
  predicate WordLimits(limits: Limits) {
    && limits.maxPathsPerProof < TWO_32 && limits.maxRequiredClasses < TWO_32 && limits.maxConflictsPerProof < TWO_32
    && limits.maxPairwiseCells < TWO_32 && limits.maxTopologyDependencies < TWO_32
  }

  /** Every text is bounded and every number fits its field; sizes and meanings are not assumed. */
  ghost predicate Representable(stored: Records.StoredProof, limits: Limits) {
    var d := stored.dependencies;
    && WordLimits(limits)
    && RecordParts.FitsId(stored.head.id, limits, RecordParts.PROOF_ID) && stored.head.generation < TWO_64
    && RecordParts.FitsId(stored.head.request.policy, limits, RecordParts.POLICY_ID)
    && stored.head.request.policyGeneration < TWO_64 && RefTexts(stored.head.request.paths, limits)
    && |stored.head.requestDigest| == Records.DIGEST_BYTES && |stored.head.semanticDigest| == Records.DIGEST_BYTES
    && RecordParts.FitsText(stored.findings.detail, Records.TextBound(limits))
    && stored.findings.conflictsTotal < TWO_64
    && ClassTexts(stored.findings.classes, limits) && ClassTexts(stored.findings.advisories, limits)
    && (forall k | 0 <= k < |stored.findings.conflicts| :: ConflictText(stored.findings.conflicts[k], limits))
    && (forall k | 0 <= k < |stored.matrix.cells| :: CellText(stored.matrix.cells[k], limits))
    && d.policyGeneration < TWO_64 && d.topologyGeneration < TWO_64 && d.domainGeneration < TWO_64 && d.epoch < TWO_64
    && (forall k | 0 <= k < |d.topologyEntities| ::
          RecordParts.FitsText(d.topologyEntities[k].id, limits.maxIdentityLength))
    && Records.FitsStanding(stored.standing, limits)
  }

  // ----- Parts ---------------------------------------------------------------------------------------------

  lemma ConflictFitsRecord(c: SharedResource, n: nat, limits: Limits)
    requires NamesPair(c, n) && 2 <= n <= limits.maxPathsPerProof < TWO_32 && ConflictText(c, limits)
    ensures RecordParts.FitsConflict(c, limits) && Records.Names(c, n)
  {
    forall k | 0 <= k < |c.paths|
      ensures RecordParts.FitsWord(c.paths[k]) && c.paths[k] < n
    {
      assert k == 0 || k == 1;
    }
  }

  ghost predicate ConflictsFitRecord(s: seq<SharedResource>, n: nat, limits: Limits) {
    forall k | 0 <= k < |s| :: RecordParts.FitsConflict(s[k], limits) && Records.Names(s[k], n)
  }

  lemma ConflictListFits(s: seq<SharedResource>, n: nat, limits: Limits)
    requires NamePairs(s, n) && 2 <= n <= limits.maxPathsPerProof < TWO_32
    requires forall k | 0 <= k < |s| :: ConflictText(s[k], limits)
    ensures ConflictsFitRecord(s, n, limits)
  {
    forall k | 0 <= k < |s|
      ensures RecordParts.FitsConflict(s[k], limits) && Records.Names(s[k], n)
    {
      ConflictFitsRecord(s[k], n, limits);
    }
  }

  lemma ClassFitsRecord(stored: ClassResult, c: ClassResult, n: nat, limits: Limits)
    requires SameClass(stored, c) && ClassShape(c, limits.maxConflictsPerProof, n)
    requires 2 <= n <= limits.maxPathsPerProof && WordLimits(limits) && ClassText(stored, limits)
    ensures Records.FitsClass(stored, limits) && Records.ClassNames(stored, n)
  {
    ConflictListFits(stored.shared, n, limits);
    assert forall k | 0 <= k < |stored.shared| :: RecordParts.ConflictFitter(limits)(stored.shared[k]);
  }

  ghost predicate ClassesFitRecord(stored: seq<ClassResult>, n: nat, limits: Limits) {
    forall k | 0 <= k < |stored| :: Records.FitsClass(stored[k], limits) && Records.ClassNames(stored[k], n)
  }

  lemma ClassListFits(stored: seq<ClassResult>, classes: seq<ClassResult>, n: nat, limits: Limits)
    requires SameClasses(stored, classes) && ClassesShape(classes, limits.maxConflictsPerProof, n)
    requires 2 <= n <= limits.maxPathsPerProof && WordLimits(limits) && ClassTexts(stored, limits)
    ensures ClassesFitRecord(stored, n, limits)
  {
    forall k | 0 <= k < |stored|
      ensures Records.FitsClass(stored[k], limits) && Records.ClassNames(stored[k], n)
    {
      ClassFitsRecord(stored[k], classes[k], n, limits);
    }
  }

  lemma ClassesFitList(stored: seq<ClassResult>, n: nat, limits: Limits)
    requires ClassesFitRecord(stored, n, limits) && WordLimits(limits)
    ensures RecordParts.FitsList(stored, limits.maxRequiredClasses, Records.ClassFitter(limits))
            <==> |stored| <= limits.maxRequiredClasses
  {
    assert forall k | 0 <= k < |stored| :: Records.ClassFitter(limits)(stored[k]);
  }

  lemma CellFitsRecord(stored: PairwiseCell, c: PairwiseCell, required: nat, n: nat, limits: Limits)
    requires SameCell(stored, c) && CellShape(c, required, limits.maxConflictsPerProof, n) && CellText(stored, limits)
    requires 2 <= n <= limits.maxPathsPerProof && WordLimits(limits) && required <= limits.maxRequiredClasses
    ensures Records.FitsCell(stored, n, limits) && Records.CellNames(stored, n)
  {
    ClassListFits(stored.classes, c.classes, n, limits);
    ClassesFitList(stored.classes, n, limits);
    if stored.primaryConflict.Some? {
      ConflictFitsRecord(stored.primaryConflict.value, n, limits);
    }
  }

  lemma MatrixFitsRecord(stored: PairwiseMatrix, m: PairwiseMatrix, required: nat, limits: Limits)
    requires SameMatrix(stored, m) && MatrixShape(m, required, limits.maxConflictsPerProof) && WordLimits(limits)
    requires 2 <= |m.order| <= limits.maxPathsPerProof && required <= limits.maxRequiredClasses
    requires T.CellCount(|m.order|) <= limits.maxPairwiseCells
    requires forall k | 0 <= k < |stored.cells| :: CellText(stored.cells[k], limits)
    requires forall k | 0 <= k < |stored.order| :: RecordParts.FitsId(stored.order[k], limits, RecordParts.PATH_ID)
    ensures Records.FitsMatrix(stored, limits)
    ensures forall k | 0 <= k < |stored.cells| :: Records.CellNames(stored.cells[k], |m.order|)
  {
    forall k | 0 <= k < |stored.cells|
      ensures Records.FitsCell(stored.cells[k], |m.order|, limits) && Records.CellNames(stored.cells[k], |m.order|)
    {
      CellFitsRecord(stored.cells[k], m.cells[k], required, |m.order|, limits);
    }
    assert forall k | 0 <= k < |stored.cells| :: Records.CellFitter(|m.order|, limits)(stored.cells[k]);
    assert forall k | 0 <= k < |stored.order| :: Records.PathFitter(limits)(stored.order[k]);
  }

  lemma FindingsFitRecord(f: Records.Findings, e: EvaluationResult, p: Policy, n: nat, limits: Limits)
    requires Shape(e, p, limits.maxConflictsPerProof, n) && 2 <= n <= limits.maxPathsPerProof && WordLimits(limits)
    requires f.limit == None && f.conflicts == e.conflicts && f.conflictsTotal == e.conflictsTotal
    requires SameClasses(f.classes, e.classes) && SameClasses(f.advisories, e.advisories)
    requires RecordParts.FitsText(f.detail, Records.TextBound(limits)) && f.conflictsTotal < TWO_64
    requires ClassTexts(f.classes, limits) && ClassTexts(f.advisories, limits)
    requires forall k | 0 <= k < |f.conflicts| :: ConflictText(f.conflicts[k], limits)
    requires |p.requiredClasses| <= limits.maxRequiredClasses
    ensures Records.FitsFindings(f, limits) <==> |f.advisories| <= limits.maxRequiredClasses
    ensures forall k | 0 <= k < |f.conflicts| :: Records.Names(f.conflicts[k], n)
    ensures forall k | 0 <= k < |f.classes| :: Records.ClassNames(f.classes[k], n)
  {
    ClassListFits(f.classes, e.classes, n, limits);
    ClassListFits(f.advisories, e.advisories, n, limits);
    ClassesFitList(f.classes, n, limits);
    ClassesFitList(f.advisories, n, limits);
    ConflictListFits(f.conflicts, n, limits);
    assert forall k | 0 <= k < |f.conflicts| :: RecordParts.ConflictFitter(limits)(f.conflicts[k]);
  }

  lemma WitnessFitsRecord(w: WitnessSubset, k: nat, n: nat, limits: Limits)
    requires SubsetShape(w, k, n) && n <= limits.maxPathsPerProof < TWO_32 && k <= n
    ensures Records.FitsWitness(w, limits)
    ensures !exists a | 0 <= a < |w.indices| :: w.indices[a] >= n
  {
  }

  lemma DependenciesFitRecord(d: Dependencies, n: nat, limits: Limits)
    requires |d.paths| == n <= limits.maxPathsPerProof && |d.topologyEntities| <= limits.maxTopologyDependencies
    requires WordLimits(limits) && RefTexts(d.paths, limits)
    requires forall k | 0 <= k < |d.topologyEntities| ::
               RecordParts.FitsText(d.topologyEntities[k].id, limits.maxIdentityLength)
    requires d.policyGeneration < TWO_64 && d.topologyGeneration < TWO_64 && d.domainGeneration < TWO_64
             && d.epoch < TWO_64
    ensures Records.FitsDependencies(d, limits)
  {
    assert forall k | 0 <= k < |d.paths| :: Records.RefFitter(limits)(d.paths[k]);
    assert forall k | 0 <= k < |d.topologyEntities| :: Records.EntityFitter(limits)(d.topologyEntities[k]);
  }

  lemma HeadFitsRecord(h: Records.Head, limits: Limits)
    requires RecordParts.FitsId(h.id, limits, RecordParts.PROOF_ID) && h.generation < TWO_64
    requires RecordParts.FitsId(h.request.policy, limits, RecordParts.POLICY_ID) && h.request.policyGeneration < TWO_64
    requires |h.request.paths| <= limits.maxPathsPerProof < TWO_32 && RefTexts(h.request.paths, limits)
    requires |h.requestDigest| == Records.DIGEST_BYTES && |h.semanticDigest| == Records.DIGEST_BYTES
    ensures Records.FitsHead(h, limits)
  {
    assert forall k | 0 <= k < |h.request.paths| :: Records.RefFitter(limits)(h.request.paths[k]);
  }

  // ----- The whole revision -----------------------------------------------------------------------------------

  lemma AllClassesDistinct()
    ensures Distinct(ALL_CLASSES) && |ALL_CLASSES| == 8 && forall c: DiversityClass :: c in ALL_CLASSES
  {
    assert forall k | 0 <= k < |ALL_CLASSES| :: ClassRank(ALL_CLASSES[k]) == k + 1;
    PolicyRecords.AllNamed();
  }

  lemma {:induction false} SortByRankSize<X>(rank: X -> nat, s: seq<X>)
    ensures |SortByRank(rank, s)| == |s|
  {
    if s != [] {
      SortByRankSize(rank, s[1..]);
      InsertByRankSize(rank, s[0], SortByRank(rank, s[1..]));
    }
  }

  lemma {:induction false} InsertByRankSize<X>(rank: X -> nat, x: X, s: seq<X>)
    ensures |InsertByRank(rank, x, s)| == |s| + 1
  {
    if s != [] && rank(x) > rank(s[0]) {
      InsertByRankSize(rank, x, s[1..]);
    }
  }

  /** Every class the policy does not require is reported as an advisory. */
  lemma AdvisoriesAreTheRest(policy: Policy)
    requires Distinct(CanonicalPolicy(policy).requiredClasses)
    ensures |AdvisoryClasses(CanonicalPolicy(policy), ALL_CLASSES)| == 8 - |policy.requiredClasses|
    ensures |CanonicalPolicy(policy).requiredClasses| == |policy.requiredClasses|
  {
    var p := CanonicalPolicy(policy);
    AllClassesDistinct();
    AdvisoryCount(p.requiredClasses, p, ALL_CLASSES);
    assert (set c | c in ALL_CLASSES && c in p.requiredClasses) == (set c | c in p.requiredClasses);
    PolicyRecords.DistinctSize(p.requiredClasses);
    SortByRankSize(ClassRank, policy.requiredClasses);
  }

  /** What an evaluation that reached the matrix offers to its record. */
  ghost predicate Basis(e: EvaluationResult, request: Request, p: Policy, limits: Limits) {
    var n := |request.paths|;
    && Shape(e, p, limits.maxConflictsPerProof, n)
    && 2 <= n <= limits.maxPathsPerProof && T.CellCount(n) <= limits.maxPairwiseCells
    && |p.requiredClasses| <= limits.maxRequiredClasses && p.minimumIndependentPaths <= n
    && e.matrix.order == PathsOf(request.paths) && e.dependencies.paths == request.paths
    && |e.dependencies.topologyEntities| <= limits.maxTopologyDependencies
    && e.dependencies.policyGeneration > 0
    && !HasDuplicatePaths(request.paths)
  }

  lemma EvaluationIsBasis(request: Request, policy: Policy, snap: Snapshot, limits: Limits)
    requires ReachesMatrix(request, policy, snap, limits)
    ensures Basis(Evaluate(request, policy, snap, limits), CanonicalRequest(request), CanonicalPolicy(policy), limits)
    ensures |AdvisoryClasses(CanonicalPolicy(policy), ALL_CLASSES)| == 8 - |policy.requiredClasses|
    ensures Evaluate(request, policy, snap, limits).dependencies.topologyGeneration == snap.facts.topologyGeneration
    ensures Evaluate(request, policy, snap, limits).dependencies.domainGeneration == snap.facts.domainGeneration
  {
    EvaluationHasShape(request, policy, snap, limits);
    SortedSize(request);
    PreludeBounds(request, policy, limits);
    AdvisoriesAreTheRest(policy);
  }

  lemma PreludeBounds(request: Request, policy: Policy, limits: Limits)
    requires Prelude(request, policy, limits) == None
    ensures var n, p := |request.paths|, CanonicalPolicy(policy);
            && 2 <= n <= limits.maxPathsPerProof && T.CellCount(n) <= limits.maxPairwiseCells
            && |p.requiredClasses| <= limits.maxRequiredClasses && Distinct(p.requiredClasses)
            && p.minimumIndependentPaths <= n && policy.generation > 0
            && !HasDuplicatePaths(CanonicalRequest(request).paths)
  {
  }

  lemma PartsFit(e: EvaluationResult, request: Request, p: Policy, limits: Limits, drifted: bool, generation: nat,
                 acting: A.Acting, stored: Records.StoredProof)
    requires Basis(e, request, p, limits) && Representable(stored, limits)
    requires Holds(stored, R.MakeProof(request, generation, R.Finished(e, drifted), acting))
    ensures Records.FitsHead(stored.head, limits) && Records.FitsMatrix(stored.matrix, limits)
    ensures Records.FitsWitness(stored.witnessSubset, limits) && Records.FitsDependencies(stored.dependencies, limits)
    ensures Records.FitsFindings(stored.findings, limits)
            <==> |AdvisoryClasses(p, ALL_CLASSES)| <= limits.maxRequiredClasses
    ensures Records.RefersToItsPaths(stored) && stored.matrix.order == PathsOf(stored.head.request.paths)
    ensures !exists a | 0 <= a < |stored.witnessSubset.indices| :: stored.witnessSubset.indices[a] >= |request.paths|
  {
    var n := |request.paths|;
    HeadFitsRecord(stored.head, limits);
    forall k | 0 <= k < |stored.matrix.order|
      ensures RecordParts.FitsId(stored.matrix.order[k], limits, RecordParts.PATH_ID)
    {
      assert Records.FitsRef(stored.head.request.paths[k], limits);
    }
    MatrixFitsRecord(stored.matrix, e.matrix, |p.requiredClasses|, limits);
    FindingsFitRecord(stored.findings, e, p, n, limits);
    WitnessFitsRecord(stored.witnessSubset, p.minimumIndependentPaths, n, limits);
    DependenciesFitRecord(stored.dependencies, n, limits);
  }

  lemma NoUnsupportedClaim(e: EvaluationResult, request: Request, p: Policy, limits: Limits, drifted: bool,
                           generation: nat,
                           acting: A.Acting, stored: Records.StoredProof)
    requires Basis(e, request, p, limits)
    requires Holds(stored, R.MakeProof(request, generation, R.Finished(e, drifted), acting))
    ensures !Records.UnsupportedClaim(stored)
    ensures stored.standing.lifecycle == L.State.CURRENT <==> stored.findings.outcome != REVALIDATION_REQUIRED
  {
  }

  lemma BasisSurvives(e: EvaluationResult, request: Request, p: Policy, limits: Limits, drifted: bool, generation: nat,
                      acting: A.Acting, stored: Records.StoredProof)
    requires Basis(e, request, p, limits) && Representable(stored, limits)
    requires Holds(stored, R.MakeProof(request, generation, R.Finished(e, drifted), acting))
    ensures Records.Storable(stored, limits)
            <==> && |AdvisoryClasses(p, ALL_CLASSES)| <= limits.maxRequiredClasses
                 && (stored.findings.outcome == REVALIDATION_REQUIRED
                     || (e.dependencies.topologyGeneration > 0 && e.dependencies.domainGeneration > 0
                         && acting.epoch > 0))
  {
    PartsFit(e, request, p, limits, drifted, generation, acting, stored);
    NoUnsupportedClaim(e, request, p, limits, drifted, generation, acting, stored);
  }

  /**
   * A revision committed from an evaluation that reached the matrix comes back from its
   * record if and only if the advisories fit the class bound and, unless it awaits
   * revalidation, the views and the publisher bound set generations.
   */
  lemma EvaluatorOutputSurvives(request: Request, policy: Policy, snap: Snapshot, limits: Limits, drifted: bool,
                                generation: nat,
                                acting: A.Acting, stored: Records.StoredProof, rest: Buffer)
    requires ReachesMatrix(request, policy, snap, limits) && Representable(stored, limits)
    requires Holds(stored, R.MakeProof(CanonicalRequest(request), generation,
                                       R.Finished(Evaluate(request, policy, snap, limits), drifted), acting))
    ensures Records.TakeProof(Records.PutProof(stored, rest), limits) == RecordParts.Success((stored, rest))
            <==> && 8 - |policy.requiredClasses| <= limits.maxRequiredClasses
                 && (stored.findings.outcome == REVALIDATION_REQUIRED
                     || (snap.facts.topologyGeneration > 0 && snap.facts.domainGeneration > 0 && acting.epoch > 0))
  {
    EvaluationIsBasis(request, policy, snap, limits);
    BasisSurvives(Evaluate(request, policy, snap, limits), CanonicalRequest(request), CanonicalPolicy(policy), limits,
                  drifted, generation, acting, stored);
    Records.ProofRoundTrip(stored, rest, limits);
  }
}
