/**
 * What the outcome of an evaluation means: absence of evidence is never
 * independence, the subset semantics is exact over every way the unknown pairs
 * can resolve, decisive outcomes are never retracted, and arrival order is
 * irrelevant.
 */
module Verdicts {
  import opened Ordering
  import opened TotalOrder
  import opened Triangle
  import opened Graph
  import opened Evidence
  import opened PairClasses
  import opened Evaluator

  // ----- Cells -------------------------------------------------------------------

  lemma CellIndependence(i: nat, j: nat, l: PathComposition, r: PathComposition, p: Policy, facts: Facts, bound: nat)
    ensures var cell := CellOf(i, j, l, r, p, facts, bound);
            && |cell.classes| == |p.requiredClasses|
            && (forall k | 0 <= k < |p.requiredClasses| ::
                  var klass := p.requiredClasses[k];
                  && cell.classes[k].klass == klass
                  && cell.classes[k].outcome == Verdict(Shares(klass, l, r, p, facts), Complete(klass, l, r, p, facts))
                  && cell.classes[k].evidenceComplete == Complete(klass, l, r, p, facts))
            && (cell.independent <==> forall klass | klass in p.requiredClasses ::
                  !Shares(klass, l, r, p, facts) && Complete(klass, l, r, p, facts))
            && (CellHasConflict(cell) <==> exists klass | klass in p.requiredClasses :: Shares(klass, l, r, p, facts))
            && (cell.independent ==> cell.evidenceComplete)
  {
    var cell := CellOf(i, j, l, r, p, facts, bound);
    forall k | 0 <= k < |p.requiredClasses|
      ensures var klass := p.requiredClasses[k];
              && cell.classes[k].klass == klass
              && cell.classes[k].outcome == Verdict(Shares(klass, l, r, p, facts), Complete(klass, l, r, p, facts))
              && cell.classes[k].evidenceComplete == Complete(klass, l, r, p, facts)
    {
      ClassVerdict(p.requiredClasses[k], l, r, p, facts, bound);
    }
    CellFlags(cell, l, r, p, facts);
  }

  lemma CellFlags(cell: PairwiseCell, l: PathComposition, r: PathComposition, p: Policy, facts: Facts)
    requires |cell.classes| == |p.requiredClasses|
    requires cell == MakeCell(cell.left, cell.right, cell.classes)
    requires forall k | 0 <= k < |p.requiredClasses| ::
               var klass := p.requiredClasses[k];
               && cell.classes[k].outcome == Verdict(Shares(klass, l, r, p, facts), Complete(klass, l, r, p, facts))
               && cell.classes[k].evidenceComplete == Complete(klass, l, r, p, facts)
    ensures cell.independent <==> forall klass | klass in p.requiredClasses ::
              !Shares(klass, l, r, p, facts) && Complete(klass, l, r, p, facts)
    ensures CellHasConflict(cell) <==> exists klass | klass in p.requiredClasses :: Shares(klass, l, r, p, facts)
    ensures cell.independent ==> cell.evidenceComplete
  {
    if forall klass | klass in p.requiredClasses :: !Shares(klass, l, r, p, facts) && Complete(klass, l, r, p, facts) {
      forall c | c in cell.classes
        ensures ProvenClass(c)
      {
        var k :| 0 <= k < |cell.classes| && cell.classes[k] == c;
        assert p.requiredClasses[k] in p.requiredClasses;
      }
    }
    if cell.independent {
      forall klass | klass in p.requiredClasses
        ensures !Shares(klass, l, r, p, facts) && Complete(klass, l, r, p, facts)
      {
        var k :| 0 <= k < |p.requiredClasses| && p.requiredClasses[k] == klass;
        assert cell.classes[k] in cell.classes;
      }
    }
    if CellHasConflict(cell) {
      var c :| c in cell.classes && c.outcome == NOT_DIVERSE;
      var k :| 0 <= k < |cell.classes| && cell.classes[k] == c;
      assert p.requiredClasses[k] in p.requiredClasses;
    }
    if klass :| klass in p.requiredClasses && Shares(klass, l, r, p, facts) {
      var k :| 0 <= k < |p.requiredClasses| && p.requiredClasses[k] == klass;
      assert cell.classes[k] in cell.classes;
    }
  }

  /** The pair's cell is found under both argument orders. */
  lemma MatrixAt(order: seq<string>, comps: seq<PathComposition>, p: Policy, facts: Facts, bound: nat, i: nat, j: nat)
    requires |order| == |comps| && i < j < |order|
    ensures var m := MatrixOf(order, comps, p, facts, bound);
            && At(m, i, j) == At(m, j, i) == Some(CellOf(i, j, comps[i], comps[j], p, facts, bound))
  {
    PairAtCellIndex(|order|, i, j);
  }

  // ----- Aggregation ---------------------------------------------------------------

  lemma {:induction false} AggregateOutcome(sources: seq<ClassResult>, klass: DiversityClass, maxShared: nat)
    requires forall s | s in sources :: s.outcome in {PROVEN_DIVERSE, NOT_DIVERSE, UNKNOWN_INCOMPLETE_EVIDENCE}
    ensures AggregateFold(sources, klass, maxShared).outcome ==
              if exists s | s in sources :: s.outcome == NOT_DIVERSE then NOT_DIVERSE
              else if exists s | s in sources ::
                        s.outcome == UNKNOWN_INCOMPLETE_EVIDENCE then UNKNOWN_INCOMPLETE_EVIDENCE
              else PROVEN_DIVERSE
    ensures AggregateFold(sources, klass, maxShared).evidenceComplete <==> forall s | s in sources :: s.evidenceComplete
    decreases |sources|
  {
    if sources != [] {
      var front, last := sources[..|sources| - 1], sources[|sources| - 1];
      assert sources == front + [last];
      assert forall s :: s in sources <==> s in front || s == last;
      AggregateOutcome(front, klass, maxShared);
    }
  }

  lemma {:induction false} FirstOfClassAt(classes: seq<ClassResult>, required: seq<DiversityClass>, k: nat)
    requires |classes| == |required| && Distinct(required) && k < |required|
    requires forall i | 0 <= i < |classes| :: classes[i].klass == required[i]
    ensures FirstOfClass(classes, required[k]) == Some(classes[k])
  {
    if k > 0 {
      FirstOfClassAt(classes[1..], required[1..], k - 1);
    }
  }

  /** Gathering a required class collects exactly its result in every cell. */
  lemma {:induction false} GatherMembers(cells: seq<PairwiseCell>, required: seq<DiversityClass>, k: nat)
    requires Distinct(required) && k < |required|
    requires forall c | c in cells :: |c.classes| == |required| && forall i | 0 <= i < |required| ::
               c.classes[i].klass == required[i]
    ensures |Gather(cells, required[k])| == |cells|
    ensures forall i | 0 <= i < |cells| :: Gather(cells, required[k])[i] == cells[i].classes[k]
  {
    if cells != [] {
      var last := cells[|cells| - 1];
      assert last in cells;
      GatherMembers(cells[..|cells| - 1], required, k);
      FirstOfClassAt(last.classes, required, k);
    }
  }

  /** The class shows a conflict on some pair of the set. */
  ghost predicate SetConflict(klass: DiversityClass, comps: seq<PathComposition>, p: Policy, facts: Facts) {
    exists i, j | 0 <= i < j < |comps| :: Shares(klass, comps[i], comps[j], p, facts)
  }

  /** The evidence the class consults is COMPLETE on every pair of the set. */
  ghost predicate SetComplete(klass: DiversityClass, comps: seq<PathComposition>, p: Policy, facts: Facts) {
    forall i, j | 0 <= i < j < |comps| :: Complete(klass, comps[i], comps[j], p, facts)
  }

  lemma CellsHaveRequired(order: seq<string>, comps: seq<PathComposition>, p: Policy, facts: Facts, bound: nat)
    requires |order| == |comps|
    ensures var m := MatrixOf(order, comps, p, facts, bound);
            forall c | c in m.cells :: |c.classes| == |p.requiredClasses|
              && forall i | 0 <= i < |p.requiredClasses| :: c.classes[i].klass == p.requiredClasses[i]
  {
    var m := MatrixOf(order, comps, p, facts, bound);
    forall c | c in m.cells
      ensures |c.classes| == |p.requiredClasses|
              && forall i | 0 <= i < |p.requiredClasses| :: c.classes[i].klass == p.requiredClasses[i]
    {
      var cell :| 0 <= cell < |m.cells| && m.cells[cell] == c;
      var (i, j) := PairAt(|order|, cell);
      CellIndependence(i, j, comps[i], comps[j], p, facts, bound);
    }
  }

  ghost function PairVerdict(klass: DiversityClass, comps: seq<PathComposition>, p: Policy, facts: Facts, i: nat,
                             j: nat): Outcome
    requires i < |comps| && j < |comps|
  {
    Verdict(Shares(klass, comps[i], comps[j], p, facts), Complete(klass, comps[i], comps[j], p, facts))
  }

  ghost function SetVerdict(klass: DiversityClass, comps: seq<PathComposition>, p: Policy, facts: Facts): Outcome {
    Verdict(SetConflict(klass, comps, p, facts), SetComplete(klass, comps, p, facts))
  }

  /** Set-wise aggregation of a class over the whole matrix. */
  lemma AggregateOverMatrix(order: seq<string>, comps: seq<PathComposition>, p: Policy, facts: Facts, bound: nat,
                            k: nat, maxShared: nat)
    requires |order| == |comps| && Distinct(p.requiredClasses) && k < |p.requiredClasses|
    ensures Aggregate(MatrixOf(order, comps, p, facts, bound).cells, p.requiredClasses[k], maxShared).outcome
            == SetVerdict(p.requiredClasses[k], comps, p, facts)
  {
    var m := MatrixOf(order, comps, p, facts, bound);
    var klass := p.requiredClasses[k];
    CellsHaveRequired(order, comps, p, facts, bound);
    GatherMembers(m.cells, p.requiredClasses, k);
    var sources := Gather(m.cells, klass);
    forall cell | 0 <= cell < |sources|
      ensures var (i, j) := PairAt(|comps|, cell);
              sources[cell].outcome == PairVerdict(klass, comps, p, facts, i, j)
    {
      var (i, j) := PairAt(|order|, cell);
      CellIndependence(i, j, comps[i], comps[j], p, facts, bound);
    }
    SourcesVerdict(sources, klass, comps, p, facts, maxShared);
  }

  lemma SourcesVerdict(sources: seq<ClassResult>, klass: DiversityClass, comps: seq<PathComposition>, p: Policy,
                       facts: Facts, maxShared: nat)
    requires |sources| == CellCount(|comps|)
    requires forall cell | 0 <= cell < |sources| ::
               var (i, j) := PairAt(|comps|, cell);
               sources[cell].outcome == PairVerdict(klass, comps, p, facts, i, j)
    ensures AggregateFold(sources, klass, maxShared).outcome == SetVerdict(klass, comps, p, facts)
  {
    forall s | s in sources
      ensures s.outcome in {PROVEN_DIVERSE, NOT_DIVERSE, UNKNOWN_INCOMPLETE_EVIDENCE}
      ensures s.outcome == NOT_DIVERSE ==> SetConflict(klass, comps, p, facts)
      ensures s.outcome == UNKNOWN_INCOMPLETE_EVIDENCE ==> !SetComplete(klass, comps, p, facts)
    {
      var cell :| 0 <= cell < |sources| && sources[cell] == s;
      var (i, j) := PairAt(|comps|, cell);
      PairBound(klass, comps, p, facts, i, j);
    }
    AggregateOutcome(sources, klass, maxShared);
    SourceOfVerdict(sources, klass, comps, p, facts);
  }

  /** What one pair says of the whole set. */
  lemma PairBound(klass: DiversityClass, comps: seq<PathComposition>, p: Policy, facts: Facts, i: nat, j: nat)
    requires i < j < |comps|
    ensures var outcome := PairVerdict(klass, comps, p, facts, i, j);
            && outcome in {PROVEN_DIVERSE, NOT_DIVERSE, UNKNOWN_INCOMPLETE_EVIDENCE}
            && (outcome == NOT_DIVERSE ==> SetConflict(klass, comps, p, facts))
            && (outcome == UNKNOWN_INCOMPLETE_EVIDENCE ==> !SetComplete(klass, comps, p, facts))
  {
  }

  /** A conflict of the set, or a gap in its evidence, is that of some pair. */
  lemma SourceOfVerdict(sources: seq<ClassResult>, klass: DiversityClass, comps: seq<PathComposition>, p: Policy,
                        facts: Facts)
    requires |sources| == CellCount(|comps|)
    requires forall cell | 0 <= cell < |sources| ::
               var (i, j) := PairAt(|comps|, cell);
               sources[cell].outcome == PairVerdict(klass, comps, p, facts, i, j)
    ensures SetConflict(klass, comps, p, facts) ==> exists s | s in sources :: s.outcome == NOT_DIVERSE
    ensures !SetConflict(klass, comps, p, facts) && !SetComplete(klass, comps, p, facts) ==>
              exists s | s in sources :: s.outcome == UNKNOWN_INCOMPLETE_EVIDENCE
  {
    if SetConflict(klass, comps, p, facts) {
      var i, j :| 0 <= i < j < |comps| && Shares(klass, comps[i], comps[j], p, facts);
      var s := SourceOfPair(sources, klass, comps, p, facts, i, j);
    } else if !SetComplete(klass, comps, p, facts) {
      var i, j :| 0 <= i < j < |comps| && !Complete(klass, comps[i], comps[j], p, facts);
      var s := SourceOfPair(sources, klass, comps, p, facts, i, j);
    }
  }

  lemma SourceOfPair(sources: seq<ClassResult>, klass: DiversityClass, comps: seq<PathComposition>, p: Policy,
                     facts: Facts, i: nat, j: nat) returns (s: ClassResult)
    requires |sources| == CellCount(|comps|) && i < j < |comps|
    requires forall cell | 0 <= cell < |sources| ::
               var (i, j) := PairAt(|comps|, cell);
               sources[cell].outcome == PairVerdict(klass, comps, p, facts, i, j)
    ensures s in sources && s.outcome == PairVerdict(klass, comps, p, facts, i, j)
  {
    PairAtCellIndex(|comps|, i, j);
    s := sources[CellIndex(|comps|, i, j)];
  }

  // ----- ALL_PAIRS -------------------------------------------------------------------

  /** Some required class has this verdict over the whole set. */
  ghost predicate SomeClass(outcome: Outcome, comps: seq<PathComposition>, p: Policy, facts: Facts) {
    exists klass | klass in p.requiredClasses :: SetVerdict(klass, comps, p, facts) == outcome
  }

  /** The set-wise verdict over the required classes. */
  ghost function AllPairsVerdict(comps: seq<PathComposition>, p: Policy, facts: Facts): Outcome {
    var conflict := SomeClass(NOT_DIVERSE, comps, p, facts);
    var open := SomeClass(UNKNOWN_INCOMPLETE_EVIDENCE, comps, p, facts);
    if conflict && (!open || p.completeness == PROVEN_CONFLICT_DECISIVE) then NOT_DIVERSE
    else if open then UnknownOutcome(p)
    else PROVEN_DIVERSE
  }

  lemma ConcludeAllPairs(order: seq<string>, comps: seq<PathComposition>, p: Policy, facts: Facts, bound: nat,
                         dependencies: Dependencies, consulted: Consulted, maxShared: nat)
    requires |order| == |comps| && Distinct(p.requiredClasses) && p.semantics == ALL_PAIRS
    ensures Conclude(MatrixOf(order, comps, p, facts, bound), p, dependencies, consulted, maxShared).outcome
            == AllPairsVerdict(comps, p, facts)
  {
    var m := MatrixOf(order, comps, p, facts, bound);
    var required := AggregateAll(m.cells, p.requiredClasses, maxShared);
    forall k | 0 <= k < |required|
      ensures required[k].outcome == SetVerdict(p.requiredClasses[k], comps, p, facts)
    {
      AggregateOverMatrix(order, comps, p, facts, bound, k, maxShared);
    }
    ClassifySetVerdicts(required, comps, p, facts);
  }

  ghost predicate SomeOutcome(required: seq<ClassResult>, outcome: Outcome) {
    exists c | c in required :: c.outcome == outcome
  }

  ghost predicate CarrySetVerdicts(required: seq<ClassResult>, comps: seq<PathComposition>, p: Policy, facts: Facts) {
    && |required| == |p.requiredClasses|
    && forall k | 0 <= k < |required| :: required[k].outcome == SetVerdict(p.requiredClasses[k], comps, p, facts)
  }

  lemma ResultToClass(required: seq<ClassResult>, comps: seq<PathComposition>, p: Policy, facts: Facts,
                      outcome: Outcome)
    requires CarrySetVerdicts(required, comps, p, facts) && SomeOutcome(required, outcome)
    ensures SomeClass(outcome, comps, p, facts)
  {
    var c :| c in required && c.outcome == outcome;
    var k :| 0 <= k < |required| && required[k] == c;
    assert p.requiredClasses[k] in p.requiredClasses;
  }

  lemma ClassToResult(required: seq<ClassResult>, comps: seq<PathComposition>, p: Policy, facts: Facts,
                      outcome: Outcome)
    requires CarrySetVerdicts(required, comps, p, facts) && SomeClass(outcome, comps, p, facts)
    ensures SomeOutcome(required, outcome)
  {
    var klass :| klass in p.requiredClasses && SetVerdict(klass, comps, p, facts) == outcome;
    var k :| 0 <= k < |p.requiredClasses| && p.requiredClasses[k] == klass;
    assert required[k] in required;
  }

  lemma SomeResult(required: seq<ClassResult>, comps: seq<PathComposition>, p: Policy, facts: Facts, outcome: Outcome)
    requires CarrySetVerdicts(required, comps, p, facts)
    ensures SomeOutcome(required, outcome) <==> SomeClass(outcome, comps, p, facts)
  {
    if SomeOutcome(required, outcome) {
      ResultToClass(required, comps, p, facts, outcome);
    } else if SomeClass(outcome, comps, p, facts) {
      ClassToResult(required, comps, p, facts, outcome);
    }
  }

  predicate IsVerdict(outcome: Outcome) {
    outcome == PROVEN_DIVERSE || outcome == NOT_DIVERSE || outcome == UNKNOWN_INCOMPLETE_EVIDENCE
  }

  lemma ClassifyVerdicts(required: seq<ClassResult>, p: Policy)
    requires forall c | c in required :: IsVerdict(c.outcome)
    ensures Classify(required, p) ==
              var conflict := exists c | c in required :: c.outcome == NOT_DIVERSE;
              var open := exists c | c in required :: c.outcome == UNKNOWN_INCOMPLETE_EVIDENCE;
              if conflict && (!open || p.completeness == PROVEN_CONFLICT_DECISIVE) then NOT_DIVERSE
              else if open then UnknownOutcome(p)
              else PROVEN_DIVERSE
  {
    assert !exists c | c in required :: c.outcome !in {NOT_DIVERSE, UNKNOWN_INCOMPLETE_EVIDENCE, PROVEN_DIVERSE};
  }

  lemma ClassifySetVerdicts(required: seq<ClassResult>, comps: seq<PathComposition>, p: Policy, facts: Facts)
    requires |required| == |p.requiredClasses|
    requires forall k | 0 <= k < |required| :: required[k].outcome == SetVerdict(p.requiredClasses[k], comps, p, facts)
    ensures Classify(required, p) == AllPairsVerdict(comps, p, facts)
  {
    SomeResult(required, comps, p, facts, NOT_DIVERSE);
    SomeResult(required, comps, p, facts, UNKNOWN_INCOMPLETE_EVIDENCE);
    forall c | c in required
      ensures IsVerdict(c.outcome)
    {
      var k :| 0 <= k < |required| && required[k] == c;
      assert required[k].outcome == SetVerdict(p.requiredClasses[k], comps, p, facts);
    }
    ClassifyVerdicts(required, p);
  }

  lemma CanonicalClasses(p: Policy)
    ensures forall k :: k in CanonicalPolicy(p).requiredClasses <==> k in p.requiredClasses
    ensures forall r :: r in CanonicalPolicy(p).relations <==> r in p.relations
  {
    SortByRankMembers(ClassRank, p.requiredClasses);
    SortByRankMembers(RelationRank, p.relations);
  }

  lemma {:induction false} InsertByRankMembers<T>(rank: T -> nat, x: T, s: seq<T>)
    ensures forall y :: y in InsertByRank(rank, x, s) <==> y == x || y in s
  {
    if s != [] && rank(x) > rank(s[0]) {
      InsertByRankMembers(rank, x, s[1..]);
      assert forall y :: y in s <==> y == s[0] || y in s[1..];
    }
  }

  lemma {:induction false} SortByRankMembers<T>(rank: T -> nat, s: seq<T>)
    ensures forall y :: y in SortByRank(rank, s) <==> y in s
  {
    if s != [] {
      SortByRankMembers(rank, s[1..]);
      InsertByRankMembers(rank, s[0], SortByRank(rank, s[1..]));
      assert forall y :: y in s <==> y == s[0] || y in s[1..];
    }
  }

  /** The structures the evaluation resolved, in canonical path order. */
  ghost function Structures(request: Request, facts: Facts): seq<PathComposition> {
    ResolveAll(CanonicalRequest(request).paths, facts).1
  }

  ghost function EvaluatedMatrix(request: Request, policy: Policy, facts: Facts, limits: Limits): PairwiseMatrix
    requires ResolveAll(CanonicalRequest(request).paths, facts).0 == None
  {
    MatrixOf(PathsOf(CanonicalRequest(request).paths), Structures(request, facts), CanonicalPolicy(policy), facts,
             limits.maxConflictsPerProof)
  }

  ghost function BoundDependencies(request: Request, policy: Policy, facts: Facts): Dependencies {
    Dependencies(policy.generation, facts.topologyGeneration, facts.domainGeneration, 0,
                 CanonicalRequest(request).paths,
                 CanonicalEntities(Footprint(Structures(request, facts))), policy.endpointExemption)
  }

  ghost function BoundConsulted(request: Request, policy: Policy, facts: Facts, limits: Limits): Consulted {
    ConsultedBy(Structures(request, facts), CanonicalPolicy(policy), facts, limits.maxDomainEvidenceEntries)
  }

  lemma SortedSize(request: Request)
    ensures |CanonicalRequest(request).paths| == |request.paths|
  {
    assert |multiset(SortRefs(request.paths))| == |multiset(request.paths)|;
  }

  lemma PreludeAccepts(request: Request, policy: Policy, limits: Limits)
    requires Prelude(request, policy, limits) == None
    ensures |request.paths| >= 2 && |request.paths| >= policy.minimumIndependentPaths >= 2
    ensures Distinct(CanonicalPolicy(policy).requiredClasses)
  {
  }

  lemma BodyIsConclude(request: Request, p: Policy, facts: Facts, limits: Limits)
    requires ResolveAll(request.paths, facts).0 == None
    requires |CanonicalEntities(Footprint(ResolveAll(request.paths, facts).1))| <= limits.maxTopologyDependencies
    requires p.semantics == AT_LEAST_K_INDEPENDENT ==>
               |request.paths| <= limits.maxKSubsetPaths && |request.paths| <= 32
    ensures var comps := ResolveAll(request.paths, facts).1;
            Body(request, p, facts, limits) ==
              Conclude(MatrixOf(PathsOf(request.paths), comps, p, facts, limits.maxConflictsPerProof), p,
                       Dependencies(p.generation, facts.topologyGeneration, facts.domainGeneration, 0, request.paths,
                                    CanonicalEntities(Footprint(comps)), p.endpointExemption),
                       ConsultedBy(comps, p, facts, limits.maxDomainEvidenceEntries), limits.maxConflictsPerProof)
  {
  }

  lemma EvaluateIsBody(request: Request, policy: Policy, snap: Snapshot, limits: Limits)
    requires ReachesMatrix(request, policy, snap, limits)
    ensures |CanonicalRequest(request).paths| == |Structures(request, snap.facts)| == |request.paths|
    ensures |request.paths| >= 2 && |request.paths| >= policy.minimumIndependentPaths >= 2
    ensures Distinct(CanonicalPolicy(policy).requiredClasses)
    ensures Evaluate(request, policy, snap, limits) ==
              Conclude(EvaluatedMatrix(request, policy, snap.facts, limits), CanonicalPolicy(policy),
                       BoundDependencies(request, policy, snap.facts),
                       BoundConsulted(request, policy, snap.facts, limits), limits.maxConflictsPerProof)
  {
    SortedSize(request);
    PreludeAccepts(request, policy, limits);
    BodyIsConclude(CanonicalRequest(request), CanonicalPolicy(policy), snap.facts, limits);
  }

  /**
   * ALL_PAIRS, both directions: PROVEN exactly when for every pair and required class
   * nothing is shared and every consulted entry is COMPLETE.
   */
  lemma AllPairsOutcome(request: Request, policy: Policy, snap: Snapshot, limits: Limits)
    requires ReachesMatrix(request, policy, snap, limits) && policy.semantics == ALL_PAIRS
    ensures Evaluate(request, policy, snap, limits).outcome ==
              AllPairsVerdict(Structures(request, snap.facts), CanonicalPolicy(policy), snap.facts)
    ensures Evaluate(request, policy, snap, limits).outcome == PROVEN_DIVERSE <==>
              var comps, p := Structures(request, snap.facts), CanonicalPolicy(policy);
              forall i, j, klass | 0 <= i < j < |comps| && klass in policy.requiredClasses ::
                !Shares(klass, comps[i], comps[j], p, snap.facts) && Complete(klass, comps[i], comps[j], p, snap.facts)
  {
    EvaluateIsBody(request, policy, snap, limits);
    var p := CanonicalPolicy(policy);
    var comps := Structures(request, snap.facts);
    ConcludeAllPairs(PathsOf(CanonicalRequest(request).paths), comps, p, snap.facts, limits.maxConflictsPerProof,
                     BoundDependencies(request, policy, snap.facts),
                       BoundConsulted(request, policy, snap.facts, limits), limits.maxConflictsPerProof);
    CanonicalClasses(policy);
    ProvenPairs(comps, p, snap.facts);
  }

  lemma ProvenPairs(comps: seq<PathComposition>, p: Policy, facts: Facts)
    ensures AllPairsVerdict(comps, p, facts) == PROVEN_DIVERSE <==>
              forall i, j, klass | 0 <= i < j < |comps| && klass in p.requiredClasses ::
                !Shares(klass, comps[i], comps[j], p, facts) && Complete(klass, comps[i], comps[j], p, facts)
  {
    if !SomeClass(NOT_DIVERSE, comps, p, facts) && !SomeClass(UNKNOWN_INCOMPLETE_EVIDENCE, comps, p, facts) {
      forall klass | klass in p.requiredClasses
        ensures !SetConflict(klass, comps, p, facts) && SetComplete(klass, comps, p, facts)
      {
        assert SetVerdict(klass, comps, p, facts) == PROVEN_DIVERSE;
      }
    }
  }

  // ----- AT_LEAST_K_INDEPENDENT ----------------------------------------------------------

  /** A graph in which every unknown pair has been resolved one way or the other. */
  ghost predicate Completion(m: PairwiseMatrix, g: ConflictGraph) {
    && g.Valid() && g.Symmetric() && g.pathCount == |m.order|
    && forall i: nat, j: nat | i < j < |m.order| && At(m, i, j).Some? ::
         && (At(m, i, j).value.independent ==> !g.Edge(i, j))
         && (CellHasConflict(At(m, i, j).value) ==> g.Edge(i, j))
  }

  ghost predicate HasIndependentSubset(g: ConflictGraph, k: nat)
    requires g.Valid()
  {
    exists s :: s <= g.All() && Independent(g, s) && |s| >= k
  }

  lemma SubsetIffAlpha(g: ConflictGraph, k: nat)
    requires g.Valid() && g.Symmetric()
    ensures HasIndependentSubset(g, k) <==> Alpha(g, g.All()) >= k
  {
    var t := AlphaIsAttained(g, g.All());
    forall s | s <= g.All() && Independent(g, s)
      ensures |s| <= Alpha(g, g.All())
    {
      AlphaIsUpperBound(g, g.All(), s);
    }
  }

  /** Every pair has a cell, and a cell never both proves and refutes. */
  ghost predicate ConsistentMatrix(m: PairwiseMatrix) {
    forall i: nat, j: nat | i < j < |m.order| ::
      && At(m, i, j).Some? && At(m, j, i) == At(m, i, j)
      && !(At(m, i, j).value.independent && CellHasConflict(At(m, i, j).value))
      && (At(m, i, j).value.independent ==>
            && At(m, i, j).value.evidenceComplete
            && forall c | c in At(m, i, j).value.classes :: ProvenClass(c))
  }

  lemma MatrixIsConsistent(order: seq<string>, comps: seq<PathComposition>, p: Policy, facts: Facts, bound: nat)
    requires |order| == |comps|
    ensures ConsistentMatrix(MatrixOf(order, comps, p, facts, bound))
  {
    forall i: nat, j: nat | i < j < |order|
      ensures var m := MatrixOf(order, comps, p, facts, bound);
              && At(m, i, j) == Some(CellOf(i, j, comps[i], comps[j], p, facts, bound)) && At(m, j, i) == At(m, i, j)
              && !(At(m, i, j).value.independent && CellHasConflict(At(m, i, j).value))
              && (At(m, i, j).value.independent ==> At(m, i, j).value.evidenceComplete)
    {
      MatrixAt(order, comps, p, facts, bound, i, j);
      CellIndependence(i, j, comps[i], comps[j], p, facts, bound);
    }
  }

  /** The two stored graphs are the extreme completions. */
  lemma ExtremeCompletions(m: PairwiseMatrix)
    requires ConsistentMatrix(m)
    ensures Completion(m, GraphOf(m, false)) && Completion(m, GraphOf(m, true))
    ensures forall g, i: nat, j: nat | Completion(m, g) ::
              && (GraphOf(m, true).Edge(i, j) ==> g.Edge(i, j))
              && (i != j && g.Edge(i, j) ==> GraphOf(m, false).Edge(i, j))
  {
    forall g, i: nat, j: nat | Completion(m, g)
      ensures GraphOf(m, true).Edge(i, j) ==> g.Edge(i, j)
      ensures i != j && g.Edge(i, j) ==> GraphOf(m, false).Edge(i, j)
    {
      assert g.Edge(i, j) == g.Edge(j, i);
      if i < j && j < |m.order| {
        assert At(m, i, j).Some?;
      } else if j < i && i < |m.order| {
        assert At(m, j, i).Some?;
      }
    }
  }

  lemma IndependentIgnoresLoops(g: ConflictGraph, h: ConflictGraph, s: set<nat>)
    requires g.Valid() && h.Valid() && Independent(h, s)
    requires forall i: nat, j: nat | i != j :: g.Edge(i, j) ==> h.Edge(i, j)
    ensures Independent(g, s)
  {
  }

  /** Exact bounds over all completions, by the two extreme graphs. */
  lemma CompletionBounds(m: PairwiseMatrix, k: nat)
    requires ConsistentMatrix(m)
    ensures HasIndependentSubset(GraphOf(m, false), k) <==> forall g | Completion(m, g) :: HasIndependentSubset(g, k)
    ensures HasIndependentSubset(GraphOf(m, true), k) <==> exists g | Completion(m, g) :: HasIndependentSubset(g, k)
  {
    ExtremeCompletions(m);
    if HasIndependentSubset(GraphOf(m, false), k) {
      var s :| s <= GraphOf(m, false).All() && Independent(GraphOf(m, false), s) && |s| >= k;
      forall g | Completion(m, g)
        ensures HasIndependentSubset(g, k)
      {
        IndependentIgnoresLoops(g, GraphOf(m, false), s);
        assert s <= g.All();
      }
    }
    if g :| Completion(m, g) && HasIndependentSubset(g, k) {
      var s :| s <= g.All() && Independent(g, s) && |s| >= k;
      IndependentIgnoresLoops(GraphOf(m, true), g, s);
      assert s <= GraphOf(m, true).All();
    }
  }

  /** `verify_witness`: independence re-derived from the matrix cells. */
  ghost predicate Verified(m: PairwiseMatrix, indices: seq<nat>) {
    && (forall a | 0 <= a < |indices| :: indices[a] < |m.order|)
    && (forall a, b | 0 <= a < b < |indices| ::
          && indices[a] != indices[b]
          && At(m, indices[a], indices[b]).Some?
          && At(m, indices[a], indices[b]).value.independent
          && At(m, indices[a], indices[b]).value.evidenceComplete)
  }

  lemma IndependentListIsVerified(m: PairwiseMatrix, indices: seq<nat>)
    requires ConsistentMatrix(m)
    requires IsMaximumList(GraphOf(m, false), GraphOf(m, false).All(), indices)
    ensures Verified(m, indices)
  {
    forall a | 0 <= a < |indices|
      ensures indices[a] < |m.order|
    {
      assert indices[a] in Members(indices);
    }
    forall a, b | 0 <= a < b < |indices|
      ensures indices[a] < indices[b] && At(m, indices[a], indices[b]).Some?
              && At(m, indices[a], indices[b]).value.independent
    {
      assert indices[a] in Members(indices) && indices[b] in Members(indices);
      assert !GraphOf(m, false).Edge(indices[a], indices[b]);
    }
  }

  lemma {:induction false} RowCellsProven(m: PairwiseMatrix, subset: seq<nat>, a: nat, b: nat)
    requires Verified(m, subset) && ConsistentMatrix(m) && StrictlyIncreasing(subset) && a < |subset| && b <= |subset|
    ensures forall cell, c | cell in CellsOfRow(m, subset, a, b) && c in cell.classes :: ProvenClass(c)
  {
    if b > a + 1 {
      RowCellsProven(m, subset, a, b - 1);
      assert subset[a] < subset[b - 1] < |m.order|;
    }
  }

  lemma {:induction false} WithinCellsProven(m: PairwiseMatrix, subset: seq<nat>, rows: nat)
    requires Verified(m, subset) && ConsistentMatrix(m) && StrictlyIncreasing(subset) && rows <= |subset|
    ensures forall cell, c | cell in CellsWithin(m, subset, rows) && c in cell.classes :: ProvenClass(c)
  {
    if rows > 0 {
      WithinCellsProven(m, subset, rows - 1);
      RowCellsProven(m, subset, rows - 1, |subset|);
      ProvenTogether(CellsWithin(m, subset, rows - 1), CellsOfRow(m, subset, rows - 1, |subset|));
    }
  }

  lemma ProvenTogether(a: seq<PairwiseCell>, b: seq<PairwiseCell>)
    requires forall cell, c | cell in a && c in cell.classes :: ProvenClass(c)
    requires forall cell, c | cell in b && c in cell.classes :: ProvenClass(c)
    ensures forall cell, c | cell in a + b && c in cell.classes :: ProvenClass(c)
  {
    assert forall cell :: cell in a + b <==> cell in a || cell in b;
  }

  lemma {:induction false} FirstOfClassIsMember(classes: seq<ClassResult>, klass: DiversityClass)
    ensures FirstOfClass(classes, klass).Some? ==> FirstOfClass(classes, klass).value in classes
  {
    if classes != [] && classes[0].klass != klass {
      FirstOfClassIsMember(classes[1..], klass);
    }
  }

  lemma {:induction false} GatherIsMember(cells: seq<PairwiseCell>, klass: DiversityClass)
    ensures forall s | s in Gather(cells, klass) :: exists cell | cell in cells :: s in cell.classes
  {
    if cells != [] {
      var front, last := cells[..|cells| - 1], cells[|cells| - 1];
      GatherIsMember(front, klass);
      FirstOfClassIsMember(last.classes, klass);
      assert cells == front + [last];
      assert forall cell | cell in front :: cell in cells;
      assert last in cells;
    }
  }

  lemma ProvenClassAggregates(cells: seq<PairwiseCell>, klass: DiversityClass, maxShared: nat)
    requires forall cell, c | cell in cells && c in cell.classes :: ProvenClass(c)
    ensures Aggregate(cells, klass, maxShared).outcome == PROVEN_DIVERSE
  {
    GatherIsMember(cells, klass);
    var sources := Gather(cells, klass);
    forall s | s in sources
      ensures ProvenClass(s)
    {
      var cell :| cell in cells && s in cell.classes;
    }
    AggregateOutcome(sources, klass, maxShared);
  }

  /** Aggregating proven cells proves every class. */
  lemma ProvenCellsAggregate(cells: seq<PairwiseCell>, p: Policy, maxShared: nat)
    requires forall cell, c | cell in cells && c in cell.classes :: ProvenClass(c)
    ensures Classify(AggregateAll(cells, p.requiredClasses, maxShared), p) == PROVEN_DIVERSE
  {
    var required := AggregateAll(cells, p.requiredClasses, maxShared);
    forall k | 0 <= k < |required|
      ensures required[k].outcome == PROVEN_DIVERSE
    {
      ProvenClassAggregates(cells, p.requiredClasses[k], maxShared);
    }
    assert forall c | c in required :: c.outcome == PROVEN_DIVERSE;
  }

  /**
   * The outcome is exact over every completion of the unknown pairs, and a proof
   * comes with a verified witness.
   */
  ghost predicate ExactOverCompletions(result: EvaluationResult, p: Policy) {
    var m, k := result.matrix, p.minimumIndependentPaths;
    && (result.outcome == PROVEN_DIVERSE <==> forall g | Completion(m, g) :: HasIndependentSubset(g, k))
    && (result.outcome == NOT_DIVERSE <==> forall g | Completion(m, g) :: !HasIndependentSubset(g, k))
    && (result.outcome !in {PROVEN_DIVERSE, NOT_DIVERSE} ==> result.outcome == UnknownOutcome(p))
    && (result.outcome == PROVEN_DIVERSE ==>
          Verified(m, result.witnessSubset.indices) && |result.witnessSubset.indices| >= k)
  }

  lemma ConcludeSubset(m: PairwiseMatrix, p: Policy, dependencies: Dependencies, consulted: Consulted, maxShared: nat)
    requires ConsistentMatrix(m) && p.semantics == AT_LEAST_K_INDEPENDENT
    ensures Conclude(m, p, dependencies, consulted, maxShared).matrix == m
    ensures ExactOverCompletions(Conclude(m, p, dependencies, consulted, maxShared), p)
  {
    var k := p.minimumIndependentPaths;
    var certain, optimistic := GraphOf(m, false), GraphOf(m, true);
    CompletionBounds(m, k);
    ExtremeCompletions(m);
    SubsetIffAlpha(certain, k);
    SubsetIffAlpha(optimistic, k);
    WitnessIsMaximumList(certain, certain.All());
    WitnessIsMaximumList(optimistic, optimistic.All());
    var chosen := Witness(certain, certain.All());
    IndependentListIsVerified(m, chosen);
    WithinCellsProven(m, chosen, |chosen|);
    ProvenCellsAggregate(CellsWithin(m, chosen, |chosen|), p, maxShared);
  }

  /**
   * The subset semantics is sound and complete for every way the unknown pairs can
   * resolve: PROVEN when K independent paths exist in all completions, NOT_DIVERSE
   * when in none, the unknown outcome otherwise.
   */
  lemma SubsetOutcome(request: Request, policy: Policy, snap: Snapshot, limits: Limits)
    requires ReachesMatrix(request, policy, snap, limits) && policy.semantics == AT_LEAST_K_INDEPENDENT
    ensures ExactOverCompletions(Evaluate(request, policy, snap, limits), policy)
  {
    EvaluateIsBody(request, policy, snap, limits);
    var p := CanonicalPolicy(policy);
    MatrixIsConsistent(PathsOf(CanonicalRequest(request).paths), Structures(request, snap.facts), p,
                       snap.facts, limits.maxConflictsPerProof);
    ConcludeSubset(EvaluatedMatrix(request, policy, snap.facts, limits), p,
                   BoundDependencies(request, policy, snap.facts),
                   BoundConsulted(request, policy, snap.facts, limits), limits.maxConflictsPerProof);
    SameThreshold(Evaluate(request, policy, snap, limits), policy);
  }

  lemma SameThreshold(result: EvaluationResult, policy: Policy)
    ensures ExactOverCompletions(result, CanonicalPolicy(policy)) == ExactOverCompletions(result, policy)
  {
  }

  // ----- No retraction ---------------------------------------------------------------------

  lemma {:induction false} AuthorityVerdictIndecisive(paths: seq<PathRef>, snap: Snapshot)
    ensures AuthorityVerdict(paths, snap).Some? ==>
              AuthorityVerdict(paths, snap).value in {UNAUTHORIZED, STALE_PATH_AUTHORITY}
  {
    if paths != [] && PathVerdict(paths[0], snap).None? {
      AuthorityVerdictIndecisive(paths[1..], snap);
    }
  }

  lemma {:induction false} ResolveAllIndecisive(paths: seq<PathRef>, facts: Facts)
    ensures ResolveAll(paths, facts).0.Some? ==>
              ResolveAll(paths, facts).0.value in {MALFORMED, STALE_PATH_AUTHORITY, STALE_TOPOLOGY}
    decreases |paths|
  {
    if paths != [] {
      ResolveAllIndecisive(paths[..|paths| - 1], facts);
    }
  }

  /** A decisive outcome is only ever reached through the matrix. */
  lemma DecisiveReachesMatrix(request: Request, policy: Policy, snap: Snapshot, limits: Limits)
    requires Decisive(Evaluate(request, policy, snap, limits).outcome)
    ensures ReachesMatrix(request, policy, snap, limits)
  {
    var canonical := CanonicalRequest(request);
    SortedSize(request);
    AuthorityVerdictIndecisive(canonical.paths, snap);
    ResolveAllIndecisive(canonical.paths, snap.facts);
  }

  lemma {:induction false} SameStructure(paths: seq<PathRef>, coarse: Facts, fine: Facts)
    requires coarse.compositions == fine.compositions && coarse.topologyGeneration == fine.topologyGeneration
    ensures ResolveAll(paths, coarse) == ResolveAll(paths, fine)
    decreases |paths|
  {
    if paths != [] {
      SameStructure(paths[..|paths| - 1], coarse, fine);
    }
  }

  lemma {:induction false} SameAuthority(paths: seq<PathRef>, coarse: Snapshot, fine: Snapshot)
    requires coarse.authority == fine.authority
    ensures AuthorityVerdict(paths, coarse) == AuthorityVerdict(paths, fine)
  {
    if paths != [] {
      SameAuthority(paths[1..], coarse, fine);
    }
  }

  lemma SharesAndCompletePersist(klass: DiversityClass, l: PathComposition, r: PathComposition, p: Policy,
                                 coarse: Facts, fine: Facts)
    requires Refines(coarse, fine)
    ensures Shares(klass, l, r, p, coarse) ==> Shares(klass, l, r, p, fine)
    ensures Complete(klass, l, r, p, coarse) ==> Complete(klass, l, r, p, fine)
    ensures Complete(klass, l, r, p, coarse) && !Shares(klass, l, r, p, coarse) ==> !Shares(klass, l, r, p, fine)
  {
    ClassNoRetraction(klass, l, r, p, coarse, fine, 1);
    ClassVerdict(klass, l, r, p, coarse, 1);
    ClassVerdict(klass, l, r, p, fine, 1);
    if DomainBacked(klass) {
      forall relation
        ensures PairComplete(l, r, coarse, relation) ==> PairComplete(l, r, fine, relation)
      {
        DomainsGrow(coarse, fine, Entities(l), relation);
        DomainsGrow(coarse, fine, Entities(r), relation);
      }
      if Complete(klass, l, r, p, coarse) {
        forall relation | relation in RelationsOf(klass, p)
          ensures PairComplete(l, r, fine, relation)
        {
          assert PairComplete(l, r, coarse, relation);
        }
      }
    } else if klass == SHARED_RISK_GROUP_DISJOINT {
      RiskGroupsGrow(coarse, fine, Entities(l));
      RiskGroupsGrow(coarse, fine, Entities(r));
    }
  }

  /** A conflict of the set stays, and a proven class of the set stays proven. */
  lemma SetVerdictPersists(klass: DiversityClass, comps: seq<PathComposition>, p: Policy, coarse: Facts, fine: Facts)
    requires Refines(coarse, fine)
    ensures SetConflict(klass, comps, p, coarse) ==> SetConflict(klass, comps, p, fine)
    ensures SetComplete(klass, comps, p, coarse) ==> SetComplete(klass, comps, p, fine)
    ensures SetComplete(klass, comps, p, coarse) && !SetConflict(klass, comps, p, coarse) ==>
              !SetConflict(klass, comps, p, fine)
  {
    forall i, j | 0 <= i < j < |comps|
      ensures Shares(klass, comps[i], comps[j], p, coarse) ==> Shares(klass, comps[i], comps[j], p, fine)
      ensures Complete(klass, comps[i], comps[j], p, coarse) ==> Complete(klass, comps[i], comps[j], p, fine)
      ensures (Complete(klass, comps[i], comps[j], p, coarse) && !Shares(klass, comps[i], comps[j], p, coarse)) ==>
                !Shares(klass, comps[i], comps[j], p, fine)
    {
      SharesAndCompletePersist(klass, comps[i], comps[j], p, coarse, fine);
    }
  }

  /** Refinement can only move an open class. */
  lemma SomeClassPersists(outcome: Outcome, comps: seq<PathComposition>, p: Policy, coarse: Facts, fine: Facts)
    requires Refines(coarse, fine)
    ensures SomeClass(NOT_DIVERSE, comps, p, coarse) ==> SomeClass(NOT_DIVERSE, comps, p, fine)
    ensures outcome != PROVEN_DIVERSE && SomeClass(outcome, comps, p, fine) ==>
              SomeClass(outcome, comps, p, coarse) || SomeClass(UNKNOWN_INCOMPLETE_EVIDENCE, comps, p, coarse)
  {
    if SomeClass(NOT_DIVERSE, comps, p, coarse) {
      var klass :| klass in p.requiredClasses && SetVerdict(klass, comps, p, coarse) == NOT_DIVERSE;
      SetVerdictPersists(klass, comps, p, coarse, fine);
      assert SetVerdict(klass, comps, p, fine) == NOT_DIVERSE;
    }
    if outcome != PROVEN_DIVERSE && SomeClass(outcome, comps, p, fine) {
      var klass :| klass in p.requiredClasses && SetVerdict(klass, comps, p, fine) == outcome;
      SetVerdictPersists(klass, comps, p, coarse, fine);
      assert SetVerdict(klass, comps, p, coarse) in {outcome, UNKNOWN_INCOMPLETE_EVIDENCE};
    }
  }

  lemma AllPairsNoRetraction(comps: seq<PathComposition>, p: Policy, coarse: Facts, fine: Facts)
    requires Refines(coarse, fine) && Decisive(AllPairsVerdict(comps, p, coarse))
    ensures AllPairsVerdict(comps, p, fine) == AllPairsVerdict(comps, p, coarse)
  {
    SomeClassPersists(NOT_DIVERSE, comps, p, coarse, fine);
    SomeClassPersists(UNKNOWN_INCOMPLETE_EVIDENCE, comps, p, coarse, fine);
  }

  /** Finer evidence leaves fewer completions. */
  lemma CompletionsShrink(order: seq<string>, comps: seq<PathComposition>, p: Policy, coarse: Facts, fine: Facts,
                          bound: nat, g: ConflictGraph)
    requires |order| == |comps| && Refines(coarse, fine)
    requires Completion(MatrixOf(order, comps, p, fine, bound), g)
    ensures Completion(MatrixOf(order, comps, p, coarse, bound), g)
  {
    var m, m' := MatrixOf(order, comps, p, coarse, bound), MatrixOf(order, comps, p, fine, bound);
    forall i: nat, j: nat | i < j < |order|
      ensures At(m, i, j).Some? && At(m', i, j).Some?
      ensures At(m, i, j).value.independent ==> At(m', i, j).value.independent
      ensures CellHasConflict(At(m, i, j).value) ==> CellHasConflict(At(m', i, j).value)
    {
      MatrixAt(order, comps, p, coarse, bound, i, j);
      MatrixAt(order, comps, p, fine, bound, i, j);
      CellIndependence(i, j, comps[i], comps[j], p, coarse, bound);
      CellIndependence(i, j, comps[i], comps[j], p, fine, bound);
      forall klass | klass in p.requiredClasses
        ensures Shares(klass, comps[i], comps[j], p, coarse) ==> Shares(klass, comps[i], comps[j], p, fine)
        ensures (Complete(klass, comps[i], comps[j], p, coarse) && !Shares(klass, comps[i], comps[j], p, coarse)) ==>
                  Complete(klass, comps[i], comps[j], p, fine) && !Shares(klass, comps[i], comps[j], p, fine)
      {
        SharesAndCompletePersist(klass, comps[i], comps[j], p, coarse, fine);
      }
    }
  }

  /** Later failure-domain evidence never retracts a decisive outcome. */
  lemma NoRetraction(request: Request, policy: Policy, coarse: Snapshot, fine: Snapshot, limits: Limits)
    requires coarse.authority == fine.authority && Refines(coarse.facts, fine.facts)
    requires Decisive(Evaluate(request, policy, coarse, limits).outcome)
    ensures Evaluate(request, policy, fine, limits).outcome == Evaluate(request, policy, coarse, limits).outcome
  {
    DecisiveReachesMatrix(request, policy, coarse, limits);
    var canonical, p := CanonicalRequest(request), CanonicalPolicy(policy);
    SameStructure(canonical.paths, coarse.facts, fine.facts);
    SameAuthority(canonical.paths, coarse, fine);
    var comps := Structures(request, coarse.facts);
    var order := PathsOf(canonical.paths);
    if policy.semantics == ALL_PAIRS {
      AllPairsOutcome(request, policy, coarse, limits);
      AllPairsOutcome(request, policy, fine, limits);
      AllPairsNoRetraction(comps, p, coarse.facts, fine.facts);
    } else {
      EvaluateIsBody(request, policy, coarse, limits);
      EvaluateIsBody(request, policy, fine, limits);
      SubsetOutcome(request, policy, coarse, limits);
      SubsetOutcome(request, policy, fine, limits);
      var bound := limits.maxConflictsPerProof;
      forall g | Completion(MatrixOf(order, comps, p, fine.facts, bound), g)
        ensures Completion(MatrixOf(order, comps, p, coarse.facts, bound), g)
      {
        CompletionsShrink(order, comps, p, coarse.facts, fine.facts, bound, g);
      }
      MatrixIsConsistent(order, comps, p, fine.facts, bound);
      ExtremeCompletions(MatrixOf(order, comps, p, fine.facts, bound));
    }
  }

  // ----- Arrival order -----------------------------------------------------------------------

  lemma RefLessTransitive(a: PathRef, b: PathRef, c: PathRef)
    requires RefLess(a, b) && RefLess(b, c)
    ensures RefLess(a, c)
  {
    if a.path != b.path && b.path != c.path {
      LessTransitive(a.path, b.path, c.path);
      LessAsymmetric(a.path, b.path);
      if a.path == c.path {
        LessIrreflexive(a.path);
      }
    }
  }

  lemma RefLessTotal(a: PathRef, b: PathRef)
    ensures RefLess(a, b) || RefLess(b, a) || a == b
    ensures !(RefLess(a, b) && RefLess(b, a))
  {
    LessTotal(a.path, b.path);
    if RefLess(a, b) && RefLess(b, a) {
      RefLessTransitive(a, b, a);
      LessIrreflexive(a.path);
    }
  }

  lemma RefOrderIsTotal()
    ensures IsStrictTotal(RefLess)
  {
    forall a, b
      ensures RefLess(a, b) || RefLess(b, a) || a == b
      ensures !RefLess(a, a)
    {
      RefLessTotal(a, b);
      RefLessTotal(a, a);
    }
    forall a, b, c | RefLess(a, b) && RefLess(b, c)
      ensures RefLess(a, c)
    {
      RefLessTransitive(a, b, c);
    }
  }

  lemma {:induction false} InsertRefIsInsert(x: PathRef, s: seq<PathRef>)
    ensures InsertRef(x, s) == Insert(RefLess, x, s)
  {
    if s != [] && RefLess(s[0], x) {
      InsertRefIsInsert(x, s[1..]);
    }
  }

  lemma {:induction false} SortRefsSorted(s: seq<PathRef>)
    ensures Sorted(RefLess, SortRefs(s))
  {
    if s != [] {
      SortRefsSorted(s[1..]);
      RefOrderIsTotal();
      InsertSorted(RefLess, s[0], SortRefs(s[1..]));
      InsertRefIsInsert(s[0], SortRefs(s[1..]));
    }
  }

  /** One canonical order for every multiset of references. */
  lemma CanonicalPathOrder(a: seq<PathRef>, b: seq<PathRef>)
    requires multiset(a) == multiset(b)
    ensures SortRefs(a) == SortRefs(b) && Sorted(RefLess, SortRefs(a))
  {
    SortRefsSorted(a);
    SortRefsSorted(b);
    RefOrderIsTotal();
    SortedUnique(RefLess, SortRefs(a), SortRefs(b));
  }

  lemma SamePrelude(first: Request, second: Request, policy: Policy, limits: Limits)
    requires CanonicalRequest(first) == CanonicalRequest(second) && |first.paths| == |second.paths|
    ensures Prelude(first, policy, limits) == Prelude(second, policy, limits)
  {
  }

  /** Any permutation of a request canonicalizes to the same request and evaluates to the same result. */
  lemma ArrivalOrderIrrelevant(first: Request, second: Request, policy: Policy, snap: Snapshot, limits: Limits)
    requires first.policy == second.policy && first.policyGeneration == second.policyGeneration
    requires multiset(first.paths) == multiset(second.paths)
    ensures CanonicalRequest(first) == CanonicalRequest(second)
    ensures Evaluate(first, policy, snap, limits) == Evaluate(second, policy, snap, limits)
  {
    CanonicalPathOrder(first.paths, second.paths);
    SortedSize(first);
    SortedSize(second);
    SamePrelude(first, second, policy, limits);
  }
}
