/** What every evaluation that reached the matrix looks like: sizes, indices and claims. */
module ResultShape {
  import opened Triangle
  import opened Graph
  import opened Evidence
  import opened PairClasses
  import opened Evaluator
  import opened Verdicts

  /** The conflict names two of the first n paths. */
  predicate NamesPair(c: SharedResource, n: nat) {
    |c.paths| == 2 && c.paths[0] < n && c.paths[1] < n
  }

  predicate NamePairs(s: seq<SharedResource>, n: nat) {
    forall k | 0 <= k < |s| :: NamesPair(s[k], n)
  }

  /** A bounded, counted list that only a conflict fills, and no claim without complete evidence. */
  ghost predicate ClassShape(c: ClassResult, bound: nat, n: nat) {
    && IsVerdict(c.outcome)
    && |c.shared| <= bound && |c.shared| <= c.sharedTotal
    && (c.outcome == PROVEN_DIVERSE ==> c.evidenceComplete)
    && (c.outcome != NOT_DIVERSE ==> c.shared == [])
    && NamePairs(c.shared, n)
  }

  ghost predicate ClassesShape(classes: seq<ClassResult>, bound: nat, n: nat) {
    forall k | 0 <= k < |classes| :: ClassShape(classes[k], bound, n)
  }

  ghost predicate CellShape(c: PairwiseCell, required: nat, bound: nat, n: nat) {
    && c.left < c.right < n
    && |c.classes| == required
    && ClassesShape(c.classes, bound, n)
    && (c.primaryConflict.Some? ==> NamesPair(c.primaryConflict.value, n))
  }

  lemma SortedNamePairs(s: seq<SharedResource>, n: nat)
    requires NamePairs(s, n)
    ensures |SortConflicts(s)| == |s| && NamePairs(SortConflicts(s), n)
  {
    SortKeepsSize(s);
    forall k | 0 <= k < |s|
      ensures NamesPair(SortConflicts(s)[k], n)
    {
      assert SortConflicts(s)[k] in s;
    }
  }

  lemma RemappedShape(result: ClassResult, i: nat, j: nat, bound: nat, n: nat, shares: bool, complete: bool)
    requires i < j < n && PairClasses.Carries(result, result.klass, shares, complete, bound)
    ensures ClassShape(Remap(result, i, j), bound, n)
  {
    SortedNamePairs(seq(|result.shared|, k requires 0 <= k < |result.shared| => result.shared[k].(paths := [i, j])), n);
  }

  lemma {:induction false} AllSharedNamePairs(classes: seq<ClassResult>, bound: nat, n: nat)
    requires ClassesShape(classes, bound, n)
    ensures NamePairs(AllShared(classes), n)
    ensures (forall k | 0 <= k < |classes| :: classes[k].outcome != NOT_DIVERSE) ==> AllShared(classes) == []
  {
    if classes != [] {
      AllSharedNamePairs(classes[..|classes| - 1], bound, n);
    }
  }

  lemma CellHasShape(i: nat, j: nat, l: PathComposition, r: PathComposition, p: Policy, facts: Facts, bound: nat,
                     n: nat)
    requires i < j < n
    ensures CellShape(CellOf(i, j, l, r, p, facts, bound), |p.requiredClasses|, bound, n)
  {
    var classes := CellClasses(i, j, l, r, p, facts, bound);
    forall k | 0 <= k < |classes|
      ensures ClassShape(classes[k], bound, n)
    {
      var klass := p.requiredClasses[k];
      ClassVerdict(klass, l, r, p, facts, bound);
      RemappedShape(ClassOf(klass, l, r, p, facts, bound), i, j, bound, n,
                    Shares(klass, l, r, p, facts), Complete(klass, l, r, p, facts));
    }
    AllSharedNamePairs(classes, bound, n);
    SortedNamePairs(AllShared(classes), n);
  }

  ghost predicate MatrixShape(m: PairwiseMatrix, required: nat, bound: nat) {
    && |m.cells| == CellCount(|m.order|)
    && CellsShape(m.cells, required, bound, |m.order|)
  }

  ghost predicate CellsShape(cells: seq<PairwiseCell>, required: nat, bound: nat, n: nat) {
    forall k | 0 <= k < |cells| :: CellShape(cells[k], required, bound, n)
  }

  lemma MatrixHasShape(order: seq<string>, comps: seq<PathComposition>, p: Policy, facts: Facts, bound: nat)
    requires |order| == |comps|
    ensures MatrixShape(MatrixOf(order, comps, p, facts, bound), |p.requiredClasses|, bound)
  {
    var m := MatrixOf(order, comps, p, facts, bound);
    forall cell | 0 <= cell < |m.cells|
      ensures CellShape(m.cells[cell], |p.requiredClasses|, bound, |order|)
    {
      var (i, j) := PairAt(|order|, cell);
      CellHasShape(i, j, comps[i], comps[j], p, facts, bound, |order|);
    }
  }

  // ----- Aggregation ----------------------------------------------------------------------------

  lemma StepShape(out: ClassResult, source: ClassResult, bound: nat, maxShared: nat, n: nat)
    requires ClassShape(out, maxShared, n) && ClassShape(source, bound, n)
    ensures ClassShape(AggregateStep(out, source, maxShared), maxShared, n)
  {
  }

  lemma {:induction false} FoldShape(sources: seq<ClassResult>, klass: DiversityClass, bound: nat, maxShared: nat,
                                     n: nat)
    requires ClassesShape(sources, bound, n)
    ensures ClassShape(AggregateFold(sources, klass, maxShared), maxShared, n)
    decreases |sources|
  {
    if sources != [] {
      var front, last := sources[..|sources| - 1], sources[|sources| - 1];
      FoldShape(front, klass, bound, maxShared, n);
      StepShape(AggregateFold(front, klass, maxShared), last, bound, maxShared, n);
    }
  }

  lemma GatheredShape(cells: seq<PairwiseCell>, klass: DiversityClass, required: nat, bound: nat, n: nat)
    requires CellsShape(cells, required, bound, n)
    ensures ClassesShape(Gather(cells, klass), bound, n)
  {
    GatherIsMember(cells, klass);
    forall k | 0 <= k < |Gather(cells, klass)|
      ensures ClassShape(Gather(cells, klass)[k], bound, n)
    {
      var s := Gather(cells, klass)[k];
      assert s in Gather(cells, klass);
      var cell :| cell in cells && s in cell.classes;
      var c :| 0 <= c < |cells| && cells[c] == cell;
      assert CellShape(cells[c], required, bound, n);
    }
  }

  lemma AggregateShape(cells: seq<PairwiseCell>, klass: DiversityClass, required: nat, bound: nat, maxShared: nat,
                       n: nat)
    requires CellsShape(cells, required, bound, n)
    ensures ClassShape(Aggregate(cells, klass, maxShared), maxShared, n)
  {
    GatheredShape(cells, klass, required, bound, n);
    FoldShape(Gather(cells, klass), klass, bound, maxShared, n);
    SortedNamePairs(AggregateFold(Gather(cells, klass), klass, maxShared).shared, n);
  }

  lemma AggregateAllShape(cells: seq<PairwiseCell>, classes: seq<DiversityClass>, required: nat, bound: nat,
                          maxShared: nat, n: nat)
    requires CellsShape(cells, required, bound, n)
    ensures ClassesShape(AggregateAll(cells, classes, maxShared), maxShared, n)
  {
    forall k | 0 <= k < |classes|
      ensures ClassShape(AggregateAll(cells, classes, maxShared)[k], maxShared, n)
    {
      AggregateShape(cells, classes[k], required, bound, maxShared, n);
    }
  }

  // ----- Subset analysis ---------------------------------------------------------------------------

  lemma {:induction false} RowCellsShape(m: PairwiseMatrix, subset: seq<nat>, a: nat, b: nat, required: nat, bound: nat)
    requires MatrixShape(m, required, bound) && a < |subset| && b <= |subset|
    ensures CellsShape(CellsOfRow(m, subset, a, b), required, bound, |m.order|)
  {
    if b > a + 1 {
      RowCellsShape(m, subset, a, b - 1, required, bound);
    }
  }

  lemma {:induction false} WithinShape(m: PairwiseMatrix, subset: seq<nat>, rows: nat, required: nat, bound: nat)
    requires MatrixShape(m, required, bound) && rows <= |subset|
    ensures CellsShape(CellsWithin(m, subset, rows), required, bound, |m.order|)
  {
    if rows > 0 {
      WithinShape(m, subset, rows - 1, required, bound);
      RowCellsShape(m, subset, rows - 1, |subset|, required, bound);
    }
  }

  /** An ascending list of indices below n, no shorter than what it is said to achieve. */
  ghost predicate SubsetShape(w: WitnessSubset, k: nat, n: nat) {
    && (w.present ==> w.requestedK == k) && (!w.present ==> w == NO_WITNESS)
    && StrictlyIncreasing(w.indices)
    && |w.indices| <= n && w.achieved <= |w.indices|
    && forall a | 0 <= a < |w.indices| :: w.indices[a] < n
  }

  lemma {:induction false} IncreasingIsShort(s: seq<nat>, n: nat)
    requires StrictlyIncreasing(s) && forall a | 0 <= a < |s| :: s[a] < n
    ensures |s| <= n
  {
    if s != [] {
      IncreasingIsShort(s[..|s| - 1], s[|s| - 1]);
    }
  }

  lemma ListShape(g: ConflictGraph, list: seq<nat>)
    requires g.Valid() && IsMaximumList(g, g.All(), list)
    ensures StrictlyIncreasing(list) && |list| <= g.pathCount && forall a | 0 <= a < |list| :: list[a] < g.pathCount
  {
    forall a | 0 <= a < |list|
      ensures list[a] < g.pathCount
    {
      assert list[a] in Members(list);
    }
    IncreasingIsShort(list, g.pathCount);
  }

  lemma FindingShape(m: PairwiseMatrix, p: Policy, required: nat, bound: nat)
    requires MatrixShape(m, required, bound)
    ensures SubsetShape(FindingOf(m, p).subset, p.minimumIndependentPaths, |m.order|)
    ensures CellsShape(FindingOf(m, p).cells, required, bound, |m.order|)
    ensures FindingOf(m, p).decided.Some? ==> FindingOf(m, p).decided.value in {UnknownOutcome(p), NOT_DIVERSE}
  {
    if p.semantics == AT_LEAST_K_INDEPENDENT {
      var certain, optimistic := GraphOf(m, false), GraphOf(m, true);
      WitnessIsMaximumList(certain, certain.All());
      WitnessIsMaximumList(optimistic, optimistic.All());
      var chosen := Witness(certain, certain.All());
      ListShape(certain, chosen);
      ListShape(optimistic, Witness(optimistic, optimistic.All()));
      WithinShape(m, chosen, |chosen|, required, bound);
    }
  }

  // ----- The whole result ------------------------------------------------------------------------------

  ghost predicate Shape(e: EvaluationResult, p: Policy, bound: nat, n: nat) {
    && e.outcome in {PROVEN_DIVERSE, NOT_DIVERSE, UNKNOWN_INCOMPLETE_EVIDENCE, REVALIDATION_REQUIRED}
    && e.limit == None
    && |e.classes| == |p.requiredClasses| && ClassesShape(e.classes, bound, n)
    && |e.advisories| == |AdvisoryClasses(p, ALL_CLASSES)| && ClassesShape(e.advisories, bound, n)
    && |e.conflicts| <= bound && |e.conflicts| <= e.conflictsTotal && NamePairs(e.conflicts, n)
    && |e.matrix.order| == n && MatrixShape(e.matrix, |p.requiredClasses|, bound)
    && SubsetShape(e.witnessSubset, p.minimumIndependentPaths, n)
    && (e.outcome == PROVEN_DIVERSE ==> e.conflicts == [] && forall k | 0 <= k < |e.classes| ::
          e.classes[k].evidenceComplete)
  }

  lemma TakenNamePairs(all: seq<SharedResource>, maxShared: nat, n: nat)
    requires NamePairs(all, n)
    ensures var taken := SortConflicts(TakeUpTo([], all, maxShared));
            |taken| <= maxShared && |taken| <= |all| && NamePairs(taken, n)
  {
    SortedNamePairs(TakeUpTo([], all, maxShared), n);
  }

  lemma ConcludeHasShape(m: PairwiseMatrix, p: Policy, dependencies: Dependencies, consulted: Consulted, bound: nat)
    requires MatrixShape(m, |p.requiredClasses|, bound)
    ensures Shape(Conclude(m, p, dependencies, consulted, bound), p, bound, |m.order|)
  {
    var n := |m.order|;
    FindingShape(m, p, |p.requiredClasses|, bound);
    var cells := FindingOf(m, p).cells;
    AggregateAllShape(cells, p.requiredClasses, |p.requiredClasses|, bound, bound, n);
    AggregateAllShape(cells, AdvisoryClasses(p, ALL_CLASSES), |p.requiredClasses|, bound, bound, n);
    var required := AggregateAll(cells, p.requiredClasses, bound);
    AllSharedNamePairs(required, bound, n);
    TakenNamePairs(AllShared(required), bound, n);
    ClassifiedShape(required, p, bound, n);
  }

  lemma ClassifiedShape(required: seq<ClassResult>, p: Policy, bound: nat, n: nat)
    requires ClassesShape(required, bound, n)
    ensures Classify(required, p) in {PROVEN_DIVERSE, NOT_DIVERSE, UNKNOWN_INCOMPLETE_EVIDENCE, REVALIDATION_REQUIRED}
    ensures Classify(required, p) == PROVEN_DIVERSE ==> forall k | 0 <= k < |required| ::
              required[k].outcome == PROVEN_DIVERSE
  {
    forall c | c in required
      ensures IsVerdict(c.outcome)
    {
      var k :| 0 <= k < |required| && required[k] == c;
      assert ClassShape(required[k], bound, n);
    }
    ClassifyVerdicts(required, p);
    assert forall k | 0 <= k < |required| :: required[k] in required;
  }

  lemma EvaluationHasShape(request: Request, policy: Policy, snap: Snapshot, limits: Limits)
    requires ReachesMatrix(request, policy, snap, limits)
    ensures Shape(Evaluate(request, policy, snap, limits), CanonicalPolicy(policy), limits.maxConflictsPerProof,
                  |request.paths|)
    ensures Evaluate(request, policy, snap, limits).matrix.order == PathsOf(CanonicalRequest(request).paths)
    ensures Evaluate(request, policy, snap, limits).dependencies == BoundDependencies(request, policy, snap.facts)
  {
    EvaluateIsBody(request, policy, snap, limits);
    MatrixHasShape(PathsOf(CanonicalRequest(request).paths), Structures(request, snap.facts), CanonicalPolicy(policy),
                   snap.facts, limits.maxConflictsPerProof);
    ConcludeHasShape(EvaluatedMatrix(request, policy, snap.facts, limits), CanonicalPolicy(policy),
                     BoundDependencies(request, policy, snap.facts),
                     BoundConsulted(request, policy, snap.facts, limits), limits.maxConflictsPerProof);
  }

  // ----- Advisories -----------------------------------------------------------------------------------------

  lemma {:induction false} AdvisoryCount(required: seq<DiversityClass>, p: Policy, all: seq<DiversityClass>)
    requires Distinct(all) && p.requiredClasses == required
    ensures |AdvisoryClasses(p, all)| == |all| - |set c | c in all && c in required|
  {
    if all != [] {
      AdvisoryCount(required, p, all[1..]);
      var tail := set c | c in all[1..] && c in required;
      assert (set c | c in all && c in required) == if all[0] in required then tail + {all[0]} else tail;
      assert all[0] !in tail;
    }
  }
}
