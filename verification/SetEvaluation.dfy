/**
 * The set-wise half of an evaluation: conflict graphs out of the matrix, the exact
 * subset search with its cross-check, aggregation and classification.
 */
module SetEvaluation {
  import opened Graph
  import opened Evidence
  import opened Evaluator
  import opened Verdicts

  // ----- Graphs -----------------------------------------------------------------------------

  /** The pair has been visited by the loops over i < j. */
  predicate Visited(a: nat, b: nat, i: nat, j: nat) {
    var low, high := if a < b then a else b, if a < b then b else a;
    low < high && (low < i || (low == i && high < j))
  }

  /** The adjacency after the pairs before (i, j). */
  ghost predicate AdjacencySoFar(rows: seq<seq<bool>>, m: PairwiseMatrix, knownOnly: bool, i: nat, j: nat) {
    && |rows| == |m.order|
    && (forall a | 0 <= a < |rows| :: |rows[a]| == |m.order|)
    && (forall a: nat, b: nat | a < |rows| && b < |rows| ::
          rows[a][b] == (Visited(a, b, i, j) && ConflictEdge(m, knownOnly, a, b)))
  }

  lemma VisitPair(rows: seq<seq<bool>>, m: PairwiseMatrix, knownOnly: bool, i: nat, j: nat)
    requires i < j < |m.order| && AdjacencySoFar(rows, m, knownOnly, i, j)
    ensures ConflictEdge(m, knownOnly, i, j) ==>
              AdjacencySoFar(rows[i := rows[i][j := true]][j := rows[j][i := true]], m, knownOnly, i, j + 1)
    ensures !ConflictEdge(m, knownOnly, i, j) ==> AdjacencySoFar(rows, m, knownOnly, i, j + 1)
  {
    forall a: nat, b: nat | a < |rows| && b < |rows|
      ensures Visited(a, b, i, j + 1) <==> Visited(a, b, i, j) || (a == i && b == j) || (a == j && b == i)
      ensures ConflictEdge(m, knownOnly, a, b) == ConflictEdge(m, knownOnly, b, a)
    {
    }
    var rows' := rows[i := rows[i][j := true]][j := rows[j][i := true]];
    forall a: nat, b: nat | a < |rows| && b < |rows|
      ensures rows'[a][b] == (((a == i && b == j) || (a == j && b == i)) || rows[a][b])
    {
    }
  }

  /** `graph_from_matrix`. */
  method GraphFromMatrix(m: PairwiseMatrix, knownOnly: bool) returns (g: ConflictGraph)
    ensures g == GraphOf(m, knownOnly)
  {
    var n := |m.order|;
    var rows := seq(n, a requires 0 <= a < n => seq(n, b requires 0 <= b < n => false));
    for i: nat := 0 to n
      invariant AdjacencySoFar(rows, m, knownOnly, i, 0)
    {
      for j: nat := i + 1 to n
        invariant AdjacencySoFar(rows, m, knownOnly, i, j)
      {
        VisitPair(rows, m, knownOnly, i, j);
        var conflict := false;
        match At(m, i, j) {
          case None =>
          case Some(cell) => conflict := if knownOnly then CellHasConflict(cell) else !cell.independent;
        }
        if conflict {
          rows := rows[i := rows[i][j := true]][j := rows[j][i := true]];
        }
      }
      NextRow(rows, m, knownOnly, i);
    }
    g := ConflictGraph(n, rows);
    AllVisited(rows, m, knownOnly);
  }

  lemma NextRow(rows: seq<seq<bool>>, m: PairwiseMatrix, knownOnly: bool, i: nat)
    requires AdjacencySoFar(rows, m, knownOnly, i, |m.order|)
    ensures AdjacencySoFar(rows, m, knownOnly, i + 1, 0)
  {
    assert forall a: nat, b: nat | a < |rows| && b < |rows| :: Visited(a, b, i, |m.order|) == Visited(a, b, i + 1, 0);
  }

  lemma AllVisited(rows: seq<seq<bool>>, m: PairwiseMatrix, knownOnly: bool)
    requires AdjacencySoFar(rows, m, knownOnly, |m.order|, 0)
    ensures ConflictGraph(|m.order|, rows) == GraphOf(m, knownOnly)
  {
    var adjacent := GraphOf(m, knownOnly).adjacent;
    forall a: nat | a < |rows|
      ensures rows[a] == adjacent[a]
    {
      assert |adjacent[a]| == |rows[a]|;
      forall b: nat | b < |rows|
        ensures rows[a][b] == adjacent[a][b]
      {
        assert GraphOf(m, knownOnly).Edge(a, b) == ConflictEdge(m, knownOnly, a, b);
        assert a != b ==> Visited(a, b, |m.order|, 0);
      }
    }
  }

  // ----- Exact subsets ------------------------------------------------------------------------

  /**
   * The solver and the exhaustive enumeration, which never disagree: the result is
   * always the canonical witness and always marked exact.
   */
  method CrossCheckedWitness(g: ConflictGraph) returns (chosen: seq<nat>, exact: bool)
    requires g.Valid() && g.Symmetric()
    ensures chosen == Witness(g, g.All()) && exact
  {
    chosen := MisWitness(g);
    exact := true;
    if g.pathCount <= 16 {
      var brute := MisExhaustive(g);
      WitnessIsMaximumList(g, g.All());
      if |brute| != |chosen| {
        assert false;
        exact := false;
        if |brute| > |chosen| {
          chosen := brute;
        }
      }
    }
  }

  /** `maximum_independent_subset`: refused above the bound, exact below it. */
  method MaximumIndependentSubset(m: PairwiseMatrix, requestedK: nat, limits: Limits)
    returns (subset: Option<WitnessSubset>)
    ensures subset == None <==> |m.order| > limits.maxKSubsetPaths || |m.order| > 32
    ensures subset.Some? ==>
              var g := GraphOf(m, false);
              && subset.value.indices == Witness(g, g.All())
              && IsMaximumList(g, g.All(), subset.value.indices)
              && subset.value.achieved == Alpha(g, g.All())
              && subset.value.maximumExact && subset.value.present && subset.value.requestedK == requestedK
  {
    var n := |m.order|;
    if n > limits.maxKSubsetPaths || n > 32 {
      return None;
    }
    var g := GraphFromMatrix(m, false);
    var chosen, exact := CrossCheckedWitness(g);
    WitnessIsMaximumList(g, g.All());
    subset := Some(WitnessSubset(true, requestedK, chosen, |chosen|, exact));
  }

  /** `verify_witness`: accepted exactly when every chosen pair is proven. */
  method VerifyWitness(m: PairwiseMatrix, indices: seq<nat>) returns (ok: bool)
    ensures ok <==> Verified(m, indices)
  {
    for i := 0 to |indices|
      invariant forall a | 0 <= a < i :: indices[a] < |m.order|
      invariant forall a, b | 0 <= a < i && a < b < |indices| :: PairVerified(m, indices[a], indices[b])
    {
      if indices[i] >= |m.order| {
        return false;
      }
      for j := i + 1 to |indices|
        invariant forall b | i < b < j :: PairVerified(m, indices[i], indices[b])
      {
        if !PairVerified(m, indices[i], indices[j]) {
          return false;
        }
      }
    }
    ok := true;
  }

  predicate PairVerified(m: PairwiseMatrix, a: nat, b: nat) {
    a != b && match At(m, a, b)
              case None => false
              case Some(cell) => cell.independent && cell.evidenceComplete
  }

  // ----- Aggregation ----------------------------------------------------------------------------

  /** `gather`: the first result of the class in every cell that has one. */
  method GatherClass(cells: seq<PairwiseCell>, klass: DiversityClass) returns (out: seq<ClassResult>)
    ensures out == Gather(cells, klass)
  {
    out := [];
    for k := 0 to |cells|
      invariant out == Gather(cells[..k], klass)
    {
      assert cells[..k + 1][..k] == cells[..k];
      var classes := cells[k].classes;
      var c := 0;
      while c < |classes| && classes[c].klass != klass
        invariant 0 <= c <= |classes|
        invariant FirstOfClass(classes, klass) == FirstOfClass(classes[c..], klass)
      {
        c := c + 1;
      }
      if c < |classes| {
        out := out + [classes[c]];
      }
    }
    assert cells[..|cells|] == cells;
  }

  method AppendBounded(list: seq<SharedResource>, more: seq<SharedResource>, bound: nat)
    returns (out: seq<SharedResource>)
    ensures out == TakeUpTo(list, more, bound)
  {
    out := list;
    for k := 0 to |more|
      invariant out == TakeUpTo(list, more[..k], bound)
    {
      if |out| < bound {
        out := out + [more[k]];
      }
    }
    assert more[..|more|] == more;
  }

  lemma AggregateNext(sources: seq<ClassResult>, k: nat, klass: DiversityClass, maxShared: nat)
    requires k < |sources|
    ensures AggregateFold(sources[..k + 1], klass, maxShared)
            == AggregateStep(AggregateFold(sources[..k], klass, maxShared), sources[k], maxShared)
  {
    assert sources[..k + 1][..k] == sources[..k];
  }

  /** `aggregate_class`: set-wise result of one class over its per-pair results. */
  method AggregateClass(cells: seq<PairwiseCell>, klass: DiversityClass, maxShared: nat) returns (out: ClassResult)
    ensures out == Aggregate(cells, klass, maxShared)
  {
    var sources := GatherClass(cells, klass);
    out := ClassResult(klass, PROVEN_DIVERSE, true, [], 0, "");
    for k := 0 to |sources|
      invariant out == AggregateFold(sources[..k], klass, maxShared)
    {
      AggregateNext(sources, k, klass, maxShared);
      var source := sources[k];
      var shared := AppendBounded(out.shared, source.shared, maxShared);
      var outcome := out.outcome;
      if source.outcome == NOT_DIVERSE {
        outcome := NOT_DIVERSE;
      } else if source.outcome == UNKNOWN_INCOMPLETE_EVIDENCE && out.outcome != NOT_DIVERSE {
        outcome := UNKNOWN_INCOMPLETE_EVIDENCE;
      }
      out := ClassResult(out.klass, outcome, out.evidenceComplete && source.evidenceComplete, shared,
                         out.sharedTotal + source.sharedTotal, out.detail);
    }
    assert sources[..|sources|] == sources;
    out := out.(shared := SortConflicts(out.shared));
  }

  method AggregateClasses(cells: seq<PairwiseCell>, classes: seq<DiversityClass>, maxShared: nat)
    returns (out: seq<ClassResult>)
    ensures out == AggregateAll(cells, classes, maxShared)
  {
    out := [];
    for k := 0 to |classes|
      invariant out == AggregateAll(cells, classes, maxShared)[..k]
    {
      var result := AggregateClass(cells, classes[k], maxShared);
      AggregateAllAt(cells, classes, maxShared, k);
      out := out + [result];
    }
  }

  lemma AggregateAllAt(cells: seq<PairwiseCell>, classes: seq<DiversityClass>, maxShared: nat, k: nat)
    requires k < |classes|
    ensures AggregateAll(cells, classes, maxShared)[..k + 1]
            == AggregateAll(cells, classes, maxShared)[..k] + [Aggregate(cells, classes[k], maxShared)]
  {
  }

  /** `cells_within`. */
  method SubsetCells(m: PairwiseMatrix, subset: seq<nat>) returns (out: seq<PairwiseCell>)
    ensures out == CellsWithin(m, subset, |subset|)
  {
    out := [];
    for a := 0 to |subset|
      invariant out == CellsWithin(m, subset, a)
    {
      var row: seq<PairwiseCell> := [];
      for b := a + 1 to |subset|
        invariant row == CellsOfRow(m, subset, a, b)
      {
        match At(m, subset[a], subset[b]) {
          case None =>
          case Some(cell) => row := row + [cell];
        }
      }
      out := out + row;
    }
  }

  // ----- The subset step ----------------------------------------------------------------------

  /** AT_LEAST_K_INDEPENDENT; the branch for a failed cross-check is never taken. */
  method FindSubset(m: PairwiseMatrix, p: Policy) returns (finding: Finding)
    ensures finding == SubsetFinding(m, p)
  {
    var certain := GraphFromMatrix(m, false);
    var optimistic := GraphFromMatrix(m, true);
    var certainWitness, exact := CrossCheckedWitness(certain);
    var optimisticWitness := MisWitness(optimistic);
    var k := p.minimumIndependentPaths;
    if |certainWitness| >= k {
      var cells := SubsetCells(m, certainWitness);
      finding := Finding(None, WitnessSubset(true, k, certainWitness, |certainWitness|, exact), cells);
    } else if |optimisticWitness| >= k {
      finding := Finding(Some(UnknownOutcome(p)), WitnessSubset(true, k, optimisticWitness, |certainWitness|, exact),
                         m.cells);
    } else if exact {
      finding := Finding(Some(NOT_DIVERSE), WitnessSubset(true, k, certainWitness, |certainWitness|, exact), m.cells);
    } else {
      assert false;
      finding := Finding(Some(REVALIDATION_REQUIRED), NO_WITNESS, m.cells);
    }
  }

  // ----- Classification -------------------------------------------------------------------------

  method ClassifyResults(required: seq<ClassResult>, p: Policy) returns (outcome: Outcome)
    ensures outcome == Classify(required, p)
  {
    var anyConflict, anyUnknown, anyMalformed := false, false, false;
    for k := 0 to |required|
      invariant anyConflict <==> exists q | 0 <= q < k :: required[q].outcome == NOT_DIVERSE
      invariant anyUnknown <==> exists q | 0 <= q < k :: required[q].outcome == UNKNOWN_INCOMPLETE_EVIDENCE
      invariant anyMalformed <==> exists q | 0 <= q < k :: !IsVerdict(required[q].outcome)
    {
      if required[k].outcome == NOT_DIVERSE {
        anyConflict := true;
      } else if required[k].outcome == UNKNOWN_INCOMPLETE_EVIDENCE {
        anyUnknown := true;
      } else if required[k].outcome != PROVEN_DIVERSE {
        anyMalformed := true;
      }
    }
    if anyMalformed {
      outcome := MALFORMED;
    } else if anyUnknown && p.completeness == REQUIRE_COMPLETE_EVIDENCE {
      outcome := UnknownOutcome(p);
    } else if anyConflict {
      outcome := NOT_DIVERSE;
    } else if anyUnknown {
      outcome := UnknownOutcome(p);
    } else {
      outcome := PROVEN_DIVERSE;
    }
  }

  method CollectConflicts(required: seq<ClassResult>, maxShared: nat)
    returns (conflicts: seq<SharedResource>, total: nat)
    ensures conflicts == SortConflicts(TakeUpTo([], AllShared(required), maxShared))
    ensures total == |AllShared(required)|
  {
    conflicts, total := [], 0;
    for k := 0 to |required|
      invariant conflicts == TakeUpTo([], AllShared(required[..k]), maxShared)
      invariant total == |AllShared(required[..k])|
    {
      assert required[..k + 1][..k] == required[..k];
      var shared := required[k].shared;
      ghost var before := AllShared(required[..k]);
      total := total + |shared|;
      conflicts := AppendBounded(conflicts, shared, maxShared);
      TakeUpToConcat(before, shared, maxShared);
    }
    assert required[..|required|] == required;
    conflicts := SortConflicts(conflicts);
  }

  lemma TakeUpToConcat(a: seq<SharedResource>, b: seq<SharedResource>, bound: nat)
    ensures TakeUpTo(TakeUpTo([], a, bound), b, bound) == TakeUpTo([], a + b, bound)
  {
    if |a| >= bound {
      assert (a + b)[..bound] == a[..bound];
    } else if |a| + |b| > bound {
      assert (a + b)[..bound] == a + b[..bound - |a|];
    }
  }

  /** Steps five and six over a filled matrix. */
  method ConcludeEvaluation(m: PairwiseMatrix, p: Policy, dependencies: Dependencies, consulted: Consulted,
                            maxShared: nat)
    returns (result: EvaluationResult)
    ensures result == Conclude(m, p, dependencies, consulted, maxShared)
  {
    var finding := Finding(None, NO_WITNESS, m.cells);
    if p.semantics == AT_LEAST_K_INDEPENDENT {
      finding := FindSubset(m, p);
    }
    var required := AggregateClasses(finding.cells, p.requiredClasses, maxShared);
    var advisories := AggregateClasses(finding.cells, AdvisoryClasses(p, ALL_CLASSES), maxShared);
    var outcome;
    if finding.decided == None {
      outcome := ClassifyResults(required, p);
    } else {
      outcome := finding.decided.value;
    }
    var conflicts, total := CollectConflicts(required, maxShared);
    result := EvaluationResult(outcome, None, required, advisories, conflicts, total, m, finding.subset, dependencies,
                               consulted,
                               dependencies.topologyGeneration, dependencies.domainGeneration);
  }
}
