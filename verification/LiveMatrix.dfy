/**
 * The pairwise step over live views: classify every pair, keep the required
 * classes, and fill the triangular matrix.
 */
module LiveMatrix {
  import opened Ordering
  import opened Triangle
  import opened Evidence
  import opened PairClasses
  import opened Evaluator
  import opened LiveViews
  import opened LiveClasses

  // ----- One pair -------------------------------------------------------------------------

  /** Required classes come first, in policy order; nothing required follows them. */
  ghost predicate RequiredFirst(results: seq<ClassResult>, required: seq<DiversityClass>) {
    && |results| >= |required|
    && (forall k | 0 <= k < |required| :: results[k].klass == required[k])
    && (forall k | |required| <= k < |results| :: results[k].klass !in required)
  }

  /** The domains consulted for a pair by some classes. */
  ghost function ClassesDomains(classes: seq<DiversityClass>, l: PathComposition, r: PathComposition, p: Policy,
                                facts: Facts): set<string>
  {
    set klass, d | klass in classes && d in PairDomains(l, r, RelationsOf(klass, p), facts) :: d
  }

  ghost function ClassesRiskGroups(classes: seq<DiversityClass>, l: PathComposition, r: PathComposition,
                                   facts: Facts): set<string>
  {
    if SHARED_RISK_GROUP_DISJOINT in classes then PairRiskGroups(l, r, facts) else {}
  }

  lemma ClassesExtend(classes: seq<DiversityClass>, klass: DiversityClass, l: PathComposition, r: PathComposition,
                      p: Policy, facts: Facts)
    ensures ClassesDomains(classes + [klass], l, r, p, facts)
            == ClassesDomains(classes, l, r, p, facts) + PairDomains(l, r, RelationsOf(klass, p), facts)
    ensures ClassesRiskGroups(classes + [klass], l, r, facts)
            == ClassesRiskGroups(classes, l, r, facts) + ClassRiskGroups(klass, l, r, facts)
  {
    assert klass in classes + [klass];
    assert forall k | k in classes :: k in classes + [klass];
  }

  lemma ClassAskingFor(relation: DomainRelation, p: Policy) returns (klass: DiversityClass)
    requires relation in ConsultedRelations(p)
    ensures klass in ALL_CLASSES && relation in RelationsOf(klass, p)
  {
    assert ALL_CLASSES[3] == RACK_DISJOINT && ALL_CLASSES[4] == POD_DISJOINT && ALL_CLASSES[5] == SITE_DISJOINT;
    assert ALL_CLASSES[6] == FAILURE_DOMAIN_DISJOINT;
    klass := if relation in p.relations then FAILURE_DOMAIN_DISJOINT
             else if relation == RACK then RACK_DISJOINT else if relation == POD then POD_DISJOINT else SITE_DISJOINT;
  }

  /** Every class is consulted, required or not, so every relation in play is. */
  lemma AllClassesConsulted(classes: seq<DiversityClass>, l: PathComposition, r: PathComposition, p: Policy,
                            facts: Facts)
    requires forall k | k in ALL_CLASSES :: k in classes
    ensures ClassesDomains(classes, l, r, p, facts) == PairDomains(l, r, ConsultedRelations(p), facts)
    ensures ClassesRiskGroups(classes, l, r, facts) == PairRiskGroups(l, r, facts)
  {
    assert ALL_CLASSES[7] == SHARED_RISK_GROUP_DISJOINT;
    forall d | d in PairDomains(l, r, ConsultedRelations(p), facts)
      ensures d in ClassesDomains(classes, l, r, p, facts)
    {
      var relation :| relation in ConsultedRelations(p)
                      && d in DomainsOf(facts, Entities(l), relation) + DomainsOf(facts, Entities(r), relation);
      var klass := ClassAskingFor(relation, p);
      assert d in PairDomains(l, r, RelationsOf(klass, p), facts);
    }
    forall d | d in ClassesDomains(classes, l, r, p, facts)
      ensures d in PairDomains(l, r, ConsultedRelations(p), facts)
    {
      var klass :| klass in classes && d in PairDomains(l, r, RelationsOf(klass, p), facts);
      var relation :| relation in RelationsOf(klass, p)
                      && d in DomainsOf(facts, Entities(l), relation) + DomainsOf(facts, Entities(r), relation);
      assert relation in ConsultedRelations(p);
    }
  }

  /** What the evaluated classes of a pair add up to while the evidence stands still. */
  ghost predicate PairSoFar(results: seq<ClassResult>, domains: seq<string>, groups: seq<string>,
                            done: seq<DiversityClass>,
                            l: PathComposition, r: PathComposition, p: Policy, bound: nat, facts: Facts) {
    && |results| == |done|
    && (forall k | 0 <= k < |done| :: results[k] == ClassOf(done[k], l, r, p, facts, bound))
    && Elements(domains) == ClassesDomains(done, l, r, p, facts)
    && Elements(groups) == ClassesRiskGroups(done, l, r, facts)
  }

  lemma PairSoFarExtend(results: seq<ClassResult>, domains: seq<string>, groups: seq<string>, done: seq<DiversityClass>,
                        l: PathComposition, r: PathComposition, p: Policy, bound: nat, facts: Facts,
                        klass: DiversityClass, result: ClassResult, moreDomains: seq<string>, moreGroups: seq<string>)
    requires PairSoFar(results, domains, groups, done, l, r, p, bound, facts)
    requires result == ClassOf(klass, l, r, p, facts, bound)
    requires Elements(moreDomains) == PairDomains(l, r, RelationsOf(klass, p), facts)
    requires Elements(moreGroups) == ClassRiskGroups(klass, l, r, facts)
    ensures PairSoFar(results + [result], domains + moreDomains, groups + moreGroups, done + [klass], l, r, p, bound,
                      facts)
  {
    ClassesExtend(done, klass, l, r, p, facts);
    assert Elements(domains + moreDomains) == Elements(domains) + Elements(moreDomains);
    assert Elements(groups + moreGroups) == Elements(groups) + Elements(moreGroups);
  }

  /** Evaluates some classes of a pair one after the other. */
  method EvaluateClasses(views: Views, classes: seq<DiversityClass>, l: PathComposition, r: PathComposition, p: Policy,
                         bound: nat,
                         ghost facts: Facts)
    returns (results: seq<ClassResult>, domains: seq<string>, groups: seq<string>)
    requires l.Canonical() && r.Canonical()
    modifies views`now
    ensures views.now >= old(views.now)
    ensures |results| == |classes| && forall k | 0 <= k < |classes| :: results[k].klass == classes[k]
    ensures views.Steady(old(views.now), views.now, facts) ==>
              PairSoFar(results, domains, groups, classes, l, r, p, bound, facts)
  {
    results, domains, groups := [], [], [];
    for k := 0 to |classes|
      invariant views.now >= old(views.now) && |results| == k
      invariant forall q | 0 <= q < k :: results[q].klass == classes[q]
      invariant views.Steady(old(views.now), views.now, facts) ==>
                  PairSoFar(results, domains, groups, classes[..k], l, r, p, bound, facts)
    {
      var result, moreDomains, moreGroups := SingleClass(views, classes[k], l, r, p, bound, facts);
      if views.Steady(old(views.now), views.now, facts) {
        PairSoFarExtend(results, domains, groups, classes[..k], l, r, p, bound, facts, classes[k], result, moreDomains,
                        moreGroups);
      }
      assert classes[..k + 1] == classes[..k] + [classes[k]];
      results, domains, groups := results + [result], domains + moreDomains, groups + moreGroups;
    }
    assert classes[..|classes|] == classes;
  }

  lemma {:induction false} AdvisoryMembers(p: Policy, all: seq<DiversityClass>)
    ensures forall k :: k in AdvisoryClasses(p, all) <==> k in all && k !in p.requiredClasses
  {
    if all != [] {
      AdvisoryMembers(p, all[1..]);
      assert forall k :: k in all <==> k == all[0] || k in all[1..];
    }
  }

  /** Required and advisory classes together consult everything. */
  lemma PairFullyConsulted(domains: seq<string>, groups: seq<string>, advisoryDomains: seq<string>,
                           advisoryGroups: seq<string>,
                      results: seq<ClassResult>, advisory: seq<ClassResult>,
                      l: PathComposition, r: PathComposition, p: Policy, bound: nat, facts: Facts)
    requires PairSoFar(results, domains, groups, p.requiredClasses, l, r, p, bound, facts)
    requires PairSoFar(advisory, advisoryDomains, advisoryGroups, AdvisoryClasses(p, ALL_CLASSES), l, r, p, bound,
                       facts)
    ensures Elements(domains + advisoryDomains) == PairDomains(l, r, ConsultedRelations(p), facts)
    ensures Elements(groups + advisoryGroups) == PairRiskGroups(l, r, facts)
  {
    var others := AdvisoryClasses(p, ALL_CLASSES);
    AdvisoryMembers(p, ALL_CLASSES);
    assert forall k | k in ALL_CLASSES :: k in p.requiredClasses + others;
    AllClassesConsulted(p.requiredClasses + others, l, r, p, facts);
    assert Elements(domains + advisoryDomains) == Elements(domains) + Elements(advisoryDomains);
    assert Elements(groups + advisoryGroups) == Elements(groups) + Elements(advisoryGroups);
    assert ClassesDomains(p.requiredClasses + others, l, r, p, facts)
           == ClassesDomains(p.requiredClasses, l, r, p, facts) + ClassesDomains(others, l, r, p, facts);
  }

  /** `classify_pair`: the required classes, then every other class as an advisory. */
  method ClassifyPair(views: Views, l: PathComposition, r: PathComposition, p: Policy, maxShared: nat,
                      ghost facts: Facts)
    returns (results: seq<ClassResult>, domains: seq<string>, groups: seq<string>)
    requires l.Canonical() && r.Canonical()
    modifies views`now
    ensures views.now >= old(views.now)
    ensures RequiredFirst(results, p.requiredClasses)
    ensures views.Steady(old(views.now), views.now, facts) ==>
              && (forall k | 0 <= k < |p.requiredClasses| ::
                    results[k] == ClassOf(p.requiredClasses[k], l, r, p, facts, if maxShared == 0 then 1
                                          else maxShared))
              && Elements(domains) == PairDomains(l, r, ConsultedRelations(p), facts)
              && Elements(groups) == PairRiskGroups(l, r, facts)
  {
    var bound := if maxShared == 0 then 1 else maxShared;
    var required, requiredDomains, requiredGroups := EvaluateClasses(views, p.requiredClasses, l, r, p, bound, facts);
    var others := AdvisoryClasses(p, ALL_CLASSES);
    var advisory, advisoryDomains, advisoryGroups := EvaluateClasses(views, others, l, r, p, bound, facts);
    AdvisoryMembers(p, ALL_CLASSES);
    forall k | 0 <= k < |advisory|
      ensures advisory[k].klass !in p.requiredClasses
    {
      assert others[k] in others;
    }
    if views.Steady(old(views.now), views.now, facts) {
      PairFullyConsulted(requiredDomains, requiredGroups, advisoryDomains, advisoryGroups, required, advisory, l, r, p,
                         bound, facts);
    }
    results := required + advisory;
    domains, groups := requiredDomains + advisoryDomains, requiredGroups + advisoryGroups;
  }

  function RemapAll(results: seq<ClassResult>, i: nat, j: nat): seq<ClassResult> {
    seq(|results|, k requires 0 <= k < |results| => Remap(results[k], i, j))
  }

  method RemapResult(result: ClassResult, i: nat, j: nat) returns (remapped: ClassResult)
    ensures remapped == Remap(result, i, j)
  {
    var conflicts := [];
    for c := 0 to |result.shared|
      invariant |conflicts| == c
      invariant forall q | 0 <= q < c :: conflicts[q] == result.shared[q].(paths := [i, j])
    {
      conflicts := conflicts + [result.shared[c].(paths := [i, j])];
    }
    assert conflicts == seq(|result.shared|, q requires 0 <= q < |result.shared| => result.shared[q].(paths := [i, j]));
    remapped := result.(shared := SortConflicts(conflicts));
  }

  /** `remap_cell`: conflicts name the pair's positions instead of 0 and 1. */
  method RemapCell(results: seq<ClassResult>, i: nat, j: nat) returns (remapped: seq<ClassResult>)
    ensures remapped == RemapAll(results, i, j)
  {
    remapped := [];
    for k := 0 to |results|
      invariant remapped == RemapAll(results[..k], i, j)
    {
      var result := RemapResult(results[k], i, j);
      remapped := remapped + [result];
    }
    assert results[..|results|] == results;
  }

  /** Advisory results are dropped; the required ones are exactly the head of the list. */
  method KeepRequired(results: seq<ClassResult>, required: seq<DiversityClass>) returns (kept: seq<ClassResult>)
    requires RequiredFirst(results, required)
    ensures kept == results[..|required|]
  {
    kept := [];
    for k := 0 to |results|
      invariant kept == results[..if k <= |required| then k else |required|]
    {
      if results[k].klass in required {
        kept := kept + [results[k]];
      }
    }
  }

  /** The cell flags and the primary conflict, class by class. */
  method BuildCell(i: nat, j: nat, classes: seq<ClassResult>) returns (cell: PairwiseCell)
    ensures cell == MakeCell(i, j, classes)
  {
    var independent, complete := true, true;
    var conflicts: seq<SharedResource> := [];
    for k := 0 to |classes|
      invariant independent <==> forall q | 0 <= q < k :: ProvenClass(classes[q])
      invariant complete <==> forall q | 0 <= q < k :: classes[q].evidenceComplete
      invariant conflicts == AllShared(classes[..k])
    {
      assert classes[..k + 1][..k] == classes[..k];
      if classes[k].outcome != PROVEN_DIVERSE || !classes[k].evidenceComplete {
        independent := false;
      }
      if !classes[k].evidenceComplete {
        complete := false;
      }
      conflicts := conflicts + classes[k].shared;
    }
    assert classes[..|classes|] == classes;
    conflicts := SortConflicts(conflicts);
    cell := PairwiseCell(i, j, independent, complete, classes, if conflicts == [] then None else Some(conflicts[0]));
  }

  method CellFor(views: Views, i: nat, j: nat, l: PathComposition, r: PathComposition, p: Policy, maxShared: nat,
                 ghost facts: Facts)
    returns (cell: PairwiseCell, domains: seq<string>, groups: seq<string>)
    requires l.Canonical() && r.Canonical() && maxShared > 0
    modifies views`now
    ensures views.now >= old(views.now)
    ensures views.Steady(old(views.now), views.now, facts) ==>
              && cell == CellOf(i, j, l, r, p, facts, maxShared)
              && Elements(domains) == PairDomains(l, r, ConsultedRelations(p), facts)
              && Elements(groups) == PairRiskGroups(l, r, facts)
  {
    var results;
    results, domains, groups := ClassifyPair(views, l, r, p, maxShared, facts);
    var remapped := RemapCell(results, i, j);
    var kept := KeepRequired(remapped, p.requiredClasses);
    cell := BuildCell(i, j, kept);
    if views.Steady(old(views.now), views.now, facts) {
      assert kept == CellClasses(i, j, l, r, p, facts, maxShared);
    }
  }

  // ----- The matrix -------------------------------------------------------------------------

  ghost function CellAt(n: nat, number: nat, comps: seq<PathComposition>, p: Policy, facts: Facts,
                        bound: nat): PairwiseCell
    requires number < CellCount(n) && |comps| == n
  {
    var (i, j) := PairAt(n, number);
    CellOf(i, j, comps[i], comps[j], p, facts, bound)
  }

  /** Both paths of the pair have been consulted for everything. */
  ghost predicate PairIsConsulted(l: PathComposition, r: PathComposition, p: Policy, facts: Facts, domains: seq<string>,
                                  groups: seq<string>)
  {
    && PairDomains(l, r, ConsultedRelations(p), facts) <= Elements(domains)
    && PairRiskGroups(l, r, facts) <= Elements(groups)
  }

  ghost predicate CellsFilled(cells: seq<PairwiseCell>, comps: seq<PathComposition>, p: Policy, facts: Facts,
                              bound: nat, next: nat)
  {
    && next <= |cells| == CellCount(|comps|)
    && forall number: nat | number < next :: cells[number] == CellAt(|comps|, number, comps, p, facts, bound)
  }

  ghost predicate NumberConsulted(comps: seq<PathComposition>, p: Policy, facts: Facts, domains: seq<string>,
                                  groups: seq<string>, number: nat)
    requires number < CellCount(|comps|)
  {
    var (i, j) := PairAt(|comps|, number);
    PairIsConsulted(comps[i], comps[j], p, facts, domains, groups)
  }

  ghost predicate ConsultedSoFar(domains: seq<string>, groups: seq<string>, comps: seq<PathComposition>, p: Policy,
                                 facts: Facts, next: nat)
  {
    && next <= CellCount(|comps|)
    && (forall number: nat | number < next :: NumberConsulted(comps, p, facts, domains, groups, number))
    && Elements(domains) <= AllDomains(comps, p, facts)
    && Elements(groups) <= AllRiskGroups(comps, facts)
  }

  /** The first `next` cells are final and their paths consulted, while the evidence stands still. */
  ghost predicate FilledSoFar(cells: seq<PairwiseCell>, domains: seq<string>, groups: seq<string>,
                              comps: seq<PathComposition>,
                              p: Policy, facts: Facts, bound: nat, next: nat) {
    CellsFilled(cells, comps, p, facts, bound, next) && ConsultedSoFar(domains, groups, comps, p, facts, next)
  }

  lemma FillNextCell(cells: seq<PairwiseCell>, comps: seq<PathComposition>, p: Policy, facts: Facts, bound: nat,
                     next: nat, cell: PairwiseCell)
    requires next < CellCount(|comps|) && CellsFilled(cells, comps, p, facts, bound, next)
    requires cell == CellAt(|comps|, next, comps, p, facts, bound)
    ensures CellsFilled(cells[next := cell], comps, p, facts, bound, next + 1)
  {
    var cells' := cells[next := cell];
    forall number: nat | number < next + 1
      ensures cells'[number] == CellAt(|comps|, number, comps, p, facts, bound)
    {
      if number < next {
        assert cells'[number] == cells[number];
      }
    }
  }

  lemma ConsultNextPair(domains: seq<string>, groups: seq<string>, comps: seq<PathComposition>, p: Policy, facts: Facts,
                        i: nat, j: nat, next: nat, moreDomains: seq<string>, moreGroups: seq<string>)
    requires i < j < |comps| && next < CellCount(|comps|) && PairAt(|comps|, next) == (i, j)
    requires ConsultedSoFar(domains, groups, comps, p, facts, next)
    requires Elements(moreDomains) == PairDomains(comps[i], comps[j], ConsultedRelations(p), facts)
    requires Elements(moreGroups) == PairRiskGroups(comps[i], comps[j], facts)
    ensures ConsultedSoFar(domains + moreDomains, groups + moreGroups, comps, p, facts, next + 1)
  {
    assert Elements(domains + moreDomains) == Elements(domains) + Elements(moreDomains);
    assert Elements(groups + moreGroups) == Elements(groups) + Elements(moreGroups);
    PairConsulted(comps, p, facts, i, j);
    forall number: nat | number < next + 1
      ensures NumberConsulted(comps, p, facts, domains + moreDomains, groups + moreGroups, number)
    {
      if number < next {
        assert NumberConsulted(comps, p, facts, domains, groups, number);
      }
    }
  }

  lemma PairConsulted(comps: seq<PathComposition>, p: Policy, facts: Facts, i: nat, j: nat)
    requires i < j < |comps|
    ensures PairDomains(comps[i], comps[j], ConsultedRelations(p), facts) <= AllDomains(comps, p, facts)
    ensures PairRiskGroups(comps[i], comps[j], facts) <= AllRiskGroups(comps, facts)
  {
    assert comps[i] in comps && comps[j] in comps;
  }

  /** Every path is in some pair. */
  lemma PathIsConsulted(comps: seq<PathComposition>, p: Policy, facts: Facts, domains: seq<string>, groups: seq<string>,
                        c: PathComposition)
    requires |comps| >= 2 && c in comps
    requires ConsultedSoFar(domains, groups, comps, p, facts, CellCount(|comps|))
    ensures forall relation, d | relation in ConsultedRelations(p) && d in DomainsOf(facts, Entities(c), relation) ::
              d in domains
    ensures forall d | d in RiskGroupsOf(facts, Entities(c)) :: d in groups
  {
    var k :| 0 <= k < |comps| && comps[k] == c;
    var i, j := if k == 0 then 0 else k - 1, if k == 0 then 1 else k;
    PairAtCellIndex(|comps|, i, j);
    assert NumberConsulted(comps, p, facts, domains, groups, CellIndex(|comps|, i, j));
    forall relation, d | relation in ConsultedRelations(p) && d in DomainsOf(facts, Entities(c), relation)
      ensures d in domains
    {
      assert d in DomainsOf(facts, Entities(comps[i]), relation) + DomainsOf(facts, Entities(comps[j]), relation);
      assert d in PairDomains(comps[i], comps[j], ConsultedRelations(p), facts);
      assert d in Elements(domains);
    }
    forall d | d in RiskGroupsOf(facts, Entities(c))
      ensures d in groups
    {
      assert d in PairRiskGroups(comps[i], comps[j], facts);
      assert d in Elements(groups);
    }
  }

  /** Once every pair is done the cells are the matrix and everything was consulted. */
  lemma FillDone(order: seq<string>, cells: seq<PairwiseCell>, domains: seq<string>, groups: seq<string>,
                 comps: seq<PathComposition>, p: Policy, facts: Facts, bound: nat)
    requires |order| == |comps| >= 2
    requires FilledSoFar(cells, domains, groups, comps, p, facts, bound, CellCount(|comps|))
    ensures PairwiseMatrix(order, cells) == MatrixOf(order, comps, p, facts, bound)
    ensures Elements(domains) == AllDomains(comps, p, facts)
    ensures Elements(groups) == AllRiskGroups(comps, facts)
  {
    var m := MatrixOf(order, comps, p, facts, bound);
    forall number: nat | number < |cells|
      ensures cells[number] == m.cells[number]
    {
      assert cells[number] == CellAt(|comps|, number, comps, p, facts, bound);
    }
    forall c | c in comps
      ensures forall relation, d | relation in ConsultedRelations(p) && d in DomainsOf(facts, Entities(c), relation) ::
                d in Elements(domains)
      ensures forall d | d in RiskGroupsOf(facts, Entities(c)) :: d in Elements(groups)
    {
      PathIsConsulted(comps, p, facts, domains, groups, c);
    }
  }

  /** The fill loop: every cell of the triangle is written exactly once, in storage order. */
  method FillMatrix(views: Views, order: seq<string>, comps: seq<PathComposition>, p: Policy, limits: Limits,
                    ghost facts: Facts)
    returns (m: PairwiseMatrix, consulted: Consulted)
    requires |order| == |comps| >= 2 && limits.maxConflictsPerProof > 0
    requires forall c | c in comps :: c.Canonical()
    modifies views`now
    ensures views.now >= old(views.now)
    ensures m.order == order && |m.cells| == CellCount(|order|)
    ensures views.Steady(old(views.now), views.now, facts) ==>
              && m == MatrixOf(order, comps, p, facts, limits.maxConflictsPerProof)
              && consulted == ConsultedBy(comps, p, facts, limits.maxDomainEvidenceEntries)
  {
    var n, bound := |order|, limits.maxConflictsPerProof;
    var blank := PairwiseCell(0, 0, false, false, [], None);
    var cells := seq(CellCount(n), c requires 0 <= c < CellCount(n) => blank);
    var domains: seq<string>, groups: seq<string> := [], [];
    for i: nat := 0 to n
      invariant views.now >= old(views.now) && |cells| == CellCount(n)
      invariant views.Steady(old(views.now), views.now, facts) ==>
                  FilledSoFar(cells, domains, groups, comps, p, facts, bound, RowStart(n, i))
    {
      for j: nat := i + 1 to n
        invariant views.now >= old(views.now) && |cells| == CellCount(n)
        invariant views.Steady(old(views.now), views.now, facts) ==>
                    FilledSoFar(cells, domains, groups, comps, p, facts, bound, RowStart(n, i) + (j - i - 1))
      {
        var cell, moreDomains, moreGroups := CellFor(views, i, j, comps[i], comps[j], p, bound, facts);
        PairAtCellIndex(n, i, j);
        CellIndexIsRowPlusColumn(n, i, j);
        if views.Steady(old(views.now), views.now, facts) {
          FillNextCell(cells, comps, p, facts, bound, CellIndex(n, i, j), cell);
          ConsultNextPair(domains, groups, comps, p, facts, i, j, CellIndex(n, i, j), moreDomains, moreGroups);
        }
        cells := cells[CellIndex(n, i, j) := cell];
        domains, groups := domains + moreDomains, groups + moreGroups;
      }
    }
    CellCountIsLastRow(n);
    if views.Steady(old(views.now), views.now, facts) {
      FillDone(order, cells, domains, groups, comps, p, facts, bound);
    }
    m := PairwiseMatrix(order, cells);
    var sortedDomains := SortedUnique(domains);
    var sortedGroups := SortedUnique(groups);
    consulted := Consulted(Bounded(sortedDomains, limits.maxDomainEvidenceEntries),
                           Bounded(sortedGroups, limits.maxDomainEvidenceEntries));
  }
}
