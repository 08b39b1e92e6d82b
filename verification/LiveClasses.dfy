/**
 * The pairwise class evaluators over live views.  When the evidence did not move
 * while a routine was reading, its result is the reference result of that evidence.
 */
module LiveClasses {
  import opened Ordering
  import opened Evidence
  import opened PairClasses
  import opened LiveViews

  // ----- Sorted lists -----------------------------------------------------------------

  /** The identities of a list in canonical order, without repeats. */
  method SortedUnique(ids: seq<string>) returns (out: seq<string>)
    ensures out == Ascending(Elements(ids))
  {
    var values := new string[|ids|](i requires 0 <= i < |ids| => ids[i]);
    assert values[..] == ids;
    var count := CanonicalSortUnique(values);
    out := values[..count];
  }

  method AllNodes(c: PathComposition) returns (nodes: seq<string>)
    ensures nodes == Ascending(Nodes(c))
  {
    var ids := c.transitNodes + c.sources + c.destinations;
    assert Elements(ids) == Nodes(c);
    nodes := SortedUnique(ids);
  }

  /** `exempt_endpoints`: exactly the endpoints the policy exempts. */
  method ExemptEndpoints(l: PathComposition, r: PathComposition, exemption: EndpointExemption)
    returns (exempt: seq<string>)
    requires l.Canonical() && r.Canonical()
    ensures Elements(exempt) == Exempt(l, r, exemption)
  {
    match exemption
    case NONE =>
      exempt := [];
    case SHARED_SOURCE_AND_DESTINATION =>
      var sources := IntersectSorted(l.sources, r.sources);
      var destinations := IntersectSorted(l.destinations, r.destinations);
      assert Elements(sources + destinations) == Elements(sources) + Elements(destinations);
      exempt := SortedUnique(sources + destinations);
    case SHARED_SOURCE_ONLY =>
      exempt := IntersectSorted(l.sources, r.sources);
    case SHARED_DESTINATION_ONLY =>
      exempt := IntersectSorted(l.destinations, r.destinations);
    case ANY_ENDPOINT =>
      assert Elements(l.sources + l.destinations) == Endpoints(l);
      assert Elements(r.sources + r.destinations) == Endpoints(r);
      var left := SortedUnique(l.sources + l.destinations);
      var right := SortedUnique(r.sources + r.destinations);
      exempt := IntersectSorted(left, right);
  }

  /** Keeps the order of a sorted list while dropping the exempt members. */
  method Without(ids: seq<string>, dropped: seq<string>) returns (kept: seq<string>)
    requires StrictlyAscending(ids)
    ensures kept == Ascending(Elements(ids) - Elements(dropped))
  {
    kept := [];
    for k := 0 to |ids|
      invariant StrictlyAscending(kept)
      invariant forall x :: x in kept <==> x in ids[..k] && x !in dropped
    {
      assert ids[..k + 1] == ids[..k] + [ids[k]];
      if ids[k] !in dropped {
        forall a | 0 <= a < |kept|
          ensures Less(kept[a], ids[k])
        {
          assert kept[a] in kept;
          var b :| 0 <= b < k && ids[..k][b] == kept[a];
        }
        kept := kept + [ids[k]];
      }
    }
    assert ids[..|ids|] == ids;
    AscendingIs(kept, Elements(ids) - Elements(dropped));
  }

  // ----- Class results ------------------------------------------------------------------

  lemma AddAllStep(result: ClassResult, conflicts: seq<SharedResource>, k: nat, bound: nat)
    requires k < |conflicts|
    ensures AddAll(result, conflicts[..k + 1], bound)
            == AddShared(AddAll(result, conflicts[..k], bound), conflicts[k], bound)
  {
    assert conflicts[..k + 1][..k] == conflicts[..k];
  }

  method AddConflicts(result: ClassResult, conflicts: seq<SharedResource>, bound: nat) returns (added: ClassResult)
    ensures added == AddAll(result, conflicts, bound)
  {
    added := result;
    for k := 0 to |conflicts|
      invariant added == AddAll(result, conflicts[..k], bound)
    {
      AddAllStep(result, conflicts, k, bound);
      added := added.(sharedTotal := added.sharedTotal + 1);
      if |added.shared| < bound {
        added := added.(shared := SortConflicts(added.shared + [conflicts[k]]));
      }
    }
    assert conflicts[..|conflicts|] == conflicts;
  }

  lemma DecidedFromList(klass: DiversityClass, complete: bool, shared: seq<string>, kind: ConflictClass,
                        relation: DomainRelation, bound: nat)
    requires StrictlyAscending(shared)
    ensures Decided(klass, complete, Elements(shared), kind, relation, bound)
            == AddAll(ClassResult(klass, Verdict(shared != [], complete), complete, [], 0, ""),
                      MakeConflicts(kind, relation, shared), bound)
  {
    AscendingIs(shared, Elements(shared));
    assert (shared != []) == (Elements(shared) != {}) by {
      assert shared != [] ==> shared[0] in Elements(shared);
    }
    DecidedWith(klass, complete, Elements(shared), shared, kind, relation, bound);
  }

  lemma DecidedWith(klass: DiversityClass, complete: bool, shared: set<string>, listed: seq<string>,
                    kind: ConflictClass,
                    relation: DomainRelation, bound: nat)
    requires Ascending(shared) == listed && (listed != []) == (shared != {})
    ensures Decided(klass, complete, shared, kind, relation, bound)
            == AddAll(ClassResult(klass, Verdict(listed != [], complete), complete, [], 0, ""),
                      MakeConflicts(kind, relation, listed), bound)
  {
  }

  /** The common tail of the class evaluators: list what is shared, then decide. */
  method Decide(klass: DiversityClass, complete: bool, shared: seq<string>, kind: ConflictClass,
                relation: DomainRelation, bound: nat) returns (result: ClassResult)
    requires StrictlyAscending(shared)
    ensures result == Decided(klass, complete, Elements(shared), kind, relation, bound)
  {
    DecidedFromList(klass, complete, shared, kind, relation, bound);
    var outcome := PROVEN_DIVERSE;
    if shared != [] {
      outcome := NOT_DIVERSE;
    } else if !complete {
      outcome := UNKNOWN_INCOMPLETE_EVIDENCE;
    }
    result := AddConflicts(ClassResult(klass, outcome, complete, [], 0, ""), MakeConflicts(kind, relation, shared),
                           bound);
  }

  method StructuralClass(klass: DiversityClass, l: PathComposition, r: PathComposition, p: Policy, bound: nat,
                         ghost facts: Facts) returns (result: ClassResult)
    requires l.Canonical() && r.Canonical()
    requires klass in {LINK_DISJOINT, TRANSIT_NODE_DISJOINT, DEVICE_DISJOINT}
    ensures result == ClassOf(klass, l, r, p, facts, bound)
  {
    if klass == LINK_DISJOINT {
      var complete := l.linkCoverage == COMPLETE && r.linkCoverage == COMPLETE;
      var shared := IntersectSorted(l.links, r.links);
      result := Decide(klass, complete, shared, SHARED_LINK, FAILURE_DOMAIN, bound);
    } else if klass == DEVICE_DISJOINT {
      var complete := l.deviceCoverage == COMPLETE && r.deviceCoverage == COMPLETE;
      var shared := IntersectSorted(l.devices, r.devices);
      result := Decide(klass, complete, shared, SHARED_DEVICE, FAILURE_DOMAIN, bound);
    } else {
      var complete :=
        && l.nodeCoverage == COMPLETE && r.nodeCoverage == COMPLETE
        && l.endpointCoverage == COMPLETE && r.endpointCoverage == COMPLETE;
      var exempt := ExemptEndpoints(l, r, p.endpointExemption);
      var left := AllNodes(l);
      var right := AllNodes(r);
      var both := IntersectSorted(left, right);
      var relevant := Without(both, exempt);
      result := Decide(klass, complete, relevant, SHARED_TRANSIT_NODE, FAILURE_DOMAIN, bound);
    }
  }

  // ----- Failure-domain and shared-risk-group evidence -------------------------------------

  /** `collect_domain_membership`: one read per entity, in path order. */
  method CollectDomains(views: Views, c: PathComposition, relation: DomainRelation, ghost facts: Facts)
    returns (members: seq<string>, complete: bool)
    modifies views`now
    ensures views.now >= old(views.now)
    ensures StrictlyAscending(members)
    ensures views.Steady(old(views.now), views.now, facts) ==>
              && Elements(members) == DomainsOf(facts, Entities(c), relation)
              && complete == DomainsComplete(facts, Entities(c), relation)
  {
    var entities := Entities(c);
    var seen: seq<string> := [];
    complete := true;
    for k := 0 to |entities|
      invariant views.now >= old(views.now)
      invariant views.Steady(old(views.now), views.now, facts) ==>
                  && Elements(seen) == DomainsOf(facts, entities[..k], relation)
                  && complete == DomainsComplete(facts, entities[..k], relation)
    {
      var membership := views.DomainMembership(entities[k], relation);
      if membership.coverage != COMPLETE {
        complete := false;
      }
      DomainsExtend(facts, entities, k, relation);
      assert Elements(seen + membership.members) == Elements(seen) + Elements(membership.members);
      seen := seen + membership.members;
    }
    assert entities[..|entities|] == entities;
    members := SortedUnique(seen);
  }

  lemma DomainsExtend(facts: Facts, entities: seq<EntityRef>, k: nat, relation: DomainRelation)
    requires k < |entities|
    ensures DomainsOf(facts, entities[..k + 1], relation)
            == DomainsOf(facts, entities[..k], relation)
            + Elements(facts.DomainMembership(entities[k], relation).members)
    ensures DomainsComplete(facts, entities[..k + 1], relation) <==>
              DomainsComplete(facts, entities[..k], relation)
              && facts.DomainMembership(entities[k], relation).coverage == COMPLETE
  {
    assert entities[..k + 1] == entities[..k] + [entities[k]];
    assert entities[k] in entities[..k + 1];
    assert forall e | e in entities[..k] :: e in entities[..k + 1];
  }

  /** `collect_srlg_membership`. */
  method CollectRiskGroups(views: Views, c: PathComposition, ghost facts: Facts)
    returns (members: seq<string>, complete: bool)
    modifies views`now
    ensures views.now >= old(views.now)
    ensures StrictlyAscending(members)
    ensures views.Steady(old(views.now), views.now, facts) ==>
              && Elements(members) == RiskGroupsOf(facts, Entities(c))
              && complete == RiskGroupsComplete(facts, Entities(c))
  {
    var entities := Entities(c);
    var seen: seq<string> := [];
    complete := true;
    for k := 0 to |entities|
      invariant views.now >= old(views.now)
      invariant views.Steady(old(views.now), views.now, facts) ==>
                  && Elements(seen) == RiskGroupsOf(facts, entities[..k])
                  && complete == RiskGroupsComplete(facts, entities[..k])
    {
      var membership := views.RiskGroupMembership(entities[k]);
      if membership.coverage != COMPLETE {
        complete := false;
      }
      RiskGroupsExtend(facts, entities, k);
      assert Elements(seen + membership.members) == Elements(seen) + Elements(membership.members);
      seen := seen + membership.members;
    }
    assert entities[..|entities|] == entities;
    members := SortedUnique(seen);
  }

  lemma RiskGroupsExtend(facts: Facts, entities: seq<EntityRef>, k: nat)
    requires k < |entities|
    ensures RiskGroupsOf(facts, entities[..k + 1])
            == RiskGroupsOf(facts, entities[..k]) + Elements(facts.RiskGroupMembership(entities[k]).members)
    ensures RiskGroupsComplete(facts, entities[..k + 1]) <==>
              RiskGroupsComplete(facts, entities[..k]) && facts.RiskGroupMembership(entities[k]).coverage == COMPLETE
  {
    assert entities[..k + 1] == entities[..k] + [entities[k]];
    assert entities[k] in entities[..k + 1];
    assert forall e | e in entities[..k] :: e in entities[..k + 1];
  }

  /** `evaluate_domain_relation`. */
  method DomainRelationClass(views: Views, klass: DiversityClass, l: PathComposition, r: PathComposition,
                             relation: DomainRelation, bound: nat, ghost facts: Facts)
    returns (result: ClassResult, consulted: seq<string>)
    modifies views`now
    ensures views.now >= old(views.now)
    ensures result.klass == klass
    ensures views.Steady(old(views.now), views.now, facts) ==>
              && result == RelationResult(klass, l, r, relation, facts, bound)
              && Elements(consulted) == PairDomains(l, r, [relation], facts)
  {
    var left, leftComplete := CollectDomains(views, l, relation, facts);
    var right, rightComplete := CollectDomains(views, r, relation, facts);
    consulted := left + right;
    var shared := IntersectSorted(left, right);
    result := Decide(klass, leftComplete && rightComplete, shared, KindOf(relation), relation, bound);
    DecidedMeaning(klass, leftComplete && rightComplete, Elements(shared), KindOf(relation), relation, bound);
    ElementsOfBoth(left, right);
    if views.Steady(old(views.now), views.now, facts) {
      DomainRelationMeaning(klass, l, r, relation, bound, facts, left, leftComplete, right, rightComplete, result,
                            shared);
    }
  }

  lemma ElementsOfBoth(a: seq<string>, b: seq<string>)
    ensures Elements(a + b) == Elements(a) + Elements(b)
  {
  }

  lemma DomainRelationMeaning(klass: DiversityClass, l: PathComposition, r: PathComposition, relation: DomainRelation,
                              bound: nat,
                              facts: Facts, left: seq<string>, leftComplete: bool, right: seq<string>,
                                  rightComplete: bool,
                              result: ClassResult, shared: seq<string>)
    requires Elements(left) == DomainsOf(facts, Entities(l), relation)
             && Elements(right) == DomainsOf(facts, Entities(r), relation)
    requires leftComplete == DomainsComplete(facts, Entities(l), relation)
    requires rightComplete == DomainsComplete(facts, Entities(r), relation)
    requires Elements(shared) == Elements(left) * Elements(right)
    requires result == Decided(klass, leftComplete
                               && rightComplete, Elements(shared), KindOf(relation), relation, bound)
    ensures result == RelationResult(klass, l, r, relation, facts, bound)
    ensures Elements(left) + Elements(right) == PairDomains(l, r, [relation], facts)
  {
    PairDomainsSingle(l, r, relation, facts);
  }

  /** The failure domains of a pair under some relations. */
  ghost function PairDomains(l: PathComposition, r: PathComposition, relations: seq<DomainRelation>,
                             facts: Facts): set<string>
  {
    set relation, d | relation in relations
                      && d in DomainsOf(facts, Entities(l), relation) + DomainsOf(facts, Entities(r), relation) :: d
  }

  lemma PairDomainsSingle(l: PathComposition, r: PathComposition, relation: DomainRelation, facts: Facts)
    ensures PairDomains(l, r, [relation], facts)
            == DomainsOf(facts, Entities(l), relation) + DomainsOf(facts, Entities(r), relation)
  {
    assert relation in [relation];
  }

  lemma PairDomainsConcat(l: PathComposition, r: PathComposition, a: seq<DomainRelation>, b: seq<DomainRelation>,
                          facts: Facts)
    ensures PairDomains(l, r, a + b, facts) == PairDomains(l, r, a, facts) + PairDomains(l, r, b, facts)
  {
  }

  ghost function PairRiskGroups(l: PathComposition, r: PathComposition, facts: Facts): set<string> {
    RiskGroupsOf(facts, Entities(l)) + RiskGroupsOf(facts, Entities(r))
  }

  /** `evaluate_srlg_class`. */
  method RiskGroupClass(views: Views, l: PathComposition, r: PathComposition, p: Policy, bound: nat, ghost facts: Facts)
    returns (result: ClassResult, consulted: seq<string>)
    modifies views`now
    ensures views.now >= old(views.now)
    ensures result.klass == SHARED_RISK_GROUP_DISJOINT
    ensures views.Steady(old(views.now), views.now, facts) ==>
              && result == ClassOf(SHARED_RISK_GROUP_DISJOINT, l, r, p, facts, bound)
              && Elements(consulted) == PairRiskGroups(l, r, facts)
  {
    var left, leftComplete := CollectRiskGroups(views, l, facts);
    var right, rightComplete := CollectRiskGroups(views, r, facts);
    consulted := left + right;
    var shared := IntersectSorted(left, right);
    result := Decide(SHARED_RISK_GROUP_DISJOINT, leftComplete
                     && rightComplete, shared, SHARED_RISK_GROUP, FAILURE_DOMAIN, bound);
    DecidedMeaning(SHARED_RISK_GROUP_DISJOINT, leftComplete && rightComplete, Elements(shared), SHARED_RISK_GROUP,
                   FAILURE_DOMAIN, bound);
    assert Elements(left + right) == Elements(left) + Elements(right);
  }

  /** One class over every relation the policy declares. */
  method FailureDomainClass(views: Views, l: PathComposition, r: PathComposition, p: Policy, bound: nat,
                            ghost facts: Facts)
    returns (result: ClassResult, consulted: seq<string>)
    modifies views`now
    ensures views.now >= old(views.now)
    ensures result.klass == FAILURE_DOMAIN_DISJOINT
    ensures views.Steady(old(views.now), views.now, facts) ==>
              && result == ClassOf(FAILURE_DOMAIN_DISJOINT, l, r, p, facts, bound)
              && Elements(consulted) == PairDomains(l, r, p.relations, facts)
  {
    consulted := [];
    if p.relations == [] {
      result := ClassResult(FAILURE_DOMAIN_DISJOINT, UNKNOWN_INCOMPLETE_EVIDENCE, false, [], 0, "");
      return;
    }
    var merged := ClassResult(FAILURE_DOMAIN_DISJOINT, PROVEN_DIVERSE, true, [], 0, "");
    for k := 0 to |p.relations|
      invariant views.now >= old(views.now)
      invariant merged.klass == FAILURE_DOMAIN_DISJOINT
      invariant views.Steady(old(views.now), views.now, facts) ==>
                  && merged == MergeRelations(p.relations[..k], l, r, facts, bound)
                  && Elements(consulted) == PairDomains(l, r, p.relations[..k], facts)
    {
      var partial, domains := DomainRelationClass(views, FAILURE_DOMAIN_DISJOINT, l, r, p.relations[k], bound, facts);
      merged := MergeInto(merged, partial, bound);
      assert Elements(consulted + domains) == Elements(consulted) + Elements(domains);
      consulted := consulted + domains;
      assert p.relations[..k + 1] == p.relations[..k] + [p.relations[k]];
      PairDomainsConcat(l, r, p.relations[..k], [p.relations[k]], facts);
      MergeNext(p.relations, k, l, r, facts, bound);
    }
    assert p.relations[..|p.relations|] == p.relations;
    result := merged.(shared := SortConflicts(merged.shared));
  }

  lemma MergeNext(relations: seq<DomainRelation>, k: nat, l: PathComposition, r: PathComposition, facts: Facts,
                  bound: nat)
    requires k < |relations|
    ensures MergeRelations(relations[..k + 1], l, r, facts, bound)
            == Merge(MergeRelations(relations[..k], l, r, facts, bound),
                     RelationResult(FAILURE_DOMAIN_DISJOINT, l, r, relations[k], facts, bound), bound)
  {
    assert relations[..k + 1][..k] == relations[..k];
  }

  /** A conflict dominates an unknown, and an unknown dominates a proof. */
  method MergeInto(merged: ClassResult, partial: ClassResult, bound: nat) returns (result: ClassResult)
    requires merged.klass == FAILURE_DOMAIN_DISJOINT
    ensures result == Merge(merged, partial, bound)
    ensures result.klass == FAILURE_DOMAIN_DISJOINT
  {
    result := AddConflicts(merged, partial.shared, bound);
    AddAllKeepsClass(merged, partial.shared, bound);
    if !partial.evidenceComplete {
      result := result.(evidenceComplete := false);
    }
    if partial.outcome == NOT_DIVERSE {
      result := result.(outcome := NOT_DIVERSE);
    } else if partial.outcome == UNKNOWN_INCOMPLETE_EVIDENCE && merged.outcome != NOT_DIVERSE {
      result := result.(outcome := UNKNOWN_INCOMPLETE_EVIDENCE);
    }
  }

  lemma {:induction false} AddAllKeepsClass(result: ClassResult, conflicts: seq<SharedResource>, bound: nat)
    ensures AddAll(result, conflicts, bound).klass == result.klass
    ensures AddAll(result, conflicts, bound).outcome == result.outcome
    ensures AddAll(result, conflicts, bound).evidenceComplete == result.evidenceComplete
    decreases |conflicts|
  {
    if conflicts != [] {
      AddAllKeepsClass(result, conflicts[..|conflicts| - 1], bound);
    }
  }

  // ----- One class, one pair ---------------------------------------------------------------

  ghost function ClassRiskGroups(klass: DiversityClass, l: PathComposition, r: PathComposition,
                                 facts: Facts): set<string>
  {
    if klass == SHARED_RISK_GROUP_DISJOINT then PairRiskGroups(l, r, facts) else {}
  }

  /** `evaluate_single_class`. */
  method SingleClass(views: Views, klass: DiversityClass, l: PathComposition, r: PathComposition, p: Policy, bound: nat,
                     ghost facts: Facts)
    returns (result: ClassResult, domains: seq<string>, groups: seq<string>)
    requires l.Canonical() && r.Canonical()
    modifies views`now
    ensures views.now >= old(views.now)
    ensures result.klass == klass
    ensures views.Steady(old(views.now), views.now, facts) ==>
              && result == ClassOf(klass, l, r, p, facts, bound)
              && Elements(domains) == PairDomains(l, r, RelationsOf(klass, p), facts)
              && Elements(groups) == ClassRiskGroups(klass, l, r, facts)
  {
    domains, groups := [], [];
    if klass == SHARED_RISK_GROUP_DISJOINT {
      result, groups := RiskGroupClass(views, l, r, p, bound, facts);
    } else if klass == RACK_DISJOINT {
      result, domains := DomainRelationClass(views, klass, l, r, RACK, bound, facts);
    } else if klass == POD_DISJOINT {
      result, domains := DomainRelationClass(views, klass, l, r, POD, bound, facts);
    } else if klass == SITE_DISJOINT {
      result, domains := DomainRelationClass(views, klass, l, r, SITE, bound, facts);
    } else if klass == FAILURE_DOMAIN_DISJOINT {
      result, domains := FailureDomainClass(views, l, r, p, bound, facts);
    } else {
      result := StructuralClass(klass, l, r, p, bound, facts);
      ClassVerdict(klass, l, r, p, facts, bound);
    }
  }
}
