/**
 * Pairwise classification.  The reference verdict of a diversity class is stated
 * over sets: what the two paths share, and whether the evidence consulted is
 * complete.  The theorems below tie the three-valued result records to it.
 */
module PairClasses {
  import opened Ordering
  import opened Evidence

  // ----- What a pair shares ------------------------------------------------------

  ghost function Nodes(c: PathComposition): set<string> {
    Elements(c.transitNodes) + Elements(c.sources) + Elements(c.destinations)
  }

  ghost function Endpoints(c: PathComposition): set<string> {
    Elements(c.sources) + Elements(c.destinations)
  }

  /** Endpoint nodes the policy exempts from node sharing. */
  ghost function Exempt(l: PathComposition, r: PathComposition, exemption: EndpointExemption): set<string> {
    match exemption
    case NONE => {}
    case SHARED_SOURCE_AND_DESTINATION =>
      Elements(l.sources) * Elements(r.sources) + Elements(l.destinations) * Elements(r.destinations)
    case SHARED_SOURCE_ONLY => Elements(l.sources) * Elements(r.sources)
    case SHARED_DESTINATION_ONLY => Elements(l.destinations) * Elements(r.destinations)
    case ANY_ENDPOINT => Endpoints(l) * Endpoints(r)
  }

  function Tag(kind: EntityKind, ids: seq<string>): seq<EntityRef> {
    seq(|ids|, i requires 0 <= i < |ids| => EntityRef(kind, ids[i]))
  }

  /** All that can fail together with another path: links, nodes, endpoints and devices. */
  function Entities(c: PathComposition): seq<EntityRef> {
    Tag(LINK, c.links) + Tag(NODE, c.transitNodes) + Tag(ENDPOINT, c.sources)
    + Tag(ENDPOINT, c.destinations) + Tag(DEVICE, c.devices)
  }

  ghost function DomainsOf(facts: Facts, entities: seq<EntityRef>, relation: DomainRelation): set<string> {
    set e, d | e in entities && d in facts.DomainMembership(e, relation).members :: d
  }

  ghost predicate DomainsComplete(facts: Facts, entities: seq<EntityRef>, relation: DomainRelation) {
    forall e | e in entities :: facts.DomainMembership(e, relation).coverage == COMPLETE
  }

  ghost function RiskGroupsOf(facts: Facts, entities: seq<EntityRef>): set<string> {
    set e, d | e in entities && d in facts.RiskGroupMembership(e).members :: d
  }

  ghost predicate RiskGroupsComplete(facts: Facts, entities: seq<EntityRef>) {
    forall e | e in entities :: facts.RiskGroupMembership(e).coverage == COMPLETE
  }

  /** Which relations decide a class that is backed by domains. */
  function RelationsOf(klass: DiversityClass, p: Policy): seq<DomainRelation> {
    match klass
    case RACK_DISJOINT => [RACK]
    case POD_DISJOINT => [POD]
    case SITE_DISJOINT => [SITE]
    case FAILURE_DOMAIN_DISJOINT => p.relations
    case _ => []
  }

  predicate DomainBacked(klass: DiversityClass) {
    klass in {RACK_DISJOINT, POD_DISJOINT, SITE_DISJOINT, FAILURE_DOMAIN_DISJOINT}
  }

  ghost function SharedDomains(facts: Facts, l: PathComposition, r: PathComposition,
                               relation: DomainRelation): set<string>
  {
    DomainsOf(facts, Entities(l), relation) * DomainsOf(facts, Entities(r), relation)
  }

  ghost function StructuralShared(klass: DiversityClass, l: PathComposition, r: PathComposition,
                                  p: Policy): set<string>
  {
    match klass
    case LINK_DISJOINT => Elements(l.links) * Elements(r.links)
    case TRANSIT_NODE_DISJOINT => Nodes(l) * Nodes(r) - Exempt(l, r, p.endpointExemption)
    case DEVICE_DISJOINT => Elements(l.devices) * Elements(r.devices)
    case _ => {}
  }

  /** The pair shares something the class forbids, under any relation the class declares. */
  ghost predicate Shares(klass: DiversityClass, l: PathComposition, r: PathComposition, p: Policy, facts: Facts) {
    if DomainBacked(klass) then
      exists relation | relation in RelationsOf(klass, p) :: SharedDomains(facts, l, r, relation) != {}
    else if klass == SHARED_RISK_GROUP_DISJOINT then
      RiskGroupsOf(facts, Entities(l)) * RiskGroupsOf(facts, Entities(r)) != {}
    else
      StructuralShared(klass, l, r, p) != {}
  }

  /** The evidence the class consults is COMPLETE for both paths. */
  ghost predicate Complete(klass: DiversityClass, l: PathComposition, r: PathComposition, p: Policy, facts: Facts) {
    match klass
    case LINK_DISJOINT => l.linkCoverage == COMPLETE && r.linkCoverage == COMPLETE
    case TRANSIT_NODE_DISJOINT =>
      && l.nodeCoverage == COMPLETE && r.nodeCoverage == COMPLETE
      && l.endpointCoverage == COMPLETE && r.endpointCoverage == COMPLETE
    case DEVICE_DISJOINT => l.deviceCoverage == COMPLETE && r.deviceCoverage == COMPLETE
    case SHARED_RISK_GROUP_DISJOINT =>
      RiskGroupsComplete(facts, Entities(l)) && RiskGroupsComplete(facts, Entities(r))
    case _ =>
      && RelationsOf(klass, p) != []
      && forall relation | relation in RelationsOf(klass, p) ::
           DomainsComplete(facts, Entities(l), relation) && DomainsComplete(facts, Entities(r), relation)
  }

  /** The verdict a class result has to carry. */
  ghost function Verdict(shares: bool, complete: bool): Outcome {
    if shares then NOT_DIVERSE else if complete then PROVEN_DIVERSE else UNKNOWN_INCOMPLETE_EVIDENCE
  }

  // ----- Class results -------------------------------------------------------------

  function MakeConflict(kind: ConflictClass, relation: DomainRelation, id: string): SharedResource {
    SharedResource(kind, relation, id, [0, 1])
  }

  function MakeConflicts(kind: ConflictClass, relation: DomainRelation, ids: seq<string>): seq<SharedResource> {
    seq(|ids|, i requires 0 <= i < |ids| => MakeConflict(kind, relation, ids[i]))
  }

  /** The list is bounded, the total is not. */
  function AddShared(result: ClassResult, conflict: SharedResource, bound: nat): ClassResult {
    if |result.shared| < bound
    then result.(sharedTotal := result.sharedTotal + 1, shared := SortConflicts(result.shared + [conflict]))
    else result.(sharedTotal := result.sharedTotal + 1)
  }

  function AddAll(result: ClassResult, conflicts: seq<SharedResource>, bound: nat): ClassResult
    decreases |conflicts|
  {
    if conflicts == [] then result
    else AddShared(AddAll(result, conflicts[..|conflicts| - 1], bound), conflicts[|conflicts| - 1], bound)
  }

  ghost function Decided(klass: DiversityClass, complete: bool, shared: set<string>, kind: ConflictClass,
                         relation: DomainRelation, bound: nat): ClassResult {
    AddAll(ClassResult(klass, Verdict(shared != {}, complete), complete, [], 0, ""),
           MakeConflicts(kind, relation, Ascending(shared)), bound)
  }

  function KindOf(relation: DomainRelation): ConflictClass {
    match relation
    case FAILURE_DOMAIN => SHARED_FAILURE_DOMAIN
    case RACK => SHARED_RACK
    case POD => SHARED_POD
    case SITE => SHARED_SITE
    case POWER_DOMAIN => SHARED_POWER_DOMAIN
    case CONDUIT => SHARED_CONDUIT
    case COOLING => SHARED_COOLING
  }

  ghost function RelationResult(klass: DiversityClass, l: PathComposition, r: PathComposition,
                                relation: DomainRelation, facts: Facts, bound: nat): ClassResult {
    Decided(klass,
            DomainsComplete(facts, Entities(l), relation) && DomainsComplete(facts, Entities(r), relation),
            SharedDomains(facts, l, r, relation), KindOf(relation), relation, bound)
  }

  /** Folds one more relation into the merged class: a conflict dominates, then an unknown. */
  function Merge(merged: ClassResult, partial: ClassResult, bound: nat): ClassResult {
    var added := AddAll(merged, partial.shared, bound);
    added.(evidenceComplete := merged.evidenceComplete && partial.evidenceComplete,
           outcome := if partial.outcome == NOT_DIVERSE then NOT_DIVERSE
                      else if partial.outcome == UNKNOWN_INCOMPLETE_EVIDENCE && merged.outcome != NOT_DIVERSE
                      then UNKNOWN_INCOMPLETE_EVIDENCE
                      else merged.outcome)
  }

  ghost function MergeRelations(relations: seq<DomainRelation>, l: PathComposition, r: PathComposition,
                                facts: Facts, bound: nat): ClassResult
    decreases |relations|
  {
    if relations == [] then ClassResult(FAILURE_DOMAIN_DISJOINT, PROVEN_DIVERSE, true, [], 0, "")
    else
      var last := |relations| - 1;
      Merge(MergeRelations(relations[..last], l, r, facts, bound),
            RelationResult(FAILURE_DOMAIN_DISJOINT, l, r, relations[last], facts, bound), bound)
  }

  /** `evaluate_single_class` at one instant. */
  ghost function ClassOf(klass: DiversityClass, l: PathComposition, r: PathComposition, p: Policy,
                         facts: Facts, bound: nat): ClassResult {
    match klass
    case LINK_DISJOINT =>
      Decided(klass, Complete(klass, l, r, p, facts), StructuralShared(klass, l, r, p), SHARED_LINK, FAILURE_DOMAIN,
              bound)
    case TRANSIT_NODE_DISJOINT =>
      Decided(klass, Complete(klass, l, r, p, facts), StructuralShared(klass, l, r, p), SHARED_TRANSIT_NODE,
              FAILURE_DOMAIN, bound)
    case DEVICE_DISJOINT =>
      Decided(klass, Complete(klass, l, r, p, facts), StructuralShared(klass, l, r, p), SHARED_DEVICE, FAILURE_DOMAIN,
              bound)
    case SHARED_RISK_GROUP_DISJOINT =>
      Decided(klass, Complete(klass, l, r, p, facts),
              RiskGroupsOf(facts, Entities(l)) * RiskGroupsOf(facts, Entities(r)), SHARED_RISK_GROUP, FAILURE_DOMAIN,
                  bound)
    case RACK_DISJOINT => RelationResult(klass, l, r, RACK, facts, bound)
    case POD_DISJOINT => RelationResult(klass, l, r, POD, facts, bound)
    case SITE_DISJOINT => RelationResult(klass, l, r, SITE, facts, bound)
    case FAILURE_DOMAIN_DISJOINT =>
      if p.relations == [] then ClassResult(klass, UNKNOWN_INCOMPLETE_EVIDENCE, false, [], 0, "")
      else
        var merged := MergeRelations(p.relations, l, r, facts, bound);
        merged.(shared := SortConflicts(merged.shared))
  }

  // ----- Theorems --------------------------------------------------------------------

  lemma SortKeepsSize(s: seq<SharedResource>)
    ensures |SortConflicts(s)| == |s|
    ensures forall c :: c in SortConflicts(s) <==> c in s
  {
    assert |multiset(SortConflicts(s))| == |multiset(s)|;
    forall c
      ensures c in SortConflicts(s) <==> c in s
    {
      assert c in multiset(SortConflicts(s)) <==> c in multiset(s);
    }
  }

  /** Adding conflicts only touches the list and its total, and bounds the list. */
  lemma {:induction false} AddAllEffect(result: ClassResult, conflicts: seq<SharedResource>, bound: nat)
    requires |result.shared| <= bound && |result.shared| <= result.sharedTotal
    ensures var added := AddAll(result, conflicts, bound);
            && added.klass == result.klass && added.outcome == result.outcome
            && added.evidenceComplete == result.evidenceComplete && added.detail == result.detail
            && added.sharedTotal == result.sharedTotal + |conflicts|
            && |added.shared| == (if |result.shared| + |conflicts| <= bound then |result.shared| + |conflicts|
                                  else bound)
            && (forall c | c in added.shared :: c in result.shared || c in conflicts)
    decreases |conflicts|
  {
    if conflicts != [] {
      var last := |conflicts| - 1;
      AddAllEffect(result, conflicts[..last], bound);
      var before := AddAll(result, conflicts[..last], bound);
      SortKeepsSize(before.shared + [conflicts[last]]);
    }
  }

  /** The list is bounded, counted, and non-empty only for a conflict. */
  ghost predicate ListsOnly(result: ClassResult, bound: nat) {
    && |result.shared| <= bound
    && |result.shared| <= result.sharedTotal
    && (result.outcome != NOT_DIVERSE ==> result.shared == [] && result.sharedTotal == 0)
    && (result.outcome == NOT_DIVERSE && bound > 0 ==> result.shared != [])
    && (forall c | c in result.shared :: c.paths == [0, 1])
  }

  /** A class result that carries the verdict of what it looked at. */
  ghost predicate Carries(result: ClassResult, klass: DiversityClass, shares: bool, complete: bool, bound: nat) {
    && result.klass == klass
    && result.outcome == Verdict(shares, complete)
    && result.evidenceComplete == complete
    && ListsOnly(result, bound)
  }

  lemma MadeConflicts(kind: ConflictClass, relation: DomainRelation, shared: set<string>)
    ensures |MakeConflicts(kind, relation, Ascending(shared))| == |shared|
    ensures forall c | c in MakeConflicts(kind, relation, Ascending(shared)) ::
              c.kind == kind && c.relation == relation && c.id in shared && c.paths == [0, 1]
  {
    var ids := Ascending(shared);
    AscendingSize(ids);
    forall c | c in MakeConflicts(kind, relation, ids)
      ensures c.kind == kind && c.relation == relation && c.id in shared && c.paths == [0, 1]
    {
      var i :| 0 <= i < |ids| && MakeConflict(kind, relation, ids[i]) == c;
      assert ids[i] in Elements(ids);
    }
  }

  lemma DecidedMeaning(klass: DiversityClass, complete: bool, shared: set<string>, kind: ConflictClass,
                       relation: DomainRelation, bound: nat)
    ensures Carries(Decided(klass, complete, shared, kind, relation, bound), klass, shared != {}, complete, bound)
    ensures Decided(klass, complete, shared, kind, relation, bound).sharedTotal == |shared|
    ensures forall c | c in Decided(klass, complete, shared, kind, relation, bound).shared ::
              c.kind == kind && c.relation == relation && c.id in shared && c.paths == [0, 1]
  {
    var blank := ClassResult(klass, Verdict(shared != {}, complete), complete, [], 0, "");
    var conflicts := MakeConflicts(kind, relation, Ascending(shared));
    MadeConflicts(kind, relation, shared);
    AddAllEffect(blank, conflicts, bound);
    var added := AddAll(blank, conflicts, bound);
    assert |conflicts| > 0 <==> shared != {};
    assert forall c | c in added.shared :: c in conflicts;
  }

  lemma {:induction false} AscendingSize(s: seq<string>)
    requires StrictlyAscending(s)
    ensures |Elements(s)| == |s|
  {
    if s != [] {
      AscendingSize(s[1..]);
      forall x
        ensures x in Elements(s[1..]) <==> x in Elements(s) && x != s[0]
      {
        AscendingTail(s, x);
      }
      assert Elements(s) == Elements(s[1..]) + {s[0]};
    }
  }

  ghost predicate SharesUnder(relations: seq<DomainRelation>, l: PathComposition, r: PathComposition, facts: Facts) {
    exists relation | relation in relations :: SharedDomains(facts, l, r, relation) != {}
  }

  ghost predicate PairComplete(l: PathComposition, r: PathComposition, facts: Facts, relation: DomainRelation) {
    DomainsComplete(facts, Entities(l), relation) && DomainsComplete(facts, Entities(r), relation)
  }

  ghost predicate CompleteUnder(relations: seq<DomainRelation>, l: PathComposition, r: PathComposition, facts: Facts) {
    forall relation | relation in relations :: PairComplete(l, r, facts, relation)
  }

  lemma RelationMeaning(klass: DiversityClass, l: PathComposition, r: PathComposition, relation: DomainRelation,
                        facts: Facts, bound: nat)
    ensures Carries(RelationResult(klass, l, r, relation, facts, bound), klass,
                    SharedDomains(facts, l, r, relation) != {}, PairComplete(l, r, facts, relation), bound)
  {
    DecidedMeaning(klass, PairComplete(l, r, facts, relation), SharedDomains(facts, l, r, relation),
                   KindOf(relation), relation, bound);
  }

  lemma MergeStep(merged: ClassResult, partial: ClassResult, shares: bool, complete: bool,
                  shares': bool, complete': bool, bound: nat)
    requires Carries(merged, FAILURE_DOMAIN_DISJOINT, shares, complete, bound)
    requires Carries(partial, FAILURE_DOMAIN_DISJOINT, shares', complete', bound)
    ensures Carries(Merge(merged, partial, bound), FAILURE_DOMAIN_DISJOINT,
                    shares || shares', complete && complete', bound)
  {
    AddAllEffect(merged, partial.shared, bound);
  }

  lemma {:induction false} MergeMeaning(relations: seq<DomainRelation>, l: PathComposition, r: PathComposition,
                                        facts: Facts, bound: nat)
    ensures Carries(MergeRelations(relations, l, r, facts, bound), FAILURE_DOMAIN_DISJOINT,
                    SharesUnder(relations, l, r, facts), CompleteUnder(relations, l, r, facts), bound)
    decreases |relations|
  {
    if relations != [] {
      var front, relation := relations[..|relations| - 1], relations[|relations| - 1];
      MergeMeaning(front, l, r, facts, bound);
      RelationMeaning(FAILURE_DOMAIN_DISJOINT, l, r, relation, facts, bound);
      SplitRelations(front, relation, l, r, facts);
      assert relations == front + [relation];
      MergeStep(MergeRelations(front, l, r, facts, bound),
                RelationResult(FAILURE_DOMAIN_DISJOINT, l, r, relation, facts, bound),
                SharesUnder(front, l, r, facts), CompleteUnder(front, l, r, facts),
                SharedDomains(facts, l, r, relation) != {}, PairComplete(l, r, facts, relation), bound);
    }
  }

  lemma SplitRelations(front: seq<DomainRelation>, relation: DomainRelation, l: PathComposition, r: PathComposition,
                       facts: Facts)
    ensures SharesUnder(front + [relation], l, r, facts) <==>
              SharesUnder(front, l, r, facts) || SharedDomains(facts, l, r, relation) != {}
    ensures CompleteUnder(front + [relation], l, r, facts) <==>
              CompleteUnder(front, l, r, facts) && PairComplete(l, r, facts, relation)
  {
    assert relation in front + [relation];
    assert forall x | x in front :: x in front + [relation];
  }

  /**
   * The three-valued result of every class is the declarative verdict: a conflict
   * exactly when something is shared, a proof exactly when nothing is shared and
   * every consulted entry is COMPLETE.
   */
  lemma ClassVerdict(klass: DiversityClass, l: PathComposition, r: PathComposition, p: Policy, facts: Facts, bound: nat)
    ensures Carries(ClassOf(klass, l, r, p, facts, bound), klass,
                    Shares(klass, l, r, p, facts), Complete(klass, l, r, p, facts), bound)
  {
    if DomainBacked(klass) {
      DomainClassVerdict(klass, l, r, p, facts, bound);
    } else if klass == SHARED_RISK_GROUP_DISJOINT {
      DecidedMeaning(klass, Complete(klass, l, r, p, facts),
                     RiskGroupsOf(facts, Entities(l)) * RiskGroupsOf(facts, Entities(r)), SHARED_RISK_GROUP,
                         FAILURE_DOMAIN, bound);
    } else {
      var kind := if klass == LINK_DISJOINT then SHARED_LINK
                  else if klass == TRANSIT_NODE_DISJOINT then SHARED_TRANSIT_NODE else SHARED_DEVICE;
      DecidedMeaning(klass, Complete(klass, l, r, p, facts), StructuralShared(klass, l, r, p), kind, FAILURE_DOMAIN,
                     bound);
    }
  }

  lemma DomainClassVerdict(klass: DiversityClass, l: PathComposition, r: PathComposition, p: Policy, facts: Facts,
                           bound: nat)
    requires DomainBacked(klass)
    ensures Shares(klass, l, r, p, facts) <==> SharesUnder(RelationsOf(klass, p), l, r, facts)
    ensures Carries(ClassOf(klass, l, r, p, facts, bound), klass,
                    Shares(klass, l, r, p, facts), Complete(klass, l, r, p, facts), bound)
  {
    if klass == FAILURE_DOMAIN_DISJOINT {
      if p.relations != [] {
        MergeMeaning(p.relations, l, r, facts, bound);
        SortKeepsSize(MergeRelations(p.relations, l, r, facts, bound).shared);
      }
    } else {
      var relation := RelationsOf(klass, p)[0];
      RelationMeaning(klass, l, r, relation, facts, bound);
      SplitRelations([], relation, l, r, facts);
      assert RelationsOf(klass, p) == [] + [relation];
    }
  }

  // ----- Listed conflicts --------------------------------------------------------------

  /** The pair shares this domain under the relation the conflict names. */
  ghost predicate SharedUnder(c: SharedResource, relations: seq<DomainRelation>, l: PathComposition, r: PathComposition,
                              facts: Facts)
  {
    && c.relation in relations
    && c.kind == KindOf(c.relation)
    && c.id in SharedDomains(facts, l, r, c.relation)
  }

  /** The conflict names a resource the pair does share and the class does forbid. */
  ghost predicate Genuine(c: SharedResource, klass: DiversityClass, l: PathComposition, r: PathComposition, p: Policy,
                          facts: Facts)
  {
    match klass
    case LINK_DISJOINT => c.kind == SHARED_LINK && c.id in StructuralShared(klass, l, r, p)
    case TRANSIT_NODE_DISJOINT => c.kind == SHARED_TRANSIT_NODE && c.id in StructuralShared(klass, l, r, p)
    case DEVICE_DISJOINT => c.kind == SHARED_DEVICE && c.id in StructuralShared(klass, l, r, p)
    case SHARED_RISK_GROUP_DISJOINT =>
      c.kind == SHARED_RISK_GROUP && c.id in RiskGroupsOf(facts, Entities(l)) * RiskGroupsOf(facts, Entities(r))
    case _ => SharedUnder(c, RelationsOf(klass, p), l, r, facts)
  }

  lemma {:induction false} MergedConflictsAreShared(relations: seq<DomainRelation>, l: PathComposition,
                                                    r: PathComposition,
                                                    facts: Facts, bound: nat)
    ensures forall c | c in MergeRelations(relations, l, r, facts, bound).shared ::
              SharedUnder(c, relations, l, r, facts)
    decreases |relations|
  {
    if relations != [] {
      var front, relation := relations[..|relations| - 1], relations[|relations| - 1];
      var merged := MergeRelations(front, l, r, facts, bound);
      var partial := RelationResult(FAILURE_DOMAIN_DISJOINT, l, r, relation, facts, bound);
      MergedConflictsAreShared(front, l, r, facts, bound);
      MergeMeaning(front, l, r, facts, bound);
      DecidedMeaning(FAILURE_DOMAIN_DISJOINT, PairComplete(l, r, facts, relation), SharedDomains(facts, l, r, relation),
                     KindOf(relation), relation, bound);
      AddAllEffect(merged, partial.shared, bound);
      assert relation in relations && forall x | x in front :: x in relations;
    }
  }

  /** No class ever lists a conflict that is not there. */
  lemma ConflictsAreGenuine(klass: DiversityClass, l: PathComposition, r: PathComposition, p: Policy, facts: Facts,
                            bound: nat)
    ensures forall c | c in ClassOf(klass, l, r, p, facts, bound).shared :: Genuine(c, klass, l, r, p, facts)
  {
    var complete := Complete(klass, l, r, p, facts);
    match klass
    case LINK_DISJOINT =>
      DecidedMeaning(klass, complete, StructuralShared(klass, l, r, p), SHARED_LINK, FAILURE_DOMAIN, bound);
    case TRANSIT_NODE_DISJOINT =>
      DecidedMeaning(klass, complete, StructuralShared(klass, l, r, p), SHARED_TRANSIT_NODE, FAILURE_DOMAIN, bound);
    case DEVICE_DISJOINT =>
      DecidedMeaning(klass, complete, StructuralShared(klass, l, r, p), SHARED_DEVICE, FAILURE_DOMAIN, bound);
    case SHARED_RISK_GROUP_DISJOINT =>
      DecidedMeaning(klass, complete, RiskGroupsOf(facts, Entities(l)) * RiskGroupsOf(facts, Entities(r)),
                     SHARED_RISK_GROUP, FAILURE_DOMAIN, bound);
    case FAILURE_DOMAIN_DISJOINT =>
      if p.relations != [] {
        MergedConflictsAreShared(p.relations, l, r, facts, bound);
        SortKeepsSize(MergeRelations(p.relations, l, r, facts, bound).shared);
      }
    case _ =>
      var relation := RelationsOf(klass, p)[0];
      DecidedMeaning(klass, PairComplete(l, r, facts, relation), SharedDomains(facts, l, r, relation),
                     KindOf(relation), relation, bound);
  }

  // ----- Refinement of evidence --------------------------------------------------------

  /** A COMPLETE entry is final; any other entry may gain members and coverage. */
  ghost predicate RefinesMembership(coarse: Membership, fine: Membership) {
    && (coarse.coverage == COMPLETE ==> fine.coverage == COMPLETE && Elements(fine.members) == Elements(coarse.members))
    && Elements(coarse.members) <= Elements(fine.members)
  }

  /** Later failure-domain evidence over the same structure. */
  ghost predicate Refines(coarse: Facts, fine: Facts) {
    && fine.topologyGeneration == coarse.topologyGeneration
    && fine.compositions == coarse.compositions
    && (forall e, relation :: RefinesMembership(coarse.DomainMembership(e, relation),
                                                fine.DomainMembership(e, relation)))
    && (forall e :: RefinesMembership(coarse.RiskGroupMembership(e), fine.RiskGroupMembership(e)))
  }

  lemma DomainsGrow(coarse: Facts, fine: Facts, entities: seq<EntityRef>, relation: DomainRelation)
    requires Refines(coarse, fine)
    ensures DomainsOf(coarse, entities, relation) <= DomainsOf(fine, entities, relation)
    ensures DomainsComplete(coarse, entities, relation) ==> DomainsComplete(fine, entities, relation)
    ensures DomainsComplete(coarse, entities, relation) ==>
              DomainsOf(coarse, entities, relation) == DomainsOf(fine, entities, relation)
  {
    forall d | d in DomainsOf(coarse, entities, relation)
      ensures d in DomainsOf(fine, entities, relation)
    {
      var e :| e in entities && d in coarse.DomainMembership(e, relation).members;
      assert RefinesMembership(coarse.DomainMembership(e, relation), fine.DomainMembership(e, relation));
      assert d in Elements(coarse.DomainMembership(e, relation).members);
    }
    if DomainsComplete(coarse, entities, relation) {
      forall e | e in entities
        ensures fine.DomainMembership(e, relation).coverage == COMPLETE
      {
        assert RefinesMembership(coarse.DomainMembership(e, relation), fine.DomainMembership(e, relation));
      }
      forall d | d in DomainsOf(fine, entities, relation)
        ensures d in DomainsOf(coarse, entities, relation)
      {
        var e :| e in entities && d in fine.DomainMembership(e, relation).members;
        assert RefinesMembership(coarse.DomainMembership(e, relation), fine.DomainMembership(e, relation));
        assert d in Elements(fine.DomainMembership(e, relation).members);
      }
    }
  }

  lemma RiskGroupsGrow(coarse: Facts, fine: Facts, entities: seq<EntityRef>)
    requires Refines(coarse, fine)
    ensures RiskGroupsOf(coarse, entities) <= RiskGroupsOf(fine, entities)
    ensures RiskGroupsComplete(coarse, entities) ==> RiskGroupsComplete(fine, entities)
    ensures RiskGroupsComplete(coarse, entities) ==> RiskGroupsOf(coarse, entities) == RiskGroupsOf(fine, entities)
  {
    forall d | d in RiskGroupsOf(coarse, entities)
      ensures d in RiskGroupsOf(fine, entities)
    {
      var e :| e in entities && d in coarse.RiskGroupMembership(e).members;
      assert RefinesMembership(coarse.RiskGroupMembership(e), fine.RiskGroupMembership(e));
      assert d in Elements(coarse.RiskGroupMembership(e).members);
    }
    if RiskGroupsComplete(coarse, entities) {
      forall e | e in entities
        ensures fine.RiskGroupMembership(e).coverage == COMPLETE
      {
        assert RefinesMembership(coarse.RiskGroupMembership(e), fine.RiskGroupMembership(e));
      }
      forall d | d in RiskGroupsOf(fine, entities)
        ensures d in RiskGroupsOf(coarse, entities)
      {
        var e :| e in entities && d in fine.RiskGroupMembership(e).members;
        assert RefinesMembership(coarse.RiskGroupMembership(e), fine.RiskGroupMembership(e));
        assert d in Elements(fine.RiskGroupMembership(e).members);
      }
    }
  }

  /** A decisive class verdict survives every refinement of the evidence. */
  lemma ClassNoRetraction(klass: DiversityClass, l: PathComposition, r: PathComposition, p: Policy,
                          coarse: Facts, fine: Facts, bound: nat)
    requires Refines(coarse, fine)
    ensures ClassOf(klass, l, r, p, coarse, bound).outcome == PROVEN_DIVERSE ==>
              ClassOf(klass, l, r, p, fine, bound).outcome == PROVEN_DIVERSE
    ensures ClassOf(klass, l, r, p, coarse, bound).outcome == NOT_DIVERSE ==>
              ClassOf(klass, l, r, p, fine, bound).outcome == NOT_DIVERSE
  {
    ClassVerdict(klass, l, r, p, coarse, bound);
    ClassVerdict(klass, l, r, p, fine, bound);
    if DomainBacked(klass) {
      forall relation
        ensures SharedDomains(coarse, l, r, relation) <= SharedDomains(fine, l, r, relation)
        ensures DomainsComplete(coarse, Entities(l), relation) && DomainsComplete(coarse, Entities(r), relation) ==>
                  && DomainsComplete(fine, Entities(l), relation) && DomainsComplete(fine, Entities(r), relation)
                  && SharedDomains(coarse, l, r, relation) == SharedDomains(fine, l, r, relation)
      {
        DomainsGrow(coarse, fine, Entities(l), relation);
        DomainsGrow(coarse, fine, Entities(r), relation);
      }
    } else if klass == SHARED_RISK_GROUP_DISJOINT {
      RiskGroupsGrow(coarse, fine, Entities(l));
      RiskGroupsGrow(coarse, fine, Entities(r));
    }
  }
}
