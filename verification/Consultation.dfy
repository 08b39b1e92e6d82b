/**
 * What an evaluation consulted, and how much of it the revision lists: the lists are cut
 * to max_domain_evidence_entries, so the domain index answers for all of it exactly when
 * it fits, and a demotion reaches the proof exactly through what the index answers for.
 */
module Consultation {
  import opened Ordering
  import opened Evidence
  import opened PairClasses
  import opened Evaluator
  import opened Verdicts
  import opened Registry
  import opened Invalidation
  import opened Samples
  import L = Lifecycle
  import A = Authority

  // ----- Lists that are cut -----------------------------------------------------------------

  /** The names that come before this one. */
  ghost function Before(names: set<string>, name: string): set<string> {
    set other | other in names && Less(other, name)
  }

  lemma {:induction false} AscendingSize(s: seq<string>)
    requires StrictlyAscending(s)
    ensures |Elements(s)| == |s|
  {
    if s != [] {
      var front, last := s[..|s| - 1], s[|s| - 1];
      AscendingSize(front);
      NotInPrefix(s, |s| - 1, last);
      assert s == front + [last] && Elements(s) == Elements(front) + {last};
    }
  }

  /** An element is listed after as many others as come before it. */
  lemma RankInAscending(s: seq<string>, k: nat)
    requires StrictlyAscending(s) && k < |s|
    ensures |Before(Elements(s), s[k])| == k
  {
    forall name
      ensures name in Before(Elements(s), s[k]) <==> name in Elements(s[..k])
    {
      if name in Before(Elements(s), s[k]) {
        var i :| 0 <= i < |s| && s[i] == name;
        if i >= k {
          LessIrreflexive(s[k]);
          if i > k {
            LessAsymmetric(s[k], s[i]);
          }
          assert false;
        }
        assert s[..k][i] == name;
      }
    }
    assert Before(Elements(s), s[k]) == Elements(s[..k]);
    AscendingSize(s[..k]);
  }

  /** The list holds the first names, as many as the bound allows, and so all of them exactly if they are no more. */
  ghost predicate Lists(listed: seq<string>, names: set<string>, bound: nat) {
    && (forall name :: name in listed <==> name in names && |Before(names, name)| < bound)
    && ((forall name | name in names :: name in listed) <==> |names| <= bound)
  }

  lemma BoundedLists(names: set<string>, bound: nat)
    ensures Lists(Bounded(Ascending(names), bound), names, bound)
  {
    var s, listed := Ascending(names), Bounded(Ascending(names), bound);
    AscendingSize(s);
    forall name
      ensures name in listed <==> name in names && |Before(names, name)| < bound
    {
      if name in names {
        var k :| 0 <= k < |s| && s[k] == name;
        RankInAscending(s, k);
        assert k < bound ==> listed[k] == name;
        NotInPrefix(s, k, name);
        assert k >= bound ==> name !in listed by {
          assert k >= bound ==> forall i | 0 <= i < |listed| :: listed[i] == s[..k][i];
        }
      }
    }
    if |names| > bound {
      RankInAscending(s, bound);
      assert s[bound] in names && s[bound] !in listed;
    }
  }

  /** The domains and groups consulted at this instant under this policy. */
  ghost function DomainsAsked(request: Request, policy: Policy, facts: Facts): set<string> {
    AllDomains(Structures(request, facts), CanonicalPolicy(policy), facts)
  }

  ghost function GroupsAsked(request: Request, facts: Facts): set<string> {
    AllRiskGroups(Structures(request, facts), facts)
  }

  /**
   * An evaluation lists the first domains and the first groups of those it consulted, up
   * to the bound: all of them if and only if they are no more than that.
   */
  lemma EvaluationListsConsulted(request: Request, policy: Policy, snap: Snapshot, limits: Limits)
    requires ReachesMatrix(request, policy, snap, limits)
    ensures var consulted := Evaluate(request, policy, snap, limits).consulted;
            && Lists(consulted.domains, DomainsAsked(request, policy, snap.facts), limits.maxDomainEvidenceEntries)
            && Lists(consulted.riskGroups, GroupsAsked(request, snap.facts), limits.maxDomainEvidenceEntries)
  {
    EvaluateIsBody(request, policy, snap, limits);
    BoundedLists(DomainsAsked(request, policy, snap.facts), limits.maxDomainEvidenceEntries);
    BoundedLists(GroupsAsked(request, snap.facts), limits.maxDomainEvidenceEntries);
  }

  // ----- What a demotion reaches ------------------------------------------------------------------

  /** The proof is filed under all these names. */
  ghost predicate FoundUnder(m: Index<string>, id: ProofId, names: set<string>) {
    forall name | name in names :: id in Lookup(m, name)
  }

  /** A demotion that names one of these domains, at a generation above the proof's, demotes it. */
  ghost predicate Reached(r: Registry, id: ProofId, names: set<string>, domains: seq<string>, generation: nat)
    requires id in r.proofs
  {
    (exists name :: name in names && name in domains)
    && r.proofs[id].current.dependencies.domainGeneration < generation
    ==> !DemoteDomains(r, domains, generation).registry.IsCurrent(id)
  }

  ghost predicate AlwaysReached(r: Registry, id: ProofId, names: set<string>)
    requires id in r.proofs
  {
    forall domains, generation: nat :: Reached(r, id, names, domains, generation)
  }

  lemma DemotedIffIndexed(r: Registry, id: ProofId, domains: seq<string>, generation: nat)
    requires r.IsCurrent(id)
    ensures DemoteDomains(r, domains, generation).registry.IsCurrent(id)
            <==> id !in LookupAny(r.index.byDomain, domains)
                 || r.proofs[id].current.dependencies.domainGeneration >= generation
  {
    DemoteIdsExactly(r, DemoteDomains(r, domains, generation).affected, L.Currentness.STALE_FAILURE_DOMAIN);
  }

  /** Domain demotions reach a current proof through all these domains if and only if it is filed under them all. */
  lemma ReachedIffFound(r: Registry, id: ProofId, names: set<string>)
    requires r.IsCurrent(id)
    ensures AlwaysReached(r, id, names) <==> FoundUnder(r.index.byDomain, id, names)
  {
    if FoundUnder(r.index.byDomain, id, names) {
      forall domains, generation: nat
        ensures Reached(r, id, names, domains, generation)
      {
        DemotedIffIndexed(r, id, domains, generation);
      }
    } else {
      var name :| name in names && id !in Lookup(r.index.byDomain, name);
      var generation := r.proofs[id].current.dependencies.domainGeneration + 1;
      DemotedIffIndexed(r, id, [name], generation);
      assert !Reached(r, id, names, [name], generation);
    }
  }

  // ----- A proof that a domain demotion misses -------------------------------------------------------

  const RACKED := EntityRef(LINK, "l")

  /** Both paths run over one link, and the link is in two racks. */
  const TWO_RACKS := Over(["l"],
                          COMPLETE).(domainMemberships := map[(RACKED, RACK) := Membership(COMPLETE, ["m", "n"])])

  lemma SampleConsults(limits: Limits)
    requires limits.SelfConsistent()
    ensures ReachesMatrix(REQUEST, POLICY, Snapshot(BACKED, TWO_RACKS), limits)
    ensures DomainsAsked(REQUEST, POLICY, TWO_RACKS) == {"m", "n"}
    ensures Evaluate(REQUEST, POLICY, Snapshot(BACKED, TWO_RACKS), limits).outcome == NOT_DIVERSE
  {
    var a, b := Plain("a", ["l"], COMPLETE), Plain("b", ["l"], COMPLETE);
    SampleReachesMatrix(["l"], COMPLETE, TWO_RACKS, limits);
    PolicyIsCanonical(limits);
    SharedLink(a, b, "l", TWO_RACKS);
    OutcomeIsVerdict(TWO_RACKS, [a, b], limits);
    RacksAsked(a, b);
  }

  lemma OneEntity(facts: Facts, e: EntityRef, relation: DomainRelation)
    ensures DomainsOf(facts, [e], relation) == Elements(facts.DomainMembership(e, relation).members)
  {
    assert [e][0] == e;
  }

  lemma RacksAsked(a: PathComposition, b: PathComposition)
    requires a == Plain("a", ["l"], COMPLETE) && b == Plain("b", ["l"], COMPLETE)
    ensures AllDomains([a, b], POLICY, TWO_RACKS) == {"m", "n"}
  {
    PlainIsCanonical("a", ["l"], COMPLETE);
    PlainIsCanonical("b", ["l"], COMPLETE);
    assert Tag(LINK, ["l"]) == [RACKED];
    OnlyRacks([a, b], TWO_RACKS);
  }

  lemma OnlyRacks(comps: seq<PathComposition>, facts: Facts)
    requires facts == TWO_RACKS && |comps| > 0 && forall c | c in comps :: PairClasses.Entities(c) == [RACKED]
    ensures AllDomains(comps, POLICY, facts) == {"m", "n"}
  {
    assert Elements(["m", "n"]) == {"m", "n"};
    forall relation
      ensures DomainsOf(facts, [RACKED], relation) == if relation == RACK then {"m", "n"} else {}
    {
      OneEntity(facts, RACKED, relation);
    }
    var c, all := comps[0], AllDomains(comps, POLICY, facts);
    assert c in comps && RACK in ConsultedRelations(POLICY) by {
      assert ConsultedRelations(POLICY)[0] == RACK;
    }
    forall d
      ensures d in {"m", "n"} ==> d in all
    {
      assert d in {"m", "n"} ==> d in DomainsOf(facts, PairClasses.Entities(c), RACK);
    }
  }

  /**
   * With room for one domain a proof that consulted the domains m and n is filed under m
   * alone, and no demotion of n reaches it.
   */
  lemma CutListIsMissed(limits: Limits, acting: A.Acting) returns (r: Registry)
    requires limits.SelfConsistent() && limits.maxDomainEvidenceEntries == 1 && acting.expectedProofGeneration == 0
    ensures r == Commit(EMPTY, REQUEST, Finished(Evaluate(REQUEST, POLICY, Snapshot(BACKED, TWO_RACKS), limits), false),
                        acting, limits).registry
    ensures r.IsCurrent(REQUEST) && DomainsAsked(REQUEST, POLICY, TWO_RACKS) == {"m", "n"}
    ensures REQUEST in Lookup(r.index.byDomain, "m") && REQUEST !in Lookup(r.index.byDomain, "n")
    ensures forall generation: nat :: DemoteDomains(r, ["n"], generation).registry.IsCurrent(REQUEST)
  {
    var evaluation := Evaluate(REQUEST, POLICY, Snapshot(BACKED, TWO_RACKS), limits);
    SampleConsults(limits);
    EvaluationListsConsulted(REQUEST, POLICY, Snapshot(BACKED, TWO_RACKS), limits);
    FirstOfTwo(evaluation.consulted.domains);
    FirstIsFiled(REQUEST, evaluation, acting, limits);
    r := Commit(EMPTY, REQUEST, Finished(evaluation, false), acting, limits).registry;
    forall generation: nat
      ensures DemoteDomains(r, ["n"], generation).registry.IsCurrent(REQUEST)
    {
      DemotedIffIndexed(r, REQUEST, ["n"], generation);
    }
  }

  lemma FirstIsFiled(request: Request, evaluation: EvaluationResult, acting: A.Acting, limits: Limits)
    requires limits.maxProofs > 0 && acting.expectedProofGeneration == 0 && Decisive(evaluation.outcome)
    ensures var r := Commit(EMPTY, request, Finished(evaluation, false), acting, limits).registry;
            && r.IsCurrent(request)
            && forall d :: request in Lookup(r.index.byDomain, d) <==> d in evaluation.consulted.domains
  {
    assert !BLANK.Stored();
    CommitIndexes(EMPTY, request, Finished(evaluation, false), acting, limits);
    forall d
      ensures Lookup(InsertAll(EMPTY.index.byDomain, evaluation.consulted.domains, request), d)
              == if d in evaluation.consulted.domains then {request} else {}
    {
      LookupInsertAll(EMPTY.index.byDomain, evaluation.consulted.domains, request, d);
    }
  }

  lemma FirstOfTwo(listed: seq<string>)
    requires Lists(listed, {"m", "n"}, 1)
    ensures "m" in listed && "n" !in listed
  {
    assert Less("m", "n") && !Less("n", "m") && !Less("m", "m") && !Less("n", "n");
    assert Before({"m", "n"}, "m") == {} && Before({"m", "n"}, "n") == {"m"};
  }
}
