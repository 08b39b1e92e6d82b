/**
 * Small concrete inputs: evidence under which a request is proven diverse, and the two
 * places where what one might expect of the evaluator does not hold.
 */
module Samples {
  import opened Ordering
  import opened Evidence
  import opened PairClasses
  import opened Evaluator
  import opened Verdicts
  import opened Observations

  // ----- Two paths --------------------------------------------------------------------------

  const REQUEST := Request("p", 1, [PathRef("a", 1), PathRef("b", 1)])

  const POLICY := Policy("p", 1, "s", [LINK_DISJOINT], NONE, 2, ALL_PAIRS, REQUIRE_COMPLETE_EVIDENCE,
                         REJECT_PROOF, [], true, "")

  const BACKED := map["a" := AuthorityEntry(1, true), "b" := AuthorityEntry(1, true)]

  /** A path of links only. */
  function Plain(path: string, links: seq<string>, coverage: Coverage): PathComposition {
    PathComposition(path, 1, 1, [], [], [], links, [], coverage, COMPLETE, COMPLETE, COMPLETE)
  }

  /** Both paths run over these links. */
  function Over(links: seq<string>, coverage: Coverage): Facts {
    Facts(1, map["a" := Plain("a", links, coverage), "b" := Plain("b", links, coverage)], 1, map[], map[])
  }

  /** So do they here, whatever is known of the domains. */
  predicate Serves(facts: Facts, links: seq<string>, coverage: Coverage) {
    facts == Over(links, coverage).(domainMemberships := facts.domainMemberships)
  }

  /** Nothing shared, everything complete, both paths backed. */
  const SNAPSHOT := Snapshot(BACKED, Over([], COMPLETE))

  lemma PlainIsCanonical(path: string, links: seq<string>, coverage: Coverage)
    requires |links| <= 1
    ensures CanonicalComposition(Plain(path, links, coverage)) == Plain(path, links, coverage)
    ensures !Repeats(Plain(path, links, coverage))
    ensures PairClasses.Entities(Plain(path, links, coverage)) == Tag(LINK, links)
  {
    AscendingIs([], {});
    AscendingIs(links, Elements(links));
    assert Elements([]) == {};
  }

  lemma ResolveOneMore(front: seq<PathRef>, ref: PathRef, facts: Facts, comps: seq<PathComposition>, c: PathComposition)
    requires ResolveAll(front, facts) == (None, comps) && Resolve(ref, facts) == (None, c)
    ensures ResolveAll(front + [ref], facts) == (None, comps + [c])
  {
    assert (front + [ref])[..|front|] == front;
  }

  lemma PlainResolves(links: seq<string>, coverage: Coverage, facts: Facts)
    requires |links| <= 1 && Serves(facts, links, coverage)
    ensures ResolveAll(REQUEST.paths, facts) == (None, [Plain("a", links, coverage), Plain("b", links, coverage)])
  {
    var refs := REQUEST.paths;
    var a, b := Plain("a", links, coverage), Plain("b", links, coverage);
    PlainIsCanonical("a", links, coverage);
    PlainIsCanonical("b", links, coverage);
    assert "a"[0] != "b"[0];
    assert facts.Composition("a") == Some(a) && facts.Composition("b") == Some(b);
    ResolveOneMore([], refs[0], facts, [], a);
    ResolveOneMore([] + [refs[0]], refs[1], facts, [] + [a], b);
    assert refs == [] + [refs[0]] + [refs[1]] && [] + [a] + [b] == [a, b];
  }

  lemma TwoInOrder(x: PathRef, y: PathRef)
    requires RefLess(x, y)
    ensures SortRefs([x, y]) == [x, y]
  {
    RefLessTotal(x, y);
    assert [x, y][1..] == [y] && [y][1..] == [];
    assert InsertRef(y, []) == [y] && SortRefs([y]) == [y];
  }

  lemma RequestIsCanonical()
    ensures CanonicalRequest(REQUEST) == REQUEST && !HasDuplicatePaths(REQUEST.paths)
  {
    assert Less("a", "b");
    TwoInOrder(REQUEST.paths[0], REQUEST.paths[1]);
    assert REQUEST.paths == [REQUEST.paths[0], REQUEST.paths[1]];
    assert REQUEST.paths[0].path[0] != REQUEST.paths[1].path[0];
  }

  lemma PlainFootprint(links: seq<string>, coverage: Coverage)
    requires |links| <= 1
    ensures |CanonicalEntities(Footprint([Plain("a", links, coverage), Plain("b", links, coverage)]))| == |links|
  {
    var comps := [Plain("a", links, coverage), Plain("b", links, coverage)];
    PlainIsCanonical("a", links, coverage);
    PlainIsCanonical("b", links, coverage);
    var entities := Footprint(comps);
    forall e
      ensures e in entities <==> e in Tag(LINK, links)
      ensures e in Tag(LINK, links) <==> e.kind == LINK && e.id in links
    {
      assert e in entities <==> e in PairClasses.Entities(comps[0]) || e in PairClasses.Entities(comps[1]);
      if e.kind == LINK && e.id in links {
        var k :| 0 <= k < |links| && links[k] == e.id;
        assert Tag(LINK, links)[k] == e;
      }
    }
    assert IdsOfKind(entities, LINK) == Elements(links) by {
      assert forall id | id in links :: EntityRef(LINK, id) in entities;
    }
    assert IdsOfKind(entities, ENDPOINT) == IdsOfKind(entities, NODE) == IdsOfKind(entities, DEVICE) == {};
    AscendingIs(links, Elements(links));
    AscendingIs([], {});
  }

  lemma PolicyIsCanonical(limits: Limits)
    requires limits.SelfConsistent()
    ensures CanonicalPolicy(POLICY) == POLICY && ValidPolicy(POLICY, limits)
  {
    assert POLICY.requiredClasses[1..] == [] && SortByRank(ClassRank, POLICY.requiredClasses) == [LINK_DISJOINT];
  }

  lemma SamplePrelude(limits: Limits)
    requires limits.SelfConsistent()
    ensures Prelude(REQUEST, POLICY, limits) == None
  {
    RequestIsCanonical();
    PolicyIsCanonical(limits);
  }

  lemma BothBacked(facts: Facts)
    ensures AuthorityStep(REQUEST, POLICY, Snapshot(BACKED, facts)) == None
  {
    RequestIsCanonical();
    BackedMeansNoVerdict(REQUEST.paths, Snapshot(BACKED, facts));
  }

  lemma SampleReachesMatrix(links: seq<string>, coverage: Coverage, facts: Facts, limits: Limits)
    requires limits.SelfConsistent() && |links| <= 1 && Serves(facts, links, coverage)
    ensures ReachesMatrix(REQUEST, POLICY, Snapshot(BACKED, facts), limits)
    ensures Structures(REQUEST, facts) == [Plain("a", links, coverage), Plain("b", links, coverage)]
  {
    SamplePrelude(limits);
    PolicyIsCanonical(limits);
    RequestIsCanonical();
    BothBacked(facts);
    PlainResolves(links, coverage, facts);
    PlainFootprint(links, coverage);
  }

  /** Two paths that share nothing, with complete evidence, are proven diverse under any consistent limits. */
  lemma SampleIsProven(limits: Limits)
    requires limits.SelfConsistent()
    ensures Evaluate(REQUEST, POLICY, SNAPSHOT, limits).outcome == PROVEN_DIVERSE
  {
    SampleReachesMatrix([], COMPLETE, SNAPSHOT.facts, limits);
    AllPairsOutcome(REQUEST, POLICY, SNAPSHOT, limits);
    PolicyIsCanonical(limits);
    DisjointMeansProven();
  }

  lemma DisjointMeansProven()
    ensures AllPairsVerdict([Plain("a", [], COMPLETE), Plain("b", [], COMPLETE)], POLICY, SNAPSHOT.facts)
            == PROVEN_DIVERSE
  {
    AscendingIs([], {});
    ProvenPairs([Plain("a", [], COMPLETE), Plain("b", [], COMPLETE)], POLICY, SNAPSHOT.facts);
  }

  // ----- A conflict outweighs missing evidence -------------------------------------------------

  /**
   * Where complete evidence is required and the class's evidence is only partial, a known
   * conflict still decides: the outcome is NOT_DIVERSE, not the unknown outcome.
   */
  lemma ConflictOutweighsMissingEvidence(link: string, facts: Facts, limits: Limits)
    returns (comps: seq<PathComposition>)
    requires limits.SelfConsistent() && facts == Over([link], PARTIAL)
    ensures comps == Structures(REQUEST, facts)
    ensures POLICY.completeness == REQUIRE_COMPLETE_EVIDENCE && UnknownOutcome(POLICY) != NOT_DIVERSE
    ensures !SetComplete(LINK_DISJOINT, comps, POLICY, facts) && SetConflict(LINK_DISJOINT, comps, POLICY, facts)
    ensures Evaluate(REQUEST, POLICY, Snapshot(BACKED, facts), limits).outcome == NOT_DIVERSE
  {
    assert POLICY.completeness == REQUIRE_COMPLETE_EVIDENCE && UnknownOutcome(POLICY) != NOT_DIVERSE;
    var a, b := SampleStructures(link, facts, limits);
    comps := [a, b];
    SharedLink(a, b, link, facts);
    OutcomeIsVerdict(facts, comps, limits);
  }

  lemma SampleStructures(link: string, facts: Facts, limits: Limits) returns (a: PathComposition, b: PathComposition)
    requires limits.SelfConsistent() && facts == Over([link], PARTIAL)
    ensures ReachesMatrix(REQUEST, POLICY, Snapshot(BACKED, facts), limits) && Structures(REQUEST, facts) == [a, b]
    ensures link in a.links && link in b.links && a.linkCoverage == PARTIAL
  {
    SampleReachesMatrix([link], PARTIAL, facts, limits);
    a, b := Plain("a", [link], PARTIAL), Plain("b", [link], PARTIAL);
  }

  lemma OutcomeIsVerdict(facts: Facts, comps: seq<PathComposition>, limits: Limits)
    requires ReachesMatrix(REQUEST, POLICY, Snapshot(BACKED, facts), limits) && comps == Structures(REQUEST, facts)
    requires limits.SelfConsistent()
    ensures Evaluate(REQUEST, POLICY, Snapshot(BACKED, facts), limits).outcome == AllPairsVerdict(comps, POLICY, facts)
  {
    PolicyIsCanonical(limits);
    AllPairsOutcome(REQUEST, POLICY, Snapshot(BACKED, facts), limits);
  }

  lemma SharedLink(a: PathComposition, b: PathComposition, link: string, facts: Facts)
    requires link in a.links && link in b.links
    ensures SetConflict(LINK_DISJOINT, [a, b], POLICY, facts) && AllPairsVerdict([a, b], POLICY, facts) == NOT_DIVERSE
    ensures a.linkCoverage == PARTIAL ==> !SetComplete(LINK_DISJOINT, [a, b], POLICY, facts)
  {
    var comps := [a, b];
    assert link in Elements(comps[0].links) * Elements(comps[1].links);
    assert Shares(LINK_DISJOINT, comps[0], comps[1], POLICY, facts);
    assert a.linkCoverage == PARTIAL ==> !PairClasses.Complete(LINK_DISJOINT, comps[0], comps[1], POLICY, facts);
    assert LINK_DISJOINT in POLICY.requiredClasses && SetVerdict(LINK_DISJOINT, comps, POLICY, facts) == NOT_DIVERSE;
  }

  // ----- Without the promise about authorizations ---------------------------------------------------

  /** Path Authority backs one path at a time, in turn; nothing else ever moves. */
  ghost function InTurn(): nat -> Snapshot {
    t => Snapshot(if t % 2 == 0 then map["a" := AuthorityEntry(1, true)]
                  else map["b" := AuthorityEntry(1, true)], SNAPSHOT.facts)
  }

  lemma OneBackedIsRefused(a: PathRef, b: PathRef, snap: Snapshot)
    requires a.path != b.path && a.generation == b.generation == 1
    requires snap.authority == map[a.path := AuthorityEntry(1, true)]
             || snap.authority == map[b.path := AuthorityEntry(1, true)]
    ensures AuthorityVerdict([a, b], snap) == Some(UNAUTHORIZED)
  {
    assert [a, b][1..] == [b];
    if snap.authority == map[a.path := AuthorityEntry(1, true)] {
      assert PathVerdict(a, snap) == None && PathVerdict(b, snap) == Some(UNAUTHORIZED);
    } else {
      assert PathVerdict(a, snap) == Some(UNAUTHORIZED);
    }
  }

  lemma RefusalDecides(request: Request, policy: Policy, snap: Snapshot, outcome: Outcome, limits: Limits)
    requires Prelude(request, policy, limits) == None && AuthorityStep(request, policy, snap) == Some(outcome)
    ensures Evaluate(request, policy, snap, limits).outcome == outcome
  {
  }

  lemma NeverBothBacked(t: nat, limits: Limits)
    requires limits.SelfConsistent()
    ensures Evaluate(REQUEST, POLICY, InTurn()(t), limits).outcome == UNAUTHORIZED
  {
    SamplePrelude(limits);
    RequestIsCanonical();
    assert REQUEST.paths[0].path[0] != REQUEST.paths[1].path[0];
    OneBackedIsRefused(REQUEST.paths[0], REQUEST.paths[1], InTurn()(t));
    assert REQUEST.paths == [REQUEST.paths[0], REQUEST.paths[1]];
    RefusalDecides(REQUEST, POLICY, InTurn()(t), UNAUTHORIZED, limits);
  }

  lemma AskedInTurn(limits: Limits)
    ensures AllBackedWithin(InTurn(), REQUEST.paths, 0, 1) && AllBackedWithin(InTurn(), REQUEST.paths, 1, 2)
  {
    var world := InTurn();
    assert world(0).IsAuthorized("a", 1) && world(1).IsAuthorized("b", 1) && world(2).IsAuthorized("a", 1);
    forall k | 0 <= k < |REQUEST.paths|
      ensures BackedWithin(world, REQUEST.paths[k], 0, 1) && BackedWithin(world, REQUEST.paths[k], 1, 2)
    {
      assert REQUEST.paths[k] == PathRef("a", 1) || REQUEST.paths[k] == PathRef("b", 1);
    }
  }

  /** The verdict when every question about authority was answered yes. */
  lemma SampleVerdict(limits: Limits)
    requires limits.SelfConsistent()
    ensures var evaluation := EvaluateGiven(REQUEST, POLICY, None, SNAPSHOT.facts, limits);
            && evaluation.outcome == PROVEN_DIVERSE && evaluation.dependencies.paths == REQUEST.paths
            && evaluation.observedTopology == 1 && evaluation.observedDomains == 1
  {
    SampleIsProven(limits);
    SampleReachesMatrix([], COMPLETE, SNAPSHOT.facts, limits);
    EvaluateIsBody(REQUEST, POLICY, SNAPSHOT, limits);
    RequestIsCanonical();
  }

  /** Every read of this evaluation is honest, and all its answers are yes. */
  lemma ReadInTurn(limits: Limits, out: Observation)
    requires out.evaluation == EvaluateGiven(REQUEST, POLICY, None, SNAPSHOT.facts, limits)
    requires out.evaluation.dependencies.paths == REQUEST.paths
    requires out.evaluation.observedTopology == out.evaluation.observedDomains == 1
    requires out.topologyAfter == out.domainsAfter == 1
    requires !out.authorityDrift
    ensures Observable(InTurn(), 0, 2, REQUEST, POLICY, limits, out)
  {
    var at := Instants(0, 0, 1, 1, 1);
    RequestIsCanonical();
    AskedInTurn(limits);
    assert at.Within(0, 2);
    assert ObservedAt(InTurn(), at, 2, None, REQUEST, POLICY, limits, out);
  }

  lemma ObservedInTurn(limits: Limits) returns (out: Observation)
    requires limits.SelfConsistent()
    ensures Observable(InTurn(), 0, 2, REQUEST, POLICY, limits, out)
    ensures out.Conclusive() && out.evaluation.outcome == PROVEN_DIVERSE
  {
    out := Observation(EvaluateGiven(REQUEST, POLICY, None, SNAPSHOT.facts, limits), 1, 1, false);
    SampleVerdict(limits);
    ReadInTurn(limits, out);
  }

  /** An unlocked evaluation returns PROVEN_DIVERSE, undrifted, and no instant of its interval bears it out. */
  ghost predicate SlipsThrough(world: nat -> Snapshot, limits: Limits) {
    exists out ::
      && Observable(world, 0, 2, REQUEST, POLICY, limits, out)
      && out.Conclusive() && out.evaluation.outcome == PROVEN_DIVERSE
      && !Isolated(world, 0, 2, REQUEST, POLICY, limits, out)
  }

  ghost predicate AlwaysUnauthorized(world: nat -> Snapshot, limits: Limits) {
    forall t: nat :: Evaluate(REQUEST, POLICY, world(t), limits).outcome == UNAUTHORIZED
  }

  lemma NoSuchInstant(world: nat -> Snapshot, out: Observation, limits: Limits)
    requires Observable(world, 0, 2, REQUEST, POLICY, limits, out)
    requires out.Conclusive() && out.evaluation.outcome == PROVEN_DIVERSE
    requires AlwaysUnauthorized(world, limits)
    ensures SlipsThrough(world, limits)
  {
    assert !Isolated(world, 0, 2, REQUEST, POLICY, limits, out);
  }

  lemma AuthorityReturns()
    ensures Labelled(InTurn()) && !WithdrawnForGood(InTurn())
  {
    var world := InTurn();
    assert "a"[0] != "b"[0];
    assert world(0).IsAuthorized("a", 1) && !world(1).IsAuthorized("a", 1) && world(2).IsAuthorized("a", 1);
  }

  /**
   * If a withdrawn authorization may return, isolation fails: here an evaluation returns
   * PROVEN_DIVERSE, undrifted, although at every single instant it is UNAUTHORIZED.
   */
  lemma IsolationNeedsLastingWithdrawal(limits: Limits)
    requires limits.SelfConsistent()
    ensures Labelled(InTurn()) && !WithdrawnForGood(InTurn())
    ensures AlwaysUnauthorized(InTurn(), limits)
    ensures SlipsThrough(InTurn(), limits)
  {
    AuthorityReturns();
    NeverAuthorized(limits);
    var out := ObservedInTurn(limits);
    NoSuchInstant(InTurn(), out, limits);
  }

  lemma NeverAuthorized(limits: Limits)
    requires limits.SelfConsistent()
    ensures AlwaysUnauthorized(InTurn(), limits)
  {
    forall t: nat
      ensures Evaluate(REQUEST, POLICY, InTurn()(t), limits).outcome == UNAUTHORIZED
    {
      NeverBothBacked(t, limits);
    }
  }
}
