/**
 * `evaluate_diversity` over live views, and the unlocked phase of a runtime
 * evaluation.  The result that survives the watermark comparison is the verdict of
 * one single instant.
 */
module LiveEvaluation {
  import opened Ordering
  import opened Evidence
  import opened PairClasses
  import opened Evaluator
  import opened Verdicts
  import opened Observations
  import opened LiveViews
  import opened LiveClasses
  import opened LiveMatrix
  import opened SetEvaluation

  // ----- Path Authority ---------------------------------------------------------------------

  /** Step two: the first path, in canonical order, that is not backed when asked. */
  method CheckAuthority(views: Views, refs: seq<PathRef>) returns (verdict: Option<Outcome>)
    modifies views`now
    ensures views.now >= old(views.now)
    ensures verdict.Some? ==> verdict.value in {UNAUTHORIZED, STALE_PATH_AUTHORITY}
    ensures verdict.None? ==> AllBackedWithin(views.world, refs, old(views.now), views.now)
  {
    for k := 0 to |refs|
      invariant views.now >= old(views.now)
      invariant AllBackedWithin(views.world, refs[..k], old(views.now), views.now)
    {
      var current := views.CurrentGeneration(refs[k].path);
      ghost var asked := views.now;
      if current == None {
        return Some(UNAUTHORIZED);
      }
      if current.value != refs[k].generation {
        return Some(STALE_PATH_AUTHORITY);
      }
      var authorized := views.IsAuthorized(refs[k].path, refs[k].generation);
      if !authorized {
        return Some(UNAUTHORIZED);
      }
      assert views.world(asked).IsAuthorized(refs[k].path, refs[k].generation);
    }
    assert refs[..|refs|] == refs;
    verdict := None;
  }

  // ----- Structure ---------------------------------------------------------------------------

  /** Sorted structure; a repeat has already been refused. */
  method SortComposition(c: PathComposition) returns (r: PathComposition)
    ensures r == CanonicalComposition(c)
  {
    var sources := SortedUnique(c.sources);
    var destinations := SortedUnique(c.destinations);
    var transitNodes := SortedUnique(c.transitNodes);
    var links := SortedUnique(c.links);
    var devices := SortedUnique(c.devices);
    r := c.(sources := sources, destinations := destinations, transitNodes := transitNodes, links := links,
            devices := devices);
  }

  method ResolvePath(views: Views, ref: PathRef, topology: nat, ghost facts: Facts)
    returns (refused: Option<Outcome>, c: PathComposition)
    modifies views`now
    ensures views.now >= old(views.now)
    ensures refused == None ==> c.Canonical()
    ensures views.Steady(old(views.now), views.now, facts) && topology == facts.topologyGeneration ==>
              (refused, c) == Resolve(ref, facts)
  {
    var composition := views.Composition(ref.path);
    c := PathComposition("", 0, 0, [], [], [], [], [], COMPLETE, COMPLETE, COMPLETE, COMPLETE);
    refused := None;
    if composition == None {
      refused := Some(MALFORMED);
    } else if composition.value.authorityGeneration != ref.generation {
      refused := Some(STALE_PATH_AUTHORITY);
    } else if composition.value.topologyGeneration != topology {
      refused := Some(STALE_TOPOLOGY);
    } else if Repeats(composition.value) {
      refused := Some(MALFORMED);
    } else {
      c := SortComposition(composition.value);
    }
  }

  lemma ResolveNext(refs: seq<PathRef>, k: nat, facts: Facts)
    requires k < |refs| && ResolveAll(refs[..k], facts).0 == None
    ensures var (outcome, c) := Resolve(refs[k], facts);
            ResolveAll(refs[..k + 1], facts) == if outcome != None then (outcome, [])
                else (None, ResolveAll(refs[..k], facts).1 + [c])
  {
    assert refs[..k + 1][..k] == refs[..k];
  }

  /** The first refusal decides. */
  lemma {:induction false} RefusalIsFinal(refs: seq<PathRef>, k: nat, facts: Facts, outcome: Outcome)
    requires k <= |refs| && ResolveAll(refs[..k], facts) == (Some(outcome), [])
    ensures ResolveAll(refs, facts) == (Some(outcome), [])
    decreases |refs|
  {
    if k == |refs| {
      assert refs[..k] == refs;
    } else {
      assert refs[..|refs| - 1][..k] == refs[..k];
      RefusalIsFinal(refs[..|refs| - 1], k, facts, outcome);
    }
  }

  /** Step three: exact structures, or the first refusal. */
  method ResolvePaths(views: Views, refs: seq<PathRef>, topology: nat, ghost facts: Facts)
    returns (refused: Option<Outcome>, comps: seq<PathComposition>)
    modifies views`now
    ensures views.now >= old(views.now)
    ensures refused == None ==> |comps| == |refs| && forall c | c in comps :: c.Canonical()
    ensures views.Steady(old(views.now), views.now, facts) && topology == facts.topologyGeneration ==>
              (refused, comps) == ResolveAll(refs, facts)
  {
    comps := [];
    for k := 0 to |refs|
      invariant views.now >= old(views.now)
      invariant |comps| == k && forall c | c in comps :: c.Canonical()
      invariant views.Steady(old(views.now), views.now, facts) && topology == facts.topologyGeneration ==>
                  ResolveAll(refs[..k], facts) == (None, comps)
    {
      var outcome, c := ResolvePath(views, refs[k], topology, facts);
      if views.Steady(old(views.now), views.now, facts) && topology == facts.topologyGeneration {
        ResolveNext(refs, k, facts);
        if outcome.Some? {
          RefusalIsFinal(refs, k + 1, facts, outcome.value);
        }
      }
      if outcome.Some? {
        return outcome, [];
      }
      comps := comps + [c];
    }
    assert refs[..|refs|] == refs;
    refused := None;
  }

  // ----- Dependency footprint -------------------------------------------------------------------

  predicate EntityLess(a: EntityRef, b: EntityRef) {
    if a.kind != b.kind then EntityRank(a.kind) < EntityRank(b.kind) else Less(a.id, b.id)
  }

  function EntityRank(kind: EntityKind): nat {
    match kind
    case ENDPOINT => 1
    case NODE => 2
    case LINK => 3
    case DEVICE => 4
  }

  ghost function IdsOf(c: PathComposition, kind: EntityKind): set<string> {
    match kind
    case ENDPOINT => Elements(c.sources) + Elements(c.destinations)
    case NODE => Elements(c.transitNodes)
    case LINK => Elements(c.links)
    case DEVICE => Elements(c.devices)
  }

  lemma TagMember(kind: EntityKind, ids: seq<string>, e: EntityRef)
    ensures e in Tag(kind, ids) <==> e.kind == kind && e.id in ids
  {
    if e.kind == kind && e.id in ids {
      var k :| 0 <= k < |ids| && ids[k] == e.id;
      assert Tag(kind, ids)[k] == e;
    }
  }

  lemma EntitiesOf(c: PathComposition, e: EntityRef)
    ensures e in Entities(c) <==> e.id in IdsOf(c, e.kind)
  {
    TagMember(LINK, c.links, e);
    TagMember(NODE, c.transitNodes, e);
    TagMember(ENDPOINT, c.sources, e);
    TagMember(ENDPOINT, c.destinations, e);
    TagMember(DEVICE, c.devices, e);
  }

  ghost function IdsOfAll(comps: seq<PathComposition>, kind: EntityKind): set<string> {
    set c, id | c in comps && id in IdsOf(c, kind) :: id
  }

  lemma IdsExtend(comps: seq<PathComposition>, k: nat, kind: EntityKind)
    requires k < |comps|
    ensures IdsOfAll(comps[..k + 1], kind) == IdsOfAll(comps[..k], kind) + IdsOf(comps[k], kind)
  {
    assert comps[..k + 1] == comps[..k] + [comps[k]];
    assert comps[k] in comps[..k + 1] && forall c | c in comps[..k] :: c in comps[..k + 1];
  }

  lemma FootprintIds(comps: seq<PathComposition>, kind: EntityKind)
    ensures IdsOfAll(comps, kind) == IdsOfKind(Footprint(comps), kind)
  {
    forall id
      ensures id in IdsOfAll(comps, kind) <==> id in IdsOfKind(Footprint(comps), kind)
    {
      var e := EntityRef(kind, id);
      forall c | c in comps
        ensures e in Entities(c) <==> id in IdsOf(c, kind)
      {
        EntitiesOf(c, e);
      }
      assert e in Footprint(comps) <==> id in IdsOfAll(comps, kind);
      assert id in IdsOfKind(Footprint(comps), kind) <==> e in Footprint(comps);
    }
  }

  lemma FootprintMembers(entities: set<EntityRef>, e: EntityRef)
    ensures e in CanonicalEntities(entities) <==> e in entities
  {
    forall kind
      ensures e in Tag(kind, Ascending(IdsOfKind(entities, kind))) <==> e.kind == kind && e in entities
    {
      var ids := IdsOfKind(entities, kind);
      TagMember(kind, Ascending(ids), e);
      assert e.id in Elements(Ascending(ids)) <==> e.id in ids;
      assert EntityRef(e.kind, e.id) == e;
    }
  }

  ghost predicate EntitiesSorted(s: seq<EntityRef>) {
    forall a, b | 0 <= a < b < |s| :: EntityLess(s[a], s[b])
  }

  ghost predicate KindsBelow(s: seq<EntityRef>, rank: nat) {
    forall a | 0 <= a < |s| :: EntityRank(s[a].kind) < rank
  }

  lemma AppendKind(s: seq<EntityRef>, kind: EntityKind, ids: seq<string>)
    requires EntitiesSorted(s) && KindsBelow(s, EntityRank(kind)) && StrictlyAscending(ids)
    ensures EntitiesSorted(s + Tag(kind, ids)) && KindsBelow(s + Tag(kind, ids), EntityRank(kind) + 1)
  {
    var t := Tag(kind, ids);
    assert forall a | 0 <= a < |t| :: t[a].kind == kind && t[a].id == ids[a];
  }

  /** The footprint is strictly ascending: by kind, then by identity. */
  lemma FootprintIsSorted(entities: set<EntityRef>)
    ensures EntitiesSorted(CanonicalEntities(entities))
  {
    var endpoints, nodes := Ascending(IdsOfKind(entities, ENDPOINT)), Ascending(IdsOfKind(entities, NODE));
    var links, devices := Ascending(IdsOfKind(entities, LINK)), Ascending(IdsOfKind(entities, DEVICE));
    AppendKind([], ENDPOINT, endpoints);
    assert [] + Tag(ENDPOINT, endpoints) == Tag(ENDPOINT, endpoints);
    AppendKind(Tag(ENDPOINT, endpoints), NODE, nodes);
    AppendKind(Tag(ENDPOINT, endpoints) + Tag(NODE, nodes), LINK, links);
    AppendKind(Tag(ENDPOINT, endpoints) + Tag(NODE, nodes) + Tag(LINK, links), DEVICE, devices);
  }

  lemma ElementsConcat(a: seq<string>, b: seq<string>)
    ensures Elements(a + b) == Elements(a) + Elements(b)
  {
  }

  method CollectFootprint(comps: seq<PathComposition>) returns (footprint: seq<EntityRef>)
    ensures footprint == CanonicalEntities(Footprint(comps))
  {
    var endpoints: seq<string>, nodes: seq<string>, links: seq<string>, devices: seq<string> := [], [], [], [];
    for k := 0 to |comps|
      invariant Elements(endpoints) == IdsOfAll(comps[..k], ENDPOINT)
      invariant Elements(nodes) == IdsOfAll(comps[..k], NODE)
      invariant Elements(links) == IdsOfAll(comps[..k], LINK)
      invariant Elements(devices) == IdsOfAll(comps[..k], DEVICE)
    {
      var c := comps[k];
      forall kind
        ensures IdsOfAll(comps[..k + 1], kind) == IdsOfAll(comps[..k], kind) + IdsOf(c, kind)
      {
        IdsExtend(comps, k, kind);
      }
      ElementsConcat(endpoints, c.sources + c.destinations);
      ElementsConcat(c.sources, c.destinations);
      ElementsConcat(nodes, c.transitNodes);
      ElementsConcat(links, c.links);
      ElementsConcat(devices, c.devices);
      endpoints := endpoints + (c.sources + c.destinations);
      nodes := nodes + c.transitNodes;
      links := links + c.links;
      devices := devices + c.devices;
    }
    assert comps[..|comps|] == comps;
    forall kind
      ensures IdsOfAll(comps, kind) == IdsOfKind(Footprint(comps), kind)
    {
      FootprintIds(comps, kind);
    }
    var sortedEndpoints := SortedUnique(endpoints);
    var sortedNodes := SortedUnique(nodes);
    var sortedLinks := SortedUnique(links);
    var sortedDevices := SortedUnique(devices);
    footprint := Tag(ENDPOINT, sortedEndpoints) + Tag(NODE, sortedNodes) + Tag(LINK, sortedLinks)
    + Tag(DEVICE, sortedDevices);
  }

  // ----- The evaluation -----------------------------------------------------------------------

  /** Everything after the authority step. */
  method EvaluateBody(views: Views, request: Request, p: Policy, limits: Limits, topology: nat, domains: nat,
                      ghost facts: Facts)
    returns (result: EvaluationResult)
    requires |request.paths| >= 2 && limits.maxConflictsPerProof > 0
    modifies views`now
    ensures views.now >= old(views.now)
    ensures result.observedTopology == topology && result.observedDomains == domains
    ensures views.Steady(old(views.now), views.now, facts) && topology == facts.topologyGeneration
            && domains == facts.domainGeneration ==>
              result == Body(request, p, facts, limits)
  {
    var refused, comps := ResolvePaths(views, request.paths, topology, facts);
    if refused.Some? {
      return Reject(refused.value, None, topology, domains);
    }
    var footprint := CollectFootprint(comps);
    if |footprint| > limits.maxTopologyDependencies {
      return Reject(RESOURCE_LIMIT,
                    Some(LimitNotice(MAX_TOPOLOGY_DEPENDENCIES, |footprint|, limits.maxTopologyDependencies)),
                    topology, domains);
    }
    var n := |request.paths|;
    var m, consulted := FillMatrix(views, PathsOf(request.paths), comps, p, limits, facts);
    if p.semantics == AT_LEAST_K_INDEPENDENT && (n > limits.maxKSubsetPaths || n > 32) {
      return Reject(RESOURCE_LIMIT, Some(LimitNotice(MAX_K_SUBSET_PATHS, n, limits.maxKSubsetPaths)), topology,
                    domains);
    }
    var dependencies := Dependencies(p.generation, topology, domains, 0, request.paths, footprint, p.endpointExemption);
    result := ConcludeEvaluation(m, p, dependencies, consulted, limits.maxConflictsPerProof);
  }

  /**
   * `evaluate_diversity`.  The watermarks are the ones read first; while the evidence
   * stands still from `start` on, the result is the reference result of that evidence.
   */
  method EvaluateDiversity(views: Views, request: Request, policy: Policy, limits: Limits)
    returns (result: EvaluationResult, ghost start: nat, ghost verdict: Option<Outcome>)
    modifies views`now
    ensures old(views.now) <= start <= views.now
    ensures exists t: nat | old(views.now) <= t <= start ::
              result.observedTopology == views.world(t).facts.topologyGeneration
    ensures result.observedDomains == views.world(start).facts.domainGeneration
    ensures verdict.Some? ==> policy.requireAuthorityCurrent && verdict.value in {UNAUTHORIZED, STALE_PATH_AUTHORITY}
    ensures Prelude(request, policy, limits) == None && policy.requireAuthorityCurrent && verdict == None ==>
              AllBackedWithin(views.world, CanonicalRequest(request).paths, start, views.now)
    ensures var facts := views.world(start).facts;
            views.Steady(start, views.now, facts) && result.observedTopology == facts.topologyGeneration ==>
              result == EvaluateGiven(request, policy, verdict, facts, limits)
  {
    var topology := views.TopologyGeneration();
    ghost var first := views.now;
    var domains := views.DomainGeneration();
    start := views.now;
    ghost var facts := views.world(start).facts;
    verdict := None;
    assert topology == views.world(first).facts.topologyGeneration;
    var refusal := Prelude(request, policy, limits);
    if refusal.Some? {
      return Reject(refusal.value.outcome, refusal.value.limit, topology, domains), start, verdict;
    }
    var canonical := CanonicalRequest(request);
    var p := CanonicalPolicy(policy);
    SortedSize(request);
    if p.requireAuthorityCurrent {
      var refused := CheckAuthority(views, canonical.paths);
      verdict := refused;
      if refused.Some? {
        return Reject(refused.value, None, topology, domains), start, verdict;
      }
    }
    result := EvaluateBody(views, canonical, p, limits, topology, domains, facts);
    LongerInterval(views.world, canonical.paths, start, views.now);
  }

  // ----- The unlocked phase of a runtime evaluation ------------------------------------------------

  /**
   * Phase two of a runtime evaluation: evaluate, then read the watermarks and Path
   * Authority again.  It returns nothing but what its reads found, and over coherent
   * views an undrifted verdict is the verdict of one single instant.
   */
  method EvaluateUnlocked(views: Views, request: Request, policy: Policy, limits: Limits) returns (out: Observation)
    modifies views`now
    ensures views.now >= old(views.now)
    ensures Observable(views.world, old(views.now), views.now, request, policy, limits, out)
    ensures Coherent(views.world) ==> Isolated(views.world, old(views.now), views.now, request, policy, limits, out)
  {
    ghost var begin := views.now;
    var evaluation, start, verdict := EvaluateDiversity(views, request, policy, limits);
    ghost var first: nat :|
      begin <= first <= start && evaluation.observedTopology == views.world(first).facts.topologyGeneration;
    ghost var end := views.now;
    var topologyAfter := views.TopologyGeneration();
    ghost var after := views.now;
    var domainsAfter := views.DomainGeneration();
    ghost var at := Instants(first, start, end, after, views.now);
    var drift := false;
    if policy.requireAuthorityCurrent {
      var moved := CheckAuthority(views, evaluation.dependencies.paths);
      drift := moved.Some?;
    }
    out := Observation(evaluation, topologyAfter, domainsAfter, drift);
    assert at.Within(begin, views.now);
    assert ComputedFrom(views.world, at, verdict, request, policy, limits, evaluation);
    assert ObservedAt(views.world, at, views.now, verdict, request, policy, limits, out);
    if Coherent(views.world) {
      ObservableIsIsolated(views.world, begin, views.now, request, policy, limits, out);
    }
  }
}
