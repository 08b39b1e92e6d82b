/**
 * What an unlocked evaluation reads while writers run, as facts about the instants it
 * reads at, and what those facts say about its verdict once the views are coherent.
 */
module Observations {
  import opened Evidence
  import opened Evaluator
  import opened Verdicts

  // ----- Path Authority ------------------------------------------------------------------

  /** Path Authority backed the reference at some instant of the interval. */
  ghost predicate BackedWithin(world: nat -> Snapshot, ref: PathRef, lo: nat, hi: nat) {
    exists t: nat | lo <= t <= hi :: world(t).IsAuthorized(ref.path, ref.generation)
  }

  ghost predicate AllBackedWithin(world: nat -> Snapshot, refs: seq<PathRef>, lo: nat, hi: nat) {
    forall k | 0 <= k < |refs| :: BackedWithin(world, refs[k], lo, hi)
  }

  lemma LongerInterval(world: nat -> Snapshot, refs: seq<PathRef>, lo: nat, hi: nat)
    ensures forall mid: nat | mid <= hi && AllBackedWithin(world, refs, lo, mid) :: AllBackedWithin(world, refs, lo, hi)
  {
    forall mid: nat | mid <= hi && AllBackedWithin(world, refs, lo, mid)
      ensures AllBackedWithin(world, refs, lo, hi)
    {
      forall k | 0 <= k < |refs|
        ensures BackedWithin(world, refs[k], lo, hi)
      {
        assert BackedWithin(world, refs[k], lo, mid);
      }
    }
  }

  lemma LaterInterval(world: nat -> Snapshot, refs: seq<PathRef>, mid: nat, lo: nat, hi: nat)
    requires lo <= mid && AllBackedWithin(world, refs, mid, hi)
    ensures AllBackedWithin(world, refs, lo, hi)
  {
    forall k | 0 <= k < |refs|
      ensures BackedWithin(world, refs[k], lo, hi)
    {
      assert BackedWithin(world, refs[k], mid, hi);
    }
  }

  // ----- The reads of one evaluation -------------------------------------------------------

  /** When the watermarks were read and the body of the evaluation began and ended. */
  datatype Instants = Instants(first: nat, start: nat, end: nat, after: nat, last: nat) {
    predicate Within(lo: nat, hi: nat) {
      lo <= first <= start <= end <= after <= last <= hi
    }
  }

  /** Both readings of both watermarks are what the views said at those instants. */
  ghost predicate WatermarksRead(world: nat -> Snapshot, at: Instants, out: Observation) {
    && out.evaluation.observedTopology == world(at.first).facts.topologyGeneration
    && out.evaluation.observedDomains == world(at.start).facts.domainGeneration
    && out.topologyAfter == world(at.after).facts.topologyGeneration
    && out.domainsAfter == world(at.last).facts.domainGeneration
  }

  /** Path Authority was asked about every path between start and end, and again after the watermarks. */
  ghost predicate AuthorityAsked(world: nat -> Snapshot, at: Instants, hi: nat, verdict: Option<Outcome>,
                                 request: Request, policy: Policy, limits: Limits, out: Observation) {
    && (verdict.Some? ==> policy.requireAuthorityCurrent && verdict.value in {UNAUTHORIZED, STALE_PATH_AUTHORITY})
    && (Prelude(request, policy, limits) == None && policy.requireAuthorityCurrent && verdict == None ==>
          AllBackedWithin(world, CanonicalRequest(request).paths, at.start, at.end))
    && (policy.requireAuthorityCurrent && !out.authorityDrift ==>
          AllBackedWithin(world, out.evaluation.dependencies.paths, at.last, hi))
    && (out.authorityDrift ==> policy.requireAuthorityCurrent)
  }

  /** On evidence that stood still from start to end, the evaluation computed the reference result of that evidence. */
  ghost predicate ComputedFrom(world: nat -> Snapshot, at: Instants, verdict: Option<Outcome>,
                               request: Request, policy: Policy, limits: Limits, evaluation: EvaluationResult) {
    var facts := world(at.start).facts;
    (forall t: nat | at.start <= t <= at.end :: world(t).facts == facts)
    && evaluation.observedTopology == facts.topologyGeneration ==>
      evaluation == EvaluateGiven(request, policy, verdict, facts, limits)
  }

  ghost predicate ObservedAt(world: nat -> Snapshot, at: Instants, hi: nat, verdict: Option<Outcome>,
                             request: Request, policy: Policy, limits: Limits, out: Observation) {
    && WatermarksRead(world, at, out)
    && AuthorityAsked(world, at, hi, verdict, request, policy, limits, out)
    && ComputedFrom(world, at, verdict, request, policy, limits, out.evaluation)
  }

  /** Some unlocked evaluation between lo and hi can return this, whatever the writers do meanwhile. */
  ghost predicate Observable(world: nat -> Snapshot, lo: nat, hi: nat, request: Request, policy: Policy, limits: Limits,
                             out: Observation) {
    exists at: Instants, verdict | at.Within(lo, hi) :: ObservedAt(world, at, hi, verdict, request, policy, limits, out)
  }

  // ----- Coherent views ---------------------------------------------------------------------

  /** Contents are functions of generations that never move back. */
  ghost predicate Labelled(world: nat -> Snapshot) {
    && (forall t: nat, u: nat | t <= u ::
          && world(t).facts.topologyGeneration <= world(u).facts.topologyGeneration
          && world(t).facts.domainGeneration <= world(u).facts.domainGeneration)
    && (forall t: nat, u: nat | world(t).facts.topologyGeneration == world(u).facts.topologyGeneration ::
          world(t).facts.compositions == world(u).facts.compositions)
    && (forall t: nat, u: nat | world(t).facts.domainGeneration == world(u).facts.domainGeneration ::
          && world(t).facts.domainMemberships == world(u).facts.domainMemberships
          && world(t).facts.riskGroups == world(u).facts.riskGroups)
  }

  /** An authorization that was withdrawn does not come back at its generation. */
  ghost predicate WithdrawnForGood(world: nat -> Snapshot) {
    forall path, generation, t: nat, u: nat, v: nat | t <= u <= v ::
      world(t).IsAuthorized(path, generation) && world(v).IsAuthorized(path, generation) ==>
        world(u).IsAuthorized(path, generation)
  }

  /** What the views promise. */
  ghost predicate Coherent(world: nat -> Snapshot) {
    Labelled(world) && WithdrawnForGood(world)
  }

  // ----- One instant -------------------------------------------------------------------------

  /** The verdict is the one a single atomic evaluation gives, at the generations it binds. */
  ghost predicate OfOneInstant(world: nat -> Snapshot, lo: nat, hi: nat, request: Request, policy: Policy,
                               limits: Limits,
                               evaluation: EvaluationResult) {
    exists t: nat | lo <= t <= hi ::
      && evaluation == Evaluate(request, policy, world(t), limits)
      && world(t).facts.topologyGeneration == evaluation.dependencies.topologyGeneration
      && world(t).facts.domainGeneration == evaluation.dependencies.domainGeneration
  }

  /** An undrifted verdict comes from one instant of the interval it was computed in. */
  ghost predicate Isolated(world: nat -> Snapshot, lo: nat, hi: nat, request: Request, policy: Policy, limits: Limits,
                           out: Observation)
  {
    out.Conclusive() ==> OfOneInstant(world, lo, hi, request, policy, limits, out.evaluation)
  }

  /** Equal watermarks on both sides of an interval: the evidence stood still inside it. */
  lemma SteadyBetween(world: nat -> Snapshot, at: Instants, lo: nat, hi: nat)
    requires Labelled(world) && at.Within(lo, hi)
    requires world(at.first).facts.topologyGeneration == world(at.after).facts.topologyGeneration
    requires world(at.start).facts.domainGeneration == world(at.last).facts.domainGeneration
    ensures forall t: nat | at.start <= t <= at.end :: world(t).facts == world(at.start).facts
    ensures world(at.first).facts.topologyGeneration == world(at.start).facts.topologyGeneration
  {
    SameTopology(world, at.first, at.start, at.after);
    forall t: nat | at.start <= t <= at.end
      ensures world(t).facts == world(at.start).facts
    {
      SameTopology(world, at.first, t, at.after);
      assert world(at.start).facts.domainGeneration <= world(t).facts.domainGeneration;
      assert world(t).facts.domainGeneration <= world(at.last).facts.domainGeneration;
    }
  }

  lemma SameTopology(world: nat -> Snapshot, lo: nat, mid: nat, hi: nat)
    requires Labelled(world) && lo <= mid <= hi
    requires world(lo).facts.topologyGeneration == world(hi).facts.topologyGeneration
    ensures world(mid).facts.topologyGeneration == world(lo).facts.topologyGeneration
  {
  }

  lemma {:induction false} BackedMeansNoVerdict(refs: seq<PathRef>, snap: Snapshot)
    ensures AuthorityVerdict(refs, snap) == None
            <==> forall k | 0 <= k < |refs| :: snap.IsAuthorized(refs[k].path, refs[k].generation)
  {
    if refs != [] {
      BackedMeansNoVerdict(refs[1..], snap);
      assert forall k | 0 <= k < |refs| - 1 :: refs[1..][k] == refs[k + 1];
      assert forall k | 0 < k < |refs| :: refs[k] == refs[1..][k - 1];
    }
  }

  /** Backed before and backed after is backed in between. */
  lemma BackedAt(world: nat -> Snapshot, refs: seq<PathRef>, lo: nat, mid: nat, hi: nat)
    requires WithdrawnForGood(world) && AllBackedWithin(world, refs, lo, mid) && AllBackedWithin(world, refs, mid, hi)
    ensures AuthorityVerdict(refs, world(mid)) == None
  {
    forall k | 0 <= k < |refs|
      ensures world(mid).IsAuthorized(refs[k].path, refs[k].generation)
    {
      assert BackedWithin(world, refs[k], lo, mid) && BackedWithin(world, refs[k], mid, hi);
    }
    BackedMeansNoVerdict(refs, world(mid));
  }

  lemma BodyBinds(request: Request, p: Policy, facts: Facts, limits: Limits)
    requires |request.paths| > 0
    ensures var result := Body(request, p, facts, limits);
            && (Decisive(result.outcome) ==> result.matrix.order != [])
            && (result.matrix.order != [] ==>
                  && result.dependencies.paths == request.paths
                  && result.dependencies.topologyGeneration == facts.topologyGeneration
                  && result.dependencies.domainGeneration == facts.domainGeneration)
  {
    ResolveAllIndecisive(request.paths, facts);
  }

  /** Whatever passed the authority step and reached the matrix binds exactly the request. */
  lemma GivenBinds(request: Request, policy: Policy, verdict: Option<Outcome>, facts: Facts, limits: Limits)
    requires verdict.Some? ==> verdict.value in {UNAUTHORIZED, STALE_PATH_AUTHORITY}
    ensures var result := EvaluateGiven(request, policy, verdict, facts, limits);
            && (Decisive(result.outcome) ==> result.matrix.order != [])
            && (result.matrix.order != [] ==>
                  && verdict == None && Prelude(request, policy, limits) == None
                  && result.dependencies.paths == CanonicalRequest(request).paths
                  && result.dependencies.topologyGeneration == facts.topologyGeneration
                  && result.dependencies.domainGeneration == facts.domainGeneration)
  {
    match Prelude(request, policy, limits)
    case Some(refusal) =>
      assert EvaluateGiven(request, policy, verdict, facts, limits).matrix.order == [];
    case None =>
      if verdict == None {
        SortedSize(request);
        BodyBinds(CanonicalRequest(request), CanonicalPolicy(policy), facts, limits);
      }
  }

  /**
   * Without the promise about authorizations: the evidence of the verdict is that of
   * one instant, and every path was backed before that instant and again after it.
   */
  lemma EvidenceOfOneInstant(world: nat -> Snapshot, at: Instants, lo: nat, hi: nat, verdict: Option<Outcome>,
                             request: Request, policy: Policy, limits: Limits, out: Observation)
    requires Labelled(world) && at.Within(lo, hi) && out.Conclusive()
    requires ObservedAt(world, at, hi, verdict, request, policy, limits, out)
    ensures var facts, evaluation := world(at.end).facts, out.evaluation;
            && evaluation == EvaluateGiven(request, policy, None, facts, limits)
            && evaluation.dependencies.topologyGeneration == facts.topologyGeneration
            && evaluation.dependencies.domainGeneration == facts.domainGeneration
    ensures policy.requireAuthorityCurrent ==>
              && AllBackedWithin(world, CanonicalRequest(request).paths, at.start, at.end)
              && AllBackedWithin(world, CanonicalRequest(request).paths, at.end, hi)
  {
    SteadyBetween(world, at, lo, hi);
    GivenBinds(request, policy, verdict, world(at.start).facts, limits);
    if policy.requireAuthorityCurrent {
      LaterInterval(world, CanonicalRequest(request).paths, at.last, at.end, hi);
    }
  }

  lemma BackedThroughout(world: nat -> Snapshot, lo: nat, mid: nat, hi: nat, request: Request, policy: Policy,
                         limits: Limits)
    requires WithdrawnForGood(world)
    requires policy.requireAuthorityCurrent ==>
               && AllBackedWithin(world, CanonicalRequest(request).paths, lo, mid)
               && AllBackedWithin(world, CanonicalRequest(request).paths, mid, hi)
    ensures Evaluate(request, policy, world(mid), limits)
            == EvaluateGiven(request, policy, None, world(mid).facts, limits)
  {
    if policy.requireAuthorityCurrent {
      BackedAt(world, CanonicalRequest(request).paths, lo, mid, hi);
    }
  }

  /** Snapshot isolation: over coherent views whatever an unlocked evaluation can return is isolated. */
  lemma ObservableIsIsolated(world: nat -> Snapshot, lo: nat, hi: nat, request: Request, policy: Policy, limits: Limits,
                             out: Observation)
    requires Coherent(world) && Observable(world, lo, hi, request, policy, limits, out)
    ensures Isolated(world, lo, hi, request, policy, limits, out)
  {
    if out.Conclusive() {
      var at: Instants, verdict :| at.Within(lo, hi)
          && ObservedAt(world, at, hi, verdict, request, policy, limits, out);
      EvidenceOfOneInstant(world, at, lo, hi, verdict, request, policy, limits, out);
      BackedThroughout(world, at.start, at.end, hi, request, policy, limits);
    }
  }

  /** What a decisive atomic evaluation has passed and binds. */
  lemma AtomicFacts(request: Request, policy: Policy, snap: Snapshot, limits: Limits)
    requires Decisive(Evaluate(request, policy, snap, limits).outcome)
    ensures var evaluation := Evaluate(request, policy, snap, limits);
            && evaluation.observedTopology == snap.facts.topologyGeneration
            && evaluation.observedDomains == snap.facts.domainGeneration
            && evaluation.dependencies.paths == CanonicalRequest(request).paths
            && evaluation == EvaluateGiven(request, policy, None, snap.facts, limits)
    ensures policy.requireAuthorityCurrent ==> AuthorityVerdict(CanonicalRequest(request).paths, snap) == None
  {
    DecisiveReachesMatrix(request, policy, snap, limits);
    EvaluateIsBody(request, policy, snap, limits);
  }

  lemma ReadAtOnce(world: nat -> Snapshot, t: nat, request: Request, policy: Policy, limits: Limits, out: Observation)
    requires WatermarksRead(world, Instants(t, t, t, t, t), out) && !out.authorityDrift
    requires out.evaluation == EvaluateGiven(request, policy, None, world(t).facts, limits)
    requires out.evaluation.dependencies.paths == CanonicalRequest(request).paths
    requires policy.requireAuthorityCurrent ==> AllBackedWithin(world, CanonicalRequest(request).paths, t, t)
    ensures Observable(world, t, t, request, policy, limits, out)
  {
    var at := Instants(t, t, t, t, t);
    assert at.Within(t, t);
    assert ObservedAt(world, at, t, None, request, policy, limits, out);
  }

  /** An atomic evaluation, its watermarks read again at once, is one thing an unlocked evaluation can return. */
  lemma AtomicIsObservable(world: nat -> Snapshot, t: nat, request: Request, policy: Policy, limits: Limits)
    requires Decisive(Evaluate(request, policy, world(t), limits).outcome)
    ensures var evaluation, facts := Evaluate(request, policy, world(t), limits), world(t).facts;
            && evaluation.observedTopology == facts.topologyGeneration
            && evaluation.observedDomains == facts.domainGeneration
            && Observable(world, t, t, request, policy, limits,
                          Observation(evaluation, facts.topologyGeneration, facts.domainGeneration, false))
  {
    var evaluation, facts := Evaluate(request, policy, world(t), limits), world(t).facts;
    AtomicFacts(request, policy, world(t), limits);
    if policy.requireAuthorityCurrent {
      BackedMeansNoVerdict(CanonicalRequest(request).paths, world(t));
      BackedNow(world, CanonicalRequest(request).paths, t);
    }
    ReadAtOnce(world, t, request, policy, limits,
               Observation(evaluation, facts.topologyGeneration, facts.domainGeneration, false));
  }

  lemma BackedNow(world: nat -> Snapshot, refs: seq<PathRef>, t: nat)
    requires forall k | 0 <= k < |refs| :: world(t).IsAuthorized(refs[k].path, refs[k].generation)
    ensures AllBackedWithin(world, refs, t, t)
  {
    forall k | 0 <= k < |refs|
      ensures BackedWithin(world, refs[k], t, t)
    {
      assert world(t).IsAuthorized(refs[k].path, refs[k].generation);
    }
  }
}
