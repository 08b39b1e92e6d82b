/**
 * The premises of the theorems can be met: exactly which decisive verdicts, under which
 * policies and limits, some run of the program ends with as a current proof, and that
 * there are evidence, a request and a policy that evaluate to PROVEN_DIVERSE.
 */
module Reachability {
  import opened Bytes
  import opened Evidence
  import opened Evaluator
  import opened Verdicts
  import opened Observations
  import opened Registry
  import opened Protocol
  import opened Samples
  import opened Callers
  import opened Progress
  import opened Sizes
  import opened Loading
  import Runs
  import Runtime

  // ----- The program and its stores ------------------------------------------------------------------

  /** What the program meets: these views, and the store files that can be decoded under these limits. */
  ghost function Program(limits: Limits, world: nat -> Snapshot, codec: Codec): Env {
    Runtime.EnvOf(limits, world, Loadable(limits, codec))
  }

  /** A request and a policy, as a caller can pass them, whose evaluation at this instant is decisive. */
  ghost predicate DecidedAt(limits: Limits, world: nat -> Snapshot, t: nat, request: Request, policy: Policy) {
    && WellTypedRequest(request) && WellTypedPolicy(policy)
    && request == CanonicalRequest(request) && !HasDuplicatePaths(request.paths)
    && request.policy == policy.id && request.policyGeneration == policy.generation
    && Decisive(Evaluate(request, policy, world(t), limits).outcome)
  }

  /** What one atomic reading at the instant returns. */
  lemma AtomicReading(limits: Limits, world: nat -> Snapshot, codec: Codec, t: nat, request: Request, policy: Policy)
    returns (out: Observation)
    requires DecidedAt(limits, world, t, request, policy)
    ensures out.evaluation == Evaluate(request, policy, world(t), limits)
    ensures Answered(Program(limits, world, codec), request, policy, t, out)
  {
    var facts := world(t).facts;
    out := Observation(Evaluate(request, policy, world(t), limits), facts.topologyGeneration, facts.domainGeneration,
                       false);
    AtomicIsObservable(world, t, request, policy, limits);
    Runtime.UnlockedPhaseIsTrustworthy(limits, world, Loadable(limits, codec), t, t, request, policy, out);
  }

  lemma DecisiveMeansConsistent(limits: Limits, snap: Snapshot, request: Request, policy: Policy)
    requires Decisive(Evaluate(request, policy, snap, limits).outcome)
    ensures limits.SelfConsistent() && ValidPolicy(CanonicalPolicy(policy), limits)
  {
    DecisiveReachesMatrix(request, policy, snap, limits);
  }

  // ----- Exactly when a verdict becomes a current proof --------------------------------------------------

  /** The bounds are 32-bit numbers. */
  predicate WordBounds(limits: Limits) {
    limits.maxRequiredClasses < TWO_32 && limits.maxAttemptsTracked < TWO_32
  }

  /**
   * In runs that load nothing: a decisive verdict under a policy, whatever instant gives
   * it, becomes a current proof exactly if the policy is canonical and so many attempts
   * are tracked that all its generations can be published and one evaluation made.
   */
  lemma DecisiveVerdictsBecomeCurrent(limits: Limits, world: nat -> Snapshot, codec: Codec, now: nat, request: Request,
                                      policy: Policy)
    requires WordBounds(limits) && DecidedAt(limits, world, now, request, policy)
    ensures BecomesCurrent(Program(limits, world, codec), request, policy,
                           Evaluate(request, policy, world(now), limits), true)
            <==> policy == CanonicalPolicy(policy) && limits.maxAttemptsTracked > policy.generation
  {
    var env := Program(limits, world, codec);
    var out := AtomicReading(limits, world, codec, now, request, policy);
    DecisiveMeansConsistent(limits, world(now), request, policy);
    if policy == CanonicalPolicy(policy) && limits.maxAttemptsTracked > policy.generation {
      EnoughToPublish(env, request, policy, now, out);
    }
    if BecomesCurrent(env, request, policy, out.evaluation, true) {
      CurrentNeedsPolicy(env, request, policy, out.evaluation, true);
    }
  }

  /**
   * The policy can come into force with an attempt to spare: a store can bring it, or it
   * is canonical and can be published, from the first generation on or on top of the
   * smallest policy of the generation before that a store can bring.
   */
  ghost predicate Available(policy: Policy, limits: Limits) {
    || StoreFits(policy, limits)
    || (policy == CanonicalPolicy(policy)
        && (limits.maxAttemptsTracked > policy.generation || FitsOnTop(policy, limits)))
  }

  ghost predicate FitsOnTop(policy: Policy, limits: Limits) {
    && limits.maxAttemptsTracked > 1 && policy.generation > 1
    && StoreFits(Smallest(policy.id, policy.generation - 1), limits)
  }

  /** The stores bring what fits and nothing else. */
  ghost predicate Stocked(env: Env) {
    && (forall p | StoreFits(p, env.limits) :: env.stores(OnlyPolicy(p)))
    && (forall p | Brought(env, p) :: StoreFits(p, env.limits))
  }

  lemma ProgramIsStocked(limits: Limits, world: nat -> Snapshot, codec: Codec)
    requires limits.maxRequiredClasses < TWO_32 && limits.maxStoreRecords > 0
    ensures Stocked(Program(limits, world, codec))
  {
    LoadablesAreStocked(Program(limits, world, codec), codec);
  }

  lemma LoadablesAreStocked(env: Env, codec: Codec)
    requires env.stores == Loadable(env.limits, codec)
    requires env.limits.maxRequiredClasses < TWO_32 && env.limits.maxStoreRecords > 0
    ensures Stocked(env)
  {
    forall p | StoreFits(p, env.limits)
      ensures env.stores(OnlyPolicy(p))
    {
      AloneIsLoadable(p, env.limits, codec);
    }
    forall p | Brought(env, p)
      ensures StoreFits(p, env.limits)
    {
      LoadableIffStoreFits(p, env.limits, codec);
    }
  }

  lemma OnTopFits(env: Env, policy: Policy)
    requires Stocked(env) && Runs.PublishableOnLoad(env, policy)
    ensures env.limits.maxAttemptsTracked > policy.generation || FitsOnTop(policy, env.limits)
  {
    var q :| Brought(env, q) && q.id == policy.id;
    if policy.generation > 1 {
      SmallestFits(q, policy.generation - 1, env.limits);
    }
  }

  lemma CurrentNeedsAvailable(env: Env, request: Request, policy: Policy, evaluation: EvaluationResult)
    requires Stocked(env) && BecomesCurrent(env, request, policy, evaluation, false)
    ensures Available(policy, env.limits)
    ensures env.limits.maxAttemptsTracked > 1 || StoreFits(policy, env.limits)
  {
    CurrentNeedsPolicy(env, request, policy, evaluation, false);
    if Runs.PublishableOnLoad(env, policy) {
      OnTopFits(env, policy);
    }
  }

  lemma AvailableIsEnough(env: Env, now: nat, request: Request, policy: Policy, out: Observation)
    requires Stocked(env) && env.limits.SelfConsistent() && WordBounds(env.limits) && Available(policy, env.limits)
    requires ValidPolicy(CanonicalPolicy(policy), env.limits) && WellTypedPolicy(policy)
    requires Answered(env, request, policy, now, out)
    ensures BecomesCurrent(env, request, policy, out.evaluation, false)
  {
    if StoreFits(policy, env.limits) {
      EnoughToLoad(env, request, policy, now, out);
    } else if env.limits.maxAttemptsTracked > policy.generation {
      EnoughToPublish(env, request, policy, now, out);
    } else {
      EnoughToPublishOnLoad(env, request, Smallest(policy.id, policy.generation - 1), policy, now, out);
    }
  }

  /**
   * In all runs, loads included: a decisive verdict under a policy, whatever instant
   * gives it, becomes a current proof exactly if the policy is available.
   */
  lemma DecisiveVerdictsBecomeCurrentAfterLoad(limits: Limits, world: nat -> Snapshot, codec: Codec, now: nat,
                                               request: Request, policy: Policy)
    requires WordBounds(limits) && DecidedAt(limits, world, now, request, policy)
    ensures BecomesCurrent(Program(limits, world, codec), request, policy,
                           Evaluate(request, policy, world(now), limits), false)
            <==> Available(policy, limits)
  {
    var env := Program(limits, world, codec);
    var out := AtomicReading(limits, world, codec, now, request, policy);
    DecisiveMeansConsistent(limits, world(now), request, policy);
    ProgramIsStocked(limits, world, codec);
    if Available(policy, limits) {
      AvailableIsEnough(env, now, request, policy, out);
    }
    if BecomesCurrent(env, request, policy, out.evaluation, false) {
      CurrentNeedsAvailable(env, request, policy, out.evaluation);
    }
  }

  // ----- A verdict -------------------------------------------------------------------------------------

  /** Nothing moves. */
  ghost function Still(): nat -> Snapshot {
    t => SNAPSHOT
  }

  lemma StillIsCoherent()
    ensures Coherent(Still())
  {
  }

  /** Over coherent views some run ends with a PROVEN_DIVERSE verdict as a current proof it committed. */
  ghost predicate ProofAppears(limits: Limits, codec: Codec) {
    exists world: nat -> Snapshot, request, policy, evaluation: EvaluationResult ::
      && Coherent(world) && evaluation.outcome == PROVEN_DIVERSE
      && BecomesCurrent(Program(limits, world, codec), request, policy, evaluation, false)
  }

  lemma SampleIsTyped()
    ensures WellTypedRequest(REQUEST) && WellTypedPolicy(POLICY)
  {
  }

  lemma SampleIsAvailable(limits: Limits)
    requires limits.SelfConsistent()
    requires limits.maxAttemptsTracked > 1 || limits.maxStoreBytes >= SMALLEST_STORE
    ensures Available(POLICY, limits)
  {
    SampleIsTyped();
    PolicyIsCanonical(limits);
  }

  lemma SampleBecomesCurrent(limits: Limits, codec: Codec)
    requires limits.SelfConsistent() && WordBounds(limits) && Available(POLICY, limits)
    ensures ProofAppears(limits, codec)
  {
    StillIsCoherent();
    SampleIsProven(limits);
    RequestIsCanonical();
    SampleIsTyped();
    DecisiveVerdictsBecomeCurrentAfterLoad(limits, Still(), codec, 0, REQUEST, POLICY);
  }

  /**
   * Under self-consistent limits proven verdicts become current proofs exactly if two
   * attempts are tracked or a store file may have the 57 bytes of the smallest one that
   * holds a policy: the end-to-end statement is about something.
   */
  lemma ProvenProofsBecomeCurrent(limits: Limits, codec: Codec)
    requires limits.SelfConsistent() && WordBounds(limits)
    ensures SMALLEST_STORE == 57
    ensures ProofAppears(limits, codec) <==> limits.maxAttemptsTracked > 1 || limits.maxStoreBytes >= SMALLEST_STORE
  {
    if limits.maxAttemptsTracked > 1 || limits.maxStoreBytes >= SMALLEST_STORE {
      SampleIsAvailable(limits);
      SampleBecomesCurrent(limits, codec);
    }
    if ProofAppears(limits, codec) {
      ProofNeedsRoom(limits, codec);
    }
  }

  lemma ProofNeedsRoom(limits: Limits, codec: Codec)
    requires limits.maxRequiredClasses < TWO_32 && limits.maxStoreRecords > 0 && ProofAppears(limits, codec)
    ensures limits.maxAttemptsTracked > 1 || limits.maxStoreBytes >= SMALLEST_STORE
  {
    var world: nat -> Snapshot, request, policy, evaluation: EvaluationResult :|
      Coherent(world) && evaluation.outcome == PROVEN_DIVERSE
      && BecomesCurrent(Program(limits, world, codec), request, policy, evaluation, false);
    ProgramIsStocked(limits, world, codec);
    CurrentNeedsAvailable(Program(limits, world, codec), request, policy, evaluation);
    if StoreFits(policy, limits) {
      SmallestFits(policy, 1, limits);
    }
  }
}
