/**
 * Runs that get somewhere: a publisher registers, puts a policy in force by publications
 * or out of a store, evaluates under it, and ends with a current proof.
 */
module Progress {
  import opened Bytes
  import opened Evidence
  import opened Evaluator
  import opened Registry
  import opened Operations
  import opened Protocol
  import opened Callers
  import Runs
  import A = Authority

  // ----- A publisher and its attempts ----------------------------------------------------------------

  const SESSION := A.Session("publisher", "boot", "scope", 1, false)

  /** The n-th attempt of the publisher. */
  function Acting(n: nat, expected: nat): A.Acting {
    A.Acting(1, "publisher", "boot", "scope", Numeral(n), expected, 0)
  }

  lemma CallsAreTyped(n: nat, expected: nat)
    requires n < TWO_32 && expected < TWO_64
    ensures WellTypedSession(SESSION) && WellTypedActing(Acting(n, expected))
  {
    NumeralIsIdentity(n);
  }

  /** The publisher is registered and has used its first attempts; nothing is fenced. */
  ghost predicate Live(a: A.State, used: nat) {
    && a == A.State(1, false, map["boot" := SESSION], map["boot" := false], a.attempts)
    && |a.attempts| == used && forall attempt | attempt in a.attempts :: exists n | 0 <= n < used ::
         attempt == Numeral(n)
  }

  lemma Registered(limits: Limits)
    requires limits.SelfConsistent()
    ensures Live(A.Register(A.INITIAL, SESSION, limits).0, 0)
  {
    var s := A.INITIAL;
    assert A.Replaced(s, SESSION) == {};
    A.FenceNone(s);
    assert A.Register(s, SESSION, limits).0 == A.Enter(s, SESSION);
  }

  lemma Admitted(a: A.State, used: nat, expected: nat, payload: A.Payload, limits: Limits)
    requires Live(a, used) && used < limits.maxAttemptsTracked
    ensures Numeral(used) !in a.attempts
    ensures A.Admit(a, Acting(used, expected), payload, limits)
            == (a.(attempts := a.attempts[Numeral(used) := payload]), A.Status.ACCEPTED)
    ensures Live(a.(attempts := a.attempts[Numeral(used) := payload]), used + 1)
  {
    if Numeral(used) in a.attempts {
      var n :| 0 <= n < used && Numeral(used) == Numeral(n);
      NumeralInjective(used, n);
    }
    assert Numeral(used) == Numeral(used) && used < used + 1;
  }

  // ----- Runs that get somewhere --------------------------------------------------------------------

  lemma Extend(env: Env, events: seq<Event>, states: seq<System>, e: Event)
    requires IsRun(env, events, states) && |states| == |events| + 1 && Enabled(env, states[|events|], e)
    ensures IsRun(env, events + [e], states + [After(env, states[|events|], e)])
  {
    var more, longer := events + [e], states + [After(env, states[|events|], e)];
    assert more[..|events|] == events && longer[..|more|] == states;
  }

  /** A run of calls the program can be asked for has got to some state. */
  ghost predicate Reaches(env: Env, s: System) {
    exists events, states :: RunsTo(env, events, states, s)
  }

  ghost predicate RunsTo(env: Env, events: seq<Event>, states: seq<System>, s: System) {
    && IsRun(env, events, states) && |states| == |events| + 1 && states[|events|] == s
    && forall e | e in events :: Callable(e)
  }

  lemma Proceed(env: Env, s: System, e: Event)
    requires Reaches(env, s) && Enabled(env, s, e) && Callable(e)
    ensures Reaches(env, After(env, s, e))
  {
    var events, states :| RunsTo(env, events, states, s);
    Extend(env, events, states, e);
    assert RunsTo(env, events + [e], states + [After(env, s, e)], After(env, s, e));
  }

  lemma ReachedHolds(env: Env, s: System)
    requires Reaches(env, s)
    ensures Inv(env, s)
  {
    var events, states :| RunsTo(env, events, states, s);
    Runs.RunHolds(env, events, states);
  }

  lemma {:induction false} ReachesInstant(env: Env, t: nat)
    ensures Reaches(env, START.(now := t))
  {
    if t == 0 {
      assert RunsTo(env, [], [START], START) && START.(now := 0) == START;
    } else {
      ReachesInstant(env, t - 1);
      Proceed(env, START.(now := t - 1), Tick);
      assert After(env, START.(now := t - 1), Tick) == START.(now := t);
    }
  }

  /** Nothing is evaluated or restored yet, and this policy map is in force after so many attempts. */
  ghost predicate Ready(s: System, policies: map<string, Policy>, used: nat, now: nat) {
    && Live(s.shared.authority, used) && s.shared.registry.policies == policies && s.shared.registry.proofs == map[]
    && s.now == now && s.lock == None && s.calls == map[] && s.restored == {}
  }

  lemma ReachesRegistration(env: Env, now: nat) returns (s: System)
    requires env.limits.SelfConsistent()
    ensures Reaches(env, s) && Ready(s, map[], 0, now) && s.loads == 0 && s.shared.registry == EMPTY
  {
    ReachesInstant(env, now);
    Registered(env.limits);
    CallsAreTyped(0, 0);
    var start := START.(now := now);
    Proceed(env, start, RegisterPublisher(SESSION));
    s := After(env, start, RegisterPublisher(SESSION));
    assert s == WithAuthority(start, A.Register(A.INITIAL, SESSION, env.limits).0);
  }

  // ----- A policy is published ------------------------------------------------------------------------

  /** Nothing but this policy, in this generation, or nothing at all. */
  function InForce(policy: Policy, generation: nat): map<string, Policy> {
    if generation == 0 then map[] else map[policy.id := policy.(generation := generation)]
  }

  lemma OneMoreGeneration(r: Registry, policy: Policy, generation: nat)
    requires r.policies.Keys <= {policy.id} && GenerationOf(r.policies, policy.id) == generation
    requires CanonicalPolicy(policy) == policy
    ensures r.policies[policy.id := NextGeneration(r, policy)] == InForce(policy, generation + 1)
  {
    if policy.id !in r.policies {
      assert r.policies == map[];
    }
  }

  lemma AdmittedIsApplied(s: Shared, policy: Policy, acting: A.Acting, limits: Limits)
    requires s.registry.policies.Keys <= {policy.id}
    requires acting.expectedPolicyGeneration == GenerationOf(s.registry.policies, policy.id) < MAX_GENERATION
    requires limits.maxPolicies > 0 && CanonicalPolicy(policy) == policy
    ensures PublishAdmitted(s, policy, acting, limits)
            == (Shared(s.authority, s.registry.(policies := InForce(policy, acting.expectedPolicyGeneration + 1))),
                APPLIED)
  {
    OneMoreGeneration(s.registry, policy, acting.expectedPolicyGeneration);
    if policy.id !in s.registry.policies {
      assert s.registry.policies == map[];
    }
  }

  lemma PublicationIsApplied(s: Shared, policy: Policy, generation: nat, used: nat, limits: Limits)
    requires Live(s.authority, used) && used < limits.maxAttemptsTracked
    requires s.registry.policies.Keys <= {policy.id}
    requires GenerationOf(s.registry.policies, policy.id) == generation < MAX_GENERATION
    requires limits.maxPolicies > 0 && ValidPolicy(policy, limits) && CanonicalPolicy(policy) == policy
    ensures var (after, status) := PublishPolicy(s, policy, Acting(used, generation), limits);
            && status == APPLIED && Live(after.authority, used + 1)
            && after.registry == s.registry.(policies := InForce(policy, generation + 1))
  {
    var acting := Acting(used, generation);
    var authority := s.authority.(attempts := s.authority.attempts[Numeral(used) := PolicyContent(policy)]);
    Admitted(s.authority, used, generation, PolicyContent(policy), limits);
    AdmittedIsApplied(Shared(authority, s.registry), policy, acting, limits);
    AdmissionDecides(s, authority, policy, acting, limits);
  }

  lemma AdmissionDecides(s: Shared, authority: A.State, policy: Policy, acting: A.Acting, limits: Limits)
    requires ValidPolicy(CanonicalPolicy(policy), limits)
    requires A.Admit(s.authority, acting, PolicyContent(policy), limits) == (authority, A.Status.ACCEPTED)
    ensures PublishPolicy(s, policy, acting, limits)
            == PublishAdmitted(Shared(authority, s.registry), policy, acting, limits)
  {
  }

  lemma PublishNext(env: Env, before: System, policies: map<string, Policy>, policy: Policy, generation: nat, used: nat,
                    now: nat)
    returns (s: System)
    requires Reaches(env, before) && Ready(before, policies, used, now) && used < env.limits.maxAttemptsTracked < TWO_32
    requires policies.Keys <= {policy.id} && GenerationOf(policies, policy.id) == generation < MAX_GENERATION
    requires env.limits.maxPolicies > 0 && ValidPolicy(policy, env.limits) && CanonicalPolicy(policy) == policy
    requires WellTypedPolicy(policy)
    ensures Reaches(env, s) && Ready(s, InForce(policy, generation + 1), used + 1, now) && s.loads == before.loads
  {
    var acting := Acting(used, generation);
    CallsAreTyped(used, generation);
    PublicationIsApplied(before.shared, policy, generation, used, env.limits);
    Proceed(env, before, Publish(policy, acting));
    s := After(env, before, Publish(policy, acting));
    assert s == PublishOf(env, before, policy, acting);
  }

  /** Publishing the same policy again and again. */
  lemma {:induction false} ReachesGeneration(env: Env, policy: Policy, generation: nat, now: nat) returns (s: System)
    requires env.limits.SelfConsistent() && generation <= env.limits.maxAttemptsTracked < TWO_32
    requires ValidPolicy(policy, env.limits) && CanonicalPolicy(policy) == policy && WellTypedPolicy(policy)
    ensures Reaches(env, s) && Ready(s, InForce(policy, generation), generation, now) && s.loads == 0
    decreases generation
  {
    if generation == 0 {
      s := ReachesRegistration(env, now);
    } else {
      var before := ReachesGeneration(env, policy, generation - 1, now);
      s := PublishNext(env, before, InForce(policy, generation - 1), policy, generation - 1, generation - 1, now);
    }
  }

  // ----- A policy is loaded -----------------------------------------------------------------------------

  lemma LoadedPolicy(s: Shared, policy: Policy)
    requires s.registry == EMPTY
    ensures LoadedAuthority(s.authority, OnlyPolicy(policy)) == s.authority
            && LoadedProofs(s.registry, OnlyPolicy(policy)) == map[]
    ensures LoadPolicies(s.registry.policies, [policy]) == map[policy.id := policy]
    ensures Reindexed(NO_INDEXES, map[], NO_INDEXES)
    ensures RestoredFrom(OnlyPolicy(policy)) == {}
  {
    assert [policy][..0] == [];
  }

  lemma ReachesLoaded(env: Env, policy: Policy, now: nat) returns (s: System)
    requires env.limits.SelfConsistent() && env.stores(OnlyPolicy(policy)) && policy.generation <= MAX_GENERATION
    ensures Reaches(env, s) && Ready(s, map[policy.id := policy], 0, now)
  {
    var before := ReachesRegistration(env, now);
    LoadedPolicy(before.shared, policy);
    var e := Load(OnlyPolicy(policy), NO_INDEXES);
    Proceed(env, before, e);
    s := After(env, before, e);
    assert s == LoadOf(before, OnlyPolicy(policy), NO_INDEXES);
  }

  lemma ReachesOnTop(env: Env, first: Policy, policy: Policy, now: nat) returns (s: System)
    requires env.limits.SelfConsistent() && 1 < env.limits.maxAttemptsTracked < TWO_32
    requires ValidPolicy(policy, env.limits) && CanonicalPolicy(policy) == policy && WellTypedPolicy(policy)
    requires first.id == policy.id && first.generation + 1 == policy.generation && env.stores(OnlyPolicy(first))
    ensures Reaches(env, s) && Ready(s, map[policy.id := policy], 1, now)
  {
    var before := ReachesLoaded(env, first, now);
    s := PublishNext(env, before, map[policy.id := first], policy, first.generation, 0, now);
    assert InForce(policy, policy.generation) == map[policy.id := policy];
  }

  // ----- From a policy in force to a current proof -----------------------------------------------------

  /** The call of an evaluation that began at this instant. */
  function CallOf(request: Request, policy: Policy, used: nat, now: nat): Call {
    Call(request, Acting(used, 0), policy, now, None, now, Reading)
  }

  lemma BeginStep(env: Env, s: System, request: Request, policy: Policy, used: nat, now: nat)
    requires Ready(s, map[policy.id := policy], used, now) && used < env.limits.maxAttemptsTracked < TWO_32
    requires request == CanonicalRequest(request) && !HasDuplicatePaths(request.paths) && WellTypedRequest(request)
    requires request.policy == policy.id && request.policyGeneration == policy.generation
    ensures var e := Begin(0, request, Acting(used, 0)); Enabled(env, s, e) && Callable(e)
    ensures var t := After(env, s, Begin(0, request, Acting(used, 0)));
            && t == s.(shared := t.shared, calls := map[0 := CallOf(request, policy, used, now)])
            && t.shared.registry == s.shared.registry && Live(t.shared.authority, used + 1)
  {
    CallsAreTyped(used, 0);
    Admitted(s.shared.authority, used, 0, A.RequestPayload(request), env.limits);
    assert After(env, s, Begin(0, request, Acting(used, 0))) == BeginOf(env, s, 0, request, Acting(used, 0));
  }

  lemma ReadAndLock(env: Env, s: System, call: Call, observation: Observation)
    requires s.calls == map[0 := call] && call.phase == Reading && s.lock == None && s.now == call.read
    requires env.observes(call.began, s.now, call.request, call.policy, observation)
    requires PolicyHolds(s.shared.registry, call.request, call.policy)
    ensures Enabled(env, s, Read(0, observation))
    ensures var t := After(env, s, Read(0, observation));
            && Enabled(env, t, Lock(0))
            && After(env, t, Lock(0))
               == s.(calls := map[0 := call.(observed := Some(observation), phase := HoldsPolicy)], lock := Some(0))
  {
  }

  lemma CheckBoth(env: Env, s: System, call: Call)
    requires s.calls == map[0 := call] && call.phase == HoldsPolicy && s.lock == Some(0)
    requires s.shared.authority.epoch == call.acting.epoch && !s.shared.authority.IsFenced(call.acting.boot)
    ensures Enabled(env, s, CheckEpoch(0))
    ensures var t := After(env, s, CheckEpoch(0));
            Enabled(env, t, CheckFence(0))
            && After(env, t, CheckFence(0)) == s.(calls := map[0 := call.(phase := HoldsFence)])
  {
  }

  lemma FirstCommit(r: Registry, request: Request, finished: Finished, acting: A.Acting, limits: Limits)
    requires r.proofs == map[] && limits.maxProofs > 0 && acting.expectedProofGeneration == 0
    requires !finished.drifted && Decisive(finished.evaluation.outcome)
    ensures var c := Commit(r, request, finished, acting, limits);
            && c.status == APPLIED && c.registry.IsCurrent(request)
            && c.registry.proofs[request].current.evaluation == finished.evaluation
            && c.committed == Some(c.registry.proofs[request].current)
  {
    assert BLANK.Stored() == false;
  }

  /** The last entry of the log is the commit of this current proof under this policy. */
  ghost predicate JustCommitted(t: System, request: Request, policy: Policy, evaluation: EvaluationResult) {
    && t.shared.registry.IsCurrent(request) && t.restored == {}
    && t.shared.registry.proofs[request].current.evaluation == evaluation
    && t.log != [] && var e := t.log[|t.log| - 1];
       e.Revision? && e.proof == t.shared.registry.proofs[request].current && e.policy == policy
  }

  lemma CommitStep(env: Env, s: System, call: Call, observation: Observation)
    requires s.calls == map[0 := call] && call.phase == HoldsFence && call.observed == Some(observation)
             && s.lock == Some(0) && s.restored == {}
    requires s.shared.registry.proofs == map[] && env.limits.maxProofs > 0 && call.acting.expectedProofGeneration == 0
    requires observation.Undrifted() && Decisive(observation.evaluation.outcome)
    ensures Enabled(env, s, CommitCall(0))
    ensures var t := After(env, s, CommitCall(0));
            JustCommitted(t, call.request, call.policy, observation.evaluation) && t.loads == s.loads
  {
    FirstCommit(s.shared.registry, call.request, Finish(observation), call.acting, env.limits);
  }

  lemma CallCompletes(env: Env, s: System, call: Call, observation: Observation) returns (t: System)
    requires Reaches(env, s) && s.calls == map[0 := call] && call.phase == Reading && s.lock == None
             && s.now == call.read && s.restored == {}
    requires env.observes(call.began, s.now, call.request, call.policy, observation)
    requires PolicyHolds(s.shared.registry, call.request, call.policy)
    requires s.shared.authority.epoch == call.acting.epoch && !s.shared.authority.IsFenced(call.acting.boot)
    requires s.shared.registry.proofs == map[] && env.limits.maxProofs > 0 && call.acting.expectedProofGeneration == 0
    requires observation.Undrifted() && Decisive(observation.evaluation.outcome)
    ensures Reaches(env, t) && t.loads == s.loads
    ensures JustCommitted(t, call.request, call.policy, observation.evaluation)
  {
    ReadAndLock(env, s, call, observation);
    Proceed(env, s, Read(0, observation));
    var s1 := After(env, s, Read(0, observation));
    Proceed(env, s1, Lock(0));
    var s2 := After(env, s1, Lock(0));
    var held := call.(observed := Some(observation), phase := HoldsPolicy);
    CheckBoth(env, s2, held);
    Proceed(env, s2, CheckEpoch(0));
    var s3 := After(env, s2, CheckEpoch(0));
    Proceed(env, s3, CheckFence(0));
    var s4 := After(env, s3, CheckFence(0));
    CommitStep(env, s4, held.(phase := HoldsFence), observation);
    Proceed(env, s4, CommitCall(0));
    t := After(env, s4, CommitCall(0));
  }

  /**
   * A run of the program gets to this state, in which this evaluation is a current proof
   * that the run committed under exactly this policy.
   */
  ghost predicate EndsWith(env: Env, t: System, request: Request, policy: Policy, evaluation: EvaluationResult) {
    && Reaches(env, t) && Runs.CommittedHere(t, request)
    && t.shared.registry.proofs[request].current.evaluation == evaluation
    && exists k: nat :: Runs.CommitAt(t, k, t.shared.registry.proofs[request].current) && t.log[k].policy == policy
  }

  lemma CommittedEndsWith(env: Env, t: System, request: Request, policy: Policy, evaluation: EvaluationResult)
    requires Reaches(env, t) && JustCommitted(t, request, policy, evaluation)
    ensures EndsWith(env, t, request, policy, evaluation)
  {
    ReachedHolds(env, t);
    Runs.EntryIsCommit(env, t, |t.log| - 1);
  }

  /** An observation of this instant, decisive and undrifted, for a request and a policy as a caller passes them. */
  ghost predicate Answered(env: Env, request: Request, policy: Policy, now: nat, out: Observation) {
    && WellTypedRequest(request) && request == CanonicalRequest(request) && !HasDuplicatePaths(request.paths)
    && request.policy == policy.id && request.policyGeneration == policy.generation
    && env.observes(now, now, request, policy, out) && out.Undrifted() && Decisive(out.evaluation.outcome)
  }

  /** This evaluation becomes a current proof under this policy in some run, or in one that loads nothing. */
  ghost predicate BecomesCurrent(env: Env, request: Request, policy: Policy, evaluation: EvaluationResult,
                                 unloaded: bool)
  {
    exists t :: EndsWith(env, t, request, policy, evaluation) && (unloaded ==> t.loads == 0)
  }

  lemma ReachesVerdict(env: Env, s: System, request: Request, policy: Policy, used: nat, now: nat, out: Observation)
    requires env.limits.SelfConsistent() && Answered(env, request, policy, now, out)
    requires Reaches(env, s) && Ready(s, map[policy.id := policy], used, now)
    requires used < env.limits.maxAttemptsTracked < TWO_32
    ensures BecomesCurrent(env, request, policy, out.evaluation, s.loads == 0)
  {
    BeginStep(env, s, request, policy, used, now);
    Proceed(env, s, Begin(0, request, Acting(used, 0)));
    var t := CallCompletes(env, After(env, s, Begin(0, request, Acting(used, 0))),
                           CallOf(request, policy, used, now), out);
    CommittedEndsWith(env, t, request, policy, out.evaluation);
  }

  // ----- What it takes and what is enough -------------------------------------------------------------

  /** What the commit of a proof tells of its policy. */
  lemma NeedsPolicy(env: Env, t: System, request: Request, policy: Policy, evaluation: EvaluationResult)
    requires EndsWith(env, t, request, policy, evaluation)
    ensures Runs.Publishable(policy, env.limits)
            || (t.loads > 0 && (Brought(env, policy) || Runs.PublishableOnLoad(env, policy)))
  {
    var events, states :| RunsTo(env, events, states, t);
    var k: nat :| Runs.CommitAt(t, k, t.shared.registry.proofs[request].current) && t.log[k].policy == policy;
    Runs.CommitNeedsPolicy(env, events, states, |events|, k);
  }

  lemma CurrentNeedsPolicy(env: Env, request: Request, policy: Policy, evaluation: EvaluationResult, unloaded: bool)
    requires BecomesCurrent(env, request, policy, evaluation, unloaded)
    ensures Runs.Publishable(policy, env.limits)
            || (!unloaded && (Brought(env, policy) || Runs.PublishableOnLoad(env, policy)))
  {
    var t :| EndsWith(env, t, request, policy, evaluation) && (unloaded ==> t.loads == 0);
    NeedsPolicy(env, t, request, policy, evaluation);
  }

  lemma EnoughToPublish(env: Env, request: Request, policy: Policy, now: nat, out: Observation)
    requires env.limits.SelfConsistent() && Answered(env, request, policy, now, out)
    requires Runs.Publishable(policy, env.limits) && WellTypedPolicy(policy) && env.limits.maxAttemptsTracked < TWO_32
    ensures BecomesCurrent(env, request, policy, out.evaluation, true)
  {
    var s := ReachesGeneration(env, policy, policy.generation, now);
    assert InForce(policy, policy.generation) == map[policy.id := policy];
    ReachesVerdict(env, s, request, policy, policy.generation, now, out);
  }

  lemma EnoughToLoad(env: Env, request: Request, policy: Policy, now: nat, out: Observation)
    requires env.limits.SelfConsistent() && Answered(env, request, policy, now, out)
    requires env.stores(OnlyPolicy(policy)) && policy.generation <= MAX_GENERATION
    requires env.limits.maxAttemptsTracked < TWO_32
    ensures BecomesCurrent(env, request, policy, out.evaluation, false)
  {
    var s := ReachesLoaded(env, policy, now);
    ReachesVerdict(env, s, request, policy, 0, now, out);
  }

  lemma EnoughToPublishOnLoad(env: Env, request: Request, first: Policy, policy: Policy, now: nat, out: Observation)
    requires env.limits.SelfConsistent() && Answered(env, request, policy, now, out)
    requires 1 < env.limits.maxAttemptsTracked < TWO_32
    requires ValidPolicy(policy, env.limits) && CanonicalPolicy(policy) == policy && WellTypedPolicy(policy)
    requires first.id == policy.id && first.generation + 1 == policy.generation && env.stores(OnlyPolicy(first))
    ensures BecomesCurrent(env, request, policy, out.evaluation, false)
  {
    var s := ReachesOnTop(env, first, policy, now);
    ReachesVerdict(env, s, request, policy, 1, now, out);
  }

  // ----- Phase three in one piece ----------------------------------------------------------------------------

  /** The four steps of phase three with nothing in between; a refused call is over at once. */
  ghost function Uninterrupted(env: Env, s: System, c: nat): System
    requires s.lock == None && InPhase(s, c, Waiting) && s.calls[c].observed.Some?
  {
    var held := LockOf(s, c);
    if c !in held.calls then held
    else
      var current := CheckEpochOf(held, c);
      if c !in current.calls then current
      else
        var unfenced := CheckFenceOf(current, c);
        if c !in unfenced.calls then unfenced else CommitOf(env, unfenced, c)
  }

  lemma RefusedIsAbandoned(env: Env, s: System, c: nat)
    requires s.lock == None && InPhase(s, c, Waiting) && s.calls[c].observed.Some?
    requires var call, a := s.calls[c], s.shared.authority;
             !PolicyHolds(s.shared.registry, call.request, call.policy) || a.epoch != call.acting.epoch
             || a.IsFenced(call.acting.boot)
    ensures var t := Uninterrupted(env, s, c);
            && t.shared == s.shared.(authority := A.Forget(s.shared.authority, s.calls[c].acting.attempt))
            && t.lock == None && t.calls == s.calls - {c}
  {
    var call := s.calls[c];
    if PolicyHolds(s.shared.registry, call.request, call.policy) {
      var held := LockOf(s, c);
      assert held.calls - {c} == s.calls - {c};
      if s.shared.authority.epoch == call.acting.epoch {
        assert CheckEpochOf(held, c).calls - {c} == s.calls - {c};
      }
    }
  }

  lemma AcceptedIsCommitted(env: Env, s: System, c: nat)
    requires s.lock == None && InPhase(s, c, Waiting) && s.calls[c].observed.Some?
    requires var call, a := s.calls[c], s.shared.authority;
             PolicyHolds(s.shared.registry, call.request, call.policy) && a.epoch == call.acting.epoch
             && !a.IsFenced(call.acting.boot)
    ensures var call, t := s.calls[c], Uninterrupted(env, s, c);
            && t.shared == CommitEvaluation(s.shared, call.request, Finish(call.observed.value), call.acting,
                                            env.limits).0
            && t.lock == None && t.calls == s.calls - {c}
  {
    var call := s.calls[c];
    var unfenced := CheckFenceOf(CheckEpochOf(LockOf(s, c), c), c);
    assert unfenced == s.(calls := s.calls[c := call.(phase := HoldsFence)], lock := Some(c));
    ConcludeSettles(env, unfenced, c, CommitmentOf(env, unfenced, c));
    assert unfenced.calls - {c} == s.calls - {c};
  }

  lemma ConcludeSettles(env: Env, s: System, c: nat, commitment: Commitment)
    requires c in s.calls && s.calls[c].observed.Some?
    ensures var t := Protocol.Conclude(s, c, commitment);
            t.shared == Settle(s.shared, s.calls[c].acting, commitment) && t.lock == None && t.calls == s.calls - {c}
  {
  }

  /** Undisturbed, the steps of the protocol are the runtime's third phase, and the call is over. */
  lemma UninterruptedIsFinish(env: Env, s: System, c: nat)
    requires s.lock == None && InPhase(s, c, Waiting) && s.calls[c].observed.Some?
    ensures var call, t := s.calls[c], Uninterrupted(env, s, c);
            && t.shared == FinishEvaluation(s.shared, call.request, call.policy, Finish(call.observed.value),
                                            call.acting, env.limits).0
            && t.lock == None && t.calls == s.calls - {c}
  {
    var call, a := s.calls[c], s.shared.authority;
    if PolicyHolds(s.shared.registry, call.request, call.policy) && a.epoch == call.acting.epoch
       && !a.IsFenced(call.acting.boot) {
      AcceptedIsCommitted(env, s, c);
    } else {
      RefusedIsAbandoned(env, s, c);
    }
  }
}
