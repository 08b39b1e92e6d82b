/**
 * The runtime as a state machine.  One lock protects the registry; evaluations read
 * the views without it and check policy, epoch and fence again one by one before they
 * commit.  Authority operations, demotions, publications, loads and writers may step
 * in wherever the lock allows.
 */
module Protocol {
  import opened Evidence
  import opened Evaluator
  import opened Registry
  import opened Invalidation
  import opened Operations
  import ConflictOrder
  import L = Lifecycle
  import A = Authority

  // ----- States ------------------------------------------------------------------------

  /** How far an evaluation has come; from HoldsPolicy on it holds the lock. */
  datatype Phase = Reading | Waiting | HoldsPolicy | HoldsEpoch | HoldsFence

  datatype Call = Call(
    request: Request,
    acting: A.Acting,
    policy: Policy,
    began: nat,
    observed: Option<Observation>,
    read: nat,
    phase: Phase)
  {
    predicate Locked() {
      phase in {HoldsPolicy, HoldsEpoch, HoldsFence}
    }
  }

  /** What attempts ended in, oldest first: a policy, a revision, or nothing new to say. */
  datatype Entry =
    | Publication(attempt: string, policy: Policy, published: nat)
    | Revision(attempt: string, proof: Proof, policy: Policy, observation: Observation, began: nat, read: nat,
               committed: nat)
    | Unchanged(attempt: string)

  datatype System = System(
    shared: Shared,
    lock: Option<nat>,
    calls: map<nat, Call>,
    now: nat,
    log: seq<Entry>,
    seen: set<Seen>,
    fencing: set<string>,
    fenced: set<string>,
    loads: nat,
    restored: set<Seen>,
    restoredPolicies: set<Policy>)

  const START := System(Shared(A.INITIAL, EMPTY), None, map[], 0, [], {}, {}, {}, 0, {}, {})

  /**
   * What the views would give at every instant: the verdict of one atomic evaluation and
   * the two watermarks; what an evaluation that reads between two instants can return; and
   * what a load can find in a store.
   */
  datatype Env = Env(
    limits: Limits,
    verdictAt: (nat, Request, Policy) -> EvaluationResult,
    topologyAt: nat -> nat,
    domainsAt: nat -> nat,
    observes: (nat, nat, Request, Policy, Observation) -> bool,
    stores: StoreContents -> bool)

  /** The verdict of one instant, at the generations it binds. */
  ghost predicate FromOneInstant(env: Env, lo: nat, hi: nat, request: Request, policy: Policy,
                                 evaluation: EvaluationResult)
  {
    exists t: nat | lo <= t <= hi ::
      && evaluation == env.verdictAt(t, request, policy)
      && env.topologyAt(t) == evaluation.dependencies.topologyGeneration
      && env.domainsAt(t) == evaluation.dependencies.domainGeneration
  }

  /** A conclusive observation is the verdict of one instant. */
  ghost predicate Trustworthy(env: Env, lo: nat, hi: nat, request: Request, policy: Policy, out: Observation) {
    out.Conclusive() ==> FromOneInstant(env, lo, hi, request, policy, out.evaluation)
  }

  /** All observations are trustworthy; coherent views make them so. */
  ghost predicate Faithful(env: Env) {
    forall lo: nat, hi: nat, request, policy, out | env.observes(lo, hi, request, policy, out) ::
      Trustworthy(env, lo, hi, request, policy, out)
  }

  // ----- Events -------------------------------------------------------------------------

  datatype Event =
    | Tick
    | Begin(call: nat, request: Request, acting: A.Acting)
    | Read(call: nat, observation: Observation)
    | Lock(call: nat)
    | CheckEpoch(call: nat)
    | CheckFence(call: nat)
    | CommitCall(call: nat)
    | Publish(policy: Policy, acting: A.Acting)
    | ChangeLifecycle(id: ProofId, acting: A.Acting, target: L.State)
    | RestoreEpoch(epoch: nat)
    | RegisterPublisher(session: A.Session)
    | Fence(boot: string)
    | FinishFence(boot: string)
    | DemoteOnPath(path: string)
    | DemoteOnPolicy(policyId: string, generation: nat)
    | DemoteOnBoot(boot: string)
    | DemoteOnEntities(entities: seq<EntityRef>, generation: nat)
    | DemoteOnDomains(domains: seq<string>, generation: nat)
    | DemoteOnTopology(generation: nat)
    | DemoteOnDomainGeneration(generation: nat)
    | RefreshCurrentness(live: set<ProofId>, stalePolicies: set<ProofId>, stalePaths: set<ProofId>)
    | Load(contents: StoreContents, index: Indexes)

  predicate InPhase(s: System, c: nat, phase: Phase) {
    c in s.calls && s.calls[c].phase == phase
  }

  predicate HasLock(s: System, c: nat, phase: Phase) {
    s.lock == Some(c) && InPhase(s, c, phase)
  }

  /** Policy generations are 64-bit numbers. */
  predicate WideEnough(contents: StoreContents) {
    forall p | p in contents.policies :: p.generation <= MAX_GENERATION
  }

  ghost predicate Enabled(env: Env, s: System, e: Event) {
    match e
    case Tick => true
    case Begin(c, request, acting) =>
      s.lock == None && c !in s.calls && request == CanonicalRequest(request) && !HasDuplicatePaths(request.paths)
    case Read(c, observation) =>
      && InPhase(s, c, Reading)
      && env.observes(s.calls[c].began, s.now, s.calls[c].request, s.calls[c].policy, observation)
    case Lock(c) => s.lock == None && InPhase(s, c, Waiting) && s.calls[c].observed.Some?
    case CheckEpoch(c) => HasLock(s, c, HoldsPolicy)
    case CheckFence(c) => HasLock(s, c, HoldsEpoch)
    case CommitCall(c) => HasLock(s, c, HoldsFence) && s.calls[c].observed.Some?
    case ChangeLifecycle(id, acting, target) => s.lock == None && LifecycleTarget(target)
    case RestoreEpoch(epoch) => true
    case RegisterPublisher(session) => true
    case Fence(boot) => true
    case FinishFence(boot) => s.lock == None && boot in s.fencing
    case Load(contents, index) =>
      && s.lock == None && env.stores(contents) && WideEnough(contents)
      && Reindexed(s.shared.registry.index, LoadedProofs(s.shared.registry, contents), index)
    case _ => s.lock == None
  }

  // ----- Effects ------------------------------------------------------------------------------

  function SetPhase(s: System, c: nat, phase: Phase): System
    requires c in s.calls
  {
    s.(calls := s.calls[c := s.calls[c].(phase := phase)])
  }

  /** The call is refused: its attempt is forgotten and the lock is free. */
  function Abandon(s: System, c: nat): System
    requires c in s.calls
  {
    s.(shared := s.shared.(authority := A.Forget(s.shared.authority, s.calls[c].acting.attempt)),
       calls := s.calls - {c}, lock := None)
  }

  /** A stale path or a lost authorization keeps its own reason; other drift does not. */
  function Finish(o: Observation): Finished {
    var excused := o.evaluation.outcome == Outcome.STALE_PATH_AUTHORITY || o.evaluation.outcome == Outcome.UNAUTHORIZED;
    Finished(o.evaluation,
             o.topologyAfter != o.evaluation.observedTopology || o.domainsAfter != o.evaluation.observedDomains
             || (o.authorityDrift && !excused))
  }

  /** What the log keeps of a call that committed this revision. */
  function EntryOf(call: Call, p: Proof, now: nat): Entry
    requires call.observed.Some?
  {
    Revision(call.acting.attempt, p, call.policy, call.observed.value, call.began, call.read, now)
  }

  /** The call ends with this commitment and gives the lock back. */
  function Conclude(s: System, c: nat, commitment: Commitment): System
    requires c in s.calls && s.calls[c].observed.Some?
  {
    var call := s.calls[c];
    var done := s.(shared := Settle(s.shared, call.acting, commitment), calls := s.calls - {c}, lock := None);
    match commitment.committed
    case Some(p) =>
      done.(log := s.log + [EntryOf(call, p, s.now)],
            seen := s.seen + {Seen(call.request, p)})
    case None =>
      if commitment.status == UNCHANGED then done.(log := s.log + [Unchanged(call.acting.attempt)]) else done
  }

  function CommitmentOf(env: Env, s: System, c: nat): Commitment
    requires c in s.calls && s.calls[c].observed.Some?
  {
    Commit(s.shared.registry, s.calls[c].request, Finish(s.calls[c].observed.value), s.calls[c].acting, env.limits)
  }

  function CommitOf(env: Env, s: System, c: nat): System
    requires c in s.calls && s.calls[c].observed.Some?
  {
    Conclude(s, c, CommitmentOf(env, s, c))
  }

  function Demoted(s: System, d: Demotion): System {
    s.(shared := s.shared.(registry := d.registry))
  }

  /** From here on the boot holds nothing current. */
  function FenceDone(s: System, boot: string): System {
    s.(fencing := s.fencing - {boot}, fenced := s.fenced + {boot})
  }

  function WithAuthority(s: System, authority: A.State): System {
    s.(shared := s.shared.(authority := authority))
  }

  function BeginOf(env: Env, s: System, c: nat, request: Request, acting: A.Acting): System {
    var (shared, begun) := BeginEvaluation(s.shared, request, acting, env.limits);
    match begun
    case Admitted(policy) => s.(shared := shared,
                                calls := s.calls[c := Call(request, acting, policy, s.now, None, s.now, Reading)])
    case _ => s.(shared := shared)
  }

  function PublishedAs(s: System, id: string, attempt: string, shared: Shared, status: MutationStatus): System {
    s.(shared := shared,
       log := if status == APPLIED && id in shared.registry.policies
              then s.log + [Publication(attempt, shared.registry.policies[id], s.now)] else s.log)
  }

  function PublishOf(env: Env, s: System, policy: Policy, acting: A.Acting): System {
    var (shared, status) := PublishPolicy(s.shared, policy, acting, env.limits);
    PublishedAs(s, policy.id, acting.attempt, shared, status)
  }

  /** The records of fenced boots come back as they were stored, so no fence counts as finished any more. */
  ghost function LoadOf(s: System, contents: StoreContents, index: Indexes): System {
    var proofs := LoadedProofs(s.shared.registry, contents);
    s.(shared := Shared(LoadedAuthority(s.shared.authority, contents),
                        Registry(LoadPolicies(s.shared.registry.policies, contents.policies), proofs, index)),
       seen := s.seen + RecordsSeen(proofs),
       fenced := {},
       loads := s.loads + 1,
       restored := s.restored + RestoredFrom(contents),
       restoredPolicies := s.restoredPolicies + set p | p in contents.policies)
  }

  function ReadOf(s: System, c: nat, observation: Observation): System
    requires c in s.calls
  {
    s.(calls := s.calls[c := s.calls[c].(observed := Some(observation), read := s.now, phase := Waiting)])
  }

  function LockOf(s: System, c: nat): System
    requires c in s.calls
  {
    if PolicyHolds(s.shared.registry, s.calls[c].request, s.calls[c].policy)
        then SetPhase(s, c, HoldsPolicy).(lock := Some(c))
    else Abandon(s, c)
  }

  function CheckEpochOf(s: System, c: nat): System
    requires c in s.calls
  {
    if s.shared.authority.epoch == s.calls[c].acting.epoch then SetPhase(s, c, HoldsEpoch) else Abandon(s, c)
  }

  function CheckFenceOf(s: System, c: nat): System
    requires c in s.calls
  {
    if !s.shared.authority.IsFenced(s.calls[c].acting.boot) then SetPhase(s, c, HoldsFence) else Abandon(s, c)
  }

  ghost function After(env: Env, s: System, e: Event): System
    requires Enabled(env, s, e)
  {
    var r := s.shared.registry;
    match e
    case Tick => s.(now := s.now + 1)
    case Begin(c, request, acting) => BeginOf(env, s, c, request, acting)
    case Read(c, observation) => ReadOf(s, c, observation)
    case Lock(c) => LockOf(s, c)
    case CheckEpoch(c) => CheckEpochOf(s, c)
    case CheckFence(c) => CheckFenceOf(s, c)
    case CommitCall(c) => CommitOf(env, s, c)
    case Publish(policy, acting) => PublishOf(env, s, policy, acting)
    case ChangeLifecycle(id, acting, target) => s.(shared := ApplyLifecycle(s.shared, id, acting, target, env.limits).0)
    case RestoreEpoch(epoch) => WithAuthority(s, A.RestoreEpoch(s.shared.authority, epoch).0)
    case RegisterPublisher(session) => WithAuthority(s, A.Register(s.shared.authority, session, env.limits).0)
    case Fence(boot) => WithAuthority(s, A.FenceBoot(s.shared.authority, boot).0).(fencing := s.fencing + {boot})
    case FinishFence(boot) => FenceDone(Demoted(s, DemoteBoot(r, boot)), boot)
    case DemoteOnPath(path) => Demoted(s, DemotePath(r, path))
    case DemoteOnPolicy(policy, generation) => Demoted(s, DemotePolicy(r, policy, generation))
    case DemoteOnBoot(boot) => Demoted(s, DemoteBoot(r, boot))
    case DemoteOnEntities(entities, generation) => Demoted(s, DemoteEntities(r, entities, generation))
    case DemoteOnDomains(domains, generation) => Demoted(s, DemoteDomains(r, domains, generation))
    case DemoteOnTopology(generation) => Demoted(s, DemoteTopologyGeneration(r, generation))
    case DemoteOnDomainGeneration(generation) => Demoted(s, DemoteDomainGeneration(r, generation))
    case RefreshCurrentness(live, stalePolicies, stalePaths) => Demoted(s, Refresh(r, live, stalePolicies, stalePaths))
    case Load(contents, index) => LoadOf(s, contents, index)
  }

  /** One step of a history: the event was enabled and had its effect. */
  ghost predicate Steps(env: Env, s: System, e: Event, t: System) {
    Enabled(env, s, e) && t == After(env, s, e)
  }

  /** A history, with the state before and after every event. */
  ghost predicate IsRun(env: Env, events: seq<Event>, states: seq<System>)
    decreases |events|
  {
    && |states| == |events| + 1
    && if events == [] then states[0] == START
       else
         var last := |events| - 1;
         IsRun(env, events[..last], states[..|events|]) && Steps(env, states[last], events[last], states[|events|])
  }

  // ----- Invariants ------------------------------------------------------------------------------

  ghost predicate IndexOk(r: Registry, seen: set<Seen>) {
    Complete(r) && Sound(r.index, seen)
  }

  ghost predicate LoggedRevision(log: seq<Entry>, p: Proof) {
    exists k :: 0 <= k < |log| && log[k].Revision? && log[k].proof == p
  }

  /** Every current proof is a revision exactly as it was committed, or as a load read it. */
  ghost predicate OriginOk(r: Registry, log: seq<Entry>, restored: set<Seen>) {
    forall id | r.IsCurrent(id) && Seen(id, r.proofs[id].current) !in restored ::
      r.proofs[id].current.request == id && LoggedRevision(log, r.proofs[id].current)
  }

  ghost predicate RegistryOk(r: Registry, seen: set<Seen>, log: seq<Entry>, restored: set<Seen>) {
    IndexOk(r, seen) && ConsultedComplete(r, restored) && OriginOk(r, log, restored)
  }

  /** At most one call is past the lock, and the lock names it. */
  ghost predicate LockOk(lock: Option<nat>, calls: map<nat, Call>) {
    && (lock.Some? ==> lock.value in calls && calls[lock.value].Locked())
    && (forall c | c in calls && calls[c].Locked() :: lock == Some(c))
  }

  ghost predicate PastFence(calls: map<nat, Call>, fenced: set<string>) {
    forall c | c in calls && calls[c].phase == HoldsFence :: calls[c].acting.boot !in fenced
  }

  /** A boot whose fencing has returned holds no current proof and cannot be about to commit one. */
  ghost predicate FenceOk(authority: A.State, r: Registry, fencing: set<string>, fenced: set<string>,
                          calls: map<nat, Call>)
  {
    && (forall b | b in fencing + fenced :: b == "" || authority.IsFenced(b))
    && (forall id | r.IsCurrent(id) :: r.proofs[id].current.provenance.boot !in fenced)
    && PastFence(calls, fenced)
  }

  /** What a call in flight stands for. */
  ghost predicate CallOk(env: Env, call: Call, now: nat) {
    && call.began <= call.read <= now
    && call.acting.WellFormed()
    && call.policy.id == call.request.policy && call.policy.generation == call.request.policyGeneration
    && (call.phase != Reading ==>
          call.observed.Some? && env.observes(call.began, call.read, call.request, call.policy, call.observed.value))
  }

  ghost predicate CallsOk(env: Env, calls: map<nat, Call>, now: nat) {
    forall c | c in calls :: CallOk(env, calls[c], now)
  }

  /**
   * A committed revision carries an observation made under the policy it names; a current
   * one carries the very verdict of that observation.
   */
  ghost predicate EntryOk(env: Env, e: Entry, now: nat) {
    e.Revision? ==>
      && e.began <= e.read <= e.committed <= now
      && env.observes(e.began, e.read, e.proof.request, e.policy, e.observation)
      && e.policy.id == e.proof.request.policy && e.policy.generation == e.proof.request.policyGeneration
      && e.attempt == e.proof.provenance.attempt
      && (e.proof.Current() ==>
            && e.observation.Undrifted() && Decisive(e.observation.evaluation.outcome)
            && e.proof.evaluation == e.observation.evaluation)
  }

  ghost predicate LogOk(env: Env, log: seq<Entry>, now: nat) {
    forall k | 0 <= k < |log| :: EntryOk(env, log[k], now)
  }

  /** One of the first k entries is the publication of exactly this policy, no later than this. */
  ghost predicate PublishedBefore(log: seq<Entry>, k: nat, policy: Policy, time: nat) {
    exists i | 0 <= i < |log| && i < k :: log[i].Publication? && log[i].policy == policy && log[i].published <= time
  }

  ghost predicate Sourced(log: seq<Entry>, k: nat, restored: set<Policy>, policy: Policy, time: nat) {
    policy in restored || PublishedBefore(log, k, policy, time)
  }

  /** Policies are found under their own identity; in force, in use, and used, each was published or loaded before. */
  ghost predicate SourcesOk(policies: map<string, Policy>, calls: map<nat, Call>, log: seq<Entry>,
                            restored: set<Policy>, now: nat)
  {
    && (forall id | id in policies :: policies[id].id == id && Sourced(log, |log|, restored, policies[id], now))
    && (forall c | c in calls :: Sourced(log, |log|, restored, calls[c].policy, calls[c].began))
    && (forall k | 0 <= k < |log| && log[k].Revision? :: Sourced(log, k, restored, log[k].policy, log[k].began))
  }

  predicate Claims(attempts: map<string, A.Payload>, attempt: string) {
    attempt in attempts && !attempts[attempt].LifecyclePayload?
  }

  /** Attempts in use, by calls in flight and by the log, are all different and all remembered. */
  ghost predicate AttemptsOk(attempts: map<string, A.Payload>, calls: map<nat, Call>, log: seq<Entry>) {
    && (forall c | c in calls :: Claims(attempts, calls[c].acting.attempt))
    && (forall k | 0 <= k < |log| :: Claims(attempts, log[k].attempt))
    && (forall c, d | c in calls && d in calls && c != d :: calls[c].acting.attempt != calls[d].acting.attempt)
    && (forall c, k | c in calls && 0 <= k < |log| :: calls[c].acting.attempt != log[k].attempt)
    && (forall j, k | 0 <= j < k < |log| :: log[j].attempt != log[k].attempt)
  }

  ghost predicate InFlight(calls: map<nat, Call>, attempt: string) {
    exists c | c in calls :: calls[c].acting.attempt == attempt
  }

  ghost predicate Logged(log: seq<Entry>, attempt: string) {
    exists k | 0 <= k < |log| :: log[k].attempt == attempt
  }

  /** Nothing else is remembered: a claimed attempt is in flight or has ended in the log. */
  ghost predicate Accounted(attempts: map<string, A.Payload>, calls: map<nat, Call>, log: seq<Entry>) {
    forall a | Claims(attempts, a) :: InFlight(calls, a) || Logged(log, a)
  }

  ghost predicate ClaimsOk(attempts: map<string, A.Payload>, calls: map<nat, Call>, log: seq<Entry>) {
    AttemptsOk(attempts, calls, log) && Accounted(attempts, calls, log)
  }

  function Publications(log: seq<Entry>, id: string): nat
    decreases |log|
  {
    if log == [] then 0
    else
      var last := log[|log| - 1];
      Publications(log[..|log| - 1], id) + (if last.Publication? && last.policy.id == id then 1 else 0)
  }

  /** No load brought a policy of this identity. */
  ghost predicate NeverRestored(restored: set<Policy>, id: string) {
    forall p | p in restored :: p.id != id
  }

  /** Some store brings exactly this policy. */
  ghost predicate Brought(env: Env, policy: Policy) {
    exists contents | env.stores(contents) :: policy in contents.policies
  }

  /** Published in canonical form, valid, numbered in 64 bits, and counted by the log unless a load set the count. */
  ghost predicate PublicationOk(limits: Limits, log: seq<Entry>, restored: set<Policy>, p: Policy) {
    && CanonicalPolicy(p) == p && ValidPolicy(p, limits) && p.generation <= MAX_GENERATION
    && (NeverRestored(restored, p.id) ==> p.generation <= Publications(log, p.id))
  }

  /** What is known of policies in force, published, and restored. */
  ghost predicate PoliciesOk(env: Env, policies: map<string, Policy>, log: seq<Entry>, restored: set<Policy>) {
    && (forall id | id in policies :: policies[id].generation <= MAX_GENERATION)
    && (forall id | NeverRestored(restored, id) :: GenerationOf(policies, id) == Publications(log, id))
    && (forall k | 0 <= k < |log| && log[k].Publication? :: PublicationOk(env.limits, log, restored, log[k].policy))
    && (forall p | p in restored :: Brought(env, p))
  }

  /** Every revision was committed under its own identity. */
  ghost predicate SeenOk(seen: set<Seen>) {
    forall s | s in seen :: s.id == s.revision.request
  }

  /** What holds until the first load. */
  ghost predicate UnloadedOk(ix: Indexes, seen: set<Seen>, restored: set<Seen>, policies: set<Policy>) {
    restored == {} && policies == {} && SeenOk(seen) && ConsultedExact(ix.byDomain, ix.byRiskGroup, seen)
  }

  ghost predicate Inv(env: Env, s: System) {
    var authority, r := s.shared.authority, s.shared.registry;
    && authority.Valid(env.limits)
    && RegistryOk(r, s.seen, s.log, s.restored)
    && SourcesOk(r.policies, s.calls, s.log, s.restoredPolicies, s.now)
    && PoliciesOk(env, r.policies, s.log, s.restoredPolicies)
    && LockOk(s.lock, s.calls)
    && CallsOk(env, s.calls, s.now)
    && LogOk(env, s.log, s.now)
    && ClaimsOk(authority.attempts, s.calls, s.log)
    && FenceOk(authority, r, s.fencing, s.fenced, s.calls)
    && (s.loads == 0 ==> UnloadedOk(r.index, s.seen, s.restored, s.restoredPolicies))
  }

  // ----- Where policies come from -------------------------------------------------------------------

  lemma SourcedStays(log: seq<Entry>, more: seq<Entry>, j: nat, k: nat, before: set<Policy>, restored: set<Policy>,
                     policy: Policy, time: nat, later: nat)
    requires Sourced(log, j, before, policy, time) && log <= more && j <= k && before <= restored && time <= later
    ensures Sourced(more, k, restored, policy, later)
  {
    if policy !in before {
      var i :| 0 <= i < |log| && i < j && log[i].Publication? && log[i].policy == policy && log[i].published <= time;
      assert more[i] == log[i];
    }
  }

  lemma SourcesLater(policies: map<string, Policy>, calls: map<nat, Call>, log: seq<Entry>, restored: set<Policy>,
                     now: nat)
    requires SourcesOk(policies, calls, log, restored, now)
    ensures SourcesOk(policies, calls, log, restored, now + 1)
  {
    forall id | id in policies
      ensures Sourced(log, |log|, restored, policies[id], now + 1)
    {
      SourcedStays(log, log, |log|, |log|, restored, restored, policies[id], now, now + 1);
    }
  }

  /** A call that begins, moves on or ends uses a policy in force when it began. */
  lemma SourcesOfCalls(policies: map<string, Policy>, calls: map<nat, Call>, after: map<nat, Call>, log: seq<Entry>,
                       restored: set<Policy>, now: nat)
    requires SourcesOk(policies, calls, log, restored, now)
    requires forall c | c in after ::
               || (c in calls && after[c].policy == calls[c].policy && after[c].began == calls[c].began)
               || (after[c].began == now && after[c].policy in policies.Values)
    ensures SourcesOk(policies, after, log, restored, now)
  {
    forall c | c in after
      ensures Sourced(log, |log|, restored, after[c].policy, after[c].began)
    {
      if !(c in calls && after[c].policy == calls[c].policy && after[c].began == calls[c].began) {
        var id :| id in policies && policies[id] == after[c].policy;
      }
    }
  }

  lemma SourcesOfNewCall(policies: map<string, Policy>, calls: map<nat, Call>, c: nat, call: Call, log: seq<Entry>,
                         restored: set<Policy>, now: nat)
    requires SourcesOk(policies, calls, log, restored, now) && call.began == now && call.policy in policies.Values
    ensures SourcesOk(policies, calls[c := call], log, restored, now)
  {
    SourcesOfCalls(policies, calls, calls[c := call], log, restored, now);
  }

  /** An entry joins the log: a revision by the policy of a call, a publication by its time. */
  lemma SourcesAppend(policies: map<string, Policy>, calls: map<nat, Call>, log: seq<Entry>, e: Entry,
                      restored: set<Policy>, now: nat)
    requires SourcesOk(policies, calls, log, restored, now)
    requires e.Revision? ==> Sourced(log, |log|, restored, e.policy, e.began)
    ensures SourcesOk(policies, calls, log + [e], restored, now)
  {
    var more := log + [e];
    forall id | id in policies
      ensures Sourced(more, |more|, restored, policies[id], now)
    {
      SourcedStays(log, more, |log|, |more|, restored, restored, policies[id], now, now);
    }
    forall c | c in calls
      ensures Sourced(more, |more|, restored, calls[c].policy, calls[c].began)
    {
      SourcedStays(log, more, |log|, |more|, restored, restored, calls[c].policy, calls[c].began, calls[c].began);
    }
    forall k | 0 <= k < |more| && more[k].Revision?
      ensures Sourced(more, k, restored, more[k].policy, more[k].began)
    {
      if k < |log| {
        assert more[k] == log[k];
      }
      SourcedStays(log, more, k, k, restored, restored, more[k].policy, more[k].began, more[k].began);
    }
  }

  lemma SourcesPublish(policies: map<string, Policy>, calls: map<nat, Call>, log: seq<Entry>, e: Entry,
                       restored: set<Policy>)
    requires e.Publication? && SourcesOk(policies, calls, log, restored, e.published)
    ensures SourcesOk(policies[e.policy.id := e.policy], calls, log + [e], restored, e.published)
  {
    SourcesAppend(policies, calls, log, e, restored, e.published);
    var more := log + [e];
    assert more[|log|] == e;
    assert PublishedBefore(more, |more|, e.policy, e.published);
  }

  lemma SourcesLoad(policies: map<string, Policy>, calls: map<nat, Call>, log: seq<Entry>, restored: set<Policy>,
                    now: nat, loaded: seq<Policy>)
    requires SourcesOk(policies, calls, log, restored, now)
    ensures SourcesOk(LoadPolicies(policies, loaded), calls, log, restored + (set p | p in loaded), now)
  {
    var more := restored + set p | p in loaded;
    forall id | id in LoadPolicies(policies, loaded)
      ensures LoadPolicies(policies, loaded)[id].id == id
              && Sourced(log, |log|, more, LoadPolicies(policies, loaded)[id], now)
    {
      LoadedPolicyOrKept(policies, loaded, id);
      if id in policies {
        SourcedStays(log, log, |log|, |log|, restored, more, policies[id], now, now);
      }
    }
    forall c | c in calls
      ensures Sourced(log, |log|, more, calls[c].policy, calls[c].began)
    {
      SourcedStays(log, log, |log|, |log|, restored, more, calls[c].policy, calls[c].began, calls[c].began);
    }
    forall k | 0 <= k < |log| && log[k].Revision?
      ensures Sourced(log, k, more, log[k].policy, log[k].began)
    {
      SourcedStays(log, log, k, k, restored, more, log[k].policy, log[k].began, log[k].began);
    }
  }

  // ----- Who claims an attempt ------------------------------------------------------------------------

  /** A fresh attempt claimed by nobody else. */
  lemma AddCall(attempts: map<string, A.Payload>, calls: map<nat, Call>, log: seq<Entry>, c: nat, call: Call,
                payload: A.Payload)
    requires ClaimsOk(attempts, calls, log) && c !in calls
    requires call.acting.attempt !in attempts && !payload.LifecyclePayload?
    ensures ClaimsOk(attempts[call.acting.attempt := payload], calls[c := call], log)
  {
    var attempts', calls' := attempts[call.acting.attempt := payload], calls[c := call];
    forall d | d in calls
      ensures Claims(attempts, calls[d].acting.attempt) && calls[d].acting.attempt != call.acting.attempt
    {
    }
    forall k | 0 <= k < |log|
      ensures Claims(attempts, log[k].attempt) && log[k].attempt != call.acting.attempt
    {
    }
    forall a | Claims(attempts', a)
      ensures InFlight(calls', a) || Logged(log, a)
    {
      if a == call.acting.attempt {
        assert calls'[c].acting.attempt == a;
      } else if InFlight(calls, a) {
        var d :| d in calls && calls[d].acting.attempt == a;
        assert calls'[d].acting.attempt == a;
      }
    }
  }

  /** The claims only see which calls are in flight and for which attempts. */
  lemma SameCallers(attempts: map<string, A.Payload>, calls: map<nat, Call>, log: seq<Entry>, c: nat, call: Call)
    requires ClaimsOk(attempts, calls, log) && c in calls && call.acting == calls[c].acting
    ensures ClaimsOk(attempts, calls[c := call], log)
  {
    forall a | InFlight(calls, a)
      ensures InFlight(calls[c := call], a)
    {
      var d :| d in calls && calls[d].acting.attempt == a;
      assert calls[c := call][d].acting.attempt == a;
    }
  }

  /** Of the calls in flight all but one stay. */
  lemma OthersInFlight(calls: map<nat, Call>, c: nat, a: string)
    requires c in calls && InFlight(calls, a) && a != calls[c].acting.attempt
    ensures InFlight(calls - {c}, a)
  {
    var d :| d in calls && calls[d].acting.attempt == a;
    assert d in calls - {c};
  }

  /** A call is refused: its attempt is nobody's any more. */
  lemma DropCall(attempts: map<string, A.Payload>, calls: map<nat, Call>, log: seq<Entry>, c: nat)
    requires ClaimsOk(attempts, calls, log) && c in calls
    ensures ClaimsOk(attempts - {calls[c].acting.attempt}, calls - {c}, log)
  {
    var attempt := calls[c].acting.attempt;
    forall d | d in calls && d != c
      ensures Claims(attempts, calls[d].acting.attempt) && calls[d].acting.attempt != attempt
    {
    }
    forall a | Claims(attempts - {attempt}, a)
      ensures InFlight(calls - {c}, a) || Logged(log, a)
    {
      assert Claims(attempts, a);
      if InFlight(calls, a) {
        OthersInFlight(calls, c, a);
      }
    }
  }

  lemma LoggedAppend(log: seq<Entry>, e: Entry, a: string)
    ensures Logged(log + [e], a) <==> Logged(log, a) || a == e.attempt
  {
    assert (log + [e])[|log|] == e;
    if Logged(log, a) {
      var k :| 0 <= k < |log| && log[k].attempt == a;
      assert (log + [e])[k].attempt == a;
    }
  }

  /** A call ends in the log. */
  lemma EndInLog(attempts: map<string, A.Payload>, calls: map<nat, Call>, log: seq<Entry>, c: nat, e: Entry)
    requires ClaimsOk(attempts, calls, log) && c in calls && e.attempt == calls[c].acting.attempt
    ensures ClaimsOk(attempts, calls - {c}, log + [e])
  {
    EndKeepsAttempts(attempts, calls, log, c, e);
    forall a | Claims(attempts, a)
      ensures InFlight(calls - {c}, a) || Logged(log + [e], a)
    {
      LoggedAppend(log, e, a);
      if a != e.attempt && InFlight(calls, a) {
        OthersInFlight(calls, c, a);
      }
    }
  }

  lemma EndKeepsAttempts(attempts: map<string, A.Payload>, calls: map<nat, Call>, log: seq<Entry>, c: nat, e: Entry)
    requires AttemptsOk(attempts, calls, log) && c in calls && e.attempt == calls[c].acting.attempt
    ensures AttemptsOk(attempts, calls - {c}, log + [e])
  {
    var log', calls' := log + [e], calls - {c};
    forall d, k | d in calls' && 0 <= k < |log'|
      ensures calls'[d].acting.attempt != log'[k].attempt
    {
    }
  }

  lemma AddPublication(attempts: map<string, A.Payload>, calls: map<nat, Call>, log: seq<Entry>, payload: A.Payload,
                       e: Entry)
    requires ClaimsOk(attempts, calls, log) && e.attempt !in attempts && !payload.LifecyclePayload?
    ensures ClaimsOk(attempts[e.attempt := payload], calls, log + [e])
  {
    var attempts', log' := attempts[e.attempt := payload], log + [e];
    forall c | c in calls
      ensures Claims(attempts', calls[c].acting.attempt) && calls[c].acting.attempt != e.attempt
    {
      assert Claims(attempts, calls[c].acting.attempt);
    }
    forall k | 0 <= k < |log|
      ensures Claims(attempts', log[k].attempt) && log[k].attempt != e.attempt
    {
      assert Claims(attempts, log[k].attempt);
    }
    forall a | Claims(attempts', a)
      ensures InFlight(calls, a) || Logged(log', a)
    {
      LoggedAppend(log, e, a);
      assert a == e.attempt || Claims(attempts, a);
    }
  }

  /** Attempts that claim something stay exactly as they were. */
  lemma SameClaims(attempts: map<string, A.Payload>, after: map<string, A.Payload>, calls: map<nat, Call>,
                   log: seq<Entry>)
    requires ClaimsOk(attempts, calls, log) && forall a :: Claims(attempts, a) <==> Claims(after, a)
    ensures ClaimsOk(after, calls, log)
  {
  }

  // ----- Preservation ------------------------------------------------------------------------------

  lemma CallsOkLater(env: Env, calls: map<nat, Call>, now: nat, later: nat)
    requires CallsOk(env, calls, now) && now <= later
    ensures CallsOk(env, calls, later)
  {
    forall c | c in calls
      ensures CallOk(env, calls[c], later)
    {
      assert CallOk(env, calls[c], now);
    }
  }

  lemma LogOkLater(env: Env, log: seq<Entry>, now: nat, later: nat)
    requires LogOk(env, log, now) && now <= later
    ensures LogOk(env, log, later)
  {
    forall k | 0 <= k < |log|
      ensures EntryOk(env, log[k], later)
    {
      assert EntryOk(env, log[k], now);
    }
  }

  lemma TickKeeps(env: Env, s: System)
    requires Inv(env, s)
    ensures Inv(env, s.(now := s.now + 1))
  {
    CallsOkLater(env, s.calls, s.now, s.now + 1);
    LogOkLater(env, s.log, s.now, s.now + 1);
    SourcesLater(s.shared.registry.policies, s.calls, s.log, s.restoredPolicies, s.now);
  }

  lemma ForgetFresh(attempts: map<string, A.Payload>, attempt: string, payload: A.Payload)
    requires attempt !in attempts
    ensures attempts[attempt := payload] - {attempt} == attempts
  {
  }

  lemma AdmitKeepsSystem(env: Env, s: System, acting: A.Acting, payload: A.Payload)
    requires Inv(env, s) && !payload.LifecyclePayload?
    ensures var (authority, admitted) := A.Admit(s.shared.authority, acting, payload, env.limits);
            && authority.Valid(env.limits)
            && (admitted != A.Status.ACCEPTED ==> authority == s.shared.authority)
            && (admitted == A.Status.ACCEPTED ==>
                  && acting.WellFormed() && acting.attempt !in s.shared.authority.attempts
                  && authority
                     == s.shared.authority.(attempts := s.shared.authority.attempts[acting.attempt := payload])
                  && A.Forget(authority, acting.attempt) == s.shared.authority)
  {
    A.AdmitKeepsValid(s.shared.authority, acting, payload, env.limits);
    if A.Admit(s.shared.authority, acting, payload, env.limits).1 == A.Status.ACCEPTED {
      ForgetFresh(s.shared.authority.attempts, acting.attempt, payload);
    }
  }

  /** Other calls and another holder of the lock, as good as the old ones. */
  lemma SwapCalls(env: Env, s: System, lock: Option<nat>, calls: map<nat, Call>)
    requires Inv(env, s) && LockOk(lock, calls) && CallsOk(env, calls, s.now)
    requires ClaimsOk(s.shared.authority.attempts, calls, s.log)
    requires SourcesOk(s.shared.registry.policies, calls, s.log, s.restoredPolicies, s.now)
    requires PastFence(calls, s.fenced)
    ensures Inv(env, s.(lock := lock, calls := calls))
  {
  }

  lemma LockUnmoved(lock: Option<nat>, calls: map<nat, Call>, c: nat, call: Call)
    requires LockOk(lock, calls)
    requires if c in calls then call.Locked() == calls[c].Locked() else !call.Locked()
    ensures LockOk(lock, calls[c := call])
  {
  }

  lemma StillPastFence(calls: map<nat, Call>, fenced: set<string>, c: nat, call: Call)
    requires PastFence(calls, fenced) && (call.phase == HoldsFence ==> call.acting.boot !in fenced)
    ensures PastFence(calls[c := call], fenced)
  {
  }

  /** Claiming an attempt for a call is one step of the authority and the calls together. */
  lemma ClaimCall(env: Env, s: System, authority: A.State, calls: map<nat, Call>)
    requires Inv(env, s) && authority.Valid(env.limits)
             && authority == s.shared.authority.(attempts := authority.attempts)
    requires LockOk(s.lock, calls) && CallsOk(env, calls, s.now) && ClaimsOk(authority.attempts, calls, s.log)
    requires SourcesOk(s.shared.registry.policies, calls, s.log, s.restoredPolicies, s.now)
    requires PastFence(calls, s.fenced)
    ensures Inv(env, s.(shared := Shared(authority, s.shared.registry), calls := calls))
  {
  }

  lemma StartCall(env: Env, s: System, c: nat, call: Call, authority: A.State)
    requires Inv(env, s) && c !in s.calls && authority.Valid(env.limits)
    requires call.phase == Reading && CallOk(env, call, s.now) && call.began == s.now
    requires call.policy in s.shared.registry.policies.Values
    requires call.acting.attempt !in s.shared.authority.attempts
    requires authority == s.shared.authority.(attempts := authority.attempts)
    requires authority.attempts == s.shared.authority.attempts[call.acting.attempt := A.RequestPayload(call.request)]
    ensures Inv(env, s.(shared := Shared(authority, s.shared.registry), calls := s.calls[c := call]))
  {
    AddCall(s.shared.authority.attempts, s.calls, s.log, c, call, A.RequestPayload(call.request));
    SourcesOfNewCall(s.shared.registry.policies, s.calls, c, call, s.log, s.restoredPolicies, s.now);
    UpdateCallOk(env, s.calls, s.now, c, call);
    LockUnmoved(s.lock, s.calls, c, call);
    StillPastFence(s.calls, s.fenced, c, call);
    ClaimCall(env, s, authority, s.calls[c := call]);
  }

  lemma AdmittedCall(env: Env, s: System, request: Request, acting: A.Acting)
    requires Inv(env, s) && acting.WellFormed() && request.policy in s.shared.registry.policies
    requires s.shared.registry.policies[request.policy].generation == request.policyGeneration
    ensures CallOk(env, Call(request, acting, s.shared.registry.policies[request.policy], s.now, None, s.now, Reading),
                   s.now)
    ensures s.shared.registry.policies[request.policy] in s.shared.registry.policies.Values
  {
  }

  lemma BeginKeeps(env: Env, s: System, c: nat, request: Request, acting: A.Acting)
    requires Inv(env, s) && c !in s.calls
    ensures Inv(env, BeginOf(env, s, c, request, acting))
  {
    var payload := A.RequestPayload(request);
    AdmitKeepsSystem(env, s, acting, payload);
    var (authority, admitted) := A.Admit(s.shared.authority, acting, payload, env.limits);
    var t := BeginOf(env, s, c, request, acting);
    if BeginEvaluation(s.shared, request, acting, env.limits).1.Admitted? {
      var call := Call(request, acting, s.shared.registry.policies[request.policy], s.now, None, s.now, Reading);
      assert t == s.(shared := Shared(authority, s.shared.registry), calls := s.calls[c := call]);
      AdmittedCall(env, s, request, acting);
      StartCall(env, s, c, call, authority);
    } else {
      assert t == s;
    }
  }

  lemma UpdateCallOk(env: Env, calls: map<nat, Call>, now: nat, c: nat, call: Call)
    requires CallsOk(env, calls, now) && CallOk(env, call, now)
    ensures CallsOk(env, calls[c := call], now)
  {
  }

  /** What neither the claims nor the sources of policies can see of a call. */
  lemma MovedCall(env: Env, s: System, c: nat, call: Call)
    requires Inv(env, s) && c in s.calls && CallOk(env, call, s.now)
    requires call.acting == s.calls[c].acting && call.policy == s.calls[c].policy && call.began == s.calls[c].began
    ensures ClaimsOk(s.shared.authority.attempts, s.calls[c := call], s.log)
    ensures SourcesOk(s.shared.registry.policies, s.calls[c := call], s.log, s.restoredPolicies, s.now)
    ensures CallsOk(env, s.calls[c := call], s.now)
  {
    SameCallers(s.shared.authority.attempts, s.calls, s.log, c, call);
    SourcesOfCalls(s.shared.registry.policies, s.calls, s.calls[c := call], s.log, s.restoredPolicies, s.now);
    UpdateCallOk(env, s.calls, s.now, c, call);
  }

  lemma ReadKeeps(env: Env, s: System, c: nat, observation: Observation)
    requires Inv(env, s) && InPhase(s, c, Reading)
    requires env.observes(s.calls[c].began, s.now, s.calls[c].request, s.calls[c].policy, observation)
    ensures Inv(env, ReadOf(s, c, observation))
  {
    assert CallOk(env, s.calls[c], s.now);
    var call := s.calls[c].(observed := Some(observation), read := s.now, phase := Waiting);
    MovedCall(env, s, c, call);
    LockUnmoved(s.lock, s.calls, c, call);
    StillPastFence(s.calls, s.fenced, c, call);
    SwapCalls(env, s, s.lock, s.calls[c := call]);
    assert ReadOf(s, c, observation) == s.(lock := s.lock, calls := s.calls[c := call]);
  }

  lemma HeldCall(env: Env, s: System, c: nat, call: Call)
    requires Inv(env, s) && c in s.calls && s.calls[c].phase != Reading && call == s.calls[c].(phase := call.phase)
    requires call.Locked() && (s.lock == None || s.lock == Some(c))
    ensures CallOk(env, call, s.now) && LockOk(Some(c), s.calls[c := call])
  {
    assert CallOk(env, s.calls[c], s.now);
  }

  lemma PhaseKeeps(env: Env, s: System, c: nat, phase: Phase)
    requires Inv(env, s) && c in s.calls && s.calls[c].phase != Reading
             && phase in {HoldsPolicy, HoldsEpoch, HoldsFence}
    requires s.lock == None || s.lock == Some(c)
    requires phase == HoldsFence ==> s.calls[c].acting.boot !in s.fenced
    ensures Inv(env, SetPhase(s, c, phase).(lock := Some(c)))
  {
    var call := s.calls[c].(phase := phase);
    HeldCall(env, s, c, call);
    MovedCall(env, s, c, call);
    StillPastFence(s.calls, s.fenced, c, call);
    SwapCalls(env, s, Some(c), s.calls[c := call]);
    assert SetPhase(s, c, phase).(lock := Some(c)) == s.(lock := Some(c), calls := s.calls[c := call]);
  }

  lemma AbandonKeeps(env: Env, s: System, c: nat)
    requires Inv(env, s) && c in s.calls && (s.lock == None || s.lock == Some(c))
    ensures Inv(env, Abandon(s, c))
  {
    var attempt := s.calls[c].acting.attempt;
    A.ForgetKeepsValid(s.shared.authority, attempt, env.limits);
    DropCall(s.shared.authority.attempts, s.calls, s.log, c);
    SourcesOfCalls(s.shared.registry.policies, s.calls, s.calls - {c}, s.log, s.restoredPolicies, s.now);
  }

  lemma LockKeeps(env: Env, s: System, c: nat)
    requires Inv(env, s) && s.lock == None && InPhase(s, c, Waiting)
    ensures Inv(env, LockOf(s, c))
  {
    if PolicyHolds(s.shared.registry, s.calls[c].request, s.calls[c].policy) {
      PhaseKeeps(env, s, c, HoldsPolicy);
    } else {
      AbandonKeeps(env, s, c);
    }
  }

  lemma CheckEpochKeeps(env: Env, s: System, c: nat)
    requires Inv(env, s) && HasLock(s, c, HoldsPolicy)
    ensures Inv(env, CheckEpochOf(s, c))
  {
    if s.shared.authority.epoch == s.calls[c].acting.epoch {
      PhaseKeeps(env, s, c, HoldsEpoch);
      assert CheckEpochOf(s, c) == SetPhase(s, c, HoldsEpoch).(lock := Some(c));
    } else {
      AbandonKeeps(env, s, c);
    }
  }

  /** A fence that has returned is already visible to the check. */
  lemma CheckFenceKeeps(env: Env, s: System, c: nat)
    requires Inv(env, s) && HasLock(s, c, HoldsEpoch)
    ensures Inv(env, CheckFenceOf(s, c))
  {
    if !s.shared.authority.IsFenced(s.calls[c].acting.boot) {
      assert CallOk(env, s.calls[c], s.now);
      PhaseKeeps(env, s, c, HoldsFence);
      assert CheckFenceOf(s, c) == SetPhase(s, c, HoldsFence).(lock := Some(c));
    } else {
      AbandonKeeps(env, s, c);
    }
  }

  // ----- The commit --------------------------------------------------------------------------------

  lemma CommittedIsTrusted(env: Env, call: Call, now: nat, p: Proof, generation: nat)
    requires CallOk(env, call, now) && call.observed.Some? && call.phase != Reading
    requires p == MakeProof(call.request, generation, Finish(call.observed.value), call.acting)
    ensures EntryOk(env, EntryOf(call, p, now), now)
  {
    var o := call.observed.value;
    if p.Current() {
      assert o.Undrifted() && p.evaluation == o.evaluation && Decisive(o.evaluation.outcome);
    }
  }

  lemma PublicationsAppend(log: seq<Entry>, e: Entry, id: string)
    ensures Publications(log + [e], id)
            == Publications(log, id) + (if e.Publication? && e.policy.id == id then 1 else 0)
  {
    assert (log + [e])[..|log|] == log;
  }

  lemma EndKeepsPolicies(env: Env, policies: map<string, Policy>, log: seq<Entry>, restored: set<Policy>, e: Entry)
    requires PoliciesOk(env, policies, log, restored) && !e.Publication?
    ensures PoliciesOk(env, policies, log + [e], restored)
  {
    forall id
      ensures Publications(log + [e], id) == Publications(log, id)
    {
      PublicationsAppend(log, e, id);
    }
  }

  /** Appending never forgets a logged revision. */
  lemma LoggedStays(log: seq<Entry>, e: Entry, p: Proof)
    requires LoggedRevision(log, p)
    ensures LoggedRevision(log + [e], p)
  {
    var k :| 0 <= k < |log| && log[k].Revision? && log[k].proof == p;
    assert (log + [e])[k] == log[k];
  }

  lemma OriginAppend(r: Registry, log: seq<Entry>, e: Entry, restored: set<Seen>)
    requires OriginOk(r, log, restored)
    ensures OriginOk(r, log + [e], restored)
  {
    forall id | r.IsCurrent(id) && Seen(id, r.proofs[id].current) !in restored
      ensures LoggedRevision(log + [e], r.proofs[id].current)
    {
      LoggedStays(log, e, r.proofs[id].current);
    }
  }

  /** The commitment left every other current proof as it was. */
  ghost predicate TouchesOne(r: Registry, request: Request, commitment: Commitment) {
    var after := commitment.registry;
    && after.policies == r.policies
    && (forall id | after.IsCurrent(id) && (id != request || commitment.committed == None) ::
          r.IsCurrent(id) && after.proofs[id].current == r.proofs[id].current)
  }

  ghost predicate Made(call: Call, finished: Finished, commitment: Commitment) {
    commitment.committed.Some? ==>
      && call.request in commitment.registry.proofs
      && commitment.registry.proofs[call.request].current == commitment.committed.value
      && commitment.committed.value
          == MakeProof(call.request, commitment.committed.value.generation, finished, call.acting)
  }

  /** What the log of seen revisions becomes. */
  ghost function SeenAfter(seen: set<Seen>, request: Request, committed: Option<Proof>): set<Seen> {
    if committed == None then seen else seen + {Seen(request, committed.value)}
  }

  /** Indexes that were exact about what was consulted still are. */
  ghost predicate ExactStays(r: Registry, seen: set<Seen>, request: Request, commitment: Commitment) {
    ConsultedExact(r.index.byDomain, r.index.byRiskGroup, seen) ==>
      var after := commitment.registry.index;
      ConsultedExact(after.byDomain, after.byRiskGroup, SeenAfter(seen, request, commitment.committed))
  }

  /** All a later state needs to know about a commitment. */
  ghost predicate CommitFacts(r: Registry, seen: set<Seen>, restored: set<Seen>, call: Call, finished: Finished,
                              commitment: Commitment)
  {
    && IndexOk(commitment.registry, SeenAfter(seen, call.request, commitment.committed))
    && ConsultedComplete(commitment.registry, restored)
    && TouchesOne(r, call.request, commitment)
    && Made(call, finished, commitment)
    && ExactStays(r, seen, call.request, commitment)
    && (commitment.committed.Some?
        <==> commitment.status == APPLIED || commitment.status == MutationStatus.REVALIDATION_REQUIRED)
  }

  /** What a commitment leaves of the other proofs. */
  lemma CommitTouchesOne(r: Registry, request: Request, finished: Finished, acting: A.Acting, limits: Limits)
    ensures TouchesOne(r, request, Commit(r, request, finished, acting, limits))
  {
  }

  lemma CommitHasFacts(env: Env, s: System, c: nat)
    requires IndexOk(s.shared.registry, s.seen) && ConsultedComplete(s.shared.registry, s.restored)
    requires c in s.calls && s.calls[c].observed.Some?
    ensures CommitFacts(s.shared.registry, s.seen, s.restored, s.calls[c], Finish(s.calls[c].observed.value),
                        CommitmentOf(env, s, c))
  {
    var r, call := s.shared.registry, s.calls[c];
    var finished := Finish(call.observed.value);
    FactsFollow(r, s.seen, s.restored, call, finished, CommitmentOf(env, s, c)) by {
      CommitTouchesOne(r, call.request, finished, call.acting, env.limits);
      CommitUnchangedIff(r, call.request, finished, call.acting, env.limits);
      CommitKeepsIndexes(r, s.seen, call.request, finished, call.acting, env.limits);
      CommitKeepsConsulted(r, s.restored, call.request, finished, call.acting, env.limits);
      CommitStaysExact(r, s.seen, call.request, finished, call.acting, env.limits);
    }
  }

  lemma CommitStaysExact(r: Registry, seen: set<Seen>, request: Request, finished: Finished, acting: A.Acting,
                         limits: Limits)
    ensures ExactStays(r, seen, request, Commit(r, request, finished, acting, limits))
  {
    if ConsultedExact(r.index.byDomain, r.index.byRiskGroup, seen) {
      CommitKeepsExact(r, seen, request, finished, acting, limits);
    }
  }

  lemma FactsFollow(r: Registry, seen: set<Seen>, restored: set<Seen>, call: Call, finished: Finished,
                    commitment: Commitment)
    requires Complete(commitment.registry)
    requires Sound(commitment.registry.index, SeenAfter(seen, call.request, commitment.committed))
    requires ConsultedComplete(commitment.registry, restored)
    requires TouchesOne(r, call.request, commitment) && ExactStays(r, seen, call.request, commitment)
    requires commitment.committed.Some? ==>
               Committed(commitment.registry, call.request, finished, call.acting, commitment.committed.value)
    requires commitment.committed.Some?
             <==> commitment.status == APPLIED || commitment.status == MutationStatus.REVALIDATION_REQUIRED
    ensures CommitFacts(r, seen, restored, call, finished, commitment)
  {
  }

  lemma CommitOrigin(r: Registry, log: seq<Entry>, restored: set<Seen>, call: Call, finished: Finished,
                     commitment: Commitment, e: Entry)
    requires OriginOk(r, log, restored) && TouchesOne(r, call.request, commitment) && Made(call, finished, commitment)
    requires e.Revision? && commitment.committed == Some(e.proof)
    ensures OriginOk(commitment.registry, log + [e], restored)
  {
    var after := commitment.registry;
    assert (log + [e])[|log|] == e;
    forall id | after.IsCurrent(id) && Seen(id, after.proofs[id].current) !in restored
      ensures after.proofs[id].current.request == id && LoggedRevision(log + [e], after.proofs[id].current)
    {
      if id != call.request {
        LoggedStays(log, e, r.proofs[id].current);
      }
    }
  }

  lemma CommittedRegistry(r: Registry, seen: set<Seen>, log: seq<Entry>, restored: set<Seen>, call: Call,
                          finished: Finished,
                          commitment: Commitment, e: Entry)
    requires RegistryOk(r, seen, log, restored) && CommitFacts(r, seen, restored, call, finished, commitment)
    requires e.Revision? && commitment.committed == Some(e.proof)
    ensures RegistryOk(commitment.registry, seen + {Seen(call.request, e.proof)}, log + [e], restored)
    ensures e.proof.request == call.request
  {
    CommitOrigin(r, log, restored, call, finished, commitment, e);
  }

  lemma CommitFence(authority: A.State, r: Registry, fencing: set<string>, fenced: set<string>, calls: map<nat, Call>,
                    c: nat, finished: Finished, commitment: Commitment)
    requires FenceOk(authority, r, fencing, fenced, calls) && c in calls && calls[c].phase == HoldsFence
    requires TouchesOne(r, calls[c].request, commitment) && Made(calls[c], finished, commitment)
    ensures FenceOk(authority, commitment.registry, fencing, fenced, calls - {c})
  {
  }

  /** Nothing was committed: no current proof is new. */
  lemma NothingNew(r: Registry, seen: set<Seen>, log: seq<Entry>, restored: set<Seen>, call: Call, finished: Finished,
                   commitment: Commitment)
    requires RegistryOk(r, seen, log, restored) && commitment.committed == None
    requires CommitFacts(r, seen, restored, call, finished, commitment)
    ensures RegistryOk(commitment.registry, seen, log, restored)
  {
  }

  /** Another registry with the same policies, as good as the old one, at the same point of the history. */
  lemma SwapRegistry(env: Env, s: System, registry: Registry, seen: set<Seen>)
    requires Inv(env, s) && registry.policies == s.shared.registry.policies
    requires RegistryOk(registry, seen, s.log, s.restored)
    requires FenceOk(s.shared.authority, registry, s.fencing, s.fenced, s.calls)
    requires s.loads == 0 ==> SeenOk(seen) && ConsultedExact(registry.index.byDomain, registry.index.byRiskGroup, seen)
    ensures Inv(env, s.(shared := Shared(s.shared.authority, registry), seen := seen))
  {
  }

  lemma LogOkAppend(env: Env, log: seq<Entry>, e: Entry, now: nat)
    requires LogOk(env, log, now) && EntryOk(env, e, now)
    ensures LogOk(env, log + [e], now)
  {
  }

  /** The call that holds the lock ends in the log. */
  lemma EndCall(env: Env, s: System, c: nat, e: Entry)
    requires Inv(env, s) && s.lock == Some(c) && c in s.calls
    requires e.attempt == s.calls[c].acting.attempt && EntryOk(env, e, s.now) && !e.Publication?
    requires e.Revision? ==> e.policy == s.calls[c].policy && e.began == s.calls[c].began
    ensures Inv(env, s.(calls := s.calls - {c}, lock := None, log := s.log + [e]))
  {
    var r := s.shared.registry;
    EndInLog(s.shared.authority.attempts, s.calls, s.log, c, e);
    SourcesOfCalls(r.policies, s.calls, s.calls - {c}, s.log, s.restoredPolicies, s.now);
    SourcesAppend(r.policies, s.calls - {c}, s.log, e, s.restoredPolicies, s.now);
    LogOkAppend(env, s.log, e, s.now);
    OriginAppend(r, s.log, e, s.restored);
    EndKeepsPolicies(env, r.policies, s.log, s.restoredPolicies, e);
  }

  lemma ConcludeNothing(env: Env, s: System, c: nat, commitment: Commitment)
    requires Inv(env, s) && HasLock(s, c, HoldsFence) && s.calls[c].observed.Some? && commitment.committed == None
    requires CommitFacts(s.shared.registry, s.seen, s.restored, s.calls[c], Finish(s.calls[c].observed.value),
                         commitment)
    ensures Inv(env, Conclude(s, c, commitment))
  {
    var call, r := s.calls[c], s.shared.registry;
    var ended := s.(calls := s.calls - {c}, lock := None, log := s.log + [Unchanged(call.acting.attempt)]);
    if commitment.status == UNCHANGED {
      EndCall(env, s, c, Unchanged(call.acting.attempt));
    } else {
      AbandonKeeps(env, s, c);
      ended := Abandon(s, c);
    }
    NothingNew(r, s.seen, ended.log, s.restored, call, Finish(call.observed.value), commitment);
    CommitFence(s.shared.authority, r, s.fencing, s.fenced, s.calls, c, Finish(call.observed.value), commitment);
    SwapRegistry(env, ended, commitment.registry, s.seen);
    assert Conclude(s, c, commitment)
        == ended.(shared := Shared(ended.shared.authority, commitment.registry), seen := s.seen);
  }

  /** The call ends in the log with a revision that the registry now holds. */
  lemma EndWithRevision(env: Env, s: System, c: nat, e: Entry, registry: Registry, seen: set<Seen>)
    requires Inv(env, s) && s.lock == Some(c) && c in s.calls && e.Revision?
    requires e.attempt == s.calls[c].acting.attempt && EntryOk(env, e, s.now)
    requires e.policy == s.calls[c].policy && e.began == s.calls[c].began
    requires registry.policies == s.shared.registry.policies
    requires s.loads == 0 ==> SeenOk(seen) && ConsultedExact(registry.index.byDomain, registry.index.byRiskGroup, seen)
    requires RegistryOk(registry, seen, s.log + [e], s.restored)
    requires FenceOk(s.shared.authority, registry, s.fencing, s.fenced, s.calls - {c})
    ensures Inv(env, s.(shared := Shared(s.shared.authority, registry), calls := s.calls - {c}, lock := None,
                        log := s.log + [e], seen := seen))
  {
    EndCall(env, s, c, e);
    SwapRegistry(env, s.(calls := s.calls - {c}, lock := None, log := s.log + [e]), registry, seen);
  }

  lemma ConcludeWithRevision(s: System, c: nat, commitment: Commitment)
    requires c in s.calls && s.calls[c].observed.Some? && commitment.committed.Some?
    requires commitment.status == APPLIED || commitment.status == MutationStatus.REVALIDATION_REQUIRED
    ensures Conclude(s, c, commitment)
            == s.(shared := Shared(s.shared.authority, commitment.registry), calls := s.calls - {c}, lock := None,
                  log := s.log + [EntryOf(s.calls[c], commitment.committed.value, s.now)],
                  seen := s.seen + {Seen(s.calls[c].request, commitment.committed.value)})
  {
  }

  lemma RevisionIsSound(env: Env, s: System, c: nat, commitment: Commitment, e: Entry)
    requires Inv(env, s) && HasLock(s, c, HoldsFence) && s.calls[c].observed.Some? && commitment.committed.Some?
    requires CommitFacts(s.shared.registry, s.seen, s.restored, s.calls[c], Finish(s.calls[c].observed.value),
                         commitment)
    requires e == EntryOf(s.calls[c], commitment.committed.value, s.now)
    ensures EntryOk(env, e, s.now)
    ensures RegistryOk(commitment.registry, s.seen + {Seen(s.calls[c].request, e.proof)}, s.log + [e], s.restored)
    ensures FenceOk(s.shared.authority, commitment.registry, s.fencing, s.fenced, s.calls - {c})
    ensures var ix, seen := commitment.registry.index, s.seen + {Seen(s.calls[c].request, e.proof)};
            s.loads == 0 ==> SeenOk(seen) && ConsultedExact(ix.byDomain, ix.byRiskGroup, seen)
  {
    var call, r, finished := s.calls[c], s.shared.registry, Finish(s.calls[c].observed.value);
    assert CallOk(env, call, s.now);
    CommittedIsTrusted(env, call, s.now, e.proof, e.proof.generation);
    CommittedRegistry(r, s.seen, s.log, s.restored, call, finished, commitment, e);
    CommitFence(s.shared.authority, r, s.fencing, s.fenced, s.calls, c, finished, commitment);
  }

  lemma ConcludeRevision(env: Env, s: System, c: nat, commitment: Commitment)
    requires Inv(env, s) && HasLock(s, c, HoldsFence) && s.calls[c].observed.Some? && commitment.committed.Some?
    requires CommitFacts(s.shared.registry, s.seen, s.restored, s.calls[c], Finish(s.calls[c].observed.value),
                         commitment)
    ensures Inv(env, Conclude(s, c, commitment))
  {
    var e := EntryOf(s.calls[c], commitment.committed.value, s.now);
    RevisionIsSound(env, s, c, commitment, e);
    EndWithRevision(env, s, c, e, commitment.registry, s.seen + {Seen(s.calls[c].request, e.proof)});
    ConcludeWithRevision(s, c, commitment);
  }

  lemma CommitKeeps(env: Env, s: System, c: nat)
    requires Inv(env, s) && HasLock(s, c, HoldsFence) && s.calls[c].observed.Some?
    ensures Inv(env, CommitOf(env, s, c))
  {
    CommitHasFacts(env, s, c);
    var commitment := CommitmentOf(env, s, c);
    if commitment.committed == None {
      ConcludeNothing(env, s, c, commitment);
    } else {
      ConcludeRevision(env, s, c, commitment);
    }
  }

  // ----- Publications, lifecycle changes, authority operations --------------------------------------

  /** A publication is numbered one above what was in force. */
  predicate Numbered(policies: map<string, Policy>, p: Policy) {
    p.generation == GenerationOf(policies, p.id) + 1 && GenerationOf(policies, p.id) != MAX_GENERATION
  }

  lemma PublishKeepsPolicies(env: Env, policies: map<string, Policy>, log: seq<Entry>, restored: set<Policy>, e: Entry)
    requires PoliciesOk(env, policies, log, restored) && e.Publication? && Numbered(policies, e.policy)
    requires CanonicalPolicy(e.policy) == e.policy && ValidPolicy(e.policy, env.limits)
    ensures PoliciesOk(env, policies[e.policy.id := e.policy], log + [e], restored)
  {
    var more := log + [e];
    forall id
      ensures Publications(more, id) == Publications(log, id) + (if e.policy.id == id then 1 else 0)
    {
      PublicationsAppend(log, e, id);
    }
    forall k | 0 <= k < |more| && more[k].Publication?
      ensures PublicationOk(env.limits, more, restored, more[k].policy)
    {
      if k < |log| {
        assert more[k] == log[k] && PublicationOk(env.limits, log, restored, log[k].policy);
      }
    }
  }

  /** The registry invariants do not look at the policies. */
  lemma OtherPolicies(r: Registry, policies: map<string, Policy>, seen: set<Seen>, log: seq<Entry>, restored: set<Seen>)
    requires RegistryOk(r, seen, log, restored)
    ensures RegistryOk(r.(policies := policies), seen, log, restored)
  {
  }

  lemma PublishAccepted(env: Env, s: System, e: Entry, payload: A.Payload)
    requires Inv(env, s) && e.Publication? && e.published == s.now
    requires e.attempt !in s.shared.authority.attempts && !payload.LifecyclePayload?
    requires Numbered(s.shared.registry.policies, e.policy)
    requires CanonicalPolicy(e.policy) == e.policy && ValidPolicy(e.policy, env.limits)
    requires s.shared.authority.(attempts := s.shared.authority.attempts[e.attempt := payload]).Valid(env.limits)
    ensures var a, r := s.shared.authority, s.shared.registry;
            Inv(env, s.(shared := Shared(a.(attempts := a.attempts[e.attempt := payload]),
                                         r.(policies := r.policies[e.policy.id := e.policy])),
                        log := s.log + [e]))
  {
    var r := s.shared.registry;
    AddPublication(s.shared.authority.attempts, s.calls, s.log, payload, e);
    SourcesPublish(r.policies, s.calls, s.log, e, s.restoredPolicies);
    LogOkAppend(env, s.log, e, s.now);
    OriginAppend(r, s.log, e, s.restored);
    OtherPolicies(r, r.policies[e.policy.id := e.policy], s.seen, s.log + [e], s.restored);
    PublishKeepsPolicies(env, r.policies, s.log, s.restoredPolicies, e);
  }

  lemma AdmittedIsValid(a: A.State, acting: A.Acting, payload: A.Payload, limits: Limits)
    requires a.Valid(limits) && A.Admit(a, acting, payload, limits).1 == A.Status.ACCEPTED
    ensures a.(attempts := a.attempts[acting.attempt := payload]).Valid(limits)
  {
    A.AdmitKeepsValid(a, acting, payload, limits);
  }

  lemma PublishKeeps(env: Env, s: System, policy: Policy, acting: A.Acting)
    requires Inv(env, s)
    ensures Inv(env, PublishOf(env, s, policy, acting))
  {
    PublishEffect(s.shared, policy, acting, env.limits);
    var (shared, status) := PublishPolicy(s.shared, policy, acting, env.limits);
    var t := PublishedAs(s, policy.id, acting.attempt, shared, status);
    if status == APPLIED {
      AdmittedIsValid(s.shared.authority, acting, PolicyContent(policy), env.limits);
      ConflictOrder.CanonicalIsCanonical(policy, PublishedGeneration(s.shared.registry, policy.id) + 1);
      PublishAccepted(env, s, Publication(acting.attempt, shared.registry.policies[policy.id], s.now),
                      PolicyContent(policy));
    } else {
      assert t == s;
    }
  }

  /** Admitting a lifecycle attempt, and forgetting it again, moves no claim. */
  lemma LifecycleClaims(a: A.State, acting: A.Acting, payload: A.Payload, limits: Limits)
    requires a.Valid(limits) && payload.LifecyclePayload?
    ensures var (after, admitted) := A.Admit(a, acting, payload, limits);
            && after.Valid(limits) && after == a.(attempts := after.attempts)
            && (forall t :: Claims(a.attempts, t) <==> Claims(after.attempts, t))
            && (admitted == A.Status.ACCEPTED || admitted == A.Status.IDEMPOTENT ==>
                  !Claims(after.attempts, acting.attempt))
  {
    A.AdmitKeepsValid(a, acting, payload, limits);
  }

  lemma ForgottenClaims(attempts: map<string, A.Payload>, attempt: string)
    requires !Claims(attempts, attempt)
    ensures forall a :: Claims(attempts, a) <==> Claims(attempts - {attempt}, a)
  {
  }

  lemma TransitionNarrows(r: Registry, id: ProofId, target: L.State, maxHistory: nat)
    requires id in r.proofs && LifecycleTarget(target)
    ensures var after := r.Store(id, Transitioned(r.proofs[id], target, maxHistory));
            && after.policies == r.policies && after.index == r.index
            && Narrowed(r, after)
  {
  }

  /** The four ways a lifecycle operation can end. */
  ghost predicate LifecycleEnds(s: Shared, id: ProofId, authority: A.State, acting: A.Acting, target: L.State,
                                limits: Limits, after: Shared)
  {
    || after == s
    || after == Shared(authority, s.registry)
    || after == Shared(A.Forget(authority, acting.attempt), s.registry)
    || (id in s.registry.proofs
        && after == Shared(authority,
                           s.registry.Store(id, Transitioned(s.registry.proofs[id], target, limits.maxHistory))))
  }

  lemma LifecycleEndKeeps(env: Env, s: System, id: ProofId, authority: A.State, acting: A.Acting, target: L.State,
                          after: Shared)
    requires Inv(env, s) && LifecycleTarget(target)
    requires LifecycleEnds(s.shared, id, authority, acting, target, env.limits, after)
    requires authority.Valid(env.limits) && authority == s.shared.authority.(attempts := authority.attempts)
    requires forall t :: Claims(s.shared.authority.attempts, t) <==> Claims(authority.attempts, t)
    requires !Claims(authority.attempts, acting.attempt) || after == s.shared
    ensures Inv(env, s.(shared := after))
  {
    if after == s.shared {
      assert s.(shared := after) == s;
    } else {
      A.ForgetKeepsValid(authority, acting.attempt, env.limits);
      ForgottenClaims(authority.attempts, acting.attempt);
      if id in s.shared.registry.proofs {
        TransitionNarrows(s.shared.registry, id, target, env.limits.maxHistory);
      }
      MovedAndNarrowed(env, s, after);
    }
  }

  lemma MovedAndNarrowed(env: Env, s: System, after: Shared)
    requires Inv(env, s) && after.authority.Valid(env.limits)
    requires after.authority == s.shared.authority.(attempts := after.authority.attempts)
    requires forall a :: Claims(s.shared.authority.attempts, a) <==> Claims(after.authority.attempts, a)
    requires after.registry.policies == s.shared.registry.policies && after.registry.index == s.shared.registry.index
    requires Narrowed(s.shared.registry, after.registry)
    ensures Inv(env, s.(shared := after))
  {
    AttemptsMoved(env, s, after.authority);
    NarrowedKeeps(env, s.(shared := Shared(after.authority, s.shared.registry)), after.registry);
  }

  lemma LifecycleKeeps(env: Env, s: System, id: ProofId, acting: A.Acting, target: L.State)
    requires Inv(env, s) && LifecycleTarget(target)
    ensures Inv(env, s.(shared := ApplyLifecycle(s.shared, id, acting, target, env.limits).0))
  {
    var payload := A.LifecyclePayload(id, target);
    var (authority, admitted) := A.Admit(s.shared.authority, acting, payload, env.limits);
    LifecycleClaims(s.shared.authority, acting, payload, env.limits);
    LifecycleEndKeeps(env, s, id, authority, acting, target,
                      ApplyLifecycle(s.shared, id, acting, target, env.limits).0);
  }

  /** Only attempts that claim nothing came or went. */
  lemma AttemptsMoved(env: Env, s: System, authority: A.State)
    requires Inv(env, s) && authority.Valid(env.limits)
    requires authority == s.shared.authority.(attempts := authority.attempts)
    requires forall a :: Claims(s.shared.authority.attempts, a) <==> Claims(authority.attempts, a)
    ensures Inv(env, WithAuthority(s, authority))
  {
    SameClaims(s.shared.authority.attempts, authority.attempts, s.calls, s.log);
  }

  /** Epoch, registration and fence operations leave registry and attempts alone. */
  lemma AuthorityMovedKeeps(env: Env, s: System, authority: A.State)
    requires Inv(env, s) && authority.Valid(env.limits) && authority.attempts == s.shared.authority.attempts
    requires forall b | s.shared.authority.IsFenced(b) :: authority.IsFenced(b)
    ensures Inv(env, WithAuthority(s, authority))
  {
  }

  lemma FencingMore(env: Env, s: System, boot: string)
    requires Inv(env, s) && (boot == "" || s.shared.authority.IsFenced(boot))
    ensures Inv(env, s.(fencing := s.fencing + {boot}))
  {
  }

  lemma FenceKeeps(env: Env, s: System, boot: string)
    requires Inv(env, s)
    ensures Inv(env, WithAuthority(s, A.FenceBoot(s.shared.authority, boot).0).(fencing := s.fencing + {boot}))
  {
    A.FenceBootKeepsValid(s.shared.authority, boot, env.limits);
    var authority := A.FenceBoot(s.shared.authority, boot).0;
    assert boot == "" || authority.IsFenced(boot);
    AuthorityMovedKeeps(env, s, authority);
    FencingMore(env, WithAuthority(s, authority), boot);
  }

  // ----- Demotions and loads ------------------------------------------------------------------------

  /** Fewer current proofs, and those unchanged. */
  ghost predicate Narrowed(r: Registry, after: Registry) {
    forall id | after.IsCurrent(id) :: r.IsCurrent(id) && after.proofs[id].current == r.proofs[id].current
  }

  lemma NarrowedRegistry(r: Registry, after: Registry, seen: set<Seen>, log: seq<Entry>, restored: set<Seen>)
    requires RegistryOk(r, seen, log, restored) && Narrowed(r, after)
    requires after.index.byDomain == r.index.byDomain && after.index.byRiskGroup == r.index.byRiskGroup
    requires after.index == r.index || IndexOk(after, seen)
    ensures RegistryOk(after, seen, log, restored)
  {
    if after.index == r.index {
      NarrowingKeepsComplete(r, after);
    }
    NarrowingKeepsConsulted(r, after, restored);
  }

  lemma NarrowedFence(authority: A.State, r: Registry, after: Registry, fencing: set<string>, fenced: set<string>,
                      calls: map<nat, Call>)
    requires FenceOk(authority, r, fencing, fenced, calls) && Narrowed(r, after)
    ensures FenceOk(authority, after, fencing, fenced, calls)
  {
  }

  lemma NarrowedKeeps(env: Env, s: System, after: Registry)
    requires Inv(env, s) && Narrowed(s.shared.registry, after) && after.policies == s.shared.registry.policies
    requires after.index.byDomain == s.shared.registry.index.byDomain
             && after.index.byRiskGroup == s.shared.registry.index.byRiskGroup
    requires after.index == s.shared.registry.index || IndexOk(after, s.seen)
    ensures Inv(env, s.(shared := Shared(s.shared.authority, after)))
  {
    NarrowedRegistry(s.shared.registry, after, s.seen, s.log, s.restored);
    NarrowedFence(s.shared.authority, s.shared.registry, after, s.fencing, s.fenced, s.calls);
    SwapRegistry(env, s, after, s.seen);
  }

  lemma DemotedKeeps(env: Env, s: System, d: Demotion, reason: L.Currentness)
    requires Inv(env, s) && reason != L.Currentness.CURRENT
    requires DemotesExactly(s.shared.registry, d, reason) && IndexOk(d.registry, s.seen)
    requires d.registry.index.byDomain == s.shared.registry.index.byDomain
    requires d.registry.index.byRiskGroup == s.shared.registry.index.byRiskGroup
    ensures Inv(env, Demoted(s, d))
  {
    NarrowedKeeps(env, s, d.registry);
  }

  lemma FencedMore(env: Env, s: System, boot: string)
    requires Inv(env, s) && s.lock == None && boot in s.fencing
    requires forall id | s.shared.registry.IsCurrent(id) :: s.shared.registry.proofs[id].current.provenance.boot != boot
    ensures Inv(env, FenceDone(s, boot))
  {
  }

  lemma FinishFenceKeeps(env: Env, s: System, boot: string)
    requires Inv(env, s) && s.lock == None && boot in s.fencing
    ensures Inv(env, FenceDone(Demoted(s, DemoteBoot(s.shared.registry, boot)), boot))
  {
    DemoteBootIsScan(s.shared.registry, s.seen, boot);
    DemotedKeeps(env, s, DemoteBoot(s.shared.registry, boot), L.Currentness.FENCED_PUBLISHER);
    FencedMore(env, Demoted(s, DemoteBoot(s.shared.registry, boot)), boot);
  }

  lemma RefreshKeeps(env: Env, s: System, live: set<ProofId>, stalePolicies: set<ProofId>, stalePaths: set<ProofId>)
    requires Inv(env, s)
    ensures Inv(env, Demoted(s, Refresh(s.shared.registry, live, stalePolicies, stalePaths)))
  {
    var d := Refresh(s.shared.registry, live, stalePolicies, stalePaths);
    RefreshKeepsComplete(s.shared.registry, live, stalePolicies, stalePaths);
    NarrowedKeeps(env, s, d.registry);
  }

  lemma {:induction false} FenceEachKeeps(a: A.State, boots: seq<string>, limits: Limits)
    requires a.Valid(limits)
    ensures FenceEach(a, boots).Valid(limits) && FenceEach(a, boots).attempts == a.attempts
            && FenceEach(a, boots).epoch == a.epoch
    ensures forall b | a.IsFenced(b) :: FenceEach(a, boots).IsFenced(b)
    decreases |boots|
  {
    if boots != [] {
      var front := FenceEach(a, boots[..|boots| - 1]);
      FenceEachKeeps(a, boots[..|boots| - 1], limits);
      A.FenceBootKeepsValid(front, boots[|boots| - 1], limits);
    }
  }

  lemma LoadedAuthorityKeeps(a: A.State, contents: StoreContents, limits: Limits)
    requires a.Valid(limits)
    ensures LoadedAuthority(a, contents).Valid(limits) && LoadedAuthority(a, contents).attempts == a.attempts
    ensures LoadedAuthority(a, contents).epoch >= a.epoch
    ensures forall b | a.IsFenced(b) :: LoadedAuthority(a, contents).IsFenced(b)
  {
    FenceEachKeeps(if contents.epoch > 0 then A.RestoreEpoch(a, contents.epoch).0 else a, contents.fencedBoots, limits);
  }

  /** After a load a proof that the store did not hold is the one from before. */
  lemma LoadKeepsOthers(r: Registry, contents: StoreContents, after: Registry, id: ProofId)
    requires after.proofs == LoadedProofs(r, contents) && after.IsCurrent(id)
    requires Seen(id, after.proofs[id].current) !in RestoredFrom(contents)
    ensures r.IsCurrent(id) && after.proofs[id].current == r.proofs[id].current
  {
    HistoryKeepsCurrent(LoadProofs(r.proofs, contents.proofs), contents.history);
    LoadedOrKept(r.proofs, contents.proofs, id);
  }

  lemma LoadedRegistry(r: Registry, after: Registry, contents: StoreContents, seen: set<Seen>, log: seq<Entry>,
                       restored: set<Seen>)
    requires RegistryOk(r, seen, log, restored)
    requires after.proofs == LoadedProofs(r, contents) && Reindexed(r.index, after.proofs, after.index)
    ensures RegistryOk(after, seen + RecordsSeen(after.proofs), log, restored + RestoredFrom(contents))
  {
    var more := restored + RestoredFrom(contents);
    forall id | after.IsCurrent(id) && Seen(id, after.proofs[id].current) !in more
      ensures r.IsCurrent(id) && after.proofs[id].current == r.proofs[id].current
    {
      LoadKeepsOthers(r, contents, after, id);
    }
    ReindexingCompletes(r.index, after);
    ReindexingIsSound(r.index, after, seen);
    ReindexingKeepsConsulted(r, restored, after, more);
  }

  lemma LoadKeepsPolicies(env: Env, policies: map<string, Policy>, log: seq<Entry>, restored: set<Policy>,
                          contents: StoreContents)
    requires PoliciesOk(env, policies, log, restored) && env.stores(contents) && WideEnough(contents)
    ensures PoliciesOk(env, LoadPolicies(policies, contents.policies), log,
                       restored + set p | p in contents.policies)
  {
    var after, more := LoadPolicies(policies, contents.policies), restored + set p | p in contents.policies;
    forall id | id in after
      ensures after[id].generation <= MAX_GENERATION
    {
      LoadedPolicyOrKept(policies, contents.policies, id);
    }
    forall id | NeverRestored(more, id)
      ensures NeverRestored(restored, id) && GenerationOf(after, id) == GenerationOf(policies, id)
    {
      assert forall p | p in contents.policies :: p in more;
      UnloadedPolicyStays(policies, contents.policies, id);
    }
    forall k | 0 <= k < |log| && log[k].Publication?
      ensures PublicationOk(env.limits, log, more, log[k].policy)
    {
      assert PublicationOk(env.limits, log, restored, log[k].policy);
    }
    forall p | p in more
      ensures Brought(env, p)
    {
      if p !in restored {
        assert p in contents.policies;
      }
    }
  }

  /** Everything but the registry, after a load. */
  lemma LoadedFence(authority: A.State, loaded: A.State, r: Registry, after: Registry, fencing: set<string>,
                    fenced: set<string>, calls: map<nat, Call>)
    requires FenceOk(authority, r, fencing, fenced, calls)
    requires forall b | authority.IsFenced(b) :: loaded.IsFenced(b)
    ensures FenceOk(loaded, after, fencing, {}, calls)
  {
  }

  lemma LoadKeeps(env: Env, s: System, contents: StoreContents, index: Indexes)
    requires Inv(env, s) && s.lock == None && env.stores(contents) && WideEnough(contents)
    requires Reindexed(s.shared.registry.index, LoadedProofs(s.shared.registry, contents), index)
    ensures Inv(env, LoadOf(s, contents, index))
  {
    var t := LoadOf(s, contents, index);
    LoadedAuthorityKeeps(s.shared.authority, contents, env.limits);
    LoadedRegistry(s.shared.registry, t.shared.registry, contents, s.seen, s.log, s.restored);
    LoadedFence(s.shared.authority, t.shared.authority, s.shared.registry, t.shared.registry, s.fencing, s.fenced,
                s.calls);
    SourcesLoad(s.shared.registry.policies, s.calls, s.log, s.restoredPolicies, s.now, contents.policies);
    LoadKeepsPolicies(env, s.shared.registry.policies, s.log, s.restoredPolicies, contents);
  }
}
