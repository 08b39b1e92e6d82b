/**
 * Safety over whole runs of the runtime: what no interleaving of evaluations,
 * publications, fences, demotions, loads and view writers can break.
 */
module Runs {
  import opened Evidence
  import opened Registry
  import opened Invalidation
  import opened Operations
  import opened Protocol
  import L = Lifecycle
  import A = Authority

  // ----- Every event keeps the invariant --------------------------------------------------

  predicate UnlockedEvent(e: Event) {
    e.Tick? || e.Begin? || e.Read?
  }

  predicate LockedEvent(e: Event) {
    e.Lock? || e.CheckEpoch? || e.CheckFence? || e.CommitCall?
  }

  predicate ScopedDemotion(e: Event) {
    e.DemoteOnPath? || e.DemoteOnPolicy? || e.DemoteOnBoot?
  }

  predicate EvidenceDemotion(e: Event) {
    e.DemoteOnEntities? || e.DemoteOnDomains? || e.DemoteOnTopology? || e.DemoteOnDomainGeneration?
  }

  predicate AuthorityEvent(e: Event) {
    e.RestoreEpoch? || e.RegisterPublisher? || e.Fence?
  }

  predicate RegistryEvent(e: Event) {
    e.Publish? || e.ChangeLifecycle? || e.FinishFence? || e.RefreshCurrentness? || e.Load?
  }

  lemma UnlockedEventKeeps(env: Env, s: System, e: Event)
    requires Inv(env, s) && Enabled(env, s, e) && UnlockedEvent(e)
    ensures Inv(env, After(env, s, e))
  {
    match e
    case Tick => TickKeeps(env, s);
    case Begin(c, request, acting) => BeginKeeps(env, s, c, request, acting);
    case Read(c, observation) => ReadKeeps(env, s, c, observation);
  }

  lemma LockedEventKeeps(env: Env, s: System, e: Event)
    requires Inv(env, s) && Enabled(env, s, e) && LockedEvent(e)
    ensures Inv(env, After(env, s, e))
  {
    match e
    case Lock(c) => LockKeeps(env, s, c);
    case CheckEpoch(c) => CheckEpochKeeps(env, s, c);
    case CheckFence(c) => CheckFenceKeeps(env, s, c);
    case CommitCall(c) => CommitKeeps(env, s, c);
  }

  lemma ScopedDemotionKeeps(env: Env, s: System, e: Event)
    requires Inv(env, s) && Enabled(env, s, e) && ScopedDemotion(e)
    ensures Inv(env, After(env, s, e))
  {
    var r, seen := s.shared.registry, s.seen;
    match e
    case DemoteOnPath(path) =>
      DemotePathIsScan(r, seen, path);
      DemotedKeeps(env, s, DemotePath(r, path), L.Currentness.STALE_PATH_AUTHORITY);
    case DemoteOnPolicy(policy, generation) =>
      DemotePolicyIsScan(r, seen, policy, generation);
      DemotedKeeps(env, s, DemotePolicy(r, policy, generation), L.Currentness.STALE_POLICY);
    case DemoteOnBoot(boot) =>
      DemoteBootIsScan(r, seen, boot);
      DemotedKeeps(env, s, DemoteBoot(r, boot), L.Currentness.FENCED_PUBLISHER);
  }

  lemma StructureDemotionKeeps(env: Env, s: System, e: Event)
    requires Inv(env, s) && Enabled(env, s, e) && (e.DemoteOnEntities? || e.DemoteOnTopology?)
    ensures Inv(env, After(env, s, e))
  {
    var r, seen := s.shared.registry, s.seen;
    match e
    case DemoteOnEntities(entities, generation) =>
      DemoteEntitiesIsScan(r, seen, entities, generation);
      DemotedKeeps(env, s, DemoteEntities(r, entities, generation), L.Currentness.STALE_TOPOLOGY);
    case DemoteOnTopology(generation) =>
      DemoteTopologyGenerationIsScan(r, seen, generation);
      DemotedKeeps(env, s, DemoteTopologyGeneration(r, generation), L.Currentness.STALE_TOPOLOGY);
  }

  lemma DomainDemotionKeeps(env: Env, s: System, e: Event)
    requires Inv(env, s) && Enabled(env, s, e) && (e.DemoteOnDomains? || e.DemoteOnDomainGeneration?)
    ensures Inv(env, After(env, s, e))
  {
    var r, seen := s.shared.registry, s.seen;
    match e
    case DemoteOnDomains(domains, generation) =>
      DemoteDomainsIsJustified(r, seen, domains, generation);
      DemotedKeeps(env, s, DemoteDomains(r, domains, generation), L.Currentness.STALE_FAILURE_DOMAIN);
    case DemoteOnDomainGeneration(generation) =>
      DemoteDomainGenerationIsScan(r, seen, generation);
      DemotedKeeps(env, s, DemoteDomainGeneration(r, generation), L.Currentness.STALE_FAILURE_DOMAIN);
  }

  lemma RegisterKeeps(env: Env, s: System, session: A.Session)
    requires Inv(env, s)
    ensures Inv(env, WithAuthority(s, A.Register(s.shared.authority, session, env.limits).0))
  {
    A.RegisterKeepsValid(s.shared.authority, session, env.limits);
    AuthorityMovedKeeps(env, s, A.Register(s.shared.authority, session, env.limits).0);
  }

  lemma RestoreKeeps(env: Env, s: System, epoch: nat)
    requires Inv(env, s)
    ensures Inv(env, WithAuthority(s, A.RestoreEpoch(s.shared.authority, epoch).0))
  {
    A.RestoreKeepsValid(s.shared.authority, epoch, env.limits);
    AuthorityMovedKeeps(env, s, A.RestoreEpoch(s.shared.authority, epoch).0);
  }

  lemma AuthorityEventKeeps(env: Env, s: System, e: Event)
    requires Inv(env, s) && Enabled(env, s, e) && AuthorityEvent(e)
    ensures Inv(env, After(env, s, e))
  {
    match e
    case RestoreEpoch(epoch) => RestoreKeeps(env, s, epoch);
    case RegisterPublisher(session) => RegisterKeeps(env, s, session);
    case Fence(boot) => FenceKeeps(env, s, boot);
  }

  lemma RegistryEventKeeps(env: Env, s: System, e: Event)
    requires Inv(env, s) && Enabled(env, s, e) && RegistryEvent(e)
    ensures Inv(env, After(env, s, e))
  {
    match e
    case Publish(policy, acting) => PublishKeeps(env, s, policy, acting);
    case ChangeLifecycle(id, acting, target) => LifecycleKeeps(env, s, id, acting, target);
    case FinishFence(boot) => FinishFenceKeeps(env, s, boot);
    case RefreshCurrentness(live, stalePolicies, stalePaths) => RefreshKeeps(env, s, live, stalePolicies, stalePaths);
    case Load(contents, index) => LoadKeeps(env, s, contents, index);
  }

  lemma EventKeeps(env: Env, s: System, e: Event)
    requires Inv(env, s) && Enabled(env, s, e)
    ensures Inv(env, After(env, s, e))
  {
    if UnlockedEvent(e) {
      UnlockedEventKeeps(env, s, e);
    } else if LockedEvent(e) {
      LockedEventKeeps(env, s, e);
    } else if ScopedDemotion(e) {
      ScopedDemotionKeeps(env, s, e);
    } else if e.DemoteOnEntities? || e.DemoteOnTopology? {
      StructureDemotionKeeps(env, s, e);
    } else if EvidenceDemotion(e) {
      DomainDemotionKeeps(env, s, e);
    } else if AuthorityEvent(e) {
      AuthorityEventKeeps(env, s, e);
    } else {
      RegistryEventKeeps(env, s, e);
    }
  }

  lemma StartParts(env: Env)
    ensures RegistryOk(EMPTY, {}, [], {}) && SourcesOk(map[], map[], [], {}, 0) && PoliciesOk(env, map[], [], {})
    ensures FenceOk(A.INITIAL, EMPTY, {}, {}, map[]) && UnloadedOk(NO_INDEXES, {}, {}, {})
    ensures ClaimsOk(map[], map[], []) && LockOk(None, map[])
  {
  }

  lemma StartHolds(env: Env)
    ensures Inv(env, START)
  {
    StartParts(env);
  }

  // ----- What never goes back ----------------------------------------------------------------

  /** Fences, loads, what loads brought, the epoch and the log only ever grow; finished fences do between loads. */
  ghost predicate Grows(s: System, t: System) {
    && s.shared.authority.epoch <= t.shared.authority.epoch
    && (forall b | s.shared.authority.IsFenced(b) :: t.shared.authority.IsFenced(b))
    && s.loads <= t.loads
    && (s.loads == t.loads ==> s.fenced <= t.fenced)
    && s.restored <= t.restored
    && s.now <= t.now
    && s.log <= t.log
  }

  lemma GrowsTransitive(s: System, t: System, u: System)
    requires Grows(s, t) && Grows(t, u)
    ensures Grows(s, u)
  {
  }

  /** Only the attempts moved, and the log at most grew. */
  lemma AttemptsOnlyGrow(s: System, t: System)
    requires t.shared.authority == s.shared.authority.(attempts := t.shared.authority.attempts)
    requires t.fenced == s.fenced && t.loads == s.loads && t.restored == s.restored && t.now == s.now && s.log <= t.log
    ensures Grows(s, t)
  {
  }

  lemma BeginGrows(env: Env, s: System, c: nat, request: Request, acting: A.Acting)
    ensures Grows(s, BeginOf(env, s, c, request, acting))
  {
    BeginMovesAttempts(s.shared, request, acting, env.limits);
    AttemptsOnlyGrow(s, BeginOf(env, s, c, request, acting));
  }

  lemma ConcludeGrows(s: System, c: nat, commitment: Commitment)
    requires c in s.calls && s.calls[c].observed.Some?
    ensures Grows(s, Conclude(s, c, commitment))
  {
    AttemptsOnlyGrow(s, Conclude(s, c, commitment));
  }

  lemma PhaseGrows(s: System, c: nat, phase: Phase)
    requires c in s.calls
    ensures Grows(s, SetPhase(s, c, phase)) && Grows(s, SetPhase(s, c, phase).(lock := Some(c)))
            && Grows(s, Abandon(s, c))
  {
  }

  lemma UnlockedEventGrows(env: Env, s: System, e: Event)
    requires Enabled(env, s, e) && UnlockedEvent(e)
    ensures Grows(s, After(env, s, e))
  {
    match e
    case Tick =>
    case Begin(c, request, acting) => BeginGrows(env, s, c, request, acting);
    case Read(c, observation) => AttemptsOnlyGrow(s, ReadOf(s, c, observation));
  }

  lemma LockedEventGrows(env: Env, s: System, e: Event)
    requires Enabled(env, s, e) && LockedEvent(e)
    ensures Grows(s, After(env, s, e))
  {
    match e
    case Lock(c) => PhaseGrows(s, c, HoldsPolicy);
    case CheckEpoch(c) => PhaseGrows(s, c, HoldsEpoch);
    case CheckFence(c) => PhaseGrows(s, c, HoldsFence);
    case CommitCall(c) => ConcludeGrows(s, c, CommitmentOf(env, s, c));
  }

  lemma PublishGrows(env: Env, s: System, policy: Policy, acting: A.Acting)
    ensures Grows(s, PublishOf(env, s, policy, acting))
  {
    PublishEffect(s.shared, policy, acting, env.limits);
  }

  lemma LifecycleGrows(env: Env, s: System, id: ProofId, acting: A.Acting, target: L.State)
    ensures Grows(s, s.(shared := ApplyLifecycle(s.shared, id, acting, target, env.limits).0))
  {
    LifecycleMovesAttempts(s.shared, id, acting, target, env.limits);
    AttemptsOnlyGrow(s, s.(shared := ApplyLifecycle(s.shared, id, acting, target, env.limits).0));
  }

  lemma AuthorityMovesGrow(env: Env, s: System, authority: A.State)
    requires s.shared.authority.epoch <= authority.epoch
    requires forall b | s.shared.authority.IsFenced(b) :: authority.IsFenced(b)
    ensures Grows(s, WithAuthority(s, authority))
    ensures forall boots :: Grows(s, WithAuthority(s, authority).(fencing := boots))
  {
  }

  lemma AuthorityEventGrows(env: Env, s: System, e: Event)
    requires Inv(env, s) && Enabled(env, s, e) && AuthorityEvent(e)
    ensures Grows(s, After(env, s, e))
  {
    var authority := s.shared.authority;
    match e
    case RestoreEpoch(epoch) =>
      A.RestoreKeepsValid(authority, epoch, env.limits);
      AuthorityMovesGrow(env, s, A.RestoreEpoch(authority, epoch).0);
    case RegisterPublisher(session) =>
      A.RegisterKeepsValid(authority, session, env.limits);
      AuthorityMovesGrow(env, s, A.Register(authority, session, env.limits).0);
    case Fence(boot) =>
      A.FenceBootKeepsValid(authority, boot, env.limits);
      AuthorityMovesGrow(env, s, A.FenceBoot(authority, boot).0);
  }

  lemma LoadGrows(env: Env, s: System, contents: StoreContents, index: Indexes)
    requires s.shared.authority.Valid(env.limits)
    ensures Grows(s, LoadOf(s, contents, index))
  {
    LoadedAuthorityKeeps(s.shared.authority, contents, env.limits);
  }

  lemma DemotedGrows(s: System, d: Demotion)
    ensures Grows(s, Demoted(s, d))
  {
  }

  lemma FinishFenceGrows(s: System, boot: string)
    ensures Grows(s, FenceDone(Demoted(s, DemoteBoot(s.shared.registry, boot)), boot))
  {
  }

  lemma WriteGrows(env: Env, s: System, e: Event)
    requires Enabled(env, s, e) && (e.Publish? || e.ChangeLifecycle?)
    ensures Grows(s, After(env, s, e))
  {
    match e
    case Publish(policy, acting) => PublishGrows(env, s, policy, acting);
    case ChangeLifecycle(id, acting, target) => LifecycleGrows(env, s, id, acting, target);
  }

  lemma LateDemotionGrows(env: Env, s: System, e: Event)
    requires Enabled(env, s, e) && (e.FinishFence? || e.RefreshCurrentness?)
    ensures Grows(s, After(env, s, e))
  {
    match e
    case FinishFence(boot) => FinishFenceGrows(s, boot);
    case RefreshCurrentness(live, policies, paths) =>
      DemotedGrows(s, Refresh(s.shared.registry, live, policies, paths));
  }

  lemma RegistryEventGrows(env: Env, s: System, e: Event)
    requires s.shared.authority.Valid(env.limits) && Enabled(env, s, e) && RegistryEvent(e)
    ensures Grows(s, After(env, s, e))
  {
    if e.Load? {
      LoadGrows(env, s, e.contents, e.index);
    } else if e.Publish? || e.ChangeLifecycle? {
      WriteGrows(env, s, e);
    } else {
      LateDemotionGrows(env, s, e);
    }
  }

  lemma DemotionGrows(env: Env, s: System, e: Event)
    requires Enabled(env, s, e) && (ScopedDemotion(e) || EvidenceDemotion(e))
    ensures Grows(s, After(env, s, e))
  {
    DemotedGrows(s, Demotion(After(env, s, e).shared.registry, {}));
    assert After(env, s, e) == Demoted(s, Demotion(After(env, s, e).shared.registry, {}));
  }

  lemma EventGrows(env: Env, s: System, e: Event)
    requires Inv(env, s) && Enabled(env, s, e)
    ensures Grows(s, After(env, s, e))
  {
    if UnlockedEvent(e) {
      UnlockedEventGrows(env, s, e);
    } else if LockedEvent(e) {
      LockedEventGrows(env, s, e);
    } else if ScopedDemotion(e) || EvidenceDemotion(e) {
      DemotionGrows(env, s, e);
    } else if AuthorityEvent(e) {
      AuthorityEventGrows(env, s, e);
    } else {
      RegistryEventGrows(env, s, e);
    }
  }

  lemma StepHolds(env: Env, s: System, e: Event, t: System)
    requires Inv(env, s) && Steps(env, s, e, t)
    ensures Inv(env, t) && Grows(s, t)
  {
    EventKeeps(env, s, e);
    EventGrows(env, s, e);
  }

  lemma RunFront(env: Env, events: seq<Event>, states: seq<System>)
    requires IsRun(env, events, states)
    ensures |states| == |events| + 1
    ensures events != [] ==> IsRun(env, events[..|events| - 1], states[..|events|])
  {
  }

  lemma LastStep(env: Env, events: seq<Event>, states: seq<System>)
    requires IsRun(env, events, states) && events != []
    ensures |states| == |events| + 1
    ensures Inv(env, states[|events| - 1]) ==>
              Inv(env, states[|events|]) && Grows(states[|events| - 1], states[|events|])
  {
    var last := |events| - 1;
    if Inv(env, states[last]) {
      StepHolds(env, states[last], events[last], states[|events|]);
    }
  }

  lemma {:induction false} Prefix(env: Env, events: seq<Event>, states: seq<System>, k: nat)
    requires IsRun(env, events, states) && k <= |events|
    ensures |states| == |events| + 1 && IsRun(env, events[..k], states[..k + 1])
    decreases |events|
  {
    RunFront(env, events, states);
    if k == |events| {
      assert events[..k] == events && states[..k + 1] == states;
    } else {
      var front, before := events[..|events| - 1], states[..|events|];
      Prefix(env, front, before, k);
      assert front[..k] == events[..k] && before[..k + 1] == states[..k + 1];
    }
  }

  /** The invariant holds at the end of every run, so in every reachable state. */
  lemma {:induction false} RunHolds(env: Env, events: seq<Event>, states: seq<System>)
    requires IsRun(env, events, states)
    ensures |states| == |events| + 1 && Inv(env, states[|events|])
    decreases |events|
  {
    if events == [] {
      StartHolds(env);
    } else {
      RunFront(env, events, states);
      RunHolds(env, events[..|events| - 1], states[..|events|]);
      LastStep(env, events, states);
    }
  }

  lemma HoldsAt(env: Env, events: seq<Event>, states: seq<System>, k: nat)
    requires IsRun(env, events, states) && k <= |events|
    ensures |states| == |events| + 1 && Inv(env, states[k])
  {
    Prefix(env, events, states, k);
    RunHolds(env, events[..k], states[..k + 1]);
  }

  /** From every state of a run to its end things only grow. */
  lemma {:induction false} RunGrows(env: Env, events: seq<Event>, states: seq<System>, i: nat)
    requires IsRun(env, events, states) && i <= |events|
    ensures |states| == |events| + 1 && Grows(states[i], states[|events|])
    decreases |events|
  {
    if i < |events| {
      RunFront(env, events, states);
      var last := |events| - 1;
      RunGrows(env, events[..last], states[..|events|], i);
      RunHolds(env, events[..last], states[..|events|]);
      LastStep(env, events, states);
      GrowsTransitive(states[i], states[last], states[|events|]);
    }
  }

  lemma GrowsBetween(env: Env, events: seq<Event>, states: seq<System>, i: nat, j: nat)
    requires IsRun(env, events, states) && i <= j <= |events|
    ensures |states| == |events| + 1 && Grows(states[i], states[j])
  {
    Prefix(env, events, states, j);
    RunGrows(env, events[..j], states[..j + 1], i);
  }

  lemma StepAt(env: Env, events: seq<Event>, states: seq<System>, k: nat)
    requires IsRun(env, events, states) && k < |events|
    ensures |states| == |events| + 1 && Steps(env, states[k], events[k], states[k + 1])
  {
    Prefix(env, events, states, k + 1);
  }

  // ----- The theorems ---------------------------------------------------------------------------

  lemma FinishedFenceIsRemembered(env: Env, events: seq<Event>, states: seq<System>, i: nat, boot: string)
    requires IsRun(env, events, states) && |states| == |events| + 1 && i < |events| && events[i] == FinishFence(boot)
    ensures boot in states[i + 1].fenced
  {
    StepAt(env, events, states, i);
  }

  lemma FencedBootHoldsNothing(env: Env, s: System, boot: string)
    requires Inv(env, s) && boot in s.fenced
    ensures forall id | s.shared.registry.IsCurrent(id) :: s.shared.registry.proofs[id].current.provenance.boot != boot
  {
  }

  /**
   * Fence safety: once fencing a boot has returned, no later state holds a current proof
   * of that boot until the next load, whatever was admitted or loaded earlier and
   * wherever the fence landed.
   */
  lemma FenceSafety(env: Env, events: seq<Event>, states: seq<System>, i: nat, j: nat, boot: string)
    requires IsRun(env, events, states) && |states| == |events| + 1 && i < j <= |events|
    requires events[i] == FinishFence(boot) && states[j].loads == states[i + 1].loads
    ensures forall id | states[j].shared.registry.IsCurrent(id) ::
              states[j].shared.registry.proofs[id].current.provenance.boot != boot
  {
    FinishedFenceIsRemembered(env, events, states, i, boot);
    GrowsBetween(env, events, states, i + 1, j);
    FinishedFenceHolds(env, events, states, j, boot);
  }

  lemma FinishedFenceHolds(env: Env, events: seq<Event>, states: seq<System>, j: nat, boot: string)
    requires IsRun(env, events, states) && |states| == |events| + 1 && j <= |events| && boot in states[j].fenced
    ensures forall id | states[j].shared.registry.IsCurrent(id) ::
              states[j].shared.registry.proofs[id].current.provenance.boot != boot
  {
    HoldsAt(env, events, states, j);
    FencedBootHoldsNothing(env, states[j], boot);
  }

  /** The proof was not read from a store, but committed in this run. */
  predicate CommittedHere(s: System, id: ProofId) {
    s.shared.registry.IsCurrent(id) && (s.loads == 0 || Seen(id, s.shared.registry.proofs[id].current) !in s.restored)
  }

  /** Exactly this policy was published before the call began, or a load brought it. */
  ghost predicate PolicyKnown(s: System, k: nat, policy: Policy, began: nat) {
    PublishedBefore(s.log, k, policy, began) || (s.loads > 0 && policy in s.restoredPolicies)
  }

  /** The k-th entry is the commit of this proof: under which policy, from when to when, and that it is decisive. */
  ghost predicate CommitAt(s: System, k: nat, p: Proof) {
    && k < |s.log| && s.log[k].Revision?
    && var e := s.log[k];
       && e.proof == p && e.attempt == p.provenance.attempt
       && e.policy.id == p.request.policy && e.policy.generation == p.request.policyGeneration
       && PolicyKnown(s, k, e.policy, e.began)
       && e.began <= e.read <= e.committed <= s.now
       && Decisive(p.evaluation.outcome)
  }

  lemma EntryIsCommit(env: Env, s: System, k: nat)
    requires Inv(env, s) && k < |s.log| && s.log[k].Revision? && s.log[k].proof.Current()
    ensures CommitAt(s, k, s.log[k].proof)
  {
    assert EntryOk(env, s.log[k], s.now);
    assert Sourced(s.log, k, s.restoredPolicies, s.log[k].policy, s.log[k].began);
  }

  lemma EntryIsIsolated(env: Env, s: System, k: nat)
    requires Faithful(env) && Inv(env, s) && k < |s.log| && s.log[k].Revision? && s.log[k].proof.Current()
    ensures var e := s.log[k]; FromOneInstant(env, e.began, e.read, e.proof.request, e.policy, e.proof.evaluation)
  {
    var e := s.log[k];
    assert EntryOk(env, e, s.now);
    assert Trustworthy(env, e.began, e.read, e.proof.request, e.policy, e.observation);
  }

  /**
   * Snapshot isolation: every current proof that was not read from a store was committed
   * as it stands, under a policy with the identity and generation it names that had been
   * published before the call began; and, as far as observations can be trusted, it
   * carries the verdict one atomic evaluation gives at one instant between the beginning
   * and the reading of that call, at exactly the generations it binds.
   */
  lemma SnapshotIsolation(env: Env, events: seq<Event>, states: seq<System>, j: nat, id: ProofId)
    requires Faithful(env) && IsRun(env, events, states) && |states| == |events| + 1 && j <= |events|
    requires CommittedHere(states[j], id)
    ensures var s, p := states[j], states[j].shared.registry.proofs[id].current;
            && p.request == id
            && exists k: nat :: CommitAt(s, k, p)
                                && FromOneInstant(env, s.log[k].began, s.log[k].read, p.request, s.log[k].policy,
                                                  p.evaluation)
  {
    HoldsAt(env, events, states, j);
    CommittedIsLogged(env, states[j], id);
    var s, p := states[j], states[j].shared.registry.proofs[id].current;
    var k :| 0 <= k < |s.log| && s.log[k].Revision? && s.log[k].proof == p;
    EntryIsCommit(env, s, k);
    EntryIsIsolated(env, s, k);
  }

  lemma CommittedIsLogged(env: Env, s: System, id: ProofId)
    requires Inv(env, s) && CommittedHere(s, id)
    ensures s.shared.registry.proofs[id].current.request == id
            && LoggedRevision(s.log, s.shared.registry.proofs[id].current)
  {
    assert Seen(id, s.shared.registry.proofs[id].current) !in s.restored;
  }

  /**
   * Until the first load a current proof takes two attempts, one to publish its policy
   * and one to evaluate under it, so limits that track one attempt allow none.
   */
  lemma CurrentTakesTwoAttempts(env: Env, events: seq<Event>, states: seq<System>, j: nat, id: ProofId)
    requires IsRun(env, events, states) && |states| == |events| + 1 && j <= |events|
    requires states[j].loads == 0 && states[j].shared.registry.IsCurrent(id)
    ensures env.limits.maxAttemptsTracked > 1
  {
    HoldsAt(env, events, states, j);
    EvaluatedAfterPublished(env, states[j], id);
  }

  lemma EvaluatedAfterPublished(env: Env, s: System, id: ProofId)
    requires Inv(env, s) && s.loads == 0 && s.shared.registry.IsCurrent(id)
    ensures env.limits.maxAttemptsTracked > 1
  {
    CommittedIsLogged(env, s, id);
    var k :| 0 <= k < |s.log| && s.log[k].Revision? && s.log[k].proof == s.shared.registry.proofs[id].current;
    assert Sourced(s.log, k, s.restoredPolicies, s.log[k].policy, s.log[k].began);
    TwoEntries(s.shared.authority.attempts, s.calls, s.log, k, s.log[k].policy, s.log[k].began);
  }

  lemma TwoEntries(attempts: map<string, A.Payload>, calls: map<nat, Call>, log: seq<Entry>, k: nat,
                   policy: Evidence.Policy, began: nat)
    requires AttemptsOk(attempts, calls, log) && k < |log| && PublishedBefore(log, k, policy, began)
    ensures |attempts| > 1
  {
    var i :| 0 <= i < |log| && i < k && log[i].Publication? && log[i].policy == policy && log[i].published <= began;
    TwoClaims(attempts, log[i].attempt, log[k].attempt);
  }

  lemma TwoClaims(attempts: map<string, A.Payload>, a: string, b: string)
    requires Claims(attempts, a) && Claims(attempts, b) && a != b
    ensures |attempts| > 1
  {
    var rest := attempts.Keys - {a, b};
    assert attempts.Keys == rest + {a, b} && |attempts.Keys| == |rest| + 2;
    assert |attempts| == |attempts.Keys|;
  }

  /** So many attempts are tracked that this policy can be published from the first generation on and then be used. */
  predicate Publishable(p: Policy, limits: Limits) {
    CanonicalPolicy(p) == p && ValidPolicy(p, limits) && p.generation <= MAX_GENERATION
    && limits.maxAttemptsTracked > p.generation
  }

  /** Some store brings a policy of this identity, and one publication comes on top of it. */
  ghost predicate PublishableOnLoad(env: Env, p: Policy) {
    CanonicalPolicy(p) == p && ValidPolicy(p, env.limits) && p.generation <= MAX_GENERATION
    && env.limits.maxAttemptsTracked > 1 && exists q | Brought(env, q) :: q.id == p.id
  }

  /**
   * A revision is only ever committed under a policy that was published from the first
   * generation on, each time by an attempt of its own, or, after a load, that some store
   * brings or that was published on top of a policy some store brings.
   */
  lemma CommitNeedsPolicy(env: Env, events: seq<Event>, states: seq<System>, j: nat, k: nat)
    requires IsRun(env, events, states) && |states| == |events| + 1 && j <= |events|
    requires k < |states[j].log| && states[j].log[k].Revision?
    ensures var p := states[j].log[k].policy;
            Publishable(p, env.limits) || (states[j].loads > 0 && (Brought(env, p) || PublishableOnLoad(env, p)))
  {
    HoldsAt(env, events, states, j);
    var s := states[j];
    assert Sourced(s.log, k, s.restoredPolicies, s.log[k].policy, s.log[k].began);
    if s.log[k].policy !in s.restoredPolicies {
      TwoEntries(s.shared.authority.attempts, s.calls, s.log, k, s.log[k].policy, s.log[k].began);
      CommitAfterPublication(env, s.shared.registry.policies, s.shared.authority.attempts, s.calls, s.log,
                             s.restoredPolicies, k);
    }
  }

  lemma CommitAfterPublication(env: Env, policies: map<string, Policy>, attempts: map<string, A.Payload>,
                               calls: map<nat, Call>, log: seq<Entry>, restored: set<Policy>, k: nat)
    requires PoliciesOk(env, policies, log, restored) && AttemptsOk(attempts, calls, log)
    requires 1 < |attempts| <= env.limits.maxAttemptsTracked
    requires k < |log| && log[k].Revision? && PublishedBefore(log, k, log[k].policy, log[k].began)
    ensures Publishable(log[k].policy, env.limits) || (restored != {} && PublishableOnLoad(env, log[k].policy))
  {
    var p := log[k].policy;
    var i :| 0 <= i < |log| && i < k && log[i].Publication? && log[i].policy == p && log[i].published <= log[k].began;
    assert PublicationOk(env.limits, log, restored, log[i].policy);
    if NeverRestored(restored, p.id) {
      FewerPublications(log, k, p.id);
      LogFits(log, attempts.Keys);
      assert |attempts.Keys| == |attempts|;
    } else {
      var q :| q in restored && q.id == p.id;
      assert Brought(env, q);
    }
  }

  lemma {:induction false} FewerPublications(log: seq<Entry>, k: nat, id: string)
    requires k < |log| ==> !log[k].Publication?
    ensures Publications(log, id) + (if k < |log| then 1 else 0) <= |log|
    decreases |log|
  {
    if log != [] {
      var front := log[..|log| - 1];
      FewerPublications(front, k, id);
    }
  }

  lemma {:induction false} LogFits(log: seq<Entry>, attempts: set<string>)
    requires forall k | 0 <= k < |log| :: log[k].attempt in attempts
    requires forall j, k | 0 <= j < k < |log| :: log[j].attempt != log[k].attempt
    ensures |log| <= |attempts|
    decreases |log|
  {
    if log != [] {
      LogFits(log[..|log| - 1], attempts - {log[|log| - 1].attempt});
    }
  }

  /** The same for every revision that was ever committed as current, demoted or replaced since, loads included. */
  lemma EveryCommitIsIsolated(env: Env, events: seq<Event>, states: seq<System>, j: nat, k: nat)
    requires Faithful(env) && IsRun(env, events, states) && |states| == |events| + 1 && j <= |events|
    requires k < |states[j].log| && states[j].log[k].Revision? && states[j].log[k].proof.Current()
    ensures var e := states[j].log[k];
            CommitAt(states[j], k, e.proof)
            && FromOneInstant(env, e.began, e.read, e.proof.request, e.policy, e.proof.evaluation)
  {
    HoldsAt(env, events, states, j);
    EntryIsCommit(env, states[j], k);
    EntryIsIsolated(env, states[j], k);
  }

  /** One attempt commits at most one revision or policy generation in a run. */
  lemma AtMostOneCommitPerAttempt(env: Env, events: seq<Event>, states: seq<System>, i: nat, j: nat, k: nat)
    requires IsRun(env, events, states) && |states| == |events| + 1 && k <= |events| && i < |states[k].log|
             && j < |states[k].log|
    requires states[k].log[i].attempt == states[k].log[j].attempt
    ensures i == j
  {
    HoldsAt(env, events, states, k);
  }

  /**
   * In every reachable state the attempts that evaluations and publications have taken
   * are exactly those of calls in flight and those that ended in the log, with a policy,
   * a revision or nothing new to say; and none is both.
   */
  lemma AttemptsAreAccountedFor(env: Env, events: seq<Event>, states: seq<System>, k: nat, attempt: string)
    requires IsRun(env, events, states) && |states| == |events| + 1 && k <= |events|
    ensures var s := states[k];
            && (Claims(s.shared.authority.attempts, attempt) <==> InFlight(s.calls, attempt) || Logged(s.log, attempt))
            && !(InFlight(s.calls, attempt) && Logged(s.log, attempt))
  {
    HoldsAt(env, events, states, k);
    ClaimedIff(states[k].shared.authority.attempts, states[k].calls, states[k].log, attempt);
  }

  lemma ClaimedIff(attempts: map<string, A.Payload>, calls: map<nat, Call>, log: seq<Entry>, attempt: string)
    requires ClaimsOk(attempts, calls, log)
    ensures Claims(attempts, attempt) <==> InFlight(calls, attempt) || Logged(log, attempt)
    ensures !(InFlight(calls, attempt) && Logged(log, attempt))
  {
    if InFlight(calls, attempt) {
      var c :| c in calls && calls[c].acting.attempt == attempt;
      assert Claims(attempts, calls[c].acting.attempt);
    }
    if Logged(log, attempt) {
      var k :| 0 <= k < |log| && log[k].attempt == attempt;
      assert Claims(attempts, log[k].attempt);
    }
  }

  /** One entry of this attempt joined the log. */
  predicate LogGained(s: System, t: System, attempt: string) {
    |t.log| == |s.log| + 1 && s.log <= t.log && t.log[|s.log|].attempt == attempt
  }

  /** The call is at its commit, and the stored revision is the expected one and says the same already. */
  predicate SaysNothingNew(s: System, e: Event, c: nat) {
    && e == CommitCall(c) && c in s.calls && s.calls[c].observed.Some?
    && AlreadySaid(s.shared.registry, s.calls[c].request, Finish(s.calls[c].observed.value), s.calls[c].acting)
  }

  lemma OtherEventsKeepCalls(env: Env, s: System, e: Event)
    requires Enabled(env, s, e) && !UnlockedEvent(e) && !LockedEvent(e)
    ensures After(env, s, e).calls == s.calls
  {
  }

  lemma EarlyEventsKeepCalls(env: Env, s: System, e: Event)
    requires Enabled(env, s, e) && UnlockedEvent(e)
    ensures forall c | c in s.calls :: c in After(env, s, e).calls
  {
    match e
    case Tick =>
    case Begin(d, request, acting) =>
    case Read(d, observation) =>
  }

  /** A step of a call touches no other call, and a refusal leaves the log alone. */
  lemma CheckingEvents(env: Env, s: System, e: Event)
    requires Enabled(env, s, e) && (e.Lock? || e.CheckEpoch? || e.CheckFence?)
    ensures After(env, s, e).log == s.log
    ensures forall d | d in After(env, s, e).calls ::
              d in s.calls && After(env, s, e).calls[d].acting == s.calls[d].acting
  {
    match e
    case Lock(d) =>
    case CheckEpoch(d) =>
    case CheckFence(d) =>
  }

  lemma ConcludeLogs(s: System, c: nat, commitment: Commitment)
    requires c in s.calls && s.calls[c].observed.Some?
    ensures var t, attempt := Protocol.Conclude(s, c, commitment), s.calls[c].acting.attempt;
            && t.calls == s.calls - {c}
            && (commitment.committed == None && commitment.status != UNCHANGED ==> t.log == s.log)
            && (commitment.committed == None && commitment.status == UNCHANGED ==>
                  LogGained(s, t, attempt) && t.log[|s.log|].Unchanged?)
            && (commitment.committed.Some? ==> LogGained(s, t, attempt) && t.log[|s.log|].Revision?)
  {
  }

  /** How a call ends: refused, with a commit, or with nothing to say. */
  ghost predicate EndsInLog(s: System, e: Event, t: System, c: nat)
    requires c in s.calls
  {
    && (forall d | d in t.calls :: d in s.calls && t.calls[d].acting == s.calls[d].acting)
    && (t.log == s.log || (LogGained(s, t, s.calls[c].acting.attempt) && !t.log[|s.log|].Publication?))
    && (SaysNothingNew(s, e, c) <==> LogGained(s, t, s.calls[c].acting.attempt) && t.log[|s.log|].Unchanged?)
  }

  lemma CommitEndsInLog(env: Env, s: System, c: nat)
    requires c in s.calls && s.calls[c].observed.Some?
    ensures EndsInLog(s, CommitCall(c), CommitOf(env, s, c), c)
  {
    var call := s.calls[c];
    CommitUnchangedIff(s.shared.registry, call.request, Finish(call.observed.value), call.acting, env.limits);
    ConcludeLogs(s, c, CommitmentOf(env, s, c));
  }

  lemma EndOf(env: Env, s: System, e: Event, c: nat)
    requires Enabled(env, s, e) && c in s.calls && c !in After(env, s, e).calls
    ensures EndsInLog(s, e, After(env, s, e), c)
  {
    if e.CommitCall? {
      ConcludeLogs(s, e.call, CommitmentOf(env, s, e.call));
      CommitEndsInLog(env, s, c);
    } else if LockedEvent(e) {
      CheckingEvents(env, s, e);
    } else if UnlockedEvent(e) {
      EarlyEventsKeepCalls(env, s, e);
    } else {
      OtherEventsKeepCalls(env, s, e);
    }
  }

  /**
   * When a call ends, its attempt is released exactly if nothing of it is in the log; it
   * is in the log with a revision, or, exactly when the stored revision already said the
   * same at the commit step, without one.
   */
  lemma EndedCallsAreAccountedFor(env: Env, events: seq<Event>, states: seq<System>, k: nat, c: nat)
    requires IsRun(env, events, states) && |states| == |events| + 1 && k < |events|
    requires c in states[k].calls && c !in states[k + 1].calls
    ensures var s, t := states[k], states[k + 1];
            var attempt := s.calls[c].acting.attempt;
            && (!Claims(t.shared.authority.attempts, attempt) <==> t.log == s.log)
            && (t.log == s.log || LogGained(s, t, attempt))
            && (LogGained(s, t, attempt) ==>
                  if SaysNothingNew(s, events[k], c) then t.log[|s.log|].Unchanged? else t.log[|s.log|].Revision?)
            && (SaysNothingNew(s, events[k], c) ==> LogGained(s, t, attempt))
  {
    StepAt(env, events, states, k);
    HoldsAt(env, events, states, k);
    HoldsAt(env, events, states, k + 1);
    EndOf(env, states[k], events[k], c);
    ReleasedIff(env, states[k], states[k + 1], c);
  }

  lemma ReleasedIff(env: Env, s: System, t: System, c: nat)
    requires Inv(env, s) && Inv(env, t) && c in s.calls && c !in t.calls
    requires forall d | d in t.calls :: d in s.calls && t.calls[d].acting == s.calls[d].acting
    requires t.log == s.log || LogGained(s, t, s.calls[c].acting.attempt)
    ensures !Claims(t.shared.authority.attempts, s.calls[c].acting.attempt) <==> t.log == s.log
  {
    var attempt := s.calls[c].acting.attempt;
    ClaimedIff(t.shared.authority.attempts, t.calls, t.log, attempt);
  }

  /** The generation of a policy counts its accepted publications, unless a load brought one of its identity. */
  lemma GenerationsCountPublications(env: Env, events: seq<Event>, states: seq<System>, k: nat, policy: string)
    requires IsRun(env, events, states) && |states| == |events| + 1 && k <= |events|
    requires states[k].loads == 0 || NeverRestored(states[k].restoredPolicies, policy)
    ensures PublishedGeneration(states[k].shared.registry, policy) == Publications(states[k].log, policy)
  {
    HoldsAt(env, events, states, k);
  }

  /** In every reachable state, loads included, the indexes answer for the whole registry. */
  lemma IndexesAnswerForTheRegistry(env: Env, events: seq<Event>, states: seq<System>, k: nat)
    requires IsRun(env, events, states) && |states| == |events| + 1 && k <= |events|
    ensures Complete(states[k].shared.registry) && Sound(states[k].shared.registry.index, states[k].seen)
    ensures forall id | CommittedHere(states[k], id) ::
              ConsultedFound(states[k].shared.registry.index, id, states[k].shared.registry.proofs[id].current)
  {
    HoldsAt(env, events, states, k);
  }

  /**
   * Until the first load the proofs found under a domain or a group are exactly those of
   * which some revision, the current or an earlier one, lists it as consulted.
   */
  lemma ConsultedEntriesAreExact(env: Env, events: seq<Event>, states: seq<System>, k: nat)
    requires IsRun(env, events, states) && |states| == |events| + 1 && k <= |events| && states[k].loads == 0
    ensures var ix := states[k].shared.registry.index; ConsultedExact(ix.byDomain, ix.byRiskGroup, states[k].seen)
  {
    HoldsAt(env, events, states, k);
  }

  /**
   * In every reachable state a domain demotion leaves no proof current that was committed
   * in this run, lists one of these domains as consulted, and binds an older generation.
   */
  lemma DomainDemotionsAreComplete(env: Env, events: seq<Event>, states: seq<System>, k: nat, domains: seq<string>,
                                   generation: nat)
    requires IsRun(env, events, states) && |states| == |events| + 1 && k <= |events|
    ensures var r, after := states[k].shared.registry,
        DemoteDomains(states[k].shared.registry, domains, generation).registry;
            forall id, domain | after.IsCurrent(id) && CommittedHere(states[k], id)
                                && domain in domains
                                && domain in after.proofs[id].current.evaluation.consulted.domains ::
              after.proofs[id].current.dependencies.domainGeneration >= generation
  {
    HoldsAt(env, events, states, k);
    var s := states[k];
    DemoteDomainsIsScan(s.shared.registry, s.seen, s.restored, domains, generation);
    DemoteDomainsIsJustified(s.shared.registry, s.seen, domains, generation);
  }

  /** The epoch never decreases and a fence is never lifted, through loads and restarts of sessions. */
  lemma AuthorityOverRuns(env: Env, events: seq<Event>, states: seq<System>, i: nat, j: nat)
    requires IsRun(env, events, states) && |states| == |events| + 1 && i <= j <= |events|
    ensures states[i].shared.authority.epoch <= states[j].shared.authority.epoch
    ensures forall b | states[i].shared.authority.IsFenced(b) :: states[j].shared.authority.IsFenced(b)
    ensures states[j].shared.authority.Valid(env.limits)
  {
    GrowsBetween(env, events, states, i, j);
    HoldsAt(env, events, states, j);
  }

  /** Without a load, path and policy demotions are exact in every reachable state. */
  lemma DemotionsAreExact(env: Env, events: seq<Event>, states: seq<System>, k: nat, path: string, policy: string,
                          generation: nat)
    requires IsRun(env, events, states) && |states| == |events| + 1 && k <= |events| && states[k].loads == 0
    ensures var r := states[k].shared.registry;
            && (forall id ::
                  id in DemotePath(r, path).affected <==> r.IsCurrent(id) && BindsPath(r.proofs[id].current, path))
            && (forall id :: id in DemotePolicy(r, policy, generation).affected <==>
                  && r.IsCurrent(id) && BindsPolicy(r.proofs[id].current, policy)
                  && r.proofs[id].current.dependencies.policyGeneration < generation)
  {
    HoldsAt(env, events, states, k);
    OwnIdentities(env, states[k]);
    DemotePathIsExact(states[k].shared.registry, states[k].seen, path);
    DemotePolicyIsExact(states[k].shared.registry, states[k].seen, policy, generation);
  }

  lemma OwnIdentities(env: Env, s: System)
    requires Inv(env, s) && s.loads == 0
    ensures forall id | s.shared.registry.IsCurrent(id) :: s.shared.registry.proofs[id].current.request == id
  {
    forall id | s.shared.registry.IsCurrent(id)
      ensures s.shared.registry.proofs[id].current.request == id
    {
      CommittedIsLogged(env, s, id);
    }
  }
}
