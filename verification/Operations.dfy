/**
 * The runtime operations that run under the state lock, as functions on the
 * publication authority and the registry together.
 */
module Operations {
  import opened Evidence
  import opened Evaluator
  import opened Registry
  import L = Lifecycle
  import A = Authority

  datatype Shared = Shared(authority: A.State, registry: Registry)

  /** How a refusal of the publication authority is reported. */
  function RefusalOf(status: A.Status): MutationStatus {
    match status
    case FENCED_PUBLISHER => MutationStatus.FENCED_PUBLISHER
    case STALE_EPOCH => MutationStatus.STALE_EPOCH
    case SCOPE_MISMATCH => MutationStatus.SCOPE_MISMATCH
    case GENERATION_CONFLICT => MutationStatus.GENERATION_CONFLICT
    case ATTEMPT_CONFLICT => MutationStatus.ATTEMPT_CONFLICT
    case LIMIT_EXCEEDED => MutationStatus.LIMIT_EXCEEDED
    case IDEMPOTENT => MutationStatus.IDEMPOTENT
    case _ => MutationStatus.UNAUTHORIZED
  }

  // ----- publish_policy -------------------------------------------------------------------

  /** The digest of a policy leaves out its identity and its generation. */
  function PolicyContent(p: Policy): A.Payload {
    A.PolicyPayload(CanonicalPolicy(p).(id := "", generation := 0))
  }

  function GenerationOf(policies: map<string, Policy>, id: string): nat {
    if id in policies then policies[id].generation else 0
  }

  function PublishedGeneration(r: Registry, id: string): nat {
    GenerationOf(r.policies, id)
  }

  /** Whether an admitted publication is accepted, and why not. */
  function PublishVerdict(r: Registry, policy: Policy, acting: A.Acting, limits: Limits): MutationStatus {
    if acting.expectedPolicyGeneration != PublishedGeneration(r, policy.id) then GENERATION_CONFLICT
    else if policy.id !in r.policies && |r.policies| >= limits.maxPolicies then LIMIT_EXCEEDED
    else if policy.id in r.policies && r.policies[policy.id].generation == MAX_GENERATION then GENERATION_CONFLICT
    else APPLIED
  }

  /** The form in which an accepted policy is stored. */
  function NextGeneration(r: Registry, policy: Policy): Policy {
    CanonicalPolicy(policy).(generation := PublishedGeneration(r, policy.id) + 1)
  }

  /** What an admitted publication leaves of the authority and of the policies. */
  function PublishAdmitted(s: Shared, policy: Policy, acting: A.Acting, limits: Limits): (Shared, MutationStatus) {
    var verdict := PublishVerdict(s.registry, policy, acting, limits);
    if verdict != APPLIED then (Shared(A.Forget(s.authority, acting.attempt), s.registry), verdict)
    else
      var published := NextGeneration(s.registry, policy);
      (Shared(s.authority, s.registry.(policies := s.registry.policies[policy.id := published])), APPLIED)
  }

  function PublishPolicy(s: Shared, policy: Policy, acting: A.Acting, limits: Limits): (Shared, MutationStatus) {
    if !ValidPolicy(CanonicalPolicy(policy), limits) then (s, MutationStatus.MALFORMED)
    else
      var (authority, admitted) := A.Admit(s.authority, acting, PolicyContent(policy), limits);
      if admitted != A.Status.ACCEPTED then (s, RefusalOf(admitted))
      else PublishAdmitted(Shared(authority, s.registry), policy, acting, limits)
  }

  // ----- evaluate ------------------------------------------------------------------------------

  datatype Begun = Replayed | Refused(status: MutationStatus) | Admitted(policy: Policy)

  /** Phase one, for a canonical request. */
  function BeginEvaluation(s: Shared, request: Request, acting: A.Acting, limits: Limits): (Shared, Begun) {
    var (authority, admitted) := A.Admit(s.authority, acting, A.RequestPayload(request), limits);
    if admitted == A.Status.IDEMPOTENT then (s, Replayed)
    else if admitted != A.Status.ACCEPTED then (s, Refused(RefusalOf(admitted)))
    else if request.policy !in s.registry.policies then
      (Shared(A.Forget(authority, acting.attempt), s.registry), Refused(NOT_FOUND))
    else if s.registry.policies[request.policy].generation != request.policyGeneration then
      (Shared(A.Forget(authority, acting.attempt), s.registry), Refused(GENERATION_CONFLICT))
    else (Shared(authority, s.registry), Admitted(s.registry.policies[request.policy]))
  }

  /** The policy the evaluation used is still the published one. */
  predicate PolicyHolds(r: Registry, request: Request, policy: Policy) {
    request.policy in r.policies && r.policies[request.policy].generation == policy.generation
  }

  /** A recorded outcome: the attempt stays taken.  Anything else releases it. */
  predicate KeepsAttempt(status: MutationStatus) {
    status == APPLIED || status == MutationStatus.REVALIDATION_REQUIRED || status == UNCHANGED
  }

  function Settle(s: Shared, acting: A.Acting, c: Commitment): Shared {
    Shared(if KeepsAttempt(c.status) then s.authority else A.Forget(s.authority, acting.attempt), c.registry)
  }

  /** The rest of phase three, once policy, epoch and fence have been checked again. */
  function CommitEvaluation(s: Shared, request: Request, finished: Finished, acting: A.Acting, limits: Limits)
    : (Shared, MutationStatus, Option<Proof>)
  {
    var c := Commit(s.registry, request, finished, acting, limits);
    (Settle(s, acting, c), c.status, c.committed)
  }

  /** Phase three when nothing else steps in. */
  function FinishEvaluation(s: Shared, request: Request, policy: Policy, finished: Finished, acting: A.Acting,
                            limits: Limits)
    : (Shared, MutationStatus, Option<Proof>)
  {
    if !PolicyHolds(s.registry, request, policy) then
      (s.(authority := A.Forget(s.authority, acting.attempt)), GENERATION_CONFLICT, None)
    else if s.authority.epoch != acting.epoch then
      (s.(authority := A.Forget(s.authority, acting.attempt)), MutationStatus.STALE_EPOCH, None)
    else if s.authority.IsFenced(acting.boot) then
      (s.(authority := A.Forget(s.authority, acting.attempt)), MutationStatus.FENCED_PUBLISHER, None)
    else CommitEvaluation(s, request, finished, acting, limits)
  }

  // ----- Lifecycle operations ----------------------------------------------------------------------

  predicate LifecycleTarget(target: L.State) {
    target in {L.State.REVOKED, L.State.RETIRED, L.State.HISTORICAL, L.State.SUPERSEDED}
  }

  function LifecycleVerdict(r: Registry, id: ProofId, target: L.State): MutationStatus {
    if id !in r.proofs then NOT_FOUND
    else if !L.TransitionAllowed(r.proofs[id].current.lifecycle, target) then ILLEGAL_TRANSITION
    else if r.proofs[id].current.lifecycle == target then UNCHANGED
    else APPLIED
  }

  function Transitioned(record: Record, target: L.State, maxHistory: nat): Record {
    var extended := record.history + [record.current];
    Record(record.current.(lifecycle := target,
                           currentness := if target != L.State.CURRENT then L.Currentness.REVALIDATION_REQUIRED
                                          else record.current.currentness),
           if |extended| > maxHistory then extended[1..] else extended)
  }

  /** Refused transitions release their attempt. */
  function SettledAuthority(authority: A.State, acting: A.Acting, verdict: MutationStatus): A.State {
    if verdict == APPLIED || verdict == UNCHANGED then authority else A.Forget(authority, acting.attempt)
  }

  function SettledRegistry(r: Registry, id: ProofId, target: L.State, verdict: MutationStatus, limits: Limits): Registry
    requires verdict == APPLIED ==> id in r.proofs
  {
    if verdict == APPLIED then r.Store(id, Transitioned(r.proofs[id], target, limits.maxHistory)) else r
  }

  /** A replay of the same transition falls through once the state has moved on. */
  function ApplyLifecycle(s: Shared, id: ProofId, acting: A.Acting, target: L.State, limits: Limits)
    : (Shared, MutationStatus)
  {
    var (authority, admitted) := A.Admit(s.authority, acting, A.LifecyclePayload(id, target), limits);
    var verdict := LifecycleVerdict(s.registry, id, target);
    if admitted == A.Status.IDEMPOTENT && verdict == UNCHANGED then (s, IDEMPOTENT)
    else if admitted != A.Status.ACCEPTED && admitted != A.Status.IDEMPOTENT then (s, RefusalOf(admitted))
    else
      (Shared(SettledAuthority(authority, acting, verdict), SettledRegistry(s.registry, id, target, verdict, limits)),
       verdict)
  }

  // ----- load -------------------------------------------------------------------------------------------

  function FenceEach(s: A.State, boots: seq<string>): A.State
    decreases |boots|
  {
    if boots == [] then s else A.FenceBoot(FenceEach(s, boots[..|boots| - 1]), boots[|boots| - 1]).0
  }

  /** A load brings back the epoch and the fences, but no session and no attempt. */
  function LoadedAuthority(s: A.State, contents: StoreContents): A.State {
    FenceEach(if contents.epoch > 0 then A.RestoreEpoch(s, contents.epoch).0 else s, contents.fencedBoots)
  }

  function LoadedProofs(r: Registry, contents: StoreContents): map<ProofId, Record> {
    LoadHistory(LoadProofs(r.proofs, contents.proofs), contents.history)
  }

  ghost predicate Loads(before: Shared, contents: StoreContents, after: Shared) {
    && after.authority == LoadedAuthority(before.authority, contents)
    && after.registry.policies == LoadPolicies(before.registry.policies, contents.policies)
    && after.registry.proofs == LoadedProofs(before.registry, contents)
    && Reindexed(before.registry.index, after.registry.proofs, after.registry.index)
  }

  // ----- Single-operation theorems --------------------------------------------------------------------------

  /** Exactly what a publication does to the shared state. */
  lemma PublishEffect(s: Shared, policy: Policy, acting: A.Acting, limits: Limits)
    ensures var (after, status) := PublishPolicy(s, policy, acting, limits);
            && (status != APPLIED ==> after == s)
            && (status == APPLIED ==>
                  && policy.id in after.registry.policies && acting.attempt !in s.authority.attempts
                  && ValidPolicy(CanonicalPolicy(policy), limits)
                  && PublishedGeneration(s.registry, policy.id) != MAX_GENERATION
                  && after.registry.policies[policy.id] == NextGeneration(s.registry, policy)
                  && after.authority
                     == s.authority.(attempts := s.authority.attempts[acting.attempt := PolicyContent(policy)])
                  && after.registry
                     == s.registry.(policies := s.registry.policies[policy.id := after.registry.policies[policy.id]]))
  {
    var (authority, admitted) := A.Admit(s.authority, acting, PolicyContent(policy), limits);
    if admitted == A.Status.ACCEPTED {
      assert A.Forget(authority, acting.attempt).attempts == s.authority.attempts;
    }
  }

  /** An accepted publication advances its policy by exactly one; a refused one changes no policy. */
  lemma PublishAdvancesByOne(s: Shared, policy: Policy, acting: A.Acting, limits: Limits)
    ensures var (after, status) := PublishPolicy(s, policy, acting, limits);
            && (status == APPLIED ==>
                  && PublishedGeneration(after.registry, policy.id) == PublishedGeneration(s.registry, policy.id) + 1
                  && acting.expectedPolicyGeneration == PublishedGeneration(s.registry, policy.id) != MAX_GENERATION
                  && acting.attempt in after.authority.attempts && acting.attempt !in s.authority.attempts)
            && (forall id | id != policy.id ::
                  PublishedGeneration(after.registry, id) == PublishedGeneration(s.registry, id))
            && (status != APPLIED ==> after.registry == s.registry && after.authority.attempts == s.authority.attempts)
  {
    var (authority, admitted) := A.Admit(s.authority, acting, PolicyContent(policy), limits);
    if admitted == A.Status.ACCEPTED {
      assert A.Forget(authority, acting.attempt).attempts == s.authority.attempts;
    }
  }

  /** Lifecycle operations move nothing of the authority but the attempts in use. */
  lemma LifecycleMovesAttempts(s: Shared, id: ProofId, acting: A.Acting, target: L.State, limits: Limits)
    ensures var after := ApplyLifecycle(s, id, acting, target, limits).0.authority;
            after == s.authority.(attempts := after.attempts)
  {
    A.AdmitMovesAttempts(s.authority, acting, A.LifecyclePayload(id, target), limits);
  }

  lemma BeginMovesAttempts(s: Shared, request: Request, acting: A.Acting, limits: Limits)
    ensures var after := BeginEvaluation(s, request, acting, limits).0.authority;
            after == s.authority.(attempts := after.attempts)
  {
    A.AdmitMovesAttempts(s.authority, acting, A.RequestPayload(request), limits);
  }

  /** Seen before the commit: the stored revision is the expected one and says the same already. */
  predicate AlreadySaid(r: Registry, request: Request, finished: Finished, acting: A.Acting) {
    && request in r.proofs
    && (acting.expectedProofGeneration == 0 || acting.expectedProofGeneration == r.proofs[request].current.generation)
    && r.proofs[request].current.generation != MAX_GENERATION
    && SaysTheSame(r.proofs[request], request, finished, acting)
  }

  /** Seen before phase three: it will pass its checks and find that there is nothing to commit. */
  predicate NothingToCommit(s: Shared, request: Request, policy: Policy, finished: Finished, acting: A.Acting) {
    && PolicyHolds(s.registry, request, policy)
    && s.authority.epoch == acting.epoch
    && !s.authority.IsFenced(acting.boot)
    && AlreadySaid(s.registry, request, finished, acting)
  }

  lemma CommitUnchangedIff(r: Registry, request: Request, finished: Finished, acting: A.Acting, limits: Limits)
    ensures var c := Commit(r, request, finished, acting, limits);
            && (c.status == UNCHANGED <==> AlreadySaid(r, request, finished, acting))
            && (c.status == UNCHANGED ==> c.registry == r)
            && (c.committed == None <==> c.status != APPLIED && c.status != MutationStatus.REVALIDATION_REQUIRED)
  {
    assert !BLANK.Stored();
  }

  lemma CommitReleases(s: Shared, request: Request, finished: Finished, acting: A.Acting, limits: Limits)
    requires acting.attempt in s.authority.attempts
    ensures var (after, status, committed) := CommitEvaluation(s, request, finished, acting, limits);
            && (acting.attempt in after.authority.attempts <==> KeepsAttempt(status))
            && (committed == None <==> status != APPLIED && status != MutationStatus.REVALIDATION_REQUIRED)
            && (status == UNCHANGED <==> AlreadySaid(s.registry, request, finished, acting))
            && (status == UNCHANGED ==> after == s)
  {
    CommitUnchangedIff(s.registry, request, finished, acting, limits);
  }

  /** What phase three leaves behind in its two cases. */
  lemma FinishEnds(s: Shared, request: Request, policy: Policy, finished: Finished, acting: A.Acting, limits: Limits)
    ensures var checked := PolicyHolds(s.registry, request, policy) && s.authority.epoch == acting.epoch
            && !s.authority.IsFenced(acting.boot);
            var finish := FinishEvaluation(s, request, policy, finished, acting, limits);
            && (checked ==> finish == CommitEvaluation(s, request, finished, acting, limits))
            && (!checked ==>
                  && finish.0 == s.(authority := A.Forget(s.authority, acting.attempt)) && finish.2 == None
                  && finish.1 in {GENERATION_CONFLICT, MutationStatus.STALE_EPOCH, MutationStatus.FENCED_PUBLISHER})
  {
  }

  /**
   * An attempt is released exactly when its call committed nothing, unless, as could be
   * seen before phase three, every check passes and the stored revision already says the
   * same: then nothing is committed and the attempt stays taken.
   */
  lemma ReleaseIffRefused(s: Shared, request: Request, policy: Policy, finished: Finished, acting: A.Acting,
                          limits: Limits)
    requires acting.attempt in s.authority.attempts
    ensures var (after, status, committed) := FinishEvaluation(s, request, policy, finished, acting, limits);
            var released := acting.attempt !in after.authority.attempts;
            && (released <==> !KeepsAttempt(status))
            && (committed == None <==> status != APPLIED && status != MutationStatus.REVALIDATION_REQUIRED)
            && (status == UNCHANGED <==> NothingToCommit(s, request, policy, finished, acting))
            && ((released <==> committed == None) <==> !NothingToCommit(s, request, policy, finished, acting))
            && (NothingToCommit(s, request, policy, finished, acting) ==> after == s && committed == None)
  {
    FinishEnds(s, request, policy, finished, acting, limits);
    CommitReleases(s, request, finished, acting, limits);
  }

  /** Revalidating what is already stored commits nothing, whoever asks, and keeps the attempt. */
  lemma RevalidationIsUnchanged(s: Shared, request: Request, finished: Finished, first: A.Acting, second: A.Acting,
                                limits: Limits)
    requires request.policy != "" && !finished.drifted && first.epoch == second.epoch
             && second.expectedProofGeneration == 0
    requires CommitEvaluation(s, request, finished, first, limits).2.Some?
    requires CommitEvaluation(s, request, finished, first, limits).2.value.generation != MAX_GENERATION
    ensures var after := CommitEvaluation(s, request, finished, first, limits).0;
            CommitEvaluation(after, request, finished, second, limits) == (after, UNCHANGED, None)
  {
    SameContent(request, CommitEvaluation(s, request, finished, first, limits).2.value.generation, finished, first,
                second);
    CommittedIsStored(s.registry, request, finished, first, limits);
    var after := CommitEvaluation(s, request, finished, first, limits).0;
    AgainIsUnchanged(after.registry, request, finished, second, limits);
  }

  /** The content of a revision depends on neither its generation nor its publisher, only on the epoch. */
  lemma SameContent(request: Request, generation: nat, finished: Finished, first: A.Acting, second: A.Acting)
    requires first.epoch == second.epoch
    ensures SemanticOf(MakeProof(request, generation, finished, first))
            == SemanticOf(MakeProof(request, 0, finished, second))
  {
  }

  lemma CommittedIsStored(r: Registry, request: Request, finished: Finished, acting: A.Acting, limits: Limits)
    requires Commit(r, request, finished, acting, limits).committed.Some?
    ensures var c := Commit(r, request, finished, acting, limits);
            && request in c.registry.proofs && c.registry.proofs[request].current == c.committed.value
            && c.committed.value == MakeProof(request, c.committed.value.generation, finished, acting)
  {
  }

  lemma AgainIsUnchanged(r: Registry, request: Request, finished: Finished, acting: A.Acting, limits: Limits)
    requires request in r.proofs && SaysTheSame(r.proofs[request], request, finished, acting)
    requires acting.expectedProofGeneration == 0 && r.proofs[request].current.generation != MAX_GENERATION
    ensures Commit(r, request, finished, acting, limits) == Commitment(r, UNCHANGED, None)
  {
  }

  /** One such run: the second attempt commits nothing and is not released. */
  lemma UnchangedIsNotReleased(limits: Limits)
    requires limits.maxProofs > 0
    ensures exists s: Shared, request, policy, finished, acting ::
              var (after, status, committed) := FinishEvaluation(s, request, policy, finished, acting, limits);
              committed == None && acting.attempt in s.authority.attempts && acting.attempt in after.authority.attempts
  {
    var request := Request("policy", 1, []);
    var policy := Policy("policy", 1, "scope", [LINK_DISJOINT], NONE, 2, ALL_PAIRS, REQUIRE_COMPLETE_EVIDENCE,
                         REJECT_PROOF, [], false, "");
    var finished := Finished(Reject(Outcome.STALE_TOPOLOGY, None, 1, 1), false);
    var first := A.Acting(1, "publisher", "boot", "scope", "first", 0, 0);
    var second := first.(attempt := "second");
    var payload := A.RequestPayload(request);
    var authority := A.INITIAL.(attempts := map["first" := payload, "second" := payload]);
    var start := Shared(authority, EMPTY.(policies := map["policy" := policy]));
    var s := CommitEvaluation(start, request, finished, first, limits).0;
    RevalidationIsUnchanged(start, request, finished, first, second, limits);
    assert FinishEvaluation(s, request, policy, finished, second, limits) == (s, UNCHANGED, None);
    assert second.attempt in s.authority.attempts;
  }

  /** The same record in another lifecycle state. */
  function Moved(record: Record, lifecycle: L.State, currentness: L.Currentness): Record {
    record.(current := record.current.(lifecycle := lifecycle, currentness := currentness))
  }

  lemma MovedSaysTheSame(record: Record, lifecycle: L.State, currentness: L.Currentness, request: Request,
                         finished: Finished, acting: A.Acting)
    ensures SaysTheSame(Moved(record, lifecycle, currentness), request, finished, acting)
            <==> SaysTheSame(record, request, finished, acting)
  {
    assert SemanticOf(Moved(record, lifecycle, currentness).current) == SemanticOf(record.current);
  }

  /** What a commit does depends on neither lifecycle nor currentness of the stored revision. */
  lemma CommitIgnoresLifecycle(r: Registry, request: Request, finished: Finished, acting: A.Acting, limits: Limits,
                               lifecycle: L.State, currentness: L.Currentness)
    requires request in r.proofs
    ensures var other := r.Store(request, Moved(r.proofs[request], lifecycle, currentness));
            var c, d := Commit(r, request, finished, acting, limits), Commit(other, request, finished, acting, limits);
            && c.status == d.status && c.committed == d.committed
            && (c.committed.Some? ==> d.registry.proofs[request].current == c.committed.value)
  {
    MovedSaysTheSame(r.proofs[request], lifecycle, currentness, request, finished, acting);
  }

  /** So a revoked proof is current again once its request is evaluated under other evidence. */
  lemma RevokedProofComesBack(limits: Limits)
    requires limits.maxProofs > 0
    ensures exists s: Shared, request, finished, acting ::
              && request in s.registry.proofs && s.registry.proofs[request].current.lifecycle == L.State.REVOKED
              && CommitEvaluation(s, request, finished, acting, limits).1 == APPLIED
              && CommitEvaluation(s, request, finished, acting, limits).0.registry.IsCurrent(request)
  {
    var request := Request("policy", 1, []);
    var finished := Finished(Reject(Outcome.NOT_DIVERSE, None, 1, 1), false);
    var stored := Finished(Reject(Outcome.STALE_TOPOLOGY, None, 1, 1), false);
    var acting := A.Acting(1, "publisher", "boot", "scope", "attempt", 0, 0);
    var revoked := MakeProof(request, 1, stored, acting).(lifecycle := L.State.REVOKED);
    var s := Shared(A.INITIAL, EMPTY.(proofs := map[request := Record(revoked, [])]));
    assert SemanticOf(revoked).outcome != SemanticOf(MakeProof(request, 0, finished, acting)).outcome;
    ComesBack(s, request, finished, acting, limits);
  }

  lemma ComesBack(s: Shared, request: Request, finished: Finished, acting: A.Acting, limits: Limits)
    requires request in s.registry.proofs && !finished.drifted && Decisive(finished.evaluation.outcome)
    requires acting.expectedProofGeneration == 0 && s.registry.proofs[request].current.generation != MAX_GENERATION
    requires !SaysTheSame(s.registry.proofs[request], request, finished, acting)
    ensures CommitEvaluation(s, request, finished, acting, limits).1 == APPLIED
    ensures CommitEvaluation(s, request, finished, acting, limits).0.registry.IsCurrent(request)
  {
  }
}
