/**
 * The runtime object: registry maps and reverse indexes updated in place, each method
 * proved against its function on the shared state.
 */
module Runtime {
  import opened Evidence
  import opened Evaluator
  import opened LiveViews
  import opened Observations
  import opened LiveEvaluation
  import opened Registry
  import opened Invalidation
  import opened Operations
  import Protocol
  import L = Lifecycle
  import A = Authority

  // ----- Index loops ------------------------------------------------------------------------

  method InsertEach<K(==)>(m: Index<K>, keys: seq<K>, id: ProofId) returns (out: Index<K>)
    ensures out == InsertAll(m, keys, id)
  {
    out := m;
    for k := 0 to |keys|
      invariant out == InsertAll(m, keys[..k], id)
    {
      assert keys[..k + 1][..k] == keys[..k];
      out := out[keys[k] := Lookup(out, keys[k]) + {id}];
    }
    assert keys[..|keys|] == keys;
  }

  /** What else a demotion asks of a candidate. */
  datatype Guard = Any | PolicyBelow(generation: nat) | TopologyBelow(generation: nat) | DomainsBelow(generation: nat)

  predicate Allows(guard: Guard, p: Proof) {
    match guard
    case Any => true
    case PolicyBelow(generation) => p.dependencies.policyGeneration < generation
    case TopologyBelow(generation) => p.dependencies.topologyGeneration < generation
    case DomainsBelow(generation) => p.dependencies.domainGeneration < generation
  }

  predicate Demotable(r: Registry, id: ProofId, guard: Guard) {
    r.IsCurrent(id) && Allows(guard, r.proofs[id].current)
  }

  lemma DemoteNone(r: Registry, reason: L.Currentness)
    ensures DemoteIds(r, {}, reason) == r
  {
    assert DemoteIds(r, {}, reason).proofs == r.proofs;
  }

  lemma DemoteOneMore(r: Registry, ids: set<ProofId>, id: ProofId, reason: L.Currentness)
    requires id in r.proofs && id !in ids
    ensures DemoteIds(r, ids, reason).proofs.Keys == r.proofs.Keys
    ensures DemoteIds(r, ids, reason).proofs[id] == r.proofs[id]
    ensures DemoteIds(r, ids + {id}, reason)
            == DemoteIds(r, ids, reason).Store(id, r.proofs[id].(current := DemoteProof(r.proofs[id].current, reason)))
  {
    var before := DemoteIds(r, ids, reason);
    assert DemoteIds(r, ids + {id}, reason).proofs
           == before.proofs[id := r.proofs[id].(current := DemoteProof(r.proofs[id].current, reason))];
  }

  lemma DemoteKeepsRecord(r: Registry, ids: set<ProofId>, id: ProofId, reason: L.Currentness)
    requires id !in ids
    ensures id in DemoteIds(r, ids, reason).proofs <==> id in r.proofs
    ensures id in r.proofs ==> DemoteIds(r, ids, reason).proofs[id] == r.proofs[id]
  {
  }

  /** Erases every generation below the bound and collects what was filed under it. */
  method DropOld(m: Index<nat>, generation: nat) returns (kept: Index<nat>, candidates: set<ProofId>)
    ensures kept == DropBelow(m, generation) && candidates == Below(m, generation)
  {
    kept, candidates := m, {};
    var rest := m.Keys;
    while rest != {}
      invariant rest <= m.Keys
      invariant forall key :: key in kept <==> key in m && (key >= generation || key in rest)
      invariant forall key | key in kept :: kept[key] == m[key]
      invariant forall id :: id in candidates <==> exists key | key in m && key !in rest && key < generation ::
                  id in m[key]
      decreases |rest|
    {
      var key :| key in rest;
      if key < generation {
        candidates := candidates + m[key];
        kept := kept - {key};
      }
      rest := rest - {key};
    }
  }

  /** Every binding is asked about; one that is not backed makes the proof stale. */
  method AnyUnbacked(views: Views, refs: seq<PathRef>) returns (stale: bool)
    modifies views`now
    ensures views.now >= old(views.now)
    ensures !stale ==> AllBackedWithin(views.world, refs, old(views.now), views.now)
    ensures stale ==> exists k, t: nat | 0 <= k < |refs| && old(views.now) <= t <= views.now ::
                        !views.world(t).IsAuthorized(refs[k].path, refs[k].generation)
  {
    stale := false;
    for k := 0 to |refs|
      invariant views.now >= old(views.now)
      invariant !stale ==> AllBackedWithin(views.world, refs[..k], old(views.now), views.now)
      invariant stale ==> exists q, t: nat | 0 <= q < |refs| && old(views.now) <= t <= views.now ::
                            !views.world(t).IsAuthorized(refs[q].path, refs[q].generation)
    {
      var current := views.CurrentGeneration(refs[k].path);
      ghost var asked := views.now;
      if current == None || current.value != refs[k].generation {
        assert !views.world(asked).IsAuthorized(refs[k].path, refs[k].generation);
        stale := true;
      } else {
        var authorized := views.IsAuthorized(refs[k].path, refs[k].generation);
        if !authorized {
          stale := true;
        }
        assert views.world(asked).IsAuthorized(refs[k].path, refs[k].generation);
      }
    }
    assert refs[..|refs|] == refs;
  }

  /** `bounded_result`: a bounded, repeat-free part of the answer, and how large the answer was. */
  method BoundedResult(source: set<ProofId>, bound: nat) returns (proofs: seq<ProofId>, total: nat, truncated: bool)
    ensures total == |source|
    ensures truncated <==> |source| > bound
    ensures |proofs| == if |source| > bound then bound else |source|
    ensures forall i, j | 0 <= i < j < |proofs| :: proofs[i] != proofs[j]
    ensures forall id | id in proofs :: id in source
    ensures !truncated ==> forall id | id in source :: id in proofs
  {
    total, truncated, proofs := |source|, false, [];
    var rest := source;
    while rest != {} && !truncated
      invariant rest <= source && |rest| + |proofs| == |source| && |proofs| <= bound
      invariant forall id :: id in proofs <==> id in source && id !in rest
      invariant forall i, j | 0 <= i < j < |proofs| :: proofs[i] != proofs[j]
      invariant truncated ==> rest != {} && |proofs| == bound
      decreases if truncated then 0 else 1, |rest|
    {
      if |proofs| >= bound {
        truncated := true;
      } else {
        var id :| id in rest;
        assert id !in proofs;
        proofs := proofs + [id];
        rest := rest - {id};
      }
    }
  }

  function LiveIn(r: Registry): set<ProofId> {
    set id | id in r.proofs && r.IsCurrent(id)
  }

  // ----- The object -------------------------------------------------------------------------------

  class DiversityRuntime {
    const limits: Limits
    const publication: A.PublicationAuthority
    var policies: map<string, Policy>
    var proofs: map<ProofId, Record>
    var byPath: Index<string>
    var byDomain: Index<string>
    var byRiskGroup: Index<string>
    var byEntity: Index<EntityRef>
    var byPolicy: Index<string>
    var byBoot: Index<string>
    var byTopology: Index<nat>
    var byDomainGeneration: Index<nat>

    function Indexing(): Indexes
      reads this
    {
      Indexes(byPath, byDomain, byRiskGroup, byEntity, byPolicy, byBoot, byTopology, byDomainGeneration)
    }

    function Contents(): Registry
      reads this
    {
      Registry(policies, proofs, Indexing())
    }

    function Together(): Shared
      reads this, publication
    {
      Shared(publication.Contents(), Contents())
    }

    constructor (limits: Limits, publication: A.PublicationAuthority)
      ensures this.limits == limits && this.publication == publication && Contents() == EMPTY
    {
      this.limits, this.publication := limits, publication;
      policies, proofs := map[], map[];
      byPath, byDomain, byRiskGroup, byEntity := map[], map[], map[], map[];
      byPolicy, byBoot, byTopology, byDomainGeneration := map[], map[], map[], map[];
    }

    // ----- publish_policy -----

    method Publish(policy: Policy, acting: A.Acting) returns (status: MutationStatus)
      requires publication.limits == limits
      modifies this`policies, publication
      ensures (Together(), status) == PublishPolicy(old(Together()), policy, acting, limits)
    {
      var canonical := CanonicalPolicy(policy);
      if !ValidPolicy(canonical, limits) {
        return MutationStatus.MALFORMED;
      }
      var admitted := publication.AdmitAttempt(acting, A.PolicyPayload(canonical.(id := "", generation := 0)));
      if admitted == A.Status.IDEMPOTENT {
        return MutationStatus.IDEMPOTENT;
      }
      if admitted != A.Status.ACCEPTED {
        return RefusalOf(admitted);
      }
      status := PublishCanonical(policy, canonical, acting);
    }

    /** The publication is admitted; it may still find that others came first, or no room. */
    method PublishCanonical(ghost policy: Policy, canonical: Policy, acting: A.Acting) returns (status: MutationStatus)
      requires canonical == CanonicalPolicy(policy)
      modifies this`policies, publication
      ensures status == PublishVerdict(old(Contents()), policy, acting, limits)
      ensures policies == if status == APPLIED then old(policies)[policy.id := NextGeneration(old(Contents()), policy)]
                          else old(policies)
      ensures publication.Contents() == if status == APPLIED then old(publication.Contents())
                                        else A.Forget(old(publication.Contents()), acting.attempt)
    {
      var expected := if canonical.id in policies then policies[canonical.id].generation else 0;
      if acting.expectedPolicyGeneration != expected {
        publication.ForgetAttempt(acting.attempt);
        return GENERATION_CONFLICT;
      }
      if canonical.id !in policies && |policies| >= limits.maxPolicies {
        publication.ForgetAttempt(acting.attempt);
        return LIMIT_EXCEEDED;
      }
      var next := 1;
      if canonical.id in policies {
        if policies[canonical.id].generation == MAX_GENERATION {
          publication.ForgetAttempt(acting.attempt);
          return GENERATION_CONFLICT;
        }
        next := policies[canonical.id].generation + 1;
      }
      policies := policies[canonical.id := canonical.(generation := next)];
      status := APPLIED;
    }

    // ----- evaluate -----

    /** Phase one. */
    method BeginPhase(request: Request, acting: A.Acting) returns (begun: Begun)
      requires publication.limits == limits
      modifies publication
      ensures (Together(), begun) == BeginEvaluation(old(Together()), request, acting, limits)
    {
      var admitted := publication.AdmitAttempt(acting, A.RequestPayload(request));
      if admitted == A.Status.IDEMPOTENT {
        return Replayed;
      }
      if admitted != A.Status.ACCEPTED {
        return Refused(RefusalOf(admitted));
      }
      if request.policy !in policies {
        publication.ForgetAttempt(acting.attempt);
        return Refused(NOT_FOUND);
      }
      if policies[request.policy].generation != request.policyGeneration {
        publication.ForgetAttempt(acting.attempt);
        return Refused(GENERATION_CONFLICT);
      }
      begun := Admitted(policies[request.policy]);
    }

    method IndexLists(id: ProofId, p: Proof, consulted: Consulted)
      modifies this`byPath, this`byDomain, this`byRiskGroup, this`byEntity
      ensures byPath == InsertAll(old(byPath), PathsOf(p.request.paths), id)
      ensures byDomain == InsertAll(old(byDomain), consulted.domains, id)
      ensures byRiskGroup == InsertAll(old(byRiskGroup), consulted.riskGroups, id)
      ensures byEntity == InsertAll(old(byEntity), p.dependencies.topologyEntities, id)
    {
      byPath := InsertEach(byPath, PathsOf(p.request.paths), id);
      byDomain := InsertEach(byDomain, consulted.domains, id);
      byRiskGroup := InsertEach(byRiskGroup, consulted.riskGroups, id);
      byEntity := InsertEach(byEntity, p.dependencies.topologyEntities, id);
    }

    /** Files a revision under everything it binds and consulted. */
    method IndexRevision(id: ProofId, p: Proof, consulted: Consulted)
      modifies this`byPath, this`byDomain, this`byRiskGroup, this`byEntity, this`byPolicy, this`byBoot, this`byTopology,
          this`byDomainGeneration
      ensures Indexing() == IndexProof(old(Indexing()), id, p, consulted)
    {
      IndexLists(id, p, consulted);
      byPolicy := Insert(byPolicy, p.request.policy, id);
      byBoot := Insert(byBoot, p.provenance.boot, id);
      byTopology := Insert(byTopology, p.dependencies.topologyGeneration, id);
      byDomainGeneration := Insert(byDomainGeneration, p.dependencies.domainGeneration, id);
    }

    /** The revision replaces the stored one, which joins the history. */
    method StoreRevision(request: Request, p: Proof, consulted: Consulted)
      requires request in proofs
      modifies this
      ensures var record := old(proofs)[request];
              Contents() == Install(old(Contents()), request,
                                    Record(p, if record.current.Stored()
                                           then Remember(record.history, record.current, limits.maxHistory)
                                              else record.history), consulted)
    {
      var record := proofs[request];
      var history := record.history;
      if record.current.Stored() {
        if |history| >= limits.maxHistory && |history| > 0 {
          history := history[1..];
        }
        history := history + [record.current];
      }
      proofs := proofs[request := Record(p, history)];
      IndexRevision(request, p, consulted);
    }

    /** The registry half of phase three. */
    method CommitRevision(request: Request, finished: Finished, acting: A.Acting)
      returns (status: MutationStatus, committed: Option<Proof>)
      modifies this
      ensures Commitment(Contents(), status, committed) == Commit(old(Contents()), request, finished, acting, limits)
    {
      committed := None;
      if request !in proofs {
        if |proofs| >= limits.maxProofs {
          status := LIMIT_EXCEEDED;
          return;
        }
        proofs := proofs[request := Record(BLANK, [])];
      }
      var record := proofs[request];
      if acting.expectedProofGeneration > 0 && acting.expectedProofGeneration != record.current.generation {
        status := GENERATION_CONFLICT;
        return;
      }
      var next := 1;
      if record.current.Stored() {
        if record.current.generation == MAX_GENERATION {
          status := GENERATION_CONFLICT;
          return;
        }
        next := record.current.generation + 1;
      }
      if SaysTheSame(record, request, finished, acting) {
        status := UNCHANGED;
        return;
      }
      var p := MakeProof(request, next, finished, acting);
      StoreRevision(request, p, finished.evaluation.consulted);
      status := if finished.drifted then MutationStatus.REVALIDATION_REQUIRED else APPLIED;
      committed := Some(p);
    }

    /** Phase three. */
    method FinishPhase(request: Request, policy: Policy, finished: Finished, acting: A.Acting)
      returns (status: MutationStatus, committed: Option<Proof>)
      requires publication.limits == limits
      modifies this, publication
      ensures (Together(), status, committed)
              == FinishEvaluation(old(Together()), request, policy, finished, acting, limits)
    {
      committed := None;
      if request.policy !in policies || policies[request.policy].generation != policy.generation {
        publication.ForgetAttempt(acting.attempt);
        status := GENERATION_CONFLICT;
        return;
      }
      if publication.epoch != acting.epoch {
        publication.ForgetAttempt(acting.attempt);
        status := MutationStatus.STALE_EPOCH;
        return;
      }
      if acting.boot in publication.fenced && publication.fenced[acting.boot] {
        publication.ForgetAttempt(acting.attempt);
        status := MutationStatus.FENCED_PUBLISHER;
        return;
      }
      status, committed := CommitRevision(request, finished, acting);
      if !KeepsAttempt(status) {
        publication.ForgetAttempt(acting.attempt);
      }
    }

    // ----- demotions -----

    /** The loop every demotion shares. */
    method DemoteOne(id: ProofId, reason: L.Currentness, ghost before: Registry, ghost done: set<ProofId>)
      requires id in before.proofs && id !in done && Contents() == DemoteIds(before, done, reason)
      modifies this`proofs
      ensures Contents() == DemoteIds(before, done + {id}, reason)
    {
      DemoteOneMore(before, done, id, reason);
      proofs := proofs[id := proofs[id].(current := DemoteProof(proofs[id].current, reason))];
    }

    method DemoteEach(candidates: set<ProofId>, guard: Guard, reason: L.Currentness) returns (affected: set<ProofId>)
      modifies this`proofs
      ensures affected == set id | id in candidates && Demotable(old(Contents()), id, guard)
      ensures Contents() == DemoteIds(old(Contents()), affected, reason)
    {
      ghost var before := Contents();
      affected := {};
      var rest := candidates;
      DemoteNone(before, reason);
      while rest != {}
        invariant rest <= candidates
        invariant forall id :: id in affected <==> id in candidates && id !in rest && Demotable(before, id, guard)
        invariant Contents() == DemoteIds(before, affected, reason)
        decreases |rest|
      {
        var id :| id in rest;
        DemoteKeepsRecord(before, affected, id, reason);
        if id in proofs && proofs[id].current.Current() && Allows(guard, proofs[id].current) {
          DemoteOne(id, reason, before, affected);
          affected := affected + {id};
        }
        rest := rest - {id};
      }
    }

    method DemoteOnPath(path: string) returns (affected: set<ProofId>)
      modifies this`proofs
      ensures Demotion(Contents(), affected) == DemotePath(old(Contents()), path)
    {
      affected := DemoteEach(Lookup(byPath, path), Any, L.Currentness.STALE_PATH_AUTHORITY);
    }

    method DemoteOnBoot(boot: string) returns (affected: set<ProofId>)
      modifies this`proofs
      ensures Demotion(Contents(), affected) == DemoteBoot(old(Contents()), boot)
    {
      affected := DemoteEach(Lookup(byBoot, boot), Any, L.Currentness.FENCED_PUBLISHER);
    }

    method DemoteOnPolicy(policy: string, generation: nat) returns (affected: set<ProofId>)
      modifies this`proofs
      ensures Demotion(Contents(), affected) == DemotePolicy(old(Contents()), policy, generation)
    {
      affected := DemoteEach(Lookup(byPolicy, policy), PolicyBelow(generation), L.Currentness.STALE_POLICY);
    }

    method DemoteOnEntities(entities: seq<EntityRef>, generation: nat) returns (affected: set<ProofId>)
      modifies this`proofs
      ensures Demotion(Contents(), affected) == DemoteEntities(old(Contents()), entities, generation)
    {
      var candidates: set<ProofId> := {};
      for k := 0 to |entities|
        invariant candidates == LookupAny(byEntity, entities[..k])
      {
        assert entities[..k + 1] == entities[..k] + [entities[k]];
        candidates := candidates + Lookup(byEntity, entities[k]);
      }
      assert entities[..|entities|] == entities;
      affected := DemoteEach(candidates, TopologyBelow(generation), L.Currentness.STALE_TOPOLOGY);
    }

    method DemoteOnDomains(domains: seq<string>, generation: nat) returns (affected: set<ProofId>)
      modifies this`proofs
      ensures Demotion(Contents(), affected) == DemoteDomains(old(Contents()), domains, generation)
    {
      var candidates: set<ProofId> := {};
      for k := 0 to |domains|
        invariant candidates == LookupAny(byDomain, domains[..k])
      {
        assert domains[..k + 1] == domains[..k] + [domains[k]];
        candidates := candidates + Lookup(byDomain, domains[k]);
      }
      assert domains[..|domains|] == domains;
      affected := DemoteEach(candidates, DomainsBelow(generation), L.Currentness.STALE_FAILURE_DOMAIN);
    }

    method DemoteOnTopology(generation: nat) returns (affected: set<ProofId>)
      modifies this`proofs, this`byTopology
      ensures Demotion(Contents(), affected) == DemoteTopologyGeneration(old(Contents()), generation)
    {
      var kept, candidates := DropOld(byTopology, generation);
      affected := DemoteEach(candidates, Any, L.Currentness.STALE_TOPOLOGY);
      byTopology := kept;
    }

    method DemoteOnDomainGeneration(generation: nat) returns (affected: set<ProofId>)
      modifies this`proofs, this`byDomainGeneration
      ensures Demotion(Contents(), affected) == DemoteDomainGeneration(old(Contents()), generation)
    {
      var kept, candidates := DropOld(byDomainGeneration, generation);
      affected := DemoteEach(candidates, Any, L.Currentness.STALE_FAILURE_DOMAIN);
      byDomainGeneration := kept;
    }

    /** `fence_boot`: the fence first, then the demotion under the lock. */
    method FenceBoot(boot: string) returns (affected: set<ProofId>)
      modifies this`proofs, publication
      ensures publication.Contents() == A.FenceBoot(old(publication.Contents()), boot).0
      ensures Demotion(Contents(), affected) == DemoteBoot(old(Contents()), boot)
    {
      var status := publication.Fence(boot);
      affected := DemoteOnBoot(boot);
    }

    // ----- lifecycle -----

    method ChangeLifecycle(id: ProofId, acting: A.Acting, target: L.State) returns (status: MutationStatus)
      requires publication.limits == limits
      modifies this`proofs, publication
      ensures (Together(), status) == ApplyLifecycle(old(Together()), id, acting, target, limits)
    {
      var admitted := publication.AdmitAttempt(acting, A.LifecyclePayload(id, target));
      UnchangedIff(Contents(), id, target);
      if admitted == A.Status.IDEMPOTENT && id in proofs && proofs[id].current.lifecycle == target {
        return IDEMPOTENT;
      }
      if admitted != A.Status.ACCEPTED && admitted != A.Status.IDEMPOTENT {
        return RefusalOf(admitted);
      }
      status := TransitionAdmitted(id, acting, target);
    }

    method TransitionAdmitted(id: ProofId, acting: A.Acting, target: L.State) returns (status: MutationStatus)
      modifies this`proofs, publication
      ensures status == LifecycleVerdict(old(Contents()), id, target)
      ensures Contents() == if status == APPLIED
                            then old(Contents()).Store(id, Transitioned(old(proofs)[id], target, limits.maxHistory))
                            else old(Contents())
      ensures publication.Contents() == if status == APPLIED || status == UNCHANGED then old(publication.Contents())
                                        else A.Forget(old(publication.Contents()), acting.attempt)
    {
      if id !in proofs {
        publication.ForgetAttempt(acting.attempt);
        return NOT_FOUND;
      }
      var record := proofs[id];
      if !L.TransitionAllowed(record.current.lifecycle, target) {
        publication.ForgetAttempt(acting.attempt);
        return ILLEGAL_TRANSITION;
      }
      if record.current.lifecycle == target {
        return UNCHANGED;
      }
      var history := record.history + [record.current];
      if |history| > limits.maxHistory {
        history := history[1..];
      }
      var current := record.current.(lifecycle := target);
      if target != L.State.CURRENT {
        current := current.(currentness := L.Currentness.REVALIDATION_REQUIRED);
      }
      proofs := proofs[id := Record(current, history)];
      status := APPLIED;
    }

    // ----- refresh_currentness -----

    /** The published generation moved past the one the proof was evaluated under. */
    predicate PolicyMoved(id: ProofId)
      requires id in proofs
      reads this
    {
      var p := proofs[id].current;
      p.dependencies.policyGeneration != if p.request.policy in policies then policies[p.request.policy].generation
          else 0
    }

    /** The questions of the unlocked phase: every binding of every current proof. */
    method AskAbout(views: Views, live: set<ProofId>) returns (unbacked: set<ProofId>)
      requires live <= proofs.Keys
      modifies views`now
      ensures views.now >= old(views.now) && unbacked <= live
      ensures forall id | id in live && id !in unbacked ::
                AllBackedWithin(views.world, proofs[id].current.dependencies.paths, old(views.now), views.now)
    {
      unbacked := {};
      var rest := live;
      while rest != {}
        invariant rest <= live && unbacked <= live && views.now >= old(views.now)
        invariant forall id | id in live && id !in rest && id !in unbacked ::
                    AllBackedWithin(views.world, proofs[id].current.dependencies.paths, old(views.now), views.now)
        decreases |rest|
      {
        var id :| id in rest;
        ghost var asked := views.now;
        var stale := AnyUnbacked(views, proofs[id].current.dependencies.paths);
        forall other | other in live && other !in rest && other !in unbacked
          ensures AllBackedWithin(views.world, proofs[other].current.dependencies.paths, old(views.now), views.now)
        {
          LongerInterval(views.world, proofs[other].current.dependencies.paths, old(views.now), views.now);
        }
        if stale {
          unbacked := unbacked + {id};
        } else {
          LaterInterval(views.world, proofs[id].current.dependencies.paths, asked, old(views.now), views.now);
        }
        rest := rest - {id};
      }
    }

    method ApplyRefresh(live: set<ProofId>, moved: set<ProofId>, unbacked: set<ProofId>)
      returns (affected: set<ProofId>)
      modifies this`proofs
      ensures Demotion(Contents(), affected) == Refresh(old(Contents()), live, moved, unbacked)
    {
      ghost var before := Contents();
      var policyDemoted := DemoteEach(live * moved, Any, L.Currentness.STALE_POLICY);
      DemotedAreNotCurrent(before, policyDemoted, L.Currentness.STALE_POLICY);
      var pathDemoted := DemoteEach((live * unbacked) - moved, Any, L.Currentness.STALE_PATH_AUTHORITY);
      assert policyDemoted == set id | id in live && before.IsCurrent(id) && id in moved;
      assert pathDemoted == set id | id in live && before.IsCurrent(id) && id in unbacked && id !in moved;
      affected := policyDemoted + pathDemoted;
    }

    /** Asks the views about every current proof and demotes what has moved on. */
    method RefreshCurrentness(views: Views)
      returns (affected: set<ProofId>, moved: set<ProofId>, unbacked: set<ProofId>)
      modifies this`proofs, views`now
      ensures views.now >= old(views.now)
      ensures Demotion(Contents(), affected)
              == Refresh(old(Contents()), LiveIn(old(Contents())), moved, unbacked)
      ensures moved == set id | id in old(proofs) && old(Contents()).IsCurrent(id) && old(PolicyMoved(id))
      ensures forall id | id in old(proofs) && old(Contents()).IsCurrent(id) && id !in unbacked ::
                AllBackedWithin(views.world, old(proofs)[id].current.dependencies.paths, old(views.now), views.now)
    {
      var live := LiveIn(Contents());
      unbacked := AskAbout(views, live);
      moved := set id | id in proofs && id in live && PolicyMoved(id);
      affected := ApplyRefresh(live, moved, unbacked);
    }

    // ----- load -----

    method LoadRecords(contents: StoreContents)
      modifies this`policies, this`proofs
      ensures policies == LoadPolicies(old(policies), contents.policies)
      ensures proofs == LoadHistory(LoadProofs(old(proofs), contents.proofs), contents.history)
    {
      var loadedPolicies := policies;
      for k := 0 to |contents.policies|
        invariant loadedPolicies == LoadPolicies(old(policies), contents.policies[..k])
      {
        assert contents.policies[..k + 1][..k] == contents.policies[..k];
        loadedPolicies := loadedPolicies[contents.policies[k].id := contents.policies[k]];
      }
      assert contents.policies[..|contents.policies|] == contents.policies;
      var records := proofs;
      for k := 0 to |contents.proofs|
        invariant records == LoadProofs(old(proofs), contents.proofs[..k])
      {
        assert contents.proofs[..k + 1][..k] == contents.proofs[..k];
        records := records[contents.proofs[k].id := Record(contents.proofs[k], [])];
      }
      assert contents.proofs[..|contents.proofs|] == contents.proofs;
      ghost var loaded := records;
      for k := 0 to |contents.history|
        invariant records == LoadHistory(loaded, contents.history[..k])
      {
        assert contents.history[..k + 1][..k] == contents.history[..k];
        var (id, history) := contents.history[k];
        if id in records {
          records := records[id := records[id].(history := history)];
        }
      }
      assert contents.history[..|contents.history|] == contents.history;
      policies, proofs := loadedPolicies, records;
    }

    method ReindexRecord(id: ProofId, ghost before: Indexes, ghost visited: map<ProofId, Record>)
      requires id in proofs && id !in visited && Reindexed(before, visited, Indexing())
      modifies this`byPath, this`byDomain, this`byRiskGroup, this`byEntity, this`byPolicy, this`byBoot, this`byTopology,
          this`byDomainGeneration
      ensures Reindexed(before, visited[id := proofs[id]], Indexing())
    {
      ReindexOneMore(before, visited, Indexing(), id, proofs[id]);
      IndexRevision(id, proofs[id].current, ListedBy(proofs[id].current));
    }

    method Reindex()
      modifies this`byPath, this`byDomain, this`byRiskGroup, this`byEntity, this`byPolicy, this`byBoot, this`byTopology,
          this`byDomainGeneration
      ensures Reindexed(old(Indexing()), proofs, Indexing())
    {
      ghost var before := Indexing();
      ghost var visited: map<ProofId, Record> := map[];
      var rest := proofs.Keys;
      ReindexNone(before);
      while rest != {}
        invariant rest <= proofs.Keys && visited.Keys == proofs.Keys - rest
        invariant forall id | id in visited :: visited[id] == proofs[id]
        invariant Reindexed(before, visited, Indexing())
        decreases |rest|
      {
        var id :| id in rest;
        ReindexRecord(id, before, visited);
        visited := visited[id := proofs[id]];
        rest := rest - {id};
      }
      assert visited == proofs;
    }

    /** `load`, once the store has been decoded. */
    method Load(contents: StoreContents)
      modifies this, publication
      ensures Loads(old(Together()), contents, Together())
    {
      if contents.epoch > 0 {
        var status := publication.Restore(contents.epoch);
      }
      LoadRecords(contents);
      Reindex();
      FenceLoaded(contents.fencedBoots);
    }

    method FenceLoaded(boots: seq<string>)
      modifies publication
      ensures publication.Contents() == FenceEach(old(publication.Contents()), boots)
    {
      for k := 0 to |boots|
        invariant publication.Contents() == FenceEach(old(publication.Contents()), boots[..k])
      {
        assert boots[..k + 1][..k] == boots[..k];
        var status := publication.Fence(boots[k]);
      }
      assert boots[..|boots|] == boots;
    }

    // ----- evaluate, all three phases -----

    /**
     * `evaluate` by one caller while writers move the evidence.  Whatever it commits as
     * current is the verdict of one atomic evaluation at one instant of the call.
     */
    method Evaluate(views: Views, request: Request, acting: A.Acting)
      returns (status: MutationStatus, committed: Option<Proof>)
      requires publication.limits == limits
      modifies this, publication, views`now
      ensures views.now >= old(views.now)
      ensures HasDuplicatePaths(CanonicalRequest(request).paths) ==>
                status == MutationStatus.MALFORMED && committed == None && Together() == old(Together())
      ensures committed.Some? ==>
                && CanonicalRequest(request).policy in old(policies)
                && committed.value.request == committed.value.id == CanonicalRequest(request)
                && committed.value.provenance.boot == acting.boot
      ensures Coherent(views.world) && committed.Some? && committed.value.Current() ==>
                OfOneInstant(views.world, old(views.now), views.now, CanonicalRequest(request),
                             old(policies)[CanonicalRequest(request).policy], limits, committed.value.evaluation)
    {
      committed := None;
      var canonical := CanonicalRequest(request);
      if HasDuplicatePaths(canonical.paths) {
        status := MutationStatus.MALFORMED;
        return;
      }
      var begun := BeginPhase(canonical, acting);
      match begun {
        case Replayed =>
          status := IDEMPOTENT;
        case Refused(reason) =>
          status := reason;
        case Admitted(policy) =>
          status, committed := EvaluateAdmitted(views, canonical, policy, acting);
      }
    }

    /** Phases two and three. */
    method EvaluateAdmitted(views: Views, request: Request, policy: Policy, acting: A.Acting)
      returns (status: MutationStatus, committed: Option<Proof>)
      requires publication.limits == limits
      modifies this, publication, views`now
      ensures views.now >= old(views.now)
      ensures committed.Some? ==>
                committed.value.request == committed.value.id == request
                && committed.value.provenance.boot == acting.boot
      ensures Coherent(views.world) && committed.Some? && committed.value.Current() ==>
                OfOneInstant(views.world, old(views.now), views.now, request, policy, limits,
                             committed.value.evaluation)
    {
      var observation := EvaluateUnlocked(views, request, policy, limits);
      FinishedIsMade(Together(), request, policy, Protocol.Finish(observation), acting, limits);
      CurrentIsUndrifted(request, observation, acting);
      status, committed := FinishPhase(request, policy, Protocol.Finish(observation), acting);
    }

    /** `revalidate`: a revoked or retired proof is refused; anything else is evaluated again. */
    method Revalidate(views: Views, id: ProofId, acting: A.Acting)
      returns (status: MutationStatus, committed: Option<Proof>)
      requires publication.limits == limits
      modifies this, publication, views`now
      ensures id !in old(proofs) ==> status == NOT_FOUND && Together() == old(Together())
      ensures id in old(proofs) && L.Terminal(old(proofs)[id].current.lifecycle) ==>
                status == ILLEGAL_TRANSITION && committed == None && Together() == old(Together())
      ensures committed.Some? ==>
                && id in old(proofs)
                && committed.value.request == committed.value.id == CanonicalRequest(old(proofs)[id].current.request)
                && committed.value.id.policy in old(policies)
                && committed.value.provenance.boot == acting.boot
      ensures Coherent(views.world) && committed.Some? && committed.value.Current() ==>
                OfOneInstant(views.world, old(views.now), views.now, CanonicalRequest(old(proofs)[id].current.request),
                             old(policies)[committed.value.id.policy], limits, committed.value.evaluation)
    {
      committed := None;
      if id !in proofs {
        status := NOT_FOUND;
        return;
      }
      if L.Terminal(proofs[id].current.lifecycle) {
        status := ILLEGAL_TRANSITION;
        return;
      }
      status, committed := Evaluate(views, proofs[id].current.request, acting);
    }
  }

  lemma UnchangedIff(r: Registry, id: ProofId, target: L.State)
    ensures LifecycleVerdict(r, id, target) == UNCHANGED
            <==> id in r.proofs && r.proofs[id].current.lifecycle == target
  {
  }

  lemma FinishedIsMade(s: Shared, request: Request, policy: Policy, finished: Finished, acting: A.Acting,
                       limits: Limits)
    ensures var committed := FinishEvaluation(s, request, policy, finished, acting, limits).2;
            committed.Some? ==> committed.value == MakeProof(request, committed.value.generation, finished, acting)
  {
    if Commit(s.registry, request, finished, acting, limits).committed.Some? {
      CommittedIsStored(s.registry, request, finished, acting, limits);
    }
  }

  /** A revision is only current when its evaluation was decisive and nothing had drifted. */
  lemma CurrentIsUndrifted(request: Request, observation: Observation, acting: A.Acting)
    ensures forall generation: nat ::
              var p := MakeProof(request, generation, Protocol.Finish(observation), acting);
              && p.request == p.id == request && p.provenance.boot == acting.boot
              && (p.Current() ==>
                    && observation.Undrifted() && Decisive(observation.evaluation.outcome)
                    && p.evaluation == observation.evaluation)
  {
  }

  // ----- The views behind the protocol --------------------------------------------------------------------

  /**
   * The protocol over these views and stores: atomic evaluations of the contents of the
   * views, and what unlocked evaluations can return.
   */
  ghost function EnvOf(limits: Limits, world: nat -> Snapshot, stores: StoreContents -> bool): Protocol.Env {
    Protocol.Env(limits,
                 (t: nat, request: Request, policy: Policy) => Evaluator.Evaluate(request, policy, world(t), limits),
                 (t: nat) => world(t).facts.topologyGeneration,
                 (t: nat) => world(t).facts.domainGeneration,
                 (lo: nat, hi: nat, request: Request, policy: Policy, out: Observation) =>
                   Observable(world, lo, hi, request, policy, limits, out),
                 stores)
  }

  /** The protocol's reads are those of phase two, and it calls trustworthy what the views call isolated. */
  lemma UnlockedPhaseIsTrustworthy(limits: Limits, world: nat -> Snapshot, stores: StoreContents -> bool, lo: nat,
                                   hi: nat, request: Request, policy: Policy, out: Observation)
    ensures Observable(world, lo, hi, request, policy, limits, out)
            <==> EnvOf(limits, world, stores).observes(lo, hi, request, policy, out)
    ensures Isolated(world, lo, hi, request, policy, limits, out) <==>
              Protocol.Trustworthy(EnvOf(limits, world, stores), lo, hi, request, policy, out)
  {
    var env := EnvOf(limits, world, stores);
    forall t: nat
      ensures env.verdictAt(t, request, policy) == Evaluator.Evaluate(request, policy, world(t), limits)
      ensures env.topologyAt(t) == world(t).facts.topologyGeneration
              && env.domainsAt(t) == world(t).facts.domainGeneration
    {
    }
  }

  /** Over coherent views every observation the protocol can make is trustworthy. */
  lemma CoherentViewsAreFaithful(limits: Limits, world: nat -> Snapshot, stores: StoreContents -> bool)
    requires Coherent(world)
    ensures Protocol.Faithful(EnvOf(limits, world, stores))
  {
    var env := EnvOf(limits, world, stores);
    forall lo: nat, hi: nat, request, policy, out | env.observes(lo, hi, request, policy, out)
      ensures Protocol.Trustworthy(env, lo, hi, request, policy, out)
    {
      UnlockedPhaseIsTrustworthy(limits, world, stores, lo, hi, request, policy, out);
      ObservableIsIsolated(world, lo, hi, request, policy, limits, out);
    }
  }

  lemma ReindexNone(before: Indexes)
    ensures Reindexed(before, map[], before)
  {
    FiledNone(before.byPath, BindsPath);
    FiledNone(before.byDomain, ListsDomain);
    FiledNone(before.byRiskGroup, ListsRiskGroup);
    FiledNone(before.byEntity, BindsEntity);
    FiledNone(before.byPolicy, BindsPolicy);
    FiledNone(before.byBoot, BindsBoot);
    FiledNone(before.byTopology, BindsTopology);
    FiledNone(before.byDomainGeneration, BindsDomains);
  }

  lemma DemotedAreNotCurrent(r: Registry, ids: set<ProofId>, reason: L.Currentness)
    requires reason != L.Currentness.CURRENT
    ensures forall id :: DemoteIds(r, ids, reason).IsCurrent(id) <==> r.IsCurrent(id) && id !in ids
    ensures forall id | id in r.proofs && id !in ids ::
              id in DemoteIds(r, ids, reason).proofs && DemoteIds(r, ids, reason).proofs[id] == r.proofs[id]
    ensures DemoteIds(r, ids, reason).policies == r.policies
  {
  }
}
