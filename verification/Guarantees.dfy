/**
 * What a reader of the registry may rely on: every current proof, in every reachable
 * state of every interleaving, was true of the evidence at one instant of its call.
 */
module Guarantees {
  import opened Evidence
  import opened PairClasses
  import opened Evaluator
  import opened Verdicts
  import opened Observations
  import opened Registry
  import opened Consultation
  import opened Protocol
  import Runs
  import Runtime

  /** The verdict is the atomic one at t, at the generations it binds, and means what it says there. */
  ghost predicate TrueAt(limits: Limits, snap: Snapshot, policy: Policy, p: Proof) {
    && p.evaluation == Evaluator.Evaluate(p.request, policy, snap, limits)
    && p.evaluation.dependencies.topologyGeneration == snap.facts.topologyGeneration
    && p.evaluation.dependencies.domainGeneration == snap.facts.domainGeneration
    && policy.id == p.request.policy && policy.generation == p.request.policyGeneration
    && ReachesMatrix(p.request, policy, snap, limits)
    && (policy.semantics == ALL_PAIRS ==>
          (p.evaluation.outcome == PROVEN_DIVERSE <==> AllPairsIndependent(p.request, policy, snap.facts)))
    && (policy.semantics == AT_LEAST_K_INDEPENDENT ==> ExactOverCompletions(p.evaluation, policy))
  }

  /** No pair shares anything a required class forbids, and everything consulted is COMPLETE. */
  ghost predicate AllPairsIndependent(request: Request, policy: Policy, facts: Facts) {
    var comps, p := Structures(request, facts), CanonicalPolicy(policy);
    forall i, j, klass | 0 <= i < j < |comps| && klass in policy.requiredClasses ::
      !Shares(klass, comps[i], comps[j], p, facts) && PairClasses.Complete(klass, comps[i], comps[j], p, facts)
  }

  lemma AtomicVerdictIsTrue(limits: Limits, snap: Snapshot, policy: Policy, p: Proof)
    requires p.evaluation == Evaluator.Evaluate(p.request, policy, snap, limits) && Decisive(p.evaluation.outcome)
    requires p.evaluation.dependencies.topologyGeneration == snap.facts.topologyGeneration
    requires p.evaluation.dependencies.domainGeneration == snap.facts.domainGeneration
    requires policy.id == p.request.policy && policy.generation == p.request.policyGeneration
    ensures TrueAt(limits, snap, policy, p)
  {
    DecisiveReachesMatrix(p.request, policy, snap, limits);
    if policy.semantics == ALL_PAIRS {
      AllPairsOutcome(p.request, policy, snap, limits);
    } else {
      SubsetOutcome(p.request, policy, snap, limits);
    }
  }

  lemma TrueAtThatInstant(limits: Limits, world: nat -> Snapshot, stores: StoreContents -> bool, lo: nat, hi: nat,
                          policy: Policy, p: Proof)
    returns (t: nat)
    requires FromOneInstant(Runtime.EnvOf(limits, world, stores), lo, hi, p.request, policy, p.evaluation)
    requires Decisive(p.evaluation.outcome) && policy.id == p.request.policy
             && policy.generation == p.request.policyGeneration
    ensures lo <= t <= hi && TrueAt(limits, world(t), policy, p)
  {
    var env := Runtime.EnvOf(limits, world, stores);
    t :| lo <= t <= hi && p.evaluation == env.verdictAt(t, p.request, policy)
         && env.topologyAt(t) == p.evaluation.dependencies.topologyGeneration
         && env.domainsAt(t) == p.evaluation.dependencies.domainGeneration;
    AtomicVerdictIsTrue(limits, world(t), policy, p);
  }

  /** The k-th entry of the log is the commit of this proof, and t lies between its call's beginning and commit. */
  ghost predicate TrueWhenCommitted(limits: Limits, world: nat -> Snapshot, s: System, k: nat, t: nat, p: Proof) {
    && Runs.CommitAt(s, k, p)
    && s.log[k].began <= t <= s.log[k].committed <= s.now
    && TrueAt(limits, world(t), s.log[k].policy, p)
  }

  /**
   * Over coherent views, in every reachable state: a current proof that was not read from
   * a store was committed under exactly a policy that had been published, with the
   * identity and the generation the proof names, before its call began; and it was true
   * of the evidence at an instant between the beginning of that call and its commit.
   */
  lemma CurrentProofsAreTrue(limits: Limits, world: nat -> Snapshot, stores: StoreContents -> bool, events: seq<Event>,
                             states: seq<System>, j: nat, id: ProofId)
    requires Coherent(world)
    requires IsRun(Runtime.EnvOf(limits, world, stores), events, states) && |states| == |events| + 1 && j <= |events|
    requires Runs.CommittedHere(states[j], id)
    ensures var p := states[j].shared.registry.proofs[id].current;
            p.request == id && exists k: nat, t: nat :: TrueWhenCommitted(limits, world, states[j], k, t, p)
  {
    var env := Runtime.EnvOf(limits, world, stores);
    Runtime.CoherentViewsAreFaithful(limits, world, stores);
    Runs.SnapshotIsolation(env, events, states, j, id);
    var s, p := states[j], states[j].shared.registry.proofs[id].current;
    var k: nat :| Runs.CommitAt(s, k, p)
        && FromOneInstant(env, s.log[k].began, s.log[k].read, p.request, s.log[k].policy, p.evaluation);
    var t := TrueAtThatInstant(limits, world, stores, s.log[k].began, s.log[k].read, s.log[k].policy, p);
    assert TrueWhenCommitted(limits, world, s, k, t, p);
  }

  // ----- What the domain index answers for --------------------------------------------------------

  /** Nothing else was ever committed or loaded under this identity. */
  ghost predicate OnlyRevision(s: System, id: ProofId)
    requires id in s.shared.registry.proofs
  {
    forall q | q in s.seen && q.id == id :: q.revision == s.shared.registry.proofs[id].current
  }

  /** The proof is found, and through domains demoted, by all that was consulted if that is within the bound. */
  ghost predicate Answers(r: Registry, id: ProofId, domains: set<string>, groups: set<string>, bound: nat)
    requires id in r.proofs
  {
    && (|domains| <= bound ==> FoundUnder(r.index.byDomain, id, domains) && AlwaysReached(r, id, domains))
    && (|groups| <= bound ==> FoundUnder(r.index.byRiskGroup, id, groups))
  }

  /** And only then. */
  ghost predicate AnswersExactly(r: Registry, id: ProofId, domains: set<string>, groups: set<string>, bound: nat)
    requires id in r.proofs
  {
    && (FoundUnder(r.index.byDomain, id, domains) <==> |domains| <= bound)
    && (AlwaysReached(r, id, domains) <==> |domains| <= bound)
    && (FoundUnder(r.index.byRiskGroup, id, groups) <==> |groups| <= bound)
  }

  lemma ListedIsAnswered(s: System, id: ProofId, domains: set<string>, groups: set<string>, bound: nat)
    requires s.shared.registry.IsCurrent(id)
    requires ConsultedFound(s.shared.registry.index, id, s.shared.registry.proofs[id].current)
    requires Lists(s.shared.registry.proofs[id].current.evaluation.consulted.domains, domains, bound)
    requires Lists(s.shared.registry.proofs[id].current.evaluation.consulted.riskGroups, groups, bound)
    ensures Answers(s.shared.registry, id, domains, groups, bound)
    ensures var ix := s.shared.registry.index;
            ConsultedExact(ix.byDomain, ix.byRiskGroup, s.seen) && OnlyRevision(s, id) ==>
              AnswersExactly(s.shared.registry, id, domains, groups, bound)
  {
    var ix, p := s.shared.registry.index, s.shared.registry.proofs[id].current;
    ReachedIffFound(s.shared.registry, id, domains);
    if ConsultedExact(ix.byDomain, ix.byRiskGroup, s.seen) && OnlyRevision(s, id) {
      forall name
        ensures id in Lookup(ix.byDomain, name) <==> name in p.evaluation.consulted.domains
        ensures id in Lookup(ix.byRiskGroup, name) <==> name in p.evaluation.consulted.riskGroups
      {
        assert SomeSeen(s.seen, id, name, ConsultedDomain) <==> id in Lookup(ix.byDomain, name);
        assert SomeSeen(s.seen, id, name, ConsultedGroup) <==> id in Lookup(ix.byRiskGroup, name);
      }
    }
  }

  /**
   * Over coherent views, in every reachable state: a current proof that was not read from
   * a store is found under every domain and every group consulted at its instant, and
   * every demotion of one of these domains reaches it, if they are no more than
   * max_domain_evidence_entries; and, as long as nothing was loaded and it is the only
   * revision of its identity, only if.
   */
  lemma DomainIndexAnswersWithinBound(limits: Limits, world: nat -> Snapshot, stores: StoreContents -> bool,
                                      events: seq<Event>, states: seq<System>, j: nat, id: ProofId)
    requires Coherent(world)
    requires IsRun(Runtime.EnvOf(limits, world, stores), events, states) && |states| == |events| + 1 && j <= |events|
    requires Runs.CommittedHere(states[j], id)
    ensures var s, bound := states[j], limits.maxDomainEvidenceEntries;
            exists k: nat, t: nat ::
              && TrueWhenCommitted(limits, world, s, k, t, s.shared.registry.proofs[id].current)
              && var domains, groups := DomainsAsked(id, s.log[k].policy, world(t).facts),
                     GroupsAsked(id, world(t).facts);
                 && Answers(s.shared.registry, id, domains, groups, bound)
                 && (s.loads == 0 && OnlyRevision(s, id) ==>
                       AnswersExactly(s.shared.registry, id, domains, groups, bound))
  {
    var env, s := Runtime.EnvOf(limits, world, stores), states[j];
    CurrentProofsAreTrue(limits, world, stores, events, states, j, id);
    var p := s.shared.registry.proofs[id].current;
    var k: nat, t: nat :| TrueWhenCommitted(limits, world, s, k, t, p);
    EvaluationListsConsulted(id, s.log[k].policy, world(t), limits);
    Runs.IndexesAnswerForTheRegistry(env, events, states, j);
    if s.loads == 0 {
      Runs.ConsultedEntriesAreExact(env, events, states, j);
    }
    ListedIsAnswered(s, id, DomainsAsked(id, s.log[k].policy, world(t).facts), GroupsAsked(id, world(t).facts),
                     limits.maxDomainEvidenceEntries);
  }
}
