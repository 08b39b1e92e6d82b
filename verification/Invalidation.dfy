/**
 * The indexes stand in for a full scan: every current proof is found under all it
 * binds, every entry is justified, and so every demotion leaves no matching current
 * proof, touches nothing else, and has a reason for each proof it demotes.
 */
module Invalidation {
  import opened Evidence
  import opened Evaluator
  import opened Registry
  import L = Lifecycle
  import A = Authority

  // ----- Inserting -----------------------------------------------------------------------

  lemma {:induction false} LookupInsertAll<K>(m: Index<K>, keys: seq<K>, id: ProofId, key: K)
    ensures Lookup(InsertAll(m, keys, id), key) == Lookup(m, key) + (if key in keys then {id} else {})
    decreases |keys|
  {
    if keys != [] {
      LookupInsertAll(m, keys[..|keys| - 1], id, key);
      assert keys == keys[..|keys| - 1] + [keys[|keys| - 1]];
    }
  }

  lemma FoundAfterIndexing(ix: Indexes, id: ProofId, p: Proof, consulted: Consulted)
    ensures Found(IndexProof(ix, id, p, consulted), id, p)
    ensures forall d | d in consulted.domains :: id in Lookup(IndexProof(ix, id, p, consulted).byDomain, d)
    ensures forall g | g in consulted.riskGroups :: id in Lookup(IndexProof(ix, id, p, consulted).byRiskGroup, g)
  {
    forall path
      ensures BindsPath(p, path) ==> id in Lookup(IndexProof(ix, id, p, consulted).byPath, path)
    {
      LookupInsertAll(ix.byPath, PathsOf(p.request.paths), id, path);
    }
    forall e
      ensures BindsEntity(p, e) ==> id in Lookup(IndexProof(ix, id, p, consulted).byEntity, e)
    {
      LookupInsertAll(ix.byEntity, p.dependencies.topologyEntities, id, e);
    }
    forall d
      ensures d in consulted.domains ==> id in Lookup(IndexProof(ix, id, p, consulted).byDomain, d)
      ensures d in consulted.riskGroups ==> id in Lookup(IndexProof(ix, id, p, consulted).byRiskGroup, d)
    {
      LookupInsertAll(ix.byDomain, consulted.domains, id, d);
      LookupInsertAll(ix.byRiskGroup, consulted.riskGroups, id, d);
    }
  }

  /** Indexing one revision never takes another one out. */
  lemma FoundStays(ix: Indexes, id: ProofId, p: Proof, consulted: Consulted, other: ProofId, q: Proof)
    requires Found(ix, other, q)
    ensures Found(IndexProof(ix, id, p, consulted), other, q)
  {
    forall path | BindsPath(q, path)
      ensures other in Lookup(IndexProof(ix, id, p, consulted).byPath, path)
    {
      LookupInsertAll(ix.byPath, PathsOf(p.request.paths), id, path);
    }
    forall e | BindsEntity(q, e)
      ensures other in Lookup(IndexProof(ix, id, p, consulted).byEntity, e)
    {
      LookupInsertAll(ix.byEntity, p.dependencies.topologyEntities, id, e);
    }
  }

  lemma JustifiedInsertAll<K(!new)>(m: Index<K>, seen: set<Seen>, binds: (Proof, K) -> bool, keys: seq<K>, id: ProofId,
                                    p: Proof)
    requires Justified(m, seen, binds) && forall key | key in keys :: binds(p, key)
    ensures Justified(InsertAll(m, keys, id), seen + {Seen(id, p)}, binds)
  {
    forall key, other | other in Lookup(InsertAll(m, keys, id), key)
      ensures SomeSeen(seen + {Seen(id, p)}, other, key, binds)
    {
      LookupInsertAll(m, keys, id, key);
      if other in Lookup(m, key) {
        assert SomeSeen(seen, other, key, binds);
      } else {
        assert Seen(id, p) in seen + {Seen(id, p)};
      }
    }
  }

  lemma SoundAfterIndexing(ix: Indexes, seen: set<Seen>, id: ProofId, p: Proof, consulted: Consulted)
    requires Sound(ix, seen)
    requires forall d | d in consulted.domains :: NamesDomain(p, d)
    requires forall g | g in consulted.riskGroups :: NamesRiskGroup(p, g)
    ensures Sound(IndexProof(ix, id, p, consulted), seen + {Seen(id, p)})
  {
    JustifiedInsertAll(ix.byPath, seen, BindsPath, PathsOf(p.request.paths), id, p);
    JustifiedInsertAll(ix.byDomain, seen, NamesDomain, consulted.domains, id, p);
    JustifiedInsertAll(ix.byRiskGroup, seen, NamesRiskGroup, consulted.riskGroups, id, p);
    JustifiedInsertAll(ix.byEntity, seen, BindsEntity, p.dependencies.topologyEntities, id, p);
    InsertIsInsertAll(ix.byPolicy, p.request.policy, id);
    InsertIsInsertAll(ix.byBoot, p.provenance.boot, id);
    InsertIsInsertAll(ix.byTopology, p.dependencies.topologyGeneration, id);
    InsertIsInsertAll(ix.byDomainGeneration, p.dependencies.domainGeneration, id);
    JustifiedInsertAll(ix.byPolicy, seen, BindsPolicy, [p.request.policy], id, p);
    JustifiedInsertAll(ix.byBoot, seen, BindsBoot, [p.provenance.boot], id, p);
    JustifiedInsertAll(ix.byTopology, seen, BindsTopology, [p.dependencies.topologyGeneration], id, p);
    JustifiedInsertAll(ix.byDomainGeneration, seen, BindsDomains, [p.dependencies.domainGeneration], id, p);
  }

  lemma InsertIsInsertAll<K>(m: Index<K>, key: K, id: ProofId)
    ensures InsertAll(m, [key], id) == Insert(m, key, id)
  {
    assert [key][..0] == [];
  }

  // ----- Committing ------------------------------------------------------------------------

  lemma OpeningKeepsComplete(r: Registry, id: ProofId)
    requires Complete(r) && id !in r.proofs
    ensures Complete(r.Store(id, Record(BLANK, [])))
  {
  }

  lemma InstallKeepsIndexes(r: Registry, seen: set<Seen>, id: ProofId, record: Record, consulted: Consulted)
    requires Complete(r) && Sound(r.index, seen) && record.current.evaluation.consulted == consulted
    ensures Complete(Install(r, id, record, consulted))
    ensures Sound(Install(r, id, record, consulted).index, seen + {Seen(id, record.current)})
  {
    var after := Install(r, id, record, consulted);
    FoundAfterIndexing(r.index, id, record.current, consulted);
    SoundAfterIndexing(r.index, seen, id, record.current, consulted);
    forall other | after.IsCurrent(other)
      ensures Found(after.index, other, after.proofs[other].current)
    {
      if other != id {
        assert r.IsCurrent(other);
        FoundStays(r.index, id, record.current, consulted, other, r.proofs[other].current);
      }
    }
  }

  /** What a committed revision is, and that everything it consulted is indexed. */
  ghost predicate Committed(after: Registry, request: Request, finished: Finished, acting: A.Acting, p: Proof) {
    && request in after.proofs && after.proofs[request].current == p
    && p == MakeProof(request, p.generation, finished, acting)
    && Found(after.index, request, p)
    && (forall d | d in finished.evaluation.consulted.domains :: request in Lookup(after.index.byDomain, d))
    && (forall g | g in finished.evaluation.consulted.riskGroups :: request in Lookup(after.index.byRiskGroup, g))
  }

  /** A commit keeps both directions of the index invariant. */
  lemma CommitKeepsIndexes(r: Registry, seen: set<Seen>, request: Request, finished: Finished, acting: A.Acting,
                           limits: Limits)
    requires Complete(r) && Sound(r.index, seen)
    ensures var c := Commit(r, request, finished, acting, limits);
            && Complete(c.registry)
            && Sound(c.registry.index, if c.committed == None then seen else seen + {Seen(request, c.committed.value)})
            && (c.committed.Some? ==> Committed(c.registry, request, finished, acting, c.committed.value))
  {
    var ready := if request in r.proofs then r else r.Store(request, Record(BLANK, []));
    if request !in r.proofs {
      OpeningKeepsComplete(r, request);
    }
    var c := Commit(r, request, finished, acting, limits);
    if c.committed.Some? {
      var record := c.registry.proofs[request];
      assert c.registry == Install(ready, request, record, finished.evaluation.consulted);
      InstallKeepsIndexes(ready, seen, request, record, finished.evaluation.consulted);
      FoundAfterIndexing(ready.index, request, record.current, finished.evaluation.consulted);
    }
  }

  /** Index entries for what was consulted are only ever added. */
  lemma ConsultedStays(ix: Indexes, id: ProofId, p: Proof, consulted: Consulted, other: ProofId, q: Proof)
    requires ConsultedFound(ix, other, q)
    ensures ConsultedFound(IndexProof(ix, id, p, consulted), other, q)
  {
    forall d
      ensures other in Lookup(ix.byDomain, d) ==> other in Lookup(IndexProof(ix, id, p, consulted).byDomain, d)
      ensures other in Lookup(ix.byRiskGroup, d) ==> other in Lookup(IndexProof(ix, id, p, consulted).byRiskGroup, d)
    {
      LookupInsertAll(ix.byDomain, consulted.domains, id, d);
      LookupInsertAll(ix.byRiskGroup, consulted.riskGroups, id, d);
    }
  }

  lemma InstallKeepsConsulted(r: Registry, restored: set<Seen>, id: ProofId, record: Record, consulted: Consulted)
    requires ConsultedComplete(r, restored) && record.current.evaluation.consulted == consulted
    ensures ConsultedComplete(Install(r, id, record, consulted), restored)
  {
    var after := Install(r, id, record, consulted);
    FoundAfterIndexing(r.index, id, record.current, consulted);
    forall other | after.IsCurrent(other) && Seen(other, after.proofs[other].current) !in restored
      ensures ConsultedFound(after.index, other, after.proofs[other].current)
    {
      if other != id {
        assert r.IsCurrent(other);
        ConsultedStays(r.index, id, record.current, consulted, other, r.proofs[other].current);
      }
    }
  }

  /** A commit leaves every current proof indexed under all it consulted. */
  lemma CommitKeepsConsulted(r: Registry, restored: set<Seen>, request: Request, finished: Finished, acting: A.Acting,
                             limits: Limits)
    requires ConsultedComplete(r, restored)
    ensures ConsultedComplete(Commit(r, request, finished, acting, limits).registry, restored)
  {
    var ready := if request in r.proofs then r else r.Store(request, Record(BLANK, []));
    assert ConsultedComplete(ready, restored);
    var c := Commit(r, request, finished, acting, limits);
    if c.committed.Some? {
      var record := c.registry.proofs[request];
      assert c.registry == Install(ready, request, record, finished.evaluation.consulted);
      InstallKeepsConsulted(ready, restored, request, record, finished.evaluation.consulted);
    }
  }

  lemma ExactInsertAll(m: Index<string>, seen: set<Seen>, consulted: (Proof, string) -> bool, keys: seq<string>,
                       id: ProofId, p: Proof)
    requires forall other, key :: other in Lookup(m, key) <==> SomeSeen(seen, other, key, consulted)
    requires forall key :: key in keys <==> consulted(p, key)
    ensures forall other, key ::
              other in Lookup(InsertAll(m, keys, id), key) <==> SomeSeen(seen + {Seen(id, p)}, other, key, consulted)
  {
    forall other, key
      ensures other in Lookup(InsertAll(m, keys, id), key) <==> SomeSeen(seen + {Seen(id, p)}, other, key, consulted)
    {
      LookupInsertAll(m, keys, id, key);
      SomeSeenMore(seen, id, p, other, key, consulted);
    }
  }

  lemma SomeSeenMore<K>(seen: set<Seen>, id: ProofId, p: Proof, other: ProofId, key: K, binds: (Proof, K) -> bool)
    ensures SomeSeen(seen + {Seen(id, p)}, other, key, binds)
            <==> SomeSeen(seen, other, key, binds) || (other == id && binds(p, key))
  {
    if SomeSeen(seen, other, key, binds) {
      var s :| s in seen && s.id == other && binds(s.revision, key);
      assert s in seen + {Seen(id, p)};
    }
    if other == id && binds(p, key) {
      assert Seen(id, p) in seen + {Seen(id, p)};
    }
  }

  lemma IndexKeepsExact(ix: Indexes, seen: set<Seen>, id: ProofId, p: Proof, consulted: Consulted)
    requires ConsultedExact(ix.byDomain, ix.byRiskGroup, seen) && p.evaluation.consulted == consulted
    ensures ConsultedExact(IndexProof(ix, id, p, consulted).byDomain, IndexProof(ix, id, p, consulted).byRiskGroup,
                           seen + {Seen(id, p)})
  {
    ExactInsertAll(ix.byDomain, seen, ConsultedDomain, consulted.domains, id, p);
    ExactInsertAll(ix.byRiskGroup, seen, ConsultedGroup, consulted.riskGroups, id, p);
  }

  lemma CommitIndexes(r: Registry, request: Request, finished: Finished, acting: A.Acting, limits: Limits)
    ensures var c, consulted := Commit(r, request, finished, acting, limits), finished.evaluation.consulted;
            && (c.committed == None ==> c.registry.index == r.index)
            && (c.committed.Some? ==>
                  && c.registry.index == IndexProof(r.index, request, c.committed.value, consulted)
                  && c.committed.value.evaluation.consulted == consulted)
  {
  }

  /** A commit files its revision under exactly the domains and groups it lists as consulted. */
  lemma CommitKeepsExact(r: Registry, seen: set<Seen>, request: Request, finished: Finished, acting: A.Acting,
                         limits: Limits)
    requires ConsultedExact(r.index.byDomain, r.index.byRiskGroup, seen)
    ensures var c := Commit(r, request, finished, acting, limits);
            ConsultedExact(c.registry.index.byDomain, c.registry.index.byRiskGroup,
                           if c.committed == None then seen else seen + {Seen(request, c.committed.value)})
  {
    var c := Commit(r, request, finished, acting, limits);
    CommitIndexes(r, request, finished, acting, limits);
    if c.committed.Some? {
      IndexKeepsExact(r.index, seen, request, c.committed.value, finished.evaluation.consulted);
    }
  }

  // ----- Demoting ---------------------------------------------------------------------------

  /**
   * Exactly the affected proofs change, each from current to REVALIDATION_REQUIRED
   * with one reason, and no record loses its history or its bindings.
   */
  ghost predicate DemotesExactly(r: Registry, d: Demotion, reason: L.Currentness) {
    && d.registry.policies == r.policies && d.registry.proofs.Keys == r.proofs.Keys
    && (forall id | id in d.affected :: r.IsCurrent(id))
    && (forall id | id in r.proofs ::
          d.registry.proofs[id] == if id in d.affected
              then r.proofs[id].(current := DemoteProof(r.proofs[id].current, reason)) else r.proofs[id])
  }

  lemma DemoteIdsExactly(r: Registry, ids: set<ProofId>, reason: L.Currentness)
    requires reason != L.Currentness.CURRENT && forall id | id in ids :: r.IsCurrent(id)
    ensures DemotesExactly(r, Demotion(DemoteIds(r, ids, reason), ids), reason)
    ensures forall id :: DemoteIds(r, ids, reason).IsCurrent(id) <==> r.IsCurrent(id) && id !in ids
  {
    assert DemoteIds(r, ids, reason).proofs.Keys == r.proofs.Keys;
  }

  /** With the same indexes, fewer current proofs are still all found. */
  lemma NarrowingKeepsComplete(r: Registry, after: Registry)
    requires Complete(r) && after.index == r.index
    requires forall id | after.IsCurrent(id) :: r.IsCurrent(id) && after.proofs[id].current == r.proofs[id].current
    ensures Complete(after)
  {
  }

  lemma NarrowingKeepsConsulted(r: Registry, after: Registry, restored: set<Seen>)
    requires ConsultedComplete(r, restored)
    requires after.index.byDomain == r.index.byDomain && after.index.byRiskGroup == r.index.byRiskGroup
    requires forall id | after.IsCurrent(id) :: r.IsCurrent(id) && after.proofs[id].current == r.proofs[id].current
    ensures ConsultedComplete(after, restored)
  {
  }

  lemma DemoteIdsKeepsComplete(r: Registry, ids: set<ProofId>, reason: L.Currentness)
    requires Complete(r) && reason != L.Currentness.CURRENT && forall id | id in ids :: r.IsCurrent(id)
    ensures Complete(DemoteIds(r, ids, reason))
  {
    DemoteIdsExactly(r, ids, reason);
    NarrowingKeepsComplete(r, DemoteIds(r, ids, reason));
  }

  /** What `demote_path` leaves behind, compared with a scan of the whole registry. */
  lemma DemotePathIsScan(r: Registry, seen: set<Seen>, path: string)
    requires Complete(r) && Sound(r.index, seen)
    ensures var d := DemotePath(r, path);
            && DemotesExactly(r, d, L.Currentness.STALE_PATH_AUTHORITY)
            && Complete(d.registry) && d.registry.index == r.index
            && (forall id | d.registry.IsCurrent(id) :: !BindsPath(d.registry.proofs[id].current, path))
            && (forall id | id in d.affected :: SomeSeen(seen, id, path, BindsPath))
  {
    var ids := DemotePath(r, path).affected;
    DemoteIdsExactly(r, ids, L.Currentness.STALE_PATH_AUTHORITY);
    DemoteIdsKeepsComplete(r, ids, L.Currentness.STALE_PATH_AUTHORITY);
  }

  lemma DemoteBootIsScan(r: Registry, seen: set<Seen>, boot: string)
    requires Complete(r) && Sound(r.index, seen)
    ensures var d := DemoteBoot(r, boot);
            && DemotesExactly(r, d, L.Currentness.FENCED_PUBLISHER)
            && Complete(d.registry) && d.registry.index == r.index
            && (forall id | d.registry.IsCurrent(id) :: !BindsBoot(d.registry.proofs[id].current, boot))
            && (forall id | id in d.affected :: SomeSeen(seen, id, boot, BindsBoot))
  {
    var ids := DemoteBoot(r, boot).affected;
    DemoteIdsExactly(r, ids, L.Currentness.FENCED_PUBLISHER);
    DemoteIdsKeepsComplete(r, ids, L.Currentness.FENCED_PUBLISHER);
  }

  lemma DemotePolicyIsScan(r: Registry, seen: set<Seen>, policy: string, generation: nat)
    requires Complete(r) && Sound(r.index, seen)
    ensures var d := DemotePolicy(r, policy, generation);
            && DemotesExactly(r, d, L.Currentness.STALE_POLICY)
            && Complete(d.registry) && d.registry.index == r.index
            && (forall id | d.registry.IsCurrent(id) && BindsPolicy(d.registry.proofs[id].current, policy) ::
                  d.registry.proofs[id].current.dependencies.policyGeneration >= generation)
            && (forall id | id in d.affected :: SomeSeen(seen, id, policy, BindsPolicy))
  {
    var ids := DemotePolicy(r, policy, generation).affected;
    DemoteIdsExactly(r, ids, L.Currentness.STALE_POLICY);
    DemoteIdsKeepsComplete(r, ids, L.Currentness.STALE_POLICY);
  }

  lemma DemoteEntitiesIsScan(r: Registry, seen: set<Seen>, entities: seq<EntityRef>, generation: nat)
    requires Complete(r) && Sound(r.index, seen)
    ensures var d := DemoteEntities(r, entities, generation);
            && DemotesExactly(r, d, L.Currentness.STALE_TOPOLOGY)
            && Complete(d.registry) && d.registry.index == r.index
            && (forall id, e | d.registry.IsCurrent(id) && e in entities
                               && BindsEntity(d.registry.proofs[id].current, e) ::
                  d.registry.proofs[id].current.dependencies.topologyGeneration >= generation)
            && (forall id | id in d.affected :: exists e | e in entities :: SomeSeen(seen, id, e, BindsEntity))
  {
    var ids := DemoteEntities(r, entities, generation).affected;
    DemoteIdsExactly(r, ids, L.Currentness.STALE_TOPOLOGY);
    DemoteIdsKeepsComplete(r, ids, L.Currentness.STALE_TOPOLOGY);
  }

  /** Domain entries of loaded revisions may be missing, so here only the demoted proofs are characterised. */
  lemma DemoteDomainsIsJustified(r: Registry, seen: set<Seen>, domains: seq<string>, generation: nat)
    requires Complete(r) && Sound(r.index, seen)
    ensures var d := DemoteDomains(r, domains, generation);
            && DemotesExactly(r, d, L.Currentness.STALE_FAILURE_DOMAIN)
            && Complete(d.registry) && d.registry.index == r.index
            && (forall id, domain | d.registry.IsCurrent(id) && domain in domains
                                    && id in Lookup(r.index.byDomain, domain) ::
                  d.registry.proofs[id].current.dependencies.domainGeneration >= generation)
            && (forall id | id in d.affected :: exists domain | domain in domains ::
                  SomeSeen(seen, id, domain, NamesDomain))
  {
    var ids := DemoteDomains(r, domains, generation).affected;
    DemoteIdsExactly(r, ids, L.Currentness.STALE_FAILURE_DOMAIN);
    DemoteIdsKeepsComplete(r, ids, L.Currentness.STALE_FAILURE_DOMAIN);
  }

  /** Where what was consulted is indexed, no current proof that consulted one of these is left below the generation. */
  lemma DemoteDomainsIsScan(r: Registry, seen: set<Seen>, restored: set<Seen>, domains: seq<string>, generation: nat)
    requires Complete(r) && Sound(r.index, seen) && ConsultedComplete(r, restored)
    ensures var d := DemoteDomains(r, domains, generation);
            forall id, domain | d.registry.IsCurrent(id) && Seen(id, r.proofs[id].current) !in restored
                                && domain in domains && domain in r.proofs[id].current.evaluation.consulted.domains ::
              r.proofs[id].current.dependencies.domainGeneration >= generation
  {
    DemoteDomainsIsJustified(r, seen, domains, generation);
    var d := DemoteDomains(r, domains, generation);
    forall id, domain | d.registry.IsCurrent(id) && Seen(id, r.proofs[id].current) !in restored
                        && domain in domains && domain in r.proofs[id].current.evaluation.consulted.domains
      ensures r.proofs[id].current.dependencies.domainGeneration >= generation
    {
      assert r.IsCurrent(id) && d.registry.proofs[id] == r.proofs[id];
      assert ConsultedFound(r.index, id, r.proofs[id].current);
    }
  }

  lemma DropBelowLookup(m: Index<nat>, generation: nat, key: nat)
    ensures Lookup(DropBelow(m, generation), key) == if key >= generation then Lookup(m, key) else {}
  {
  }

  lemma JustifiedDropBelow(m: Index<nat>, seen: set<Seen>, binds: (Proof, nat) -> bool, generation: nat)
    requires Justified(m, seen, binds)
    ensures Justified(DropBelow(m, generation), seen, binds)
  {
    forall key: nat, id | id in Lookup(DropBelow(m, generation), key)
      ensures SomeSeen(seen, id, key, binds)
    {
      DropBelowLookup(m, generation, key);
    }
  }

  lemma DemoteTopologyGenerationIsScan(r: Registry, seen: set<Seen>, generation: nat)
    requires Complete(r) && Sound(r.index, seen)
    ensures var d := DemoteTopologyGeneration(r, generation);
            && DemotesExactly(r, d, L.Currentness.STALE_TOPOLOGY)
            && Complete(d.registry) && Sound(d.registry.index, seen)
            && (forall id | d.registry.IsCurrent(id) ::
                  d.registry.proofs[id].current.dependencies.topologyGeneration >= generation)
            && (forall id | id in d.affected :: exists key: nat | key < generation ::
                  SomeSeen<nat>(seen, id, key, BindsTopology))
  {
    var d := DemoteTopologyGeneration(r, generation);
    var demoted := DemoteIds(r, d.affected, L.Currentness.STALE_TOPOLOGY);
    DemoteIdsExactly(r, d.affected, L.Currentness.STALE_TOPOLOGY);
    DemoteIdsKeepsComplete(r, d.affected, L.Currentness.STALE_TOPOLOGY);
    JustifiedDropBelow(r.index.byTopology, seen, BindsTopology, generation);
    forall id | d.registry.IsCurrent(id)
      ensures d.registry.proofs[id].current.dependencies.topologyGeneration >= generation
      ensures Found(d.registry.index, id, d.registry.proofs[id].current)
    {
      assert demoted.IsCurrent(id) && r.IsCurrent(id);
      var key := r.proofs[id].current.dependencies.topologyGeneration;
      DropBelowLookup(r.index.byTopology, generation, key);
      assert id in Lookup(r.index.byTopology, key);
    }
    forall id | id in d.affected
      ensures exists key: nat | key < generation :: SomeSeen<nat>(seen, id, key, BindsTopology)
    {
      var key: nat :| key in r.index.byTopology && key < generation && id in r.index.byTopology[key];
      assert id in Lookup(r.index.byTopology, key);
      assert SomeSeen<nat>(seen, id, key, BindsTopology);
    }
  }

  lemma DemoteDomainGenerationIsScan(r: Registry, seen: set<Seen>, generation: nat)
    requires Complete(r) && Sound(r.index, seen)
    ensures var d := DemoteDomainGeneration(r, generation);
            && DemotesExactly(r, d, L.Currentness.STALE_FAILURE_DOMAIN)
            && Complete(d.registry) && Sound(d.registry.index, seen)
            && (forall id | d.registry.IsCurrent(id) ::
                  d.registry.proofs[id].current.dependencies.domainGeneration >= generation)
            && (forall id | id in d.affected :: exists key: nat | key < generation ::
                  SomeSeen<nat>(seen, id, key, BindsDomains))
  {
    var d := DemoteDomainGeneration(r, generation);
    var demoted := DemoteIds(r, d.affected, L.Currentness.STALE_FAILURE_DOMAIN);
    DemoteIdsExactly(r, d.affected, L.Currentness.STALE_FAILURE_DOMAIN);
    DemoteIdsKeepsComplete(r, d.affected, L.Currentness.STALE_FAILURE_DOMAIN);
    JustifiedDropBelow(r.index.byDomainGeneration, seen, BindsDomains, generation);
    forall id | d.registry.IsCurrent(id)
      ensures d.registry.proofs[id].current.dependencies.domainGeneration >= generation
      ensures Found(d.registry.index, id, d.registry.proofs[id].current)
    {
      assert demoted.IsCurrent(id) && r.IsCurrent(id);
      var key := r.proofs[id].current.dependencies.domainGeneration;
      DropBelowLookup(r.index.byDomainGeneration, generation, key);
      assert id in Lookup(r.index.byDomainGeneration, key);
    }
    forall id | id in d.affected
      ensures exists key: nat | key < generation :: SomeSeen<nat>(seen, id, key, BindsDomains)
    {
      var key: nat :| key in r.index.byDomainGeneration && key < generation && id in r.index.byDomainGeneration[key];
      assert id in Lookup(r.index.byDomainGeneration, key);
      assert SomeSeen<nat>(seen, id, key, BindsDomains);
    }
  }

  /**
   * While every revision is stored under its own identity, as commits do, the path and
   * policy demotions are exact: they demote what a scan would, and nothing else.
   */
  lemma DemotePathIsExact(r: Registry, seen: set<Seen>, path: string)
    requires Complete(r) && Sound(r.index, seen)
    requires forall s | s in seen :: s.id == s.revision.request
    requires forall id | r.IsCurrent(id) :: r.proofs[id].current.request == id
    ensures forall id ::
              id in DemotePath(r, path).affected <==> r.IsCurrent(id) && BindsPath(r.proofs[id].current, path)
  {
    forall id | id in Lookup(r.index.byPath, path)
      ensures path in PathsOf(id.paths)
    {
      assert SomeSeen(seen, id, path, BindsPath);
    }
  }

  lemma DemotePolicyIsExact(r: Registry, seen: set<Seen>, policy: string, generation: nat)
    requires Complete(r) && Sound(r.index, seen)
    requires forall s | s in seen :: s.id == s.revision.request
    requires forall id | r.IsCurrent(id) :: r.proofs[id].current.request == id
    ensures forall id :: id in DemotePolicy(r, policy, generation).affected <==>
              && r.IsCurrent(id) && BindsPolicy(r.proofs[id].current, policy)
              && r.proofs[id].current.dependencies.policyGeneration < generation
  {
    forall id | id in Lookup(r.index.byPolicy, policy)
      ensures id.policy == policy
    {
      assert SomeSeen(seen, id, policy, BindsPolicy);
    }
  }

  // ----- Refreshing and loading -------------------------------------------------------------------

  /** The second demotion of a refresh acts on what the first one left. */
  lemma DemoteTwice(r: Registry, first: set<ProofId>, second: set<ProofId>, why: L.Currentness, whyToo: L.Currentness)
    requires why != L.Currentness.CURRENT && whyToo != L.Currentness.CURRENT
    ensures var after := DemoteIds(DemoteIds(r, first, why), second, whyToo);
            && after.index == r.index && after.policies == r.policies
            && (forall id :: after.IsCurrent(id) <==> r.IsCurrent(id) && id !in first && id !in second)
            && (forall id | after.IsCurrent(id) :: after.proofs[id] == r.proofs[id])
  {
  }

  lemma RefreshKeepsComplete(r: Registry, live: set<ProofId>, stalePolicies: set<ProofId>, stalePaths: set<ProofId>)
    requires Complete(r)
    ensures var d := Refresh(r, live, stalePolicies, stalePaths);
            && Complete(d.registry) && d.registry.index == r.index && d.registry.policies == r.policies
            && d.affected == (set id | id in live && r.IsCurrent(id) && (id in stalePolicies || id in stalePaths))
            && (forall id :: d.registry.IsCurrent(id) <==> r.IsCurrent(id) && id !in d.affected)
            && (forall id | d.registry.IsCurrent(id) :: d.registry.proofs[id] == r.proofs[id])
  {
    var d := Refresh(r, live, stalePolicies, stalePaths);
    var policies := set id | id in live && r.IsCurrent(id) && id in stalePolicies;
    var paths := set id | id in live && r.IsCurrent(id) && id in stalePaths && id !in stalePolicies;
    DemoteTwice(r, policies, paths, L.Currentness.STALE_POLICY, L.Currentness.STALE_PATH_AUTHORITY);
    NarrowingKeepsComplete(r, d.registry);
  }

  /** Whatever the records were, after re-indexing every current proof is found. */
  lemma ReindexingCompletes(before: Indexes, after: Registry)
    requires Reindexed(before, after.proofs, after.index)
    ensures Complete(after)
  {
    forall id | after.IsCurrent(id)
      ensures Found(after.index, id, after.proofs[id].current)
    {
      var p := after.proofs[id].current;
      assert BindsPolicy(p, p.request.policy) && BindsBoot(p, p.provenance.boot);
      assert BindsTopology(p, p.dependencies.topologyGeneration) && BindsDomains(p, p.dependencies.domainGeneration);
    }
  }

  lemma FiledNone<K(!new)>(before: Index<K>, files: (Proof, K) -> bool)
    ensures Filed(before, before, map[], files)
  {
  }

  /** Inserting one more record under exactly the keys it is filed by. */
  lemma FiledOneMore<K(!new)>(before: Index<K>, after: Index<K>, proofs: map<ProofId, Record>,
                              files: (Proof, K) -> bool,
                              id: ProofId, record: Record, keys: seq<K>)
    requires Filed(before, after, proofs, files) && id !in proofs
    requires forall key :: key in keys <==> files(record.current, key)
    ensures Filed(before, InsertAll(after, keys, id), proofs[id := record], files)
  {
    forall other, key
      ensures other in Lookup(InsertAll(after, keys, id), key) <==>
                other in Lookup(before, key)
                || (other in proofs[id := record] && files(proofs[id := record][other].current, key))
    {
      LookupInsertAll(after, keys, id, key);
    }
  }

  lemma ReindexOneMore(before: Indexes, proofs: map<ProofId, Record>, ix: Indexes, id: ProofId, record: Record)
    requires Reindexed(before, proofs, ix) && id !in proofs
    ensures Reindexed(before, proofs[id := record], IndexProof(ix, id, record.current, ListedBy(record.current)))
  {
    var p := record.current;
    FiledOneMore(before.byPath, ix.byPath, proofs, BindsPath, id, record, PathsOf(p.request.paths));
    FiledOneMore(before.byDomain, ix.byDomain, proofs, ListsDomain, id, record, ListedBy(p).domains);
    FiledOneMore(before.byRiskGroup, ix.byRiskGroup, proofs, ListsRiskGroup, id, record, ListedBy(p).riskGroups);
    FiledOneMore(before.byEntity, ix.byEntity, proofs, BindsEntity, id, record, p.dependencies.topologyEntities);
    FiledOneMore(before.byPolicy, ix.byPolicy, proofs, BindsPolicy, id, record, [p.request.policy]);
    FiledOneMore(before.byBoot, ix.byBoot, proofs, BindsBoot, id, record, [p.provenance.boot]);
    FiledOneMore(before.byTopology, ix.byTopology, proofs, BindsTopology, id, record,
                 [p.dependencies.topologyGeneration]);
    FiledOneMore(before.byDomainGeneration, ix.byDomainGeneration, proofs, BindsDomains, id, record,
                 [p.dependencies.domainGeneration]);
    InsertIsInsertAll(ix.byPolicy, p.request.policy, id);
    InsertIsInsertAll(ix.byBoot, p.provenance.boot, id);
    InsertIsInsertAll(ix.byTopology, p.dependencies.topologyGeneration, id);
    InsertIsInsertAll(ix.byDomainGeneration, p.dependencies.domainGeneration, id);
  }

  ghost function RecordsSeen(proofs: map<ProofId, Record>): set<Seen> {
    set id | id in proofs :: Seen(id, proofs[id].current)
  }

  lemma JustifiedByRecords<K(!new)>(before: Index<K>, after: Index<K>, seen: set<Seen>, proofs: map<ProofId, Record>,
                                    files: (Proof, K) -> bool, binds: (Proof, K) -> bool)
    requires Justified(before, seen, binds) && Filed(before, after, proofs, files)
    requires forall p, key :: files(p, key) ==> binds(p, key)
    ensures Justified(after, seen + RecordsSeen(proofs), binds)
  {
    forall key, id | id in Lookup(after, key)
      ensures SomeSeen(seen + RecordsSeen(proofs), id, key, binds)
    {
      if id in Lookup(before, key) {
        assert SomeSeen(seen, id, key, binds);
      } else {
        assert Seen(id, proofs[id].current) in RecordsSeen(proofs);
      }
    }
  }

  /** Re-indexing justifies its entries by the records it found. */
  lemma ReindexingIsSound(before: Indexes, after: Registry, seen: set<Seen>)
    requires Sound(before, seen) && Reindexed(before, after.proofs, after.index)
    ensures Sound(after.index, seen + RecordsSeen(after.proofs))
  {
    JustifiedByRecords(before.byPath, after.index.byPath, seen, after.proofs, BindsPath, BindsPath);
    JustifiedByRecords(before.byDomain, after.index.byDomain, seen, after.proofs, ListsDomain, NamesDomain);
    JustifiedByRecords(before.byRiskGroup, after.index.byRiskGroup, seen, after.proofs, ListsRiskGroup, NamesRiskGroup);
    JustifiedByRecords(before.byEntity, after.index.byEntity, seen, after.proofs, BindsEntity, BindsEntity);
    JustifiedByRecords(before.byPolicy, after.index.byPolicy, seen, after.proofs, BindsPolicy, BindsPolicy);
    JustifiedByRecords(before.byBoot, after.index.byBoot, seen, after.proofs, BindsBoot, BindsBoot);
    JustifiedByRecords(before.byTopology, after.index.byTopology, seen, after.proofs, BindsTopology, BindsTopology);
    JustifiedByRecords(before.byDomainGeneration, after.index.byDomainGeneration, seen, after.proofs, BindsDomains,
                       BindsDomains);
  }

  // ----- What a load leaves of the old records -----------------------------------------------------

  lemma {:induction false} LoadedOrKept(proofs: map<ProofId, Record>, loaded: seq<Proof>, id: ProofId)
    requires id in LoadProofs(proofs, loaded)
    ensures var p := LoadProofs(proofs, loaded)[id].current;
            (p in loaded && p.id == id) || (id in proofs && proofs[id].current == p)
    decreases |loaded|
  {
    if loaded != [] {
      var last := loaded[|loaded| - 1];
      if id != last.id {
        LoadedOrKept(proofs, loaded[..|loaded| - 1], id);
        assert loaded == loaded[..|loaded| - 1] + [last];
      }
    }
  }

  lemma {:induction false} HistoryKeepsCurrent(proofs: map<ProofId, Record>, loaded: seq<(ProofId, seq<Proof>)>)
    ensures LoadHistory(proofs, loaded).Keys == proofs.Keys
    ensures forall id | id in proofs :: LoadHistory(proofs, loaded)[id].current == proofs[id].current
    decreases |loaded|
  {
    if loaded != [] {
      HistoryKeepsCurrent(proofs, loaded[..|loaded| - 1]);
    }
  }

  lemma {:induction false} LoadedPolicyOrKept(policies: map<string, Policy>, loaded: seq<Policy>, id: string)
    requires id in LoadPolicies(policies, loaded)
    ensures var p := LoadPolicies(policies, loaded)[id];
            (p in loaded && p.id == id) || (id in policies && policies[id] == p)
    decreases |loaded|
  {
    if loaded != [] {
      var last := loaded[|loaded| - 1];
      if id != last.id {
        LoadedPolicyOrKept(policies, loaded[..|loaded| - 1], id);
        assert loaded == loaded[..|loaded| - 1] + [last];
      }
    }
  }

  lemma {:induction false} UnloadedPolicyStays(policies: map<string, Policy>, loaded: seq<Policy>, id: string)
    requires forall p | p in loaded :: p.id != id
    ensures id in LoadPolicies(policies, loaded) <==> id in policies
    ensures id in policies ==> LoadPolicies(policies, loaded)[id] == policies[id]
    decreases |loaded|
  {
    if loaded != [] {
      assert loaded[|loaded| - 1] in loaded;
      UnloadedPolicyStays(policies, loaded[..|loaded| - 1], id);
    }
  }

  /** Entries for what was consulted survive re-indexing. */
  lemma ReindexingKeepsConsulted(r: Registry, restored: set<Seen>, after: Registry, more: set<Seen>)
    requires ConsultedComplete(r, restored) && Reindexed(r.index, after.proofs, after.index) && restored <= more
    requires forall id | after.IsCurrent(id) && Seen(id, after.proofs[id].current) !in more ::
               r.IsCurrent(id) && after.proofs[id].current == r.proofs[id].current
    ensures ConsultedComplete(after, more)
  {
    forall id | after.IsCurrent(id) && Seen(id, after.proofs[id].current) !in more
      ensures ConsultedFound(after.index, id, after.proofs[id].current)
    {
      assert ConsultedFound(r.index, id, r.proofs[id].current);
    }
  }
}
