/**
 * The three evidence views while writers run.  `world` gives what the views would
 * serve at every instant; each read happens at some instant not before the previous
 * one, so any writer may step in between two reads.
 */
module LiveViews {
  import opened Evidence

  class Views {
    const world: nat -> Snapshot
    var now: nat

    constructor (world: nat -> Snapshot)
      ensures this.world == world && now == 0
    {
      this.world := world;
      now := 0;
    }

    /** Structure and failure-domain evidence did not move between two instants. */
    ghost predicate Steady(lo: nat, hi: nat, facts: Facts) {
      forall t: nat | lo <= t <= hi :: world(t).facts == facts
    }

    /** Writers may run before the next read. */
    method Wait()
      modifies this`now
      ensures now >= old(now)
    {
      var later: nat :| later >= now;
      now := later;
    }

    method TopologyGeneration() returns (generation: nat)
      modifies this`now
      ensures now >= old(now) && generation == world(now).facts.topologyGeneration
    {
      Wait();
      generation := world(now).facts.topologyGeneration;
    }

    method DomainGeneration() returns (generation: nat)
      modifies this`now
      ensures now >= old(now) && generation == world(now).facts.domainGeneration
    {
      Wait();
      generation := world(now).facts.domainGeneration;
    }

    method Composition(path: string) returns (composition: Option<PathComposition>)
      modifies this`now
      ensures now >= old(now) && composition == world(now).facts.Composition(path)
    {
      Wait();
      composition := world(now).facts.Composition(path);
    }

    method DomainMembership(entity: EntityRef, relation: DomainRelation) returns (membership: Membership)
      modifies this`now
      ensures now >= old(now) && membership == world(now).facts.DomainMembership(entity, relation)
    {
      Wait();
      membership := world(now).facts.DomainMembership(entity, relation);
    }

    method RiskGroupMembership(entity: EntityRef) returns (membership: Membership)
      modifies this`now
      ensures now >= old(now) && membership == world(now).facts.RiskGroupMembership(entity)
    {
      Wait();
      membership := world(now).facts.RiskGroupMembership(entity);
    }

    method CurrentGeneration(path: string) returns (generation: Option<nat>)
      modifies this`now
      ensures now >= old(now) && generation == world(now).CurrentGeneration(path)
    {
      Wait();
      generation := world(now).CurrentGeneration(path);
    }

    method IsAuthorized(path: string, generation: nat) returns (authorized: bool)
      modifies this`now
      ensures now >= old(now) && authorized == world(now).IsAuthorized(path, generation)
    {
      Wait();
      authorized := world(now).IsAuthorized(path, generation);
    }
  }
}
