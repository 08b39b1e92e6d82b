/** What a load can find: exactly what some accepted store file holds, given back in the registry's terms. */
module Loading {
  import opened Bytes
  import opened Evidence
  import opened Records
  import opened Store
  import opened Snapshots
  import opened Sizes
  import Persistence
  import R = Registry

  /** How snapshots are sealed, and which canonical request the text of a proof identity stands for. */
  datatype Codec = Codec(seal: Seal, identify: string -> R.ProofId)

  /** The revision read from a record: the record says nothing of what the evaluation consulted. */
  ghost predicate Restores(stored: StoredProof, p: R.Proof, codec: Codec) {
    && Persistence.Holds(stored, p) && p.id == codec.identify(stored.head.id)
    && p.evaluation.consulted == Consulted([], [])
  }

  ghost predicate RestoresEach(stored: seq<StoredProof>, proofs: seq<R.Proof>, codec: Codec) {
    |stored| == |proofs| && forall k | 0 <= k < |stored| :: Restores(stored[k], proofs[k], codec)
  }

  ghost predicate RestoresHistory(h: HistoryRecord, entry: (R.ProofId, seq<R.Proof>), codec: Codec) {
    entry.0 == codec.identify(h.proof) && RestoresEach(h.revisions, entry.1, codec)
  }

  /** What a load takes of a decoded store; sessions, attempts and snapshots it leaves. */
  ghost predicate Carries(stored: Contents<ProofSnapshot>, contents: R.StoreContents, codec: Codec) {
    && contents.epoch == stored.epoch && contents.policies == stored.policies
    && contents.fencedBoots == stored.fencedBoots
    && RestoresEach(stored.proofs, contents.proofs, codec)
    && |contents.history| == |stored.history|
    && forall k | 0 <= k < |stored.history| :: RestoresHistory(stored.history[k], contents.history[k], codec)
  }

  /** These bytes are accepted as a store, and a load of them finds these contents. */
  ghost predicate Holding(limits: Limits, codec: Codec, data: Buffer, contents: R.StoreContents) {
    var decoded := DecodeStore(data, limits, SnapshotTaker(limits, codec.seal));
    decoded.Success? && Carries(decoded.value, contents, codec)
  }

  /** Some bytes do. */
  ghost function Loadable(limits: Limits, codec: Codec): R.StoreContents -> bool {
    (contents: R.StoreContents) => exists data :: Holding(limits, codec, data, contents)
  }

  lemma AloneIsLoadable(p: Policy, limits: Limits, codec: Codec)
    requires limits.maxRequiredClasses < TWO_32 && limits.maxStoreRecords > 0 && StoreFits(p, limits)
    ensures Loadable(limits, codec)(R.OnlyPolicy(p))
  {
    AloneComesBack(p, limits, codec.seal);
    assert Holding(limits, codec, EncodeStore(Alone(p), PutSnapshot), R.OnlyPolicy(p));
  }

  /** A load finds a policy in some store exactly when the store that holds it alone fits. */
  lemma LoadableIffStoreFits(p: Policy, limits: Limits, codec: Codec)
    requires limits.maxRequiredClasses < TWO_32 && limits.maxStoreRecords > 0
    ensures (exists contents | Loadable(limits, codec)(contents) :: p in contents.policies) <==> StoreFits(p, limits)
  {
    if StoreFits(p, limits) {
      AloneIsLoadable(p, limits, codec);
      assert p in R.OnlyPolicy(p).policies;
    }
    forall contents | Loadable(limits, codec)(contents) && p in contents.policies
      ensures StoreFits(p, limits)
    {
      var data :| Holding(limits, codec, data, contents);
      assert Brings(data, limits, codec.seal, p);
      BroughtIffStoreFits(p, limits, codec.seal);
    }
  }
}
