/** The two digests as they are computed: a buffer hashed at once, and many small updates. */
module IdentityDigests {
  import opened Bytes
  import opened Evidence
  import opened Registry
  import opened Digest
  import opened Identity
  import P = RecordParts
  import Q = Records
  import W = RecordWriters

  // ----- Small updates ---------------------------------------------------------------------------------

  /** Updating and then absorbing the rest is absorbing both joined. */
  method UpdateRaw(d: DigestState, data: Buffer)
    requires d.Valid()
    modifies d
    ensures d.Valid()
    ensures forall rest: Buffer {:trigger data + rest} ::
              AbsorbAll(Stored(d.bytes), rest) == AbsorbAll(old(Stored(d.bytes)), data + rest)
  {
    ghost var before := Stored(d.bytes);
    d.Update(data);
    forall rest: Buffer
      ensures AbsorbAll(Stored(d.bytes), rest) == AbsorbAll(before, data + rest)
    {
      Streaming(before, data, rest);
    }
  }

  method UpdateOctet(d: DigestState, b: Byte)
    requires d.Valid()
    modifies d
    ensures d.Valid()
    ensures forall rest: Buffer {:trigger P.PutByte(b, rest)} ::
              AbsorbAll(Stored(d.bytes), rest) == AbsorbAll(old(Stored(d.bytes)), P.PutByte(b, rest))
  {
    UpdateRaw(d, [b]);
  }

  method UpdateFlag(d: DigestState, flag: bool)
    requires d.Valid()
    modifies d
    ensures d.Valid()
    ensures forall rest: Buffer {:trigger PutBool(flag, rest)} ::
              AbsorbAll(Stored(d.bytes), rest) == AbsorbAll(old(Stored(d.bytes)), PutBool(flag, rest))
  {
    UpdateRaw(d, [if flag then 1 else 0]);
  }

  /** `update_u32`. */
  method UpdateWord(d: DigestState, value: nat)
    requires d.Valid()
    modifies d
    ensures d.Valid()
    ensures forall rest: Buffer {:trigger PutWord(value, rest)} ::
              AbsorbAll(Stored(d.bytes), rest) == AbsorbAll(old(Stored(d.bytes)), PutWord(value, rest))
  {
    UpdateRaw(d, LittleEndian(value, 4));
  }

  /** `update_u64`. */
  method UpdateLong(d: DigestState, value: nat)
    requires d.Valid()
    modifies d
    ensures d.Valid()
    ensures forall rest: Buffer {:trigger P.PutLong(value, rest)} ::
              AbsorbAll(Stored(d.bytes), rest) == AbsorbAll(old(Stored(d.bytes)), P.PutLong(value, rest))
  {
    UpdateRaw(d, LittleEndian(value, 8));
  }

  /** `update_varint`: the groups are laid out first and absorbed at once. */
  method UpdateVarint(d: DigestState, value: nat)
    requires d.Valid()
    modifies d
    ensures d.Valid()
    ensures forall rest: Buffer {:trigger PutVarint(value, rest)} ::
              AbsorbAll(Stored(d.bytes), rest) == AbsorbAll(old(Stored(d.bytes)), PutVarint(value, rest))
  {
    var writer := new ByteWriter();
    writer.WriteVarint(value);
    assert writer.data == PutVarint(value, []);
    UpdateRaw(d, writer.data);
    forall rest: Buffer
      ensures PutVarint(value, rest) == writer.data + rest
    {
      PutVarintAppends(value, rest);
    }
  }

  /** `update_bytes`: the length, then the bytes unless there are none. */
  method UpdateBytes(d: DigestState, value: Buffer)
    requires d.Valid()
    modifies d
    ensures d.Valid()
    ensures forall rest: Buffer {:trigger PutBytes(value, rest)} ::
              AbsorbAll(Stored(d.bytes), rest) == AbsorbAll(old(Stored(d.bytes)), PutBytes(value, rest))
  {
    UpdateVarint(d, |value|);
    if |value| != 0 {
      UpdateRaw(d, value);
    } else {
      assert forall rest: Buffer {:trigger PutBytes(value, rest)} :: value + rest == rest;
    }
  }

  method UpdateText(d: DigestState, text: string)
    requires d.Valid()
    modifies d
    ensures d.Valid()
    ensures forall rest: Buffer {:trigger P.PutText(text, rest)} ::
              AbsorbAll(Stored(d.bytes), rest) == AbsorbAll(old(Stored(d.bytes)), P.PutText(text, rest))
  {
    UpdateBytes(d, P.Octets(text));
  }

  // ----- Contents --------------------------------------------------------------------------------------

  method AbsorbIndices(d: DigestState, indices: seq<nat>)
    requires d.Valid()
    modifies d
    ensures d.Valid()
    ensures forall rest: Buffer {:trigger P.PutMany(P.PutIndex, indices, rest)} ::
              AbsorbAll(Stored(d.bytes), rest) == AbsorbAll(old(Stored(d.bytes)), P.PutMany(P.PutIndex, indices, rest))
  {
    ghost var start := Stored(d.bytes);
    for i := 0 to |indices|
      invariant d.Valid()
      invariant forall rest: Buffer {:trigger P.PutMany(P.PutIndex, indices, rest)} ::
                  AbsorbAll(Stored(d.bytes), P.PutMany(P.PutIndex, indices[i..], rest))
                      == AbsorbAll(start, P.PutMany(P.PutIndex, indices, rest))
    {
      ghost var before := Stored(d.bytes);
      UpdateVarint(d, indices[i]);
      forall rest: Buffer
        ensures AbsorbAll(Stored(d.bytes), P.PutMany(P.PutIndex, indices[i + 1..], rest))
                == AbsorbAll(before, P.PutMany(P.PutIndex, indices[i..], rest))
      {
        assert indices[i..][1..] == indices[i + 1..];
        assert P.PutMany(P.PutIndex, indices[i..], rest)
            == P.PutIndex(indices[i], P.PutMany(P.PutIndex, indices[i + 1..], rest));
      }
    }
  }

  method UpdateIndices(d: DigestState, indices: seq<nat>)
    requires d.Valid()
    modifies d
    ensures d.Valid()
    ensures forall rest: Buffer {:trigger P.PutList(P.PutIndex, indices, rest)} ::
              AbsorbAll(Stored(d.bytes), rest) == AbsorbAll(old(Stored(d.bytes)), P.PutList(P.PutIndex, indices, rest))
  {
    UpdateVarint(d, |indices|);
    AbsorbIndices(d, indices);
  }

  /** `digest_conflict`. */
  method UpdateConflict(d: DigestState, c: SharedResource)
    requires d.Valid()
    modifies d
    ensures d.Valid()
    ensures forall rest: Buffer {:trigger P.PutConflict(c, rest)} ::
              AbsorbAll(Stored(d.bytes), rest) == AbsorbAll(old(Stored(d.bytes)), P.PutConflict(c, rest))
  {
    UpdateOctet(d, P.Code(P.KINDS, c.kind));
    UpdateOctet(d, P.Code(P.RELATIONS, c.relation));
    UpdateText(d, c.id);
    UpdateIndices(d, c.paths);
  }

  method AbsorbConflicts(d: DigestState, conflicts: seq<SharedResource>)
    requires d.Valid()
    modifies d
    ensures d.Valid()
    ensures forall rest: Buffer {:trigger P.PutMany(P.PutConflict, conflicts, rest)} ::
              AbsorbAll(Stored(d.bytes), rest)
                  == AbsorbAll(old(Stored(d.bytes)), P.PutMany(P.PutConflict, conflicts, rest))
  {
    ghost var start := Stored(d.bytes);
    for i := 0 to |conflicts|
      invariant d.Valid()
      invariant forall rest: Buffer {:trigger P.PutMany(P.PutConflict, conflicts, rest)} ::
                  AbsorbAll(Stored(d.bytes), P.PutMany(P.PutConflict, conflicts[i..], rest))
                      == AbsorbAll(start, P.PutMany(P.PutConflict, conflicts, rest))
    {
      ghost var before := Stored(d.bytes);
      UpdateConflict(d, conflicts[i]);
      forall rest: Buffer
        ensures AbsorbAll(Stored(d.bytes), P.PutMany(P.PutConflict, conflicts[i + 1..], rest))
                == AbsorbAll(before, P.PutMany(P.PutConflict, conflicts[i..], rest))
      {
        assert conflicts[i..][1..] == conflicts[i + 1..];
        assert P.PutMany(P.PutConflict, conflicts[i..], rest)
            == P.PutConflict(conflicts[i], P.PutMany(P.PutConflict, conflicts[i + 1..], rest));
      }
    }
  }

  method UpdateConflicts(d: DigestState, conflicts: seq<SharedResource>)
    requires d.Valid()
    modifies d
    ensures d.Valid()
    ensures forall rest: Buffer {:trigger P.PutList(P.PutConflict, conflicts, rest)} ::
              AbsorbAll(Stored(d.bytes), rest)
                  == AbsorbAll(old(Stored(d.bytes)), P.PutList(P.PutConflict, conflicts, rest))
  {
    UpdateVarint(d, |conflicts|);
    AbsorbConflicts(d, conflicts);
  }

  /** `digest_class_result`. */
  method UpdateClassContent(d: DigestState, c: ClassContent)
    requires d.Valid()
    modifies d
    ensures d.Valid()
    ensures forall rest: Buffer {:trigger PutClassContent(c, rest)} ::
              AbsorbAll(Stored(d.bytes), rest) == AbsorbAll(old(Stored(d.bytes)), PutClassContent(c, rest))
  {
    UpdateOctet(d, P.Code(ALL_CLASSES, c.klass));
    UpdateOctet(d, P.Code(P.OUTCOMES, c.outcome));
    UpdateFlag(d, c.evidenceComplete);
    UpdateConflicts(d, c.shared);
  }

  method AbsorbClassContents(d: DigestState, classes: seq<ClassContent>)
    requires d.Valid()
    modifies d
    ensures d.Valid()
    ensures forall rest: Buffer {:trigger P.PutMany(PutClassContent, classes, rest)} ::
              AbsorbAll(Stored(d.bytes), rest)
                  == AbsorbAll(old(Stored(d.bytes)), P.PutMany(PutClassContent, classes, rest))
  {
    ghost var start := Stored(d.bytes);
    for i := 0 to |classes|
      invariant d.Valid()
      invariant forall rest: Buffer {:trigger P.PutMany(PutClassContent, classes, rest)} ::
                  AbsorbAll(Stored(d.bytes), P.PutMany(PutClassContent, classes[i..], rest))
                      == AbsorbAll(start, P.PutMany(PutClassContent, classes, rest))
    {
      ghost var before := Stored(d.bytes);
      UpdateClassContent(d, classes[i]);
      forall rest: Buffer
        ensures AbsorbAll(Stored(d.bytes), P.PutMany(PutClassContent, classes[i + 1..], rest))
                == AbsorbAll(before, P.PutMany(PutClassContent, classes[i..], rest))
      {
        assert classes[i..][1..] == classes[i + 1..];
        assert P.PutMany(PutClassContent, classes[i..], rest)
            == PutClassContent(classes[i], P.PutMany(PutClassContent, classes[i + 1..], rest));
      }
    }
  }

  method UpdateClassContents(d: DigestState, classes: seq<ClassContent>)
    requires d.Valid()
    modifies d
    ensures d.Valid()
    ensures forall rest: Buffer {:trigger P.PutList(PutClassContent, classes, rest)} ::
              AbsorbAll(Stored(d.bytes), rest)
                  == AbsorbAll(old(Stored(d.bytes)), P.PutList(PutClassContent, classes, rest))
  {
    UpdateVarint(d, |classes|);
    AbsorbClassContents(d, classes);
  }

  method UpdateCellContent(d: DigestState, c: CellContent)
    requires d.Valid()
    modifies d
    ensures d.Valid()
    ensures forall rest: Buffer {:trigger PutCellContent(c, rest)} ::
              AbsorbAll(Stored(d.bytes), rest) == AbsorbAll(old(Stored(d.bytes)), PutCellContent(c, rest))
  {
    UpdateFlag(d, c.independent);
    UpdateFlag(d, c.evidenceComplete);
    UpdateClassContents(d, c.classes);
  }

  method AbsorbCells(d: DigestState, cells: seq<CellContent>)
    requires d.Valid()
    modifies d
    ensures d.Valid()
    ensures forall rest: Buffer {:trigger P.PutMany(PutCellContent, cells, rest)} ::
              AbsorbAll(Stored(d.bytes), rest)
                  == AbsorbAll(old(Stored(d.bytes)), P.PutMany(PutCellContent, cells, rest))
  {
    ghost var start := Stored(d.bytes);
    for i := 0 to |cells|
      invariant d.Valid()
      invariant forall rest: Buffer {:trigger P.PutMany(PutCellContent, cells, rest)} ::
                  AbsorbAll(Stored(d.bytes), P.PutMany(PutCellContent, cells[i..], rest))
                      == AbsorbAll(start, P.PutMany(PutCellContent, cells, rest))
    {
      ghost var before := Stored(d.bytes);
      UpdateCellContent(d, cells[i]);
      forall rest: Buffer
        ensures AbsorbAll(Stored(d.bytes), P.PutMany(PutCellContent, cells[i + 1..], rest))
                == AbsorbAll(before, P.PutMany(PutCellContent, cells[i..], rest))
      {
        assert cells[i..][1..] == cells[i + 1..];
        assert P.PutMany(PutCellContent, cells[i..], rest)
            == PutCellContent(cells[i], P.PutMany(PutCellContent, cells[i + 1..], rest));
      }
    }
  }

  method UpdateCells(d: DigestState, cells: seq<CellContent>)
    requires d.Valid()
    modifies d
    ensures d.Valid()
    ensures forall rest: Buffer {:trigger P.PutList(PutCellContent, cells, rest)} ::
              AbsorbAll(Stored(d.bytes), rest)
                  == AbsorbAll(old(Stored(d.bytes)), P.PutList(PutCellContent, cells, rest))
  {
    UpdateVarint(d, |cells|);
    AbsorbCells(d, cells);
  }

  method UpdateRef(d: DigestState, ref: PathRef)
    requires d.Valid()
    modifies d
    ensures d.Valid()
    ensures forall rest: Buffer {:trigger Q.PutRef(ref, rest)} ::
              AbsorbAll(Stored(d.bytes), rest) == AbsorbAll(old(Stored(d.bytes)), Q.PutRef(ref, rest))
  {
    UpdateText(d, ref.path);
    UpdateLong(d, ref.generation);
  }

  method AbsorbRefs(d: DigestState, refs: seq<PathRef>)
    requires d.Valid()
    modifies d
    ensures d.Valid()
    ensures forall rest: Buffer {:trigger P.PutMany(Q.PutRef, refs, rest)} ::
              AbsorbAll(Stored(d.bytes), rest) == AbsorbAll(old(Stored(d.bytes)), P.PutMany(Q.PutRef, refs, rest))
  {
    ghost var start := Stored(d.bytes);
    for i := 0 to |refs|
      invariant d.Valid()
      invariant forall rest: Buffer {:trigger P.PutMany(Q.PutRef, refs, rest)} ::
                  AbsorbAll(Stored(d.bytes), P.PutMany(Q.PutRef, refs[i..], rest))
                      == AbsorbAll(start, P.PutMany(Q.PutRef, refs, rest))
    {
      ghost var before := Stored(d.bytes);
      UpdateRef(d, refs[i]);
      forall rest: Buffer
        ensures AbsorbAll(Stored(d.bytes), P.PutMany(Q.PutRef, refs[i + 1..], rest))
                == AbsorbAll(before, P.PutMany(Q.PutRef, refs[i..], rest))
      {
        assert refs[i..][1..] == refs[i + 1..];
        assert P.PutMany(Q.PutRef, refs[i..], rest) == Q.PutRef(refs[i], P.PutMany(Q.PutRef, refs[i + 1..], rest));
      }
    }
  }

  method UpdateRefs(d: DigestState, refs: seq<PathRef>)
    requires d.Valid()
    modifies d
    ensures d.Valid()
    ensures forall rest: Buffer {:trigger P.PutList(Q.PutRef, refs, rest)} ::
              AbsorbAll(Stored(d.bytes), rest) == AbsorbAll(old(Stored(d.bytes)), P.PutList(Q.PutRef, refs, rest))
  {
    UpdateVarint(d, |refs|);
    AbsorbRefs(d, refs);
  }

  method UpdateRequest(d: DigestState, r: Request)
    requires d.Valid()
    modifies d
    ensures d.Valid()
    ensures forall rest: Buffer {:trigger PutRequest(r, rest)} ::
              AbsorbAll(Stored(d.bytes), rest) == AbsorbAll(old(Stored(d.bytes)), PutRequest(r, rest))
  {
    UpdateText(d, r.policy);
    UpdateLong(d, r.policyGeneration);
    UpdateLong(d, |r.paths|);
    AbsorbRefs(d, r.paths);
  }

  method UpdateLimit(d: DigestState, notice: Option<LimitNotice>)
    requires d.Valid()
    modifies d
    ensures d.Valid()
    ensures forall rest: Buffer {:trigger Q.PutOption(Q.PutNotice, notice, rest)} ::
              AbsorbAll(Stored(d.bytes), rest)
                  == AbsorbAll(old(Stored(d.bytes)), Q.PutOption(Q.PutNotice, notice, rest))
  {
    UpdateFlag(d, notice.Some?);
    if notice.Some? {
      UpdateOctet(d, P.Code(P.BOUNDS, notice.value.bound));
      UpdateLong(d, notice.value.observed);
      UpdateLong(d, notice.value.allowed);
    }
  }

  method UpdateSubset(d: DigestState, w: WitnessSubset)
    requires d.Valid()
    modifies d
    ensures d.Valid()
    ensures forall rest: Buffer {:trigger PutSubset(w, rest)} ::
              AbsorbAll(Stored(d.bytes), rest) == AbsorbAll(old(Stored(d.bytes)), PutSubset(w, rest))
  {
    UpdateFlag(d, w.present);
    UpdateLong(d, w.requestedK);
    UpdateLong(d, w.achieved);
    UpdateFlag(d, w.maximumExact);
    UpdateIndices(d, w.indices);
  }

  method UpdateEntity(d: DigestState, e: EntityRef)
    requires d.Valid()
    modifies d
    ensures d.Valid()
    ensures forall rest: Buffer {:trigger Q.PutEntity(e, rest)} ::
              AbsorbAll(Stored(d.bytes), rest) == AbsorbAll(old(Stored(d.bytes)), Q.PutEntity(e, rest))
  {
    UpdateOctet(d, P.Code(P.ENTITY_KINDS, e.kind));
    UpdateText(d, e.id);
  }

  method AbsorbEntities(d: DigestState, entities: seq<EntityRef>)
    requires d.Valid()
    modifies d
    ensures d.Valid()
    ensures forall rest: Buffer {:trigger P.PutMany(Q.PutEntity, entities, rest)} ::
              AbsorbAll(Stored(d.bytes), rest)
                  == AbsorbAll(old(Stored(d.bytes)), P.PutMany(Q.PutEntity, entities, rest))
  {
    ghost var start := Stored(d.bytes);
    for i := 0 to |entities|
      invariant d.Valid()
      invariant forall rest: Buffer {:trigger P.PutMany(Q.PutEntity, entities, rest)} ::
                  AbsorbAll(Stored(d.bytes), P.PutMany(Q.PutEntity, entities[i..], rest))
                      == AbsorbAll(start, P.PutMany(Q.PutEntity, entities, rest))
    {
      ghost var before := Stored(d.bytes);
      UpdateEntity(d, entities[i]);
      forall rest: Buffer
        ensures AbsorbAll(Stored(d.bytes), P.PutMany(Q.PutEntity, entities[i + 1..], rest))
                == AbsorbAll(before, P.PutMany(Q.PutEntity, entities[i..], rest))
      {
        assert entities[i..][1..] == entities[i + 1..];
        assert P.PutMany(Q.PutEntity, entities[i..], rest)
            == Q.PutEntity(entities[i], P.PutMany(Q.PutEntity, entities[i + 1..], rest));
      }
    }
  }

  method UpdateEntities(d: DigestState, entities: seq<EntityRef>)
    requires d.Valid()
    modifies d
    ensures d.Valid()
    ensures forall rest: Buffer {:trigger P.PutList(Q.PutEntity, entities, rest)} ::
              AbsorbAll(Stored(d.bytes), rest)
                  == AbsorbAll(old(Stored(d.bytes)), P.PutList(Q.PutEntity, entities, rest))
  {
    UpdateVarint(d, |entities|);
    AbsorbEntities(d, entities);
  }

  method UpdateDependencies(d: DigestState, v: Dependencies)
    requires d.Valid()
    modifies d
    ensures d.Valid()
    ensures forall rest: Buffer {:trigger Q.PutDependencies(v, rest)} ::
              AbsorbAll(Stored(d.bytes), rest) == AbsorbAll(old(Stored(d.bytes)), Q.PutDependencies(v, rest))
  {
    UpdateLong(d, v.policyGeneration);
    UpdateLong(d, v.topologyGeneration);
    UpdateLong(d, v.domainGeneration);
    UpdateLong(d, v.epoch);
    UpdateOctet(d, P.Code(P.EXEMPTIONS, v.endpointExemption));
    UpdateRefs(d, v.paths);
    UpdateEntities(d, v.topologyEntities);
  }

  method UpdateContent(d: DigestState, c: SemanticContent)
    requires d.Valid()
    modifies d
    ensures d.Valid()
    ensures forall rest: Buffer {:trigger PutContent(c, rest)} ::
              AbsorbAll(Stored(d.bytes), rest) == AbsorbAll(old(Stored(d.bytes)), PutContent(c, rest))
  {
    UpdateRequest(d, c.request);
    UpdateOctet(d, P.Code(P.OUTCOMES, c.outcome));
    UpdateLimit(d, c.limit);
    UpdateClassContents(d, c.classes);
    UpdateClassContents(d, c.advisories);
    UpdateConflicts(d, c.conflicts);
    UpdateSubset(d, c.subset);
    UpdateCells(d, c.cells);
    UpdateDependencies(d, c.dependencies);
  }

  // ----- The digests -----------------------------------------------------------------------------------

  const ZERO: Buffer := [0, 0, 0, 0, 0, 0, 0, 0, 0, 0, 0, 0, 0, 0, 0, 0]

  lemma ZeroStandsForZero()
    ensures Stored(ZERO) == 0
  {
    assert Word(ZERO, 0) == 0 && Word(ZERO, 4) == 0 && Word(ZERO, 8) == 0 && Word(ZERO, 12) == 0;
  }

  method UpdateStream(d: DigestState, content: SemanticContent)
    requires d.Valid()
    modifies d
    ensures d.Valid() && Stored(d.bytes) == AbsorbAll(old(Stored(d.bytes)), SemanticStream(content))
  {
    ghost var before := Stored(d.bytes);
    UpdateWord(d, RULE_SET_VERSION);
    UpdateWord(d, CANONICAL_VERSION);
    UpdateWord(d, DIGEST_VERSION);
    UpdateContent(d, content);
    assert AbsorbAll(Stored(d.bytes), []) == AbsorbAll(before, SemanticStream(content));
  }

  /** `proof_semantic_digest`: a default digest starts from zero, not from the offset basis. */
  method SemanticDigest(p: Proof) returns (bytes: Buffer)
    ensures |bytes| == 16 && Stored(bytes) == AbsorbAll(0, SemanticStream(SemanticOf(p)))
  {
    ZeroStandsForZero();
    var d := new DigestState(ZERO);
    UpdateStream(d, SemanticOf(p));
    bytes := d.bytes;
  }

  /** `ProofRequest::digest`. */
  method RequestDigest(r: Request) returns (bytes: Buffer)
    ensures |bytes| == 16 && Stored(bytes) == AbsorbAll(Digest.Value(OFFSET_LIMBS), RequestStream(r))
  {
    var writer := new ByteWriter();
    WriteRequest(writer, r);
    bytes := DigestOf(writer.data);
  }

  method WriteRequest(writer: ByteWriter, r: Request)
    requires writer.data == []
    modifies writer
    ensures writer.data == RequestStream(r)
  {
    writer.WriteInt(RULE_SET_VERSION, 4);
    writer.WriteInt(CANONICAL_VERSION, 4);
    W.WriteText(writer, r.policy);
    W.WriteLong(writer, r.policyGeneration);
    W.WriteLong(writer, |r.paths|);
    ghost var start := writer.data;
    for i := 0 to |r.paths|
      invariant forall rest: Buffer {:trigger P.PutMany(Q.PutRef, r.paths, rest)} ::
                  writer.data + P.PutMany(Q.PutRef, r.paths[i..], rest) == start + P.PutMany(Q.PutRef, r.paths, rest)
    {
      ghost var before := writer.data;
      W.WriteRef(writer, r.paths[i]);
      forall rest: Buffer
        ensures writer.data + P.PutMany(Q.PutRef, r.paths[i + 1..], rest)
                == before + P.PutMany(Q.PutRef, r.paths[i..], rest)
      {
        assert r.paths[i..][1..] == r.paths[i + 1..];
        assert P.PutMany(Q.PutRef, r.paths[i..], rest)
            == Q.PutRef(r.paths[i], P.PutMany(Q.PutRef, r.paths[i + 1..], rest));
      }
    }
    assert writer.data + [] == start + P.PutMany(Q.PutRef, r.paths, []);
    assert [] + RequestStream(r) == RequestStream(r);
  }
}
