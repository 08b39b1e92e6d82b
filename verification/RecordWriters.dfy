/** The encoders: each appends exactly what the specification of its record puts. */
module RecordWriters {
  import opened Bytes
  import opened Evidence
  import opened RecordParts
  import opened Records
  import opened PolicyRecords

  method WriteByte(writer: ByteWriter, b: Byte)
    modifies writer
    ensures forall rest: Buffer {:trigger PutByte(b, rest)} :: writer.data + rest == old(writer.data) + PutByte(b, rest)
  {
    ghost var before := writer.data;
    writer.WriteInt(b, 1);
    forall rest: Buffer
      ensures writer.data + rest == before + PutByte(b, rest)
    {
      assert writer.data + rest == before + PutInt(b, 1, rest);
      assert LittleEndian(b, 1) == [b];
    }
  }

  method WriteLong(writer: ByteWriter, value: nat)
    modifies writer
    ensures forall rest: Buffer {:trigger PutLong(value, rest)} ::
              writer.data + rest == old(writer.data) + PutLong(value, rest)
  {
    writer.WriteInt(value, 8);
  }

  method WriteText(writer: ByteWriter, text: string)
    modifies writer
    ensures forall rest: Buffer {:trigger PutText(text, rest)} ::
              writer.data + rest == old(writer.data) + PutText(text, rest)
  {
    writer.WriteBytes(Octets(text));
  }

  method WriteIndices(writer: ByteWriter, indices: seq<nat>)
    modifies writer
    ensures forall rest: Buffer {:trigger PutList(PutIndex, indices, rest)} ::
              writer.data + rest == old(writer.data) + PutList(PutIndex, indices, rest)
  {
    writer.WriteVarint(|indices|);
    ghost var start := writer.data;
    for i := 0 to |indices|
      invariant forall rest: Buffer {:trigger PutMany(PutIndex, indices, rest)} ::
                  writer.data + PutMany(PutIndex, indices[i..], rest) == start + PutMany(PutIndex, indices, rest)
    {
      ghost var before := writer.data;
      writer.WriteVarint(indices[i]);
      forall rest: Buffer
        ensures writer.data + PutMany(PutIndex, indices[i + 1..], rest)
                == before + PutMany(PutIndex, indices[i..], rest)
      {
        assert indices[i..][1..] == indices[i + 1..];
        assert PutMany(PutIndex, indices[i..], rest)
            == PutVarint(indices[i], PutMany(PutIndex, indices[i + 1..], rest));
      }
    }
  }

  method WriteConflict(writer: ByteWriter, c: SharedResource)
    modifies writer
    ensures forall rest: Buffer {:trigger PutConflict(c, rest)} ::
              writer.data + rest == old(writer.data) + PutConflict(c, rest)
  {
    WriteByte(writer, Code(KINDS, c.kind));
    WriteByte(writer, Code(RELATIONS, c.relation));
    WriteText(writer, c.id);
    WriteIndices(writer, c.paths);
  }

  method WriteConflicts(writer: ByteWriter, conflicts: seq<SharedResource>)
    modifies writer
    ensures forall rest: Buffer {:trigger PutList(PutConflict, conflicts, rest)} ::
              writer.data + rest == old(writer.data) + PutList(PutConflict, conflicts, rest)
  {
    writer.WriteVarint(|conflicts|);
    ghost var start := writer.data;
    for i := 0 to |conflicts|
      invariant forall rest: Buffer {:trigger PutMany(PutConflict, conflicts, rest)} ::
                  writer.data + PutMany(PutConflict, conflicts[i..], rest)
                      == start + PutMany(PutConflict, conflicts, rest)
    {
      ghost var before := writer.data;
      WriteConflict(writer, conflicts[i]);
      forall rest: Buffer
        ensures writer.data + PutMany(PutConflict, conflicts[i + 1..], rest)
                == before + PutMany(PutConflict, conflicts[i..], rest)
      {
        assert conflicts[i..][1..] == conflicts[i + 1..];
        assert PutMany(PutConflict, conflicts[i..], rest)
            == PutConflict(conflicts[i], PutMany(PutConflict, conflicts[i + 1..], rest));
      }
    }
  }

  method WriteClass(writer: ByteWriter, c: ClassResult)
    modifies writer
    ensures forall rest: Buffer {:trigger PutClass(c, rest)} ::
              writer.data + rest == old(writer.data) + PutClass(c, rest)
  {
    WriteByte(writer, Code(ALL_CLASSES, c.klass));
    WriteByte(writer, Code(OUTCOMES, c.outcome));
    writer.WriteBool(c.evidenceComplete);
    WriteConflicts(writer, c.shared);
    WriteLong(writer, c.sharedTotal);
    WriteText(writer, c.detail);
  }

  method WriteClasses(writer: ByteWriter, classes: seq<ClassResult>)
    modifies writer
    ensures forall rest: Buffer {:trigger PutList(PutClass, classes, rest)} ::
              writer.data + rest == old(writer.data) + PutList(PutClass, classes, rest)
  {
    writer.WriteVarint(|classes|);
    ghost var start := writer.data;
    for i := 0 to |classes|
      invariant forall rest: Buffer {:trigger PutMany(PutClass, classes, rest)} ::
                  writer.data + PutMany(PutClass, classes[i..], rest) == start + PutMany(PutClass, classes, rest)
    {
      ghost var before := writer.data;
      WriteClass(writer, classes[i]);
      forall rest: Buffer
        ensures writer.data + PutMany(PutClass, classes[i + 1..], rest)
                == before + PutMany(PutClass, classes[i..], rest)
      {
        assert classes[i..][1..] == classes[i + 1..];
        assert PutMany(PutClass, classes[i..], rest) == PutClass(classes[i], PutMany(PutClass, classes[i + 1..], rest));
      }
    }
  }

  method WriteRef(writer: ByteWriter, ref: PathRef)
    modifies writer
    ensures forall rest: Buffer {:trigger PutRef(ref, rest)} ::
              writer.data + rest == old(writer.data) + PutRef(ref, rest)
  {
    WriteText(writer, ref.path);
    WriteLong(writer, ref.generation);
  }

  method WriteRefs(writer: ByteWriter, refs: seq<PathRef>)
    modifies writer
    ensures forall rest: Buffer {:trigger PutList(PutRef, refs, rest)} ::
              writer.data + rest == old(writer.data) + PutList(PutRef, refs, rest)
  {
    writer.WriteVarint(|refs|);
    ghost var start := writer.data;
    for i := 0 to |refs|
      invariant forall rest: Buffer {:trigger PutMany(PutRef, refs, rest)} ::
                  writer.data + PutMany(PutRef, refs[i..], rest) == start + PutMany(PutRef, refs, rest)
    {
      ghost var before := writer.data;
      WriteRef(writer, refs[i]);
      forall rest: Buffer
        ensures writer.data + PutMany(PutRef, refs[i + 1..], rest) == before + PutMany(PutRef, refs[i..], rest)
      {
        assert refs[i..][1..] == refs[i + 1..];
        assert PutMany(PutRef, refs[i..], rest) == PutRef(refs[i], PutMany(PutRef, refs[i + 1..], rest));
      }
    }
  }

  method WritePaths(writer: ByteWriter, paths: seq<string>)
    modifies writer
    ensures forall rest: Buffer {:trigger PutList(PutText, paths, rest)} ::
              writer.data + rest == old(writer.data) + PutList(PutText, paths, rest)
  {
    writer.WriteVarint(|paths|);
    ghost var start := writer.data;
    for i := 0 to |paths|
      invariant forall rest: Buffer {:trigger PutMany(PutText, paths, rest)} ::
                  writer.data + PutMany(PutText, paths[i..], rest) == start + PutMany(PutText, paths, rest)
    {
      ghost var before := writer.data;
      WriteText(writer, paths[i]);
      forall rest: Buffer
        ensures writer.data + PutMany(PutText, paths[i + 1..], rest) == before + PutMany(PutText, paths[i..], rest)
      {
        assert paths[i..][1..] == paths[i + 1..];
        assert PutMany(PutText, paths[i..], rest) == PutText(paths[i], PutMany(PutText, paths[i + 1..], rest));
      }
    }
  }

  method WritePrimary(writer: ByteWriter, primary: Option<SharedResource>)
    modifies writer
    ensures forall rest: Buffer {:trigger PutOption(PutConflict, primary, rest)} ::
              writer.data + rest == old(writer.data) + PutOption(PutConflict, primary, rest)
  {
    writer.WriteBool(primary.Some?);
    if primary.Some? {
      WriteConflict(writer, primary.value);
    }
  }

  method WriteCell(writer: ByteWriter, c: PairwiseCell)
    modifies writer
    ensures forall rest: Buffer {:trigger PutCell(c, rest)} :: writer.data + rest == old(writer.data) + PutCell(c, rest)
  {
    writer.WriteVarint(c.left);
    writer.WriteVarint(c.right);
    writer.WriteBool(c.independent);
    writer.WriteBool(c.evidenceComplete);
    WriteClasses(writer, c.classes);
    WritePrimary(writer, c.primaryConflict);
  }

  method WriteCells(writer: ByteWriter, cells: seq<PairwiseCell>)
    modifies writer
    ensures forall rest: Buffer {:trigger PutList(PutCell, cells, rest)} ::
              writer.data + rest == old(writer.data) + PutList(PutCell, cells, rest)
  {
    writer.WriteVarint(|cells|);
    ghost var start := writer.data;
    for i := 0 to |cells|
      invariant forall rest: Buffer {:trigger PutMany(PutCell, cells, rest)} ::
                  writer.data + PutMany(PutCell, cells[i..], rest) == start + PutMany(PutCell, cells, rest)
    {
      ghost var before := writer.data;
      WriteCell(writer, cells[i]);
      forall rest: Buffer
        ensures writer.data + PutMany(PutCell, cells[i + 1..], rest) == before + PutMany(PutCell, cells[i..], rest)
      {
        assert cells[i..][1..] == cells[i + 1..];
        assert PutMany(PutCell, cells[i..], rest) == PutCell(cells[i], PutMany(PutCell, cells[i + 1..], rest));
      }
    }
  }

  method WriteMatrix(writer: ByteWriter, m: PairwiseMatrix)
    modifies writer
    ensures forall rest: Buffer {:trigger PutMatrix(m, rest)} ::
              writer.data + rest == old(writer.data) + PutMatrix(m, rest)
  {
    WritePaths(writer, m.order);
    WriteCells(writer, m.cells);
  }

  method WriteWitness(writer: ByteWriter, w: WitnessSubset)
    modifies writer
    ensures forall rest: Buffer {:trigger PutWitness(w, rest)} ::
              writer.data + rest == old(writer.data) + PutWitness(w, rest)
  {
    writer.WriteBool(w.present);
    writer.WriteVarint(w.requestedK);
    writer.WriteVarint(w.achieved);
    writer.WriteBool(w.maximumExact);
    WriteIndices(writer, w.indices);
  }

  method WriteEntity(writer: ByteWriter, e: EntityRef)
    modifies writer
    ensures forall rest: Buffer {:trigger PutEntity(e, rest)} ::
              writer.data + rest == old(writer.data) + PutEntity(e, rest)
  {
    WriteByte(writer, Code(ENTITY_KINDS, e.kind));
    WriteText(writer, e.id);
  }

  method WriteEntities(writer: ByteWriter, entities: seq<EntityRef>)
    modifies writer
    ensures forall rest: Buffer {:trigger PutList(PutEntity, entities, rest)} ::
              writer.data + rest == old(writer.data) + PutList(PutEntity, entities, rest)
  {
    writer.WriteVarint(|entities|);
    ghost var start := writer.data;
    for i := 0 to |entities|
      invariant forall rest: Buffer {:trigger PutMany(PutEntity, entities, rest)} ::
                  writer.data + PutMany(PutEntity, entities[i..], rest) == start + PutMany(PutEntity, entities, rest)
    {
      ghost var before := writer.data;
      WriteEntity(writer, entities[i]);
      forall rest: Buffer
        ensures writer.data + PutMany(PutEntity, entities[i + 1..], rest)
                == before + PutMany(PutEntity, entities[i..], rest)
      {
        assert entities[i..][1..] == entities[i + 1..];
        assert PutMany(PutEntity, entities[i..], rest)
            == PutEntity(entities[i], PutMany(PutEntity, entities[i + 1..], rest));
      }
    }
  }

  method WriteDependencies(writer: ByteWriter, d: Dependencies)
    modifies writer
    ensures forall rest: Buffer {:trigger PutDependencies(d, rest)} ::
              writer.data + rest == old(writer.data) + PutDependencies(d, rest)
  {
    WriteLong(writer, d.policyGeneration);
    WriteLong(writer, d.topologyGeneration);
    WriteLong(writer, d.domainGeneration);
    WriteLong(writer, d.epoch);
    WriteByte(writer, Code(EXEMPTIONS, d.endpointExemption));
    WriteRefs(writer, d.paths);
    WriteEntities(writer, d.topologyEntities);
  }

  method WriteHead(writer: ByteWriter, h: Head)
    modifies writer
    ensures forall rest: Buffer {:trigger PutHead(h, rest)} :: writer.data + rest == old(writer.data) + PutHead(h, rest)
  {
    WriteText(writer, h.id);
    WriteLong(writer, h.generation);
    WriteText(writer, h.request.policy);
    WriteLong(writer, h.request.policyGeneration);
    WriteRefs(writer, h.request.paths);
    writer.WriteBytes(h.requestDigest);
    writer.WriteBytes(h.semanticDigest);
  }

  method WriteLimit(writer: ByteWriter, notice: Option<LimitNotice>)
    modifies writer
    ensures forall rest: Buffer {:trigger PutOption(PutNotice, notice, rest)} ::
              writer.data + rest == old(writer.data) + PutOption(PutNotice, notice, rest)
  {
    writer.WriteBool(notice.Some?);
    if notice.Some? {
      WriteByte(writer, Code(BOUNDS, notice.value.bound));
      WriteLong(writer, notice.value.observed);
      WriteLong(writer, notice.value.allowed);
    }
  }

  method WriteFindings(writer: ByteWriter, f: Findings)
    modifies writer
    ensures forall rest: Buffer {:trigger PutFindings(f, rest)} ::
              writer.data + rest == old(writer.data) + PutFindings(f, rest)
  {
    WriteByte(writer, Code(OUTCOMES, f.outcome));
    WriteText(writer, f.detail);
    WriteLimit(writer, f.limit);
    WriteClasses(writer, f.classes);
    WriteClasses(writer, f.advisories);
    WriteConflicts(writer, f.conflicts);
    WriteLong(writer, f.conflictsTotal);
  }

  method WriteStanding(writer: ByteWriter, st: Standing)
    modifies writer
    ensures forall rest: Buffer {:trigger PutStanding(st, rest)} ::
              writer.data + rest == old(writer.data) + PutStanding(st, rest)
  {
    WriteLong(writer, st.provenance.epoch);
    WriteText(writer, st.provenance.publisher);
    WriteText(writer, st.provenance.boot);
    WriteText(writer, st.provenance.attempt);
    WriteByte(writer, Code(LIFECYCLES, st.lifecycle));
    WriteByte(writer, Code(CURRENTNESSES, st.currentness));
  }

  /** `encode_proof`. */
  method EncodeProof(writer: ByteWriter, p: StoredProof)
    modifies writer
    ensures forall rest: Buffer {:trigger PutProof(p, rest)} ::
              writer.data + rest == old(writer.data) + PutProof(p, rest)
  {
    WriteHead(writer, p.head);
    WriteFindings(writer, p.findings);
    WriteMatrix(writer, p.matrix);
    WriteWitness(writer, p.witnessSubset);
    WriteDependencies(writer, p.dependencies);
    WriteStanding(writer, p.standing);
  }

  method WriteClassNames(writer: ByteWriter, classes: seq<DiversityClass>)
    modifies writer
    ensures forall rest: Buffer {:trigger PutList(PutClassName, classes, rest)} ::
              writer.data + rest == old(writer.data) + PutList(PutClassName, classes, rest)
  {
    writer.WriteVarint(|classes|);
    ghost var start := writer.data;
    for i := 0 to |classes|
      invariant forall rest: Buffer {:trigger PutMany(PutClassName, classes, rest)} ::
                  writer.data + PutMany(PutClassName, classes[i..], rest)
                      == start + PutMany(PutClassName, classes, rest)
    {
      ghost var before := writer.data;
      WriteByte(writer, Code(ALL_CLASSES, classes[i]));
      forall rest: Buffer
        ensures writer.data + PutMany(PutClassName, classes[i + 1..], rest)
                == before + PutMany(PutClassName, classes[i..], rest)
      {
        assert classes[i..][1..] == classes[i + 1..];
        assert PutMany(PutClassName, classes[i..], rest)
            == PutClassName(classes[i], PutMany(PutClassName, classes[i + 1..], rest));
      }
    }
  }

  method WriteRelations(writer: ByteWriter, relations: seq<DomainRelation>)
    modifies writer
    ensures forall rest: Buffer {:trigger PutList(PutRelation, relations, rest)} ::
              writer.data + rest == old(writer.data) + PutList(PutRelation, relations, rest)
  {
    writer.WriteVarint(|relations|);
    ghost var start := writer.data;
    for i := 0 to |relations|
      invariant forall rest: Buffer {:trigger PutMany(PutRelation, relations, rest)} ::
                  writer.data + PutMany(PutRelation, relations[i..], rest)
                      == start + PutMany(PutRelation, relations, rest)
    {
      ghost var before := writer.data;
      WriteByte(writer, Code(RELATIONS, relations[i]));
      forall rest: Buffer
        ensures writer.data + PutMany(PutRelation, relations[i + 1..], rest)
                == before + PutMany(PutRelation, relations[i..], rest)
      {
        assert relations[i..][1..] == relations[i + 1..];
        assert PutMany(PutRelation, relations[i..], rest)
            == PutRelation(relations[i], PutMany(PutRelation, relations[i + 1..], rest));
      }
    }
  }

  /** `encode_policy`. */
  method EncodePolicy(writer: ByteWriter, p: Policy)
    modifies writer
    ensures forall rest: Buffer {:trigger PutPolicy(p, rest)} ::
              writer.data + rest == old(writer.data) + PutPolicy(p, rest)
  {
    WriteText(writer, p.id);
    WriteLong(writer, p.generation);
    WriteText(writer, p.scope);
    WriteClassNames(writer, p.requiredClasses);
    WriteByte(writer, Code(EXEMPTIONS, p.endpointExemption));
    writer.WriteVarint(p.minimumIndependentPaths);
    WriteByte(writer, Code(SEMANTICS, p.semantics));
    WriteByte(writer, Code(COMPLETENESS, p.completeness));
    WriteByte(writer, Code(UNKNOWNS, p.unknownBehavior));
    WriteRelations(writer, p.relations);
    writer.WriteBool(p.requireAuthorityCurrent);
    WriteText(writer, p.description);
  }
}
