/** `encode_snapshot` and `decode_snapshot` as they run. */
module SnapshotStreams {
  import opened Bytes
  import opened Evidence
  import opened RecordParts
  import opened Records
  import opened RecordStreams
  import opened RecordWriters
  import opened Snapshots
  import R = Registry

  method ReadName(reader: ByteReader, limits: Limits, longest: nat) returns (r: Result<string>)
    requires Ready(reader)
    modifies reader
    ensures Follows(TakeName(old(reader.Left()), limits, longest), r, reader)
  {
    var text :- ReadText(reader, limits.maxIdentityLength);
    if !ValidIdentity(text, longest) {
      r := Refuse(reader, MALFORMED_IDENTITY);
      return;
    }
    r := Success(text);
  }

  method ReadNamedRef(reader: ByteReader, limits: Limits) returns (r: Result<PathRef>)
    requires Ready(reader)
    modifies reader
    ensures Follows(TakeNamedRef(old(reader.Left()), limits), r, reader)
  {
    var path :- ReadName(reader, limits, PATH_ID);
    var generation :- ReadLong(reader);
    r := Success(PathRef(path, generation));
  }

  method NextNamedRef(reader: ByteReader, limits: Limits, ghost take: Buffer -> Taken<PathRef>)
    returns (r: Result<PathRef>)
    requires Ready(reader) && Stands(take, NamedRefTaker(limits))
    modifies reader
    ensures Follows(take(old(reader.Left())), r, reader)
  {
    assert Asked(reader.Left());
    r := ReadNamedRef(reader, limits);
  }

  method ReadNamedRefs(reader: ByteReader, bound: nat, limits: Limits, ghost take: Buffer -> Taken<PathRef>)
    returns (r: Result<seq<PathRef>>)
    requires Ready(reader) && Stands(take, NamedRefTaker(limits))
    modifies reader
    ensures Follows(TakeList(take, bound, old(reader.Left())), r, reader)
  {
    var count :- ReadCount(reader, bound);
    var refs: seq<PathRef> := [];
    var left := count;
    while left > 0
      invariant Ready(reader)
      invariant TakeMany(take, left, refs, reader.Left()) == TakeList(take, bound, old(reader.Left()))
    {
      var ref :- NextNamedRef(reader, limits, take);
      refs := refs + [ref];
      left := left - 1;
    }
    r := Success(refs);
  }

  method ReadLooseClass(reader: ByteReader, limits: Limits) returns (r: Result<ClassResult>)
    requires Ready(reader)
    modifies reader
    ensures Follows(TakeLooseClass(old(reader.Left()), limits), r, reader)
  {
    var classCode :- ReadByte(reader);
    var outcomeCode :- ReadByte(reader);
    var klass :- ReadNamed(reader, ALL_CLASSES, classCode);
    var outcome :- ReadNamed(reader, OUTCOMES, outcomeCode);
    var complete :- ReadBool(reader);
    var shared :- ReadConflicts(reader, limits, ConflictTaker(limits));
    var total :- ReadLong(reader);
    var text :- ReadText(reader, TextBound(limits));
    r := Success(ClassResult(klass, outcome, complete, shared, total, text));
  }

  method NextLooseClass(reader: ByteReader, limits: Limits, ghost take: Buffer -> Taken<ClassResult>)
    returns (r: Result<ClassResult>)
    requires Ready(reader) && Stands(take, LooseClassTaker(limits))
    modifies reader
    ensures Follows(take(old(reader.Left())), r, reader)
  {
    assert Asked(reader.Left());
    r := ReadLooseClass(reader, limits);
  }

  method ReadLooseClasses(reader: ByteReader, bound: nat, limits: Limits, ghost take: Buffer -> Taken<ClassResult>)
    returns (r: Result<seq<ClassResult>>)
    requires Ready(reader) && Stands(take, LooseClassTaker(limits))
    modifies reader
    ensures Follows(TakeList(take, bound, old(reader.Left())), r, reader)
  {
    var count :- ReadCount(reader, bound);
    var classes: seq<ClassResult> := [];
    var left := count;
    while left > 0
      invariant Ready(reader)
      invariant TakeMany(take, left, classes, reader.Left()) == TakeList(take, bound, old(reader.Left()))
    {
      var c :- NextLooseClass(reader, limits, take);
      classes := classes + [c];
      left := left - 1;
    }
    r := Success(classes);
  }

  method ReadIndexBelow(reader: ByteReader, paths: nat, reason: Reason) returns (r: Result<nat>)
    requires Ready(reader)
    modifies reader
    ensures Follows(TakeIndexBelow(old(reader.Left()), paths, reason), r, reader)
  {
    var index :- ReadNumber(reader);
    if index >= paths {
      r := Refuse(reader, reason);
      return;
    }
    r := Success(index);
  }

  method NextIndexBelow(reader: ByteReader, paths: nat, reason: Reason, ghost take: Buffer -> Taken<nat>)
    returns (r: Result<nat>)
    requires Ready(reader) && Stands(take, IndexBelowTaker(paths, reason))
    modifies reader
    ensures Follows(take(old(reader.Left())), r, reader)
  {
    assert Asked(reader.Left());
    r := ReadIndexBelow(reader, paths, reason);
  }

  method ReadIndicesBelow(reader: ByteReader, bound: nat, paths: nat, reason: Reason, ghost take: Buffer -> Taken<nat>)
    returns (r: Result<seq<nat>>)
    requires Ready(reader) && Stands(take, IndexBelowTaker(paths, reason))
    modifies reader
    ensures Follows(TakeList(take, bound, old(reader.Left())), r, reader)
  {
    var count :- ReadCount(reader, bound);
    var indices: seq<nat> := [];
    var left := count;
    while left > 0
      invariant Ready(reader)
      invariant TakeMany(take, left, indices, reader.Left()) == TakeList(take, bound, old(reader.Left()))
    {
      var index :- NextIndexBelow(reader, paths, reason, take);
      indices := indices + [index];
      left := left - 1;
    }
    r := Success(indices);
  }

  method ReadLocatedConflict(reader: ByteReader, paths: nat, limits: Limits) returns (r: Result<SharedResource>)
    requires Ready(reader)
    modifies reader
    ensures Follows(TakeLocatedConflict(old(reader.Left()), paths, limits), r, reader)
  {
    var kindCode :- ReadByte(reader);
    var relationCode :- ReadByte(reader);
    var kind :- ReadNamed(reader, KINDS, kindCode);
    var relation :- ReadNamed(reader, RELATIONS, relationCode);
    var id :- ReadText(reader, limits.maxIdentityLength);
    var indices :- ReadIndicesBelow(reader, limits.maxPathsPerProof, paths, UNKNOWN_REFERENCE,
                                    IndexBelowTaker(paths, UNKNOWN_REFERENCE));
    r := Success(SharedResource(kind, relation, id, indices));
  }

  method NextLocatedConflict(reader: ByteReader, paths: nat, limits: Limits,
                             ghost take: Buffer -> Taken<SharedResource>)
    returns (r: Result<SharedResource>)
    requires Ready(reader) && Stands(take, LocatedConflictTaker(paths, limits))
    modifies reader
    ensures Follows(take(old(reader.Left())), r, reader)
  {
    assert Asked(reader.Left());
    r := ReadLocatedConflict(reader, paths, limits);
  }

  method ReadLocatedConflicts(reader: ByteReader, bound: nat, paths: nat, limits: Limits,
                              ghost take: Buffer -> Taken<SharedResource>)
    returns (r: Result<seq<SharedResource>>)
    requires Ready(reader) && Stands(take, LocatedConflictTaker(paths, limits))
    modifies reader
    ensures Follows(TakeList(take, bound, old(reader.Left())), r, reader)
  {
    var count :- ReadCount(reader, bound);
    var conflicts: seq<SharedResource> := [];
    var left := count;
    while left > 0
      invariant Ready(reader)
      invariant TakeMany(take, left, conflicts, reader.Left()) == TakeList(take, bound, old(reader.Left()))
    {
      var conflict :- NextLocatedConflict(reader, paths, limits, take);
      conflicts := conflicts + [conflict];
      left := left - 1;
    }
    r := Success(conflicts);
  }

  method ReadLooseWitness(reader: ByteReader, paths: nat, limits: Limits) returns (r: Result<WitnessSubset>)
    requires Ready(reader)
    modifies reader
    ensures Follows(TakeLooseWitness(old(reader.Left()), paths, limits), r, reader)
  {
    var present :- ReadBool(reader);
    var requested :- ReadNumber(reader);
    var achieved :- ReadNumber(reader);
    var exact :- ReadBool(reader);
    var indices :- ReadIndicesBelow(reader, limits.maxPathsPerProof, paths, INVALID_WITNESS,
                                    IndexBelowTaker(paths, INVALID_WITNESS));
    r := Success(WitnessSubset(present, requested % TWO_32, indices, achieved % TWO_32, exact));
  }

  method ReadNamedDependencies(reader: ByteReader, limits: Limits) returns (r: Result<Dependencies>)
    requires Ready(reader)
    modifies reader
    ensures Follows(TakeNamedDependencies(old(reader.Left()), limits), r, reader)
  {
    var policy :- ReadLong(reader);
    var topology :- ReadLong(reader);
    var domains :- ReadLong(reader);
    var epoch :- ReadLong(reader);
    var code :- ReadByte(reader);
    var exemption :- ReadNamed(reader, EXEMPTIONS, code);
    var paths :- ReadNamedRefs(reader, limits.maxPathsPerProof, limits, NamedRefTaker(limits));
    var entities :- ReadEntities(reader, limits, EntityTaker(limits));
    r := Success(Dependencies(policy, topology, domains, epoch, paths, entities, exemption));
  }

  method ReadTitle(reader: ByteReader, limits: Limits) returns (r: Result<Title>)
    requires Ready(reader)
    modifies reader
    ensures Follows(TakeTitle(old(reader.Left()), limits), r, reader)
  {
    var proof :- ReadName(reader, limits, PROOF_ID);
    var generation :- ReadLong(reader);
    var policy :- ReadName(reader, limits, POLICY_ID);
    var policyGeneration :- ReadLong(reader);
    var paths :- ReadNamedRefs(reader, limits.maxSnapshotPaths, limits, NamedRefTaker(limits));
    var code :- ReadByte(reader);
    var outcome :- ReadNamed(reader, OUTCOMES, code);
    r := Success(Title(proof, generation, policy, policyGeneration, paths, outcome));
  }

  method ReadFound(reader: ByteReader, paths: nat, limits: Limits) returns (r: Result<Found>)
    requires Ready(reader)
    modifies reader
    ensures Follows(TakeFound(old(reader.Left()), paths, limits), r, reader)
  {
    var classes :- ReadLooseClasses(reader, limits.maxRequiredClasses, limits, LooseClassTaker(limits));
    var conflicts :- ReadLocatedConflicts(reader, limits.maxConflictsPerProof, paths, limits,
                                          LocatedConflictTaker(paths, limits));
    var subset :- ReadLooseWitness(reader, paths, limits);
    var dependencies :- ReadNamedDependencies(reader, limits);
    r := Success(Found(classes, conflicts, subset, dependencies));
  }

  method ReadSnapshotStanding(reader: ByteReader, limits: Limits) returns (r: Result<Standing>)
    requires Ready(reader)
    modifies reader
    ensures Follows(TakeSnapshotStanding(old(reader.Left()), limits), r, reader)
  {
    var lifecycleCode :- ReadByte(reader);
    var currentnessCode :- ReadByte(reader);
    var lifecycle :- ReadNamed(reader, LIFECYCLES, lifecycleCode);
    var currentness :- ReadNamed(reader, CURRENTNESSES, currentnessCode);
    var epoch :- ReadLong(reader);
    var publisher :- ReadName(reader, limits, PUBLISHER_ID);
    var boot :- ReadName(reader, limits, BOOT_ID);
    var attempt :- ReadName(reader, limits, ATTEMPT_ID);
    r := Success(Standing(R.Provenance(epoch, publisher, boot, attempt), lifecycle, currentness));
  }

  /** `decode_snapshot`: what the bytes say of digest and identity is only compared, or dropped. */
  method DecodeSnapshot(reader: ByteReader, limits: Limits, seal: Seal) returns (r: Result<ProofSnapshot>)
    requires Ready(reader)
    modifies reader
    ensures Follows(TakeSnapshot(old(reader.Left()), limits, seal), r, reader)
  {
    var id :- ReadName(reader, limits, SNAPSHOT_ID);
    var title :- ReadTitle(reader, limits);
    var found :- ReadFound(reader, |title.paths|, limits);
    var standing :- ReadSnapshotStanding(reader, limits);
    var digest :- ReadDigest(reader);
    var content := Assembled(title, found, standing);
    if seal(content) != digest {
      r := Refuse(reader, INTERNAL_INCONSISTENCY);
      return;
    }
    r := Success(content.(id := DerivedId(digest), digest := digest));
  }

  // ----- Writing -----------------------------------------------------------------------------------------

  method WriteTitle(writer: ByteWriter, t: Title)
    modifies writer
    ensures forall rest: Buffer {:trigger PutTitle(t, rest)} ::
              writer.data + rest == old(writer.data) + PutTitle(t, rest)
  {
    WriteText(writer, t.proof);
    WriteLong(writer, t.generation);
    WriteText(writer, t.policy);
    WriteLong(writer, t.policyGeneration);
    WriteRefs(writer, t.paths);
    WriteByte(writer, Code(OUTCOMES, t.outcome));
  }

  method WriteSnapshotStanding(writer: ByteWriter, st: Standing)
    modifies writer
    ensures forall rest: Buffer {:trigger PutSnapshotStanding(st, rest)} ::
              writer.data + rest == old(writer.data) + PutSnapshotStanding(st, rest)
  {
    WriteByte(writer, Code(LIFECYCLES, st.lifecycle));
    WriteByte(writer, Code(CURRENTNESSES, st.currentness));
    WriteLong(writer, st.provenance.epoch);
    WriteText(writer, st.provenance.publisher);
    WriteText(writer, st.provenance.boot);
    WriteText(writer, st.provenance.attempt);
  }

  /** `encode_snapshot`. */
  method EncodeSnapshot(writer: ByteWriter, x: ProofSnapshot)
    modifies writer
    ensures forall rest: Buffer {:trigger PutSnapshot(x, rest)} ::
              writer.data + rest == old(writer.data) + PutSnapshot(x, rest)
  {
    WriteText(writer, x.id);
    WriteTitle(writer, TitleOf(x));
    WriteClasses(writer, x.classes);
    WriteConflicts(writer, x.conflicts);
    WriteWitness(writer, x.witnessSubset);
    WriteDependencies(writer, x.dependencies);
    WriteSnapshotStanding(writer, x.standing);
    writer.WriteBytes(x.digest);
  }
}
