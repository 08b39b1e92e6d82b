/**
 * The record codec as the program runs it: writers that append to a buffer, readers
 * that advance a cursor and stop at the first failure.
 */
module RecordStreams {
  import opened Bytes
  import opened Evidence
  import opened RecordParts
  import opened Records
  import opened PolicyRecords
  import R = Registry
  import T = Triangle

  // ----- Reading ---------------------------------------------------------------------------------

  ghost predicate Ready(reader: ByteReader)
    reads reader
  {
    reader.Valid() && reader.status == DecodeStatus.OK
  }

  /** The reader did what the specification of the record says, and stopped where it stops. */
  ghost predicate Follows<T(!new)>(taken: Taken<T>, r: Result<T>, reader: ByteReader)
    reads reader
  {
    && reader.Valid()
    && match taken
       case Success((value, rest)) => r == Success(value) && reader.status == DecodeStatus.OK && reader.Left() == rest
       case Failure(reason) => r == Failure(reason) && reader.status != DecodeStatus.OK
  }

  /** `fail`: every refusal of this codec goes through it. */
  method Refuse<T(!new)>(reader: ByteReader, reason: Reason) returns (r: Result<T>)
    requires reader.Valid()
    modifies reader
    ensures reader.Valid() && reader.status != DecodeStatus.OK && r == Failure(reason)
  {
    reader.Fail(INVALID_ENCODING);
    r := Failure(reason);
  }

  method ReadByte(reader: ByteReader) returns (r: Result<Byte>)
    requires Ready(reader)
    modifies reader
    ensures Follows(TakeByte(old(reader.Left())), r, reader)
  {
    ghost var s := reader.Left();
    var ok, value := reader.ReadInt(1);
    if !ok {
      return Failure(Reason.TRUNCATED);
    }
    assert s[..1] == [s[0]];
    assert FromLittleEndian([s[0]]) == s[0];
    r := Success(value);
  }

  method ReadLong(reader: ByteReader) returns (r: Result<nat>)
    requires Ready(reader)
    modifies reader
    ensures Follows(TakeLong(old(reader.Left())), r, reader)
  {
    var ok, value := reader.ReadInt(8);
    r := if ok then Success(value) else Failure(Reason.TRUNCATED);
  }

  method ReadNumber(reader: ByteReader) returns (r: Result<nat>)
    requires Ready(reader)
    modifies reader
    ensures Follows(TakeNumber(old(reader.Left())), r, reader)
  {
    var ok, value := reader.ReadVarint();
    r := if ok then Success(value) else Failure(ReasonOf(reader.status));
  }

  method ReadBool(reader: ByteReader) returns (r: Result<bool>)
    requires Ready(reader)
    modifies reader
    ensures Follows(TakeBool(old(reader.Left())), r, reader)
  {
    var raw :- ReadByte(reader);
    if raw > 1 {
      r := Refuse(reader, INTERNAL_INCONSISTENCY);
      return;
    }
    r := Success(raw == 1);
  }

  method ReadText(reader: ByteReader, bound: nat) returns (r: Result<string>)
    requires Ready(reader)
    modifies reader
    ensures Follows(TakeText(old(reader.Left()), bound), r, reader)
  {
    var ok, bytes := reader.ReadBytes(bound);
    r := if ok then Success(Characters(bytes)) else Failure(ReasonOf(reader.status));
  }

  method ReadDigest(reader: ByteReader) returns (r: Result<Buffer>)
    requires Ready(reader)
    modifies reader
    ensures Follows(TakeDigest(old(reader.Left())), r, reader)
  {
    var ok, bytes := reader.ReadBytes(DIGEST_BYTES);
    if !ok {
      return Failure(ReasonOf(reader.status));
    }
    if |bytes| < DIGEST_BYTES {
      r := Refuse(reader, Reason.TRUNCATED);
      return;
    }
    r := Success(bytes);
  }

  method ReadId(reader: ByteReader, limits: Limits, longest: nat) returns (r: Result<string>)
    requires Ready(reader)
    modifies reader
    ensures Follows(TakeId(old(reader.Left()), limits, longest), r, reader)
  {
    var text :- ReadText(reader, IdBound(limits, longest));
    if !ValidIdentity(text, longest) {
      r := Refuse(reader, MALFORMED_IDENTITY);
      return;
    }
    r := Success(text);
  }

  method ReadCount(reader: ByteReader, bound: nat) returns (r: Result<nat>)
    requires Ready(reader)
    modifies reader
    ensures Follows(TakeCount(old(reader.Left()), bound), r, reader)
  {
    var count :- ReadNumber(reader);
    if count > bound {
      reader.Fail(DecodeStatus.LIMIT_EXCEEDED);
      return Failure(Reason.LIMIT_EXCEEDED);
    }
    r := Success(count);
  }

  method ReadNamed<T(!new)>(reader: ByteReader, all: seq<T>, code: Byte) returns (r: Result<T>)
    requires Ready(reader)
    modifies reader
    ensures reader.Valid() && r == Named(all, code)
    ensures r.Success? ==> reader.status == DecodeStatus.OK && reader.Left() == old(reader.Left())
    ensures r.Failure? ==> reader.status != DecodeStatus.OK
  {
    if 1 <= code as int <= |all| {
      return Success(all[code - 1]);
    }
    r := Refuse(reader, INVALID_ENUM);
  }

  /** A position at which the decoder of one element is looked into. */
  ghost predicate Asked(s: Buffer) {
    true
  }

  /** The list loops keep the decoder of one element abstract. */
  ghost predicate Stands<T>(take: Buffer -> Taken<T>, decoder: Buffer -> Taken<T>) {
    forall s {:trigger Asked(s)} :: take(s) == decoder(s)
  }

  method ReadIndices(reader: ByteReader, bound: nat) returns (r: Result<seq<nat>>)
    requires Ready(reader)
    modifies reader
    ensures Follows(TakeList(TakeIndex, bound, old(reader.Left())), r, reader)
  {
    var count :- ReadCount(reader, bound);
    var indices: seq<nat> := [];
    var left := count;
    while left > 0
      invariant Ready(reader)
      invariant TakeMany(TakeIndex, left, indices, reader.Left()) == TakeList(TakeIndex, bound, old(reader.Left()))
    {
      var index :- ReadNumber(reader);
      if !FitsWord(index) {
        r := Refuse(reader, ARITHMETIC_OVERFLOW);
        return;
      }
      indices := indices + [index];
      left := left - 1;
    }
    r := Success(indices);
  }

  method ReadConflict(reader: ByteReader, limits: Limits) returns (r: Result<SharedResource>)
    requires Ready(reader)
    modifies reader
    ensures Follows(TakeConflict(old(reader.Left()), limits), r, reader)
  {
    var kindCode :- ReadByte(reader);
    var relationCode :- ReadByte(reader);
    var kind :- ReadNamed(reader, KINDS, kindCode);
    var relation :- ReadNamed(reader, RELATIONS, relationCode);
    var id :- ReadText(reader, limits.maxIdentityLength);
    var paths :- ReadIndices(reader, limits.maxPathsPerProof);
    r := Success(SharedResource(kind, relation, id, paths));
  }

  method NextConflict(reader: ByteReader, limits: Limits, ghost take: Buffer -> Taken<SharedResource>)
    returns (r: Result<SharedResource>)
    requires Ready(reader) && Stands(take, ConflictTaker(limits))
    modifies reader
    ensures Follows(take(old(reader.Left())), r, reader)
  {
    assert Asked(reader.Left());
    r := ReadConflict(reader, limits);
  }

  method ReadConflicts(reader: ByteReader, limits: Limits, ghost take: Buffer -> Taken<SharedResource>)
    returns (r: Result<seq<SharedResource>>)
    requires Ready(reader) && Stands(take, ConflictTaker(limits))
    modifies reader
    ensures Follows(TakeList(take, limits.maxConflictsPerProof, old(reader.Left())), r, reader)
  {
    var count :- ReadCount(reader, limits.maxConflictsPerProof);
    var conflicts: seq<SharedResource> := [];
    var left := count;
    while left > 0
      invariant Ready(reader)
      invariant TakeMany(take, left, conflicts, reader.Left())
                == TakeList(take, limits.maxConflictsPerProof, old(reader.Left()))
    {
      var conflict :- NextConflict(reader, limits, take);
      conflicts := conflicts + [conflict];
      left := left - 1;
    }
    r := Success(conflicts);
  }

  method ReadClass(reader: ByteReader, limits: Limits) returns (r: Result<ClassResult>)
    requires Ready(reader)
    modifies reader
    ensures Follows(TakeClass(old(reader.Left()), limits), r, reader)
  {
    var classCode :- ReadByte(reader);
    var outcomeCode :- ReadByte(reader);
    var klass :- ReadNamed(reader, ALL_CLASSES, classCode);
    var outcome :- ReadNamed(reader, OUTCOMES, outcomeCode);
    var complete :- ReadBool(reader);
    var shared :- ReadConflicts(reader, limits, ConflictTaker(limits));
    var total :- ReadLong(reader);
    if total < |shared| {
      r := Refuse(reader, INTERNAL_INCONSISTENCY);
      return;
    }
    var text :- ReadText(reader, TextBound(limits));
    if outcome == PROVEN_DIVERSE && !complete {
      r := Refuse(reader, INCOMPLETE_EVIDENCE_CLAIM);
      return;
    }
    r := Success(ClassResult(klass, outcome, complete, shared, total, text));
  }

  method NextClass(reader: ByteReader, limits: Limits, ghost take: Buffer -> Taken<ClassResult>)
    returns (r: Result<ClassResult>)
    requires Ready(reader) && Stands(take, ClassTaker(limits))
    modifies reader
    ensures Follows(take(old(reader.Left())), r, reader)
  {
    assert Asked(reader.Left());
    r := ReadClass(reader, limits);
  }

  method ReadClasses(reader: ByteReader, limits: Limits, ghost take: Buffer -> Taken<ClassResult>)
    returns (r: Result<seq<ClassResult>>)
    requires Ready(reader) && Stands(take, ClassTaker(limits))
    modifies reader
    ensures Follows(TakeList(take, limits.maxRequiredClasses, old(reader.Left())), r, reader)
  {
    var count :- ReadCount(reader, limits.maxRequiredClasses);
    var classes: seq<ClassResult> := [];
    var left := count;
    while left > 0
      invariant Ready(reader)
      invariant TakeMany(take, left, classes, reader.Left())
                == TakeList(take, limits.maxRequiredClasses, old(reader.Left()))
    {
      var c :- NextClass(reader, limits, take);
      classes := classes + [c];
      left := left - 1;
    }
    r := Success(classes);
  }

  method ReadRef(reader: ByteReader, limits: Limits) returns (r: Result<PathRef>)
    requires Ready(reader)
    modifies reader
    ensures Follows(TakeRef(old(reader.Left()), limits), r, reader)
  {
    var path :- ReadId(reader, limits, PATH_ID);
    var generation :- ReadLong(reader);
    r := Success(PathRef(path, generation));
  }

  method NextRef(reader: ByteReader, limits: Limits, ghost take: Buffer -> Taken<PathRef>) returns (r: Result<PathRef>)
    requires Ready(reader) && Stands(take, RefTaker(limits))
    modifies reader
    ensures Follows(take(old(reader.Left())), r, reader)
  {
    assert Asked(reader.Left());
    r := ReadRef(reader, limits);
  }

  method ReadRefs(reader: ByteReader, limits: Limits, ghost take: Buffer -> Taken<PathRef>)
    returns (r: Result<seq<PathRef>>)
    requires Ready(reader) && Stands(take, RefTaker(limits))
    modifies reader
    ensures Follows(TakeList(take, limits.maxPathsPerProof, old(reader.Left())), r, reader)
  {
    var count :- ReadCount(reader, limits.maxPathsPerProof);
    var refs: seq<PathRef> := [];
    var left := count;
    while left > 0
      invariant Ready(reader)
      invariant TakeMany(take, left, refs, reader.Left())
                == TakeList(take, limits.maxPathsPerProof, old(reader.Left()))
    {
      var ref :- NextRef(reader, limits, take);
      refs := refs + [ref];
      left := left - 1;
    }
    r := Success(refs);
  }

  method NextPath(reader: ByteReader, limits: Limits, ghost take: Buffer -> Taken<string>) returns (r: Result<string>)
    requires Ready(reader) && Stands(take, PathTaker(limits))
    modifies reader
    ensures Follows(take(old(reader.Left())), r, reader)
  {
    assert Asked(reader.Left());
    r := ReadId(reader, limits, PATH_ID);
  }

  method ReadPaths(reader: ByteReader, limits: Limits, ghost take: Buffer -> Taken<string>)
    returns (r: Result<seq<string>>)
    requires Ready(reader) && Stands(take, PathTaker(limits))
    modifies reader
    ensures Follows(TakeList(take, limits.maxPathsPerProof, old(reader.Left())), r, reader)
  {
    var count :- ReadCount(reader, limits.maxPathsPerProof);
    var paths: seq<string> := [];
    var left := count;
    while left > 0
      invariant Ready(reader)
      invariant TakeMany(take, left, paths, reader.Left())
                == TakeList(take, limits.maxPathsPerProof, old(reader.Left()))
    {
      var path :- NextPath(reader, limits, take);
      paths := paths + [path];
      left := left - 1;
    }
    r := Success(paths);
  }

  method ReadPrimary(reader: ByteReader, limits: Limits) returns (r: Result<Option<SharedResource>>)
    requires Ready(reader)
    modifies reader
    ensures Follows(TakeOption(ConflictTaker(limits), old(reader.Left())), r, reader)
  {
    var present :- ReadBool(reader);
    if !present {
      return Success(None);
    }
    var conflict :- ReadConflict(reader, limits);
    r := Success(Some(conflict));
  }

  method ReadCell(reader: ByteReader, paths: nat, limits: Limits) returns (r: Result<PairwiseCell>)
    requires Ready(reader)
    modifies reader
    ensures Follows(TakeCell(old(reader.Left()), paths, limits), r, reader)
  {
    var left :- ReadNumber(reader);
    var right :- ReadNumber(reader);
    if left >= paths || right >= paths {
      r := Refuse(reader, UNKNOWN_REFERENCE);
      return;
    }
    if left >= right {
      r := Refuse(reader, INTERNAL_INCONSISTENCY);
      return;
    }
    var independent :- ReadBool(reader);
    var complete :- ReadBool(reader);
    var classes :- ReadClasses(reader, limits, ClassTaker(limits));
    var primary :- ReadPrimary(reader, limits);
    r := Success(PairwiseCell(left, right, independent, complete, classes, primary));
  }

  method NextCell(reader: ByteReader, paths: nat, limits: Limits, ghost take: Buffer -> Taken<PairwiseCell>)
    returns (r: Result<PairwiseCell>)
    requires Ready(reader) && Stands(take, CellTaker(paths, limits))
    modifies reader
    ensures Follows(take(old(reader.Left())), r, reader)
  {
    assert Asked(reader.Left());
    r := ReadCell(reader, paths, limits);
  }

  method ReadCells(reader: ByteReader, count: nat, paths: nat, limits: Limits,
                   ghost take: Buffer -> Taken<PairwiseCell>)
    returns (r: Result<seq<PairwiseCell>>)
    requires Ready(reader) && Stands(take, CellTaker(paths, limits))
    modifies reader
    ensures Follows(TakeMany(take, count, [], old(reader.Left())), r, reader)
  {
    var cells: seq<PairwiseCell> := [];
    var left := count;
    while left > 0
      invariant Ready(reader)
      invariant TakeMany(take, left, cells, reader.Left()) == TakeMany(take, count, [], old(reader.Left()))
    {
      var cell :- NextCell(reader, paths, limits, take);
      cells := cells + [cell];
      left := left - 1;
    }
    r := Success(cells);
  }

  method ReadMatrix(reader: ByteReader, limits: Limits) returns (r: Result<PairwiseMatrix>)
    requires Ready(reader)
    modifies reader
    ensures Follows(TakeMatrix(old(reader.Left()), limits), r, reader)
  {
    var order :- ReadPaths(reader, limits, PathTaker(limits));
    var count :- ReadCount(reader, limits.maxPairwiseCells);
    if count != T.CellCount(|order|) {
      r := Refuse(reader, MATRIX_DIMENSION_MISMATCH);
      return;
    }
    var cells :- ReadCells(reader, count, |order|, limits, CellTaker(|order|, limits));
    r := Success(PairwiseMatrix(order, cells));
  }

  method InOrder(indices: seq<nat>) returns (ascends: bool)
    ensures ascends == Ascends(indices)
  {
    var k := 1;
    while k < |indices|
      invariant forall j | 1 <= j < k && j < |indices| :: indices[j - 1] < indices[j]
    {
      if indices[k - 1] >= indices[k] {
        return false;
      }
      k := k + 1;
    }
    ascends := true;
  }

  method ReadWitness(reader: ByteReader, limits: Limits) returns (r: Result<WitnessSubset>)
    requires Ready(reader)
    modifies reader
    ensures Follows(TakeWitness(old(reader.Left()), limits), r, reader)
  {
    var present :- ReadBool(reader);
    var requested :- ReadNumber(reader);
    var achieved :- ReadNumber(reader);
    var exact :- ReadBool(reader);
    if !FitsWord(requested) || !FitsWord(achieved) {
      r := Refuse(reader, ARITHMETIC_OVERFLOW);
      return;
    }
    var indices :- ReadIndices(reader, limits.maxPathsPerProof);
    if |indices| < achieved {
      r := Refuse(reader, INVALID_WITNESS);
      return;
    }
    var ascends := InOrder(indices);
    if !ascends {
      r := Refuse(reader, INVALID_WITNESS);
      return;
    }
    r := Success(WitnessSubset(present, requested, indices, achieved, exact));
  }

  method ReadEntity(reader: ByteReader, limits: Limits) returns (r: Result<EntityRef>)
    requires Ready(reader)
    modifies reader
    ensures Follows(TakeEntity(old(reader.Left()), limits), r, reader)
  {
    var code :- ReadByte(reader);
    var kind :- ReadNamed(reader, ENTITY_KINDS, code);
    var id :- ReadText(reader, limits.maxIdentityLength);
    r := Success(EntityRef(kind, id));
  }

  method NextEntity(reader: ByteReader, limits: Limits, ghost take: Buffer -> Taken<EntityRef>)
    returns (r: Result<EntityRef>)
    requires Ready(reader) && Stands(take, EntityTaker(limits))
    modifies reader
    ensures Follows(take(old(reader.Left())), r, reader)
  {
    assert Asked(reader.Left());
    r := ReadEntity(reader, limits);
  }

  method ReadEntities(reader: ByteReader, limits: Limits, ghost take: Buffer -> Taken<EntityRef>)
    returns (r: Result<seq<EntityRef>>)
    requires Ready(reader) && Stands(take, EntityTaker(limits))
    modifies reader
    ensures Follows(TakeList(take, limits.maxTopologyDependencies, old(reader.Left())), r, reader)
  {
    var count :- ReadCount(reader, limits.maxTopologyDependencies);
    var entities: seq<EntityRef> := [];
    var left := count;
    while left > 0
      invariant Ready(reader)
      invariant TakeMany(take, left, entities, reader.Left())
                == TakeList(take, limits.maxTopologyDependencies, old(reader.Left()))
    {
      var entity :- NextEntity(reader, limits, take);
      entities := entities + [entity];
      left := left - 1;
    }
    r := Success(entities);
  }

  method ReadDependencies(reader: ByteReader, limits: Limits) returns (r: Result<Dependencies>)
    requires Ready(reader)
    modifies reader
    ensures Follows(TakeDependencies(old(reader.Left()), limits), r, reader)
  {
    var policy :- ReadLong(reader);
    var topology :- ReadLong(reader);
    var domains :- ReadLong(reader);
    var epoch :- ReadLong(reader);
    var code :- ReadByte(reader);
    var exemption :- ReadNamed(reader, EXEMPTIONS, code);
    var paths :- ReadRefs(reader, limits, RefTaker(limits));
    var entities :- ReadEntities(reader, limits, EntityTaker(limits));
    r := Success(Dependencies(policy, topology, domains, epoch, paths, entities, exemption));
  }

  method ReadHead(reader: ByteReader, limits: Limits) returns (r: Result<Head>)
    requires Ready(reader)
    modifies reader
    ensures Follows(TakeHead(old(reader.Left()), limits), r, reader)
  {
    var id :- ReadId(reader, limits, PROOF_ID);
    var generation :- ReadLong(reader);
    var policy :- ReadId(reader, limits, POLICY_ID);
    var policyGeneration :- ReadLong(reader);
    var paths :- ReadRefs(reader, limits, RefTaker(limits));
    var requestDigest :- ReadDigest(reader);
    var semanticDigest :- ReadDigest(reader);
    r := Success(Head(id, generation, Request(policy, policyGeneration, paths), requestDigest, semanticDigest));
  }

  method ReadNotice(reader: ByteReader) returns (r: Result<Option<LimitNotice>>)
    requires Ready(reader)
    modifies reader
    ensures Follows(TakeOption(TakeNotice, old(reader.Left())), r, reader)
  {
    var present :- ReadBool(reader);
    if !present {
      return Success(None);
    }
    var code :- ReadByte(reader);
    var bound :- ReadNamed(reader, BOUNDS, code);
    var observed :- ReadLong(reader);
    var allowed :- ReadLong(reader);
    r := Success(Some(LimitNotice(bound, observed, allowed)));
  }

  method ReadFindings(reader: ByteReader, limits: Limits) returns (r: Result<Findings>)
    requires Ready(reader)
    modifies reader
    ensures Follows(TakeFindings(old(reader.Left()), limits), r, reader)
  {
    var code :- ReadByte(reader);
    var outcome :- ReadNamed(reader, OUTCOMES, code);
    var text :- ReadText(reader, TextBound(limits));
    var notice :- ReadNotice(reader);
    var classes :- ReadClasses(reader, limits, ClassTaker(limits));
    var advisories :- ReadClasses(reader, limits, ClassTaker(limits));
    var conflicts :- ReadConflicts(reader, limits, ConflictTaker(limits));
    var total :- ReadLong(reader);
    if total < |conflicts| {
      r := Refuse(reader, INTERNAL_INCONSISTENCY);
      return;
    }
    r := Success(Findings(outcome, text, notice, classes, advisories, conflicts, total));
  }

  method ReadStanding(reader: ByteReader, limits: Limits) returns (r: Result<Standing>)
    requires Ready(reader)
    modifies reader
    ensures Follows(TakeStanding(old(reader.Left()), limits), r, reader)
  {
    var epoch :- ReadLong(reader);
    var publisher :- ReadId(reader, limits, PUBLISHER_ID);
    var boot :- ReadId(reader, limits, BOOT_ID);
    var attempt :- ReadId(reader, limits, ATTEMPT_ID);
    var lifecycleCode :- ReadByte(reader);
    var currentnessCode :- ReadByte(reader);
    var lifecycle :- ReadNamed(reader, LIFECYCLES, lifecycleCode);
    var currentness :- ReadNamed(reader, CURRENTNESSES, currentnessCode);
    r := Success(Standing(R.Provenance(epoch, publisher, boot, attempt), lifecycle, currentness));
  }

  /** `decode_proof`. */
  method DecodeProof(reader: ByteReader, limits: Limits) returns (r: Result<StoredProof>)
    requires Ready(reader)
    modifies reader
    ensures Follows(TakeProof(old(reader.Left()), limits), r, reader)
  {
    var head :- ReadHead(reader, limits);
    var findings :- ReadFindings(reader, limits);
    var cells :- ReadMatrix(reader, limits);
    var subset :- ReadWitness(reader, limits);
    var dependencies :- ReadDependencies(reader, limits);
    var standing :- ReadStanding(reader, limits);
    var proof := StoredProof(head, findings, cells, subset, dependencies, standing);
    var refusal := Refusal(proof);
    if refusal.Some? {
      r := Refuse(reader, refusal.value);
      return;
    }
    r := Success(proof);
  }

  method NextName<T(!new)>(reader: ByteReader, all: seq<T>, ghost take: Buffer -> Taken<T>) returns (r: Result<T>)
    requires Ready(reader) && Stands(take, NamedTaker(all))
    modifies reader
    ensures Follows(take(old(reader.Left())), r, reader)
  {
    assert Asked(reader.Left());
    var code :- ReadByte(reader);
    r := ReadNamed(reader, all, code);
  }

  method ReadNames<T(!new)>(reader: ByteReader, all: seq<T>, bound: nat, ghost take: Buffer -> Taken<T>)
    returns (r: Result<seq<T>>)
    requires Ready(reader) && Stands(take, NamedTaker(all))
    modifies reader
    ensures Follows(TakeList(take, bound, old(reader.Left())), r, reader)
  {
    var count :- ReadCount(reader, bound);
    var names: seq<T> := [];
    var left := count;
    while left > 0
      invariant Ready(reader)
      invariant TakeMany(take, left, names, reader.Left()) == TakeList(take, bound, old(reader.Left()))
    {
      var name :- NextName(reader, all, take);
      names := names + [name];
      left := left - 1;
    }
    r := Success(names);
  }

  method ReadPolicyHead(reader: ByteReader, limits: Limits) returns (r: Result<PolicyHead>)
    requires Ready(reader)
    modifies reader
    ensures Follows(TakePolicyHead(old(reader.Left()), limits), r, reader)
  {
    var id :- ReadId(reader, limits, POLICY_ID);
    var generation :- ReadLong(reader);
    var scope :- ReadId(reader, limits, SCOPE_ID);
    var classes :- ReadNames(reader, ALL_CLASSES, limits.maxRequiredClasses, NamedTaker(ALL_CLASSES));
    var code :- ReadByte(reader);
    var exemption :- ReadNamed(reader, EXEMPTIONS, code);
    var minimum :- ReadNumber(reader);
    if !FitsWord(minimum) {
      r := Refuse(reader, ARITHMETIC_OVERFLOW);
      return;
    }
    r := Success(PolicyHead(id, generation, scope, classes, exemption, minimum));
  }

  method ReadPolicyTail(reader: ByteReader, limits: Limits) returns (r: Result<PolicyTail>)
    requires Ready(reader)
    modifies reader
    ensures Follows(TakePolicyTail(old(reader.Left()), limits), r, reader)
  {
    var semanticsCode :- ReadByte(reader);
    var completenessCode :- ReadByte(reader);
    var unknownCode :- ReadByte(reader);
    var semantics :- ReadNamed(reader, SEMANTICS, semanticsCode);
    var completeness :- ReadNamed(reader, COMPLETENESS, completenessCode);
    var unknown :- ReadNamed(reader, UNKNOWNS, unknownCode);
    var relations :- ReadNames(reader, RELATIONS, MAX_RELATIONS, NamedTaker(RELATIONS));
    var required :- ReadBool(reader);
    var description :- ReadText(reader, TextBound(limits));
    r := Success(PolicyTail(semantics, completeness, unknown, relations, required, description));
  }

  /** `decode_policy`. */
  method DecodePolicy(reader: ByteReader, limits: Limits) returns (r: Result<Policy>)
    requires Ready(reader)
    modifies reader
    ensures Follows(TakePolicy(old(reader.Left()), limits), r, reader)
  {
    var head :- ReadPolicyHead(reader, limits);
    var tail :- ReadPolicyTail(reader, limits);
    var p := Joined(head, tail);
    if p.generation == 0 {
      r := Refuse(reader, IMPOSSIBLE_GENERATION);
      return;
    }
    if !ValidPolicy(p, limits) {
      r := Refuse(reader, INVALID_ENUM);
      return;
    }
    r := Success(p);
  }
}
