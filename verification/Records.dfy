/**
 * The record codec: how policies and proof revisions are laid out, what the decoder
 * accepts, and the theorem that a record comes back exactly when it is storable.
 */
module Records {
  import opened Bytes
  import opened Evidence
  import opened RecordParts
  import E = Evaluator
  import L = Lifecycle
  import R = Registry
  import T = Triangle

  // ----- Records ------------------------------------------------------------------------------

  /** What a revision is. */
  datatype Head = Head(id: string, generation: nat, request: Request, requestDigest: Buffer, semanticDigest: Buffer)

  /** What it found. */
  datatype Findings = Findings(
    outcome: Outcome,
    detail: string,
    limit: Option<LimitNotice>,
    classes: seq<ClassResult>,
    advisories: seq<ClassResult>,
    conflicts: seq<SharedResource>,
    conflictsTotal: nat)

  /** Who published it and where it stands. */
  datatype Standing = Standing(provenance: R.Provenance, lifecycle: L.State, currentness: L.Currentness)

  datatype StoredProof = StoredProof(
    head: Head,
    findings: Findings,
    matrix: PairwiseMatrix,
    witnessSubset: WitnessSubset,
    dependencies: Dependencies,
    standing: Standing)

  // ----- Options -------------------------------------------------------------------------------------

  function PutOption<T>(put: (T, Buffer) -> Buffer, o: Option<T>, rest: Buffer): Buffer {
    match o
    case None => PutBool(false, rest)
    case Some(x) => PutBool(true, put(x, rest))
  }

  function TakeOption<T>(take: Buffer -> Taken<T>, s: Buffer): Taken<Option<T>> {
    var (present, rest) :- TakeBool(s);
    if !present then Success((None, rest))
    else
      var (x, s') :- take(rest);
      Success((Some(x), s'))
  }

  lemma OptionRoundTrip<T(!new)>(put: (T, Buffer) -> Buffer, take: Buffer -> Taken<T>, fits: T -> bool, o: Option<T>,
                                 rest: Buffer)
    requires Inverse(put, take, fits) && (o.Some? ==> fits(o.value))
    ensures TakeOption(take, PutOption(put, o, rest)) == Success((o, rest))
  {
    if o.Some? {
      assert take(put(o.value, rest)) == Success((o.value, rest));
    }
  }

  lemma ConflictListRoundTrip(items: seq<SharedResource>, bound: nat, rest: Buffer, limits: Limits)
    requires FitsList(items, bound, ConflictFitter(limits))
    ensures TakeList(ConflictTaker(limits), bound, PutList(PutConflict, items, rest)) == Success((items, rest))
  {
    ConflictLists(limits);
    ListRoundTrip(PutConflict, ConflictTaker(limits), ConflictFitter(limits), items, bound, rest);
  }

  // ----- Class results ---------------------------------------------------------------------------------

  function PutClass(c: ClassResult, rest: Buffer): Buffer {
    PutByte(Code(ALL_CLASSES, c.klass), PutByte(Code(OUTCOMES, c.outcome), PutBool(c.evidenceComplete,
      PutList(PutConflict, c.shared, PutLong(c.sharedTotal, PutText(c.detail, rest))))))
  }

  /** A text field that is not an identity may fill a quarter of a record. */
  function TextBound(limits: Limits): nat {
    limits.maxPersistenceRecordBytes / 4
  }

  /** What claims PROVEN_DIVERSE without complete evidence is not taken. */
  function TakeClass(s: Buffer, limits: Limits): Taken<ClassResult> {
    var (classCode, s1) :- TakeByte(s);
    var (outcomeCode, s2) :- TakeByte(s1);
    var klass :- Named(ALL_CLASSES, classCode);
    var outcome :- Named(OUTCOMES, outcomeCode);
    var (complete, s3) :- TakeBool(s2);
    var (shared, s4) :- TakeList(ConflictTaker(limits), limits.maxConflictsPerProof, s3);
    var (total, s5) :- TakeLong(s4);
    if total < |shared| then Failure(INTERNAL_INCONSISTENCY)
    else
      var (text, s6) :- TakeText(s5, TextBound(limits));
      if outcome == PROVEN_DIVERSE && !complete then Failure(INCOMPLETE_EVIDENCE_CLAIM)
      else Success((ClassResult(klass, outcome, complete, shared, total, text), s6))
  }

  ghost predicate FitsClass(c: ClassResult, limits: Limits) {
    && FitsList(c.shared, limits.maxConflictsPerProof, ConflictFitter(limits))
    && |c.shared| <= c.sharedTotal && FitsLong(c.sharedTotal)
    && FitsText(c.detail, TextBound(limits))
    && (c.outcome == PROVEN_DIVERSE ==> c.evidenceComplete)
  }

  lemma ClassCodes(c: ClassResult)
    ensures c.klass in ALL_CLASSES && c.outcome in OUTCOMES
  {
    assert ALL_CLASSES[ClassRank(c.klass) - 1] == c.klass;
    OutcomeCode(c.outcome);
  }

  lemma OutcomeCode(o: Outcome)
    ensures o in OUTCOMES
  {
    assert OUTCOMES[0] == PROVEN_DIVERSE && OUTCOMES[1] == NOT_DIVERSE && OUTCOMES[2] == UNKNOWN_INCOMPLETE_EVIDENCE;
    assert OUTCOMES[3] == STALE_PATH_AUTHORITY && OUTCOMES[4] == STALE_TOPOLOGY && OUTCOMES[5] == STALE_FAILURE_DOMAIN;
    assert OUTCOMES[6] == STALE_POLICY && OUTCOMES[7] == REVALIDATION_REQUIRED && OUTCOMES[8] == UNAUTHORIZED;
    assert OUTCOMES[9] == RESOURCE_LIMIT && OUTCOMES[10] == MALFORMED;
  }

  lemma ClassRoundTrip(c: ClassResult, rest: Buffer, limits: Limits)
    requires FitsClass(c, limits)
    ensures TakeClass(PutClass(c, rest), limits) == Success((c, rest))
  {
    ClassCodes(c);
    CodeRoundTrip(ALL_CLASSES, c.klass);
    CodeRoundTrip(OUTCOMES, c.outcome);
    var s5 := PutText(c.detail, rest);
    ConflictListRoundTrip(c.shared, limits.maxConflictsPerProof, PutLong(c.sharedTotal, s5), limits);
    LongRoundTrip(c.sharedTotal, s5);
    TextRoundTrip(c.detail, rest, TextBound(limits));
  }

  lemma ClassFits(s: Buffer, limits: Limits)
    ensures TakeClass(s, limits).Success? ==> FitsClass(TakeClass(s, limits).value.0, limits)
  {
    if TakeClass(s, limits).Success? {
      var s3 := s[1..][1..][1..];
      ConflictLists(limits);
      ListFits(ConflictTaker(limits), ConflictFitter(limits), limits.maxConflictsPerProof, s3);
      var s4 := TakeList(ConflictTaker(limits), limits.maxConflictsPerProof, s3).value.1;
      LongFits(s4);
      TextFits(s4[8..], TextBound(limits));
    }
  }

  function ClassTaker(limits: Limits): Buffer -> Taken<ClassResult> {
    s => TakeClass(s, limits)
  }

  ghost function ClassFitter(limits: Limits): ClassResult -> bool {
    c => FitsClass(c, limits)
  }

  lemma ClassLists(limits: Limits)
    ensures Inverse(PutClass, ClassTaker(limits), ClassFitter(limits))
    ensures OnlyFitting(ClassTaker(limits), ClassFitter(limits))
  {
    forall c, s | ClassFitter(limits)(c)
      ensures ClassTaker(limits)(PutClass(c, s)) == Success((c, s))
    {
      ClassRoundTrip(c, s, limits);
    }
    forall s | ClassTaker(limits)(s).Success?
      ensures ClassFitter(limits)(ClassTaker(limits)(s).value.0)
    {
      ClassFits(s, limits);
    }
  }

  lemma ClassListRoundTrip(items: seq<ClassResult>, bound: nat, rest: Buffer, limits: Limits)
    requires FitsList(items, bound, ClassFitter(limits))
    ensures TakeList(ClassTaker(limits), bound, PutList(PutClass, items, rest)) == Success((items, rest))
  {
    ClassLists(limits);
    ListRoundTrip(PutClass, ClassTaker(limits), ClassFitter(limits), items, bound, rest);
  }

  // ----- Path references and identities -------------------------------------------------------------------

  function PutRef(ref: PathRef, rest: Buffer): Buffer {
    PutText(ref.path, PutLong(ref.generation, rest))
  }

  function TakeRef(s: Buffer, limits: Limits): Taken<PathRef> {
    var (path, s1) :- TakeId(s, limits, PATH_ID);
    var (generation, s2) :- TakeLong(s1);
    Success((PathRef(path, generation), s2))
  }

  ghost predicate FitsRef(ref: PathRef, limits: Limits) {
    FitsId(ref.path, limits, PATH_ID) && FitsLong(ref.generation)
  }

  function RefTaker(limits: Limits): Buffer -> Taken<PathRef> {
    s => TakeRef(s, limits)
  }

  ghost function RefFitter(limits: Limits): PathRef -> bool {
    ref => FitsRef(ref, limits)
  }

  lemma RefLists(limits: Limits)
    ensures Inverse(PutRef, RefTaker(limits), RefFitter(limits))
    ensures OnlyFitting(RefTaker(limits), RefFitter(limits))
  {
    forall ref, s | RefFitter(limits)(ref)
      ensures RefTaker(limits)(PutRef(ref, s)) == Success((ref, s))
    {
      IdRoundTrip(ref.path, PutLong(ref.generation, s), limits, PATH_ID);
      LongRoundTrip(ref.generation, s);
    }
    forall s | RefTaker(limits)(s).Success?
      ensures RefFitter(limits)(RefTaker(limits)(s).value.0)
    {
      IdFits(s, limits, PATH_ID);
      LongFits(TakeId(s, limits, PATH_ID).value.1);
    }
  }

  lemma RefListRoundTrip(items: seq<PathRef>, bound: nat, rest: Buffer, limits: Limits)
    requires FitsList(items, bound, RefFitter(limits))
    ensures TakeList(RefTaker(limits), bound, PutList(PutRef, items, rest)) == Success((items, rest))
  {
    RefLists(limits);
    ListRoundTrip(PutRef, RefTaker(limits), RefFitter(limits), items, bound, rest);
  }

  function PathTaker(limits: Limits): Buffer -> Taken<string> {
    s => TakeId(s, limits, PATH_ID)
  }

  ghost function PathFitter(limits: Limits): string -> bool {
    id => FitsId(id, limits, PATH_ID)
  }

  lemma PathLists(limits: Limits)
    ensures Inverse(PutText, PathTaker(limits), PathFitter(limits))
    ensures OnlyFitting(PathTaker(limits), PathFitter(limits))
  {
    forall id, s | PathFitter(limits)(id)
      ensures PathTaker(limits)(PutText(id, s)) == Success((id, s))
    {
      IdRoundTrip(id, s, limits, PATH_ID);
    }
    forall s | PathTaker(limits)(s).Success?
      ensures PathFitter(limits)(PathTaker(limits)(s).value.0)
    {
      IdFits(s, limits, PATH_ID);
    }
  }

  // ----- The matrix ---------------------------------------------------------------------------------------

  function PutCell(c: PairwiseCell, rest: Buffer): Buffer {
    PutVarint(c.left, PutVarint(c.right, PutBool(c.independent, PutBool(c.evidenceComplete,
      PutList(PutClass, c.classes, PutOption(PutConflict, c.primaryConflict, rest))))))
  }

  function TakeCell(s: Buffer, paths: nat, limits: Limits): Taken<PairwiseCell> {
    var (left, s1) :- TakeNumber(s);
    var (right, s2) :- TakeNumber(s1);
    if left >= paths || right >= paths then Failure(UNKNOWN_REFERENCE)
    else if left >= right then Failure(INTERNAL_INCONSISTENCY)
    else
      var (independent, s3) :- TakeBool(s2);
      var (complete, s4) :- TakeBool(s3);
      var (classes, s5) :- TakeList(ClassTaker(limits), limits.maxRequiredClasses, s4);
      var (primary, s6) :- TakeOption(ConflictTaker(limits), s5);
      Success((PairwiseCell(left, right, independent, complete, classes, primary), s6))
  }

  ghost predicate FitsCell(c: PairwiseCell, paths: nat, limits: Limits) {
    && c.left < c.right < paths && FitsLong(c.left) && FitsLong(c.right)
    && FitsList(c.classes, limits.maxRequiredClasses, ClassFitter(limits))
    && (c.primaryConflict.Some? ==> FitsConflict(c.primaryConflict.value, limits))
  }

  lemma CellRoundTrip(c: PairwiseCell, rest: Buffer, paths: nat, limits: Limits)
    requires FitsCell(c, paths, limits)
    ensures TakeCell(PutCell(c, rest), paths, limits) == Success((c, rest))
  {
    var s5 := PutOption(PutConflict, c.primaryConflict, rest);
    var s4 := PutList(PutClass, c.classes, s5);
    var s2 := PutBool(c.independent, PutBool(c.evidenceComplete, s4));
    NumberRoundTrip(c.left, PutVarint(c.right, s2));
    NumberRoundTrip(c.right, s2);
    ClassListRoundTrip(c.classes, limits.maxRequiredClasses, s5, limits);
    ConflictLists(limits);
    OptionRoundTrip(PutConflict, ConflictTaker(limits), ConflictFitter(limits), c.primaryConflict, rest);
  }

  lemma CellFits(s: Buffer, paths: nat, limits: Limits)
    ensures TakeCell(s, paths, limits).Success? ==> FitsCell(TakeCell(s, paths, limits).value.0, paths, limits)
  {
    if TakeCell(s, paths, limits).Success? {
      NumberFits(s);
      var s1 := TakeNumber(s).value.1;
      NumberFits(s1);
      var s4 := TakeNumber(s1).value.1[1..][1..];
      ClassLists(limits);
      ListFits(ClassTaker(limits), ClassFitter(limits), limits.maxRequiredClasses, s4);
      var s5 := TakeList(ClassTaker(limits), limits.maxRequiredClasses, s4).value.1;
      if s5[0] == 1 {
        ConflictFits(s5[1..], limits);
      }
    }
  }

  function CellTaker(paths: nat, limits: Limits): Buffer -> Taken<PairwiseCell> {
    s => TakeCell(s, paths, limits)
  }

  ghost function CellFitter(paths: nat, limits: Limits): PairwiseCell -> bool {
    c => FitsCell(c, paths, limits)
  }

  lemma CellLists(paths: nat, limits: Limits)
    ensures Inverse(PutCell, CellTaker(paths, limits), CellFitter(paths, limits))
    ensures OnlyFitting(CellTaker(paths, limits), CellFitter(paths, limits))
  {
    forall c, s | CellFitter(paths, limits)(c)
      ensures CellTaker(paths, limits)(PutCell(c, s)) == Success((c, s))
    {
      CellRoundTrip(c, s, paths, limits);
    }
    forall s | CellTaker(paths, limits)(s).Success?
      ensures CellFitter(paths, limits)(CellTaker(paths, limits)(s).value.0)
    {
      CellFits(s, paths, limits);
    }
  }

  function PutMatrix(m: PairwiseMatrix, rest: Buffer): Buffer {
    PutList(PutText, m.order, PutList(PutCell, m.cells, rest))
  }

  /** The count of cells must match the order before any cell is read. */
  function TakeMatrix(s: Buffer, limits: Limits): Taken<PairwiseMatrix> {
    var (order, s1) :- TakeList(PathTaker(limits), limits.maxPathsPerProof, s);
    var (count, s2) :- TakeCount(s1, limits.maxPairwiseCells);
    if count != T.CellCount(|order|) then Failure(MATRIX_DIMENSION_MISMATCH)
    else
      var (cells, s3) :- TakeMany(CellTaker(|order|, limits), count, [], s2);
      Success((PairwiseMatrix(order, cells), s3))
  }

  ghost predicate FitsMatrix(m: PairwiseMatrix, limits: Limits) {
    && FitsList(m.order, limits.maxPathsPerProof, PathFitter(limits))
    && |m.cells| == T.CellCount(|m.order|)
    && FitsList(m.cells, limits.maxPairwiseCells, CellFitter(|m.order|, limits))
  }

  lemma MatrixRoundTrip(m: PairwiseMatrix, rest: Buffer, limits: Limits)
    requires FitsMatrix(m, limits)
    ensures TakeMatrix(PutMatrix(m, rest), limits) == Success((m, rest))
  {
    PathLists(limits);
    ListRoundTrip(PutText, PathTaker(limits), PathFitter(limits), m.order, limits.maxPathsPerProof,
                  PutList(PutCell, m.cells, rest));
    CellLists(|m.order|, limits);
    NumberRoundTrip(|m.cells|, PutMany(PutCell, m.cells, rest));
    ManyRoundTrip(PutCell, CellTaker(|m.order|, limits), CellFitter(|m.order|, limits), m.cells, [], rest);
    assert [] + m.cells == m.cells;
  }

  lemma MatrixFits(s: Buffer, limits: Limits)
    ensures TakeMatrix(s, limits).Success? ==> FitsMatrix(TakeMatrix(s, limits).value.0, limits)
  {
    if TakeMatrix(s, limits).Success? {
      PathLists(limits);
      ListFits(PathTaker(limits), PathFitter(limits), limits.maxPathsPerProof, s);
      var (order, s1) := TakeList(PathTaker(limits), limits.maxPathsPerProof, s).value;
      NumberFits(s1);
      CellLists(|order|, limits);
      ManyFit(CellTaker(|order|, limits), CellFitter(|order|, limits), T.CellCount(|order|), [],
              TakeNumber(s1).value.1);
    }
  }

  // ----- The witness ---------------------------------------------------------------------------------------

  function PutWitness(w: WitnessSubset, rest: Buffer): Buffer {
    PutBool(w.present, PutVarint(w.requestedK,
                                 PutVarint(w.achieved, PutBool(w.maximumExact, PutList(PutIndex, w.indices, rest)))))
  }

  predicate Ascends(s: seq<nat>) {
    forall k | 1 <= k < |s| :: s[k - 1] < s[k]
  }

  /** The named subset may exceed what is proven, never fall short of it. */
  function TakeWitness(s: Buffer, limits: Limits): Taken<WitnessSubset> {
    var (present, s1) :- TakeBool(s);
    var (requested, s2) :- TakeNumber(s1);
    var (achieved, s3) :- TakeNumber(s2);
    var (exact, s4) :- TakeBool(s3);
    if !FitsWord(requested) || !FitsWord(achieved) then Failure(ARITHMETIC_OVERFLOW)
    else
      var (indices, s5) :- TakeList(TakeIndex, limits.maxPathsPerProof, s4);
      if |indices| < achieved || !Ascends(indices) then Failure(INVALID_WITNESS)
      else Success((WitnessSubset(present, requested, indices, achieved, exact), s5))
  }

  ghost predicate FitsWitness(w: WitnessSubset, limits: Limits) {
    && FitsWord(w.requestedK) && FitsWord(w.achieved)
    && FitsList(w.indices, limits.maxPathsPerProof, FitsWord)
    && w.achieved <= |w.indices| && Ascends(w.indices)
  }

  lemma WitnessRoundTrip(w: WitnessSubset, rest: Buffer, limits: Limits)
    requires FitsWitness(w, limits)
    ensures TakeWitness(PutWitness(w, rest), limits) == Success((w, rest))
  {
    var s4 := PutList(PutIndex, w.indices, rest);
    var s3 := PutBool(w.maximumExact, s4);
    NumberRoundTrip(w.requestedK, PutVarint(w.achieved, s3));
    NumberRoundTrip(w.achieved, s3);
    IndexInverse();
    ListRoundTrip(PutIndex, TakeIndex, FitsWord, w.indices, limits.maxPathsPerProof, rest);
  }

  lemma WitnessFits(s: Buffer, limits: Limits)
    ensures TakeWitness(s, limits).Success? ==> FitsWitness(TakeWitness(s, limits).value.0, limits)
  {
    if TakeWitness(s, limits).Success? {
      var s2 := TakeNumber(s[1..]).value.1;
      ListFits(TakeIndex, FitsWord, limits.maxPathsPerProof, TakeNumber(s2).value.1[1..]);
    }
  }

  // ----- Dependencies -----------------------------------------------------------------------------------

  function PutEntity(e: EntityRef, rest: Buffer): Buffer {
    PutByte(Code(ENTITY_KINDS, e.kind), PutText(e.id, rest))
  }

  function TakeEntity(s: Buffer, limits: Limits): Taken<EntityRef> {
    var (code, s1) :- TakeByte(s);
    var kind :- Named(ENTITY_KINDS, code);
    var (id, s2) :- TakeText(s1, limits.maxIdentityLength);
    Success((EntityRef(kind, id), s2))
  }

  function EntityTaker(limits: Limits): Buffer -> Taken<EntityRef> {
    s => TakeEntity(s, limits)
  }

  ghost function EntityFitter(limits: Limits): EntityRef -> bool {
    (e: EntityRef) => FitsText(e.id, limits.maxIdentityLength)
  }

  lemma EntityLists(limits: Limits)
    ensures Inverse(PutEntity, EntityTaker(limits), EntityFitter(limits))
    ensures OnlyFitting(EntityTaker(limits), EntityFitter(limits))
  {
    forall e, s | EntityFitter(limits)(e)
      ensures EntityTaker(limits)(PutEntity(e, s)) == Success((e, s))
    {
      EntityCode(e.kind);
      CodeRoundTrip(ENTITY_KINDS, e.kind);
      TextRoundTrip(e.id, s, limits.maxIdentityLength);
    }
    forall s | EntityTaker(limits)(s).Success?
      ensures EntityFitter(limits)(EntityTaker(limits)(s).value.0)
    {
      TextFits(s[1..], limits.maxIdentityLength);
    }
  }

  lemma EntityListRoundTrip(items: seq<EntityRef>, bound: nat, rest: Buffer, limits: Limits)
    requires FitsList(items, bound, EntityFitter(limits))
    ensures TakeList(EntityTaker(limits), bound, PutList(PutEntity, items, rest)) == Success((items, rest))
  {
    EntityLists(limits);
    ListRoundTrip(PutEntity, EntityTaker(limits), EntityFitter(limits), items, bound, rest);
  }

  lemma EntityCode(kind: EntityKind)
    ensures kind in ENTITY_KINDS
  {
    assert ENTITY_KINDS[0] == ENDPOINT && ENTITY_KINDS[1] == NODE && ENTITY_KINDS[2] == LINK
           && ENTITY_KINDS[3] == DEVICE;
  }

  lemma ExemptionCode(e: EndpointExemption)
    ensures e in EXEMPTIONS
  {
    assert EXEMPTIONS[0] == NONE && EXEMPTIONS[1] == SHARED_SOURCE_AND_DESTINATION;
    assert EXEMPTIONS[2] == SHARED_SOURCE_ONLY && EXEMPTIONS[3] == SHARED_DESTINATION_ONLY
           && EXEMPTIONS[4] == ANY_ENDPOINT;
  }

  function PutDependencies(d: Dependencies, rest: Buffer): Buffer {
    PutLong(d.policyGeneration, PutLong(d.topologyGeneration, PutLong(d.domainGeneration, PutLong(d.epoch,
      PutByte(Code(EXEMPTIONS, d.endpointExemption),
        PutList(PutRef, d.paths, PutList(PutEntity, d.topologyEntities, rest)))))))
  }

  function TakeDependencies(s: Buffer, limits: Limits): Taken<Dependencies> {
    var (policy, s1) :- TakeLong(s);
    var (topology, s2) :- TakeLong(s1);
    var (domains, s3) :- TakeLong(s2);
    var (epoch, s4) :- TakeLong(s3);
    var (code, s5) :- TakeByte(s4);
    var exemption :- Named(EXEMPTIONS, code);
    var (paths, s6) :- TakeList(RefTaker(limits), limits.maxPathsPerProof, s5);
    var (entities, s7) :- TakeList(EntityTaker(limits), limits.maxTopologyDependencies, s6);
    Success((Dependencies(policy, topology, domains, epoch, paths, entities, exemption), s7))
  }

  ghost predicate FitsDependencies(d: Dependencies, limits: Limits) {
    && FitsLong(d.policyGeneration) && FitsLong(d.topologyGeneration) && FitsLong(d.domainGeneration)
    && FitsLong(d.epoch)
    && FitsList(d.paths, limits.maxPathsPerProof, RefFitter(limits))
    && FitsList(d.topologyEntities, limits.maxTopologyDependencies, EntityFitter(limits))
  }

  lemma DependenciesRoundTrip(d: Dependencies, rest: Buffer, limits: Limits)
    requires FitsDependencies(d, limits)
    ensures TakeDependencies(PutDependencies(d, rest), limits) == Success((d, rest))
  {
    var s6 := PutList(PutEntity, d.topologyEntities, rest);
    var s5 := PutList(PutRef, d.paths, s6);
    var s4 := PutByte(Code(EXEMPTIONS, d.endpointExemption), s5);
    var s3 := PutLong(d.epoch, s4);
    var s2 := PutLong(d.domainGeneration, s3);
    LongRoundTrip(d.policyGeneration, PutLong(d.topologyGeneration, s2));
    LongRoundTrip(d.topologyGeneration, s2);
    LongRoundTrip(d.domainGeneration, s3);
    LongRoundTrip(d.epoch, s4);
    ExemptionCode(d.endpointExemption);
    CodeRoundTrip(EXEMPTIONS, d.endpointExemption);
    RefListRoundTrip(d.paths, limits.maxPathsPerProof, s6, limits);
    EntityListRoundTrip(d.topologyEntities, limits.maxTopologyDependencies, rest, limits);
  }

  lemma DependenciesFit(s: Buffer, limits: Limits)
    ensures TakeDependencies(s, limits).Success? ==> FitsDependencies(TakeDependencies(s, limits).value.0, limits)
  {
    if TakeDependencies(s, limits).Success? {
      var s1: Buffer := TakeLong(s).value.1;
      var s2: Buffer := TakeLong(s1).value.1;
      var s3: Buffer := TakeLong(s2).value.1;
      var s5: Buffer := TakeByte(TakeLong(s3).value.1).value.1;
      LongFits(s);
      LongFits(s1);
      LongFits(s2);
      LongFits(s3);
      RefLists(limits);
      ListFits(RefTaker(limits), RefFitter(limits), limits.maxPathsPerProof, s5);
      EntityLists(limits);
      ListFits(EntityTaker(limits), EntityFitter(limits), limits.maxTopologyDependencies,
               TakeList(RefTaker(limits), limits.maxPathsPerProof, s5).value.1);
    }
  }

  // ----- The three parts of a revision ----------------------------------------------------------------------

  const DIGEST_BYTES: nat := 16

  /** A digest field is read as exactly sixteen bytes. */
  function TakeDigest(s: Buffer): Taken<Buffer> {
    match TakeBytes(s, DIGEST_BYTES)
    case NotTaken(status) => Failure(ReasonOf(status))
    case Taken(bytes, rest) => if |bytes| < DIGEST_BYTES then Failure(Reason.TRUNCATED) else Success((bytes, rest))
  }

  lemma DigestRoundTrip(digest: Buffer, rest: Buffer)
    requires |digest| == DIGEST_BYTES
    ensures TakeDigest(PutBytes(digest, rest)) == Success((digest, rest))
  {
    TakePutBytes(digest, rest, DIGEST_BYTES);
  }

  function PutHead(h: Head, rest: Buffer): Buffer {
    PutText(h.id, PutLong(h.generation, PutText(h.request.policy, PutLong(h.request.policyGeneration,
      PutList(PutRef, h.request.paths, PutBytes(h.requestDigest, PutBytes(h.semanticDigest, rest)))))))
  }

  function TakeHead(s: Buffer, limits: Limits): Taken<Head> {
    var (id, s1) :- TakeId(s, limits, PROOF_ID);
    var (generation, s2) :- TakeLong(s1);
    var (policy, s3) :- TakeId(s2, limits, POLICY_ID);
    var (policyGeneration, s4) :- TakeLong(s3);
    var (paths, s5) :- TakeList(RefTaker(limits), limits.maxPathsPerProof, s4);
    var (requestDigest, s6) :- TakeDigest(s5);
    var (semanticDigest, s7) :- TakeDigest(s6);
    Success((Head(id, generation, Request(policy, policyGeneration, paths), requestDigest, semanticDigest), s7))
  }

  ghost predicate FitsHead(h: Head, limits: Limits) {
    && FitsId(h.id, limits, PROOF_ID) && FitsLong(h.generation)
    && FitsId(h.request.policy, limits, POLICY_ID) && FitsLong(h.request.policyGeneration)
    && FitsList(h.request.paths, limits.maxPathsPerProof, RefFitter(limits))
    && |h.requestDigest| == DIGEST_BYTES && |h.semanticDigest| == DIGEST_BYTES
  }

  lemma HeadRoundTrip(h: Head, rest: Buffer, limits: Limits)
    requires FitsHead(h, limits)
    ensures TakeHead(PutHead(h, rest), limits) == Success((h, rest))
  {
    var s6 := PutBytes(h.semanticDigest, rest);
    var s5 := PutBytes(h.requestDigest, s6);
    var s4 := PutList(PutRef, h.request.paths, s5);
    var s3 := PutLong(h.request.policyGeneration, s4);
    var s2 := PutText(h.request.policy, s3);
    IdRoundTrip(h.id, PutLong(h.generation, s2), limits, PROOF_ID);
    LongRoundTrip(h.generation, s2);
    IdRoundTrip(h.request.policy, s3, limits, POLICY_ID);
    LongRoundTrip(h.request.policyGeneration, s4);
    RefListRoundTrip(h.request.paths, limits.maxPathsPerProof, s5, limits);
    DigestRoundTrip(h.requestDigest, s6);
    DigestRoundTrip(h.semanticDigest, rest);
  }

  lemma HeadFits(s: Buffer, limits: Limits)
    ensures TakeHead(s, limits).Success? ==> FitsHead(TakeHead(s, limits).value.0, limits)
  {
    if TakeHead(s, limits).Success? {
      var s1 := TakeId(s, limits, PROOF_ID).value.1;
      var s2 := TakeLong(s1).value.1;
      var s3 := TakeId(s2, limits, POLICY_ID).value.1;
      IdFits(s, limits, PROOF_ID);
      LongFits(s1);
      IdFits(s2, limits, POLICY_ID);
      LongFits(s3);
      RefLists(limits);
      ListFits(RefTaker(limits), RefFitter(limits), limits.maxPathsPerProof, TakeLong(s3).value.1);
    }
  }

  function PutNotice(n: LimitNotice, rest: Buffer): Buffer {
    PutByte(Code(BOUNDS, n.bound), PutLong(n.observed, PutLong(n.allowed, rest)))
  }

  function TakeNotice(s: Buffer): Taken<LimitNotice> {
    var (code, s1) :- TakeByte(s);
    var bound :- Named(BOUNDS, code);
    var (observed, s2) :- TakeLong(s1);
    var (allowed, s3) :- TakeLong(s2);
    Success((LimitNotice(bound, observed, allowed), s3))
  }

  predicate FitsNotice(n: LimitNotice) {
    FitsLong(n.observed) && FitsLong(n.allowed)
  }

  /** The code of a bound, as the limits declare it. */
  function BoundRank(bound: ResourceBound): nat {
    match bound
    case MAX_POLICIES => 1
    case MAX_PROOFS => 2
    case MAX_PATHS_PER_PROOF => 3
    case MAX_REQUIRED_CLASSES => 4
    case MAX_CONFLICTS_PER_PROOF => 5
    case MAX_PAIRWISE_CELLS => 6
    case MAX_DOMAIN_EVIDENCE_ENTRIES => 7
    case MAX_QUERY_RESULTS => 8
    case MAX_HISTORY => 9
    case MAX_BATCH_SIZE => 10
    case MAX_PUBLISHERS => 11
    case MAX_FRAME_BYTES => 12
    case MAX_PERSISTENCE_RECORD_BYTES => 13
    case MAX_EXPLANATION_ENTRIES => 14
    case MAX_K_SUBSET_PATHS => 15
    case MAX_SNAPSHOT_PATHS => 16
    case MAX_IDENTITY_LENGTH => 17
    case MAX_ATTEMPTS_TRACKED => 18
    case MAX_WIRE_ASSEMBLY_BYTES => 19
    case MAX_STORE_RECORDS => 20
    case MAX_STORE_BYTES => 21
    case MAX_DIFF_ENTRIES => 22
    case MAX_TOPOLOGY_DEPENDENCIES => 23
  }

  lemma BoundCode(bound: ResourceBound)
    ensures bound in BOUNDS
  {
    assert BOUNDS[BoundRank(bound) - 1] == bound;
  }

  lemma NoticeRoundTrip(n: LimitNotice, rest: Buffer)
    requires FitsNotice(n)
    ensures TakeNotice(PutNotice(n, rest)) == Success((n, rest))
  {
    BoundCode(n.bound);
    CodeRoundTrip(BOUNDS, n.bound);
    LongRoundTrip(n.observed, PutLong(n.allowed, rest));
    LongRoundTrip(n.allowed, rest);
  }

  lemma Notices()
    ensures Inverse(PutNotice, TakeNotice, FitsNotice) && OnlyFitting(TakeNotice, FitsNotice)
  {
    forall n, s | FitsNotice(n)
      ensures TakeNotice(PutNotice(n, s)) == Success((n, s))
    {
      NoticeRoundTrip(n, s);
    }
    forall s | TakeNotice(s).Success?
      ensures FitsNotice(TakeNotice(s).value.0)
    {
      LongFits(s[1..]);
      LongFits(TakeLong(s[1..]).value.1);
    }
  }

  lemma LimitRoundTrip(notice: Option<LimitNotice>, rest: Buffer)
    requires notice.Some? ==> FitsNotice(notice.value)
    ensures TakeOption(TakeNotice, PutOption(PutNotice, notice, rest)) == Success((notice, rest))
  {
    Notices();
    OptionRoundTrip(PutNotice, TakeNotice, FitsNotice, notice, rest);
  }

  function PutFindings(f: Findings, rest: Buffer): Buffer {
    PutByte(Code(OUTCOMES, f.outcome), PutText(f.detail, PutOption(PutNotice, f.limit,
      PutList(PutClass, f.classes, PutList(PutClass, f.advisories,
        PutList(PutConflict, f.conflicts, PutLong(f.conflictsTotal, rest)))))))
  }

  function TakeFindings(s: Buffer, limits: Limits): Taken<Findings> {
    var (code, s1) :- TakeByte(s);
    var outcome :- Named(OUTCOMES, code);
    var (text, s2) :- TakeText(s1, TextBound(limits));
    var (notice, s3) :- TakeOption(TakeNotice, s2);
    var (classes, s4) :- TakeList(ClassTaker(limits), limits.maxRequiredClasses, s3);
    var (advisories, s5) :- TakeList(ClassTaker(limits), limits.maxRequiredClasses, s4);
    var (conflicts, s6) :- TakeList(ConflictTaker(limits), limits.maxConflictsPerProof, s5);
    var (total, s7) :- TakeLong(s6);
    if total < |conflicts| then Failure(INTERNAL_INCONSISTENCY)
    else Success((Findings(outcome, text, notice, classes, advisories, conflicts, total), s7))
  }

  ghost predicate FitsFindings(f: Findings, limits: Limits) {
    && FitsText(f.detail, TextBound(limits))
    && (f.limit.Some? ==> FitsNotice(f.limit.value))
    && FitsList(f.classes, limits.maxRequiredClasses, ClassFitter(limits))
    && FitsList(f.advisories, limits.maxRequiredClasses, ClassFitter(limits))
    && FitsList(f.conflicts, limits.maxConflictsPerProof, ConflictFitter(limits))
    && |f.conflicts| <= f.conflictsTotal && FitsLong(f.conflictsTotal)
  }

  lemma OutcomeByte(outcome: Outcome, rest: Buffer)
    ensures TakeByte(PutByte(Code(OUTCOMES, outcome), rest)) == Success((Code(OUTCOMES, outcome), rest))
    ensures Named(OUTCOMES, Code(OUTCOMES, outcome)) == Success(outcome)
  {
    OutcomeCode(outcome);
    CodeRoundTrip(OUTCOMES, outcome);
  }

  lemma FindingListsRoundTrip(f: Findings, rest: Buffer, limits: Limits)
    requires FitsFindings(f, limits)
    ensures var s6 := PutLong(f.conflictsTotal, rest);
            var s5 := PutList(PutConflict, f.conflicts, s6);
            var s4 := PutList(PutClass, f.advisories, s5);
            && TakeList(ClassTaker(limits), limits.maxRequiredClasses, PutList(PutClass, f.classes, s4))
                == Success((f.classes, s4))
            && TakeList(ClassTaker(limits), limits.maxRequiredClasses, s4) == Success((f.advisories, s5))
            && TakeList(ConflictTaker(limits), limits.maxConflictsPerProof, s5) == Success((f.conflicts, s6))
            && TakeLong(s6) == Success((f.conflictsTotal, rest))
  {
    var s6 := PutLong(f.conflictsTotal, rest);
    var s5 := PutList(PutConflict, f.conflicts, s6);
    var s4 := PutList(PutClass, f.advisories, s5);
    ClassListRoundTrip(f.classes, limits.maxRequiredClasses, s4, limits);
    ClassListRoundTrip(f.advisories, limits.maxRequiredClasses, s5, limits);
    ConflictListRoundTrip(f.conflicts, limits.maxConflictsPerProof, s6, limits);
    LongRoundTrip(f.conflictsTotal, rest);
  }

  lemma FindingsRoundTrip(f: Findings, rest: Buffer, limits: Limits)
    requires FitsFindings(f, limits)
    ensures TakeFindings(PutFindings(f, rest), limits) == Success((f, rest))
  {
    var s6 := PutLong(f.conflictsTotal, rest);
    var s5 := PutList(PutConflict, f.conflicts, s6);
    var s4 := PutList(PutClass, f.advisories, s5);
    var s3 := PutList(PutClass, f.classes, s4);
    var s2 := PutOption(PutNotice, f.limit, s3);
    var s1 := PutText(f.detail, s2);
    OutcomeByte(f.outcome, s1);
    TextRoundTrip(f.detail, s2, TextBound(limits));
    LimitRoundTrip(f.limit, s3);
    FindingListsRoundTrip(f, rest, limits);
    FindingsCompose(f, limits, PutFindings(f, rest), s1, s2, s3, s4, s5, s6, rest);
  }

  /** Fields read one after the other are the findings. */
  lemma FindingsCompose(f: Findings, limits: Limits, s: Buffer, s1: Buffer, s2: Buffer, s3: Buffer, s4: Buffer,
                        s5: Buffer,
                        s6: Buffer, s7: Buffer)
    requires TakeByte(s) == Success((Code(OUTCOMES, f.outcome), s1))
             && Named(OUTCOMES, Code(OUTCOMES, f.outcome)) == Success(f.outcome)
    requires TakeText(s1, TextBound(limits)) == Success((f.detail, s2))
    requires TakeOption(TakeNotice, s2) == Success((f.limit, s3))
    requires TakeList(ClassTaker(limits), limits.maxRequiredClasses, s3) == Success((f.classes, s4))
    requires TakeList(ClassTaker(limits), limits.maxRequiredClasses, s4) == Success((f.advisories, s5))
    requires TakeList(ConflictTaker(limits), limits.maxConflictsPerProof, s5) == Success((f.conflicts, s6))
    requires TakeLong(s6) == Success((f.conflictsTotal, s7)) && |f.conflicts| <= f.conflictsTotal
    ensures TakeFindings(s, limits) == Success((f, s7))
  {
  }

  lemma FindingsFit(s: Buffer, limits: Limits)
    ensures TakeFindings(s, limits).Success? ==> FitsFindings(TakeFindings(s, limits).value.0, limits)
  {
    if TakeFindings(s, limits).Success? {
      var s1 := TakeByte(s).value.1;
      var s2 := TakeText(s1, TextBound(limits)).value.1;
      var s3 := TakeOption(TakeNotice, s2).value.1;
      var s4 := TakeList(ClassTaker(limits), limits.maxRequiredClasses, s3).value.1;
      var s5 := TakeList(ClassTaker(limits), limits.maxRequiredClasses, s4).value.1;
      TextFits(s1, TextBound(limits));
      Notices();
      ClassLists(limits);
      ListFits(ClassTaker(limits), ClassFitter(limits), limits.maxRequiredClasses, s3);
      ListFits(ClassTaker(limits), ClassFitter(limits), limits.maxRequiredClasses, s4);
      ConflictLists(limits);
      ListFits(ConflictTaker(limits), ConflictFitter(limits), limits.maxConflictsPerProof, s5);
      LongFits(TakeList(ConflictTaker(limits), limits.maxConflictsPerProof, s5).value.1);
    }
  }

  function PutStanding(st: Standing, rest: Buffer): Buffer {
    PutLong(st.provenance.epoch,
            PutText(st.provenance.publisher, PutText(st.provenance.boot, PutText(st.provenance.attempt,
      PutByte(Code(LIFECYCLES, st.lifecycle), PutByte(Code(CURRENTNESSES, st.currentness), rest))))))
  }

  function TakeStanding(s: Buffer, limits: Limits): Taken<Standing> {
    var (epoch, s1) :- TakeLong(s);
    var (publisher, s2) :- TakeId(s1, limits, PUBLISHER_ID);
    var (boot, s3) :- TakeId(s2, limits, BOOT_ID);
    var (attempt, s4) :- TakeId(s3, limits, ATTEMPT_ID);
    var (lifecycleCode, s5) :- TakeByte(s4);
    var (currentnessCode, s6) :- TakeByte(s5);
    var lifecycle :- Named(LIFECYCLES, lifecycleCode);
    var currentness :- Named(CURRENTNESSES, currentnessCode);
    Success((Standing(R.Provenance(epoch, publisher, boot, attempt), lifecycle, currentness), s6))
  }

  ghost predicate FitsStanding(st: Standing, limits: Limits) {
    && FitsLong(st.provenance.epoch)
    && FitsId(st.provenance.publisher, limits, PUBLISHER_ID)
    && FitsId(st.provenance.boot, limits, BOOT_ID)
    && FitsId(st.provenance.attempt, limits, ATTEMPT_ID)
  }

  lemma StandingCodes(lifecycle: L.State, currentness: L.Currentness)
    ensures lifecycle in LIFECYCLES && currentness in CURRENTNESSES
  {
    assert LIFECYCLES[0] == L.State.DECLARED && LIFECYCLES[1] == L.State.CURRENT;
    assert LIFECYCLES[2] == L.State.REVALIDATION_REQUIRED && LIFECYCLES[3] == L.State.SUPERSEDED;
    assert LIFECYCLES[4] == L.State.REVOKED && LIFECYCLES[5] == L.State.RETIRED && LIFECYCLES[6] == L.State.HISTORICAL;
    assert CURRENTNESSES[0] == L.Currentness.CURRENT && CURRENTNESSES[1] == L.Currentness.STALE_PATH_AUTHORITY;
    assert CURRENTNESSES[2] == L.Currentness.STALE_TOPOLOGY && CURRENTNESSES[3] == L.Currentness.STALE_FAILURE_DOMAIN;
    assert CURRENTNESSES[4] == L.Currentness.STALE_POLICY && CURRENTNESSES[5] == L.Currentness.STALE_EPOCH;
    assert CURRENTNESSES[6] == L.Currentness.FENCED_PUBLISHER && CURRENTNESSES[7] == L.Currentness.INCOMPLETE_EVIDENCE;
    assert CURRENTNESSES[8] == L.Currentness.REVALIDATION_REQUIRED;
  }

  lemma StandingRoundTrip(st: Standing, rest: Buffer, limits: Limits)
    requires FitsStanding(st, limits)
    ensures TakeStanding(PutStanding(st, rest), limits) == Success((st, rest))
  {
    var s4 := PutByte(Code(LIFECYCLES, st.lifecycle), PutByte(Code(CURRENTNESSES, st.currentness), rest));
    var s3 := PutText(st.provenance.attempt, s4);
    var s2 := PutText(st.provenance.boot, s3);
    LongRoundTrip(st.provenance.epoch, PutText(st.provenance.publisher, s2));
    IdRoundTrip(st.provenance.publisher, s2, limits, PUBLISHER_ID);
    IdRoundTrip(st.provenance.boot, s3, limits, BOOT_ID);
    IdRoundTrip(st.provenance.attempt, s4, limits, ATTEMPT_ID);
    StandingCodes(st.lifecycle, st.currentness);
    CodeRoundTrip(LIFECYCLES, st.lifecycle);
    CodeRoundTrip(CURRENTNESSES, st.currentness);
  }

  lemma StandingFits(s: Buffer, limits: Limits)
    ensures TakeStanding(s, limits).Success? ==> FitsStanding(TakeStanding(s, limits).value.0, limits)
  {
    if TakeStanding(s, limits).Success? {
      var s1 := TakeLong(s).value.1;
      var s2 := TakeId(s1, limits, PUBLISHER_ID).value.1;
      LongFits(s);
      IdFits(s1, limits, PUBLISHER_ID);
      IdFits(s2, limits, BOOT_ID);
      IdFits(TakeId(s2, limits, BOOT_ID).value.1, limits, ATTEMPT_ID);
    }
  }

  // ----- Whole revisions ----------------------------------------------------------------------------------------

  predicate Names(c: SharedResource, paths: nat) {
    forall k | 0 <= k < |c.paths| :: c.paths[k] < paths
  }

  predicate ClassNames(c: ClassResult, paths: nat) {
    forall k | 0 <= k < |c.shared| :: Names(c.shared[k], paths)
  }

  predicate CellNames(c: PairwiseCell, paths: nat) {
    && (forall k | 0 <= k < |c.classes| :: ClassNames(c.classes[k], paths))
    && (c.primaryConflict.Some? ==> Names(c.primaryConflict.value, paths))
  }

  /** Every path index of the record names a path of the request; advisories are not looked at. */
  predicate RefersToItsPaths(p: StoredProof) {
    var n := |p.head.request.paths|;
    && (forall k | 0 <= k < |p.findings.conflicts| :: Names(p.findings.conflicts[k], n))
    && (forall k | 0 <= k < |p.findings.classes| :: ClassNames(p.findings.classes[k], n))
    && (forall k | 0 <= k < |p.matrix.cells| :: CellNames(p.matrix.cells[k], n))
  }

  predicate UnsupportedClaim(p: StoredProof) {
    && p.findings.outcome == PROVEN_DIVERSE
    && (p.findings.conflicts != [] || exists k | 0 <= k < |p.findings.classes| ::
          !p.findings.classes[k].evidenceComplete)
  }

  predicate BindsEveryGeneration(d: Dependencies) {
    d.policyGeneration > 0 && d.topologyGeneration > 0 && d.domainGeneration > 0 && d.epoch > 0
  }

  /** The semantic validation of a decoded revision, in order. */
  function Refusal(p: StoredProof): Option<Reason> {
    var paths := p.head.request.paths;
    if E.HasDuplicatePaths(paths) then Some(DUPLICATE_PATH)
    else if p.matrix.order != E.PathsOf(paths) then Some(MATRIX_DIMENSION_MISMATCH)
    else if !RefersToItsPaths(p) then Some(UNKNOWN_REFERENCE)
    else if UnsupportedClaim(p) then Some(INCOMPLETE_EVIDENCE_CLAIM)
    else if exists k | 0 <= k < |p.witnessSubset.indices| ::
              p.witnessSubset.indices[k] >= |paths| then Some(INVALID_WITNESS)
    else if p.standing.lifecycle == L.State.CURRENT && !BindsEveryGeneration(p.dependencies)
        then Some(IMPOSSIBLE_GENERATION)
    else None
  }

  function PutProof(p: StoredProof, rest: Buffer): Buffer {
    PutHead(p.head, PutFindings(p.findings, PutMatrix(p.matrix, PutWitness(p.witnessSubset,
      PutDependencies(p.dependencies, PutStanding(p.standing, rest))))))
  }

  function TakeProof(s: Buffer, limits: Limits): Taken<StoredProof> {
    var (head, s1) :- TakeHead(s, limits);
    var (findings, s2) :- TakeFindings(s1, limits);
    var (m, s3) :- TakeMatrix(s2, limits);
    var (subset, s4) :- TakeWitness(s3, limits);
    var (dependencies, s5) :- TakeDependencies(s4, limits);
    var (standing, s6) :- TakeStanding(s5, limits);
    var proof := StoredProof(head, findings, m, subset, dependencies, standing);
    match Refusal(proof)
    case Some(reason) => Failure(reason)
    case None => Success((proof, s6))
  }

  /** What a revision must be for the codec to give it back. */
  ghost predicate Storable(p: StoredProof, limits: Limits) {
    && FitsHead(p.head, limits)
    && FitsFindings(p.findings, limits)
    && FitsMatrix(p.matrix, limits)
    && FitsWitness(p.witnessSubset, limits)
    && FitsDependencies(p.dependencies, limits)
    && FitsStanding(p.standing, limits)
    && Refusal(p) == None
  }

  lemma StorableComesBack(p: StoredProof, rest: Buffer, limits: Limits)
    requires Storable(p, limits)
    ensures TakeProof(PutProof(p, rest), limits) == Success((p, rest))
  {
    var s5 := PutStanding(p.standing, rest);
    var s4 := PutDependencies(p.dependencies, s5);
    var s3 := PutWitness(p.witnessSubset, s4);
    var s2 := PutMatrix(p.matrix, s3);
    HeadRoundTrip(p.head, PutFindings(p.findings, s2), limits);
    FindingsRoundTrip(p.findings, s2, limits);
    MatrixRoundTrip(p.matrix, s3, limits);
    WitnessRoundTrip(p.witnessSubset, s4, limits);
    DependenciesRoundTrip(p.dependencies, s5, limits);
    StandingRoundTrip(p.standing, rest, limits);
  }

  /** Whatever the bytes, the decoder only hands out storable revisions. */
  lemma OnlyStorableIsTaken(s: Buffer, limits: Limits)
    ensures TakeProof(s, limits).Success? ==> Storable(TakeProof(s, limits).value.0, limits)
  {
    if TakeProof(s, limits).Success? {
      var s1 := TakeHead(s, limits).value.1;
      var s2 := TakeFindings(s1, limits).value.1;
      var s3 := TakeMatrix(s2, limits).value.1;
      var s4 := TakeWitness(s3, limits).value.1;
      HeadFits(s, limits);
      FindingsFit(s1, limits);
      MatrixFits(s2, limits);
      WitnessFits(s3, limits);
      DependenciesFit(s4, limits);
      StandingFits(TakeDependencies(s4, limits).value.1, limits);
    }
  }

  /**
   * A revision comes back, with exactly the bytes after it left, if and only if it is
   * storable; and bytes the decoder accepted can be written and read again.
   */
  lemma ProofRoundTrip(p: StoredProof, rest: Buffer, limits: Limits)
    ensures TakeProof(PutProof(p, rest), limits) == Success((p, rest)) <==> Storable(p, limits)
  {
    OnlyStorableIsTaken(PutProof(p, rest), limits);
    if Storable(p, limits) {
      StorableComesBack(p, rest, limits);
    }
  }

  lemma AcceptedBytesRewrite(s: Buffer, rest: Buffer, limits: Limits)
    requires TakeProof(s, limits).Success?
    ensures var p := TakeProof(s, limits).value.0;
            TakeProof(PutProof(p, rest), limits) == Success((p, rest))
  {
    OnlyStorableIsTaken(s, limits);
    StorableComesBack(TakeProof(s, limits).value.0, rest, limits);
  }

  function ProofTaker(limits: Limits): Buffer -> Taken<StoredProof> {
    s => TakeProof(s, limits)
  }

  ghost function ProofFitter(limits: Limits): StoredProof -> bool {
    (p: StoredProof) => Storable(p, limits)
  }

  lemma ProofLists(limits: Limits)
    ensures Inverse(PutProof, ProofTaker(limits), ProofFitter(limits))
    ensures OnlyFitting(ProofTaker(limits), ProofFitter(limits))
  {
    forall p, s | ProofFitter(limits)(p)
      ensures ProofTaker(limits)(PutProof(p, s)) == Success((p, s))
    {
      StorableComesBack(p, s, limits);
    }
    forall s | ProofTaker(limits)(s).Success?
      ensures ProofFitter(limits)(ProofTaker(limits)(s).value.0)
    {
      OnlyStorableIsTaken(s, limits);
    }
  }
}
