/**
 * What proof identities and semantic digests cover: the byte streams they hash tell
 * any two canonical requests, and any two semantic contents, apart.  Equal digests of
 * different contents are therefore collisions of the hash and of nothing else.
 */
module Identity {
  import opened Bytes
  import opened Evidence
  import opened Registry
  import P = RecordParts
  import Q = Records

  const RULE_SET_VERSION: nat := 1
  const CANONICAL_VERSION: nat := 1
  const DIGEST_VERSION: nat := 1

  function PutWord(value: nat, rest: Buffer): Buffer {
    PutInt(value, 4, rest)
  }

  // ----- Requests ------------------------------------------------------------------------------------

  /** Identity, generation, a fixed-width count and the references in canonical order. */
  function PutRequest(r: Request, rest: Buffer): Buffer {
    P.PutText(r.policy, P.PutLong(r.policyGeneration, P.PutLong(|r.paths|, P.PutMany(Q.PutRef, r.paths, rest))))
  }

  function TakeRequest(s: Buffer, limits: Limits): P.Taken<Request> {
    var (policy, s1) :- P.TakeText(s, limits.maxIdentityLength);
    var (generation, s2) :- P.TakeLong(s1);
    var (count, s3) :- P.TakeLong(s2);
    var (paths, s4) :- P.TakeMany(Q.RefTaker(limits), count, [], s3);
    P.Success((Request(policy, generation, paths), s4))
  }

  ghost predicate FitsRequest(r: Request, limits: Limits) {
    && P.FitsText(r.policy, limits.maxIdentityLength) && P.FitsLong(r.policyGeneration) && P.FitsLong(|r.paths|)
    && forall k | 0 <= k < |r.paths| :: Q.FitsRef(r.paths[k], limits)
  }

  lemma RefsRoundTrip(paths: seq<PathRef>, rest: Buffer, limits: Limits)
    requires forall k | 0 <= k < |paths| :: Q.FitsRef(paths[k], limits)
    ensures P.TakeMany(Q.RefTaker(limits), |paths|, [], P.PutMany(Q.PutRef, paths, rest)) == P.Success((paths, rest))
  {
    Q.RefLists(limits);
    assert forall k | 0 <= k < |paths| :: Q.RefFitter(limits)(paths[k]);
    P.ManyRoundTrip(Q.PutRef, Q.RefTaker(limits), Q.RefFitter(limits), paths, [], rest);
    assert [] + paths == paths;
  }

  lemma RequestRoundTrip(r: Request, rest: Buffer, limits: Limits)
    requires FitsRequest(r, limits)
    ensures TakeRequest(PutRequest(r, rest), limits) == P.Success((r, rest))
  {
    var s3 := P.PutMany(Q.PutRef, r.paths, rest);
    var s2 := P.PutLong(|r.paths|, s3);
    P.TextRoundTrip(r.policy, P.PutLong(r.policyGeneration, s2), limits.maxIdentityLength);
    P.LongRoundTrip(r.policyGeneration, s2);
    P.LongRoundTrip(|r.paths|, s3);
    RefsRoundTrip(r.paths, rest, limits);
  }

  /** What `ProofRequest::digest` hashes. */
  function RequestStream(r: Request): Buffer {
    PutWord(RULE_SET_VERSION, PutWord(CANONICAL_VERSION, PutRequest(r, [])))
  }

  lemma SameAfterPrefix(prefix: Buffer, a: Buffer, b: Buffer)
    requires prefix + a == prefix + b
    ensures a == b
  {
    assert (prefix + a)[|prefix|..] == a && (prefix + b)[|prefix|..] == b;
  }

  /** Two canonical requests with one stream are one request. */
  lemma RequestStreamInjective(a: Request, b: Request, limits: Limits)
    requires FitsRequest(a, limits) && FitsRequest(b, limits) && RequestStream(a) == RequestStream(b)
    ensures a == b
  {
    SameAfterPrefix(LittleEndian(RULE_SET_VERSION, 4), PutWord(CANONICAL_VERSION, PutRequest(a, [])),
                    PutWord(CANONICAL_VERSION, PutRequest(b, [])));
    SameAfterPrefix(LittleEndian(CANONICAL_VERSION, 4), PutRequest(a, []), PutRequest(b, []));
    RequestRoundTrip(a, [], limits);
    RequestRoundTrip(b, [], limits);
  }

  // ----- Class and cell contents ---------------------------------------------------------------------------

  function PutClassContent(c: ClassContent, rest: Buffer): Buffer {
    P.PutByte(P.Code(ALL_CLASSES, c.klass), P.PutByte(P.Code(P.OUTCOMES, c.outcome), PutBool(c.evidenceComplete,
      P.PutList(P.PutConflict, c.shared, rest))))
  }

  function TakeClassContent(s: Buffer, limits: Limits): P.Taken<ClassContent> {
    var (classCode, s1) :- P.TakeByte(s);
    var (outcomeCode, s2) :- P.TakeByte(s1);
    var klass :- P.Named(ALL_CLASSES, classCode);
    var outcome :- P.Named(P.OUTCOMES, outcomeCode);
    var (complete, s3) :- P.TakeBool(s2);
    var (shared, s4) :- P.TakeList(P.ConflictTaker(limits), limits.maxConflictsPerProof, s3);
    P.Success((ClassContent(klass, outcome, complete, shared), s4))
  }

  function ClassContentTaker(limits: Limits): Buffer -> P.Taken<ClassContent> {
    s => TakeClassContent(s, limits)
  }

  ghost function ClassContentFitter(limits: Limits): ClassContent -> bool {
    (c: ClassContent) => P.FitsList(c.shared, limits.maxConflictsPerProof, P.ConflictFitter(limits))
  }

  lemma ClassContentLists(limits: Limits)
    ensures P.Inverse(PutClassContent, ClassContentTaker(limits), ClassContentFitter(limits))
  {
    forall c, s | ClassContentFitter(limits)(c)
      ensures ClassContentTaker(limits)(PutClassContent(c, s)) == P.Success((c, s))
    {
      ClassContentRoundTrip(c, s, limits);
    }
  }

  lemma ClassContentRoundTrip(c: ClassContent, rest: Buffer, limits: Limits)
    requires P.FitsList(c.shared, limits.maxConflictsPerProof, P.ConflictFitter(limits))
    ensures TakeClassContent(PutClassContent(c, rest), limits) == P.Success((c, rest))
  {
    Q.ClassCodes(ClassResult(c.klass, c.outcome, c.evidenceComplete, c.shared, 0, ""));
    P.CodeRoundTrip(ALL_CLASSES, c.klass);
    P.CodeRoundTrip(P.OUTCOMES, c.outcome);
    Q.ConflictListRoundTrip(c.shared, limits.maxConflictsPerProof, rest, limits);
  }

  lemma ClassContentListRoundTrip(items: seq<ClassContent>, rest: Buffer, limits: Limits)
    requires P.FitsList(items, limits.maxRequiredClasses, ClassContentFitter(limits))
    ensures P.TakeList(ClassContentTaker(limits), limits.maxRequiredClasses, P.PutList(PutClassContent, items, rest))
            == P.Success((items, rest))
  {
    ClassContentLists(limits);
    P.ListRoundTrip(PutClassContent, ClassContentTaker(limits), ClassContentFitter(limits), items,
                    limits.maxRequiredClasses, rest);
  }

  /** Neither the pair nor the primary conflict is hashed: they follow from the position and the classes. */
  function PutCellContent(c: CellContent, rest: Buffer): Buffer {
    PutBool(c.independent, PutBool(c.evidenceComplete, P.PutList(PutClassContent, c.classes, rest)))
  }

  function TakeCellContent(s: Buffer, limits: Limits): P.Taken<CellContent> {
    var (independent, s1) :- P.TakeBool(s);
    var (complete, s2) :- P.TakeBool(s1);
    var (classes, s3) :- P.TakeList(ClassContentTaker(limits), limits.maxRequiredClasses, s2);
    P.Success((CellContent(independent, complete, classes), s3))
  }

  function CellContentTaker(limits: Limits): Buffer -> P.Taken<CellContent> {
    s => TakeCellContent(s, limits)
  }

  ghost function CellContentFitter(limits: Limits): CellContent -> bool {
    (c: CellContent) => P.FitsList(c.classes, limits.maxRequiredClasses, ClassContentFitter(limits))
  }

  lemma CellContentListRoundTrip(items: seq<CellContent>, rest: Buffer, limits: Limits)
    requires P.FitsList(items, limits.maxPairwiseCells, CellContentFitter(limits))
    ensures P.TakeList(CellContentTaker(limits), limits.maxPairwiseCells, P.PutList(PutCellContent, items, rest))
            == P.Success((items, rest))
  {
    forall c, s | CellContentFitter(limits)(c)
      ensures CellContentTaker(limits)(PutCellContent(c, s)) == P.Success((c, s))
    {
      ClassContentListRoundTrip(c.classes, s, limits);
    }
    P.ListRoundTrip(PutCellContent, CellContentTaker(limits), CellContentFitter(limits), items, limits.maxPairwiseCells,
                    rest);
  }

  /** The counts of the subset are fixed-width here, unlike in the record. */
  function PutSubset(w: WitnessSubset, rest: Buffer): Buffer {
    PutBool(w.present, P.PutLong(w.requestedK,
                                 P.PutLong(w.achieved, PutBool(w.maximumExact,
                                                               P.PutList(P.PutIndex, w.indices, rest)))))
  }

  function TakeSubset(s: Buffer, limits: Limits): P.Taken<WitnessSubset> {
    var (present, s1) :- P.TakeBool(s);
    var (requested, s2) :- P.TakeLong(s1);
    var (achieved, s3) :- P.TakeLong(s2);
    var (exact, s4) :- P.TakeBool(s3);
    var (indices, s5) :- P.TakeList(P.TakeIndex, limits.maxPathsPerProof, s4);
    P.Success((WitnessSubset(present, requested, indices, achieved, exact), s5))
  }

  ghost predicate FitsSubset(w: WitnessSubset, limits: Limits) {
    P.FitsLong(w.requestedK) && P.FitsLong(w.achieved) && P.FitsList(w.indices, limits.maxPathsPerProof, P.FitsWord)
  }

  lemma SubsetRoundTrip(w: WitnessSubset, rest: Buffer, limits: Limits)
    requires FitsSubset(w, limits)
    ensures TakeSubset(PutSubset(w, rest), limits) == P.Success((w, rest))
  {
    var s4 := P.PutList(P.PutIndex, w.indices, rest);
    var s3 := PutBool(w.maximumExact, s4);
    P.LongRoundTrip(w.requestedK, P.PutLong(w.achieved, s3));
    P.LongRoundTrip(w.achieved, s3);
    P.IndexInverse();
    P.ListRoundTrip(P.PutIndex, P.TakeIndex, P.FitsWord, w.indices, limits.maxPathsPerProof, rest);
  }

  // ----- Semantic content --------------------------------------------------------------------------------------

  function PutContent(c: SemanticContent, rest: Buffer): Buffer {
    PutRequest(c.request, P.PutByte(P.Code(P.OUTCOMES, c.outcome), Q.PutOption(Q.PutNotice, c.limit,
      P.PutList(PutClassContent, c.classes,
                P.PutList(PutClassContent, c.advisories, P.PutList(P.PutConflict, c.conflicts,
        PutSubset(c.subset, P.PutList(PutCellContent, c.cells, Q.PutDependencies(c.dependencies, rest)))))))))
  }

  function TakeContent(s: Buffer, limits: Limits): P.Taken<SemanticContent> {
    var (request, s1) :- TakeRequest(s, limits);
    var (code, s2) :- P.TakeByte(s1);
    var outcome :- P.Named(P.OUTCOMES, code);
    var (notice, s3) :- Q.TakeOption(Q.TakeNotice, s2);
    var (classes, s4) :- P.TakeList(ClassContentTaker(limits), limits.maxRequiredClasses, s3);
    var (advisories, s5) :- P.TakeList(ClassContentTaker(limits), limits.maxRequiredClasses, s4);
    var (conflicts, s6) :- P.TakeList(P.ConflictTaker(limits), limits.maxConflictsPerProof, s5);
    var (subset, s7) :- TakeSubset(s6, limits);
    var (cells, s8) :- P.TakeList(CellContentTaker(limits), limits.maxPairwiseCells, s7);
    var (dependencies, s9) :- Q.TakeDependencies(s8, limits);
    P.Success((SemanticContent(request, outcome, notice, classes, advisories, conflicts, subset, cells, dependencies),
               s9))
  }

  /** The texts and numbers are within the limits; nothing is asked of what they mean. */
  ghost predicate FitsContent(c: SemanticContent, limits: Limits) {
    && FitsRequest(c.request, limits)
    && (c.limit.Some? ==> Q.FitsNotice(c.limit.value))
    && P.FitsList(c.classes, limits.maxRequiredClasses, ClassContentFitter(limits))
    && P.FitsList(c.advisories, limits.maxRequiredClasses, ClassContentFitter(limits))
    && P.FitsList(c.conflicts, limits.maxConflictsPerProof, P.ConflictFitter(limits))
    && FitsSubset(c.subset, limits)
    && P.FitsList(c.cells, limits.maxPairwiseCells, CellContentFitter(limits))
    && Q.FitsDependencies(c.dependencies, limits)
  }

  /** Parts read one after the other are the content. */
  lemma ContentCompose(c: SemanticContent, limits: Limits, s: Buffer, s1: Buffer, s2: Buffer, s3: Buffer, s4: Buffer,
                       s5: Buffer,
                       s6: Buffer, s7: Buffer, s8: Buffer, s9: Buffer)
    requires TakeRequest(s, limits) == P.Success((c.request, s1))
    requires P.TakeByte(s1) == P.Success((P.Code(P.OUTCOMES, c.outcome), s2))
             && P.Named(P.OUTCOMES, P.Code(P.OUTCOMES, c.outcome)) == P.Success(c.outcome)
    requires Q.TakeOption(Q.TakeNotice, s2) == P.Success((c.limit, s3))
    requires P.TakeList(ClassContentTaker(limits), limits.maxRequiredClasses, s3) == P.Success((c.classes, s4))
    requires P.TakeList(ClassContentTaker(limits), limits.maxRequiredClasses, s4) == P.Success((c.advisories, s5))
    requires P.TakeList(P.ConflictTaker(limits), limits.maxConflictsPerProof, s5) == P.Success((c.conflicts, s6))
    requires TakeSubset(s6, limits) == P.Success((c.subset, s7))
    requires P.TakeList(CellContentTaker(limits), limits.maxPairwiseCells, s7) == P.Success((c.cells, s8))
    requires Q.TakeDependencies(s8, limits) == P.Success((c.dependencies, s9))
    ensures TakeContent(s, limits) == P.Success((c, s9))
  {
  }

  lemma ContentRoundTrip(c: SemanticContent, rest: Buffer, limits: Limits)
    requires FitsContent(c, limits)
    ensures TakeContent(PutContent(c, rest), limits) == P.Success((c, rest))
  {
    var s8 := Q.PutDependencies(c.dependencies, rest);
    var s7 := P.PutList(PutCellContent, c.cells, s8);
    var s6 := PutSubset(c.subset, s7);
    var s5 := P.PutList(P.PutConflict, c.conflicts, s6);
    var s4 := P.PutList(PutClassContent, c.advisories, s5);
    var s3 := P.PutList(PutClassContent, c.classes, s4);
    var s2 := Q.PutOption(Q.PutNotice, c.limit, s3);
    var s1 := P.PutByte(P.Code(P.OUTCOMES, c.outcome), s2);
    RequestRoundTrip(c.request, s1, limits);
    Q.OutcomeByte(c.outcome, s2);
    Q.LimitRoundTrip(c.limit, s3);
    ClassContentListRoundTrip(c.classes, s4, limits);
    ClassContentListRoundTrip(c.advisories, s5, limits);
    Q.ConflictListRoundTrip(c.conflicts, limits.maxConflictsPerProof, s6, limits);
    SubsetRoundTrip(c.subset, s7, limits);
    CellContentListRoundTrip(c.cells, s8, limits);
    Q.DependenciesRoundTrip(c.dependencies, rest, limits);
    ContentCompose(c, limits, PutContent(c, rest), s1, s2, s3, s4, s5, s6, s7, s8, rest);
  }

  /** What `proof_semantic_digest` hashes. */
  function SemanticStream(c: SemanticContent): Buffer {
    PutWord(RULE_SET_VERSION, PutWord(CANONICAL_VERSION, PutWord(DIGEST_VERSION, PutContent(c, []))))
  }

  lemma SameContent(a: SemanticContent, b: SemanticContent, limits: Limits)
    requires FitsContent(a, limits) && FitsContent(b, limits) && PutContent(a, []) == PutContent(b, [])
    ensures a == b
  {
    ContentRoundTrip(a, [], limits);
    ContentRoundTrip(b, [], limits);
  }

  /**
   * Two revisions hash one stream exactly when they say the same: nothing of the content
   * is missing from it and nothing else is in it.
   */
  lemma SemanticStreamInjective(p: Proof, q: Proof, limits: Limits)
    requires FitsContent(SemanticOf(p), limits) && FitsContent(SemanticOf(q), limits)
    ensures SemanticStream(SemanticOf(p)) == SemanticStream(SemanticOf(q)) <==> SemanticOf(p) == SemanticOf(q)
  {
    if SemanticStream(SemanticOf(p)) == SemanticStream(SemanticOf(q)) {
      StreamsShareContent(SemanticOf(p), SemanticOf(q));
      SameContent(SemanticOf(p), SemanticOf(q), limits);
    }
  }

  lemma StreamsShareContent(a: SemanticContent, b: SemanticContent)
    requires SemanticStream(a) == SemanticStream(b)
    ensures PutContent(a, []) == PutContent(b, [])
  {
    var x2, y2 := PutWord(DIGEST_VERSION, PutContent(a, [])), PutWord(DIGEST_VERSION, PutContent(b, []));
    var x1, y1 := PutWord(CANONICAL_VERSION, x2), PutWord(CANONICAL_VERSION, y2);
    SameAfterPrefix(LittleEndian(RULE_SET_VERSION, 4), x1, y1);
    SameAfterPrefix(LittleEndian(CANONICAL_VERSION, 4), x2, y2);
    SameAfterPrefix(LittleEndian(DIGEST_VERSION, 4), PutContent(a, []), PutContent(b, []));
  }
}
