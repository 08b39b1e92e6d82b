/**
 * The durable store: a magic, a version, seven sections of records and a hash over
 * everything before it.  The codec of the last section enters as a parameter.
 */
module Store {
  import opened Bytes
  import opened Fnv
  import opened Evidence
  import opened RecordParts
  import opened Records
  import opened PolicyRecords
  import A = Authority

  /** "PDFSTORE". */
  const MAGIC: Buffer := [80, 68, 70, 83, 84, 79, 82, 69]
  const VERSION: nat := 1
  const TRAILER_BYTES: nat := 8

  /** An admitted mutation attempt. */
  datatype AttemptRecord = AttemptRecord(attempt: string, payload: Buffer, proof: string)

  datatype HistoryRecord = HistoryRecord(proof: string, revisions: seq<StoredProof>)

  datatype Contents<S> = Contents(
    epoch: nat,
    policies: seq<Policy>,
    proofs: seq<StoredProof>,
    sessions: seq<A.Session>,
    fencedBoots: seq<string>,
    attempts: seq<AttemptRecord>,
    history: seq<HistoryRecord>,
    snapshots: seq<S>)

  // ----- Records of the remaining sections ----------------------------------------------------------

  /** Sections outside the record codec report every unreadable field as truncation. */
  function OrTruncated<T>(taken: Taken<T>): Taken<T> {
    if taken.Failure? then Failure(Reason.TRUNCATED) else taken
  }

  function PutSession(session: A.Session, rest: Buffer): Buffer {
    PutText(session.publisher, PutText(session.boot,
                                       PutLong(session.epoch, PutText(session.scope, PutBool(session.fenced, rest)))))
  }

  /** All fields are read before any identity is checked. */
  function TakeSession(s: Buffer, limits: Limits): Taken<A.Session> {
    var (publisher, s1) :- OrTruncated(TakeText(s, limits.maxIdentityLength));
    var (boot, s2) :- OrTruncated(TakeText(s1, limits.maxIdentityLength));
    var (epoch, s3) :- OrTruncated(TakeLong(s2));
    var (scope, s4) :- OrTruncated(TakeText(s3, limits.maxIdentityLength));
    var (fenced, s5) :- OrTruncated(TakeBool(s4));
    if ValidIdentity(publisher, PUBLISHER_ID) && ValidIdentity(boot, BOOT_ID) && ValidIdentity(scope, SCOPE_ID)
    then Success((A.Session(publisher, boot, scope, epoch, fenced), s5))
    else Failure(MALFORMED_IDENTITY)
  }

  ghost predicate FitsName(id: string, limits: Limits, longest: nat) {
    FitsText(id, limits.maxIdentityLength) && ValidIdentity(id, longest)
  }

  ghost predicate FitsSession(session: A.Session, limits: Limits) {
    && FitsName(session.publisher, limits, PUBLISHER_ID) && FitsName(session.boot, limits, BOOT_ID)
    && FitsName(session.scope, limits, SCOPE_ID) && FitsLong(session.epoch)
  }

  function SessionTaker(limits: Limits): Buffer -> Taken<A.Session> {
    s => TakeSession(s, limits)
  }

  ghost function SessionFitter(limits: Limits): A.Session -> bool {
    (session: A.Session) => FitsSession(session, limits)
  }

  lemma SessionRoundTrip(session: A.Session, rest: Buffer, limits: Limits)
    requires FitsSession(session, limits)
    ensures TakeSession(PutSession(session, rest), limits) == Success((session, rest))
  {
    var s4 := PutBool(session.fenced, rest);
    var s3 := PutText(session.scope, s4);
    var s2 := PutLong(session.epoch, s3);
    TextRoundTrip(session.publisher, PutText(session.boot, s2), limits.maxIdentityLength);
    TextRoundTrip(session.boot, s2, limits.maxIdentityLength);
    LongRoundTrip(session.epoch, s3);
    TextRoundTrip(session.scope, s4, limits.maxIdentityLength);
  }

  lemma SessionFits(s: Buffer, limits: Limits)
    ensures TakeSession(s, limits).Success? ==> FitsSession(TakeSession(s, limits).value.0, limits)
  {
    if TakeSession(s, limits).Success? {
      var s1: Buffer := TakeText(s, limits.maxIdentityLength).value.1;
      var s2: Buffer := TakeText(s1, limits.maxIdentityLength).value.1;
      TextFits(s, limits.maxIdentityLength);
      TextFits(s1, limits.maxIdentityLength);
      LongFits(s2);
      TextFits(TakeLong(s2).value.1, limits.maxIdentityLength);
    }
  }

  lemma SessionLists(limits: Limits)
    ensures Inverse(PutSession, SessionTaker(limits), SessionFitter(limits))
    ensures OnlyFitting(SessionTaker(limits), SessionFitter(limits))
  {
    forall session, s | SessionFitter(limits)(session)
      ensures SessionTaker(limits)(PutSession(session, s)) == Success((session, s))
    {
      SessionRoundTrip(session, s, limits);
    }
    forall s | SessionTaker(limits)(s).Success?
      ensures SessionFitter(limits)(SessionTaker(limits)(s).value.0)
    {
      SessionFits(s, limits);
    }
  }

  function TakeBoot(s: Buffer, limits: Limits): Taken<string> {
    var (boot, s1) :- OrTruncated(TakeText(s, limits.maxIdentityLength));
    if ValidIdentity(boot, BOOT_ID) then Success((boot, s1)) else Failure(MALFORMED_IDENTITY)
  }

  function BootTaker(limits: Limits): Buffer -> Taken<string> {
    s => TakeBoot(s, limits)
  }

  ghost function BootFitter(limits: Limits): string -> bool {
    (boot: string) => FitsName(boot, limits, BOOT_ID)
  }

  lemma BootLists(limits: Limits)
    ensures Inverse(PutText, BootTaker(limits), BootFitter(limits))
    ensures OnlyFitting(BootTaker(limits), BootFitter(limits))
  {
    forall boot, s | BootFitter(limits)(boot)
      ensures BootTaker(limits)(PutText(boot, s)) == Success((boot, s))
    {
      TextRoundTrip(boot, s, limits.maxIdentityLength);
    }
    forall s | BootTaker(limits)(s).Success?
      ensures BootFitter(limits)(BootTaker(limits)(s).value.0)
    {
      TextFits(s, limits.maxIdentityLength);
    }
  }

  function PutAttempt(a: AttemptRecord, rest: Buffer): Buffer {
    PutText(a.attempt, PutBytes(a.payload, PutText(a.proof, rest)))
  }

  function TakeAttempt(s: Buffer, limits: Limits): Taken<AttemptRecord> {
    var (attempt, s1) :- OrTruncated(TakeText(s, limits.maxIdentityLength));
    var (payload, s2) :- OrTruncated(TakeDigest(s1));
    var (proof, s3) :- OrTruncated(TakeText(s2, limits.maxIdentityLength));
    if ValidIdentity(attempt, ATTEMPT_ID) && ValidIdentity(proof, PROOF_ID)
    then Success((AttemptRecord(attempt, payload, proof), s3))
    else Failure(MALFORMED_IDENTITY)
  }

  ghost predicate FitsAttempt(a: AttemptRecord, limits: Limits) {
    FitsName(a.attempt, limits, ATTEMPT_ID) && |a.payload| == DIGEST_BYTES && FitsName(a.proof, limits, PROOF_ID)
  }

  function AttemptTaker(limits: Limits): Buffer -> Taken<AttemptRecord> {
    s => TakeAttempt(s, limits)
  }

  ghost function AttemptFitter(limits: Limits): AttemptRecord -> bool {
    (a: AttemptRecord) => FitsAttempt(a, limits)
  }

  lemma AttemptRoundTrip(a: AttemptRecord, rest: Buffer, limits: Limits)
    requires FitsAttempt(a, limits)
    ensures TakeAttempt(PutAttempt(a, rest), limits) == Success((a, rest))
  {
    var s2 := PutText(a.proof, rest);
    TextRoundTrip(a.attempt, PutBytes(a.payload, s2), limits.maxIdentityLength);
    DigestRoundTrip(a.payload, s2);
    TextRoundTrip(a.proof, rest, limits.maxIdentityLength);
  }

  lemma AttemptFits(s: Buffer, limits: Limits)
    ensures TakeAttempt(s, limits).Success? ==> FitsAttempt(TakeAttempt(s, limits).value.0, limits)
  {
    if TakeAttempt(s, limits).Success? {
      var s1: Buffer := TakeText(s, limits.maxIdentityLength).value.1;
      TextFits(s, limits.maxIdentityLength);
      TextFits(TakeDigest(s1).value.1, limits.maxIdentityLength);
    }
  }

  lemma AttemptLists(limits: Limits)
    ensures Inverse(PutAttempt, AttemptTaker(limits), AttemptFitter(limits))
    ensures OnlyFitting(AttemptTaker(limits), AttemptFitter(limits))
  {
    forall a, s | AttemptFitter(limits)(a)
      ensures AttemptTaker(limits)(PutAttempt(a, s)) == Success((a, s))
    {
      AttemptRoundTrip(a, s, limits);
    }
    forall s | AttemptTaker(limits)(s).Success?
      ensures AttemptFitter(limits)(AttemptTaker(limits)(s).value.0)
    {
      AttemptFits(s, limits);
    }
  }

  function PutHistory(h: HistoryRecord, rest: Buffer): Buffer {
    PutText(h.proof, PutList(PutProof, h.revisions, rest))
  }

  function TakeHistory(s: Buffer, limits: Limits): Taken<HistoryRecord> {
    var (proof, s1) :- OrTruncated(TakeText(s, limits.maxIdentityLength));
    if !ValidIdentity(proof, PROOF_ID) then Failure(MALFORMED_IDENTITY)
    else
      var (count, s2) :- OrTruncated(TakeNumber(s1));
      if count > limits.maxHistory then Failure(RECORD_LIMIT_EXCEEDED)
      else
        var (revisions, s3) :- TakeMany(ProofTaker(limits), count, [], s2);
        Success((HistoryRecord(proof, revisions), s3))
  }

  ghost predicate FitsHistory(h: HistoryRecord, limits: Limits) {
    FitsName(h.proof, limits, PROOF_ID) && FitsList(h.revisions, limits.maxHistory, ProofFitter(limits))
  }

  function HistoryTaker(limits: Limits): Buffer -> Taken<HistoryRecord> {
    s => TakeHistory(s, limits)
  }

  ghost function HistoryFitter(limits: Limits): HistoryRecord -> bool {
    (h: HistoryRecord) => FitsHistory(h, limits)
  }

  lemma HistoryRoundTrip(h: HistoryRecord, rest: Buffer, limits: Limits)
    requires FitsHistory(h, limits)
    ensures TakeHistory(PutHistory(h, rest), limits) == Success((h, rest))
  {
    TextRoundTrip(h.proof, PutList(PutProof, h.revisions, rest), limits.maxIdentityLength);
    NumberRoundTrip(|h.revisions|, PutMany(PutProof, h.revisions, rest));
    ProofLists(limits);
    ManyRoundTrip(PutProof, ProofTaker(limits), ProofFitter(limits), h.revisions, [], rest);
    assert [] + h.revisions == h.revisions;
  }

  lemma HistoryFits(s: Buffer, limits: Limits)
    ensures TakeHistory(s, limits).Success? ==> FitsHistory(TakeHistory(s, limits).value.0, limits)
  {
    if TakeHistory(s, limits).Success? {
      var s1: Buffer := TakeText(s, limits.maxIdentityLength).value.1;
      TextFits(s, limits.maxIdentityLength);
      NumberFits(s1);
      var (count, s2) := TakeNumber(s1).value;
      ProofLists(limits);
      ManyFit(ProofTaker(limits), ProofFitter(limits), count, [], s2);
    }
  }

  lemma HistoryLists(limits: Limits)
    ensures Inverse(PutHistory, HistoryTaker(limits), HistoryFitter(limits))
    ensures OnlyFitting(HistoryTaker(limits), HistoryFitter(limits))
  {
    forall h, s | HistoryFitter(limits)(h)
      ensures HistoryTaker(limits)(PutHistory(h, s)) == Success((h, s))
    {
      HistoryRoundTrip(h, s, limits);
    }
    forall s | HistoryTaker(limits)(s).Success?
      ensures HistoryFitter(limits)(HistoryTaker(limits)(s).value.0)
    {
      HistoryFits(s, limits);
    }
  }

  // ----- Sections ------------------------------------------------------------------------------------

  /** A section may declare no more records than a store may hold, nor more than there are bytes. */
  function TakeSectionCount(size: nat, limits: Limits, s: Buffer): Taken<nat> {
    var (count, rest) :- OrTruncated(TakeNumber(s));
    if count > limits.maxStoreRecords then Failure(RECORD_LIMIT_EXCEEDED)
    else if count > size then Failure(ABSURD_COUNT)
    else Success((count, rest))
  }

  function TakeSection<T>(take: Buffer -> Taken<T>, size: nat, limits: Limits, s: Buffer): Taken<seq<T>> {
    var (count, rest) :- TakeSectionCount(size, limits, s);
    TakeMany(take, count, [], rest)
  }

  /** Every record takes at least one byte. */
  ghost predicate Grows<T(!new)>(put: (T, Buffer) -> Buffer) {
    forall x, s :: |put(x, s)| > |s|
  }

  lemma {:induction false} ManyGrows<T(!new)>(put: (T, Buffer) -> Buffer, items: seq<T>, rest: Buffer)
    requires Grows(put)
    ensures |PutMany(put, items, rest)| >= |items| + |rest|
  {
    if items != [] {
      ManyGrows(put, items[1..], rest);
      assert |put(items[0], PutMany(put, items[1..], rest))| > |PutMany(put, items[1..], rest)|;
    }
  }

  lemma SectionRoundTrip<T(!new)>(put: (T, Buffer) -> Buffer, take: Buffer -> Taken<T>, fits: T -> bool, items: seq<T>,
                                  size: nat, limits: Limits, rest: Buffer)
    requires Inverse(put, take, fits) && FitsList(items, limits.maxStoreRecords, fits) && |items| <= size
    ensures TakeSection(take, size, limits, PutList(put, items, rest)) == Success((items, rest))
  {
    NumberRoundTrip(|items|, PutMany(put, items, rest));
    ManyRoundTrip(put, take, fits, items, [], rest);
    assert [] + items == items;
  }

  lemma SectionFits<T>(take: Buffer -> Taken<T>, fits: T -> bool, size: nat, limits: Limits, s: Buffer)
    requires OnlyFitting(take, fits)
    ensures var r := TakeSection(take, size, limits, s); r.Success? ==>
              FitsList(r.value.0, limits.maxStoreRecords, fits)
  {
    NumberFits(s);
    if TakeSection(take, size, limits, s).Success? {
      var (count, rest) := TakeNumber(s).value;
      ManyFit(take, fits, count, [], rest);
    }
  }

  // ----- The file ----------------------------------------------------------------------------------------

  function PutSections<S>(c: Contents<S>, put: (S, Buffer) -> Buffer): Buffer {
    PutList(PutPolicy, c.policies, PutList(PutProof, c.proofs, PutList(PutSession, c.sessions,
      PutList(PutText, c.fencedBoots, PutList(PutAttempt, c.attempts, PutList(PutHistory, c.history,
        PutList(put, c.snapshots, [])))))))
  }

  function Payload<S>(c: Contents<S>, put: (S, Buffer) -> Buffer): (bytes: Buffer)
    ensures |bytes| >= 20
  {
    MAGIC + LittleEndian(VERSION, 4) + LittleEndian(c.epoch, 8) + PutSections(c, put)
  }

  /** A payload followed by its hash. */
  function Sealed(payload: Buffer): Buffer {
    payload + LittleEndian(Hash(payload), TRAILER_BYTES)
  }

  function EncodeStore<S>(c: Contents<S>, put: (S, Buffer) -> Buffer): Buffer {
    Sealed(Payload(c, put))
  }

  function TakeSections<S>(epoch: nat, size: nat, limits: Limits, take: Buffer -> Taken<S>,
                           s: Buffer): Taken<Contents<S>>
  {
    var (policies, s1) :- TakeSection(PolicyTaker(limits), size, limits, s);
    var (proofs, s2) :- TakeSection(ProofTaker(limits), size, limits, s1);
    var (sessions, s3) :- TakeSection(SessionTaker(limits), size, limits, s2);
    var (fencedBoots, s4) :- TakeSection(BootTaker(limits), size, limits, s3);
    var (attempts, s5) :- TakeSection(AttemptTaker(limits), size, limits, s4);
    var (history, s6) :- TakeSection(HistoryTaker(limits), size, limits, s5);
    var (snapshots, s7) :- TakeSection(take, size, limits, s6);
    Success((Contents(epoch, policies, proofs, sessions, fencedBoots, attempts, history, snapshots), s7))
  }

  /** Version, epoch and sections of a payload whose hash has been checked. */
  function DecodePayload<S>(payload: Buffer, limits: Limits, take: Buffer -> Taken<S>): Result<Contents<S>>
    requires |payload| >= 20
  {
    if FromLittleEndian(payload[8..12]) != VERSION then Failure(UNSUPPORTED_VERSION)
    else
      var (contents, rest) :- TakeSections(FromLittleEndian(payload[12..20]), |payload|, limits, take, payload[20..]);
      if rest != [] then Failure(Reason.TRAILING_BYTES) else Success(contents)
  }

  function DecodeStore<S>(data: Buffer, limits: Limits, take: Buffer -> Taken<S>): Result<Contents<S>> {
    if data == [] then Failure(EMPTY_FILE)
    else if |data| > limits.maxStoreBytes then Failure(SIZE_LIMIT_EXCEEDED)
    else if |data| < 8 + 4 + 8 + TRAILER_BYTES then Failure(Reason.TRUNCATED)
    else if data[..8] != MAGIC then Failure(MALFORMED_MAGIC)
    else
      var payload := data[..|data| - TRAILER_BYTES];
      if FromLittleEndian(data[|data| - TRAILER_BYTES..]) != Hash(payload) then Failure(INTEGRITY_FAILURE)
      else DecodePayload(payload, limits, take)
  }

  // ----- Corruption ----------------------------------------------------------------------------------------

  lemma IntegrityDecides<S>(data: Buffer, limits: Limits, take: Buffer -> Taken<S>)
    requires |data| >= TRAILER_BYTES
    requires FromLittleEndian(data[|data| - TRAILER_BYTES..]) != Hash(data[..|data| - TRAILER_BYTES])
    ensures DecodeStore(data, limits, take).Failure?
  {
  }

  lemma SealedNumbers(payload: Buffer)
    ensures var s := Sealed(payload); |s| == |payload| + TRAILER_BYTES && s[..|payload|] == payload
    ensures FromLittleEndian(Sealed(payload)[|payload|..]) == Hash(payload)
  {
    Capacities();
    LittleEndianRoundTrip(Hash(payload), TRAILER_BYTES);
    assert Sealed(payload)[|payload|..] == LittleEndian(Hash(payload), TRAILER_BYTES);
  }

  /** Changing exactly one byte of an encoded store, anywhere in it, is always noticed. */
  lemma OneByteCorruptionIsCaught<S>(c: Contents<S>, put: (S, Buffer) -> Buffer, limits: Limits,
                                     take: Buffer -> Taken<S>,
                                     i: nat, b: Byte)
    requires i < |EncodeStore(c, put)| && b != EncodeStore(c, put)[i]
    ensures DecodeStore(EncodeStore(c, put)[i := b], limits, take).Failure?
  {
    DamageIsCaught(Payload(c, put), limits, take, i, b);
  }

  lemma DamageIsCaught<S>(payload: Buffer, limits: Limits, take: Buffer -> Taken<S>, i: nat, b: Byte)
    requires i < |Sealed(payload)| && b != Sealed(payload)[i]
    ensures DecodeStore(Sealed(payload)[i := b], limits, take).Failure?
  {
    SealedNumbers(payload);
    SealedCorruption(payload, i, b);
    IntegrityDecides(Sealed(payload)[i := b], limits, take);
  }

  lemma SealedCorruption(payload: Buffer, i: nat, b: Byte)
    requires i < |payload| + TRAILER_BYTES && |Sealed(payload)| == |payload| + TRAILER_BYTES && b != Sealed(payload)[i]
    ensures var t := Sealed(payload)[i := b]; FromLittleEndian(t[|payload|..]) != Hash(t[..|payload|])
  {
    var s := Sealed(payload);
    var t := s[i := b];
    SealedNumbers(payload);
    if i < |payload| {
      OneByteChangesHash(payload, i, b);
      assert t[..|payload|] == payload[i := b] && t[|payload|..] == s[|payload|..];
    } else {
      assert t[..|payload|] == payload;
      assert t[|payload|..][i - |payload|] == b && s[|payload|..][i - |payload|] == s[i];
      if FromLittleEndian(t[|payload|..]) == FromLittleEndian(s[|payload|..]) {
        FromLittleEndianInjective(t[|payload|..], s[|payload|..]);
      }
    }
  }

  // ----- Sizes -------------------------------------------------------------------------------------------------

  lemma ListGrows<T(!new)>(put: (T, Buffer) -> Buffer, items: seq<T>, rest: Buffer)
    requires Grows(put)
    ensures |PutList(put, items, rest)| > |items| + |rest|
  {
    ManyGrows(put, items, rest);
  }

  lemma ConflictGrows()
    ensures Grows(PutConflict)
  {
    forall c: SharedResource, s: Buffer
      ensures |PutConflict(c, s)| > |s|
    {
      ListGrows(PutIndex, c.paths, s);
    }
  }

  lemma ClassGrows()
    ensures Grows(PutClass)
  {
    forall c: ClassResult, s: Buffer
      ensures |PutClass(c, s)| > |s|
    {
      ConflictGrows();
      ListGrows(PutConflict, c.shared, PutLong(c.sharedTotal, PutText(c.detail, s)));
    }
  }

  lemma CellGrows()
    ensures Grows(PutCell)
  {
    forall c: PairwiseCell, s: Buffer
      ensures |PutCell(c, s)| > |s|
    {
      ConflictGrows();
      ClassGrows();
      var s5 := PutOption(PutConflict, c.primaryConflict, s);
      assert c.primaryConflict.Some? ==> |PutConflict(c.primaryConflict.value, s)| > |s|;
      ListGrows(PutClass, c.classes, s5);
    }
  }

  lemma HeadGrows(h: Head, rest: Buffer)
    ensures |PutHead(h, rest)| > |rest|
  {
    ListGrows(PutRef, h.request.paths, PutBytes(h.requestDigest, PutBytes(h.semanticDigest, rest)));
  }

  lemma FindingsGrow(f: Findings, rest: Buffer)
    ensures |PutFindings(f, rest)| > |rest|
  {
    ConflictGrows();
    ClassGrows();
    var s6 := PutLong(f.conflictsTotal, rest);
    var s5 := PutList(PutConflict, f.conflicts, s6);
    var s4 := PutList(PutClass, f.advisories, s5);
    ListGrows(PutConflict, f.conflicts, s6);
    ListGrows(PutClass, f.advisories, s5);
    ListGrows(PutClass, f.classes, s4);
  }

  lemma RestGrows(p: StoredProof, rest: Buffer)
    ensures |PutMatrix(p.matrix,
                       PutWitness(p.witnessSubset, PutDependencies(p.dependencies,
                                                                   PutStanding(p.standing, rest))))| >= |rest|
  {
    CellGrows();
    var s5 := PutStanding(p.standing, rest);
    var s4 := PutDependencies(p.dependencies, s5);
    var s3 := PutWitness(p.witnessSubset, s4);
    ListGrows(PutEntity, p.dependencies.topologyEntities, s5);
    ListGrows(PutRef, p.dependencies.paths, PutList(PutEntity, p.dependencies.topologyEntities, s5));
    ListGrows(PutIndex, p.witnessSubset.indices, s4);
    ListGrows(PutCell, p.matrix.cells, s3);
    ListGrows(PutText, p.matrix.order, PutList(PutCell, p.matrix.cells, s3));
  }

  lemma ProofGrows()
    ensures Grows(PutProof)
  {
    forall p: StoredProof, s: Buffer
      ensures |PutProof(p, s)| > |s|
    {
      RestGrows(p, s);
      var s2 := PutMatrix(p.matrix,
                          PutWitness(p.witnessSubset, PutDependencies(p.dependencies, PutStanding(p.standing, s))));
      FindingsGrow(p.findings, s2);
      HeadGrows(p.head, PutFindings(p.findings, s2));
    }
  }

  lemma PolicyGrows()
    ensures Grows(PutPolicy)
  {
    forall p: Policy, s: Buffer
      ensures |PutPolicy(p, s)| > |s|
    {
      var s5 := PutBool(p.requireAuthorityCurrent, PutText(p.description, s));
      var s4 := PutList(PutRelation, p.relations, s5);
      ListGrows(PutRelation, p.relations, s5);
      var s3 := PutByte(Code(EXEMPTIONS, p.endpointExemption), PutVarint(p.minimumIndependentPaths,
                  PutByte(Code(SEMANTICS, p.semantics),
                          PutByte(Code(COMPLETENESS, p.completeness),
                                  PutByte(Code(UNKNOWNS, p.unknownBehavior), s4)))));
      ListGrows(PutClassName, p.requiredClasses, s3);
    }
  }

  lemma HistoryGrows()
    ensures Grows(PutHistory)
  {
    forall h: HistoryRecord, s: Buffer
      ensures |PutHistory(h, s)| > |s|
    {
      ProofGrows();
      ListGrows(PutProof, h.revisions, s);
    }
  }

  // ----- Round trip ----------------------------------------------------------------------------------------------

  /** What the sections must hold for the store to come back. */
  ghost predicate FitsContents<S>(c: Contents<S>, limits: Limits, fits: S -> bool) {
    && FitsLong(c.epoch)
    && FitsList(c.policies, limits.maxStoreRecords, PolicyFitter(limits))
    && FitsList(c.proofs, limits.maxStoreRecords, ProofFitter(limits))
    && FitsList(c.sessions, limits.maxStoreRecords, SessionFitter(limits))
    && FitsList(c.fencedBoots, limits.maxStoreRecords, BootFitter(limits))
    && FitsList(c.attempts, limits.maxStoreRecords, AttemptFitter(limits))
    && FitsList(c.history, limits.maxStoreRecords, HistoryFitter(limits))
    && FitsList(c.snapshots, limits.maxStoreRecords, fits)
  }

  /** No section declares more records than there are bytes. */
  lemma CountsAreNotAbsurd<S(!new)>(c: Contents<S>, put: (S, Buffer) -> Buffer)
    requires Grows(put)
    ensures var size := |PutSections(c, put)|;
            && |c.policies| <= size && |c.proofs| <= size && |c.sessions| <= size && |c.fencedBoots| <= size
            && |c.attempts| <= size && |c.history| <= size && |c.snapshots| <= size
  {
    PolicyGrows();
    ProofGrows();
    HistoryGrows();
    var s6 := PutList(put, c.snapshots, []);
    var s5 := PutList(PutHistory, c.history, s6);
    var s4 := PutList(PutAttempt, c.attempts, s5);
    var s3 := PutList(PutText, c.fencedBoots, s4);
    var s2 := PutList(PutSession, c.sessions, s3);
    var s1 := PutList(PutProof, c.proofs, s2);
    ListGrows(put, c.snapshots, []);
    ListGrows(PutHistory, c.history, s6);
    ListGrows(PutAttempt, c.attempts, s5);
    ListGrows(PutText, c.fencedBoots, s4);
    ListGrows(PutSession, c.sessions, s3);
    ListGrows(PutProof, c.proofs, s2);
    ListGrows(PutPolicy, c.policies, s1);
  }

  lemma PolicySection(items: seq<Policy>, size: nat, limits: Limits, rest: Buffer)
    requires limits.maxRequiredClasses < TWO_32 && FitsList(items, limits.maxStoreRecords, PolicyFitter(limits))
             && |items| <= size
    ensures TakeSection(PolicyTaker(limits), size, limits, PutList(PutPolicy, items, rest)) == Success((items, rest))
  {
    PolicyLists(limits);
    SectionRoundTrip(PutPolicy, PolicyTaker(limits), PolicyFitter(limits), items, size, limits, rest);
  }

  lemma ProofSection(items: seq<StoredProof>, size: nat, limits: Limits, rest: Buffer)
    requires FitsList(items, limits.maxStoreRecords, ProofFitter(limits)) && |items| <= size
    ensures TakeSection(ProofTaker(limits), size, limits, PutList(PutProof, items, rest)) == Success((items, rest))
  {
    ProofLists(limits);
    SectionRoundTrip(PutProof, ProofTaker(limits), ProofFitter(limits), items, size, limits, rest);
  }

  lemma SessionSection(items: seq<A.Session>, size: nat, limits: Limits, rest: Buffer)
    requires FitsList(items, limits.maxStoreRecords, SessionFitter(limits)) && |items| <= size
    ensures TakeSection(SessionTaker(limits), size, limits, PutList(PutSession, items, rest)) == Success((items, rest))
  {
    SessionLists(limits);
    SectionRoundTrip(PutSession, SessionTaker(limits), SessionFitter(limits), items, size, limits, rest);
  }

  lemma BootSection(items: seq<string>, size: nat, limits: Limits, rest: Buffer)
    requires FitsList(items, limits.maxStoreRecords, BootFitter(limits)) && |items| <= size
    ensures TakeSection(BootTaker(limits), size, limits, PutList(PutText, items, rest)) == Success((items, rest))
  {
    BootLists(limits);
    SectionRoundTrip(PutText, BootTaker(limits), BootFitter(limits), items, size, limits, rest);
  }

  lemma AttemptSection(items: seq<AttemptRecord>, size: nat, limits: Limits, rest: Buffer)
    requires FitsList(items, limits.maxStoreRecords, AttemptFitter(limits)) && |items| <= size
    ensures TakeSection(AttemptTaker(limits), size, limits, PutList(PutAttempt, items, rest)) == Success((items, rest))
  {
    AttemptLists(limits);
    SectionRoundTrip(PutAttempt, AttemptTaker(limits), AttemptFitter(limits), items, size, limits, rest);
  }

  lemma HistorySection(items: seq<HistoryRecord>, size: nat, limits: Limits, rest: Buffer)
    requires FitsList(items, limits.maxStoreRecords, HistoryFitter(limits)) && |items| <= size
    ensures TakeSection(HistoryTaker(limits), size, limits, PutList(PutHistory, items, rest)) == Success((items, rest))
  {
    HistoryLists(limits);
    SectionRoundTrip(PutHistory, HistoryTaker(limits), HistoryFitter(limits), items, size, limits, rest);
  }

  /** Seven sections read one after the other are the contents. */
  lemma SectionsCompose<S>(c: Contents<S>, size: nat, limits: Limits, take: Buffer -> Taken<S>,
                           s: Buffer, s1: Buffer, s2: Buffer, s3: Buffer, s4: Buffer, s5: Buffer, s6: Buffer,
                               s7: Buffer)
    requires TakeSection(PolicyTaker(limits), size, limits, s) == Success((c.policies, s1))
    requires TakeSection(ProofTaker(limits), size, limits, s1) == Success((c.proofs, s2))
    requires TakeSection(SessionTaker(limits), size, limits, s2) == Success((c.sessions, s3))
    requires TakeSection(BootTaker(limits), size, limits, s3) == Success((c.fencedBoots, s4))
    requires TakeSection(AttemptTaker(limits), size, limits, s4) == Success((c.attempts, s5))
    requires TakeSection(HistoryTaker(limits), size, limits, s5) == Success((c.history, s6))
    requires TakeSection(take, size, limits, s6) == Success((c.snapshots, s7))
    ensures TakeSections(c.epoch, size, limits, take, s) == Success((c, s7))
  {
  }

  /** The six sections before the last one come back, whatever the last one is. */
  lemma FrontSections<S(!new)>(c: Contents<S>, size: nat, limits: Limits, put: (S, Buffer) -> Buffer, fits: S -> bool)
    returns (s1: Buffer, s2: Buffer, s3: Buffer, s4: Buffer, s5: Buffer, s6: Buffer)
    requires limits.maxRequiredClasses < TWO_32 && Grows(put) && FitsContents(c, limits, fits)
             && |PutSections(c, put)| <= size
    ensures TakeSection(PolicyTaker(limits), size, limits, PutSections(c, put)) == Success((c.policies, s1))
    ensures TakeSection(ProofTaker(limits), size, limits, s1) == Success((c.proofs, s2))
    ensures TakeSection(SessionTaker(limits), size, limits, s2) == Success((c.sessions, s3))
    ensures TakeSection(BootTaker(limits), size, limits, s3) == Success((c.fencedBoots, s4))
    ensures TakeSection(AttemptTaker(limits), size, limits, s4) == Success((c.attempts, s5))
    ensures TakeSection(HistoryTaker(limits), size, limits, s5) == Success((c.history, s6))
    ensures s6 == PutList(put, c.snapshots, []) && |c.snapshots| <= size
  {
    CountsAreNotAbsurd(c, put);
    s6 := PutList(put, c.snapshots, []);
    s5 := PutList(PutHistory, c.history, s6);
    s4 := PutList(PutAttempt, c.attempts, s5);
    s3 := PutList(PutText, c.fencedBoots, s4);
    s2 := PutList(PutSession, c.sessions, s3);
    s1 := PutList(PutProof, c.proofs, s2);
    PolicySection(c.policies, size, limits, s1);
    ProofSection(c.proofs, size, limits, s2);
    SessionSection(c.sessions, size, limits, s3);
    BootSection(c.fencedBoots, size, limits, s4);
    AttemptSection(c.attempts, size, limits, s5);
    HistorySection(c.history, size, limits, s6);
  }

  lemma SectionsRoundTrip<S(!new)>(c: Contents<S>, size: nat, limits: Limits, put: (S, Buffer) -> Buffer,
                                   take: Buffer -> Taken<S>, fits: S -> bool)
    requires limits.maxRequiredClasses < TWO_32
    requires Inverse(put, take, fits) && Grows(put) && FitsContents(c, limits, fits) && |PutSections(c, put)| <= size
    ensures TakeSections(c.epoch, size, limits, take, PutSections(c, put)) == Success((c, []))
  {
    var s1, s2, s3, s4, s5, s6 := FrontSections(c, size, limits, put, fits);
    SectionRoundTrip(put, take, fits, c.snapshots, size, limits, []);
    SectionsCompose(c, size, limits, take, PutSections(c, put), s1, s2, s3, s4, s5, s6, []);
  }

  /** When the first six sections are read from s, the last one is read from what they leave. */
  lemma SectionsDecompose<S>(c: Contents<S>, size: nat, limits: Limits, take: Buffer -> Taken<S>,
                             s: Buffer, s1: Buffer, s2: Buffer, s3: Buffer, s4: Buffer, s5: Buffer, s6: Buffer)
    requires TakeSection(PolicyTaker(limits), size, limits, s) == Success((c.policies, s1))
    requires TakeSection(ProofTaker(limits), size, limits, s1) == Success((c.proofs, s2))
    requires TakeSection(SessionTaker(limits), size, limits, s2) == Success((c.sessions, s3))
    requires TakeSection(BootTaker(limits), size, limits, s3) == Success((c.fencedBoots, s4))
    requires TakeSection(AttemptTaker(limits), size, limits, s4) == Success((c.attempts, s5))
    requires TakeSection(HistoryTaker(limits), size, limits, s5) == Success((c.history, s6))
    ensures var r, last := TakeSections(c.epoch, size, limits, take, s), TakeSection(take, size, limits, s6);
            r.Success? ==> last.Success? && r.value.0.snapshots == last.value.0
  {
  }

  lemma SectionsFit<S>(epoch: nat, size: nat, limits: Limits, take: Buffer -> Taken<S>, fits: S -> bool, s: Buffer)
    requires OnlyFitting(take, fits) && FitsLong(epoch) && limits.maxRequiredClasses < TWO_32
    ensures var r := TakeSections(epoch, size, limits, take, s); r.Success? ==> FitsContents(r.value.0, limits, fits)
  {
    if TakeSections(epoch, size, limits, take, s).Success? {
      var s1: Buffer := TakeSection(PolicyTaker(limits), size, limits, s).value.1;
      var s2: Buffer := TakeSection(ProofTaker(limits), size, limits, s1).value.1;
      var s3: Buffer := TakeSection(SessionTaker(limits), size, limits, s2).value.1;
      var s4: Buffer := TakeSection(BootTaker(limits), size, limits, s3).value.1;
      var s5: Buffer := TakeSection(AttemptTaker(limits), size, limits, s4).value.1;
      var s6: Buffer := TakeSection(HistoryTaker(limits), size, limits, s5).value.1;
      PolicyLists(limits);
      SectionFits(PolicyTaker(limits), PolicyFitter(limits), size, limits, s);
      ProofLists(limits);
      SectionFits(ProofTaker(limits), ProofFitter(limits), size, limits, s1);
      SessionLists(limits);
      SectionFits(SessionTaker(limits), SessionFitter(limits), size, limits, s2);
      BootLists(limits);
      SectionFits(BootTaker(limits), BootFitter(limits), size, limits, s3);
      AttemptLists(limits);
      SectionFits(AttemptTaker(limits), AttemptFitter(limits), size, limits, s4);
      HistoryLists(limits);
      SectionFits(HistoryTaker(limits), HistoryFitter(limits), size, limits, s5);
      SectionFits(take, fits, size, limits, s6);
    }
  }

  lemma Layout(magic: Buffer, version: Buffer, epoch: Buffer, sections: Buffer)
    requires |magic| == 8 && |version| == 4 && |epoch| == 8
    ensures var p := magic + version + epoch + sections;
            p[..8] == magic && p[8..12] == version && p[12..20] == epoch && p[20..] == sections
  {
  }

  lemma PayloadLayout<S>(c: Contents<S>, put: (S, Buffer) -> Buffer)
    ensures var p := Payload(c, put);
            && p[..8] == MAGIC && p[8..12] == LittleEndian(VERSION, 4) && p[12..20] == LittleEndian(c.epoch, 8)
            && p[20..] == PutSections(c, put)
  {
    Layout(MAGIC, LittleEndian(VERSION, 4), LittleEndian(c.epoch, 8), PutSections(c, put));
  }

  /** A store file comes back if and only if it is small enough and everything in it fits. */
  lemma StoreRoundTrip<S(!new)>(c: Contents<S>, put: (S, Buffer) -> Buffer, limits: Limits, take: Buffer -> Taken<S>,
                                fits: S -> bool)
    requires limits.maxRequiredClasses < TWO_32
    requires Inverse(put, take, fits) && OnlyFitting(take, fits) && Grows(put)
    ensures DecodeStore(EncodeStore(c, put), limits, take) == Success(c)
            <==> |EncodeStore(c, put)| <= limits.maxStoreBytes && FitsContents(c, limits, fits)
  {
    StoreComesBack(c, put, limits, take, fits, fits);
  }

  /**
   * The same for a last codec that takes more than it gives back: `loosely` is all that
   * is known of what it takes from arbitrary bytes, `fits` decides what comes back.
   */
  lemma StoreComesBack<S(!new)>(c: Contents<S>, put: (S, Buffer) -> Buffer, limits: Limits, take: Buffer -> Taken<S>,
                                fits: S -> bool, loosely: S -> bool)
    requires limits.maxRequiredClasses < TWO_32
    requires Inverse(put, take, fits) && Honest(put, take, fits) && OnlyFitting(take, loosely) && Grows(put)
    ensures DecodeStore(EncodeStore(c, put), limits, take) == Success(c)
            <==> |EncodeStore(c, put)| <= limits.maxStoreBytes && FitsContents(c, limits, fits)
  {
    PayloadLayout(c, put);
    SealedDecodes(Payload(c, put), limits, take);
    PayloadRoundTrip(c, put, limits, take, fits, loosely);
  }

  /** An undamaged file is as good as its payload, unless it is too large. */
  lemma SealedDecodes<S>(payload: Buffer, limits: Limits, take: Buffer -> Taken<S>)
    requires |payload| >= 20 && payload[..8] == MAGIC
    ensures DecodeStore(Sealed(payload), limits, take)
            == if |Sealed(payload)| <= limits.maxStoreBytes then DecodePayload(payload, limits, take)
                else Failure(SIZE_LIMIT_EXCEEDED)
  {
    SealedNumbers(payload);
    assert Sealed(payload)[..8] == payload[..8];
  }

  lemma PayloadComesBack<S(!new)>(c: Contents<S>, put: (S, Buffer) -> Buffer, limits: Limits, take: Buffer -> Taken<S>,
                                  fits: S -> bool)
    requires limits.maxRequiredClasses < TWO_32
    requires Inverse(put, take, fits) && Grows(put) && FitsContents(c, limits, fits)
    ensures DecodePayload(Payload(c, put), limits, take) == Success(c)
  {
    PayloadLayout(c, put);
    Capacities();
    LittleEndianRoundTrip(VERSION, 4);
    LittleEndianRoundTrip(c.epoch, 8);
    SectionsRoundTrip(c, |Payload(c, put)|, limits, put, take, fits);
  }

  /** Whatever the payload, only contents that fit are decoded. */
  lemma PayloadFits<S>(payload: Buffer, limits: Limits, take: Buffer -> Taken<S>, fits: S -> bool)
    requires |payload| >= 20 && limits.maxRequiredClasses < TWO_32 && OnlyFitting(take, fits)
    ensures var r := DecodePayload(payload, limits, take); r.Success? ==> FitsContents(r.value, limits, fits)
  {
    Capacities();
    LittleEndianFits(payload[12..20]);
    SectionsFit(FromLittleEndian(payload[12..20]), |payload|, limits, take, fits, payload[20..]);
  }

  lemma PayloadRoundTrip<S(!new)>(c: Contents<S>, put: (S, Buffer) -> Buffer, limits: Limits, take: Buffer -> Taken<S>,
                                  fits: S -> bool, loosely: S -> bool)
    requires limits.maxRequiredClasses < TWO_32
    requires Inverse(put, take, fits) && Honest(put, take, fits) && OnlyFitting(take, loosely) && Grows(put)
    ensures DecodePayload(Payload(c, put), limits, take) == Success(c) <==> FitsContents(c, limits, fits)
  {
    if FitsContents(c, limits, fits) {
      PayloadComesBack(c, put, limits, take, fits);
    } else if DecodePayload(Payload(c, put), limits, take) == Success(c) {
      PayloadFits(Payload(c, put), limits, take, loosely);
      SectionsOfPayload(c, put, limits, take);
      LastSectionFits(c, |Payload(c, put)|, limits, put, take, fits, loosely);
    }
  }

  lemma SectionsOfPayload<S>(c: Contents<S>, put: (S, Buffer) -> Buffer, limits: Limits, take: Buffer -> Taken<S>)
    requires FitsLong(c.epoch) && DecodePayload(Payload(c, put), limits, take) == Success(c)
    ensures |PutSections(c, put)| <= |Payload(c, put)|
    ensures var r := TakeSections(c.epoch, |Payload(c, put)|, limits, take, PutSections(c, put));
            r.Success? && r.value.0 == c
  {
    PayloadLayout(c, put);
    Capacities();
    LittleEndianRoundTrip(c.epoch, 8);
  }

  /** A section read from where it was put holds only records that fit. */
  lemma SectionHonest<T(!new)>(put: (T, Buffer) -> Buffer, take: Buffer -> Taken<T>, fits: T -> bool, items: seq<T>,
                               size: nat, limits: Limits)
    requires Inverse(put, take, fits) && Honest(put, take, fits) && |items| <= limits.maxStoreRecords
             && |items| < TWO_64
    requires |items| <= size
    requires var r := TakeSection(take, size, limits, PutList(put, items, [])); r.Success? && r.value.0 == items
    ensures forall k | 0 <= k < |items| :: fits(items[k])
  {
    NumberRoundTrip(|items|, PutMany(put, items, []));
    assert [] + items == items;
    ManyHonest(put, take, fits, items, [], []);
  }

  lemma LastSectionFits<S(!new)>(c: Contents<S>, size: nat, limits: Limits, put: (S, Buffer) -> Buffer,
                                 take: Buffer -> Taken<S>,
                                 fits: S -> bool, loosely: S -> bool)
    requires limits.maxRequiredClasses < TWO_32 && Grows(put) && FitsContents(c, limits, loosely)
             && |PutSections(c, put)| <= size
    requires Inverse(put, take, fits) && Honest(put, take, fits)
    requires var r := TakeSections(c.epoch, size, limits, take, PutSections(c, put)); r.Success? && r.value.0 == c
    ensures FitsContents(c, limits, fits)
  {
    var s1, s2, s3, s4, s5, s6 := FrontSections(c, size, limits, put, loosely);
    SectionsDecompose(c, size, limits, take, PutSections(c, put), s1, s2, s3, s4, s5, s6);
    SectionHonest(put, take, fits, c.snapshots, size, limits);
  }
}
