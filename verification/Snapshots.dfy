/**
 * Snapshots of revisions: a record that carries the digest of its own content.  The
 * decoder trusts neither that digest nor the identity: it recomputes both.
 */
module Snapshots {
  import opened Bytes
  import opened Evidence
  import opened RecordParts
  import opened Records
  import opened Store
  import R = Registry

  datatype ProofSnapshot = ProofSnapshot(
    id: string,
    proof: string,
    generation: nat,
    policy: string,
    policyGeneration: nat,
    paths: seq<PathRef>,
    outcome: Outcome,
    classes: seq<ClassResult>,
    conflicts: seq<SharedResource>,
    witnessSubset: WitnessSubset,
    dependencies: Dependencies,
    standing: Standing,
    digest: Buffer)
  {
    /** The content without what is derived from it. */
    function Bare(): ProofSnapshot {
      this.(id := "", digest := [])
    }
  }

  /** The digest of a bare content; sixteen bytes. */
  type Seal = ProofSnapshot -> Buffer

  const SNAPSHOT_ID: nat := 96

  function HexDigit(n: nat): char
    requires n < 16
  {
    "0123456789abcdef"[n]
  }

  function Hex(bytes: Buffer): string {
    if bytes == [] then "" else [HexDigit(bytes[0] / 16), HexDigit(bytes[0] % 16)] + Hex(bytes[1..])
  }

  /** `derived_snapshot_id`. */
  function DerivedId(digest: Buffer): string {
    "dsnap-" + Hex(digest)
  }

  lemma {:induction false} HexIsIdentityText(bytes: Buffer)
    ensures |Hex(bytes)| == 2 * |bytes| && forall k | 0 <= k < |Hex(bytes)| :: IdentityCharacter(Hex(bytes)[k])
  {
    if bytes != [] {
      HexIsIdentityText(bytes[1..]);
    }
  }

  /** Every derived identity is well formed. */
  lemma DerivedIdIsValid(digest: Buffer)
    requires |digest| == DIGEST_BYTES
    ensures |DerivedId(digest)| == 38 && ValidIdentity(DerivedId(digest), SNAPSHOT_ID)
  {
    HexIsIdentityText(digest);
  }

  lemma ValidTextFits(id: string, limits: Limits, longest: nat)
    requires ValidIdentity(id, longest) && longest < 1000
    ensures FitsName(id, limits, longest) <==> |id| <= limits.maxIdentityLength
  {
    forall k | 0 <= k < |id|
      ensures Octet(id[k])
    {
      assert IdentityCharacter(id[k]);
    }
  }

  // ----- Parts ------------------------------------------------------------------------------------------

  /** Here the text is read under the global bound and checked against its own length afterwards. */
  function TakeName(s: Buffer, limits: Limits, longest: nat): Taken<string> {
    var (text, rest) :- TakeText(s, limits.maxIdentityLength);
    if ValidIdentity(text, longest) then Success((text, rest)) else Failure(MALFORMED_IDENTITY)
  }

  lemma NameRoundTrip(id: string, rest: Buffer, limits: Limits, longest: nat)
    requires FitsName(id, limits, longest)
    ensures TakeName(PutText(id, rest), limits, longest) == Success((id, rest))
  {
    TextRoundTrip(id, rest, limits.maxIdentityLength);
  }

  lemma NameFits(s: Buffer, limits: Limits, longest: nat)
    ensures TakeName(s, limits, longest).Success? ==> FitsName(TakeName(s, limits, longest).value.0, limits, longest)
  {
    TextFits(s, limits.maxIdentityLength);
  }

  function TakeNamedRef(s: Buffer, limits: Limits): Taken<PathRef> {
    var (path, s1) :- TakeName(s, limits, PATH_ID);
    var (generation, s2) :- TakeLong(s1);
    Success((PathRef(path, generation), s2))
  }

  function NamedRefTaker(limits: Limits): Buffer -> Taken<PathRef> {
    s => TakeNamedRef(s, limits)
  }

  ghost function NamedRefFitter(limits: Limits): PathRef -> bool {
    (ref: PathRef) => FitsName(ref.path, limits, PATH_ID) && FitsLong(ref.generation)
  }

  lemma NamedRefLists(limits: Limits)
    ensures Inverse(PutRef, NamedRefTaker(limits), NamedRefFitter(limits))
    ensures OnlyFitting(NamedRefTaker(limits), NamedRefFitter(limits))
  {
    forall ref, s | NamedRefFitter(limits)(ref)
      ensures NamedRefTaker(limits)(PutRef(ref, s)) == Success((ref, s))
    {
      NameRoundTrip(ref.path, PutLong(ref.generation, s), limits, PATH_ID);
      LongRoundTrip(ref.generation, s);
    }
    forall s | NamedRefTaker(limits)(s).Success?
      ensures NamedRefFitter(limits)(NamedRefTaker(limits)(s).value.0)
    {
      NameFits(s, limits, PATH_ID);
      LongFits(TakeName(s, limits, PATH_ID).value.1);
    }
  }

  /** A class result whose counts and claims are not questioned. */
  function TakeLooseClass(s: Buffer, limits: Limits): Taken<ClassResult> {
    var (classCode, s1) :- TakeByte(s);
    var (outcomeCode, s2) :- TakeByte(s1);
    var klass :- Named(ALL_CLASSES, classCode);
    var outcome :- Named(OUTCOMES, outcomeCode);
    var (complete, s3) :- TakeBool(s2);
    var (shared, s4) :- TakeList(ConflictTaker(limits), limits.maxConflictsPerProof, s3);
    var (total, s5) :- TakeLong(s4);
    var (text, s6) :- TakeText(s5, TextBound(limits));
    Success((ClassResult(klass, outcome, complete, shared, total, text), s6))
  }

  function LooseClassTaker(limits: Limits): Buffer -> Taken<ClassResult> {
    s => TakeLooseClass(s, limits)
  }

  ghost predicate FitsLooseClass(c: ClassResult, limits: Limits) {
    && FitsList(c.shared, limits.maxConflictsPerProof, ConflictFitter(limits))
    && FitsLong(c.sharedTotal) && FitsText(c.detail, TextBound(limits))
  }

  ghost function LooseClassFitter(limits: Limits): ClassResult -> bool {
    (c: ClassResult) => FitsLooseClass(c, limits)
  }

  lemma LooseClassRoundTrip(c: ClassResult, rest: Buffer, limits: Limits)
    requires FitsLooseClass(c, limits)
    ensures TakeLooseClass(PutClass(c, rest), limits) == Success((c, rest))
  {
    ClassCodes(c);
    CodeRoundTrip(ALL_CLASSES, c.klass);
    CodeRoundTrip(OUTCOMES, c.outcome);
    var s5 := PutText(c.detail, rest);
    ConflictListRoundTrip(c.shared, limits.maxConflictsPerProof, PutLong(c.sharedTotal, s5), limits);
    LongRoundTrip(c.sharedTotal, s5);
    TextRoundTrip(c.detail, rest, TextBound(limits));
  }

  lemma LooseClassFits(s: Buffer, limits: Limits)
    ensures TakeLooseClass(s, limits).Success? ==> FitsLooseClass(TakeLooseClass(s, limits).value.0, limits)
  {
    if TakeLooseClass(s, limits).Success? {
      var s3: Buffer := s[1..][1..][1..];
      ConflictLists(limits);
      ListFits(ConflictTaker(limits), ConflictFitter(limits), limits.maxConflictsPerProof, s3);
      var s4: Buffer := TakeList(ConflictTaker(limits), limits.maxConflictsPerProof, s3).value.1;
      LongFits(s4);
      TextFits(s4[8..], TextBound(limits));
    }
  }

  lemma LooseClassLists(limits: Limits)
    ensures Inverse(PutClass, LooseClassTaker(limits), LooseClassFitter(limits))
    ensures OnlyFitting(LooseClassTaker(limits), LooseClassFitter(limits))
  {
    forall c, s | LooseClassFitter(limits)(c)
      ensures LooseClassTaker(limits)(PutClass(c, s)) == Success((c, s))
    {
      LooseClassRoundTrip(c, s, limits);
    }
    forall s | LooseClassTaker(limits)(s).Success?
      ensures LooseClassFitter(limits)(LooseClassTaker(limits)(s).value.0)
    {
      LooseClassFits(s, limits);
    }
  }

  /** An index of one of the first `paths` paths. */
  function TakeIndexBelow(s: Buffer, paths: nat, reason: Reason): Taken<nat> {
    var (index, rest) :- TakeNumber(s);
    if index >= paths then Failure(reason) else Success((index, rest))
  }

  function IndexBelowTaker(paths: nat, reason: Reason): Buffer -> Taken<nat> {
    s => TakeIndexBelow(s, paths, reason)
  }

  ghost function IndexBelowFitter(paths: nat): nat -> bool {
    (index: nat) => index < paths && FitsLong(index)
  }

  lemma IndexBelowLists(paths: nat, reason: Reason)
    ensures Inverse(PutIndex, IndexBelowTaker(paths, reason), IndexBelowFitter(paths))
    ensures OnlyFitting(IndexBelowTaker(paths, reason), IndexBelowFitter(paths))
  {
    forall index: nat, s | IndexBelowFitter(paths)(index)
      ensures IndexBelowTaker(paths, reason)(PutIndex(index, s)) == Success((index, s))
    {
      NumberRoundTrip(index, s);
    }
    forall s | IndexBelowTaker(paths, reason)(s).Success?
      ensures IndexBelowFitter(paths)(IndexBelowTaker(paths, reason)(s).value.0)
    {
      NumberFits(s);
    }
  }

  lemma IndexListRoundTrip(indices: seq<nat>, paths: nat, reason: Reason, bound: nat, rest: Buffer)
    requires FitsList(indices, bound, IndexBelowFitter(paths))
    ensures TakeList(IndexBelowTaker(paths, reason), bound, PutList(PutIndex, indices, rest))
            == Success((indices, rest))
  {
    IndexBelowLists(paths, reason);
    ListRoundTrip(PutIndex, IndexBelowTaker(paths, reason), IndexBelowFitter(paths), indices, bound, rest);
  }

  function TakeLocatedConflict(s: Buffer, paths: nat, limits: Limits): Taken<SharedResource> {
    var (kindCode, s1) :- TakeByte(s);
    var (relationCode, s2) :- TakeByte(s1);
    var kind :- Named(KINDS, kindCode);
    var relation :- Named(RELATIONS, relationCode);
    var (id, s3) :- TakeText(s2, limits.maxIdentityLength);
    var (indices, s4) :- TakeList(IndexBelowTaker(paths, UNKNOWN_REFERENCE), limits.maxPathsPerProof, s3);
    Success((SharedResource(kind, relation, id, indices), s4))
  }

  function LocatedConflictTaker(paths: nat, limits: Limits): Buffer -> Taken<SharedResource> {
    s => TakeLocatedConflict(s, paths, limits)
  }

  ghost predicate FitsLocatedConflict(c: SharedResource, paths: nat, limits: Limits) {
    FitsText(c.id, limits.maxIdentityLength) && FitsList(c.paths, limits.maxPathsPerProof, IndexBelowFitter(paths))
  }

  ghost function LocatedConflictFitter(paths: nat, limits: Limits): SharedResource -> bool {
    (c: SharedResource) => FitsLocatedConflict(c, paths, limits)
  }

  lemma LocatedConflictRoundTrip(c: SharedResource, rest: Buffer, paths: nat, limits: Limits)
    requires FitsLocatedConflict(c, paths, limits)
    ensures TakeLocatedConflict(PutConflict(c, rest), paths, limits) == Success((c, rest))
  {
    ConflictCodes(c);
    CodeRoundTrip(KINDS, c.kind);
    CodeRoundTrip(RELATIONS, c.relation);
    TextRoundTrip(c.id, PutList(PutIndex, c.paths, rest), limits.maxIdentityLength);
    IndexListRoundTrip(c.paths, paths, UNKNOWN_REFERENCE, limits.maxPathsPerProof, rest);
  }

  lemma LocatedConflictFits(s: Buffer, paths: nat, limits: Limits)
    ensures var r := TakeLocatedConflict(s, paths, limits); r.Success? ==> FitsLocatedConflict(r.value.0, paths, limits)
  {
    if TakeLocatedConflict(s, paths, limits).Success? {
      var s2: Buffer := s[1..][1..];
      TextFits(s2, limits.maxIdentityLength);
      IndexBelowLists(paths, UNKNOWN_REFERENCE);
      ListFits(IndexBelowTaker(paths, UNKNOWN_REFERENCE), IndexBelowFitter(paths), limits.maxPathsPerProof,
               TakeText(s2, limits.maxIdentityLength).value.1);
    }
  }

  lemma LocatedConflictLists(paths: nat, limits: Limits)
    ensures Inverse(PutConflict, LocatedConflictTaker(paths, limits), LocatedConflictFitter(paths, limits))
    ensures OnlyFitting(LocatedConflictTaker(paths, limits), LocatedConflictFitter(paths, limits))
  {
    forall c, s | LocatedConflictFitter(paths, limits)(c)
      ensures LocatedConflictTaker(paths, limits)(PutConflict(c, s)) == Success((c, s))
    {
      LocatedConflictRoundTrip(c, s, paths, limits);
    }
    forall s | LocatedConflictTaker(paths, limits)(s).Success?
      ensures LocatedConflictFitter(paths, limits)(LocatedConflictTaker(paths, limits)(s).value.0)
    {
      LocatedConflictFits(s, paths, limits);
    }
  }

  /** The counts lose what does not fit thirty-two bits; neither order nor size is questioned. */
  function TakeLooseWitness(s: Buffer, paths: nat, limits: Limits): Taken<WitnessSubset> {
    var (present, s1) :- TakeBool(s);
    var (requested, s2) :- TakeNumber(s1);
    var (achieved, s3) :- TakeNumber(s2);
    var (exact, s4) :- TakeBool(s3);
    var (indices, s5) :- TakeList(IndexBelowTaker(paths, INVALID_WITNESS), limits.maxPathsPerProof, s4);
    Success((WitnessSubset(present, requested % TWO_32, indices, achieved % TWO_32, exact), s5))
  }

  ghost predicate FitsLooseWitness(w: WitnessSubset, paths: nat, limits: Limits) {
    FitsWord(w.requestedK) && FitsWord(w.achieved)
    && FitsList(w.indices, limits.maxPathsPerProof, IndexBelowFitter(paths))
  }

  lemma LooseWitnessRoundTrip(w: WitnessSubset, rest: Buffer, paths: nat, limits: Limits)
    requires FitsLooseWitness(w, paths, limits)
    ensures TakeLooseWitness(PutWitness(w, rest), paths, limits) == Success((w, rest))
  {
    var s4 := PutList(PutIndex, w.indices, rest);
    var s3 := PutBool(w.maximumExact, s4);
    NumberRoundTrip(w.requestedK, PutVarint(w.achieved, s3));
    NumberRoundTrip(w.achieved, s3);
    IndexListRoundTrip(w.indices, paths, INVALID_WITNESS, limits.maxPathsPerProof, rest);
    WordsKeepTheirValue(w.requestedK, w.achieved);
  }

  lemma WordsKeepTheirValue(a: nat, b: nat)
    requires FitsWord(a) && FitsWord(b)
    ensures a % TWO_32 == a && b % TWO_32 == b
  {
  }

  lemma LooseWitnessFits(s: Buffer, paths: nat, limits: Limits)
    ensures var r := TakeLooseWitness(s, paths, limits); r.Success? ==> FitsLooseWitness(r.value.0, paths, limits)
  {
    if TakeLooseWitness(s, paths, limits).Success? {
      var s2: Buffer := TakeNumber(s[1..]).value.1;
      IndexBelowLists(paths, INVALID_WITNESS);
      ListFits(IndexBelowTaker(paths, INVALID_WITNESS), IndexBelowFitter(paths), limits.maxPathsPerProof,
               TakeNumber(s2).value.1[1..]);
    }
  }

  function TakeNamedDependencies(s: Buffer, limits: Limits): Taken<Dependencies> {
    var (policy, s1) :- TakeLong(s);
    var (topology, s2) :- TakeLong(s1);
    var (domains, s3) :- TakeLong(s2);
    var (epoch, s4) :- TakeLong(s3);
    var (code, s5) :- TakeByte(s4);
    var exemption :- Named(EXEMPTIONS, code);
    var (paths, s6) :- TakeList(NamedRefTaker(limits), limits.maxPathsPerProof, s5);
    var (entities, s7) :- TakeList(EntityTaker(limits), limits.maxTopologyDependencies, s6);
    Success((Dependencies(policy, topology, domains, epoch, paths, entities, exemption), s7))
  }

  ghost predicate FitsNamedDependencies(d: Dependencies, limits: Limits) {
    && FitsLong(d.policyGeneration) && FitsLong(d.topologyGeneration) && FitsLong(d.domainGeneration)
    && FitsLong(d.epoch)
    && FitsList(d.paths, limits.maxPathsPerProof, NamedRefFitter(limits))
    && FitsList(d.topologyEntities, limits.maxTopologyDependencies, EntityFitter(limits))
  }

  lemma NamedRefListRoundTrip(items: seq<PathRef>, bound: nat, rest: Buffer, limits: Limits)
    requires FitsList(items, bound, NamedRefFitter(limits))
    ensures TakeList(NamedRefTaker(limits), bound, PutList(PutRef, items, rest)) == Success((items, rest))
  {
    NamedRefLists(limits);
    ListRoundTrip(PutRef, NamedRefTaker(limits), NamedRefFitter(limits), items, bound, rest);
  }

  lemma NamedDependenciesRoundTrip(d: Dependencies, rest: Buffer, limits: Limits)
    requires FitsNamedDependencies(d, limits)
    ensures TakeNamedDependencies(PutDependencies(d, rest), limits) == Success((d, rest))
  {
    var s6 := PutList(PutEntity, d.topologyEntities, rest);
    var s5 := PutList(PutRef, d.paths, s6);
    var s4 := PutByte(Code(EXEMPTIONS, d.endpointExemption), s5);
    var s3 := PutLong(d.epoch, s4);
    var s2 := PutLong(d.domainGeneration, s3);
    LongRoundTrip(d.policyGeneration, PutLong(d.topologyGeneration, s2));
    LongRoundTrip(d.topologyGeneration, s2);
    LongRoundTrip(d.domainGeneration, s3);
    LongRoundTrip(d.epoch, s4);
    ExemptionCode(d.endpointExemption);
    CodeRoundTrip(EXEMPTIONS, d.endpointExemption);
    NamedRefListRoundTrip(d.paths, limits.maxPathsPerProof, s6, limits);
    EntityListRoundTrip(d.topologyEntities, limits.maxTopologyDependencies, rest, limits);
  }

  lemma NamedDependenciesFit(s: Buffer, limits: Limits)
    ensures var r := TakeNamedDependencies(s, limits); r.Success? ==> FitsNamedDependencies(r.value.0, limits)
  {
    if TakeNamedDependencies(s, limits).Success? {
      var s1: Buffer := TakeLong(s).value.1;
      var s2: Buffer := TakeLong(s1).value.1;
      var s3: Buffer := TakeLong(s2).value.1;
      var s5: Buffer := TakeByte(TakeLong(s3).value.1).value.1;
      LongFits(s);
      LongFits(s1);
      LongFits(s2);
      LongFits(s3);
      NamedRefLists(limits);
      ListFits(NamedRefTaker(limits), NamedRefFitter(limits), limits.maxPathsPerProof, s5);
      EntityLists(limits);
      ListFits(EntityTaker(limits), EntityFitter(limits), limits.maxTopologyDependencies,
               TakeList(NamedRefTaker(limits), limits.maxPathsPerProof, s5).value.1);
    }
  }

  // ----- The three parts of a snapshot ---------------------------------------------------------------------

  datatype Title = Title(proof: string, generation: nat, policy: string, policyGeneration: nat, paths: seq<PathRef>,
                         outcome: Outcome)

  function PutTitle(t: Title, rest: Buffer): Buffer {
    PutText(t.proof, PutLong(t.generation, PutText(t.policy, PutLong(t.policyGeneration,
      PutList(PutRef, t.paths, PutByte(Code(OUTCOMES, t.outcome), rest))))))
  }

  function TakeTitle(s: Buffer, limits: Limits): Taken<Title> {
    var (proof, s1) :- TakeName(s, limits, PROOF_ID);
    var (generation, s2) :- TakeLong(s1);
    var (policy, s3) :- TakeName(s2, limits, POLICY_ID);
    var (policyGeneration, s4) :- TakeLong(s3);
    var (paths, s5) :- TakeList(NamedRefTaker(limits), limits.maxSnapshotPaths, s4);
    var (code, s6) :- TakeByte(s5);
    var outcome :- Named(OUTCOMES, code);
    Success((Title(proof, generation, policy, policyGeneration, paths, outcome), s6))
  }

  ghost predicate FitsTitle(t: Title, limits: Limits) {
    && FitsName(t.proof, limits, PROOF_ID) && FitsLong(t.generation)
    && FitsName(t.policy, limits, POLICY_ID) && FitsLong(t.policyGeneration)
    && FitsList(t.paths, limits.maxSnapshotPaths, NamedRefFitter(limits))
  }

  lemma TitleRoundTrip(t: Title, rest: Buffer, limits: Limits)
    requires FitsTitle(t, limits)
    ensures TakeTitle(PutTitle(t, rest), limits) == Success((t, rest))
  {
    var s5 := PutByte(Code(OUTCOMES, t.outcome), rest);
    var s4 := PutList(PutRef, t.paths, s5);
    var s3 := PutLong(t.policyGeneration, s4);
    var s2 := PutText(t.policy, s3);
    NameRoundTrip(t.proof, PutLong(t.generation, s2), limits, PROOF_ID);
    LongRoundTrip(t.generation, s2);
    NameRoundTrip(t.policy, s3, limits, POLICY_ID);
    LongRoundTrip(t.policyGeneration, s4);
    NamedRefListRoundTrip(t.paths, limits.maxSnapshotPaths, s5, limits);
    OutcomeByte(t.outcome, rest);
  }

  lemma TitleFits(s: Buffer, limits: Limits)
    ensures TakeTitle(s, limits).Success? ==> FitsTitle(TakeTitle(s, limits).value.0, limits)
  {
    if TakeTitle(s, limits).Success? {
      var s1: Buffer := TakeName(s, limits, PROOF_ID).value.1;
      var s2: Buffer := TakeLong(s1).value.1;
      var s3: Buffer := TakeName(s2, limits, POLICY_ID).value.1;
      NameFits(s, limits, PROOF_ID);
      LongFits(s1);
      NameFits(s2, limits, POLICY_ID);
      LongFits(s3);
      NamedRefLists(limits);
      ListFits(NamedRefTaker(limits), NamedRefFitter(limits), limits.maxSnapshotPaths, TakeLong(s3).value.1);
    }
  }

  /** Lifecycle and currentness come before the provenance here. */
  function PutSnapshotStanding(st: Standing, rest: Buffer): Buffer {
    PutByte(Code(LIFECYCLES, st.lifecycle), PutByte(Code(CURRENTNESSES, st.currentness), PutLong(st.provenance.epoch,
      PutText(st.provenance.publisher, PutText(st.provenance.boot, PutText(st.provenance.attempt, rest))))))
  }

  function TakeSnapshotStanding(s: Buffer, limits: Limits): Taken<Standing> {
    var (lifecycleCode, s1) :- TakeByte(s);
    var (currentnessCode, s2) :- TakeByte(s1);
    var lifecycle :- Named(LIFECYCLES, lifecycleCode);
    var currentness :- Named(CURRENTNESSES, currentnessCode);
    var (epoch, s3) :- TakeLong(s2);
    var (publisher, s4) :- TakeName(s3, limits, PUBLISHER_ID);
    var (boot, s5) :- TakeName(s4, limits, BOOT_ID);
    var (attempt, s6) :- TakeName(s5, limits, ATTEMPT_ID);
    Success((Standing(R.Provenance(epoch, publisher, boot, attempt), lifecycle, currentness), s6))
  }

  ghost predicate FitsSnapshotStanding(st: Standing, limits: Limits) {
    && FitsLong(st.provenance.epoch) && FitsName(st.provenance.publisher, limits, PUBLISHER_ID)
    && FitsName(st.provenance.boot, limits, BOOT_ID) && FitsName(st.provenance.attempt, limits, ATTEMPT_ID)
  }

  lemma SnapshotStandingRoundTrip(st: Standing, rest: Buffer, limits: Limits)
    requires FitsSnapshotStanding(st, limits)
    ensures TakeSnapshotStanding(PutSnapshotStanding(st, rest), limits) == Success((st, rest))
  {
    var s5 := PutText(st.provenance.attempt, rest);
    var s4 := PutText(st.provenance.boot, s5);
    var s3 := PutText(st.provenance.publisher, s4);
    StandingCodes(st.lifecycle, st.currentness);
    CodeRoundTrip(LIFECYCLES, st.lifecycle);
    CodeRoundTrip(CURRENTNESSES, st.currentness);
    LongRoundTrip(st.provenance.epoch, s3);
    NameRoundTrip(st.provenance.publisher, s4, limits, PUBLISHER_ID);
    NameRoundTrip(st.provenance.boot, s5, limits, BOOT_ID);
    NameRoundTrip(st.provenance.attempt, rest, limits, ATTEMPT_ID);
  }

  lemma SnapshotStandingFits(s: Buffer, limits: Limits)
    ensures TakeSnapshotStanding(s, limits).Success? ==>
              FitsSnapshotStanding(TakeSnapshotStanding(s, limits).value.0, limits)
  {
    if TakeSnapshotStanding(s, limits).Success? {
      var s2: Buffer := s[1..][1..];
      var s3: Buffer := TakeLong(s2).value.1;
      var s4: Buffer := TakeName(s3, limits, PUBLISHER_ID).value.1;
      LongFits(s2);
      NameFits(s3, limits, PUBLISHER_ID);
      NameFits(s4, limits, BOOT_ID);
      NameFits(TakeName(s4, limits, BOOT_ID).value.1, limits, ATTEMPT_ID);
    }
  }

  function PutFound(classes: seq<ClassResult>, conflicts: seq<SharedResource>, w: WitnessSubset, d: Dependencies,
                    rest: Buffer): Buffer
  {
    PutList(PutClass, classes, PutList(PutConflict, conflicts, PutWitness(w, PutDependencies(d, rest))))
  }

  datatype Found = Found(classes: seq<ClassResult>, conflicts: seq<SharedResource>, subset: WitnessSubset,
                         dependencies: Dependencies)

  function TakeFound(s: Buffer, paths: nat, limits: Limits): Taken<Found> {
    var (classes, s1) :- TakeList(LooseClassTaker(limits), limits.maxRequiredClasses, s);
    var (conflicts, s2) :- TakeList(LocatedConflictTaker(paths, limits), limits.maxConflictsPerProof, s1);
    var (subset, s3) :- TakeLooseWitness(s2, paths, limits);
    var (dependencies, s4) :- TakeNamedDependencies(s3, limits);
    Success((Found(classes, conflicts, subset, dependencies), s4))
  }

  ghost predicate FitsFound(f: Found, paths: nat, limits: Limits) {
    && FitsList(f.classes, limits.maxRequiredClasses, LooseClassFitter(limits))
    && FitsList(f.conflicts, limits.maxConflictsPerProof, LocatedConflictFitter(paths, limits))
    && FitsLooseWitness(f.subset, paths, limits)
    && FitsNamedDependencies(f.dependencies, limits)
  }

  lemma FoundRoundTrip(f: Found, rest: Buffer, paths: nat, limits: Limits)
    requires FitsFound(f, paths, limits)
    ensures TakeFound(PutFound(f.classes, f.conflicts, f.subset, f.dependencies, rest), paths, limits)
            == Success((f, rest))
  {
    var s3 := PutDependencies(f.dependencies, rest);
    var s2 := PutWitness(f.subset, s3);
    var s1 := PutList(PutConflict, f.conflicts, s2);
    LooseClassLists(limits);
    ListRoundTrip(PutClass, LooseClassTaker(limits), LooseClassFitter(limits), f.classes, limits.maxRequiredClasses,
                  s1);
    LocatedConflictLists(paths, limits);
    ListRoundTrip(PutConflict, LocatedConflictTaker(paths, limits), LocatedConflictFitter(paths, limits), f.conflicts,
                  limits.maxConflictsPerProof, s2);
    LooseWitnessRoundTrip(f.subset, s3, paths, limits);
    NamedDependenciesRoundTrip(f.dependencies, rest, limits);
  }

  lemma FoundFits(s: Buffer, paths: nat, limits: Limits)
    ensures TakeFound(s, paths, limits).Success? ==> FitsFound(TakeFound(s, paths, limits).value.0, paths, limits)
  {
    if TakeFound(s, paths, limits).Success? {
      var s1: Buffer := TakeList(LooseClassTaker(limits), limits.maxRequiredClasses, s).value.1;
      var s2: Buffer := TakeList(LocatedConflictTaker(paths, limits), limits.maxConflictsPerProof, s1).value.1;
      LooseClassLists(limits);
      ListFits(LooseClassTaker(limits), LooseClassFitter(limits), limits.maxRequiredClasses, s);
      LocatedConflictLists(paths, limits);
      ListFits(LocatedConflictTaker(paths, limits), LocatedConflictFitter(paths, limits), limits.maxConflictsPerProof,
               s1);
      LooseWitnessFits(s2, paths, limits);
      NamedDependenciesFit(TakeLooseWitness(s2, paths, limits).value.1, limits);
    }
  }

  // ----- Whole snapshots ----------------------------------------------------------------------------------------

  function TitleOf(x: ProofSnapshot): Title {
    Title(x.proof, x.generation, x.policy, x.policyGeneration, x.paths, x.outcome)
  }

  function FoundOf(x: ProofSnapshot): Found {
    Found(x.classes, x.conflicts, x.witnessSubset, x.dependencies)
  }

  function PutSnapshot(x: ProofSnapshot, rest: Buffer): Buffer {
    PutText(x.id, PutTitle(TitleOf(x), PutFound(x.classes, x.conflicts, x.witnessSubset, x.dependencies,
      PutSnapshotStanding(x.standing, PutBytes(x.digest, rest)))))
  }

  function Assembled(t: Title, f: Found, st: Standing): ProofSnapshot {
    ProofSnapshot("", t.proof, t.generation, t.policy, t.policyGeneration, t.paths, t.outcome, f.classes, f.conflicts,
                  f.subset, f.dependencies, st, [])
  }

  function TakeSnapshot(s: Buffer, limits: Limits, seal: Seal): Taken<ProofSnapshot> {
    var (id, s1) :- TakeName(s, limits, SNAPSHOT_ID);
    var (title, s2) :- TakeTitle(s1, limits);
    var (found, s3) :- TakeFound(s2, |title.paths|, limits);
    var (standing, s4) :- TakeSnapshotStanding(s3, limits);
    var (digest, s5) :- TakeDigest(s4);
    var content := Assembled(title, found, standing);
    if seal(content) != digest then Failure(INTERNAL_INCONSISTENCY)
    else Success((content.(id := DerivedId(digest), digest := digest), s5))
  }

  ghost predicate FitsBody(x: ProofSnapshot, limits: Limits) {
    FitsTitle(TitleOf(x), limits) && FitsFound(FoundOf(x), |x.paths|, limits)
    && FitsSnapshotStanding(x.standing, limits)
  }

  /** The digest is that of the content and the identity is derived from it. */
  predicate SealedBy(x: ProofSnapshot, seal: Seal) {
    |x.digest| == DIGEST_BYTES && x.digest == seal(x.Bare()) && x.id == DerivedId(x.digest)
  }

  lemma SealedComesBack(x: ProofSnapshot, rest: Buffer, limits: Limits, seal: Seal)
    requires FitsBody(x, limits) && SealedBy(x, seal) && |x.id| <= limits.maxIdentityLength
    ensures TakeSnapshot(PutSnapshot(x, rest), limits, seal) == Success((x, rest))
  {
    var s4 := PutBytes(x.digest, rest);
    var s3 := PutSnapshotStanding(x.standing, s4);
    var s2 := PutFound(x.classes, x.conflicts, x.witnessSubset, x.dependencies, s3);
    DerivedIdIsValid(x.digest);
    ValidTextFits(x.id, limits, SNAPSHOT_ID);
    NameRoundTrip(x.id, PutTitle(TitleOf(x), s2), limits, SNAPSHOT_ID);
    TitleRoundTrip(TitleOf(x), s2, limits);
    FoundRoundTrip(FoundOf(x), s3, |x.paths|, limits);
    SnapshotStandingRoundTrip(x.standing, s4, limits);
    DigestRoundTrip(x.digest, rest);
    assert Assembled(TitleOf(x), FoundOf(x), x.standing) == x.Bare();
  }

  /** Whatever the bytes, a decoded snapshot carries the digest of its content and the identity derived from it. */
  lemma OnlySealedIsTaken(s: Buffer, limits: Limits, seal: Seal)
    ensures var r := TakeSnapshot(s, limits, seal); r.Success? ==>
              FitsBody(r.value.0, limits) && SealedBy(r.value.0, seal)
  {
    if TakeSnapshot(s, limits, seal).Success? {
      var s1: Buffer := TakeName(s, limits, SNAPSHOT_ID).value.1;
      var (title, s2) := TakeTitle(s1, limits).value;
      var (found, s3) := TakeFound(s2, |title.paths|, limits).value;
      var standing := TakeSnapshotStanding(s3, limits).value.0;
      TitleFits(s1, limits);
      FoundFits(s2, |title.paths|, limits);
      SnapshotStandingFits(s3, limits);
      SameParts(TakeSnapshot(s, limits, seal).value.0, title, found, standing);
    }
  }

  lemma SameParts(x: ProofSnapshot, t: Title, f: Found, st: Standing)
    requires x.Bare() == Assembled(t, f, st)
    ensures TitleOf(x) == t && FoundOf(x) == f && x.standing == st
  {
  }

  lemma TakenIdIsShort(id: string, rest: Buffer, limits: Limits)
    requires |id| < TWO_64 && TakeName(PutText(id, rest), limits, SNAPSHOT_ID).Success?
    ensures |id| <= limits.maxIdentityLength
  {
    TakePutBytes(Octets(id), rest, limits.maxIdentityLength);
  }

  /** Whatever comes back from where it was put fits, is sealed, and has an identity within the bound. */
  lemma SnapshotIsHonest(x: ProofSnapshot, rest: Buffer, limits: Limits, seal: Seal)
    requires var r := TakeSnapshot(PutSnapshot(x, rest), limits, seal); r.Success? && r.value.0 == x
    ensures FitsBody(x, limits) && SealedBy(x, seal) && |x.id| <= limits.maxIdentityLength
  {
    OnlySealedIsTaken(PutSnapshot(x, rest), limits, seal);
    DerivedIdIsValid(x.digest);
    TakenIdIsShort(x.id, PutTitle(TitleOf(x), PutFound(x.classes, x.conflicts, x.witnessSubset, x.dependencies,
      PutSnapshotStanding(x.standing, PutBytes(x.digest, rest)))), limits);
  }

  /** A snapshot comes back if and only if it fits, is sealed, and its derived identity is within the identity bound. */
  lemma SnapshotRoundTrip(x: ProofSnapshot, rest: Buffer, limits: Limits, seal: Seal)
    ensures TakeSnapshot(PutSnapshot(x, rest), limits, seal) == Success((x, rest))
            <==> FitsBody(x, limits) && SealedBy(x, seal) && |x.id| <= limits.maxIdentityLength
  {
    if FitsBody(x, limits) && SealedBy(x, seal) && |x.id| <= limits.maxIdentityLength {
      SealedComesBack(x, rest, limits, seal);
    } else if TakeSnapshot(PutSnapshot(x, rest), limits, seal) == Success((x, rest)) {
      SnapshotIsHonest(x, rest, limits, seal);
    }
  }

  // ----- Snapshots of stored revisions -------------------------------------------------------------------------

  /** `capture_snapshot`: copied from a revision, then sealed. */
  function Capture(p: StoredProof, seal: Seal): ProofSnapshot {
    var bare := ProofSnapshot("", p.head.id, p.head.generation, p.head.request.policy, p.head.request.policyGeneration,
                              p.head.request.paths, p.findings.outcome, p.findings.classes, p.findings.conflicts,
                              p.witnessSubset, p.dependencies, p.standing, []);
    bare.(id := DerivedId(seal(bare)), digest := seal(bare))
  }

  lemma CapturedIsSealed(p: StoredProof, seal: Seal)
    requires forall x :: |seal(x)| == DIGEST_BYTES
    ensures SealedBy(Capture(p, seal), seal) && |Capture(p, seal).id| == 38
  {
    var x := Capture(p, seal);
    assert x.Bare() == x.(id := "", digest := []);
    DerivedIdIsValid(x.digest);
  }

  lemma StricterId(id: string, limits: Limits, longest: nat)
    requires FitsId(id, limits, longest)
    ensures FitsName(id, limits, longest)
  {
  }

  lemma StricterRefs(refs: seq<PathRef>, bound: nat, limits: Limits)
    requires FitsList(refs, bound, RefFitter(limits))
    ensures forall k | 0 <= k < |refs| :: NamedRefFitter(limits)(refs[k])
  {
    forall k | 0 <= k < |refs|
      ensures NamedRefFitter(limits)(refs[k])
    {
      assert RefFitter(limits)(refs[k]);
      StricterId(refs[k].path, limits, PATH_ID);
    }
  }

  lemma StricterFindings(p: StoredProof, limits: Limits)
    requires Storable(p, limits)
    ensures FitsFound(Found(p.findings.classes, p.findings.conflicts, p.witnessSubset, p.dependencies),
                      |p.head.request.paths|, limits)
  {
    var n := |p.head.request.paths|;
    forall k | 0 <= k < |p.findings.classes|
      ensures LooseClassFitter(limits)(p.findings.classes[k])
    {
      assert ClassFitter(limits)(p.findings.classes[k]);
    }
    forall k | 0 <= k < |p.findings.conflicts|
      ensures LocatedConflictFitter(n, limits)(p.findings.conflicts[k])
    {
      assert ConflictFitter(limits)(p.findings.conflicts[k]) && Names(p.findings.conflicts[k], n);
      LocatedIndices(p.findings.conflicts[k].paths, n, limits);
    }
    LocatedIndices(p.witnessSubset.indices, n, limits);
    StricterRefs(p.dependencies.paths, limits.maxPathsPerProof, limits);
  }

  lemma LocatedIndices(indices: seq<nat>, n: nat, limits: Limits)
    requires FitsList(indices, limits.maxPathsPerProof, FitsWord) && forall k | 0 <= k < |indices| :: indices[k] < n
    ensures FitsList(indices, limits.maxPathsPerProof, IndexBelowFitter(n))
  {
    forall k | 0 <= k < |indices|
      ensures IndexBelowFitter(n)(indices[k])
    {
      assert FitsWord(indices[k]);
    }
  }

  lemma StricterTitle(p: StoredProof, limits: Limits)
    requires Storable(p, limits)
    ensures FitsTitle(Title(p.head.id, p.head.generation, p.head.request.policy, p.head.request.policyGeneration,
                            p.head.request.paths, p.findings.outcome), limits)
            <==> |p.head.request.paths| <= limits.maxSnapshotPaths
    ensures FitsSnapshotStanding(p.standing, limits)
  {
    StricterId(p.head.id, limits, PROOF_ID);
    StricterId(p.head.request.policy, limits, POLICY_ID);
    StricterRefs(p.head.request.paths, limits.maxPathsPerProof, limits);
    StricterId(p.standing.provenance.publisher, limits, PUBLISHER_ID);
    StricterId(p.standing.provenance.boot, limits, BOOT_ID);
    StricterId(p.standing.provenance.attempt, limits, ATTEMPT_ID);
  }

  /**
   * The snapshot of a storable revision comes back if and only if its paths are within the
   * snapshot bound and a derived identity is within the identity bound.
   */
  lemma CapturedSnapshotSurvives(p: StoredProof, rest: Buffer, limits: Limits, seal: Seal)
    requires Storable(p, limits) && forall x :: |seal(x)| == DIGEST_BYTES
    ensures TakeSnapshot(PutSnapshot(Capture(p, seal), rest), limits, seal) == Success((Capture(p, seal), rest))
            <==> |p.head.request.paths| <= limits.maxSnapshotPaths && 38 <= limits.maxIdentityLength
  {
    CapturedIsSealed(p, seal);
    StricterTitle(p, limits);
    StricterFindings(p, limits);
    CapturedParts(p, seal);
    SnapshotRoundTrip(Capture(p, seal), rest, limits, seal);
  }

  lemma CapturedParts(p: StoredProof, seal: Seal)
    ensures var x := Capture(p, seal);
            && TitleOf(x) == Title(p.head.id, p.head.generation, p.head.request.policy, p.head.request.policyGeneration,
                                   p.head.request.paths, p.findings.outcome)
            && FoundOf(x) == Found(p.findings.classes, p.findings.conflicts, p.witnessSubset, p.dependencies)
            && x.standing == p.standing && x.paths == p.head.request.paths
  {
  }

  // ----- In a store ------------------------------------------------------------------------------------------------

  function SnapshotTaker(limits: Limits, seal: Seal): Buffer -> Taken<ProofSnapshot> {
    s => TakeSnapshot(s, limits, seal)
  }

  /** All that is known of what is taken from arbitrary bytes. */
  ghost function SealedFitter(limits: Limits, seal: Seal): ProofSnapshot -> bool {
    (x: ProofSnapshot) => FitsBody(x, limits) && SealedBy(x, seal)
  }

  /** What comes back from where it was put. */
  ghost function SnapshotFitter(limits: Limits, seal: Seal): ProofSnapshot -> bool {
    (x: ProofSnapshot) => FitsBody(x, limits) && SealedBy(x, seal) && |x.id| <= limits.maxIdentityLength
  }

  lemma SnapshotLists(limits: Limits, seal: Seal)
    ensures Inverse(PutSnapshot, SnapshotTaker(limits, seal), SnapshotFitter(limits, seal))
    ensures Honest(PutSnapshot, SnapshotTaker(limits, seal), SnapshotFitter(limits, seal))
    ensures OnlyFitting(SnapshotTaker(limits, seal), SealedFitter(limits, seal))
  {
    forall x, s | SnapshotFitter(limits, seal)(x)
      ensures SnapshotTaker(limits, seal)(PutSnapshot(x, s)) == Success((x, s))
    {
      SealedComesBack(x, s, limits, seal);
    }
    forall x, s | SnapshotTaker(limits, seal)(PutSnapshot(x, s)).Success?
                  && SnapshotTaker(limits, seal)(PutSnapshot(x, s)).value.0 == x
      ensures SnapshotFitter(limits, seal)(x)
    {
      SnapshotIsHonest(x, s, limits, seal);
    }
    forall s | SnapshotTaker(limits, seal)(s).Success?
      ensures SealedFitter(limits, seal)(SnapshotTaker(limits, seal)(s).value.0)
    {
      OnlySealedIsTaken(s, limits, seal);
    }
  }

  lemma SnapshotGrows()
    ensures Grows(PutSnapshot)
  {
    forall x: ProofSnapshot, s: Buffer
      ensures |PutSnapshot(x, s)| > |s|
    {
      var s4 := PutBytes(x.digest, s);
      var s3 := PutSnapshotStanding(x.standing, s4);
      DependenciesGrow(x.dependencies, s3);
      var s2 := PutWitness(x.witnessSubset, PutDependencies(x.dependencies, s3));
      ListGrows(PutIndex, x.witnessSubset.indices, PutDependencies(x.dependencies, s3));
      ConflictGrows();
      ClassGrows();
      ListGrows(PutConflict, x.conflicts, s2);
      ListGrows(PutClass, x.classes, PutList(PutConflict, x.conflicts, s2));
      TitleGrows(TitleOf(x), PutFound(x.classes, x.conflicts, x.witnessSubset, x.dependencies, s3));
    }
  }

  lemma DependenciesGrow(d: Dependencies, rest: Buffer)
    ensures |PutDependencies(d, rest)| > |rest|
  {
    ListGrows(PutEntity, d.topologyEntities, rest);
    ListGrows(PutRef, d.paths, PutList(PutEntity, d.topologyEntities, rest));
  }

  lemma TitleGrows(t: Title, rest: Buffer)
    ensures |PutTitle(t, rest)| > |rest|
  {
    ListGrows(PutRef, t.paths, PutByte(Code(OUTCOMES, t.outcome), rest));
  }

  /** Sealed snapshots need room for their derived identities, and an empty section needs none. */
  lemma RoomForIdentities(c: Contents<ProofSnapshot>, limits: Limits, seal: Seal)
    ensures FitsContents(c, limits, SnapshotFitter(limits, seal))
            <==> && FitsContents(c, limits, SealedFitter(limits, seal))
                 && (c.snapshots == [] || 38 <= limits.maxIdentityLength)
  {
    forall k | 0 <= k < |c.snapshots|
      ensures SnapshotFitter(limits, seal)(c.snapshots[k])
              <==> SealedFitter(limits, seal)(c.snapshots[k]) && 38 <= limits.maxIdentityLength
    {
      if SealedBy(c.snapshots[k], seal) {
        DerivedIdIsValid(c.snapshots[k].digest);
      }
    }
    assert c.snapshots != [] ==> (SnapshotFitter(limits, seal)(c.snapshots[0]) ==> 38 <= limits.maxIdentityLength);
  }

  /**
   * The store with its snapshot section: it comes back if and only if it is small enough,
   * everything fits, and derived identities are within the identity bound if there are any.
   */
  lemma StoreWithSnapshots(c: Contents<ProofSnapshot>, limits: Limits, seal: Seal)
    requires limits.maxRequiredClasses < TWO_32
    ensures DecodeStore(EncodeStore(c, PutSnapshot), limits, SnapshotTaker(limits, seal)) == Success(c)
            <==> && |EncodeStore(c, PutSnapshot)| <= limits.maxStoreBytes
                 && FitsContents(c, limits, SealedFitter(limits, seal))
                 && (c.snapshots == [] || 38 <= limits.maxIdentityLength)
  {
    SnapshotLists(limits, seal);
    SnapshotGrows();
    StoreComesBack(c, PutSnapshot, limits, SnapshotTaker(limits, seal), SnapshotFitter(limits, seal),
                   SealedFitter(limits, seal));
    RoomForIdentities(c, limits, seal);
  }
}
