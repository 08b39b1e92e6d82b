/**
 * The parts records are made of: enumeration codes, bounded counts, texts, identities,
 * lists and shared resources.  `Put` functions place an encoding in front of the bytes
 * that follow; `Take` functions take it off again or name the corruption they
 * recognised.  What fits comes back, and only what fits is ever taken.
 */
module RecordParts {
  import opened Bytes
  import opened Evidence
  import L = Lifecycle

  /** Why a store or a record is refused: the reader's status joined with the recognised reason. */
  datatype Reason =
    | EMPTY_FILE
    | MALFORMED_MAGIC
    | UNSUPPORTED_VERSION
    | TRUNCATED
    | INTEGRITY_FAILURE
    | RECORD_LIMIT_EXCEEDED
    | SIZE_LIMIT_EXCEEDED
    | ABSURD_COUNT
    | TRAILING_BYTES
    | LIMIT_EXCEEDED
    | INTERNAL_INCONSISTENCY
    | DUPLICATE_PATH
    | MALFORMED_IDENTITY
    | INVALID_ENUM
    | IMPOSSIBLE_GENERATION
    | MATRIX_DIMENSION_MISMATCH
    | UNKNOWN_REFERENCE
    | INCOMPLETE_EVIDENCE_CLAIM
    | INVALID_WITNESS
    | ARITHMETIC_OVERFLOW

  datatype Result<+T> = Success(value: T) | Failure(reason: Reason) {
    predicate IsFailure() {
      Failure?
    }

    function PropagateFailure<U>(): Result<U>
      requires Failure?
    {
      Failure(reason)
    }

    function Extract(): T
      requires Success?
    {
      value
    }
  }

  /** A value and the bytes after it. */
  type Taken<+T> = Result<(T, Buffer)>

  /** `persistence_status_for`, for a failure no helper has classified. */
  function ReasonOf(status: DecodeStatus): Reason {
    match status
    case OK => INTERNAL_INCONSISTENCY
    case TRUNCATED => Reason.TRUNCATED
    case LENGTH_OVERRUN => Reason.TRUNCATED
    case TRAILING_BYTES => Reason.TRAILING_BYTES
    case INVALID_ENCODING => INTERNAL_INCONSISTENCY
    case LIMIT_EXCEEDED => Reason.LIMIT_EXCEEDED
  }

  // ----- Enumerations ---------------------------------------------------------------------------

  const OUTCOMES: seq<Outcome> := [
    PROVEN_DIVERSE, NOT_DIVERSE, UNKNOWN_INCOMPLETE_EVIDENCE, STALE_PATH_AUTHORITY, STALE_TOPOLOGY,
    STALE_FAILURE_DOMAIN, STALE_POLICY, REVALIDATION_REQUIRED, UNAUTHORIZED, RESOURCE_LIMIT, MALFORMED]

  const KINDS: seq<ConflictClass> := [
    SHARED_FAILURE_DOMAIN, SHARED_RISK_GROUP, SHARED_SITE, SHARED_POD, SHARED_RACK, SHARED_POWER_DOMAIN,
    SHARED_CONDUIT, SHARED_COOLING, SHARED_DEVICE, SHARED_TRANSIT_NODE, SHARED_LINK, SHARED_ENDPOINT,
    INCOMPLETE_EVIDENCE, STALE_DEPENDENCY]

  const RELATIONS: seq<DomainRelation> := [FAILURE_DOMAIN, RACK, POD, SITE, POWER_DOMAIN, CONDUIT, COOLING]

  const EXEMPTIONS: seq<EndpointExemption> := [
    NONE, SHARED_SOURCE_AND_DESTINATION, SHARED_SOURCE_ONLY, SHARED_DESTINATION_ONLY, ANY_ENDPOINT]

  const SEMANTICS: seq<SetSemantics> := [ALL_PAIRS, AT_LEAST_K_INDEPENDENT]

  const COMPLETENESS: seq<CompletenessRequirement> := [REQUIRE_COMPLETE_EVIDENCE, PROVEN_CONFLICT_DECISIVE]

  const UNKNOWNS: seq<UnknownBehavior> := [REJECT_PROOF, DEMOTE_TO_REVALIDATION]

  const ENTITY_KINDS: seq<EntityKind> := [ENDPOINT, NODE, LINK, DEVICE]

  const BOUNDS: seq<ResourceBound> := [
    MAX_POLICIES, MAX_PROOFS, MAX_PATHS_PER_PROOF, MAX_REQUIRED_CLASSES, MAX_CONFLICTS_PER_PROOF,
    MAX_PAIRWISE_CELLS, MAX_DOMAIN_EVIDENCE_ENTRIES, MAX_QUERY_RESULTS, MAX_HISTORY, MAX_BATCH_SIZE,
    MAX_PUBLISHERS, MAX_FRAME_BYTES, MAX_PERSISTENCE_RECORD_BYTES, MAX_EXPLANATION_ENTRIES,
    MAX_K_SUBSET_PATHS, MAX_SNAPSHOT_PATHS, MAX_IDENTITY_LENGTH, MAX_ATTEMPTS_TRACKED,
    MAX_WIRE_ASSEMBLY_BYTES, MAX_STORE_RECORDS, MAX_STORE_BYTES, MAX_DIFF_ENTRIES, MAX_TOPOLOGY_DEPENDENCIES]

  const LIFECYCLES: seq<L.State> := [
    L.State.DECLARED, L.State.CURRENT, L.State.REVALIDATION_REQUIRED, L.State.SUPERSEDED, L.State.REVOKED,
    L.State.RETIRED, L.State.HISTORICAL]

  const CURRENTNESSES: seq<L.Currentness> := [
    L.Currentness.CURRENT, L.Currentness.STALE_PATH_AUTHORITY, L.Currentness.STALE_TOPOLOGY,
    L.Currentness.STALE_FAILURE_DOMAIN, L.Currentness.STALE_POLICY, L.Currentness.STALE_EPOCH,
    L.Currentness.FENCED_PUBLISHER, L.Currentness.INCOMPLETE_EVIDENCE, L.Currentness.REVALIDATION_REQUIRED]

  function Position<T(==)>(all: seq<T>, x: T): (k: nat)
    ensures k <= |all|
    ensures x in all ==> k < |all| && all[k] == x
  {
    if all == [] || all[0] == x then 0 else 1 + Position(all[1..], x)
  }

  /** Codes start at one. */
  function Code<T(==)>(all: seq<T>, x: T): Byte {
    (Position(all, x) + 1) % 256
  }

  function Named<T>(all: seq<T>, code: nat): Result<T> {
    if 1 <= code <= |all| then Success(all[code - 1]) else Failure(INVALID_ENUM)
  }

  lemma CodeRoundTrip<T>(all: seq<T>, x: T)
    requires x in all && |all| < 255
    ensures Named(all, Code(all, x)) == Success(x)
  {
  }

  // ----- Primitives ------------------------------------------------------------------------------

  function PutByte(b: Byte, rest: Buffer): Buffer {
    [b] + rest
  }

  function TakeByte(s: Buffer): Taken<Byte> {
    if s == [] then Failure(Reason.TRUNCATED) else Success((s[0], s[1..]))
  }

  function PutLong(value: nat, rest: Buffer): Buffer {
    PutInt(value, 8, rest)
  }

  function TakeLong(s: Buffer): Taken<nat> {
    if |s| < 8 then Failure(Reason.TRUNCATED) else Success((FromLittleEndian(s[..8]), s[8..]))
  }

  function TakeNumber(s: Buffer): Taken<nat> {
    match TakeVarint(s, 0)
    case Bad(status) => Failure(ReasonOf(status))
    case Value(value, rest) => Success((value, rest))
  }

  function TakeBool(s: Buffer): Taken<bool> {
    var (raw, rest) :- TakeByte(s);
    if raw > 1 then Failure(INTERNAL_INCONSISTENCY) else Success((raw == 1, rest))
  }

  /** `read_count`: the caller knows which limit applies. */
  function TakeCount(s: Buffer, bound: nat): Taken<nat> {
    var (count, rest) :- TakeNumber(s);
    if count > bound then Failure(Reason.LIMIT_EXCEEDED) else Success((count, rest))
  }

  function Octets(text: string): Buffer {
    seq(|text|, k requires 0 <= k < |text| => text[k] as int % 256)
  }

  function Characters(bytes: Buffer): string {
    seq(|bytes|, k requires 0 <= k < |bytes| => bytes[k] as char)
  }

  function PutText(text: string, rest: Buffer): Buffer {
    PutBytes(Octets(text), rest)
  }

  function TakeText(s: Buffer, bound: nat): Taken<string> {
    match TakeBytes(s, bound)
    case NotTaken(status) => Failure(ReasonOf(status))
    case Taken(bytes, rest) => Success((Characters(bytes), rest))
  }

  predicate Octet(c: char) {
    c as int < 256
  }

  predicate FitsText(text: string, bound: nat) {
    |text| <= bound && |text| < TWO_64 && forall k | 0 <= k < |text| :: Octet(text[k])
  }

  predicate FitsLong(value: nat) {
    value < TWO_64
  }

  predicate FitsWord(value: nat) {
    value < TWO_32
  }

  // ----- Identities --------------------------------------------------------------------------------

  const POLICY_ID: nat := 96
  const PROOF_ID: nat := 96
  const PATH_ID: nat := 96
  const ATTEMPT_ID: nat := 96
  const SCOPE_ID: nat := 64
  const BOOT_ID: nat := 64
  const PUBLISHER_ID: nat := 64

  predicate IdentityCharacter(c: char) {
    || 'a' <= c <= 'z' || 'A' <= c <= 'Z' || '0' <= c <= '9'
    || c in {'.', '_', '-', ':', '/', '#', '@', '+'}
  }

  /** `valid_identity_text`. */
  predicate ValidIdentity(text: string, longest: nat) {
    0 < |text| <= longest && forall k | 0 <= k < |text| :: IdentityCharacter(text[k])
  }

  function IdBound(limits: Limits, longest: nat): nat {
    if limits.maxIdentityLength < longest then limits.maxIdentityLength else longest
  }

  function TakeId(s: Buffer, limits: Limits, longest: nat): Taken<string> {
    var (text, rest) :- TakeText(s, IdBound(limits, longest));
    if ValidIdentity(text, longest) then Success((text, rest)) else Failure(MALFORMED_IDENTITY)
  }

  predicate FitsId(id: string, limits: Limits, longest: nat) {
    FitsText(id, IdBound(limits, longest)) && ValidIdentity(id, longest)
  }

  // ----- Lists --------------------------------------------------------------------------------------

  function PutMany<T>(put: (T, Buffer) -> Buffer, items: seq<T>, rest: Buffer): Buffer {
    if items == [] then rest else put(items[0], PutMany(put, items[1..], rest))
  }

  /** The loop of a list decoder: `count` more items after those already read. */
  function TakeMany<T>(take: Buffer -> Taken<T>, count: nat, items: seq<T>, s: Buffer): Taken<seq<T>>
    decreases count
  {
    if count == 0 then Success((items, s))
    else
      var (item, rest) :- take(s);
      TakeMany(take, count - 1, items + [item], rest)
  }

  function PutList<T>(put: (T, Buffer) -> Buffer, items: seq<T>, rest: Buffer): Buffer {
    PutVarint(|items|, PutMany(put, items, rest))
  }

  function TakeList<T>(take: Buffer -> Taken<T>, bound: nat, s: Buffer): Taken<seq<T>> {
    var (count, rest) :- TakeCount(s, bound);
    TakeMany(take, count, [], rest)
  }

  ghost predicate FitsList<T>(items: seq<T>, bound: nat, fits: T -> bool) {
    |items| <= bound && |items| < TWO_64 && forall k | 0 <= k < |items| :: fits(items[k])
  }

  /** What is put can be taken, for every item that fits. */
  ghost predicate Inverse<T(!new)>(put: (T, Buffer) -> Buffer, take: Buffer -> Taken<T>, fits: T -> bool) {
    forall x, s | fits(x) :: take(put(x, s)) == Success((x, s))
  }

  /** What is taken fits. */
  ghost predicate OnlyFitting<T>(take: Buffer -> Taken<T>, fits: T -> bool) {
    forall s | take(s).Success? :: fits(take(s).value.0)
  }

  lemma {:induction false} ManyRoundTrip<T(!new)>(put: (T, Buffer) -> Buffer, take: Buffer -> Taken<T>, fits: T -> bool,
                                            items: seq<T>, done: seq<T>, rest: Buffer)
    requires Inverse(put, take, fits) && forall k | 0 <= k < |items| :: fits(items[k])
    ensures TakeMany(take, |items|, done, PutMany(put, items, rest)) == Success((done + items, rest))
    decreases |items|
  {
    if items == [] {
      assert done + items == done;
    } else {
      ManyRoundTrip(put, take, fits, items[1..], done + [items[0]], rest);
      assert done + [items[0]] + items[1..] == done + items;
      assert take(put(items[0], PutMany(put, items[1..], rest))) == Success((items[0], PutMany(put, items[1..], rest)));
    }
  }

  /** Only items that fit come back from where they were put. */
  ghost predicate Honest<T(!new)>(put: (T, Buffer) -> Buffer, take: Buffer -> Taken<T>, fits: T -> bool) {
    forall x, s | take(put(x, s)).Success? && take(put(x, s)).value.0 == x :: fits(x)
  }

  /** Items that all come back in their order all fit. */
  lemma {:induction false} ManyHonest<T(!new)>(put: (T, Buffer) -> Buffer, take: Buffer -> Taken<T>, fits: T -> bool,
                                         items: seq<T>, done: seq<T>, rest: Buffer)
    requires Inverse(put, take, fits) && Honest(put, take, fits)
    requires var r := TakeMany(take, |items|, done, PutMany(put, items, rest)); r.Success? && r.value.0 == done + items
    ensures forall k | 0 <= k < |items| :: fits(items[k])
    decreases |items|
  {
    if items != [] {
      var more := PutMany(put, items[1..], rest);
      var (item, after) := take(put(items[0], more)).value;
      ManyStarts(take, |items| - 1, done + [item], after);
      assert (done + items)[|done|] == item;
      assert fits(items[0]) && take(put(items[0], more)) == Success((items[0], more));
      assert done + [items[0]] + items[1..] == done + items;
      ManyHonest(put, take, fits, items[1..], done + [items[0]], rest);
      assert forall k | 0 < k < |items| :: items[k] == items[1..][k - 1];
    }
  }

  /** What has been read stays in front. */
  lemma {:induction false} ManyStarts<T>(take: Buffer -> Taken<T>, count: nat, items: seq<T>, s: Buffer)
    ensures var r := TakeMany(take, count, items, s); r.Success? ==> items <= r.value.0
    decreases count
  {
    if count > 0 && take(s).Success? {
      var (item, rest) := take(s).value;
      ManyStarts(take, count - 1, items + [item], rest);
    }
  }

  lemma ListRoundTrip<T(!new)>(put: (T, Buffer) -> Buffer, take: Buffer -> Taken<T>, fits: T -> bool,
                         items: seq<T>, bound: nat, rest: Buffer)
    requires Inverse(put, take, fits) && FitsList(items, bound, fits)
    ensures TakeList(take, bound, PutList(put, items, rest)) == Success((items, rest))
  {
    TakePutVarint(|items|, PutMany(put, items, rest));
    ManyRoundTrip(put, take, fits, items, [], rest);
    assert [] + items == items;
  }

  lemma {:induction false} ManyFit<T>(take: Buffer -> Taken<T>, fits: T -> bool, count: nat, items: seq<T>, s: Buffer)
    requires OnlyFitting(take, fits) && forall k | 0 <= k < |items| :: fits(items[k])
    ensures var r := TakeMany(take, count, items, s);
            r.Success? ==> |r.value.0| == |items| + count && forall k | 0 <= k < |r.value.0| :: fits(r.value.0[k])
    decreases count
  {
    if count > 0 && take(s).Success? {
      var (item, rest) := take(s).value;
      ManyFit(take, fits, count - 1, items + [item], rest);
    }
  }

  lemma ListFits<T>(take: Buffer -> Taken<T>, fits: T -> bool, bound: nat, s: Buffer)
    requires OnlyFitting(take, fits)
    ensures var r := TakeList(take, bound, s);
            r.Success? ==> FitsList(r.value.0, bound, fits)
  {
    NumberFits(s);
    if TakeCount(s, bound).Success? {
      var (count, rest) := TakeCount(s, bound).value;
      ManyFit(take, fits, count, [], rest);
    }
  }

  // ----- Primitive lemmas ------------------------------------------------------------------------------

  lemma LongRoundTrip(value: nat, rest: Buffer)
    requires FitsLong(value)
    ensures TakeLong(PutLong(value, rest)) == Success((value, rest))
  {
    Capacities();
    LittleEndianRoundTrip(value, 8);
    var s := PutLong(value, rest);
    assert s[..8] == LittleEndian(value, 8) && s[8..] == rest;
  }

  lemma {:induction false} LittleEndianFits(s: Buffer)
    ensures FromLittleEndian(s) < Capacity(|s|)
  {
    if s != [] {
      LittleEndianFits(s[1..]);
    }
  }

  lemma LongFits(s: Buffer)
    ensures TakeLong(s).Success? ==> FitsLong(TakeLong(s).value.0)
  {
    Capacities();
    if |s| >= 8 {
      LittleEndianFits(s[..8]);
    }
  }

  lemma {:induction false} VarintFits(s: Buffer, groups: nat)
    ensures var r := TakeVarint(s, groups);
            r.Value? ==> groups <= 9 && r.value < Room(groups)
    decreases |s|
  {
    if s != [] && groups <= 9 {
      VarintFits(s[1..], groups + 1);
    }
  }

  lemma NumberFits(s: Buffer)
    ensures TakeNumber(s).Success? ==> FitsLong(TakeNumber(s).value.0)
  {
    RoomAtStart();
    VarintFits(s, 0);
  }

  lemma NumberRoundTrip(value: nat, rest: Buffer)
    requires FitsLong(value)
    ensures TakeNumber(PutVarint(value, rest)) == Success((value, rest))
  {
    TakePutVarint(value, rest);
  }

  lemma TextRoundTrip(text: string, rest: Buffer, bound: nat)
    requires FitsText(text, bound)
    ensures TakeText(PutText(text, rest), bound) == Success((text, rest))
  {
    TakePutBytes(Octets(text), rest, bound);
    forall k | 0 <= k < |text|
      ensures Characters(Octets(text))[k] == text[k]
    {
      assert Octet(text[k]);
    }
    assert Characters(Octets(text)) == text;
  }

  lemma TextFits(s: Buffer, bound: nat)
    ensures TakeText(s, bound).Success? ==> FitsText(TakeText(s, bound).value.0, bound)
  {
    NumberFits(s);
  }

  lemma IdRoundTrip(id: string, rest: Buffer, limits: Limits, longest: nat)
    requires FitsId(id, limits, longest)
    ensures TakeId(PutText(id, rest), limits, longest) == Success((id, rest))
  {
    TextRoundTrip(id, rest, IdBound(limits, longest));
  }

  lemma IdFits(s: Buffer, limits: Limits, longest: nat)
    ensures TakeId(s, limits, longest).Success? ==> FitsId(TakeId(s, limits, longest).value.0, limits, longest)
  {
    TextFits(s, IdBound(limits, longest));
  }

  // ----- Shared resources -----------------------------------------------------------------------------

  function PutIndex(index: nat, rest: Buffer): Buffer {
    PutVarint(index, rest)
  }

  /** A path index is a 32-bit field. */
  function TakeIndex(s: Buffer): Taken<nat> {
    var (index, rest) :- TakeNumber(s);
    if FitsWord(index) then Success((index, rest)) else Failure(ARITHMETIC_OVERFLOW)
  }

  lemma IndexInverse()
    ensures Inverse(PutIndex, TakeIndex, FitsWord)
  {
    forall index: nat, s: Buffer | FitsWord(index)
      ensures TakeIndex(PutIndex(index, s)) == Success((index, s))
    {
      NumberRoundTrip(index, s);
    }
  }

  function PutConflict(c: SharedResource, rest: Buffer): Buffer {
    PutByte(Code(KINDS, c.kind), PutByte(Code(RELATIONS, c.relation), PutText(c.id, PutList(PutIndex, c.paths, rest))))
  }

  function TakeConflict(s: Buffer, limits: Limits): Taken<SharedResource> {
    var (kindCode, s1) :- TakeByte(s);
    var (relationCode, s2) :- TakeByte(s1);
    var kind :- Named(KINDS, kindCode);
    var relation :- Named(RELATIONS, relationCode);
    var (id, s3) :- TakeText(s2, limits.maxIdentityLength);
    var (paths, s4) :- TakeList(TakeIndex, limits.maxPathsPerProof, s3);
    Success((SharedResource(kind, relation, id, paths), s4))
  }

  ghost predicate FitsConflict(c: SharedResource, limits: Limits) {
    && FitsText(c.id, limits.maxIdentityLength)
    && FitsList(c.paths, limits.maxPathsPerProof, FitsWord)
  }

  lemma ConflictCodes(c: SharedResource)
    ensures c.kind in KINDS && c.relation in RELATIONS
  {
    assert KINDS[KindRank(c.kind) - 1] == c.kind;
    assert RELATIONS[RelationRank(c.relation) - 1] == c.relation;
  }

  lemma ConflictRoundTrip(c: SharedResource, rest: Buffer, limits: Limits)
    requires FitsConflict(c, limits)
    ensures TakeConflict(PutConflict(c, rest), limits) == Success((c, rest))
  {
    ConflictCodes(c);
    CodeRoundTrip(KINDS, c.kind);
    CodeRoundTrip(RELATIONS, c.relation);
    TextRoundTrip(c.id, PutList(PutIndex, c.paths, rest), limits.maxIdentityLength);
    IndexInverse();
    ListRoundTrip(PutIndex, TakeIndex, FitsWord, c.paths, limits.maxPathsPerProof, rest);
  }

  lemma ConflictFits(s: Buffer, limits: Limits)
    ensures TakeConflict(s, limits).Success? ==> FitsConflict(TakeConflict(s, limits).value.0, limits)
  {
    if TakeConflict(s, limits).Success? {
      TextFits(s[1..][1..], limits.maxIdentityLength);
      var s3 := TakeText(s[1..][1..], limits.maxIdentityLength).value.1;
      ListFits(TakeIndex, FitsWord, limits.maxPathsPerProof, s3);
    }
  }

  function ConflictTaker(limits: Limits): Buffer -> Taken<SharedResource> {
    s => TakeConflict(s, limits)
  }

  ghost function ConflictFitter(limits: Limits): SharedResource -> bool {
    c => FitsConflict(c, limits)
  }

  lemma ConflictLists(limits: Limits)
    ensures Inverse(PutConflict, ConflictTaker(limits), ConflictFitter(limits))
    ensures OnlyFitting(ConflictTaker(limits), ConflictFitter(limits))
  {
    forall c, s | ConflictFitter(limits)(c)
      ensures ConflictTaker(limits)(PutConflict(c, s)) == Success((c, s))
    {
      ConflictRoundTrip(c, s, limits);
    }
    forall s | ConflictTaker(limits)(s).Success?
      ensures ConflictFitter(limits)(ConflictTaker(limits)(s).value.0)
    {
      ConflictFits(s, limits);
    }
  }
}
