/**
 * How many bytes a record takes at least, whoever wrote it: no decoder gives back more
 * bytes than it was given, and a policy cannot be read from fewer bytes than it is
 * written in.  So the store that holds a policy and nothing else is the smallest one
 * that brings it.
 */
module Sizes {
  import opened Bytes
  import opened Evidence
  import opened RecordParts
  import opened Records
  import opened PolicyRecords
  import opened Store
  import opened Snapshots

  // ----- Sizes -----------------------------------------------------------------------------

  function VarintSize(value: nat): (size: nat)
    ensures size >= 1
  {
    if value < 128 then 1 else 1 + VarintSize(value / 128)
  }

  function TextSize(text: string): (size: nat)
    ensures size >= 1 + |text|
  {
    VarintSize(|text|) + |text|
  }

  function NamesSize(count: nat): nat {
    VarintSize(count) + count
  }

  function HeadSize(h: PolicyHead): nat {
    TextSize(h.id) + 8 + TextSize(h.scope) + NamesSize(|h.requiredClasses|) + 1 + VarintSize(h.minimum)
  }

  function TailSize(t: PolicyTail): nat {
    3 + NamesSize(|t.relations|) + 1 + TextSize(t.description)
  }

  function HeadOf(p: Policy): PolicyHead {
    PolicyHead(p.id, p.generation, p.scope, p.requiredClasses, p.endpointExemption, p.minimumIndependentPaths)
  }

  function TailOf(p: Policy): PolicyTail {
    PolicyTail(p.semantics, p.completeness, p.unknownBehavior, p.relations, p.requireAuthorityCurrent, p.description)
  }

  function PolicySize(p: Policy): nat {
    HeadSize(HeadOf(p)) + TailSize(TailOf(p))
  }

  // ----- What is written -------------------------------------------------------------------------

  lemma {:induction false} PutVarintSize(value: nat, rest: Buffer)
    ensures |PutVarint(value, rest)| == VarintSize(value) + |rest|
  {
    if value >= 128 {
      PutVarintSize(value / 128, rest);
    }
  }

  lemma PutTextSize(text: string, rest: Buffer)
    ensures |PutText(text, rest)| == TextSize(text) + |rest|
  {
    PutVarintSize(|text|, Octets(text) + rest);
  }

  /** Every item is written in one byte. */
  ghost predicate OneByte<T(!new)>(put: (T, Buffer) -> Buffer) {
    forall x, s :: |put(x, s)| == 1 + |s|
  }

  lemma {:induction false} PutManySize<T(!new)>(put: (T, Buffer) -> Buffer, items: seq<T>, rest: Buffer)
    requires OneByte(put)
    ensures |PutMany(put, items, rest)| == |items| + |rest|
  {
    if items != [] {
      PutManySize(put, items[1..], rest);
      assert |put(items[0], PutMany(put, items[1..], rest))| == 1 + |PutMany(put, items[1..], rest)|;
    }
  }

  lemma PutNamesSize<T(!new)>(put: (T, Buffer) -> Buffer, items: seq<T>, rest: Buffer)
    requires OneByte(put)
    ensures |PutList(put, items, rest)| == NamesSize(|items|) + |rest|
  {
    PutManySize(put, items, rest);
    PutVarintSize(|items|, PutMany(put, items, rest));
  }

  lemma PutPolicySize(p: Policy, rest: Buffer)
    ensures |PutPolicy(p, rest)| == PolicySize(p) + |rest|
  {
    var s1 := PutText(p.description, rest);
    var s2 := PutList(PutRelation, p.relations, PutBool(p.requireAuthorityCurrent, s1));
    var s3 := PutByte(Code(SEMANTICS, p.semantics),
                      PutByte(Code(COMPLETENESS, p.completeness), PutByte(Code(UNKNOWNS, p.unknownBehavior), s2)));
    var s4 := PutByte(Code(EXEMPTIONS, p.endpointExemption), PutVarint(p.minimumIndependentPaths, s3));
    var s5 := PutText(p.scope, PutList(PutClassName, p.requiredClasses, s4));
    PutTextSize(p.description, rest);
    PutNamesSize(PutRelation, p.relations, PutBool(p.requireAuthorityCurrent, s1));
    PutVarintSize(p.minimumIndependentPaths, s3);
    PutNamesSize(PutClassName, p.requiredClasses, s4);
    PutTextSize(p.scope, PutList(PutClassName, p.requiredClasses, s4));
    PutTextSize(p.id, PutLong(p.generation, s5));
    assert |PutLong(p.generation, s5)| == 8 + |s5|;
  }

  // ----- What is read ----------------------------------------------------------------------------

  lemma {:induction false} TakeVarintSize(s: Buffer, groups: nat)
    ensures var r := TakeVarint(s, groups); r.Value? ==> |s| >= VarintSize(r.value) + |r.rest|
    decreases |s|
  {
    if s != [] && groups <= 9 && s[0] >= 128 {
      TakeVarintSize(s[1..], groups + 1);
      match TakeVarint(s[1..], groups + 1)
      case Bad(status) =>
      case Value(high, rest) => HigherGroup(Kept(s[0], groups), high);
    }
  }

  lemma HigherGroup(low: nat, high: nat)
    requires low < 128
    ensures VarintSize(low + 128 * high) <= 1 + VarintSize(high)
  {
    assert (low + 128 * high) / 128 == high;
  }

  /** The reader needs at least so many bytes for what it gives back. */
  ghost predicate Costs<T(!new)>(take: Buffer -> Taken<T>, size: T -> nat) {
    forall s | take(s).Success? :: |s| >= size(take(s).value.0) + |take(s).value.1|
  }

  /** The reader never gives back more bytes than it was given. */
  ghost predicate Shrinks<T(!new)>(take: Buffer -> Taken<T>) {
    forall s | take(s).Success? :: |s| >= |take(s).value.1|
  }

  ghost predicate Left<T>(s: Buffer, r: Taken<T>, size: nat) {
    r.Success? ==> |s| >= size + |r.value.1|
  }

  lemma TakeNumberSize(s: Buffer)
    ensures var r := TakeNumber(s); r.Success? ==> |s| >= VarintSize(r.value.0) + |r.value.1|
  {
    TakeVarintSize(s, 0);
  }

  lemma TakeTextSize(s: Buffer, bound: nat)
    ensures var r := TakeText(s, bound); r.Success? ==> |s| >= TextSize(r.value.0) + |r.value.1|
  {
    TakeVarintSize(s, 0);
  }

  lemma TakeIdLeaves(s: Buffer, limits: Limits, longest: nat)
    ensures Left(s, TakeId(s, limits, longest), 1)
  {
    TakeTextSize(s, IdBound(limits, longest));
  }

  lemma TakeNameLeaves(s: Buffer, limits: Limits, longest: nat)
    ensures Left(s, TakeName(s, limits, longest), 1)
  {
    TakeTextSize(s, limits.maxIdentityLength);
  }

  lemma TakeDigestSize(s: Buffer)
    ensures Left(s, TakeDigest(s), 0)
  {
    TakeVarintSize(s, 0);
  }

  lemma {:induction false} TakeManySize<T(!new)>(take: Buffer -> Taken<T>, least: nat, count: nat, items: seq<T>,
                                                 s: Buffer)
    requires forall b | take(b).Success? :: |b| >= least + |take(b).value.1|
    ensures var r := TakeMany(take, count, items, s);
            r.Success? ==> |r.value.0| == |items| + count && |s| >= count * least + |r.value.1|
    decreases count
  {
    if count > 0 && take(s).Success? {
      var (item, rest) := take(s).value;
      TakeManySize(take, least, count - 1, items + [item], rest);
      assert count * least == (count - 1) * least + least;
    }
  }

  lemma TakeListSize<T(!new)>(take: Buffer -> Taken<T>, bound: nat, s: Buffer)
    requires Shrinks(take)
    ensures Left(s, TakeList(take, bound, s), 1)
  {
    TakeNumberSize(s);
    if TakeCount(s, bound).Success? {
      var (count, rest) := TakeCount(s, bound).value;
      TakeManySize(take, 0, count, [], rest);
    }
  }

  lemma TakeNamesSize<T(!new)>(all: seq<T>, bound: nat, s: Buffer)
    ensures var r := TakeList(NamedTaker(all), bound, s); r.Success? ==> |s| >= NamesSize(|r.value.0|) + |r.value.1|
  {
    TakeNumberSize(s);
    if TakeCount(s, bound).Success? {
      var (count, rest) := TakeCount(s, bound).value;
      TakeManySize(NamedTaker(all), 1, count, [], rest);
    }
  }

  lemma TakeHeadSize(s: Buffer, limits: Limits)
    ensures var r := TakePolicyHead(s, limits); r.Success? ==> |s| >= HeadSize(r.value.0) + |r.value.1|
  {
    if TakePolicyHead(s, limits).Success? {
      var s1: Buffer := TakeId(s, limits, POLICY_ID).value.1;
      var s2: Buffer := TakeLong(s1).value.1;
      var s3: Buffer := TakeId(s2, limits, SCOPE_ID).value.1;
      var s4: Buffer := TakeList(NamedTaker(ALL_CLASSES), limits.maxRequiredClasses, s3).value.1;
      TakeTextSize(s, IdBound(limits, POLICY_ID));
      TakeTextSize(s2, IdBound(limits, SCOPE_ID));
      TakeNamesSize(ALL_CLASSES, limits.maxRequiredClasses, s3);
      TakeNumberSize(s4[1..]);
    }
  }

  lemma TakeTailSize(s: Buffer, limits: Limits)
    ensures var r := TakePolicyTail(s, limits); r.Success? ==> |s| >= TailSize(r.value.0) + |r.value.1|
  {
    if TakePolicyTail(s, limits).Success? {
      var s3: Buffer := s[1..][1..][1..];
      var s4: Buffer := TakeList(NamedTaker(RELATIONS), MAX_RELATIONS, s3).value.1;
      TakeNamesSize(RELATIONS, MAX_RELATIONS, s3);
      TakeTextSize(s4[1..], TextBound(limits));
    }
  }

  /** No policy is read from fewer bytes than it is written in. */
  lemma TakePolicySize(s: Buffer, limits: Limits)
    ensures var r := TakePolicy(s, limits); r.Success? ==> |s| >= PolicySize(r.value.0) + |r.value.1|
  {
    if TakePolicy(s, limits).Success? {
      var (head, s1) := TakePolicyHead(s, limits).value;
      var (tail, s2) := TakePolicyTail(s1, limits).value;
      TakeHeadSize(s, limits);
      TakeTailSize(s1, limits);
      assert HeadOf(Joined(head, tail)) == head && TailOf(Joined(head, tail)) == tail;
    }
  }

  // ----- Readers of revisions ---------------------------------------------------------------------

  lemma IndexShrinks()
    ensures Shrinks(TakeIndex)
  {
    forall s | TakeIndex(s).Success?
      ensures |s| >= |TakeIndex(s).value.1|
    {
      TakeNumberSize(s);
    }
  }

  lemma ConflictShrinks(limits: Limits)
    ensures Shrinks(ConflictTaker(limits))
  {
    IndexShrinks();
    forall s | ConflictTaker(limits)(s).Success?
      ensures |s| >= |ConflictTaker(limits)(s).value.1|
    {
      var s2: Buffer := s[1..][1..];
      TakeTextSize(s2, limits.maxIdentityLength);
      TakeListSize(TakeIndex, limits.maxPathsPerProof, TakeText(s2, limits.maxIdentityLength).value.1);
    }
  }

  lemma ClassShrinks(limits: Limits)
    ensures Shrinks(ClassTaker(limits))
  {
    ConflictShrinks(limits);
    forall s | ClassTaker(limits)(s).Success?
      ensures |s| >= |ClassTaker(limits)(s).value.1|
    {
      var s3: Buffer := s[1..][1..][1..];
      var s4: Buffer := TakeList(ConflictTaker(limits), limits.maxConflictsPerProof, s3).value.1;
      TakeListSize(ConflictTaker(limits), limits.maxConflictsPerProof, s3);
      TakeTextSize(TakeLong(s4).value.1, TextBound(limits));
    }
  }

  lemma RefShrinks(limits: Limits)
    ensures Shrinks(RefTaker(limits))
  {
    forall s | RefTaker(limits)(s).Success?
      ensures |s| >= |RefTaker(limits)(s).value.1|
    {
      TakeIdLeaves(s, limits, PATH_ID);
    }
  }

  lemma PathShrinks(limits: Limits)
    ensures Shrinks(PathTaker(limits))
  {
    forall s | PathTaker(limits)(s).Success?
      ensures |s| >= |PathTaker(limits)(s).value.1|
    {
      TakeIdLeaves(s, limits, PATH_ID);
    }
  }

  lemma EntityShrinks(limits: Limits)
    ensures Shrinks(EntityTaker(limits))
  {
    forall s | EntityTaker(limits)(s).Success?
      ensures |s| >= |EntityTaker(limits)(s).value.1|
    {
      TakeTextSize(s[1..], limits.maxIdentityLength);
    }
  }

  lemma CellShrinks(paths: nat, limits: Limits)
    ensures Shrinks(CellTaker(paths, limits))
  {
    ClassShrinks(limits);
    ConflictShrinks(limits);
    forall s | CellTaker(paths, limits)(s).Success?
      ensures |s| >= |CellTaker(paths, limits)(s).value.1|
    {
      var s1: Buffer := TakeNumber(s).value.1;
      var s2: Buffer := TakeNumber(s1).value.1;
      var s4: Buffer := s2[1..][1..];
      TakeNumberSize(s);
      TakeNumberSize(s1);
      TakeListSize(ClassTaker(limits), limits.maxRequiredClasses, s4);
    }
  }

  lemma HeadLeaves(s: Buffer, limits: Limits)
    ensures Left(s, TakeHead(s, limits), 0)
  {
    if TakeHead(s, limits).Success? {
      var s1: Buffer := TakeId(s, limits, PROOF_ID).value.1;
      var s2: Buffer := TakeLong(s1).value.1;
      var s3: Buffer := TakeId(s2, limits, POLICY_ID).value.1;
      var s4: Buffer := TakeLong(s3).value.1;
      var s5: Buffer := TakeList(RefTaker(limits), limits.maxPathsPerProof, s4).value.1;
      TakeIdLeaves(s, limits, PROOF_ID);
      TakeIdLeaves(s2, limits, POLICY_ID);
      RefShrinks(limits);
      TakeListSize(RefTaker(limits), limits.maxPathsPerProof, s4);
      TakeDigestSize(s5);
      TakeDigestSize(TakeDigest(s5).value.1);
    }
  }

  lemma FindingsLeave(s: Buffer, limits: Limits)
    ensures Left(s, TakeFindings(s, limits), 0)
  {
    if TakeFindings(s, limits).Success? {
      var s2: Buffer := TakeText(s[1..], TextBound(limits)).value.1;
      var s3: Buffer := TakeOption(TakeNotice, s2).value.1;
      var s4: Buffer := TakeList(ClassTaker(limits), limits.maxRequiredClasses, s3).value.1;
      var s5: Buffer := TakeList(ClassTaker(limits), limits.maxRequiredClasses, s4).value.1;
      TakeTextSize(s[1..], TextBound(limits));
      ClassShrinks(limits);
      ConflictShrinks(limits);
      TakeListSize(ClassTaker(limits), limits.maxRequiredClasses, s3);
      TakeListSize(ClassTaker(limits), limits.maxRequiredClasses, s4);
      TakeListSize(ConflictTaker(limits), limits.maxConflictsPerProof, s5);
    }
  }

  lemma MatrixLeaves(s: Buffer, limits: Limits)
    ensures Left(s, TakeMatrix(s, limits), 0)
  {
    if TakeMatrix(s, limits).Success? {
      var (order, s1) := TakeList(PathTaker(limits), limits.maxPathsPerProof, s).value;
      var (count, s2) := TakeCount(s1, limits.maxPairwiseCells).value;
      PathShrinks(limits);
      TakeListSize(PathTaker(limits), limits.maxPathsPerProof, s);
      TakeNumberSize(s1);
      CellShrinks(|order|, limits);
      TakeManySize(CellTaker(|order|, limits), 0, count, [], s2);
    }
  }

  lemma WitnessLeaves(s: Buffer, limits: Limits)
    ensures Left(s, TakeWitness(s, limits), 0)
  {
    if TakeWitness(s, limits).Success? {
      var s2: Buffer := TakeNumber(s[1..]).value.1;
      var s3: Buffer := TakeNumber(s2).value.1;
      TakeNumberSize(s[1..]);
      TakeNumberSize(s2);
      IndexShrinks();
      TakeListSize(TakeIndex, limits.maxPathsPerProof, s3[1..]);
    }
  }

  lemma DependenciesLeave(s: Buffer, limits: Limits)
    ensures Left(s, TakeDependencies(s, limits), 0)
  {
    if TakeDependencies(s, limits).Success? {
      var s5: Buffer := s[8..][8..][8..][8..][1..];
      RefShrinks(limits);
      EntityShrinks(limits);
      TakeListSize(RefTaker(limits), limits.maxPathsPerProof, s5);
      TakeListSize(EntityTaker(limits), limits.maxTopologyDependencies,
                   TakeList(RefTaker(limits), limits.maxPathsPerProof, s5).value.1);
    }
  }

  lemma StandingLeaves(s: Buffer, limits: Limits)
    ensures Left(s, TakeStanding(s, limits), 0)
  {
    if TakeStanding(s, limits).Success? {
      var s1: Buffer := TakeLong(s).value.1;
      var s2: Buffer := TakeId(s1, limits, PUBLISHER_ID).value.1;
      var s3: Buffer := TakeId(s2, limits, BOOT_ID).value.1;
      TakeIdLeaves(s1, limits, PUBLISHER_ID);
      TakeIdLeaves(s2, limits, BOOT_ID);
      TakeIdLeaves(s3, limits, ATTEMPT_ID);
    }
  }

  lemma ProofShrinks(limits: Limits)
    ensures Shrinks(ProofTaker(limits))
  {
    forall s | ProofTaker(limits)(s).Success?
      ensures |s| >= |ProofTaker(limits)(s).value.1|
    {
      ProofLeaves(s, limits);
    }
  }

  lemma ProofLeaves(s: Buffer, limits: Limits)
    ensures Left(s, TakeProof(s, limits), 0)
  {
    if TakeProof(s, limits).Success? {
      var s1: Buffer := TakeHead(s, limits).value.1;
      var s2: Buffer := TakeFindings(s1, limits).value.1;
      var s3: Buffer := TakeMatrix(s2, limits).value.1;
      var s4: Buffer := TakeWitness(s3, limits).value.1;
      var s5: Buffer := TakeDependencies(s4, limits).value.1;
      HeadLeaves(s, limits);
      FindingsLeave(s1, limits);
      MatrixLeaves(s2, limits);
      WitnessLeaves(s3, limits);
      DependenciesLeave(s4, limits);
      StandingLeaves(s5, limits);
    }
  }

  // ----- The other sections ------------------------------------------------------------------------------

  lemma SessionShrinks(limits: Limits)
    ensures Shrinks(SessionTaker(limits))
  {
    forall s | SessionTaker(limits)(s).Success?
      ensures |s| >= |SessionTaker(limits)(s).value.1|
    {
      var s1: Buffer := TakeText(s, limits.maxIdentityLength).value.1;
      var s2: Buffer := TakeText(s1, limits.maxIdentityLength).value.1;
      TakeTextSize(s, limits.maxIdentityLength);
      TakeTextSize(s1, limits.maxIdentityLength);
      TakeTextSize(TakeLong(s2).value.1, limits.maxIdentityLength);
    }
  }

  lemma BootShrinks(limits: Limits)
    ensures Shrinks(BootTaker(limits))
  {
    forall s | BootTaker(limits)(s).Success?
      ensures |s| >= |BootTaker(limits)(s).value.1|
    {
      TakeTextSize(s, limits.maxIdentityLength);
    }
  }

  lemma AttemptShrinks(limits: Limits)
    ensures Shrinks(AttemptTaker(limits))
  {
    forall s | AttemptTaker(limits)(s).Success?
      ensures |s| >= |AttemptTaker(limits)(s).value.1|
    {
      var s1: Buffer := TakeText(s, limits.maxIdentityLength).value.1;
      TakeTextSize(s, limits.maxIdentityLength);
      TakeDigestSize(s1);
      TakeTextSize(TakeDigest(s1).value.1, limits.maxIdentityLength);
    }
  }

  lemma HistoryShrinks(limits: Limits)
    ensures Shrinks(HistoryTaker(limits))
  {
    ProofShrinks(limits);
    forall s | HistoryTaker(limits)(s).Success?
      ensures |s| >= |HistoryTaker(limits)(s).value.1|
    {
      var s1: Buffer := TakeText(s, limits.maxIdentityLength).value.1;
      var (count, s2) := TakeNumber(s1).value;
      TakeTextSize(s, limits.maxIdentityLength);
      TakeNumberSize(s1);
      TakeManySize(ProofTaker(limits), 0, count, [], s2);
    }
  }

  // ----- Snapshots ---------------------------------------------------------------------------------------

  lemma NamedRefShrinks(limits: Limits)
    ensures Shrinks(NamedRefTaker(limits))
  {
    forall s | NamedRefTaker(limits)(s).Success?
      ensures |s| >= |NamedRefTaker(limits)(s).value.1|
    {
      TakeNameLeaves(s, limits, PATH_ID);
    }
  }

  lemma LooseClassShrinks(limits: Limits)
    ensures Shrinks(LooseClassTaker(limits))
  {
    ConflictShrinks(limits);
    forall s | LooseClassTaker(limits)(s).Success?
      ensures |s| >= |LooseClassTaker(limits)(s).value.1|
    {
      var s3: Buffer := s[1..][1..][1..];
      var s4: Buffer := TakeList(ConflictTaker(limits), limits.maxConflictsPerProof, s3).value.1;
      TakeListSize(ConflictTaker(limits), limits.maxConflictsPerProof, s3);
      TakeTextSize(TakeLong(s4).value.1, TextBound(limits));
    }
  }

  lemma IndexBelowShrinks(paths: nat, reason: Reason)
    ensures Shrinks(IndexBelowTaker(paths, reason))
  {
    forall s | IndexBelowTaker(paths, reason)(s).Success?
      ensures |s| >= |IndexBelowTaker(paths, reason)(s).value.1|
    {
      TakeNumberSize(s);
    }
  }

  lemma LocatedConflictShrinks(paths: nat, limits: Limits)
    ensures Shrinks(LocatedConflictTaker(paths, limits))
  {
    IndexBelowShrinks(paths, UNKNOWN_REFERENCE);
    forall s | LocatedConflictTaker(paths, limits)(s).Success?
      ensures |s| >= |LocatedConflictTaker(paths, limits)(s).value.1|
    {
      var s2: Buffer := s[1..][1..];
      TakeTextSize(s2, limits.maxIdentityLength);
      TakeListSize(IndexBelowTaker(paths, UNKNOWN_REFERENCE), limits.maxPathsPerProof,
                   TakeText(s2, limits.maxIdentityLength).value.1);
    }
  }

  lemma LooseWitnessLeaves(s: Buffer, paths: nat, limits: Limits)
    ensures Left(s, TakeLooseWitness(s, paths, limits), 0)
  {
    if TakeLooseWitness(s, paths, limits).Success? {
      var s2: Buffer := TakeNumber(s[1..]).value.1;
      var s3: Buffer := TakeNumber(s2).value.1;
      TakeNumberSize(s[1..]);
      TakeNumberSize(s2);
      IndexBelowShrinks(paths, INVALID_WITNESS);
      TakeListSize(IndexBelowTaker(paths, INVALID_WITNESS), limits.maxPathsPerProof, s3[1..]);
    }
  }

  lemma NamedDependenciesLeave(s: Buffer, limits: Limits)
    ensures Left(s, TakeNamedDependencies(s, limits), 0)
  {
    if TakeNamedDependencies(s, limits).Success? {
      var s5: Buffer := s[8..][8..][8..][8..][1..];
      NamedRefShrinks(limits);
      EntityShrinks(limits);
      TakeListSize(NamedRefTaker(limits), limits.maxPathsPerProof, s5);
      TakeListSize(EntityTaker(limits), limits.maxTopologyDependencies,
                   TakeList(NamedRefTaker(limits), limits.maxPathsPerProof, s5).value.1);
    }
  }

  lemma TitleLeaves(s: Buffer, limits: Limits)
    ensures Left(s, TakeTitle(s, limits), 0)
  {
    if TakeTitle(s, limits).Success? {
      var s1: Buffer := TakeName(s, limits, PROOF_ID).value.1;
      var s2: Buffer := TakeLong(s1).value.1;
      var s3: Buffer := TakeName(s2, limits, POLICY_ID).value.1;
      var s4: Buffer := TakeLong(s3).value.1;
      TakeNameLeaves(s, limits, PROOF_ID);
      TakeNameLeaves(s2, limits, POLICY_ID);
      NamedRefShrinks(limits);
      TakeListSize(NamedRefTaker(limits), limits.maxSnapshotPaths, s4);
    }
  }

  lemma FoundLeaves(s: Buffer, paths: nat, limits: Limits)
    ensures Left(s, TakeFound(s, paths, limits), 0)
  {
    if TakeFound(s, paths, limits).Success? {
      var s1: Buffer := TakeList(LooseClassTaker(limits), limits.maxRequiredClasses, s).value.1;
      var s2: Buffer := TakeList(LocatedConflictTaker(paths, limits), limits.maxConflictsPerProof, s1).value.1;
      var s3: Buffer := TakeLooseWitness(s2, paths, limits).value.1;
      LooseClassShrinks(limits);
      LocatedConflictShrinks(paths, limits);
      TakeListSize(LooseClassTaker(limits), limits.maxRequiredClasses, s);
      TakeListSize(LocatedConflictTaker(paths, limits), limits.maxConflictsPerProof, s1);
      LooseWitnessLeaves(s2, paths, limits);
      NamedDependenciesLeave(s3, limits);
    }
  }

  lemma SnapshotStandingLeaves(s: Buffer, limits: Limits)
    ensures Left(s, TakeSnapshotStanding(s, limits), 0)
  {
    if TakeSnapshotStanding(s, limits).Success? {
      var s3: Buffer := TakeLong(s[1..][1..]).value.1;
      var s4: Buffer := TakeName(s3, limits, PUBLISHER_ID).value.1;
      var s5: Buffer := TakeName(s4, limits, BOOT_ID).value.1;
      TakeNameLeaves(s3, limits, PUBLISHER_ID);
      TakeNameLeaves(s4, limits, BOOT_ID);
      TakeNameLeaves(s5, limits, ATTEMPT_ID);
    }
  }

  lemma SnapshotLeaves(s: Buffer, limits: Limits, seal: Seal)
    ensures Left(s, TakeSnapshot(s, limits, seal), 0)
  {
    if TakeSnapshot(s, limits, seal).Success? {
      var s1: Buffer := TakeName(s, limits, SNAPSHOT_ID).value.1;
      var (title, s2) := TakeTitle(s1, limits).value;
      var s3: Buffer := TakeFound(s2, |title.paths|, limits).value.1;
      var s4: Buffer := TakeSnapshotStanding(s3, limits).value.1;
      TakeNameLeaves(s, limits, SNAPSHOT_ID);
      TitleLeaves(s1, limits);
      FoundLeaves(s2, |title.paths|, limits);
      SnapshotStandingLeaves(s3, limits);
      TakeDigestSize(s4);
    }
  }

  lemma SnapshotShrinks(limits: Limits, seal: Seal)
    ensures Shrinks(SnapshotTaker(limits, seal))
  {
    forall s | SnapshotTaker(limits, seal)(s).Success?
      ensures |s| >= |SnapshotTaker(limits, seal)(s).value.1|
    {
      SnapshotLeaves(s, limits, seal);
    }
  }

  // ----- The store ---------------------------------------------------------------------------------------

  lemma SectionLeaves<T(!new)>(take: Buffer -> Taken<T>, size: nat, limits: Limits, s: Buffer)
    requires Shrinks(take)
    ensures Left(s, TakeSection(take, size, limits, s), 1)
  {
    TakeNumberSize(s);
    if TakeSectionCount(size, limits, s).Success? {
      var (count, rest) := TakeSectionCount(size, limits, s).value;
      TakeManySize(take, 0, count, [], rest);
    }
  }

  /** Whoever gives back this item, among others, needs what the item costs. */
  lemma {:induction false} TakeManyCosts<T(!new)>(take: Buffer -> Taken<T>, x: T, cost: nat, count: nat, items: seq<T>,
                                            s: Buffer)
    requires Shrinks(take) && forall b | take(b).Success? && take(b).value.0 == x :: |b| >= cost + |take(b).value.1|
    ensures var r := TakeMany(take, count, items, s);
            r.Success? && x in r.value.0 && x !in items ==> |s| >= cost + |r.value.1|
    decreases count
  {
    if count > 0 && take(s).Success? {
      var (item, rest) := take(s).value;
      if item == x {
        TakeManySize(take, 0, count - 1, items + [item], rest);
      } else {
        TakeManyCosts(take, x, cost, count - 1, items + [item], rest);
      }
    }
  }

  lemma PolicySectionCosts(size: nat, limits: Limits, s: Buffer, p: Policy)
    requires var r := TakeSection(PolicyTaker(limits), size, limits, s); r.Success? && p in r.value.0
    ensures |s| >= 1 + PolicySize(p) + |TakeSection(PolicyTaker(limits), size, limits, s).value.1|
  {
    var (count, rest) := TakeSectionCount(size, limits, s).value;
    TakeNumberSize(s);
    forall b | PolicyTaker(limits)(b).Success?
      ensures |b| >= PolicySize(PolicyTaker(limits)(b).value.0) + |PolicyTaker(limits)(b).value.1|
    {
      TakePolicySize(b, limits);
    }
    TakeManyCosts(PolicyTaker(limits), p, PolicySize(p), count, [], rest);
  }

  lemma SectionsCost(epoch: nat, size: nat, limits: Limits, seal: Seal, s: Buffer, p: Policy)
    requires var r := TakeSections(epoch, size, limits, SnapshotTaker(limits, seal), s);
             r.Success? && p in r.value.0.policies
    ensures |s| >= 7 + PolicySize(p)
  {
    var s1: Buffer := TakeSection(PolicyTaker(limits), size, limits, s).value.1;
    var s2: Buffer := TakeSection(ProofTaker(limits), size, limits, s1).value.1;
    var s3: Buffer := TakeSection(SessionTaker(limits), size, limits, s2).value.1;
    var s4: Buffer := TakeSection(BootTaker(limits), size, limits, s3).value.1;
    var s5: Buffer := TakeSection(AttemptTaker(limits), size, limits, s4).value.1;
    var s6: Buffer := TakeSection(HistoryTaker(limits), size, limits, s5).value.1;
    PolicySectionCosts(size, limits, s, p);
    ProofShrinks(limits);
    SectionLeaves(ProofTaker(limits), size, limits, s1);
    SessionShrinks(limits);
    SectionLeaves(SessionTaker(limits), size, limits, s2);
    BootShrinks(limits);
    SectionLeaves(BootTaker(limits), size, limits, s3);
    AttemptShrinks(limits);
    SectionLeaves(AttemptTaker(limits), size, limits, s4);
    HistoryShrinks(limits);
    SectionLeaves(HistoryTaker(limits), size, limits, s5);
    SnapshotShrinks(limits, seal);
    SectionLeaves(SnapshotTaker(limits, seal), size, limits, s6);
  }

  /** Magic, version, epoch, a count for each of seven sections, and the hash. */
  const EMPTY_STORE: nat := 8 + 4 + 8 + 7 + TRAILER_BYTES

  /** These bytes are accepted as a store, and the policy is in it. */
  predicate Brings(data: Buffer, limits: Limits, seal: Seal, p: Policy) {
    var decoded := DecodeStore(data, limits, SnapshotTaker(limits, seal));
    decoded.Success? && p in decoded.value.policies
  }

  /** Whatever store brings a policy holds at least the bytes the policy is written in. */
  lemma StoreCosts(data: Buffer, limits: Limits, seal: Seal, p: Policy)
    requires Brings(data, limits, seal, p)
    ensures EMPTY_STORE + PolicySize(p) <= |data| <= limits.maxStoreBytes
  {
    var payload := data[..|data| - TRAILER_BYTES];
    assert payload[20..] == data[20..|data| - TRAILER_BYTES];
    SectionsCost(FromLittleEndian(payload[12..20]), |payload|, limits, seal, payload[20..], p);
  }

  /** The store that holds this policy and nothing else. */
  function Alone(p: Policy): Contents<ProofSnapshot> {
    Contents(0, [p], [], [], [], [], [], [])
  }

  lemma NoneSize<T(!new)>(put: (T, Buffer) -> Buffer, rest: Buffer)
    ensures |PutList(put, [], rest)| == 1 + |rest|
  {
  }

  lemma OnlySize<T(!new)>(put: (T, Buffer) -> Buffer, x: T, rest: Buffer)
    ensures |PutList(put, [x], rest)| == 1 + |put(x, rest)|
  {
    assert [x][1..] == [];
    assert PutMany(put, [x], rest) == put(x, PutMany(put, [], rest));
    PutVarintSize(1, put(x, rest));
  }

  lemma AloneSections(p: Policy)
    ensures |PutSections(Alone(p), PutSnapshot)| == 7 + PolicySize(p)
  {
    var s6 := PutList(PutSnapshot, [], []);
    var s5 := PutList(PutHistory, [], s6);
    var s4 := PutList(PutAttempt, [], s5);
    var s3 := PutList(PutText, [], s4);
    var s2 := PutList(PutSession, [], s3);
    var s1 := PutList(PutProof, [], s2);
    NoneSize(PutSnapshot, []);
    NoneSize(PutHistory, s6);
    NoneSize(PutAttempt, s5);
    NoneSize(PutText, s4);
    NoneSize(PutSession, s3);
    NoneSize(PutProof, s2);
    OnlySize(PutPolicy, p, s1);
    PutPolicySize(p, s1);
    assert PutSections(Alone(p), PutSnapshot) == PutList(PutPolicy, [p], s1);
  }

  lemma AloneSize(p: Policy)
    ensures |EncodeStore(Alone(p), PutSnapshot)| == EMPTY_STORE + PolicySize(p)
  {
    AloneSections(p);
    PayloadLayout(Alone(p), PutSnapshot);
    SealedNumbers(Payload(Alone(p), PutSnapshot));
  }

  /** A store can bring this policy: it fits its record, and the store that holds it alone is small enough. */
  ghost predicate StoreFits(p: Policy, limits: Limits) {
    FitsPolicy(p, limits) && EMPTY_STORE + PolicySize(p) <= limits.maxStoreBytes
  }

  lemma AloneComesBack(p: Policy, limits: Limits, seal: Seal)
    requires limits.maxRequiredClasses < TWO_32 && limits.maxStoreRecords > 0 && StoreFits(p, limits)
    ensures DecodeStore(EncodeStore(Alone(p), PutSnapshot), limits, SnapshotTaker(limits, seal)) == Success(Alone(p))
  {
    AloneSize(p);
    Capacities();
    assert FitsContents(Alone(p), limits, SealedFitter(limits, seal)) by {
      assert PolicyFitter(limits)(p);
    }
    StoreWithSnapshots(Alone(p), limits, seal);
  }

  /** A policy is brought by some store exactly when it fits its record and the store that holds it alone fits. */
  lemma BroughtIffStoreFits(p: Policy, limits: Limits, seal: Seal)
    requires limits.maxRequiredClasses < TWO_32 && limits.maxStoreRecords > 0
    ensures (exists data :: Brings(data, limits, seal, p)) <==> StoreFits(p, limits)
  {
    if StoreFits(p, limits) {
      AloneComesBack(p, limits, seal);
      assert Brings(EncodeStore(Alone(p), PutSnapshot), limits, seal, p);
    }
    forall data | Brings(data, limits, seal, p)
      ensures StoreFits(p, limits)
    {
      StoreCosts(data, limits, seal, p);
      BroughtFits(data, limits, seal, p);
    }
  }

  lemma BroughtFits(data: Buffer, limits: Limits, seal: Seal, p: Policy)
    requires limits.maxRequiredClasses < TWO_32
    requires Brings(data, limits, seal, p)
    ensures FitsPolicy(p, limits)
  {
    SnapshotLists(limits, seal);
    PayloadFits(data[..|data| - TRAILER_BYTES], limits, SnapshotTaker(limits, seal), SealedFitter(limits, seal));
    var policies := DecodeStore(data, limits, SnapshotTaker(limits, seal)).value.policies;
    var k :| 0 <= k < |policies| && policies[k] == p;
    assert PolicyFitter(limits)(policies[k]);
  }

  // ----- The smallest store ------------------------------------------------------------------------------

  /** The smallest policy of its identity. */
  function Smallest(id: string, generation: nat): Policy {
    Policy(id, generation, "s", [LINK_DISJOINT], NONE, 2, ALL_PAIRS, REQUIRE_COMPLETE_EVIDENCE, REJECT_PROOF, [], false,
           "")
  }

  /** An identity and a scope of one character, one class, and no description. */
  const SMALLEST_STORE: nat := EMPTY_STORE + 22

  /** If a store can bring any policy of an identity, one can bring its smallest, whatever its generation. */
  lemma SmallestFits(p: Policy, generation: nat, limits: Limits)
    requires StoreFits(p, limits) && 0 < generation < TWO_64
    ensures StoreFits(Smallest(p.id, generation), limits)
    ensures SMALLEST_STORE <= limits.maxStoreBytes
  {
    assert RecordParts.IdentityCharacter('s');
  }
}
