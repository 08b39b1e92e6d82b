/** The policy record, and exactly which valid policies survive it. */
module PolicyRecords {
  import opened Bytes
  import opened Evidence
  import opened RecordParts
  import opened Records
  import G = Graph

  function PutClassName(klass: DiversityClass, rest: Buffer): Buffer {
    PutByte(Code(ALL_CLASSES, klass), rest)
  }

  function PutRelation(relation: DomainRelation, rest: Buffer): Buffer {
    PutByte(Code(RELATIONS, relation), rest)
  }

  function NamedTaker<T>(all: seq<T>): Buffer -> Taken<T> {
    s => TakeNamed(all, s)
  }

  function TakeNamed<T>(all: seq<T>, s: Buffer): Taken<T> {
    var (code, rest) :- TakeByte(s);
    var x :- Named(all, code);
    Success((x, rest))
  }

  function PutPolicy(p: Policy, rest: Buffer): Buffer {
    PutText(p.id, PutLong(p.generation, PutText(p.scope, PutList(PutClassName, p.requiredClasses,
      PutByte(Code(EXEMPTIONS, p.endpointExemption), PutVarint(p.minimumIndependentPaths,
        PutByte(Code(SEMANTICS, p.semantics),
                PutByte(Code(COMPLETENESS, p.completeness), PutByte(Code(UNKNOWNS, p.unknownBehavior),
          PutList(PutRelation, p.relations, PutBool(p.requireAuthorityCurrent, PutText(p.description, rest))))))))))))
  }

  const MAX_RELATIONS: nat := 8

  datatype PolicyHead = PolicyHead(id: string, generation: nat, scope: string, requiredClasses: seq<DiversityClass>,
                                   endpointExemption: EndpointExemption, minimum: nat)

  datatype PolicyTail = PolicyTail(semantics: SetSemantics, completeness: CompletenessRequirement,
                                   unknown: UnknownBehavior,
                                   relations: seq<DomainRelation>, requireAuthorityCurrent: bool, description: string)

  function Joined(h: PolicyHead, t: PolicyTail): Policy {
    Policy(h.id, h.generation, h.scope, h.requiredClasses, h.endpointExemption, h.minimum, t.semantics, t.completeness,
           t.unknown, t.relations, t.requireAuthorityCurrent, t.description)
  }

  function TakePolicyHead(s: Buffer, limits: Limits): Taken<PolicyHead> {
    var (id, s1) :- TakeId(s, limits, POLICY_ID);
    var (generation, s2) :- TakeLong(s1);
    var (scope, s3) :- TakeId(s2, limits, SCOPE_ID);
    var (classes, s4) :- TakeList(NamedTaker(ALL_CLASSES), limits.maxRequiredClasses, s3);
    var (code, s5) :- TakeByte(s4);
    var exemption :- Named(EXEMPTIONS, code);
    var (minimum, s6) :- TakeNumber(s5);
    if !FitsWord(minimum) then Failure(ARITHMETIC_OVERFLOW)
    else Success((PolicyHead(id, generation, scope, classes, exemption, minimum), s6))
  }

  function TakePolicyTail(s: Buffer, limits: Limits): Taken<PolicyTail> {
    var (semanticsCode, s1) :- TakeByte(s);
    var (completenessCode, s2) :- TakeByte(s1);
    var (unknownCode, s3) :- TakeByte(s2);
    var semantics :- Named(SEMANTICS, semanticsCode);
    var completeness :- Named(COMPLETENESS, completenessCode);
    var unknown :- Named(UNKNOWNS, unknownCode);
    var (relations, s4) :- TakeList(NamedTaker(RELATIONS), MAX_RELATIONS, s3);
    var (required, s5) :- TakeBool(s4);
    var (description, s6) :- TakeText(s5, TextBound(limits));
    Success((PolicyTail(semantics, completeness, unknown, relations, required, description), s6))
  }

  /** A policy that decodes but does not validate is refused. */
  function TakePolicy(s: Buffer, limits: Limits): Taken<Policy> {
    var (head, s1) :- TakePolicyHead(s, limits);
    var (tail, s2) :- TakePolicyTail(s1, limits);
    var p := Joined(head, tail);
    if p.generation == 0 then Failure(IMPOSSIBLE_GENERATION)
    else if !ValidPolicy(p, limits) then Failure(INVALID_ENUM)
    else Success((p, s2))
  }

  /** The texts and numbers a valid policy holds in its fixed-width and identity fields. */
  predicate WellTyped(p: Policy, limits: Limits) {
    && FitsId(p.id, limits, POLICY_ID) && FitsLong(p.generation) && FitsId(p.scope, limits, SCOPE_ID)
    && FitsWord(p.minimumIndependentPaths) && FitsText(p.description, |p.description|)
  }

  lemma NamedLists<T(!new)>(all: seq<T>, put: (T, Buffer) -> Buffer)
    requires |all| < 255 && (forall x :: x in all) && (forall x, s :: put(x, s) == PutByte(Code(all, x), s))
    ensures Inverse(put, NamedTaker(all), (x: T) => true)
  {
    forall x, s | ((x: T) => true)(x)
      ensures NamedTaker(all)(put(x, s)) == Success((x, s))
    {
      CodeRoundTrip(all, x);
    }
  }

  lemma AllNamed()
    ensures forall klass: DiversityClass :: klass in ALL_CLASSES
    ensures forall relation: DomainRelation :: relation in RELATIONS
  {
    forall klass: DiversityClass
      ensures klass in ALL_CLASSES
    {
      assert ALL_CLASSES[ClassRank(klass) - 1] == klass;
    }
    forall relation: DomainRelation
      ensures relation in RELATIONS
    {
      assert RELATIONS[RelationRank(relation) - 1] == relation;
    }
  }

  lemma ClassNamesRoundTrip(classes: seq<DiversityClass>, bound: nat, rest: Buffer)
    requires |classes| <= bound && |classes| < TWO_64
    ensures TakeList(NamedTaker(ALL_CLASSES), bound, PutList(PutClassName, classes, rest)) == Success((classes, rest))
  {
    AllNamed();
    NamedLists(ALL_CLASSES, PutClassName);
    ListRoundTrip(PutClassName, NamedTaker(ALL_CLASSES), (x: DiversityClass) => true, classes, bound, rest);
  }

  lemma RelationsRoundTrip(relations: seq<DomainRelation>, rest: Buffer)
    requires |relations| <= MAX_RELATIONS
    ensures TakeList(NamedTaker(RELATIONS), MAX_RELATIONS, PutList(PutRelation, relations, rest))
            == Success((relations, rest))
  {
    AllNamed();
    NamedLists(RELATIONS, PutRelation);
    ListRoundTrip(PutRelation, NamedTaker(RELATIONS), (x: DomainRelation) => true, relations, MAX_RELATIONS, rest);
  }

  /** Distinct relations are at most as many as there are relations. */
  lemma FewRelations(s: seq<DomainRelation>)
    requires Distinct(s)
    ensures |s| <= |RELATIONS|
  {
    var all := set r | r in RELATIONS;
    AllNamed();
    DistinctSize(s);
    G.SubsetSize((set r | r in s), all);
    ElementsOfSequence(RELATIONS);
  }

  lemma {:induction false} DistinctSize<T>(s: seq<T>)
    requires Distinct(s)
    ensures |set x | x in s| == |s|
  {
    if s != [] {
      var front, last := s[..|s| - 1], s[|s| - 1];
      DistinctSize(front);
      assert s == front + [last];
      assert (set x | x in s) == (set x | x in front) + {last};
    }
  }

  lemma {:induction false} ElementsOfSequence<T>(s: seq<T>)
    ensures |set x | x in s| <= |s|
  {
    if s != [] {
      var front, last := s[..|s| - 1], s[|s| - 1];
      ElementsOfSequence(front);
      assert s == front + [last];
      assert (set x | x in s) == (set x | x in front) + {last};
    }
  }

  lemma PolicyHeadRoundTrip(p: Policy, s6: Buffer, limits: Limits)
    requires WellTyped(p, limits) && |p.requiredClasses| <= limits.maxRequiredClasses && |p.requiredClasses| < TWO_64
    ensures TakePolicyHead(PutText(p.id, PutLong(p.generation, PutText(p.scope, PutList(PutClassName, p.requiredClasses,
              PutByte(Code(EXEMPTIONS, p.endpointExemption), PutVarint(p.minimumIndependentPaths, s6)))))), limits)
            == Success((PolicyHead(p.id, p.generation, p.scope, p.requiredClasses, p.endpointExemption,
                                   p.minimumIndependentPaths), s6))
  {
    var s5 := PutVarint(p.minimumIndependentPaths, s6);
    var s4 := PutByte(Code(EXEMPTIONS, p.endpointExemption), s5);
    var s3 := PutList(PutClassName, p.requiredClasses, s4);
    var s2 := PutText(p.scope, s3);
    IdRoundTrip(p.id, PutLong(p.generation, s2), limits, POLICY_ID);
    LongRoundTrip(p.generation, s2);
    IdRoundTrip(p.scope, s3, limits, SCOPE_ID);
    ClassNamesRoundTrip(p.requiredClasses, limits.maxRequiredClasses, s4);
    ExemptionCode(p.endpointExemption);
    CodeRoundTrip(EXEMPTIONS, p.endpointExemption);
    NumberRoundTrip(p.minimumIndependentPaths, s6);
  }

  lemma ModeCodes(semantics: SetSemantics, completeness: CompletenessRequirement, unknown: UnknownBehavior)
    ensures Named(SEMANTICS, Code(SEMANTICS, semantics)) == Success(semantics)
    ensures Named(COMPLETENESS, Code(COMPLETENESS, completeness)) == Success(completeness)
    ensures Named(UNKNOWNS, Code(UNKNOWNS, unknown)) == Success(unknown)
  {
    assert SEMANTICS[0] == ALL_PAIRS && SEMANTICS[1] == AT_LEAST_K_INDEPENDENT;
    assert COMPLETENESS[0] == REQUIRE_COMPLETE_EVIDENCE && COMPLETENESS[1] == PROVEN_CONFLICT_DECISIVE;
    assert UNKNOWNS[0] == REJECT_PROOF && UNKNOWNS[1] == DEMOTE_TO_REVALIDATION;
    CodeRoundTrip(SEMANTICS, semantics);
    CodeRoundTrip(COMPLETENESS, completeness);
    CodeRoundTrip(UNKNOWNS, unknown);
  }

  /** The tail is taken apart field by field. */
  lemma TailTakes(a: Byte, b: Byte, c: Byte, s3: Buffer, tail: PolicyTail, s4: Buffer, s5: Buffer, rest: Buffer,
                  limits: Limits)
    requires Named(SEMANTICS, a) == Success(tail.semantics)
    requires Named(COMPLETENESS, b) == Success(tail.completeness)
    requires Named(UNKNOWNS, c) == Success(tail.unknown)
    requires TakeList(NamedTaker(RELATIONS), MAX_RELATIONS, s3) == Success((tail.relations, s4))
    requires TakeBool(s4) == Success((tail.requireAuthorityCurrent, s5))
    requires TakeText(s5, TextBound(limits)) == Success((tail.description, rest))
    ensures TakePolicyTail(PutByte(a, PutByte(b, PutByte(c, s3))), limits) == Success((tail, rest))
  {
  }

  lemma PolicyTailRoundTrip(p: Policy, rest: Buffer, limits: Limits)
    requires |p.relations| <= MAX_RELATIONS && FitsText(p.description, TextBound(limits))
    ensures TakePolicyTail(PutByte(Code(SEMANTICS, p.semantics), PutByte(Code(COMPLETENESS, p.completeness),
              PutByte(Code(UNKNOWNS, p.unknownBehavior), PutList(PutRelation, p.relations,
                PutBool(p.requireAuthorityCurrent, PutText(p.description, rest)))))), limits)
            == Success((PolicyTail(p.semantics, p.completeness, p.unknownBehavior, p.relations,
                                   p.requireAuthorityCurrent, p.description), rest))
  {
    var s5 := PutText(p.description, rest);
    var s4 := PutBool(p.requireAuthorityCurrent, s5);
    ModeCodes(p.semantics, p.completeness, p.unknownBehavior);
    RelationsRoundTrip(p.relations, s4);
    TextRoundTrip(p.description, rest, TextBound(limits));
    TailTakes(Code(SEMANTICS, p.semantics), Code(COMPLETENESS, p.completeness), Code(UNKNOWNS, p.unknownBehavior),
              PutList(PutRelation, p.relations, s4),
              PolicyTail(p.semantics, p.completeness, p.unknownBehavior, p.relations, p.requireAuthorityCurrent,
                         p.description),
              s4, s5, rest, limits);
  }

  /**
   * A valid policy comes back exactly when its description fills at most a quarter of a
   * record: validation allows four times what the decoder reads.
   */
  lemma PolicyRoundTrip(p: Policy, rest: Buffer, limits: Limits)
    requires ValidPolicy(p, limits) && WellTyped(p, limits) && limits.maxRequiredClasses < TWO_32
    ensures TakePolicy(PutPolicy(p, rest), limits) == Success((p, rest)) <==> |p.description| <= TextBound(limits)
  {
    if |p.description| <= TextBound(limits) {
      FewRelations(p.relations);
      PolicyTailRoundTrip(p, rest, limits);
      PolicyHeadRoundTrip(p, PutByte(Code(SEMANTICS, p.semantics), PutByte(Code(COMPLETENESS, p.completeness),
              PutByte(Code(UNKNOWNS, p.unknownBehavior), PutList(PutRelation, p.relations,
                PutBool(p.requireAuthorityCurrent, PutText(p.description, rest)))))), limits);
    } else {
      PolicyDescriptionFits(PutPolicy(p, rest), limits);
    }
  }

  lemma PolicyDescriptionFits(s: Buffer, limits: Limits)
    ensures TakePolicy(s, limits).Success? ==> |TakePolicy(s, limits).value.0.description| <= TextBound(limits)
    ensures TakePolicy(s, limits).Success? ==> ValidPolicy(TakePolicy(s, limits).value.0, limits)
  {
  }

  /** What a policy must be for the codec to give it back. */
  ghost predicate FitsPolicy(p: Policy, limits: Limits) {
    ValidPolicy(p, limits) && WellTyped(p, limits) && |p.description| <= TextBound(limits)
  }

  lemma PolicyHeadFits(s: Buffer, limits: Limits)
    ensures var r := TakePolicyHead(s, limits);
            r.Success? ==> var h := r.value.0;
              FitsId(h.id, limits, POLICY_ID) && FitsLong(h.generation) && FitsId(h.scope, limits, SCOPE_ID)
              && FitsWord(h.minimum)
  {
    if TakePolicyHead(s, limits).Success? {
      var s1 := TakeId(s, limits, POLICY_ID).value.1;
      IdFits(s, limits, POLICY_ID);
      LongFits(s1);
      IdFits(TakeLong(s1).value.1, limits, SCOPE_ID);
    }
  }

  lemma PolicyTailFits(s: Buffer, limits: Limits)
    ensures var r := TakePolicyTail(s, limits); r.Success? ==> FitsText(r.value.0.description, TextBound(limits))
  {
    var r := TakePolicyTail(s, limits);
    if r.Success? {
      var s3: Buffer := s[1..][1..][1..];
      var s4: Buffer := TakeList(NamedTaker(RELATIONS), MAX_RELATIONS, s3).value.1;
      TextFits(s4[1..], TextBound(limits));
    }
  }

  /** Whatever the bytes, only policies that fit are decoded. */
  lemma PolicyFits(s: Buffer, limits: Limits)
    ensures TakePolicy(s, limits).Success? ==> FitsPolicy(TakePolicy(s, limits).value.0, limits)
  {
    if TakePolicy(s, limits).Success? {
      PolicyHeadFits(s, limits);
      PolicyTailFits(TakePolicyHead(s, limits).value.1, limits);
    }
  }

  function PolicyTaker(limits: Limits): Buffer -> Taken<Policy> {
    s => TakePolicy(s, limits)
  }

  ghost function PolicyFitter(limits: Limits): Policy -> bool {
    (p: Policy) => FitsPolicy(p, limits)
  }

  lemma PolicyLists(limits: Limits)
    requires limits.maxRequiredClasses < TWO_32
    ensures Inverse(PutPolicy, PolicyTaker(limits), PolicyFitter(limits))
    ensures OnlyFitting(PolicyTaker(limits), PolicyFitter(limits))
  {
    forall p, s | PolicyFitter(limits)(p)
      ensures PolicyTaker(limits)(PutPolicy(p, s)) == Success((p, s))
    {
      PolicyRoundTrip(p, s, limits);
    }
    forall s | PolicyTaker(limits)(s).Success?
      ensures PolicyFitter(limits)(PolicyTaker(limits)(s).value.0)
    {
      PolicyFits(s, limits);
    }
  }
}
