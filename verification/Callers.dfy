/**
 * What a caller of the program can pass: well-formed identities, 64-bit numbers, octets.
 * The invariants hold of any arguments; the runs that are exhibited use only these.
 */
module Callers {
  import opened Bytes
  import opened Evidence
  import opened RecordParts
  import opened Protocol
  import A = Authority

  /** An identity holds an accepted text, or none as long as it is not set. */
  predicate IdentityText(text: string, longest: nat) {
    text == "" || ValidIdentity(text, longest)
  }

  predicate WellTypedPolicy(p: Policy) {
    && IdentityText(p.id, POLICY_ID) && p.generation < TWO_64 && IdentityText(p.scope, SCOPE_ID)
    && p.minimumIndependentPaths < TWO_32 && FitsText(p.description, |p.description|)
  }

  predicate WellTypedRequest(request: Request) {
    && IdentityText(request.policy, POLICY_ID) && request.policyGeneration < TWO_64
    && forall ref | ref in request.paths :: IdentityText(ref.path, PATH_ID) && ref.generation < TWO_64
  }

  predicate WellTypedSession(session: A.Session) {
    && IdentityText(session.publisher, PUBLISHER_ID) && IdentityText(session.boot, BOOT_ID)
    && IdentityText(session.scope, SCOPE_ID) && session.epoch < TWO_64
  }

  predicate WellTypedActing(acting: A.Acting) {
    && IdentityText(acting.publisher, PUBLISHER_ID) && IdentityText(acting.boot, BOOT_ID)
    && IdentityText(acting.scope, SCOPE_ID) && IdentityText(acting.attempt, ATTEMPT_ID) && acting.epoch < TWO_64
    && acting.expectedPolicyGeneration < TWO_64 && acting.expectedProofGeneration < TWO_64
  }

  /** The event passes only what the program's own types can hold. */
  predicate Callable(e: Event) {
    match e
    case Begin(call, request, acting) => WellTypedRequest(request) && WellTypedActing(acting)
    case Publish(policy, acting) => WellTypedPolicy(policy) && WellTypedActing(acting)
    case ChangeLifecycle(id, acting, target) => WellTypedRequest(id) && WellTypedActing(acting)
    case RestoreEpoch(epoch) => epoch < TWO_64
    case RegisterPublisher(session) => WellTypedSession(session)
    case Fence(boot) => IdentityText(boot, BOOT_ID)
    case FinishFence(boot) => IdentityText(boot, BOOT_ID)
    case DemoteOnPath(path) => IdentityText(path, PATH_ID)
    case DemoteOnPolicy(policy, generation) => IdentityText(policy, POLICY_ID) && generation < TWO_64
    case DemoteOnBoot(boot) => IdentityText(boot, BOOT_ID)
    case DemoteOnEntities(entities, generation) => generation < TWO_64
    case DemoteOnDomains(domains, generation) => generation < TWO_64
    case DemoteOnTopology(generation) => generation < TWO_64
    case DemoteOnDomainGeneration(generation) => generation < TWO_64
    case _ => true
  }

  // ----- Names for attempts ---------------------------------------------------------------------

  function Numeral(n: nat): (text: string)
    ensures text != []
  {
    var digit := ('0' as int + n % 10) as char;
    if n < 10 then [digit] else Numeral(n / 10) + [digit]
  }

  lemma {:induction false} NumeralInjective(m: nat, n: nat)
    requires Numeral(m) == Numeral(n)
    ensures m == n
  {
    var text := Numeral(m);
    assert text[|text| - 1] == ('0' as int + m % 10) as char == ('0' as int + n % 10) as char;
    if m >= 10 && n >= 10 {
      assert text[..|text| - 1] == Numeral(m / 10) == Numeral(n / 10);
      NumeralInjective(m / 10, n / 10);
    }
  }

  function Tens(digits: nat): nat {
    if digits == 0 then 1 else 10 * Tens(digits - 1)
  }

  lemma {:induction false} NumeralFits(n: nat, digits: nat)
    requires n < Tens(digits)
    ensures |Numeral(n)| <= (if digits == 0 then 1 else digits)
    ensures forall k | 0 <= k < |Numeral(n)| :: IdentityCharacter(Numeral(n)[k])
    decreases digits
  {
    if n >= 10 {
      NumeralFits(n / 10, digits - 1);
    }
  }

  /** Every attempt that can be counted has a name. */
  lemma NumeralIsIdentity(n: nat)
    requires n < TWO_32
    ensures ValidIdentity(Numeral(n), ATTEMPT_ID)
  {
    assert Tens(10) == 10_000_000_000;
    NumeralFits(n, 10);
  }
}
