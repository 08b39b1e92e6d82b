/** Lifecycle states of a proof revision and the explicit transition table. */
module Lifecycle {
  import opened Evidence

  datatype State = DECLARED | CURRENT | REVALIDATION_REQUIRED | SUPERSEDED | REVOKED | RETIRED | HISTORICAL

  datatype Currentness =
    | CURRENT
    | STALE_PATH_AUTHORITY
    | STALE_TOPOLOGY
    | STALE_FAILURE_DOMAIN
    | STALE_POLICY
    | STALE_EPOCH
    | FENCED_PUBLISHER
    | INCOMPLETE_EVIDENCE
    | REVALIDATION_REQUIRED

  predicate TransitionAllowed(from: State, to: State) {
    from == to || match from
      case DECLARED => to in {State.CURRENT, State.REVALIDATION_REQUIRED, State.REVOKED, State.RETIRED,
                              State.SUPERSEDED}
      case CURRENT => to in {State.REVALIDATION_REQUIRED, State.SUPERSEDED, State.REVOKED, State.RETIRED,
                             State.HISTORICAL}
      case REVALIDATION_REQUIRED => to in {State.CURRENT, State.SUPERSEDED, State.REVOKED, State.RETIRED,
                                           State.HISTORICAL}
      case SUPERSEDED => to in {State.CURRENT, State.REVOKED, State.RETIRED, State.HISTORICAL}
      case HISTORICAL => to in {State.CURRENT, State.SUPERSEDED, State.REVOKED, State.RETIRED}
      case REVOKED => false
      case RETIRED => false
  }

  predicate Terminal(s: State) {
    s == State.REVOKED || s == State.RETIRED
  }

  /** Currentness a fresh revision is stored with. */
  function CurrentnessFor(outcome: Outcome): Currentness {
    match outcome
    case PROVEN_DIVERSE => Currentness.CURRENT
    case NOT_DIVERSE => Currentness.CURRENT
    case STALE_PATH_AUTHORITY => Currentness.STALE_PATH_AUTHORITY
    case STALE_TOPOLOGY => Currentness.STALE_TOPOLOGY
    case STALE_FAILURE_DOMAIN => Currentness.STALE_FAILURE_DOMAIN
    case STALE_POLICY => Currentness.STALE_POLICY
    case UNKNOWN_INCOMPLETE_EVIDENCE => Currentness.INCOMPLETE_EVIDENCE
    case REVALIDATION_REQUIRED => Currentness.REVALIDATION_REQUIRED
    case UNAUTHORIZED => Currentness.STALE_PATH_AUTHORITY
    case RESOURCE_LIMIT => Currentness.REVALIDATION_REQUIRED
    case MALFORMED => Currentness.REVALIDATION_REQUIRED
  }

  /** Lifecycle state a fresh revision is stored with. */
  function StateFor(outcome: Outcome): State {
    if outcome == Outcome.REVALIDATION_REQUIRED then State.REVALIDATION_REQUIRED
    else if outcome in {Outcome.MALFORMED, Outcome.RESOURCE_LIMIT, Outcome.UNAUTHORIZED} then State.DECLARED
    else State.CURRENT
  }
}
