/**
 * The publication authority: epoch, publisher sessions, permanent fences and the
 * mutation attempts in use.  Every operation is a function on the whole state; the
 * class below performs it in place.
 */
module Authority {
  import Evidence
  import L = Lifecycle

  /** What a mutation attempt carries; two payloads have one digest only when they are equal. */
  datatype Payload =
    | PolicyPayload(content: Evidence.Policy)
    | RequestPayload(request: Evidence.Request)
    | LifecyclePayload(proof: Evidence.Request, target: L.State)

  datatype Status =
    | ACCEPTED
    | IDEMPOTENT
    | UNAUTHORIZED
    | FENCED_PUBLISHER
    | STALE_EPOCH
    | SCOPE_MISMATCH
    | GENERATION_CONFLICT
    | ATTEMPT_CONFLICT
    | LIMIT_EXCEEDED
    | MALFORMED

  datatype Session = Session(publisher: string, boot: string, scope: string, epoch: nat, fenced: bool) {
    predicate WellFormed() {
      publisher != "" && boot != "" && scope != "" && epoch > 0
    }
  }

  datatype Acting = Acting(
    epoch: nat,
    publisher: string,
    boot: string,
    scope: string,
    attempt: string,
    expectedPolicyGeneration: nat,
    expectedProofGeneration: nat)
  {
    predicate WellFormed() {
      publisher != "" && boot != "" && scope != "" && attempt != "" && epoch > 0
    }
  }

  datatype State = State(
    epoch: nat,
    epochRestored: bool,
    sessions: map<string, Session>,
    fenced: map<string, bool>,
    attempts: map<string, Payload>)
  {
    predicate IsFenced(boot: string) {
      boot in fenced && fenced[boot]
    }

    /** What every operation keeps. */
    ghost predicate Valid(limits: Evidence.Limits) {
      && epoch >= 1
      && (!epochRestored ==> epoch == 1)
      && (forall b | b in sessions :: sessions[b].fenced == IsFenced(b))
      && (forall b | b in sessions :: sessions[b].boot == b)
      && (forall b, c | b in sessions && c in sessions && !sessions[b].fenced && !sessions[c].fenced ::
            sessions[b].publisher == sessions[c].publisher ==> b == c)
      && |sessions| <= limits.maxPublishers
      && |attempts| <= limits.maxAttemptsTracked
    }
  }

  const INITIAL := State(1, false, map[], map[], map[])

  // ----- Operations as functions ------------------------------------------------------

  function RestoreEpoch(s: State, epoch: nat): (State, Status) {
    if epoch == 0 then (s, MALFORMED)
    else if s.epochRestored && epoch < s.epoch then (s, STALE_EPOCH)
    else (s.(epoch := epoch, epochRestored := true), ACCEPTED)
  }

  /** The boots a registration replaces: every other boot of the same publisher. */
  function Replaced(s: State, session: Session): set<string> {
    set b | b in s.sessions && s.sessions[b].publisher == session.publisher && b != session.boot
  }

  function FenceAll(s: State, boots: set<string>): State {
    s.(sessions := map b | b in s.sessions :: if b in boots then s.sessions[b].(fenced := true) else s.sessions[b],
       fenced := map b | b in s.fenced.Keys + boots :: b in boots || s.fenced[b])
  }

  function Register(s: State, session: Session, limits: Evidence.Limits): (State, Status) {
    if !session.WellFormed() then (s, MALFORMED)
    else if s.IsFenced(session.boot) then (s, FENCED_PUBLISHER)
    else if session.epoch != s.epoch then (s, STALE_EPOCH)
    else
      var fencing := FenceAll(s, Replaced(s, session));
      if session.boot !in s.sessions && |s.sessions| >= limits.maxPublishers then (fencing, LIMIT_EXCEEDED)
      else (Enter(fencing, session), ACCEPTED)
  }

  function Enter(s: State, session: Session): State {
    s.(sessions := s.sessions[session.boot := session.(fenced := false)], fenced := s.fenced[session.boot := false])
  }

  function FenceBoot(s: State, boot: string): (State, Status) {
    if boot == "" then (s, MALFORMED) else (FenceAll(s, {boot}), ACCEPTED)
  }

  function Validate(s: State, acting: Acting): Status {
    if !acting.WellFormed() then MALFORMED
    else if s.IsFenced(acting.boot) then FENCED_PUBLISHER
    else if acting.epoch != s.epoch then STALE_EPOCH
    else if acting.boot !in s.sessions then UNAUTHORIZED
    else if s.sessions[acting.boot].fenced then FENCED_PUBLISHER
    else if s.sessions[acting.boot].publisher != acting.publisher then UNAUTHORIZED
    else if s.sessions[acting.boot].scope != acting.scope then SCOPE_MISMATCH
    else ACCEPTED
  }

  function Admit(s: State, acting: Acting, payload: Payload, limits: Evidence.Limits): (State, Status) {
    if Validate(s, acting) != ACCEPTED then (s, Validate(s, acting))
    else if acting.attempt in s.attempts then
      (s, if s.attempts[acting.attempt] == payload then IDEMPOTENT else ATTEMPT_CONFLICT)
    else if |s.attempts| >= limits.maxAttemptsTracked then (s, LIMIT_EXCEEDED)
    else (s.(attempts := s.attempts[acting.attempt := payload]), ACCEPTED)
  }

  function Forget(s: State, attempt: string): State {
    s.(attempts := s.attempts - {attempt})
  }

  // ----- Runs ----------------------------------------------------------------------------

  datatype Op =
    | RestoreEpochOp(epoch: nat)
    | RegisterOp(session: Session)
    | FenceBootOp(boot: string)
    | AdmitOp(acting: Acting, payload: Payload)
    | ForgetOp(attempt: string)

  function Step(s: State, op: Op, limits: Evidence.Limits): State {
    match op
    case RestoreEpochOp(epoch) => RestoreEpoch(s, epoch).0
    case RegisterOp(session) => Register(s, session, limits).0
    case FenceBootOp(boot) => FenceBoot(s, boot).0
    case AdmitOp(acting, payload) => Admit(s, acting, payload, limits).0
    case ForgetOp(attempt) => Forget(s, attempt)
  }

  function Run(s: State, ops: seq<Op>, limits: Evidence.Limits): State
    decreases |ops|
  {
    if ops == [] then s else Step(Run(s, ops[..|ops| - 1], limits), ops[|ops| - 1], limits)
  }

  lemma FenceAllKeepsValid(s: State, boots: set<string>, limits: Evidence.Limits)
    requires s.Valid(limits)
    ensures FenceAll(s, boots).Valid(limits)
    ensures FenceAll(s, boots).sessions.Keys == s.sessions.Keys
    ensures forall b :: FenceAll(s, boots).IsFenced(b) <==> s.IsFenced(b) || b in boots
  {
    var after := FenceAll(s, boots);
    assert after.sessions.Keys == s.sessions.Keys;
    SameKeysSameSize(after.sessions, s.sessions);
    forall b
      ensures after.IsFenced(b) <==> s.IsFenced(b) || b in boots
      ensures b in s.sessions ==> after.sessions[b].boot == b && after.sessions[b].fenced == after.IsFenced(b)
    {
      FencedOne(s, boots, b);
    }
    forall b, c | b in after.sessions && c in after.sessions && !after.sessions[b].fenced && !after.sessions[c].fenced
                  && after.sessions[b].publisher == after.sessions[c].publisher
      ensures b == c
    {
      FencedOne(s, boots, b);
      FencedOne(s, boots, c);
    }
  }

  /** What fencing does to one boot. */
  lemma FencedOne(s: State, boots: set<string>, b: string)
    ensures var after := FenceAll(s, boots);
            && (after.IsFenced(b) <==> s.IsFenced(b) || b in boots)
            && (b in after.sessions <==> b in s.sessions)
            && (b in s.sessions ==> after.sessions[b] == s.sessions[b].(fenced := s.sessions[b].fenced || b in boots))
  {
  }

  lemma SameKeysSameSize<V>(m: map<string, V>, n: map<string, V>)
    requires m.Keys == n.Keys
    ensures |m| == |n|
  {
    assert |m| == |m.Keys| && |n| == |n.Keys|;
  }

  lemma EnterKeepsValid(s: State, session: Session, limits: Evidence.Limits)
    requires s.Valid(limits) && (session.boot !in s.sessions ==> |s.sessions| < limits.maxPublishers)
    requires forall b | b in s.sessions && b != session.boot && s.sessions[b].publisher == session.publisher ::
               s.sessions[b].fenced
    ensures Enter(s, session).Valid(limits)
    ensures forall b | b != session.boot :: Enter(s, session).IsFenced(b) == s.IsFenced(b)
  {
    var after := Enter(s, session);
    assert after.sessions.Keys == s.sessions.Keys + {session.boot};
    forall b | b in after.sessions
      ensures after.sessions[b].fenced == after.IsFenced(b) && after.sessions[b].boot == b
    {
      if b != session.boot {
        assert after.sessions[b] == s.sessions[b];
      }
    }
  }

  lemma ReplacedAreFenced(s: State, session: Session, limits: Evidence.Limits)
    requires s.Valid(limits)
    ensures var fencing := FenceAll(s, Replaced(s, session));
            forall b | b in fencing.sessions && b != session.boot
                       && fencing.sessions[b].publisher == session.publisher ::
              fencing.sessions[b].fenced
  {
  }

  lemma RegisterKeepsValid(s: State, session: Session, limits: Evidence.Limits)
    requires s.Valid(limits)
    ensures Register(s, session, limits).0.Valid(limits)
    ensures Register(s, session, limits).0.epoch == s.epoch && Register(s, session, limits).0.attempts == s.attempts
    ensures forall b | s.IsFenced(b) :: Register(s, session, limits).0.IsFenced(b)
  {
    var fencing := FenceAll(s, Replaced(s, session));
    var (after, status) := Register(s, session, limits);
    if status == ACCEPTED {
      assert after == Enter(fencing, session);
      FenceAllKeepsValid(s, Replaced(s, session), limits);
      ReplacedAreFenced(s, session, limits);
      EnterKeepsValid(fencing, session, limits);
    } else if status == LIMIT_EXCEEDED {
      assert after == fencing;
      FenceAllKeepsValid(s, Replaced(s, session), limits);
    } else {
      assert after == s;
    }
  }

  lemma AttemptsKeepValid(s: State, attempts: map<string, Payload>, limits: Evidence.Limits)
    requires s.Valid(limits) && |attempts| <= limits.maxAttemptsTracked
    ensures s.(attempts := attempts).Valid(limits)
  {
  }

  lemma ForgetIsSmaller(attempts: map<string, Payload>, attempt: string)
    ensures |attempts - {attempt}| <= |attempts|
  {
    var rest := attempts - {attempt};
    assert rest.Keys == attempts.Keys - {attempt};
    assert |rest| == |rest.Keys| && |attempts| == |attempts.Keys|;
  }

  lemma AdmitMovesAttempts(s: State, acting: Acting, payload: Payload, limits: Evidence.Limits)
    ensures Admit(s, acting, payload, limits).0 == s.(attempts := Admit(s, acting, payload, limits).0.attempts)
  {
  }

  lemma AdmitKeepsValid(s: State, acting: Acting, payload: Payload, limits: Evidence.Limits)
    requires s.Valid(limits)
    ensures Admit(s, acting, payload, limits).0.Valid(limits)
    ensures Admit(s, acting, payload, limits).0 == s.(attempts := Admit(s, acting, payload, limits).0.attempts)
  {
    if Admit(s, acting, payload, limits).1 == ACCEPTED {
      AttemptsKeepValid(s, s.attempts[acting.attempt := payload], limits);
    }
  }

  lemma ForgetKeepsValid(s: State, attempt: string, limits: Evidence.Limits)
    requires s.Valid(limits)
    ensures Forget(s, attempt).Valid(limits)
  {
    ForgetIsSmaller(s.attempts, attempt);
    AttemptsKeepValid(s, s.attempts - {attempt}, limits);
  }

  lemma FenceBootKeepsValid(s: State, boot: string, limits: Evidence.Limits)
    requires s.Valid(limits)
    ensures FenceBoot(s, boot).0.Valid(limits) && FenceBoot(s, boot).0.attempts == s.attempts
    ensures FenceBoot(s, boot).0.epoch == s.epoch
    ensures forall b :: FenceBoot(s, boot).0.IsFenced(b) <==> s.IsFenced(b) || (b == boot && b != "")
  {
    FenceAllKeepsValid(s, {boot}, limits);
  }

  lemma RestoreKeepsValid(s: State, epoch: nat, limits: Evidence.Limits)
    requires s.Valid(limits)
    ensures RestoreEpoch(s, epoch).0.Valid(limits) && RestoreEpoch(s, epoch).0.epoch >= s.epoch
    ensures RestoreEpoch(s, epoch).0.attempts == s.attempts
    ensures forall b :: RestoreEpoch(s, epoch).0.IsFenced(b) == s.IsFenced(b)
  {
  }

  /** One step keeps the invariant, never lowers the epoch, and never lifts a fence. */
  lemma StepKeepsAuthority(s: State, op: Op, limits: Evidence.Limits)
    requires s.Valid(limits)
    ensures Step(s, op, limits).Valid(limits)
    ensures Step(s, op, limits).epoch >= s.epoch
    ensures forall b | s.IsFenced(b) :: Step(s, op, limits).IsFenced(b)
  {
    match op
    case RestoreEpochOp(epoch) =>
      RestoreKeepsValid(s, epoch, limits);
    case RegisterOp(session) =>
      RegisterKeepsValid(s, session, limits);
    case FenceBootOp(boot) =>
      FenceBootKeepsValid(s, boot, limits);
    case AdmitOp(acting, payload) =>
      AdmitKeepsValid(s, acting, payload, limits);
    case ForgetOp(attempt) =>
      ForgetKeepsValid(s, attempt, limits);
  }

  /** Over any run: invariant kept, epoch never lower, a fenced boot fenced for good. */
  lemma {:induction false} RunKeepsAuthority(s: State, ops: seq<Op>, limits: Evidence.Limits)
    requires s.Valid(limits)
    ensures Run(s, ops, limits).Valid(limits)
    ensures Run(s, ops, limits).epoch >= s.epoch
    ensures forall b | s.IsFenced(b) :: Run(s, ops, limits).IsFenced(b)
    decreases |ops|
  {
    if ops != [] {
      RunKeepsAuthority(s, ops[..|ops| - 1], limits);
      StepKeepsAuthority(Run(s, ops[..|ops| - 1], limits), ops[|ops| - 1], limits);
    }
  }

  /** A boot fenced at any point of a run is refused at every later point. */
  lemma FencedBootIsNeverAdmitted(s: State, ops: seq<Op>, limits: Evidence.Limits, acting: Acting, payload: Payload)
    requires s.Valid(limits) && s.IsFenced(acting.boot)
    ensures Admit(Run(s, ops, limits), acting, payload, limits).1 in {FENCED_PUBLISHER, MALFORMED}
    ensures Register(Run(s, ops, limits), Session(acting.publisher, acting.boot, acting.scope, acting.epoch, false),
                     limits).1
            in {FENCED_PUBLISHER, MALFORMED}
  {
    RunKeepsAuthority(s, ops, limits);
  }

  /** Admission adds a verdict of its own exactly when validation accepts. */
  lemma AdmitRefinesValidate(s: State, acting: Acting, payload: Payload, limits: Evidence.Limits)
    requires s.Valid(limits)
    ensures Admit(s, acting, payload, limits).1 in {ACCEPTED, IDEMPOTENT, ATTEMPT_CONFLICT, LIMIT_EXCEEDED}
            <==> Validate(s, acting) == ACCEPTED
    ensures Validate(s, acting) != ACCEPTED ==> Admit(s, acting, payload, limits) == (s, Validate(s, acting))
    ensures Validate(s, acting) == ACCEPTED <==>
              && acting.WellFormed() && !s.IsFenced(acting.boot) && acting.epoch == s.epoch && acting.boot in s.sessions
              && s.sessions[acting.boot].publisher == acting.publisher && s.sessions[acting.boot].scope == acting.scope
    ensures Admit(s, acting, payload, limits).1 == ACCEPTED ==> acting.attempt !in s.attempts
  {
  }

  /** At most one boot of a publisher is ever accepted at the same time. */
  lemma OneLiveBoot(s: State, limits: Evidence.Limits, a: Acting, b: Acting)
    requires s.Valid(limits) && a.publisher == b.publisher
    requires Validate(s, a) == ACCEPTED && Validate(s, b) == ACCEPTED
    ensures a.boot == b.boot
  {
  }

  /**
   * A refused registration changes the state only when it is refused for lack of
   * room, and then it fences exactly the publisher's other boots.
   */
  lemma RefusedRegistration(s: State, session: Session, limits: Evidence.Limits)
    requires s.Valid(limits) && Register(s, session, limits).1 != ACCEPTED
    ensures var after := Register(s, session, limits).0;
            && (Register(s, session, limits).1 != LIMIT_EXCEEDED ==> after == s)
            && (Register(s, session, limits).1 == LIMIT_EXCEEDED ==>
                  && after.sessions.Keys == s.sessions.Keys
                  && forall b :: after.IsFenced(b) <==> s.IsFenced(b) || b in Replaced(s, session))
  {
    FenceAllKeepsValid(s, Replaced(s, session), limits);
  }

  // ----- The stateful object ----------------------------------------------------------------

  class PublicationAuthority {
    const limits: Evidence.Limits
    var epoch: nat
    var epochRestored: bool
    var sessions: map<string, Session>
    var fenced: map<string, bool>
    var attempts: map<string, Payload>

    function Contents(): State
      reads this
    {
      State(epoch, epochRestored, sessions, fenced, attempts)
    }

    constructor (limits: Evidence.Limits)
      ensures this.limits == limits && Contents() == INITIAL && Contents().Valid(limits)
    {
      this.limits := limits;
      epoch, epochRestored := 1, false;
      sessions, fenced, attempts := map[], map[], map[];
    }

    method Restore(value: nat) returns (status: Status)
      modifies this
      ensures (Contents(), status) == RestoreEpoch(old(Contents()), value)
    {
      if value == 0 {
        return MALFORMED;
      }
      if epochRestored && value < epoch {
        return STALE_EPOCH;
      }
      epoch := value;
      epochRestored := true;
      status := ACCEPTED;
    }

    method FenceSession(ghost before: State, ghost done: set<string>, boot: string)
      requires boot in before.sessions && boot !in done && Contents() == FenceAll(before, done)
      modifies this`sessions, this`fenced
      ensures Contents() == FenceAll(before, done + {boot})
    {
      FencedSession(before, done, boot);
      FenceOneMore(before, done, boot);
      sessions := sessions[boot := sessions[boot].(fenced := true)];
      fenced := fenced[boot := true];
    }

    /** The loop over the sessions: every other boot of the publisher is fenced. */
    method FenceReplaced(session: Session)
      modifies this`sessions, this`fenced
      ensures Contents() == FenceAll(old(Contents()), Replaced(old(Contents()), session))
    {
      ghost var before, replaced := Contents(), Replaced(Contents(), session);
      ghost var done: set<string> := {};
      var rest := sessions.Keys;
      FenceNone(before);
      while rest != {}
        invariant rest <= before.sessions.Keys
        invariant forall b :: b in done <==> b in replaced && b !in rest
        invariant Contents() == FenceAll(before, done)
        decreases |rest|
      {
        var boot :| boot in rest;
        FencedSession(before, done, boot);
        if sessions[boot].publisher == session.publisher && boot != session.boot {
          FenceSession(before, done, boot);
          done := done + {boot};
        }
        rest := rest - {boot};
      }
      assert done == replaced;
    }

    method RegisterPublisher(session: Session) returns (status: Status)
      modifies this
      ensures (Contents(), status) == Register(old(Contents()), session, limits)
    {
      if session.publisher == "" || session.boot == "" || session.scope == "" || session.epoch == 0 {
        return MALFORMED;
      }
      if session.boot in fenced && fenced[session.boot] {
        return FENCED_PUBLISHER;
      }
      if session.epoch != epoch {
        return STALE_EPOCH;
      }
      FenceAllKeys(Contents(), Replaced(Contents(), session));
      FenceReplaced(session);
      if session.boot !in sessions && |sessions| >= limits.maxPublishers {
        return LIMIT_EXCEEDED;
      }
      sessions := sessions[session.boot := session.(fenced := false)];
      fenced := fenced[session.boot := false];
      status := ACCEPTED;
    }

    method Fence(boot: string) returns (status: Status)
      modifies this
      ensures (Contents(), status) == FenceBoot(old(Contents()), boot)
    {
      if boot == "" {
        return MALFORMED;
      }
      ghost var before := Contents();
      fenced := fenced[boot := true];
      if boot in sessions {
        sessions := sessions[boot := sessions[boot].(fenced := true)];
      }
      assert sessions == FenceAll(before, {boot}).sessions;
      assert fenced == FenceAll(before, {boot}).fenced;
      status := ACCEPTED;
    }

    method Check(acting: Acting) returns (status: Status)
      ensures status == Validate(Contents(), acting)
    {
      if acting.publisher == "" || acting.boot == "" || acting.scope == "" || acting.attempt == ""
         || acting.epoch == 0 {
        return MALFORMED;
      }
      if acting.boot in fenced && fenced[acting.boot] {
        return FENCED_PUBLISHER;
      }
      if acting.epoch != epoch {
        return STALE_EPOCH;
      }
      if acting.boot !in sessions {
        return UNAUTHORIZED;
      }
      var session := sessions[acting.boot];
      if session.fenced {
        return FENCED_PUBLISHER;
      }
      if session.publisher != acting.publisher {
        return UNAUTHORIZED;
      }
      if session.scope != acting.scope {
        return SCOPE_MISMATCH;
      }
      status := ACCEPTED;
    }

    method AdmitAttempt(acting: Acting, payload: Payload) returns (status: Status)
      modifies this`attempts
      ensures (Contents(), status) == Admit(old(Contents()), acting, payload, limits)
    {
      status := Check(acting);
      if status != ACCEPTED {
        return;
      }
      if acting.attempt in attempts {
        if attempts[acting.attempt] == payload {
          return IDEMPOTENT;
        }
        return ATTEMPT_CONFLICT;
      }
      if |attempts| >= limits.maxAttemptsTracked {
        return LIMIT_EXCEEDED;
      }
      attempts := attempts[acting.attempt := payload];
    }

    method ForgetAttempt(attempt: string)
      modifies this`attempts
      ensures Contents() == Forget(old(Contents()), attempt)
    {
      attempts := attempts - {attempt};
    }
  }

  lemma FenceAllKeys(s: State, boots: set<string>)
    ensures FenceAll(s, boots).sessions.Keys == s.sessions.Keys
    ensures |FenceAll(s, boots).sessions| == |s.sessions|
  {
    assert FenceAll(s, boots).sessions.Keys == s.sessions.Keys;
    assert |FenceAll(s, boots).sessions| == |FenceAll(s, boots).sessions.Keys| && |s.sessions| == |s.sessions.Keys|;
  }

  lemma FenceNone(s: State)
    ensures FenceAll(s, {}) == s
  {
    assert FenceAll(s, {}).sessions == s.sessions;
    assert FenceAll(s, {}).fenced == s.fenced;
  }

  lemma FencedSession(s: State, done: set<string>, boot: string)
    requires boot in s.sessions && boot !in done
    ensures boot in FenceAll(s, done).sessions && FenceAll(s, done).sessions[boot] == s.sessions[boot]
  {
  }

  lemma FenceOneMore(s: State, done: set<string>, boot: string)
    requires boot in s.sessions && boot !in done
    ensures var before := FenceAll(s, done);
            FenceAll(s, done + {boot})
            == before.(sessions := before.sessions[boot := s.sessions[boot].(fenced := true)],
                       fenced := before.fenced[boot := true])
  {
    var before, after := FenceAll(s, done), FenceAll(s, done + {boot});
    assert after.sessions == before.sessions[boot := s.sessions[boot].(fenced := true)];
    assert after.fenced == before.fenced[boot := true];
  }
}
