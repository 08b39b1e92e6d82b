/** `encode_store` and `decode_store` as they run: appending to one writer, advancing one reader. */
module StoreStreams {
  import opened Bytes
  import opened Fnv
  import opened Evidence
  import opened RecordParts
  import opened Records
  import opened PolicyRecords
  import opened RecordStreams
  import opened RecordWriters
  import opened Store
  import opened Snapshots
  import opened SnapshotStreams
  import A = Authority

  // ----- Reading ------------------------------------------------------------------------------------

  /** Outside the record codec an unreadable field is truncation whatever the reader says. */
  method ReadPlainText(reader: ByteReader, bound: nat) returns (r: Result<string>)
    requires Ready(reader)
    modifies reader
    ensures Follows(OrTruncated(TakeText(old(reader.Left()), bound)), r, reader)
  {
    var text := ReadText(reader, bound);
    r := if text.Failure? then Failure(Reason.TRUNCATED) else text;
  }

  method ReadSession(reader: ByteReader, limits: Limits) returns (r: Result<A.Session>)
    requires Ready(reader)
    modifies reader
    ensures Follows(TakeSession(old(reader.Left()), limits), r, reader)
  {
    var publisher :- ReadPlainText(reader, limits.maxIdentityLength);
    var boot :- ReadPlainText(reader, limits.maxIdentityLength);
    var epoch :- ReadLong(reader);
    var scope :- ReadPlainText(reader, limits.maxIdentityLength);
    var fenced := ReadBool(reader);
    if fenced.Failure? {
      return Failure(Reason.TRUNCATED);
    }
    if !ValidIdentity(publisher, PUBLISHER_ID) || !ValidIdentity(boot, BOOT_ID) || !ValidIdentity(scope, SCOPE_ID) {
      r := Refuse(reader, MALFORMED_IDENTITY);
      return;
    }
    r := Success(A.Session(publisher, boot, scope, epoch, fenced.value));
  }

  method ReadBoot(reader: ByteReader, limits: Limits) returns (r: Result<string>)
    requires Ready(reader)
    modifies reader
    ensures Follows(TakeBoot(old(reader.Left()), limits), r, reader)
  {
    var boot :- ReadPlainText(reader, limits.maxIdentityLength);
    if !ValidIdentity(boot, BOOT_ID) {
      r := Refuse(reader, MALFORMED_IDENTITY);
      return;
    }
    r := Success(boot);
  }

  method ReadAttempt(reader: ByteReader, limits: Limits) returns (r: Result<AttemptRecord>)
    requires Ready(reader)
    modifies reader
    ensures Follows(TakeAttempt(old(reader.Left()), limits), r, reader)
  {
    var attempt :- ReadPlainText(reader, limits.maxIdentityLength);
    var payload := ReadDigest(reader);
    if payload.Failure? {
      return Failure(Reason.TRUNCATED);
    }
    var proof :- ReadPlainText(reader, limits.maxIdentityLength);
    if !ValidIdentity(attempt, ATTEMPT_ID) || !ValidIdentity(proof, PROOF_ID) {
      r := Refuse(reader, MALFORMED_IDENTITY);
      return;
    }
    r := Success(AttemptRecord(attempt, payload.value, proof));
  }

  method NextPolicy(reader: ByteReader, limits: Limits, ghost take: Buffer -> Taken<Policy>) returns (r: Result<Policy>)
    requires Ready(reader) && Stands(take, PolicyTaker(limits))
    modifies reader
    ensures Follows(take(old(reader.Left())), r, reader)
  {
    assert Asked(reader.Left());
    r := DecodePolicy(reader, limits);
  }

  method ReadPolicies(reader: ByteReader, count: nat, limits: Limits, ghost take: Buffer -> Taken<Policy>)
    returns (r: Result<seq<Policy>>)
    requires Ready(reader) && Stands(take, PolicyTaker(limits))
    modifies reader
    ensures Follows(TakeMany(take, count, [], old(reader.Left())), r, reader)
  {
    var policies: seq<Policy> := [];
    var left := count;
    while left > 0
      invariant Ready(reader)
      invariant TakeMany(take, left, policies, reader.Left()) == TakeMany(take, count, [], old(reader.Left()))
    {
      var policy :- NextPolicy(reader, limits, take);
      policies := policies + [policy];
      left := left - 1;
    }
    r := Success(policies);
  }

  method NextProof(reader: ByteReader, limits: Limits, ghost take: Buffer -> Taken<StoredProof>)
    returns (r: Result<StoredProof>)
    requires Ready(reader) && Stands(take, ProofTaker(limits))
    modifies reader
    ensures Follows(take(old(reader.Left())), r, reader)
  {
    assert Asked(reader.Left());
    r := DecodeProof(reader, limits);
  }

  method ReadProofs(reader: ByteReader, count: nat, limits: Limits, ghost take: Buffer -> Taken<StoredProof>)
    returns (r: Result<seq<StoredProof>>)
    requires Ready(reader) && Stands(take, ProofTaker(limits))
    modifies reader
    ensures Follows(TakeMany(take, count, [], old(reader.Left())), r, reader)
  {
    var proofs: seq<StoredProof> := [];
    var left := count;
    while left > 0
      invariant Ready(reader)
      invariant TakeMany(take, left, proofs, reader.Left()) == TakeMany(take, count, [], old(reader.Left()))
    {
      var proof :- NextProof(reader, limits, take);
      proofs := proofs + [proof];
      left := left - 1;
    }
    r := Success(proofs);
  }

  method NextSession(reader: ByteReader, limits: Limits, ghost take: Buffer -> Taken<A.Session>)
    returns (r: Result<A.Session>)
    requires Ready(reader) && Stands(take, SessionTaker(limits))
    modifies reader
    ensures Follows(take(old(reader.Left())), r, reader)
  {
    assert Asked(reader.Left());
    r := ReadSession(reader, limits);
  }

  method ReadSessions(reader: ByteReader, count: nat, limits: Limits, ghost take: Buffer -> Taken<A.Session>)
    returns (r: Result<seq<A.Session>>)
    requires Ready(reader) && Stands(take, SessionTaker(limits))
    modifies reader
    ensures Follows(TakeMany(take, count, [], old(reader.Left())), r, reader)
  {
    var sessions: seq<A.Session> := [];
    var left := count;
    while left > 0
      invariant Ready(reader)
      invariant TakeMany(take, left, sessions, reader.Left()) == TakeMany(take, count, [], old(reader.Left()))
    {
      var session :- NextSession(reader, limits, take);
      sessions := sessions + [session];
      left := left - 1;
    }
    r := Success(sessions);
  }

  method NextBoot(reader: ByteReader, limits: Limits, ghost take: Buffer -> Taken<string>) returns (r: Result<string>)
    requires Ready(reader) && Stands(take, BootTaker(limits))
    modifies reader
    ensures Follows(take(old(reader.Left())), r, reader)
  {
    assert Asked(reader.Left());
    r := ReadBoot(reader, limits);
  }

  method ReadBoots(reader: ByteReader, count: nat, limits: Limits, ghost take: Buffer -> Taken<string>)
    returns (r: Result<seq<string>>)
    requires Ready(reader) && Stands(take, BootTaker(limits))
    modifies reader
    ensures Follows(TakeMany(take, count, [], old(reader.Left())), r, reader)
  {
    var boots: seq<string> := [];
    var left := count;
    while left > 0
      invariant Ready(reader)
      invariant TakeMany(take, left, boots, reader.Left()) == TakeMany(take, count, [], old(reader.Left()))
    {
      var boot :- NextBoot(reader, limits, take);
      boots := boots + [boot];
      left := left - 1;
    }
    r := Success(boots);
  }

  method NextAttempt(reader: ByteReader, limits: Limits, ghost take: Buffer -> Taken<AttemptRecord>)
    returns (r: Result<AttemptRecord>)
    requires Ready(reader) && Stands(take, AttemptTaker(limits))
    modifies reader
    ensures Follows(take(old(reader.Left())), r, reader)
  {
    assert Asked(reader.Left());
    r := ReadAttempt(reader, limits);
  }

  method ReadAttempts(reader: ByteReader, count: nat, limits: Limits, ghost take: Buffer -> Taken<AttemptRecord>)
    returns (r: Result<seq<AttemptRecord>>)
    requires Ready(reader) && Stands(take, AttemptTaker(limits))
    modifies reader
    ensures Follows(TakeMany(take, count, [], old(reader.Left())), r, reader)
  {
    var attempts: seq<AttemptRecord> := [];
    var left := count;
    while left > 0
      invariant Ready(reader)
      invariant TakeMany(take, left, attempts, reader.Left()) == TakeMany(take, count, [], old(reader.Left()))
    {
      var attempt :- NextAttempt(reader, limits, take);
      attempts := attempts + [attempt];
      left := left - 1;
    }
    r := Success(attempts);
  }

  method ReadHistory(reader: ByteReader, limits: Limits) returns (r: Result<HistoryRecord>)
    requires Ready(reader)
    modifies reader
    ensures Follows(TakeHistory(old(reader.Left()), limits), r, reader)
  {
    var proof :- ReadPlainText(reader, limits.maxIdentityLength);
    if !ValidIdentity(proof, PROOF_ID) {
      r := Refuse(reader, MALFORMED_IDENTITY);
      return;
    }
    var count := ReadNumber(reader);
    if count.Failure? {
      return Failure(Reason.TRUNCATED);
    }
    if count.value > limits.maxHistory {
      r := Refuse(reader, RECORD_LIMIT_EXCEEDED);
      return;
    }
    var revisions :- ReadProofs(reader, count.value, limits, ProofTaker(limits));
    r := Success(HistoryRecord(proof, revisions));
  }

  method NextHistory(reader: ByteReader, limits: Limits, ghost take: Buffer -> Taken<HistoryRecord>)
    returns (r: Result<HistoryRecord>)
    requires Ready(reader) && Stands(take, HistoryTaker(limits))
    modifies reader
    ensures Follows(take(old(reader.Left())), r, reader)
  {
    assert Asked(reader.Left());
    r := ReadHistory(reader, limits);
  }

  method ReadHistories(reader: ByteReader, count: nat, limits: Limits, ghost take: Buffer -> Taken<HistoryRecord>)
    returns (r: Result<seq<HistoryRecord>>)
    requires Ready(reader) && Stands(take, HistoryTaker(limits))
    modifies reader
    ensures Follows(TakeMany(take, count, [], old(reader.Left())), r, reader)
  {
    var histories: seq<HistoryRecord> := [];
    var left := count;
    while left > 0
      invariant Ready(reader)
      invariant TakeMany(take, left, histories, reader.Left()) == TakeMany(take, count, [], old(reader.Left()))
    {
      var history :- NextHistory(reader, limits, take);
      histories := histories + [history];
      left := left - 1;
    }
    r := Success(histories);
  }

  method NextSnapshot(reader: ByteReader, limits: Limits, seal: Seal, ghost take: Buffer -> Taken<ProofSnapshot>)
    returns (r: Result<ProofSnapshot>)
    requires Ready(reader) && Stands(take, SnapshotTaker(limits, seal))
    modifies reader
    ensures Follows(take(old(reader.Left())), r, reader)
  {
    assert Asked(reader.Left());
    r := DecodeSnapshot(reader, limits, seal);
  }

  method ReadSnapshots(reader: ByteReader, count: nat, limits: Limits, seal: Seal,
                       ghost take: Buffer -> Taken<ProofSnapshot>)
    returns (r: Result<seq<ProofSnapshot>>)
    requires Ready(reader) && Stands(take, SnapshotTaker(limits, seal))
    modifies reader
    ensures Follows(TakeMany(take, count, [], old(reader.Left())), r, reader)
  {
    var snapshots: seq<ProofSnapshot> := [];
    var left := count;
    while left > 0
      invariant Ready(reader)
      invariant TakeMany(take, left, snapshots, reader.Left()) == TakeMany(take, count, [], old(reader.Left()))
    {
      var snapshot :- NextSnapshot(reader, limits, seal, take);
      snapshots := snapshots + [snapshot];
      left := left - 1;
    }
    r := Success(snapshots);
  }

  method ReadSectionCount(reader: ByteReader, size: nat, limits: Limits) returns (r: Result<nat>)
    requires Ready(reader)
    modifies reader
    ensures Follows(TakeSectionCount(size, limits, old(reader.Left())), r, reader)
  {
    var count := ReadNumber(reader);
    if count.Failure? {
      return Failure(Reason.TRUNCATED);
    }
    if count.value > limits.maxStoreRecords {
      r := Refuse(reader, RECORD_LIMIT_EXCEEDED);
      return;
    }
    if count.value > size {
      r := Refuse(reader, ABSURD_COUNT);
      return;
    }
    r := Success(count.value);
  }

  method ReadSections(reader: ByteReader, epoch: nat, size: nat, limits: Limits, seal: Seal)
    returns (r: Result<Contents<ProofSnapshot>>)
    requires Ready(reader)
    modifies reader
    ensures Follows(TakeSections(epoch, size, limits, SnapshotTaker(limits, seal), old(reader.Left())), r, reader)
  {
    var count :- ReadSectionCount(reader, size, limits);
    var policies :- ReadPolicies(reader, count, limits, PolicyTaker(limits));
    count :- ReadSectionCount(reader, size, limits);
    var proofs :- ReadProofs(reader, count, limits, ProofTaker(limits));
    count :- ReadSectionCount(reader, size, limits);
    var sessions :- ReadSessions(reader, count, limits, SessionTaker(limits));
    count :- ReadSectionCount(reader, size, limits);
    var boots :- ReadBoots(reader, count, limits, BootTaker(limits));
    count :- ReadSectionCount(reader, size, limits);
    var attempts :- ReadAttempts(reader, count, limits, AttemptTaker(limits));
    count :- ReadSectionCount(reader, size, limits);
    var history :- ReadHistories(reader, count, limits, HistoryTaker(limits));
    count :- ReadSectionCount(reader, size, limits);
    var snapshots :- ReadSnapshots(reader, count, limits, seal, SnapshotTaker(limits, seal));
    r := Success(Contents(epoch, policies, proofs, sessions, boots, attempts, history, snapshots));
  }

  lemma Slices(s: Buffer)
    requires |s| >= 20
    ensures s[8..][..4] == s[8..12] && s[8..][4..] == s[12..] && s[12..][..8] == s[12..20] && s[12..][8..] == s[20..]
  {
  }

  /** The magic has been compared already and is skipped. */
  method ReadHeader(reader: ByteReader) returns (version: nat, epoch: nat)
    requires Ready(reader) && |reader.Left()| >= 20
    modifies reader
    ensures Ready(reader) && reader.Left() == old(reader.Left())[20..]
    ensures version == FromLittleEndian(old(reader.Left())[8..12])
            && epoch == FromLittleEndian(old(reader.Left())[12..20])
  {
    ghost var s := reader.Left();
    Slices(s);
    var ok, skipped := reader.ReadInt(8);
    ok, version := reader.ReadInt(4);
    ok, epoch := reader.ReadInt(8);
  }

  method ReadPayload(payload: Buffer, limits: Limits, seal: Seal) returns (r: Result<Contents<ProofSnapshot>>)
    requires |payload| >= 20
    ensures r == DecodePayload(payload, limits, SnapshotTaker(limits, seal))
  {
    var reader := new ByteReader(payload);
    var version, epoch := ReadHeader(reader);
    if version != VERSION {
      return Failure(UNSUPPORTED_VERSION);
    }
    var contents :- ReadSections(reader, epoch, |payload|, limits, seal);
    if reader.Left() != [] {
      return Failure(Reason.TRAILING_BYTES);
    }
    r := Success(contents);
  }

  /** `decode_store`. */
  method ReadStore(data: Buffer, limits: Limits, seal: Seal) returns (r: Result<Contents<ProofSnapshot>>)
    ensures r == DecodeStore(data, limits, SnapshotTaker(limits, seal))
  {
    if data == [] {
      return Failure(EMPTY_FILE);
    }
    if |data| > limits.maxStoreBytes {
      return Failure(SIZE_LIMIT_EXCEEDED);
    }
    if |data| < |MAGIC| + 4 + 8 + TRAILER_BYTES {
      return Failure(Reason.TRUNCATED);
    }
    if data[..|MAGIC|] != MAGIC {
      return Failure(MALFORMED_MAGIC);
    }
    var payload := data[..|data| - TRAILER_BYTES];
    var computed := Fnv1a64(payload);
    if FromLittleEndian(data[|data| - TRAILER_BYTES..]) != computed {
      return Failure(INTEGRITY_FAILURE);
    }
    r := ReadPayload(payload, limits, seal);
  }

  // ----- Writing -----------------------------------------------------------------------------------------

  method WritePolicies(writer: ByteWriter, policies: seq<Policy>)
    modifies writer
    ensures forall rest: Buffer {:trigger PutList(PutPolicy, policies, rest)} ::
              writer.data + rest == old(writer.data) + PutList(PutPolicy, policies, rest)
  {
    writer.WriteVarint(|policies|);
    ghost var start := writer.data;
    for i := 0 to |policies|
      invariant forall rest: Buffer {:trigger PutMany(PutPolicy, policies, rest)} ::
                  writer.data + PutMany(PutPolicy, policies[i..], rest) == start + PutMany(PutPolicy, policies, rest)
    {
      ghost var before := writer.data;
      EncodePolicy(writer, policies[i]);
      forall rest: Buffer
        ensures writer.data + PutMany(PutPolicy, policies[i + 1..], rest)
                == before + PutMany(PutPolicy, policies[i..], rest)
      {
        assert policies[i..][1..] == policies[i + 1..];
        assert PutMany(PutPolicy, policies[i..], rest)
            == PutPolicy(policies[i], PutMany(PutPolicy, policies[i + 1..], rest));
      }
    }
  }

  method WriteProofs(writer: ByteWriter, proofs: seq<StoredProof>)
    modifies writer
    ensures forall rest: Buffer {:trigger PutList(PutProof, proofs, rest)} ::
              writer.data + rest == old(writer.data) + PutList(PutProof, proofs, rest)
  {
    writer.WriteVarint(|proofs|);
    ghost var start := writer.data;
    for i := 0 to |proofs|
      invariant forall rest: Buffer {:trigger PutMany(PutProof, proofs, rest)} ::
                  writer.data + PutMany(PutProof, proofs[i..], rest) == start + PutMany(PutProof, proofs, rest)
    {
      ghost var before := writer.data;
      EncodeProof(writer, proofs[i]);
      forall rest: Buffer
        ensures writer.data + PutMany(PutProof, proofs[i + 1..], rest) == before + PutMany(PutProof, proofs[i..], rest)
      {
        assert proofs[i..][1..] == proofs[i + 1..];
        assert PutMany(PutProof, proofs[i..], rest) == PutProof(proofs[i], PutMany(PutProof, proofs[i + 1..], rest));
      }
    }
  }

  method WriteSession(writer: ByteWriter, session: A.Session)
    modifies writer
    ensures forall rest: Buffer {:trigger PutSession(session, rest)} ::
              writer.data + rest == old(writer.data) + PutSession(session, rest)
  {
    WriteText(writer, session.publisher);
    WriteText(writer, session.boot);
    WriteLong(writer, session.epoch);
    WriteText(writer, session.scope);
    writer.WriteBool(session.fenced);
  }

  method WriteSessions(writer: ByteWriter, sessions: seq<A.Session>)
    modifies writer
    ensures forall rest: Buffer {:trigger PutList(PutSession, sessions, rest)} ::
              writer.data + rest == old(writer.data) + PutList(PutSession, sessions, rest)
  {
    writer.WriteVarint(|sessions|);
    ghost var start := writer.data;
    for i := 0 to |sessions|
      invariant forall rest: Buffer {:trigger PutMany(PutSession, sessions, rest)} ::
                  writer.data + PutMany(PutSession, sessions[i..], rest) == start + PutMany(PutSession, sessions, rest)
    {
      ghost var before := writer.data;
      WriteSession(writer, sessions[i]);
      forall rest: Buffer
        ensures writer.data + PutMany(PutSession, sessions[i + 1..], rest)
                == before + PutMany(PutSession, sessions[i..], rest)
      {
        assert sessions[i..][1..] == sessions[i + 1..];
        assert PutMany(PutSession, sessions[i..], rest)
            == PutSession(sessions[i], PutMany(PutSession, sessions[i + 1..], rest));
      }
    }
  }

  method WriteAttempt(writer: ByteWriter, a: AttemptRecord)
    modifies writer
    ensures forall rest: Buffer {:trigger PutAttempt(a, rest)} ::
              writer.data + rest == old(writer.data) + PutAttempt(a, rest)
  {
    WriteText(writer, a.attempt);
    writer.WriteBytes(a.payload);
    WriteText(writer, a.proof);
  }

  method WriteAttempts(writer: ByteWriter, attempts: seq<AttemptRecord>)
    modifies writer
    ensures forall rest: Buffer {:trigger PutList(PutAttempt, attempts, rest)} ::
              writer.data + rest == old(writer.data) + PutList(PutAttempt, attempts, rest)
  {
    writer.WriteVarint(|attempts|);
    ghost var start := writer.data;
    for i := 0 to |attempts|
      invariant forall rest: Buffer {:trigger PutMany(PutAttempt, attempts, rest)} ::
                  writer.data + PutMany(PutAttempt, attempts[i..], rest) == start + PutMany(PutAttempt, attempts, rest)
    {
      ghost var before := writer.data;
      WriteAttempt(writer, attempts[i]);
      forall rest: Buffer
        ensures writer.data + PutMany(PutAttempt, attempts[i + 1..], rest)
                == before + PutMany(PutAttempt, attempts[i..], rest)
      {
        assert attempts[i..][1..] == attempts[i + 1..];
        assert PutMany(PutAttempt, attempts[i..], rest)
            == PutAttempt(attempts[i], PutMany(PutAttempt, attempts[i + 1..], rest));
      }
    }
  }

  method WriteHistory(writer: ByteWriter, h: HistoryRecord)
    modifies writer
    ensures forall rest: Buffer {:trigger PutHistory(h, rest)} ::
              writer.data + rest == old(writer.data) + PutHistory(h, rest)
  {
    WriteText(writer, h.proof);
    WriteProofs(writer, h.revisions);
  }

  method WriteHistories(writer: ByteWriter, histories: seq<HistoryRecord>)
    modifies writer
    ensures forall rest: Buffer {:trigger PutList(PutHistory, histories, rest)} ::
              writer.data + rest == old(writer.data) + PutList(PutHistory, histories, rest)
  {
    writer.WriteVarint(|histories|);
    ghost var start := writer.data;
    for i := 0 to |histories|
      invariant forall rest: Buffer {:trigger PutMany(PutHistory, histories, rest)} ::
                  writer.data + PutMany(PutHistory, histories[i..], rest)
                      == start + PutMany(PutHistory, histories, rest)
    {
      ghost var before := writer.data;
      WriteHistory(writer, histories[i]);
      forall rest: Buffer
        ensures writer.data + PutMany(PutHistory, histories[i + 1..], rest)
                == before + PutMany(PutHistory, histories[i..], rest)
      {
        assert histories[i..][1..] == histories[i + 1..];
        assert PutMany(PutHistory, histories[i..], rest)
            == PutHistory(histories[i], PutMany(PutHistory, histories[i + 1..], rest));
      }
    }
  }

  method WriteSnapshots(writer: ByteWriter, snapshots: seq<ProofSnapshot>)
    modifies writer
    ensures forall rest: Buffer {:trigger PutList(PutSnapshot, snapshots, rest)} ::
              writer.data + rest == old(writer.data) + PutList(PutSnapshot, snapshots, rest)
  {
    writer.WriteVarint(|snapshots|);
    ghost var start := writer.data;
    for i := 0 to |snapshots|
      invariant forall rest: Buffer {:trigger PutMany(PutSnapshot, snapshots, rest)} ::
                  writer.data + PutMany(PutSnapshot, snapshots[i..], rest)
                      == start + PutMany(PutSnapshot, snapshots, rest)
    {
      ghost var before := writer.data;
      EncodeSnapshot(writer, snapshots[i]);
      forall rest: Buffer
        ensures writer.data + PutMany(PutSnapshot, snapshots[i + 1..], rest)
                == before + PutMany(PutSnapshot, snapshots[i..], rest)
      {
        assert snapshots[i..][1..] == snapshots[i + 1..];
        assert PutMany(PutSnapshot, snapshots[i..], rest)
            == PutSnapshot(snapshots[i], PutMany(PutSnapshot, snapshots[i + 1..], rest));
      }
    }
  }

  method WriteSections(writer: ByteWriter, c: Contents<ProofSnapshot>)
    modifies writer
    ensures writer.data == old(writer.data) + PutSections(c, PutSnapshot)
  {
    ghost var before := writer.data;
    WritePolicies(writer, c.policies);
    WriteProofs(writer, c.proofs);
    WriteSessions(writer, c.sessions);
    WritePaths(writer, c.fencedBoots);
    WriteAttempts(writer, c.attempts);
    WriteHistories(writer, c.history);
    WriteSnapshots(writer, c.snapshots);
    assert writer.data + [] == before + PutSections(c, PutSnapshot);
  }

  /** `encode_store`. */
  method WriteStore(c: Contents<ProofSnapshot>) returns (data: Buffer)
    ensures data == EncodeStore(c, PutSnapshot)
  {
    var writer := new ByteWriter();
    for i := 0 to |MAGIC|
      invariant writer.data == MAGIC[..i] && fresh(writer)
    {
      writer.data := writer.data + [MAGIC[i]];
    }
    writer.WriteInt(VERSION, 4);
    writer.WriteInt(c.epoch, 8);
    assert writer.data == MAGIC + LittleEndian(VERSION, 4) + LittleEndian(c.epoch, 8);
    WriteSections(writer, c);
    var trailer := Fnv1a64(writer.data);
    var file := new ByteWriter();
    file.data := writer.data;
    file.WriteInt(trailer, TRAILER_BYTES);
    data := file.data;
  }
}
