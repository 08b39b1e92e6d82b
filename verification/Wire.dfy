/**
 * Wire frames: a twenty-byte header that carries an integrity value over itself and
 * the payload, and the incremental assembler that cuts a byte stream into frames.
 */
module Wire {
  import opened Bytes
  import opened Fnv
  import opened Evidence

  const MAGIC: nat := 0x3146_4450
  const VERSION: nat := 1
  const HEADER_BYTES: nat := 20

  datatype Status =
    | OK
    | INCOMPLETE
    | BAD_MAGIC
    | UNSUPPORTED_VERSION
    | UNKNOWN_MESSAGE
    | FRAME_TOO_LARGE
    | INTEGRITY_FAILURE
    | TRAILING_BYTES
    | ASSEMBLY_LIMIT_EXCEEDED

  datatype Frame = Frame(message: nat, payload: Buffer)

  /** HELLO is 1 and PONG is 15. */
  predicate DefinedMessage(id: nat) {
    1 <= id <= 15
  }

  /** SNAPSHOT, DIFF and EXPLAIN. */
  predicate ReservedMessage(id: nat) {
    id == 8 || id == 9 || id == 10
  }

  // ----- Encoding ---------------------------------------------------------------------------

  function Header(message: nat, length: nat): (bytes: Buffer)
    ensures |bytes| == 12
  {
    LittleEndian(MAGIC, 4) + LittleEndian(VERSION, 2) + LittleEndian(message, 2) + LittleEndian(length, 4)
  }

  function Sealed(message: nat, payload: Buffer): Buffer {
    Header(message, |payload|) + LittleEndian(Hash(Header(message, |payload|) + payload), 8) + payload
  }

  /** A payload over the bound encodes to nothing. */
  function EncodeFrame(message: nat, payload: Buffer, limits: Limits): Buffer {
    if |payload| > limits.maxFrameBytes then [] else Sealed(message, payload)
  }

  // ----- Decoding ---------------------------------------------------------------------------

  datatype HeaderResult = Parsed(message: nat, length: nat, integrity: nat) | BadHeader(status: Status)

  function DecodeHeader(data: Buffer, limits: Limits): HeaderResult {
    if |data| < HEADER_BYTES then BadHeader(INCOMPLETE)
    else if FromLittleEndian(data[0..4]) != MAGIC then BadHeader(BAD_MAGIC)
    else if FromLittleEndian(data[4..6]) != VERSION then BadHeader(UNSUPPORTED_VERSION)
    else
      var id, length := FromLittleEndian(data[6..8]), FromLittleEndian(data[8..12]);
      if !DefinedMessage(id) || ReservedMessage(id) then BadHeader(UNKNOWN_MESSAGE)
      else if length > limits.maxFrameBytes then BadHeader(FRAME_TOO_LARGE)
      else Parsed(id, length, FromLittleEndian(data[12..20]))
  }

  datatype FrameResult = Decoded(frame: Frame) | Refused(status: Status)

  function DecodeFrame(data: Buffer, limits: Limits): FrameResult {
    match DecodeHeader(data, limits)
    case BadHeader(status) => Refused(status)
    case Parsed(message, length, integrity) =>
      if |data| < HEADER_BYTES + length then Refused(INCOMPLETE)
      else if |data| > HEADER_BYTES + length then Refused(Status.TRAILING_BYTES)
      else if Hash(data[..12] + data[20..]) != integrity then Refused(INTEGRITY_FAILURE)
      else Decoded(Frame(message, data[20..]))
  }

  // ----- Round trip ----------------------------------------------------------------------------

  lemma SealedLayout(message: nat, payload: Buffer)
    ensures var s := Sealed(message, payload);
            && |s| == HEADER_BYTES + |payload|
            && s[0..4] == LittleEndian(MAGIC, 4) && s[4..6] == LittleEndian(VERSION, 2)
            && s[6..8] == LittleEndian(message, 2) && s[8..12] == LittleEndian(|payload|, 4)
            && s[12..20] == LittleEndian(Hash(Header(message, |payload|) + payload), 8)
            && s[..12] == Header(message, |payload|) && s[20..] == payload
  {
  }

  lemma SealedNumbers(message: nat, payload: Buffer)
    requires message < TWO_16 && |payload| < TWO_32
    ensures var s := Sealed(message, payload);
            && FromLittleEndian(s[0..4]) == MAGIC && FromLittleEndian(s[4..6]) == VERSION
            && FromLittleEndian(s[6..8]) == message && FromLittleEndian(s[8..12]) == |payload|
            && FromLittleEndian(s[12..20]) == Hash(s[..12] + s[20..])
  {
    SealedLayout(message, payload);
    Capacities();
    LittleEndianRoundTrip(MAGIC, 4);
    LittleEndianRoundTrip(VERSION, 2);
    LittleEndianRoundTrip(message, 2);
    LittleEndianRoundTrip(|payload|, 4);
    LittleEndianRoundTrip(Hash(Header(message, |payload|) + payload), 8);
  }

  /**
   * A frame comes back exactly when its identifier may be sent and its payload fits;
   * the encoder itself does not refuse the reserved identifiers.
   */
  lemma FrameRoundTrip(message: nat, payload: Buffer, limits: Limits)
    requires message < TWO_16 && limits.maxFrameBytes < TWO_32
    ensures DecodeFrame(EncodeFrame(message, payload, limits), limits) == Decoded(Frame(message, payload))
            <==> |payload| <= limits.maxFrameBytes && DefinedMessage(message) && !ReservedMessage(message)
  {
    if |payload| <= limits.maxFrameBytes {
      SealedLayout(message, payload);
      SealedNumbers(message, payload);
    }
  }

  // ----- Corruption ----------------------------------------------------------------------------

  /** The integrity value covers everything but itself. */
  function Covered(data: Buffer): Buffer
    requires |data| >= HEADER_BYTES
  {
    data[..12] + data[20..]
  }

  lemma CoveredChange(data: Buffer, i: nat, b: Byte)
    requires |data| >= HEADER_BYTES && i < |data| && b != data[i]
    ensures 12 <= i < 20 ==> Covered(data[i := b]) == Covered(data)
    ensures !(12 <= i < 20) ==>
              var j := if i < 12 then i else i - 8;
              j < |Covered(data)| && Covered(data)[j] == data[i] && Covered(data[i := b]) == Covered(data)[j := b]
  {
    if 12 <= i < 20 {
      assert Covered(data[i := b]) == Covered(data);
    } else {
      assert Covered(data[i := b]) == Covered(data)[(if i < 12 then i else i - 8) := b];
    }
  }

  lemma FieldUnchanged(data: Buffer, i: nat, b: Byte, lo: nat, hi: nat)
    requires i < |data| && lo <= hi <= |data|
    ensures !(lo <= i < hi) ==> data[i := b][lo..hi] == data[lo..hi]
    ensures lo <= i < hi && b != data[i] ==> data[i := b][lo..hi] != data[lo..hi]
  {
    if lo <= i < hi {
      assert data[i := b][lo..hi][i - lo] == b && data[lo..hi][i - lo] == data[i];
    }
  }

  /** Changing exactly one byte of an encoded frame is always noticed. */
  lemma OneByteCorruptionIsCaught(message: nat, payload: Buffer, limits: Limits, i: nat, b: Byte)
    requires message < TWO_16 && |payload| <= limits.maxFrameBytes < TWO_32
    requires i < |EncodeFrame(message, payload, limits)| && b != EncodeFrame(message, payload, limits)[i]
    ensures DecodeFrame(EncodeFrame(message, payload, limits)[i := b], limits).Refused?
  {
    var s := Sealed(message, payload);
    var t := s[i := b];
    SealedLayout(message, payload);
    SealedNumbers(message, payload);
    CoveredChange(s, i, b);
    FieldUnchanged(s, i, b, 12, 20);
    if 12 <= i < 20 {
      if FromLittleEndian(t[12..20]) == FromLittleEndian(s[12..20]) {
        FromLittleEndianInjective(t[12..20], s[12..20]);
      }
    } else {
      OneByteChangesHash(Covered(s), if i < 12 then i else i - 8, b);
      assert Hash(Covered(t)) != FromLittleEndian(t[12..20]);
    }
    IntegrityDecides(t, limits);
  }

  lemma IntegrityDecides(data: Buffer, limits: Limits)
    requires |data| >= HEADER_BYTES && Hash(Covered(data)) != FromLittleEndian(data[12..20])
    ensures DecodeFrame(data, limits).Refused?
  {
  }

  // ----- The stream ---------------------------------------------------------------------------------

  /** What `next` does with the bytes at hand. */
  datatype Cut = Wait | Fatal(status: Status) | Got(frame: Frame, size: nat)

  function NextCut(left: Buffer, limits: Limits): (cut: Cut)
    ensures cut.Got? ==> HEADER_BYTES <= cut.size <= |left|
  {
    if left == [] then Wait
    else
      match DecodeHeader(left, limits)
      case BadHeader(status) => if status == INCOMPLETE then Wait else Fatal(status)
      case Parsed(message, length, integrity) =>
        if |left| < HEADER_BYTES + length then Wait
        else match DecodeFrame(left[..HEADER_BYTES + length], limits)
          case Refused(status) => Fatal(status)
          case Decoded(frame) => Got(frame, HEADER_BYTES + length)
  }

  datatype Assembly = Assembly(frames: seq<Frame>, left: Buffer, status: Status)

  const FRESH := Assembly([], [], Status.OK)

  /** Taking frames until more bytes are needed or the stream is beyond repair. */
  function Drain(frames: seq<Frame>, left: Buffer, limits: Limits): Assembly
    decreases |left|
  {
    match NextCut(left, limits)
    case Wait => Assembly(frames, left, Status.OK)
    case Fatal(status) => Assembly(frames, left, status)
    case Got(frame, size) => Drain(frames + [frame], left[size..], limits)
  }

  /** One append followed by draining; after a failure nothing is taken in any more. */
  function Absorb(a: Assembly, chunk: Buffer, limits: Limits): Assembly {
    if a.status != Status.OK then a
    else if |a.left + chunk| > limits.maxWireAssemblyBytes
        then Assembly(a.frames, a.left + chunk, ASSEMBLY_LIMIT_EXCEEDED)
    else Drain(a.frames, a.left + chunk, limits)
  }

  function AbsorbAll(chunks: seq<Buffer>, limits: Limits): Assembly
    decreases |chunks|
  {
    if chunks == [] then FRESH
    else Absorb(AbsorbAll(chunks[..|chunks| - 1], limits), chunks[|chunks| - 1], limits)
  }

  function Concat(chunks: seq<Buffer>): Buffer
    decreases |chunks|
  {
    if chunks == [] then [] else Concat(chunks[..|chunks| - 1]) + chunks[|chunks| - 1]
  }

  /** The bytes that arrived after the stream had failed. */
  function Dropped(chunks: seq<Buffer>, limits: Limits): Buffer
    decreases |chunks|
  {
    if chunks == [] then []
    else
      var front := chunks[..|chunks| - 1];
      Dropped(front, limits) + (if AbsorbAll(front, limits).status == Status.OK then [] else chunks[|chunks| - 1])
  }

  /** A cut that has been made does not depend on what follows. */
  lemma CutIsFinal(left: Buffer, more: Buffer, limits: Limits)
    requires !NextCut(left, limits).Wait?
    ensures NextCut(left + more, limits) == NextCut(left, limits)
  {
    var whole := left + more;
    assert |left| >= HEADER_BYTES;
    assert whole[0..4] == left[0..4] && whole[4..6] == left[4..6] && whole[6..8] == left[6..8];
    assert whole[8..12] == left[8..12] && whole[12..20] == left[12..20];
    assert DecodeHeader(whole, limits) == DecodeHeader(left, limits);
    match DecodeHeader(left, limits)
    case BadHeader(status) =>
    case Parsed(message, length, integrity) =>
      assert whole[..HEADER_BYTES + length] == left[..HEADER_BYTES + length];
  }

  /** Draining what has arrived and then the rest is draining everything. */
  lemma {:induction false} DrainInTwo(frames: seq<Frame>, left: Buffer, more: Buffer, limits: Limits)
    ensures var first := Drain(frames, left, limits);
            Drain(frames, left + more, limits)
            == if first.status == Status.OK then Drain(first.frames, first.left + more, limits)
               else Assembly(first.frames, first.left + more, first.status)
    decreases |left|
  {
    match NextCut(left, limits)
    case Wait =>
    case Fatal(status) => CutIsFinal(left, more, limits);
    case Got(frame, size) =>
      CutIsFinal(left, more, limits);
      assert (left + more)[size..] == left[size..] + more;
      DrainInTwo(frames + [frame], left[size..], more, limits);
  }

  /** The run over some chunks, next to the whole stream. */
  ghost predicate Agrees(whole: Assembly, parts: Assembly, dropped: Buffer) {
    && parts.frames == whole.frames && parts.status == whole.status
    && whole.left == parts.left + dropped
    && (whole.status == Status.OK ==> dropped == [])
  }

  lemma AgreeingRunsAreEqual(whole: Assembly, parts: Assembly, dropped: Buffer)
    requires Agrees(whole, parts, dropped) && parts.status == Status.OK
    ensures whole == parts && dropped == []
  {
    assert parts.left + [] == parts.left;
  }

  lemma AgreesWithItself(a: Assembly)
    ensures Agrees(a, a, [])
  {
    assert a.left + [] == a.left;
  }

  lemma AgreesAfterFailure(whole: Assembly, parts: Assembly, dropped: Buffer, chunk: Buffer)
    requires Agrees(whole, parts, dropped) && parts.status != Status.OK
    ensures Agrees(Assembly(whole.frames, whole.left + chunk, whole.status), parts, dropped + chunk)
  {
    assert (parts.left + dropped) + chunk == parts.left + (dropped + chunk);
  }

  lemma OneMoreChunk(stream: Buffer, chunk: Buffer, parts: Assembly, dropped: Buffer, limits: Limits)
    requires Agrees(Drain([], stream, limits), parts, dropped)
    requires Absorb(parts, chunk, limits).status != ASSEMBLY_LIMIT_EXCEEDED
    ensures Agrees(Drain([], stream + chunk, limits), Absorb(parts, chunk, limits),
                   if parts.status == Status.OK then [] else dropped + chunk)
    ensures parts.status == Status.OK ==> dropped == []
  {
    DrainInTwo([], stream, chunk, limits);
    if parts.status == Status.OK {
      AgreeingRunsAreEqual(Drain([], stream, limits), parts, dropped);
      AgreesWithItself(Absorb(parts, chunk, limits));
    } else {
      AgreesAfterFailure(Drain([], stream, limits), parts, dropped, chunk);
    }
  }

  /**
   * Chunking is invisible: whatever the chunks, as long as the assembly bound is not
   * hit, the frames and the final status are those of the whole stream, and the bytes
   * left over differ from it only by what arrived after a failure.
   */
  lemma {:induction false} ChunkingIsInvisible(chunks: seq<Buffer>, limits: Limits)
    requires AbsorbAll(chunks, limits).status != ASSEMBLY_LIMIT_EXCEEDED
    ensures Agrees(Drain([], Concat(chunks), limits), AbsorbAll(chunks, limits), Dropped(chunks, limits))
    decreases |chunks|
  {
    if chunks != [] {
      var front, last := chunks[..|chunks| - 1], chunks[|chunks| - 1];
      ChunkingIsInvisible(front, limits);
      OneMoreChunk(Concat(front), last, AbsorbAll(front, limits), Dropped(front, limits), limits);
      assert Dropped(front, limits) + [] == Dropped(front, limits);
    }
  }

  /** So the left-over count is the whole stream's exactly when nothing was dropped. */
  lemma LeftOverIffNothingDropped(chunks: seq<Buffer>, limits: Limits)
    requires AbsorbAll(chunks, limits).status != ASSEMBLY_LIMIT_EXCEEDED
    ensures |AbsorbAll(chunks, limits).left| == |Drain([], Concat(chunks), limits).left|
            <==> Dropped(chunks, limits) == []
  {
    ChunkingIsInvisible(chunks, limits);
  }

  /** A stream whose second chunk is dropped: the first one already failed. */
  lemma DroppedChunkExists(limits: Limits)
    requires limits.maxWireAssemblyBytes >= HEADER_BYTES
    ensures var chunks := [seq(HEADER_BYTES, _ => 0), [7]];
            AbsorbAll(chunks, limits).left != Drain([], Concat(chunks), limits).left
  {
    var bad: Buffer := seq(HEADER_BYTES, _ => 0);
    var chunks: seq<Buffer> := [bad, [7]];
    assert FromLittleEndian(bad[0..4]) == 0 by {
      assert bad[0..4] == [0, 0, 0, 0];
      assert FromLittleEndian([0, 0, 0, 0]) == 0 by {
        assert [0, 0, 0, 0][1..] == [0, 0, 0] && [0, 0, 0][1..] == [0, 0] && [0, 0][1..] == [0];
      }
    }
    assert Drain([], bad, limits) == Assembly([], bad, BAD_MAGIC);
    assert chunks[..1] == [bad] && [bad][..0] == [];
    assert AbsorbAll([bad], limits) == Absorb(FRESH, bad, limits);
    assert [] + bad == bad;
    assert AbsorbAll(chunks, limits) == AbsorbAll([bad], limits);
    assert Concat([bad]) == Concat([]) + bad;
    assert Concat(chunks) == Concat([bad]) + [7];
    DrainInTwo([], bad, [7], limits);
  }

  function EncodeAll(frames: seq<Frame>, limits: Limits): Buffer
    decreases |frames|
  {
    if frames == [] then []
    else
      var last := frames[|frames| - 1];
      EncodeAll(frames[..|frames| - 1], limits) + EncodeFrame(last.message, last.payload, limits)
  }

  predicate Sendable(frame: Frame, limits: Limits) {
    DefinedMessage(frame.message) && !ReservedMessage(frame.message) && |frame.payload| <= limits.maxFrameBytes
  }

  lemma DrainOne(frames: seq<Frame>, frame: Frame, limits: Limits)
    requires Sendable(frame, limits) && limits.maxFrameBytes < TWO_32
    ensures Drain(frames, EncodeFrame(frame.message, frame.payload, limits), limits)
            == Assembly(frames + [frame], [], Status.OK)
  {
    var s := EncodeFrame(frame.message, frame.payload, limits);
    FrameIsCut(frame, limits);
    DrainWholeCut(frames, s, frame, limits);
  }

  lemma DrainWholeCut(frames: seq<Frame>, s: Buffer, frame: Frame, limits: Limits)
    requires NextCut(s, limits) == Got(frame, |s|)
    ensures Drain(frames, s, limits) == Assembly(frames + [frame], [], Status.OK)
  {
    assert s[|s|..] == [];
    assert NextCut([], limits) == Wait;
  }

  lemma FrameIsCut(frame: Frame, limits: Limits)
    requires Sendable(frame, limits) && limits.maxFrameBytes < TWO_32
    ensures var s := EncodeFrame(frame.message, frame.payload, limits); NextCut(s, limits) == Got(frame, |s|)
  {
    var s := EncodeFrame(frame.message, frame.payload, limits);
    FrameRoundTrip(frame.message, frame.payload, limits);
    SealedLayout(frame.message, frame.payload);
    SealedNumbers(frame.message, frame.payload);
    assert s[..|s|] == s;
  }

  /** The stream parses into exactly these frames. */
  ghost predicate ParsesInto(stream: Buffer, frames: seq<Frame>, limits: Limits) {
    var d := Drain([], stream, limits);
    d.frames == frames && d.left == [] && d.status == Status.OK
  }

  lemma ParsesOneMore(stream: Buffer, frames: seq<Frame>, frame: Frame, whole: Buffer, limits: Limits)
    requires Sendable(frame, limits) && limits.maxFrameBytes < TWO_32 && ParsesInto(stream, frames, limits)
    requires whole == stream + EncodeFrame(frame.message, frame.payload, limits)
    ensures ParsesInto(whole, frames + [frame], limits)
  {
    var bytes := EncodeFrame(frame.message, frame.payload, limits);
    DrainInTwo([], stream, bytes, limits);
    assert [] + bytes == bytes;
    DrainOne(frames, frame, limits);
  }

  lemma NothingParses(limits: Limits)
    ensures ParsesInto([], [], limits)
  {
    assert NextCut([], limits) == Wait;
  }

  /** A concatenation of encoded frames comes back exactly, with nothing left over. */
  lemma {:induction false} ConcatenationRoundTrip(frames: seq<Frame>, stream: Buffer, limits: Limits)
    requires limits.maxFrameBytes < TWO_32 && forall f | f in frames :: Sendable(f, limits)
    requires stream == EncodeAll(frames, limits)
    ensures ParsesInto(stream, frames, limits)
    decreases |frames|
  {
    if frames == [] {
      NothingParses(limits);
    } else {
      var front, last := frames[..|frames| - 1], frames[|frames| - 1];
      var before := EncodeAll(front, limits);
      assert front + [last] == frames;
      assert forall f | f in front :: f in frames;
      assert Sendable(last, limits) by {
        assert last in frames;
      }
      ConcatenationRoundTrip(front, before, limits);
      ParsesOneMore(before, front, last, stream, limits);
    }
  }

  /** Frames sent one after the other arrive whole, whatever the chunks they are delivered in. */
  lemma ChunkedFramesComeBack(frames: seq<Frame>, chunks: seq<Buffer>, limits: Limits)
    requires limits.maxFrameBytes < TWO_32 && forall f | f in frames :: Sendable(f, limits)
    requires Concat(chunks) == EncodeAll(frames, limits) && AbsorbAll(chunks, limits).status != ASSEMBLY_LIMIT_EXCEEDED
    ensures AbsorbAll(chunks, limits) == Assembly(frames, [], Status.OK)
  {
    ConcatenationRoundTrip(frames, Concat(chunks), limits);
    ChunkingIsInvisible(chunks, limits);
    AgreeingRunsAreEqual(Drain([], Concat(chunks), limits), AbsorbAll(chunks, limits), Dropped(chunks, limits));
  }

  /** `encode_frame`. */
  method WriteFrame(message: nat, payload: Buffer, limits: Limits) returns (out: Buffer)
    requires message < TWO_16 && limits.maxFrameBytes < TWO_32
    ensures out == EncodeFrame(message, payload, limits)
  {
    if |payload| > limits.maxFrameBytes {
      return [];
    }
    var prefix := WriteHeader(message, |payload|);
    var integrity := Fnv1a64(prefix + payload);
    Capacities();
    var frame := new ByteWriter();
    frame.WriteInt(integrity, 8);
    assert frame.data == LittleEndian(integrity, 8);
    out := prefix + frame.data + payload;
  }

  method WriteHeader(message: nat, length: nat) returns (out: Buffer)
    requires message < TWO_16 && length < TWO_32
    ensures out == Header(message, length)
  {
    Capacities();
    var writer := new ByteWriter();
    writer.WriteInt(MAGIC, 4);
    assert writer.data == LittleEndian(MAGIC, 4);
    writer.WriteInt(VERSION, 2);
    assert writer.data == LittleEndian(MAGIC, 4) + LittleEndian(VERSION, 2);
    writer.WriteInt(message, 2);
    assert writer.data == LittleEndian(MAGIC, 4) + LittleEndian(VERSION, 2) + LittleEndian(message, 2);
    writer.WriteInt(length, 4);
    assert writer.data == Header(message, length);
    out := writer.data;
  }

  // ----- The assembler -------------------------------------------------------------------------------

  class FrameAssembler {
    const limits: Limits
    var buffer: Buffer
    var consumed: nat
    var status: Status

    ghost predicate Valid()
      reads this
    {
      consumed <= |buffer|
    }

    /** `buffered` counts these. */
    function Left(): Buffer
      requires Valid()
      reads this
    {
      buffer[consumed..]
    }

    constructor (limits: Limits)
      ensures Valid() && this.limits == limits && Left() == [] && status == Status.OK
    {
      this.limits := limits;
      buffer, consumed, status := [], 0, Status.OK;
    }

    method Append(data: Buffer)
      requires Valid()
      modifies this
      ensures Valid()
      ensures old(status) != Status.OK ==> Left() == old(Left()) && status == old(status)
      ensures old(status) == Status.OK ==>
                && Left() == old(Left()) + data
                && status == if |Left()| > limits.maxWireAssemblyBytes then ASSEMBLY_LIMIT_EXCEEDED else Status.OK
    {
      if status != Status.OK {
        return;
      }
      if consumed != 0 {
        buffer := buffer[consumed..];
        consumed := 0;
      }
      buffer := buffer + data;
      if |buffer| > limits.maxWireAssemblyBytes {
        status := ASSEMBLY_LIMIT_EXCEEDED;
      }
    }

    /** One frame, INCOMPLETE, or the failure that sticks. */
    method Next() returns (result: Status, frame: Frame)
      requires Valid()
      modifies this
      ensures Valid()
      ensures old(status) != Status.OK ==> result == old(status) && status == old(status) && Left() == old(Left())
      ensures old(status) == Status.OK ==>
                match NextCut(old(Left()), limits)
                case Wait => result == INCOMPLETE && status == Status.OK && Left() == old(Left())
                case Fatal(reason) => result == reason && status == reason && Left() == old(Left())
                case Got(f, size) => result == Status.OK && frame == f && status == Status.OK
                                     && Left() == old(Left())[size..]
    {
      frame := Frame(14, []);
      if status != Status.OK {
        return status, frame;
      }
      var available := buffer[consumed..];
      if |available| == 0 {
        return INCOMPLETE, frame;
      }
      match DecodeHeader(available, limits) {
        case BadHeader(reason) =>
          if reason != INCOMPLETE {
            status := reason;
          }
          result := reason;
        case Parsed(message, length, integrity) =>
          var total := HEADER_BYTES + length;
          if |available| < total {
            return INCOMPLETE, frame;
          }
          match DecodeFrame(available[..total], limits) {
            case Refused(reason) =>
              status := reason;
              result := reason;
            case Decoded(f) =>
              consumed := consumed + total;
              result, frame := Status.OK, f;
          }
      }
    }

    /** `Next`, seen from the drain it is a step of. */
    method NextOf(ghost frames: seq<Frame>) returns (result: Status, frame: Frame)
      requires Valid() && status == Status.OK
      modifies this
      ensures Valid()
      ensures if result == Status.OK
              then status == Status.OK && |Left()| < |old(Left())|
              && Drain(frames + [frame], Left(), limits) == Drain(frames, old(Left()), limits)
              else |Left()| <= |old(Left())| && Assembly(frames, Left(), status) == Drain(frames, old(Left()), limits)
    {
      result, frame := Next();
    }

    /** Takes every frame there is. */
    method TakeAll() returns (frames: seq<Frame>)
      requires Valid() && status == Status.OK
      modifies this
      ensures Valid()
      ensures Assembly(frames, Left(), status) == Drain([], old(Left()), limits)
    {
      frames := [];
      ghost var whole := Drain([], Left(), limits);
      var result, frame := NextOf(frames);
      while result == Status.OK
        invariant Valid()
        invariant if result == Status.OK then status == Status.OK && Drain(frames + [frame], Left(), limits) == whole
                  else Assembly(frames, Left(), status) == whole
        decreases |Left()|, result == Status.OK
      {
        frames := frames + [frame];
        result, frame := NextOf(frames);
      }
    }

    /** Append, then take every frame there is. */
    method Feed(chunk: Buffer, ghost earlier: seq<Frame>) returns (frames: seq<Frame>)
      requires Valid()
      modifies this
      ensures Valid()
      ensures Assembly(earlier + frames, Left(), status)
              == Absorb(Assembly(earlier, old(Left()), old(status)), chunk, limits)
    {
      frames := [];
      assert earlier + [] == earlier;
      Append(chunk);
      if status == Status.OK {
        ghost var start := Left();
        frames := TakeAll();
        DrainKeepsEarlier(earlier, [], start, limits);
      }
    }
  }

  lemma {:induction false} DrainKeepsEarlier(earlier: seq<Frame>, frames: seq<Frame>, left: Buffer, limits: Limits)
    ensures var d := Drain(frames, left, limits);
            Drain(earlier + frames, left, limits) == Assembly(earlier + d.frames, d.left, d.status)
    decreases |left|
  {
    match NextCut(left, limits)
    case Wait =>
    case Fatal(status) =>
    case Got(frame, size) =>
      assert earlier + frames + [frame] == earlier + (frames + [frame]);
      DrainKeepsEarlier(earlier, frames + [frame], left[size..], limits);
  }
}
