/**
 * Canonical bytes: little-endian integers, LEB128 varints and bounded byte strings.
 * `Put` functions place an encoding in front of the bytes that follow it; the writer
 * appends the same encodings and the reader takes them off again.
 */
module Bytes {

  type Byte = b: int | 0 <= b < 256

  type Buffer = seq<Byte>

  datatype DecodeStatus = OK | TRUNCATED | LENGTH_OVERRUN | TRAILING_BYTES | INVALID_ENCODING | LIMIT_EXCEEDED

  const TWO_16: nat := 0x1_0000
  const TWO_32: nat := 0x1_0000_0000
  const TWO_64: nat := 0x1_0000_0000_0000_0000

  // ----- Little-endian integers --------------------------------------------------------------

  /** The low `width` bytes of a value, least significant first. */
  function LittleEndian(value: nat, width: nat): (bytes: Buffer)
    ensures |bytes| == width
  {
    if width == 0 then [] else [value % 256] + LittleEndian(value / 256, width - 1)
  }

  function FromLittleEndian(bytes: Buffer): nat {
    if bytes == [] then 0 else bytes[0] + 256 * FromLittleEndian(bytes[1..])
  }

  function Capacity(width: nat): (c: nat)
    ensures c >= 1
  {
    if width == 0 then 1 else 256 * Capacity(width - 1)
  }

  lemma {:induction false} LittleEndianRoundTrip(value: nat, width: nat)
    requires value < Capacity(width)
    ensures FromLittleEndian(LittleEndian(value, width)) == value
  {
    if width > 0 {
      LittleEndianRoundTrip(value / 256, width - 1);
      var bytes := LittleEndian(value, width);
      assert bytes[1..] == LittleEndian(value / 256, width - 1);
    }
  }

  /** Different values have different bytes, and different bytes give different values. */
  lemma {:induction false} FromLittleEndianInjective(a: Buffer, b: Buffer)
    requires |a| == |b| && FromLittleEndian(a) == FromLittleEndian(b)
    ensures a == b
  {
    if a != [] {
      assert a[0] == FromLittleEndian(a) % 256 && b[0] == FromLittleEndian(b) % 256;
      FromLittleEndianInjective(a[1..], b[1..]);
      assert a == [a[0]] + a[1..] && b == [b[0]] + b[1..];
    }
  }

  lemma Capacities()
    ensures Capacity(1) == 256 && Capacity(2) == TWO_16 && Capacity(4) == TWO_32 && Capacity(8) == TWO_64
  {
    assert Capacity(2) == 256 * Capacity(1);
    assert Capacity(4) == 256 * (256 * Capacity(2));
    assert Capacity(8) == 256 * (256 * (256 * (256 * Capacity(4))));
  }

  // ----- Varints --------------------------------------------------------------------------------

  function PutVarint(value: nat, rest: Buffer): (bytes: Buffer)
    ensures |bytes| > |rest|
  {
    if value < 128 then [value] + rest else [value % 128 + 128] + PutVarint(value / 128, rest)
  }

  datatype Varint = Value(value: nat, rest: Buffer) | Bad(status: DecodeStatus)

  /** The tenth byte has room for one more bit; the bits above it are lost. */
  function Kept(byte: Byte, groups: nat): nat {
    if groups == 9 then byte % 2 else byte % 128
  }

  /** Groups of seven bits, least significant first; an eleventh byte is malformed. */
  function TakeVarint(s: Buffer, groups: nat): Varint
    decreases |s|
  {
    if s == [] then Bad(TRUNCATED)
    else if groups > 9 then Bad(INVALID_ENCODING)
    else if s[0] < 128 then Value(Kept(s[0], groups), s[1..])
    else
      match TakeVarint(s[1..], groups + 1)
      case Bad(status) => Bad(status)
      case Value(high, rest) => Value(Kept(s[0], groups) + 128 * high, rest)
  }

  /** What is representable from this group on. */
  function Room(groups: nat): (room: nat)
    ensures room >= 2
    decreases 10 - groups
  {
    if groups >= 9 then 2 else 128 * Room(groups + 1)
  }

  lemma RoomAtStart()
    ensures Room(0) == TWO_64
  {
    assert Room(8) == 128 * Room(9) == 256;
    assert Room(4) == 128 * Room(5) == 16384 * Room(6) == 2097152 * Room(7) == 268435456 * Room(8);
    assert Room(0) == 128 * Room(1) == 16384 * Room(2) == 2097152 * Room(3) == 268435456 * Room(4);
  }

  lemma {:induction false} VarintRoundTrip(value: nat, rest: Buffer, groups: nat)
    requires groups <= 9 && value < Room(groups)
    ensures TakeVarint(PutVarint(value, rest), groups) == Value(value, rest)
    decreases value
  {
    var s := PutVarint(value, rest);
    if value < 128 {
      assert s[0] == value && s[1..] == rest;
    } else {
      assert s[0] == value % 128 + 128 && s[1..] == PutVarint(value / 128, rest);
      assert groups < 9;
      VarintRoundTrip(value / 128, rest, groups + 1);
    }
  }

  lemma TakePutVarint(value: nat, rest: Buffer)
    requires value < TWO_64
    ensures TakeVarint(PutVarint(value, rest), 0) == Value(value, rest)
  {
    RoomAtStart();
    VarintRoundTrip(value, rest, 0);
  }

  lemma {:induction false} PutVarintAppends(value: nat, rest: Buffer)
    ensures PutVarint(value, rest) == PutVarint(value, []) + rest
  {
    if value >= 128 {
      PutVarintAppends(value / 128, rest);
    }
  }

  /** Overlong forms are accepted, so decoding is not injective on bytes. */
  lemma OverlongIsAccepted(rest: Buffer)
    ensures TakeVarint([128, 0] + rest, 0) == Value(0, rest) == TakeVarint([0] + rest, 0)
  {
    var s: Buffer := [128, 0] + rest;
    assert s[1..] == [0] + rest && s[1..][1..] == rest;
    assert TakeVarint(s[1..], 1) == Value(0, rest);
  }

  /** The weight of a group: one shifted left by seven bits per group. */
  function Scale(groups: nat): nat {
    if groups == 0 then 1 else 128 * Scale(groups - 1)
  }

  lemma ScaleBound(groups: nat)
    requires groups <= 9
    ensures 1 <= Scale(groups) <= 0x8000_0000_0000_0000
    ensures groups < 9 ==> 128 * Scale(groups) <= 0x8000_0000_0000_0000
    ensures groups == 9 ==> Scale(groups) == 0x8000_0000_0000_0000
  {
    assert Scale(1) == 128 && Scale(2) == 16384 && Scale(3) == 2097152 && Scale(4) == 268435456;
    assert Scale(5) == 128 * Scale(4) && Scale(6) == 128 * Scale(5) && Scale(7) == 128 * Scale(6);
    assert Scale(8) == 128 * Scale(7) && Scale(9) == 128 * Scale(8);
  }

  lemma Distribute(a: int, b: int, c: int)
    ensures (a + b) * c == a * c + b * c
  {
  }

  lemma {:induction false} GroupAtMost(group: nat, p: nat)
    requires group <= 127
    ensures 0 <= group * p <= 127 * p
  {
    if p > 0 {
      GroupAtMost(group, p - 1);
      Distribute(p - 1, 1, group);
    }
  }

  lemma MiddleGroup(built: nat, group: nat, p: nat)
    requires built < p && group <= 127 && 128 * p <= TWO_64
    ensures built + group * p < 128 * p
    ensures (built + group * p) % TWO_64 == built + group * p
  {
    GroupAtMost(group, p);
    SmallModulus(built + group * p);
  }

  lemma SmallModulus(x: int)
    ensures 0 <= x < TWO_64 ==> x % TWO_64 == x
  {
  }

  lemma LastGroup(built: nat, group: nat)
    requires built < 0x8000_0000_0000_0000
    ensures (built + group * 0x8000_0000_0000_0000) % TWO_64 == built + group % 2 * 0x8000_0000_0000_0000
  {
    var half, bit := group / 2, group % 2;
    assert group == 2 * half + bit;
    assert built + group * 0x8000_0000_0000_0000 == (built + bit * 0x8000_0000_0000_0000) + half * TWO_64;
  }

  lemma LowBitOfGroup(byte: Byte)
    ensures byte % 128 % 2 == byte % 2
  {
  }

  /** Adding a group never disturbs the bits below it, and loses what does not fit. */
  lemma AddGroup(built: nat, byte: Byte, groups: nat)
    requires groups <= 9 && built < Scale(groups)
    ensures (built + byte % 128 * Scale(groups)) % TWO_64 == built + Kept(byte, groups) * Scale(groups)
    ensures groups < 9 ==> built + Kept(byte, groups) * Scale(groups) < 128 * Scale(groups)
    ensures built + Kept(byte, groups) * Scale(groups) < TWO_64
  {
    ScaleBound(groups);
    var p, group := Scale(groups), byte % 128;
    if groups < 9 {
      MiddleGroup(built, group, p);
    } else {
      LastGroup(built, group);
      LowBitOfGroup(byte);
      assert group * p == group * 0x8000_0000_0000_0000 && Kept(byte, groups) * p == group % 2 * 0x8000_0000_0000_0000;
    }
  }

  /** What the loop still has to read, on top of what it has built. */
  ghost predicate Resumes(whole: Varint, left: Varint, built: nat, scale: nat) {
    match left
    case Bad(status) => whole == Bad(status)
    case Value(high, rest) => whole == Value(built + high * scale, rest)
  }

  lemma ResumeAfter(whole: Varint, left: Varint, built: nat, byte: Byte, groups: nat)
    requires groups <= 9
    requires Resumes(whole, match left
                            case Bad(status) => Bad(status)
                            case Value(high, rest) => Value(Kept(byte, groups) + 128 * high, rest), built,
                                Scale(groups))
    ensures Resumes(whole, left, built + Kept(byte, groups) * Scale(groups), 128 * Scale(groups))
  {
    match left
    case Bad(status) =>
    case Value(high, rest) =>
      var p := Scale(groups);
      Distribute(Kept(byte, groups), 128 * high, p);
      assert 128 * high * p == high * (128 * p);
  }

  // ----- Put functions --------------------------------------------------------------------------------

  function PutInt(value: nat, width: nat, rest: Buffer): Buffer {
    LittleEndian(value, width) + rest
  }

  function PutBytes(value: Buffer, rest: Buffer): Buffer {
    PutVarint(|value|, value + rest)
  }

  datatype TakenBytes = Taken(value: Buffer, rest: Buffer) | NotTaken(status: DecodeStatus)

  /** A bounded byte string; each way to fail is told apart. */
  function TakeBytes(s: Buffer, maxSize: nat): TakenBytes {
    match TakeVarint(s, 0)
    case Bad(reason) => NotTaken(reason)
    case Value(length, rest) =>
      if length > maxSize then NotTaken(LIMIT_EXCEEDED)
      else if |rest| < length then NotTaken(LENGTH_OVERRUN)
      else Taken(rest[..length], rest[length..])
  }

  lemma TakePutBytes(value: Buffer, rest: Buffer, maxSize: nat)
    requires |value| < TWO_64
    ensures TakeBytes(PutBytes(value, rest), maxSize) == if |value| <= maxSize then Taken(value, rest)
            else NotTaken(LIMIT_EXCEEDED)
  {
    TakePutVarint(|value|, value + rest);
  }

  function PutBool(value: bool, rest: Buffer): Buffer {
    [if value then 1 else 0] + rest
  }

  // ----- The writer --------------------------------------------------------------------------------------

  class ByteWriter {
    var data: Buffer

    constructor ()
      ensures data == []
    {
      data := [];
    }

    /** `u8`, `u16`, `u32` and `u64` are the widths 1, 2, 4 and 8. */
    method WriteInt(value: nat, width: nat)
      modifies this
      ensures data == old(data) + LittleEndian(value, width)
      ensures forall rest: Buffer {:trigger PutInt(value, width, rest)} ::
                data + rest == old(data) + PutInt(value, width, rest)
    {
      var remaining: nat := value;
      for i: nat := 0 to width
        invariant data + LittleEndian(remaining, width - i) == old(data) + LittleEndian(value, width)
      {
        assert LittleEndian(remaining, width - i) == [remaining % 256] + LittleEndian(remaining / 256, width - i - 1);
        data := data + [remaining % 256];
        remaining := remaining / 256;
      }
      assert LittleEndian(value, width) + [] == LittleEndian(value, width);
    }

    method WriteVarint(value: nat)
      modifies this
      ensures data == old(data) + PutVarint(value, [])
      ensures forall rest: Buffer {:trigger PutVarint(value, rest)} :: data + rest == old(data) + PutVarint(value, rest)
    {
      var remaining: nat := value;
      while remaining >= 128
        invariant data + PutVarint(remaining, []) == old(data) + PutVarint(value, [])
        decreases remaining
      {
        assert PutVarint(remaining, []) == [remaining % 128 + 128] + PutVarint(remaining / 128, []);
        data := data + [remaining % 128 + 128];
        remaining := remaining / 128;
      }
      assert PutVarint(remaining, []) == [remaining];
      data := data + [remaining];
      forall rest: Buffer
        ensures data + rest == old(data) + PutVarint(value, rest)
      {
        PutVarintAppends(value, rest);
        assert data + rest == old(data) + (PutVarint(value, []) + rest);
      }
    }

    method WriteBytes(value: Buffer)
      modifies this
      ensures forall rest: Buffer {:trigger PutBytes(value, rest)} :: data + rest == old(data) + PutBytes(value, rest)
    {
      WriteVarint(|value|);
      ghost var before := data;
      data := data + value;
      forall rest: Buffer
        ensures data + rest == old(data) + PutBytes(value, rest)
      {
        assert data + rest == before + (value + rest);
      }
    }

    method WriteBool(value: bool)
      modifies this
      ensures forall rest: Buffer {:trigger PutBool(value, rest)} :: data + rest == old(data) + PutBool(value, rest)
    {
      data := data + [if value then 1 else 0];
    }
  }

  // ----- The reader ---------------------------------------------------------------------------------------

  class ByteReader {
    const data: Buffer
    var offset: nat
    var status: DecodeStatus

    ghost predicate Valid()
      reads this
    {
      offset <= |data|
    }

    /** The bytes not yet taken. */
    function Left(): Buffer
      reads this
      requires Valid()
    {
      data[offset..]
    }

    constructor (data: Buffer)
      ensures Valid() && this.data == data && Left() == data && status == OK
    {
      this.data := data;
      offset, status := 0, OK;
    }

    /** The first failure sticks. */
    method Fail(reason: DecodeStatus)
      modifies this`status
      ensures status == if old(status) == OK then reason else old(status)
    {
      if status == OK {
        status := reason;
      }
    }

    /** `u8`, `u16`, `u32` and `u64`. */
    method ReadInt(width: nat) returns (ok: bool, value: nat)
      requires Valid() && width >= 1
      modifies this
      ensures Valid()
      ensures ok <==> old(status) == OK && |old(Left())| >= width
      ensures ok ==> status == OK && value == FromLittleEndian(old(Left())[..width]) && Left() == old(Left())[width..]
      ensures !ok ==> status != OK && offset == old(offset)
    {
      value := 0;
      if status != OK {
        return false, 0;
      }
      if |data| - offset < width {
        Fail(TRUNCATED);
        return false, 0;
      }
      value := FromLittleEndian(data[offset..offset + width]);
      assert data[offset..][..width] == data[offset..offset + width];
      offset := offset + width;
      ok := true;
    }

    method ReadVarint() returns (ok: bool, value: nat)
      requires Valid()
      modifies this
      ensures Valid()
      ensures old(status) == OK ==>
                match TakeVarint(old(Left()), 0)
                case Value(v, rest) => ok && value == v && Left() == rest && status == OK
                case Bad(reason) => !ok && status == reason
      ensures old(status) != OK ==> !ok && offset == old(offset) && status == old(status)
      ensures if ok then value < TWO_64 else status != OK
    {
      value := 0;
      if status != OK {
        return false, 0;
      }
      var built: nat, shift: nat, scale: nat := 0, 0, 1;
      ghost var groups: nat := 0;
      while true
        invariant Valid() && status == OK
        invariant shift == 7 * groups && groups <= 10 && (groups <= 9 ==> scale == Scale(groups) && built < scale)
        invariant Resumes(TakeVarint(old(Left()), 0), TakeVarint(Left(), groups), built, scale)
        decreases |data| - offset
      {
        if |data| - offset < 1 {
          Fail(TRUNCATED);
          return false, 0;
        }
        var byte := data[offset];
        assert Left()[0] == byte && Left()[1..] == data[offset + 1..];
        offset := offset + 1;
        if shift > 63 {
          Fail(INVALID_ENCODING);
          return false, 0;
        }
        AddGroup(built, byte, groups);
        built := (built + byte % 128 * scale) % TWO_64;
        if byte < 128 {
          return true, built;
        }
        ResumeAfter(TakeVarint(old(Left()), 0), TakeVarint(Left(), groups + 1), (built - Kept(byte, groups) * scale),
                    byte, groups);
        shift, scale, groups := shift + 7, 128 * scale, groups + 1;
      }
    }

    method ReadBytes(maxSize: nat) returns (ok: bool, value: Buffer)
      requires Valid()
      modifies this
      ensures Valid()
      ensures old(status) == OK ==>
                match TakeBytes(old(Left()), maxSize)
                case Taken(v, rest) => ok && value == v && Left() == rest && status == OK
                case NotTaken(reason) => !ok && status == reason
      ensures old(status) != OK ==> !ok && status == old(status)
      ensures if ok then |value| <= maxSize else status != OK
    {
      value := [];
      var length;
      ok, length := ReadVarint();
      if !ok {
        return false, [];
      }
      if length > maxSize {
        Fail(LIMIT_EXCEEDED);
        return false, [];
      }
      if |data| - offset < length {
        Fail(LENGTH_OVERRUN);
        return false, [];
      }
      value := data[offset..offset + length];
      assert Left()[..length] == value && Left()[length..] == data[offset + length..];
      offset := offset + length;
      ok := true;
    }

    method ReadBool() returns (ok: bool, value: bool)
      requires Valid()
      modifies this
      ensures Valid()
      ensures ok <==> old(status) == OK && |old(Left())| >= 1 && old(Left())[0] <= 1
      ensures ok ==> status == OK && value == (old(Left())[0] == 1) && Left() == old(Left())[1..]
      ensures !ok ==> status != OK
    {
      value := false;
      var raw;
      ok, raw := ReadInt(1);
      if !ok {
        return;
      }
      assert old(Left())[..1] == [old(Left())[0]];
      assert FromLittleEndian([old(Left())[0]]) == old(Left())[0];
      if raw > 1 {
        Fail(INVALID_ENCODING);
        return false, false;
      }
      value := raw == 1;
    }
  }
}
