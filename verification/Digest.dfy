/**
 * The 128-bit content digest: four 32-bit limbs, schoolbook multiplication that keeps
 * the low 128 bits, and a streaming interface over sixteen stored bytes.
 */
module Digest {
  import opened Bytes
  import opened Fnv

  const BASE: nat := 0x1_0000_0000
  const TWO_96: nat := 0x1_0000_0000_0000_0000_0000_0000
  const TWO_128: nat := 0x1_0000_0000_0000_0000_0000_0000_0000_0000

  type Limb = x: int | 0 <= x < 0x1_0000_0000

  /** The multiplier the limbs spell out. */
  const MULTIPLIER: nat := TWO_64 + 0x13b

  const PRIME_LIMBS: seq<Limb> := [0x13b, 0, 1, 0]
  const OFFSET_LIMBS: seq<Limb> := [0x6295c58d, 0x62b82175, 0x07bb0142, 0x6c62272e]

  /** The weight of limb k. */
  function Weight(k: nat): nat {
    match k
    case 0 => 1
    case 1 => BASE
    case 2 => TWO_64
    case 3 => TWO_96
    case _ => TWO_128
  }

  function Value(limbs: seq<Limb>): (v: nat)
    requires |limbs| == 4
    ensures v < TWO_128
  {
    limbs[0] as int + limbs[1] as int * BASE + limbs[2] as int * TWO_64 + limbs[3] as int * TWO_96
  }

  // ----- Limb arithmetic --------------------------------------------------------------------

  lemma {:induction false} LimbProduct(a: Limb, b: nat)
    ensures 0 <= a as int * b <= 0xFFFF_FFFF * b
  {
    if b > 0 {
      LimbProduct(a, b - 1);
      Distribute(b - 1, 1, a);
    }
  }

  /** The accumulator of one inner step never leaves 64 bits, and its carry is a limb. */
  lemma AccumulatorFits(out: Limb, state: Limb, prime: Limb, carry: Limb)
    ensures var current: int := out as int + state as int * prime as int + carry as int;
            0 <= current < TWO_64 && 0 <= current / BASE < BASE
  {
    LimbProduct(state, prime);
    assert out as int + state as int * prime as int + carry as int <= 0xFFFF_FFFF * 0xFFFF_FFFF + 2 * 0xFFFF_FFFF;
  }

  lemma ValueUpdate(limbs: seq<Limb>, k: nat, x: Limb)
    requires |limbs| == 4 && k < 4
    ensures Value(limbs[k := x]) == Value(limbs) + (x as int - limbs[k] as int) * Weight(k)
  {
  }

  /** Splitting an accumulator into limb and carry keeps its weighted value. */
  lemma SplitAccumulator(current: nat, k: nat)
    requires k < 4
    ensures current % BASE * Weight(k) + current / BASE * Weight(k + 1) == current * Weight(k)
  {
    var low, high := current % BASE, current / BASE;
    assert current == low + BASE * high;
    assert Weight(k + 1) == BASE * Weight(k);
    if k == 0 {
    } else if k == 1 {
    } else if k == 2 {
    } else {
    }
  }

  /** What row i contributes from its first j limbs. */
  function RowSum(state: seq<Limb>, i: nat, j: nat): nat
    requires |state| == 4 && i < 4 && i + j <= 4
  {
    if j == 0 then 0 else RowSum(state, i, j - 1) + state[j - 1] as int * PRIME_LIMBS[i] as int * Weight(i + j - 1)
  }

  function Rows(state: seq<Limb>, i: nat): nat
    requires |state| == 4 && i <= 4
  {
    if i == 0 then 0 else Rows(state, i - 1) + RowSum(state, i - 1, 4 - (i - 1))
  }

  lemma FirstRow(state: seq<Limb>)
    requires |state| == 4
    ensures RowSum(state, 0, 4) == 0x13b * Value(state)
  {
    var s0: int, s1: int, s2: int, s3: int := state[0], state[1], state[2], state[3];
    assert RowSum(state, 0, 1) == s0 * 0x13b;
    assert RowSum(state, 0, 2) == s0 * 0x13b + s1 * 0x13b * BASE;
    assert RowSum(state, 0, 3) == s0 * 0x13b + s1 * 0x13b * BASE + s2 * 0x13b * TWO_64;
    assert RowSum(state, 0, 4) == s0 * 0x13b + s1 * 0x13b * BASE + s2 * 0x13b * TWO_64 + s3 * 0x13b * TWO_96;
  }

  lemma {:induction false} ZeroRow(state: seq<Limb>, i: nat, j: nat)
    requires |state| == 4 && (i == 1 || i == 3) && i + j <= 4
    ensures RowSum(state, i, j) == 0
  {
    if j > 0 {
      ZeroRow(state, i, j - 1);
    }
  }

  lemma OtherRows(state: seq<Limb>)
    requires |state| == 4
    ensures RowSum(state, 1, 3) == 0 && RowSum(state, 3, 1) == 0
    ensures RowSum(state, 2, 2) == state[0] as int * TWO_64 + state[1] as int * TWO_96
  {
    var s0: int, s1: int := state[0], state[1];
    ZeroRow(state, 1, 3);
    ZeroRow(state, 3, 1);
    assert RowSum(state, 2, 0) == 0;
    assert RowSum(state, 2, 1) == s0 * TWO_64;
    assert RowSum(state, 2, 2) == RowSum(state, 2, 1) + s1 * Weight(3);
  }

  /** All rows together are the product, up to multiples of 2^128. */
  lemma RowsAreProduct(state: seq<Limb>)
    requires |state| == 4
    ensures Rows(state, 4) + (state[2] as int + state[3] as int * BASE) * TWO_128 == Value(state) * MULTIPLIER
  {
    FirstRow(state);
    OtherRows(state);
    assert Rows(state, 1) == RowSum(state, 0, 4) && Rows(state, 2) == Rows(state, 1);
    assert Rows(state, 3) == Rows(state, 2) + RowSum(state, 2, 2) && Rows(state, 4) == Rows(state, 3);
  }

  /** What adding one product to limb k does to the whole value, in plain integers. */
  lemma CarryMoves(value: int, moved: int, limb: int, low: int, added: int, up: int, weight: int, next: int)
    requires moved == value + (low - limb) * weight
    requires (limb + added) * weight == low * weight + up * next
    ensures moved + up * next == value + added * weight
  {
    Distribute(limb, added, weight);
    Distribute(low - limb, limb, weight);
  }

  lemma InnerStep(out: seq<Limb>, state: seq<Limb>, i: nat, j: nat, carry: Limb, before: nat)
    requires |out| == 4 && |state| == 4 && i < 4 && i + j < 4
    requires Value(out) + carry as int * Weight(i + j) == before + RowSum(state, i, j)
    ensures var current: int := out[i + j] as int + state[j] as int * PRIME_LIMBS[i] as int + carry as int;
            && 0 <= current < TWO_64 && 0 <= current / BASE < BASE
            && Value(out[i + j := current % BASE]) + current / BASE * Weight(i + j + 1)
                == before + RowSum(state, i, j + 1)
  {
    var k := i + j;
    AccumulatorFits(out[k], state[j], PRIME_LIMBS[i], carry);
    var limb: int, product: int, carried: int := out[k], state[j] as int * PRIME_LIMBS[i] as int, carry;
    var current := limb + (product + carried);
    var low := current % BASE;
    ValueUpdate(out, k, low);
    SplitAccumulator(current, k);
    CarryMoves(Value(out), Value(out[k := low]), limb, low, product + carried, current / BASE, Weight(k),
               Weight(k + 1));
    Distribute(product, carried, Weight(k));
  }

  /** One row: the inner loop with its carry. */
  method AddRow(out: array<Limb>, state: array<Limb>, i: nat) returns (carry: Limb)
    requires out.Length == 4 && state.Length == 4 && out != state && i < 4
    modifies out
    ensures Value(out[..]) + carry as int * TWO_128 == old(Value(out[..])) + RowSum(state[..], i, 4 - i)
  {
    carry := 0;
    ghost var s, before := state[..], Value(out[..]);
    for j := 0 to 4 - i
      invariant state[..] == s
      invariant Value(out[..]) + carry as int * Weight(i + j) == before + RowSum(s, i, j)
    {
      InnerStep(out[..], s, i, j, carry, before);
      ghost var limbs := out[..];
      var current: int := out[i + j] as int + state[j] as int * PRIME_LIMBS[i] as int + carry as int;
      out[i + j] := current % BASE;
      assert out[..] == limbs[i + j := out[i + j]];
      carry := current / BASE;
    }
  }

  /** `fnv_multiply`: times 2^64 + 0x13b modulo 2^128, without ever leaving 64 bits. */
  method FnvMultiply(state: array<Limb>)
    requires state.Length == 4
    modifies state
    ensures Value(state[..]) == old(Value(state[..])) * MULTIPLIER % TWO_128
  {
    var out := new Limb[4](_ => 0);
    ghost var s := state[..];
    ghost var lost: int := 0;
    assert Value(out[..]) == 0;
    for i := 0 to 4
      invariant state[..] == s && out != state
      invariant Value(out[..]) + lost * TWO_128 == Rows(s, i)
    {
      var carry := AddRow(out, state, i);
      lost := lost + carry;
    }
    RowsAreProduct(s);
    Remainder(Value(s) * MULTIPLIER, Value(out[..]), lost + s[2] as int + s[3] as int * BASE);
    label Filled:
    for i := 0 to 4
      invariant out != state && out[..] == old@Filled(out[..])
      invariant forall k | 0 <= k < i :: state[k] == out[k]
    {
      state[i] := out[i];
    }
    assert state[..] == out[..];
  }

  lemma Remainder(whole: nat, rest: nat, lost: int)
    requires rest < TWO_128 && whole == rest + lost * TWO_128
    ensures rest == whole % TWO_128
  {
  }

  // ----- Streaming ------------------------------------------------------------------------------

  /** One byte into the state, as a number. */
  function Absorb(state: nat, b: Byte): nat {
    Mix(state, b) * MULTIPLIER % TWO_128
  }

  function AbsorbAll(state: nat, data: Buffer): nat
    decreases |data|
  {
    if data == [] then state else Absorb(AbsorbAll(state, data[..|data| - 1]), data[|data| - 1])
  }

  /** Streaming: splitting the input anywhere changes nothing. */
  lemma {:induction false} Streaming(state: nat, a: Buffer, b: Buffer)
    ensures AbsorbAll(state, a + b) == AbsorbAll(AbsorbAll(state, a), b)
    decreases |b|
  {
    if b == [] {
      assert a + b == a;
    } else {
      Streaming(state, a, b[..|b| - 1]);
      assert (a + b)[..|a + b| - 1] == a + b[..|b| - 1];
    }
  }

  /** The exclusive or stays within the lowest limb. */
  function MixLimb(limb: Limb, b: Byte): Limb {
    Mix(limb, b)
  }

  lemma LowByte(limbs: seq<Limb>, b: Byte)
    requires |limbs| == 4
    ensures Value(limbs[0 := MixLimb(limbs[0], b)]) == Mix(Value(limbs), b)
  {
    var l0: int, l1: int, l2: int, l3: int := limbs[0], limbs[1], limbs[2], limbs[3];
    assert Value(limbs) == l0 + 256 * (l1 * 0x100_0000 + l2 * 0x100_0000_0000_0000
                                       + l3 * 0x100_0000_0000_0000_0000_0000);
    assert Value(limbs) % 256 == l0 % 256;
  }

  /** One round of the loop in `fnv_update`. */
  method UpdateByte(state: array<Limb>, b: Byte)
    requires state.Length == 4
    modifies state
    ensures Value(state[..]) == Absorb(old(Value(state[..])), b)
  {
    ghost var limbs := state[..];
    LowByte(limbs, b);
    state[0] := MixLimb(state[0], b);
    assert state[..] == limbs[0 := state[0]];
    FnvMultiply(state);
  }

  /** `fnv_update`. */
  method FnvUpdate(state: array<Limb>, data: Buffer)
    requires state.Length == 4
    modifies state
    ensures Value(state[..]) == AbsorbAll(old(Value(state[..])), data)
  {
    for i := 0 to |data|
      invariant Value(state[..]) == AbsorbAll(old(Value(state[..])), data[..i])
    {
      assert data[..i + 1][..i] == data[..i];
      UpdateByte(state, data[i]);
    }
    assert data[..|data|] == data;
  }

  // ----- The sixteen stored bytes ------------------------------------------------------------------

  /** The bytes of one limb, least significant first. */
  function Octets(limb: int): (bytes: Buffer)
    requires 0 <= limb < BASE
    ensures |bytes| == 4
  {
    [limb % 256, limb / 0x100 % 256, limb / 0x1_0000 % 256, limb / 0x100_0000]
  }

  /** What sixteen stored bytes stand for. */
  function Stored(bytes: Buffer): (v: nat)
    requires |bytes| == 16
    ensures v < TWO_128
  {
    Value(Rebuilt(bytes))
  }

  function Rebuilt(bytes: Buffer): (limbs: seq<Limb>)
    requires |bytes| == 16
    ensures |limbs| == 4
  {
    [Word(bytes, 0), Word(bytes, 4), Word(bytes, 8), Word(bytes, 12)]
  }

  function Word(bytes: Buffer, at: nat): Limb
    requires at + 4 <= |bytes|
  {
    bytes[at] as int + 256 * (bytes[at + 1] as int + 256 * (bytes[at + 2] as int + 256 * bytes[at + 3] as int))
  }

  lemma OctetsKeepTheLimb(limb: Limb)
    ensures Word(Octets(limb), 0) == limb
  {
    var a: int := limb as int / 256;
    var b := a / 256;
    assert limb as int / 0x1_0000 == b && limb as int / 0x100_0000 == b / 256;
  }

  /** A digest value: sixteen bytes that `update` folds more input into. */
  class DigestState {
    var bytes: Buffer

    ghost predicate Valid()
      reads this
    {
      |bytes| == 16
    }

    constructor (bytes: Buffer)
      requires |bytes| == 16
      ensures Valid() && this.bytes == bytes
    {
      this.bytes := bytes;
    }

    /** `Digest::update`: rebuild the limbs, absorb, write them back. */
    method Update(data: Buffer)
      requires Valid()
      modifies this
      ensures Valid()
      ensures Stored(bytes) == AbsorbAll(old(Stored(bytes)), data)
    {
      ghost var limbs := Rebuilt(bytes);
      var state := new Limb[4];
      state[0], state[1], state[2], state[3] := Word(bytes, 0), Word(bytes, 4), Word(bytes, 8), Word(bytes, 12);
      assert state[..] == limbs;
      FnvUpdate(state, data);
      bytes := Finalize(state);
    }
  }

  /** `fnv_finalize`. */
  method Finalize(state: array<Limb>) returns (bytes: Buffer)
    requires state.Length == 4
    ensures |bytes| == 16 && Rebuilt(bytes) == state[..]
  {
    bytes := [];
    for i := 0 to 4
      invariant |bytes| == 4 * i
      invariant forall k | 0 <= k < i :: Word(bytes, 4 * k) == state[k]
    {
      ghost var before := bytes;
      OctetsKeepTheLimb(state[i]);
      bytes := bytes + Octets(state[i]);
      forall k | 0 <= k < i + 1
        ensures Word(bytes, 4 * k) == state[k]
      {
        if k < i {
          assert Word(bytes, 4 * k) == Word(before, 4 * k);
        } else {
          assert Word(bytes, 4 * i) == Word(Octets(state[i]), 0);
        }
      }
    }
    assert Word(bytes, 0) == Word(bytes, 4 * 0) && Word(bytes, 4) == Word(bytes, 4 * 1);
    assert Word(bytes, 8) == Word(bytes, 4 * 2) && Word(bytes, 12) == Word(bytes, 4 * 3);
  }

  /** `Digest::of`: from the offset basis. */
  method DigestOf(data: Buffer) returns (bytes: Buffer)
    ensures |bytes| == 16 && Stored(bytes) == AbsorbAll(Value(OFFSET_LIMBS), data)
  {
    var state := new Limb[4](i requires 0 <= i < 4 => OFFSET_LIMBS[i]);
    assert state[..] == OFFSET_LIMBS;
    FnvUpdate(state, data);
    bytes := Finalize(state);
  }

  lemma Digits(a: nat, b: nat, c: nat, d: nat, base: nat)
    requires a < base && c < base && a + base * b == c + base * d
    ensures a == c && b == d
  {
    if b < d {
      Distribute(b, d - b, base);
      LessByOne(d - b, base);
    } else if d < b {
      Distribute(d, b - d, base);
      LessByOne(b - d, base);
    }
  }

  lemma LessByOne(n: nat, base: nat)
    requires n >= 1
    ensures n * base >= base
  {
    Distribute(n - 1, 1, base);
    assert (n - 1) * base >= 0;
  }

  lemma WordInjective(a: Buffer, b: Buffer, at: nat)
    requires at + 4 <= |a| && at + 4 <= |b| && Word(a, at) == Word(b, at)
    ensures a[at..at + 4] == b[at..at + 4]
  {
    Digits(a[at], a[at + 1] as int + 256 * (a[at + 2] as int + 256 * a[at + 3] as int),
           b[at], b[at + 1] as int + 256 * (b[at + 2] as int + 256 * b[at + 3] as int), 256);
    Digits(a[at + 1], a[at + 2] as int + 256 * a[at + 3] as int, b[at + 1], b[at + 2] as int + 256 * b[at + 3] as int,
           256);
    Digits(a[at + 2], a[at + 3], b[at + 2], b[at + 3], 256);
  }

  /** The sixteen bytes lose nothing of the limbs. */
  lemma RebuiltInjective(a: Buffer, b: Buffer)
    requires |a| == 16 && |b| == 16 && Rebuilt(a) == Rebuilt(b)
    ensures a == b
  {
    SameWord(a, b, 0);
    SameWord(a, b, 1);
    SameWord(a, b, 2);
    SameWord(a, b, 3);
    assert a == a[0..4] + a[4..8] + a[8..12] + a[12..16];
    assert b == b[0..4] + b[4..8] + b[8..12] + b[12..16];
  }

  lemma SameWord(a: Buffer, b: Buffer, k: nat)
    requires |a| == 16 && |b| == 16 && k < 4 && Rebuilt(a) == Rebuilt(b)
    ensures a[4 * k..4 * k + 4] == b[4 * k..4 * k + 4]
  {
    assert Rebuilt(a)[k] == Rebuilt(b)[k];
    assert Word(a, 4 * k) == Rebuilt(a)[k] && Word(b, 4 * k) == Rebuilt(b)[k];
    WordInjective(a, b, 4 * k);
  }

  /** Different limbs are different numbers. */
  lemma ValueInjective(a: seq<Limb>, b: seq<Limb>)
    requires |a| == 4 && |b| == 4 && Value(a) == Value(b)
    ensures a == b
  {
    var l0: nat, l1: nat, l2: nat, l3: nat := a[0], a[1], a[2], a[3];
    var m0: nat, m1: nat, m2: nat, m3: nat := b[0], b[1], b[2], b[3];
    Digits(l0, l1 + BASE * (l2 + BASE * l3), m0, m1 + BASE * (m2 + BASE * m3), BASE);
    Digits(l1, l2 + BASE * l3, m1, m2 + BASE * m3, BASE);
    Digits(l2, l3, m2, m3, BASE);
  }

  /** Two updates are one update with the bytes joined, down to the stored bytes. */
  method UpdateTwice(one: DigestState, two: DigestState, a: Buffer, b: Buffer)
    requires one.Valid() && two.Valid() && one != two && one.bytes == two.bytes
    modifies one, two
    ensures one.Valid() && two.Valid() && one.bytes == two.bytes
  {
    one.Update(a);
    one.Update(b);
    two.Update(a + b);
    Streaming(old(Stored(one.bytes)), a, b);
    ValueInjective(Rebuilt(one.bytes), Rebuilt(two.bytes));
    RebuiltInjective(one.bytes, two.bytes);
  }
}
