/**
 CRC-16/CCITT-FALSE (polynomial 0x1021, initial value 0xFFFF, no reflection), its byte loop,
 and the algebra behind its error detection: the bit step is linear, injective, keeps the
 parity of the register, and has no short cycle.
 */
module Crc16 {
  import opened Bytes

  // ---- the register -----------------------------------------------------------

  type reg = bv16

  function Xor(a: reg, b: reg): reg {
    a ^ b
  }

  /** One round of the inner loop. */
  function Step(v: reg): reg {
    if v & 0x8000 != 0 then (v << 1) ^ 0x1021 else v << 1
  }

  function StepN(n: nat, v: reg): reg {
    if n == 0 then v else StepN(n - 1, Step(v))
  }

  /** A data byte in the top half of the register. */
  function Lift(b: byte): reg {
    (b as bv8) as bv16 << 8
  }

  /** One round of the outer loop: xor the byte into the top half, then eight steps. */
  function FeedByte(v: reg, b: byte): reg {
    StepN(8, Xor(v, Lift(b)))
  }

  function FeedBytes(v: reg, data: seq<byte>): reg {
    if data == [] then v else FeedByte(FeedBytes(v, data[..|data| - 1]), data[|data| - 1])
  }

  function Crc(data: seq<byte>): reg {
    FeedBytes(0xFFFF, data)
  }

  method StepBit(crc: reg) returns (next: reg)
    ensures next == Step(crc)
  {
    next := if crc & 0x8000 != 0 then (crc << 1) ^ 0x1021 else crc << 1;
  }

  /** The firmware's two nested loops, over the first `length` bytes of the buffer. */
  method Crc16CcittFalse(data: array<byte>, length: nat) returns (crc: reg)
    requires length <= data.Length
    ensures crc == Crc(data[..length])
  {
    hide Step, Xor, Lift;
    crc := 0xFFFF;
    for i := 0 to length
      invariant crc == Crc(data[..i])
    {
      crc := Xor(crc, Lift(data[i]));
      ghost var start := crc;
      for bit := 0 to 8
        invariant StepN(8 - bit, crc) == StepN(8, start)
      {
        crc := StepBit(crc);
      }
      assert data[..i + 1][..i] == data[..i];
    }
  }

  // ---- the two bytes of a register ---------------------------------------------

  function HighByte(v: reg): byte {
    ((v >> 8) as bv8) as int
  }

  function LowByte(v: reg): byte {
    ((v & 0xFF) as bv8) as int
  }

  /** read_u16_be on two bytes. */
  function Join(hi: byte, lo: byte): reg {
    ((hi as bv8) as bv16 << 8) | (lo as bv8) as bv16
  }

  lemma ByteOfBits(b: bv8)
    ensures (b as int) as bv8 == b
  {
  }

  lemma BitsOfByte(b: byte)
    ensures (b as bv8) as int == b
  {
    if b < 16 {
    } else if b < 32 {
    } else if b < 64 {
    } else if b < 128 {
    }
  }

  lemma SplitJoin(v: reg)
    ensures Join(HighByte(v), LowByte(v)) == v
  {
    ByteOfBits((v >> 8) as bv8);
    ByteOfBits((v & 0xFF) as bv8);
  }

  lemma JoinHalves(h: bv8, l: bv8)
    ensures ((((h as bv16 << 8) | l as bv16) >> 8) as bv8) == h
    ensures ((((h as bv16 << 8) | l as bv16) & 0xFF) as bv8) == l
  {
  }

  lemma JoinSplit(hi: byte, lo: byte)
    ensures HighByte(Join(hi, lo)) == hi && LowByte(Join(hi, lo)) == lo
  {
    BitsOfByte(hi);
    BitsOfByte(lo);
    JoinHalves(hi as bv8, lo as bv8);
  }

  // ---- linearity and injectivity -------------------------------------------------

  lemma BitXorLaws(a: reg, b: reg, c: reg)
    ensures a ^ b == b ^ a && a ^ (b ^ c) == (a ^ b) ^ c && a ^ 0 == a && a ^ a == 0
  {
  }

  lemma XorLaws(a: reg, b: reg, c: reg)
    ensures Xor(a, b) == Xor(b, a)
    ensures Xor(a, Xor(b, c)) == Xor(Xor(a, b), c)
    ensures Xor(a, 0) == a && Xor(a, a) == 0
  {
    BitXorLaws(a, b, c);
  }

  lemma XorZero(a: reg, b: reg)
    ensures Xor(a, b) == 0 <==> a == b
  {
    hide Xor;
    XorLaws(a, a, b);
    XorLaws(b, 0, 0);
  }

  lemma TopBit(a: reg)
    ensures a & 0x8000 == 0 || a & 0x8000 == 0x8000
  {
  }

  lemma StepLinear(a: reg, b: reg)
    ensures Step(Xor(a, b)) == Xor(Step(a), Step(b))
  {
    assert (a ^ b) << 1 == (a << 1) ^ (b << 1);
    assert (a ^ b) & 0x8000 == (a & 0x8000) ^ (b & 0x8000);
    TopBit(a);
    TopBit(b);
  }

  lemma StepZero(a: reg)
    ensures Step(a) == 0 <==> a == 0
  {
  }

  lemma {:induction false} StepNLinear(n: nat, a: reg, b: reg)
    ensures StepN(n, Xor(a, b)) == Xor(StepN(n, a), StepN(n, b))
  {
    hide Step, Xor;
    if n > 0 {
      StepLinear(a, b);
      StepNLinear(n - 1, Step(a), Step(b));
    }
  }

  lemma {:induction false} StepNZero(n: nat, a: reg)
    ensures StepN(n, a) == 0 <==> a == 0
  {
    hide Step;
    if n > 0 {
      StepZero(a);
      StepNZero(n - 1, Step(a));
    }
  }

  /** Different registers stay different, whatever the number of steps. */
  lemma StepNInjective(n: nat, a: reg, b: reg)
    requires StepN(n, a) == StepN(n, b)
    ensures a == b
  {
    hide *;
    StepNLinear(n, a, b);
    XorZero(StepN(n, a), StepN(n, b));
    StepNZero(n, Xor(a, b));
    XorZero(a, b);
  }

  lemma {:induction false} StepNAdd(m: nat, n: nat, v: reg)
    ensures StepN(m + n, v) == StepN(n, StepN(m, v))
  {
    hide Step;
    if m > 0 {
      StepNAdd(m - 1, n, Step(v));
    }
  }

  /** The step can be taken last as well as first. */
  lemma StepLast(n: nat, v: reg)
    ensures StepN(n + 1, v) == Step(StepN(n, v))
  {
    hide Step;
    StepNAdd(n, 1, v);
  }

  // ---- the same checksum bit by bit ------------------------------------------------

  /** The bits of a byte as they go on the wire, most significant first. */
  function BitsOf(b: byte): (s: seq<bool>)
    ensures |s| == 8
  {
    var v := b as bv8;
    [v & 0x80 != 0, v & 0x40 != 0, v & 0x20 != 0, v & 0x10 != 0,
     v & 0x08 != 0, v & 0x04 != 0, v & 0x02 != 0, v & 0x01 != 0]
  }

  function Bits(data: seq<byte>): (s: seq<bool>)
    ensures |s| == 8 * |data|
  {
    if data == [] then [] else Bits(data[..|data| - 1]) + BitsOf(data[|data| - 1])
  }

  function Pick(bit: bool, v: reg): reg {
    if bit then v else 0
  }

  function FeedBits(v: reg, bits: seq<bool>): reg {
    if bits == [] then v
    else Step(Xor(FeedBits(v, bits[..|bits| - 1]), Pick(bits[|bits| - 1], 0x8000)))
  }

  lemma {:induction false} FeedBitsAppend(v: reg, a: seq<bool>, b: seq<bool>)
    ensures FeedBits(v, a + b) == FeedBits(FeedBits(v, a), b)
  {
    hide Step, Xor, Pick;
    if b == [] {
      assert a + b == a;
    } else {
      assert (a + b)[..|a + b| - 1] == a + b[..|b| - 1];
      FeedBitsAppend(v, a, b[..|b| - 1]);
    }
  }

  /** The register with only bit 15 - n set. */
  function Single(n: nat): reg
    requires n < 16
  {
    [0x8000, 0x4000, 0x2000, 0x1000, 0x0800, 0x0400, 0x0200, 0x0100,
     0x0080, 0x0040, 0x0020, 0x0010, 0x0008, 0x0004, 0x0002, 0x0001][n]
  }

  lemma SingleStep(n: nat)
    requires 1 <= n < 16
    ensures Step(Single(n)) == Single(n - 1)
  {
  }

  lemma {:induction false} SingleSteps(n: nat)
    requires n < 16
    ensures StepN(n, Single(n)) == 0x8000
  {
    hide Step;
    if n > 0 {
      SingleStep(n);
      SingleSteps(n - 1);
    }
  }

  /** Up to 16 bits packed into a register, the first one on top. */
  function Pack(bits: seq<bool>): reg
    requires |bits| <= 16
  {
    if bits == [] then 0
    else Xor(Pack(bits[..|bits| - 1]), Pick(bits[|bits| - 1], Single(|bits| - 1)))
  }

  lemma PickSteps(bit: bool, n: nat)
    requires n < 16
    ensures StepN(n, Pick(bit, Single(n))) == Pick(bit, 0x8000)
  {
    hide Step, Single;
    SingleSteps(n);
    StepNZero(n, 0);
  }

  /** Feeding up to 16 bits one at a time is xoring them in at once and stepping. */
  lemma {:induction false} FeedPacked(v: reg, bits: seq<bool>)
    requires |bits| <= 16
    ensures FeedBits(v, bits) == StepN(|bits|, Xor(v, Pack(bits)))
  {
    hide Step, Xor, Pick, Single, StepN;
    if bits == [] {
      XorLaws(v, v, v);
      StepNone(v);
    } else {
      var n := |bits| - 1;
      var p, last := Pack(bits[..n]), Pick(bits[n], Single(n));
      FeedPacked(v, bits[..n]);
      PickSteps(bits[n], n);
      StepNLinear(n, Xor(v, p), last);
      XorLaws(v, p, last);
      StepLast(n, Xor(v, Pack(bits)));
    }
  }

  lemma StepNone(v: reg)
    ensures StepN(0, v) == v
  {
  }

  lemma PickAll(b: byte)
    ensures var s := BitsOf(b);
      Xor(Xor(Xor(Xor(Xor(Xor(Xor(Xor(0, Pick(s[0], 0x8000)), Pick(s[1], 0x4000)), Pick(s[2], 0x2000)),
      Pick(s[3], 0x1000)), Pick(s[4], 0x0800)), Pick(s[5], 0x0400)), Pick(s[6], 0x0200)), Pick(s[7], 0x0100))
      == Lift(b)
  {
  }

  lemma PackNext(s: seq<bool>, n: nat)
    requires n < |s| && n < 16
    ensures Pack(s[..n + 1]) == Xor(Pack(s[..n]), Pick(s[n], Single(n)))
  {
    hide Xor, Pick, Single;
    assert s[..n + 1][..n] == s[..n];
  }

  /** Packing the eight bits of a byte puts it in the top half of the register. */
  lemma PackByte(b: byte)
    ensures Pack(BitsOf(b)) == Lift(b)
  {
    hide Pack, Pick, Xor, BitsOf, Lift;
    var s := BitsOf(b);
    assert s[..8] == s && s[..0] == [];
    PackNext(s, 0);
    PackNext(s, 1);
    PackNext(s, 2);
    PackNext(s, 3);
    PackNext(s, 4);
    PackNext(s, 5);
    PackNext(s, 6);
    PackNext(s, 7);
    PackNone();
    PickAll(b);
  }

  lemma PackNone()
    ensures Pack([]) == 0
  {
  }

  /** The byte loop computes the bitwise checksum of the bits in wire order. */
  lemma {:induction false} BytesAreBits(v: reg, data: seq<byte>)
    ensures FeedBytes(v, data) == FeedBits(v, Bits(data))
  {
    hide Step, Xor, Pick, Pack, StepN, Lift, BitsOf, FeedBits;
    if data == [] {
      FeedNone(v);
    } else {
      var n := |data| - 1;
      BytesAreBits(v, data[..n]);
      FeedBitsAppend(v, Bits(data[..n]), BitsOf(data[n]));
      FeedPacked(FeedBytes(v, data[..n]), BitsOf(data[n]));
      PackByte(data[n]);
    }
  }

  lemma FeedNone(v: reg)
    ensures FeedBits(v, []) == v
  {
  }

  lemma FeedOne(v: reg, bit: bool)
    ensures FeedBits(v, [bit]) == Step(Xor(v, Pick(bit, 0x8000)))
  {
    hide Step, Xor, Pick;
    assert [bit][..0] == [];
  }

  /** Feeding a register its own two bytes clears it. */
  lemma OwnBytesClear(v: reg)
    ensures FeedByte(FeedByte(v, HighByte(v)), LowByte(v)) == 0
  {
    hide Step, Xor, Lift, StepN, HighByte, LowByte;
    var hi, lo, low := Lift(HighByte(v)), Lift(LowByte(v)), v & 0xFF;
    LowLift(v);
    StepNLinear(8, Xor(v, hi), low);
    HalvesCancel(v);
    StepNAdd(8, 8, 0);
    StepNZero(8, 0);
  }

  lemma LowLift(v: reg)
    ensures StepN(8, v & 0xFF) == Lift(LowByte(v))
  {
    hide StepN;
    Step8IsStepN(v & 0xFF);
    ByteOfBits((v & 0xFF) as bv8);
  }

  lemma HalvesCancel(v: reg)
    ensures Xor(Xor(v, Lift(HighByte(v))), v & 0xFF) == 0
  {
    ByteOfBits((v >> 8) as bv8);
  }

  /** Equal bits are equal bytes. */
  lemma BitsOfInjective(a: byte, b: byte)
    requires BitsOf(a) == BitsOf(b)
    ensures a == b
  {
    BitsOfByte(a);
    BitsOfByte(b);
    var s, t := BitsOf(a), BitsOf(b);
    assert s[0] == t[0] && s[1] == t[1] && s[2] == t[2] && s[3] == t[3];
    assert s[4] == t[4] && s[5] == t[5] && s[6] == t[6] && s[7] == t[7];
    SameBits(a as bv8, b as bv8);
  }

  lemma SameBits(a: bv8, b: bv8)
    requires (a & 0x80 != 0) == (b & 0x80 != 0) && (a & 0x40 != 0) == (b & 0x40 != 0)
    requires (a & 0x20 != 0) == (b & 0x20 != 0) && (a & 0x10 != 0) == (b & 0x10 != 0)
    requires (a & 0x08 != 0) == (b & 0x08 != 0) && (a & 0x04 != 0) == (b & 0x04 != 0)
    requires (a & 0x02 != 0) == (b & 0x02 != 0) && (a & 0x01 != 0) == (b & 0x01 != 0)
    ensures a == b
  {
  }

  lemma {:induction false} BitsInjective(a: seq<byte>, b: seq<byte>)
    requires Bits(a) == Bits(b)
    ensures a == b
  {
    hide BitsOf;
    assert |a| == |b|;
    if a != [] {
      var n := |a| - 1;
      assert Bits(a)[..8 * n] == Bits(a[..n]) && Bits(b)[..8 * n] == Bits(b[..n]);
      assert Bits(a)[8 * n..] == BitsOf(a[n]) && Bits(b)[8 * n..] == BitsOf(b[n]);
      BitsInjective(a[..n], b[..n]);
      BitsOfInjective(a[n], b[n]);
    }
  }

  // ---- error patterns ------------------------------------------------------------

  /** Where two equally long bit strings differ. */
  function Diff(a: seq<bool>, b: seq<bool>): (d: seq<bool>)
    requires |a| == |b|
    ensures |d| == |a| && forall i :: 0 <= i < |a| ==> (d[i] <==> a[i] != b[i])
  {
    seq(|a|, i requires 0 <= i < |a| => a[i] != b[i])
  }

  lemma XorSwap(a: reg, b: reg, c: reg, d: reg)
    ensures Xor(Xor(a, b), Xor(c, d)) == Xor(Xor(a, c), Xor(b, d))
  {
    hide Xor;
    XorLaws(Xor(a, b), c, d);
    XorLaws(a, b, c);
    XorLaws(b, c, 0);
    XorLaws(a, c, b);
    XorLaws(Xor(a, c), b, d);
  }

  lemma PickDiff(a: bool, b: bool, v: reg)
    ensures Xor(Pick(a, v), Pick(b, v)) == Pick(a != b, v)
  {
    hide Xor;
    XorLaws(v, 0, 0);
    XorLaws(0, v, 0);
    XorLaws(0, 0, 0);
  }

  /** Linearity of the whole checksum: the difference of two runs is a run over the difference. */
  lemma {:induction false} FeedDiff(u: reg, v: reg, a: seq<bool>, b: seq<bool>)
    requires |a| == |b|
    ensures Xor(FeedBits(u, a), FeedBits(v, b)) == FeedBits(Xor(u, v), Diff(a, b))
  {
    hide Step, Xor, Pick;
    if a != [] {
      var n := |a| - 1;
      FeedDiff(u, v, a[..n], b[..n]);
      assert Diff(a, b)[..n] == Diff(a[..n], b[..n]);
      var x, y := FeedBits(u, a[..n]), FeedBits(v, b[..n]);
      var s, t := Pick(a[n], 0x8000), Pick(b[n], 0x8000);
      StepLinear(Xor(x, s), Xor(y, t));
      XorSwap(x, s, y, t);
      PickDiff(a[n], b[n], 0x8000);
    }
  }

  lemma PickNot(v: reg)
    ensures Xor(v, Pick(false, 0x8000)) == v
  {
  }

  lemma {:induction false} FeedQuiet(v: reg, bits: seq<bool>)
    requires forall i :: 0 <= i < |bits| ==> !bits[i]
    ensures FeedBits(v, bits) == StepN(|bits|, v)
  {
    hide Step, Xor, Pick, StepN;
    if bits == [] {
      StepNone(v);
    } else {
      var n := |bits| - 1;
      FeedQuiet(v, bits[..n]);
      PickNot(FeedBits(v, bits[..n]));
      StepLast(n, v);
    }
  }

  lemma LeadKept(v: reg, bit: bool, n: nat)
    requires 1 <= n < 16
    ensures Xor(v, Pick(bit, Single(n))) & 0x8000 == v & 0x8000
  {
    assert Single(n) & 0x8000 == 0;
  }

  /** The first bit fed stays visible on top of the packed register. */
  lemma {:induction false} PackLead(bits: seq<bool>)
    requires 1 <= |bits| <= 16 && bits[0]
    ensures Pack(bits) & 0x8000 == 0x8000
  {
    hide Xor, Pick, Single;
    var n := |bits| - 1;
    if n > 0 {
      PackLead(bits[..n]);
      LeadKept(Pack(bits[..n]), bits[n], n);
    } else {
      assert bits[..0] == [];
      assert Xor(0, Pick(true, Single(0))) == 0x8000 by {
        PickTop();
      }
    }
  }

  lemma PickTop()
    ensures Xor(0, Pick(true, Single(0))) == 0x8000
  {
  }

  /** Any error pattern whose span is at most 16 bits leaves a non-zero register. */
  lemma BurstDetected(e: seq<bool>, first: nat, width: nat)
    requires first + width <= |e| && 1 <= width <= 16
    requires e[first] && forall i :: 0 <= i < |e| && e[i] ==> first <= i < first + width
    ensures FeedBits(0, e) != 0
  {
    hide Step, Xor, Pick, StepN, FeedBits, Pack;
    var a, w, z := e[..first], e[first..first + width], e[first + width..];
    assert e == a + w + z;
    FeedBitsAppend(0, a + w, z);
    FeedBitsAppend(0, a, w);
    FeedQuiet(0, a);
    StepNZero(first, 0);
    FeedPacked(0, w);
    PackLead(w);
    XorLaws(Pack(w), 0, 0);
    StepNZero(width, Pack(w));
    FeedQuiet(FeedBits(0, w), z);
    StepNZero(|z|, FeedBits(0, w));
  }

  // ---- parity: 0x11021 is divisible by x + 1 ----------------------------------------

  predicate Meets(v: reg, mask: reg) {
    v & mask != 0
  }

  predicate HasBit(v: reg, n: nat)
    requires n < 16
  {
    Meets(v, Single(n))
  }

  /** Whether an odd number of the `n` top register bits is set. */
  predicate OddTop(v: reg, n: nat)
    requires n <= 16
  {
    n > 0 && OddTop(v, n - 1) != HasBit(v, n - 1)
  }

  predicate Odd(v: reg) {
    OddTop(v, 16)
  }

  lemma MeetsXor(a: reg, b: reg, m: reg)
    requires m & (m - 1) == 0
    ensures Meets(a ^ b, m) == (Meets(a, m) != Meets(b, m))
  {
  }

  lemma SingleIsOneBit(n: nat)
    requires n < 16
    ensures Single(n) & (Single(n) - 1) == 0
  {
  }

  lemma HasBitLinear(a: reg, b: reg, n: nat)
    requires n < 16
    ensures HasBit(Xor(a, b), n) == (HasBit(a, n) != HasBit(b, n))
  {
    hide Meets, Single;
    SingleIsOneBit(n);
    MeetsXor(a, b, Single(n));
  }

  lemma {:induction false} OddTopLinear(a: reg, b: reg, n: nat)
    requires n <= 16
    ensures OddTop(Xor(a, b), n) == (OddTop(a, n) != OddTop(b, n))
  {
    hide Xor, HasBit;
    if n > 0 {
      OddTopLinear(a, b, n - 1);
      HasBitLinear(a, b, n - 1);
    }
  }

  lemma OddLinear(a: reg, b: reg)
    ensures Odd(Xor(a, b)) == (Odd(a) != Odd(b))
  {
    OddTopLinear(a, b, 16);
  }

  lemma MeetsShift(v: reg, m: reg)
    requires m & 0x8000 == 0
    ensures Meets(v << 1, m << 1) == Meets(v, m)
    ensures !Meets(v << 1, 1)
  {
  }

  lemma SingleDoubles(n: nat)
    requires n < 16
    ensures n < 15 ==> Single(n) == Single(n + 1) << 1 && Single(n + 1) & 0x8000 == 0
    ensures n == 15 ==> Single(n) == 1
  {
  }

  lemma HasBitShift(v: reg, n: nat)
    requires n < 16
    ensures HasBit(v << 1, n) == (n < 15 && HasBit(v, n + 1))
  {
    hide Meets, Single;
    SingleDoubles(n);
    MeetsShift(v, if n < 15 then Single(n + 1) else 0);
  }

  lemma {:induction false} OddTopShift(v: reg, n: nat)
    requires n <= 15
    ensures OddTop(v << 1, n) == (OddTop(v, n + 1) != HasBit(v, 0))
  {
    hide HasBit;
    if n > 0 {
      OddTopShift(v, n - 1);
      HasBitShift(v, n - 1);
    }
  }

  lemma OddShift(v: reg)
    ensures Odd(v << 1) == (Odd(v) != (v & 0x8000 != 0))
  {
    OddTopShift(v, 15);
    HasBitShift(v, 15);
    assert HasBit(v, 0) == (v & 0x8000 != 0);
  }

  lemma OddStep(v: reg)
    ensures Odd(Step(v)) == Odd(v)
  {
    hide Odd;
    OddShift(v);
    if v & 0x8000 != 0 {
      OddLinear(v << 1, 0x1021);
      OddConstants();
    }
  }

  lemma OddConstants()
    ensures Odd(0x1021) && Odd(0x8000) && !Odd(0)
  {
    OddLinear(0, 0);
    assert Xor(0, 0) == 0;
    OddSingle(0, 16);
    OddSingle(3, 16);
    OddSingle(10, 16);
    OddSingle(15, 16);
    OddLinear(Single(3), Single(10));
    OddLinear(Xor(Single(3), Single(10)), Single(15));
    assert Xor(Xor(Single(3), Single(10)), Single(15)) == 0x1021;
  }

  lemma {:induction false} OddSingle(k: nat, n: nat)
    requires k < 16 && n <= 16
    ensures OddTop(Single(k), n) <==> n > k
  {
    hide HasBit, Single;
    if n > 0 {
      OddSingle(k, n - 1);
      SinglesDiffer(k, n - 1);
    }
  }

  lemma SinglesDiffer(k: nat, n: nat)
    requires k < 16 && n < 16
    ensures HasBit(Single(k), n) <==> n == k
  {
  }

  function CountSet(bits: seq<bool>): nat {
    if bits == [] then 0 else CountSet(bits[..|bits| - 1]) + if bits[|bits| - 1] then 1 else 0
  }

  /** The register's parity is the parity of the number of one bits fed. */
  lemma {:induction false} ParityKept(bits: seq<bool>)
    ensures Odd(FeedBits(0, bits)) <==> CountSet(bits) % 2 == 1
  {
    hide Step, Xor, Odd;
    OddConstants();
    if bits != [] {
      var n := |bits| - 1;
      ParityKept(bits[..n]);
      var v, p := FeedBits(0, bits[..n]), Pick(bits[n], 0x8000);
      OddStep(Xor(v, p));
      OddLinear(v, p);
    }
  }

  // ---- no short cycle -------------------------------------------------------------

  function Step8(v: reg): reg {
    Step(Step(Step(Step(Step(Step(Step(Step(v))))))))
  }

  predicate Mixed(v: reg) {
    v & (v - 1) != 0
  }

  /** Every register reached from `v` by 16, 32, .. 16 * n steps has at least two bits set. */
  predicate AvoidsSingle(v: reg, n: nat)
    decreases n
  {
    n == 0 || (Mixed(Step8(Step8(v))) && AvoidsSingle(Step8(Step8(v)), n - 1))
  }

  lemma Leap(v: reg, w: reg, n: nat)
    requires Step8(Step8(v)) == w && Mixed(w) && AvoidsSingle(w, n)
    ensures AvoidsSingle(v, n + 1)
  {
    hide Step8, Mixed;
  }

  lemma Step8IsStepN(v: reg)
    ensures Step8(v) == StepN(8, v)
  {
    hide Step;
    var a := Step(Step(v));
    var b := Step(Step(a));
    var c := Step(Step(b));
    StepNone(Step(Step(c)));
    assert StepN(1, Step(c)) == StepN(0, Step(Step(c)));
    assert StepN(2, c) == Step(Step(c));
    assert StepN(4, b) == StepN(3, Step(b)) == StepN(2, c);
    assert StepN(6, a) == StepN(5, Step(a)) == StepN(4, b);
    assert StepN(8, v) == StepN(7, Step(v)) == StepN(6, a);
  }

  lemma Leaps60()
    ensures AvoidsSingle(0xD24C, 10)
  {
    Leap(0xA2A0, 0xCEF6, 0);
    Leap(0x71C4, 0xA2A0, 1);
    Leap(0x18D3, 0x71C4, 2);
    Leap(0xF147, 0x18D3, 3);
    Leap(0x36FB, 0xF147, 4);
    Leap(0x36C4, 0x36FB, 5);
    Leap(0xB5B7, 0x36C4, 6);
    Leap(0x2DA7, 0xB5B7, 7);
    Leap(0xFA0D, 0x2DA7, 8);
    Leap(0xD24C, 0xFA0D, 9);
  }

  lemma Leaps50()
    ensures AvoidsSingle(0xACFD, 20)
  {
    Leaps60();
    Leap(0x6D7D, 0xD24C, 10);
    Leap(0x60BC, 0x6D7D, 11);
    Leap(0x4347, 0x60BC, 12);
    Leap(0xCBC5, 0x4347, 13);
    Leap(0x701D, 0xCBC5, 14);
    Leap(0x52CC, 0x701D, 15);
    Leap(0xF4E7, 0x52CC, 16);
    Leap(0x0447, 0xF4E7, 17);
    Leap(0x66A1, 0x0447, 18);
    Leap(0xACFD, 0x66A1, 19);
  }

  lemma Leaps40()
    ensures AvoidsSingle(0xDA35, 30)
  {
    Leaps50();
    Leap(0x9E3A, 0xACFD, 20);
    Leap(0x106F, 0x9E3A, 21);
    Leap(0xDC8D, 0x106F, 22);
    Leap(0x2BBA, 0xDC8D, 23);
    Leap(0x15B7, 0x2BBA, 24);
    Leap(0x87B3, 0x15B7, 25);
    Leap(0x0D0F, 0x87B3, 26);
    Leap(0xEEFD, 0x0D0F, 27);
    Leap(0x9C1A, 0xEEFD, 28);
    Leap(0xDA35, 0x9C1A, 29);
  }

  lemma Leaps30()
    ensures AvoidsSingle(0xA55E, 40)
  {
    Leaps40();
    Leap(0x910F, 0xDA35, 30);
    Leap(0xF33E, 0x910F, 31);
    Leap(0x8420, 0xF33E, 32);
    Leap(0x8832, 0x8420, 33);
    Leap(0x6019, 0x8832, 34);
    Leap(0x1648, 0x6019, 35);
    Leap(0x78B3, 0x1648, 36);
    Leap(0x13FC, 0x78B3, 37);
    Leap(0x59B0, 0x13FC, 38);
    Leap(0xA55E, 0x59B0, 39);
  }

  lemma Leaps20()
    ensures AvoidsSingle(0x26AA, 50)
  {
    Leaps30();
    Leap(0x9FE5, 0xA55E, 40);
    Leap(0x2535, 0x9FE5, 41);
    Leap(0x8FFC, 0x2535, 42);
    Leap(0x4473, 0x8FFC, 43);
    Leap(0xBD64, 0x4473, 44);
    Leap(0xCDE2, 0xBD64, 45);
    Leap(0xD423, 0xCDE2, 46);
    Leap(0x6A8A, 0xD423, 47);
    Leap(0xB8E0, 0x6A8A, 48);
    Leap(0x26AA, 0xB8E0, 49);
  }

  lemma Leaps10()
    ensures AvoidsSingle(0xDE1F, 60)
  {
    Leaps20();
    Leap(0xF44B, 0x26AA, 50);
    Leap(0x6735, 0xF44B, 51);
    Leap(0x8DDC, 0x6735, 52);
    Leap(0x8E29, 0x8DDC, 53);
    Leap(0xF0E6, 0x8E29, 54);
    Leap(0x1566, 0xF0E6, 55);
    Leap(0x45B4, 0x1566, 56);
    Leap(0x650B, 0x45B4, 57);
    Leap(0xD5F6, 0x650B, 58);
    Leap(0xDE1F, 0xD5F6, 59);
  }

  lemma Leaps0()
    ensures AvoidsSingle(0x0001, 70)
  {
    Leaps10();
    Leap(0x10E2, 0xDE1F, 60);
    Leap(0xAEFC, 0x10E2, 61);
    Leap(0x4563, 0xAEFC, 62);
    Leap(0xD849, 0x4563, 63);
    Leap(0xEB23, 0xD849, 64);
    Leap(0xB861, 0xEB23, 65);
    Leap(0xAA51, 0xB861, 66);
    Leap(0x3730, 0xAA51, 67);
    Leap(0x1021, 0x3730, 68);
    Leap(0x0001, 0x1021, 69);
  }

  lemma {:induction false} AvoidsAt(v: reg, n: nat, q: nat)
    requires AvoidsSingle(v, n) && 1 <= q <= n
    ensures Mixed(StepN(16 * q, v))
    decreases n
  {
    hide Step8, Step, Mixed, StepN;
    var w := Step8(Step8(v));
    Step8IsStepN(v);
    Step8IsStepN(Step8(v));
    StepNAdd(8, 8, v);
    StepNAdd(16, 16 * (q - 1), v);
    if q > 1 {
      AvoidsAt(w, n - 1, q - 1);
    } else {
      StepNone(w);
    }
  }

  lemma {:induction false} OneSteps(r: nat)
    requires r < 16
    ensures StepN(r, 1) == Single(15 - r)
  {
    hide Step, StepN;
    if r == 0 {
      StepNone(1);
    } else {
      OneSteps(r - 1);
      StepLast(r - 1, 1);
      SingleStep(16 - r);
    }
  }

  lemma SingleNotMixed(n: nat)
    requires n < 16
    ensures !Mixed(Single(n))
  {
  }

  /** The cycle through the register value 1 is longer than 1120 steps. */
  lemma NoShortCycle(d: nat)
    requires 1 <= d <= 1120
    ensures StepN(d, 1) != 1
  {
    hide Step, StepN, Single, Mixed, AvoidsSingle;
    if StepN(d, 1) == 1 {
      var q := (d + 15) / 16;
      var r := 16 * q - d;
      StepNAdd(d, r, 1);
      OneSteps(r);
      SingleNotMixed(15 - r);
      Leaps0();
      AvoidsAt(1, 70, q);
      assert false;
    }
  }

  lemma TwoPulses(one: reg, n: nat)
    requires one == StepN(16, 1) && 1 <= n <= 1120
    ensures StepN(n, one) != one
  {
    hide Step, StepN;
    StepNAdd(16, n, 1);
    StepNAdd(n, 16, 1);
    if StepN(n, one) == one {
      StepNInjective(16, StepN(n, 1), 1);
      NoShortCycle(n);
    }
  }

  lemma FirstPulse()
    ensures FeedBits(0, [true]) == StepN(16, 1)
  {
    hide Step, StepN, FeedBits;
    OneSteps(15);
    StepLast(15, 1);
    FeedOne(0, true);
    PickTop();
  }

  /** Two flipped bits at most 1120 positions apart leave a non-zero register. */
  lemma PairDetected(e: seq<bool>, p: nat, q: nat)
    requires p < q < |e| && q - p <= 1120
    requires forall i :: 0 <= i < |e| ==> (e[i] <==> i == p || i == q)
    ensures FeedBits(0, e) != 0
  {
    hide Step, Xor, Pick, StepN, FeedBits;
    var a, m, z := e[..p], e[p + 1..q], e[q + 1..];
    assert e == a + [true] + m + [true] + z;
    FeedBitsAppend(0, a + [true] + m + [true], z);
    FeedBitsAppend(0, a + [true] + m, [true]);
    FeedBitsAppend(0, a + [true], m);
    FeedBitsAppend(0, a, [true]);
    FeedQuiet(0, a);
    StepNZero(p, 0);
    FirstPulse();
    var one := StepN(16, 1);
    var y := StepN(|m|, one);
    FeedQuiet(one, m);
    SecondPulse(y);
    StepLast(|m|, one);
    TwoPulses(one, q - p);
    XorZero(Step(y), one);
    FeedQuiet(Xor(Step(y), one), z);
    StepNZero(|z|, Xor(Step(y), one));
  }

  lemma SecondPulse(y: reg)
    ensures FeedBits(y, [true]) == Xor(Step(y), StepN(16, 1))
  {
    hide Step, Xor, StepN, FeedBits;
    FeedOne(y, true);
    FirstPulse();
    FeedOne(0, true);
    StepLinear(y, 0x8000);
    XorLaws(0x8000, 0, 0);
    XorLaws(0, 0x8000, 0);
  }
}
