/** Protocol v1 packets, the frame codec, and what the frame checksum detects. */
module Codec {
  import opened Bytes
  import opened Crc16

  const SYNC1: byte := 0xA5
  const SYNC2: byte := 0x5A
  const VERSION: byte := 0x01
  const MAX_PAYLOAD: nat := 128
  const HEADER_SIZE: nat := 10
  const CRC_SIZE: nat := 2
  const MAX_FRAME: nat := HEADER_SIZE + MAX_PAYLOAD + CRC_SIZE

  // Node addresses.
  const MAIN_COMPUTER: byte := 0x01
  const NORTHBRIDGE: byte := 0x10
  const LIGHTING: byte := 0x20
  const SECURITY: byte := 0x21
  const BROADCAST: byte := 0xFF

  // Message types.
  const HEARTBEAT: byte := 0x01
  const ACK: byte := 0x02
  const NACK: byte := 0x03
  const GET_STATE: byte := 0x10
  const STATE_UPDATE: byte := 0x11
  const SET_OUTPUT: byte := 0x20
  const LIGHTING_DIAGNOSTIC: byte := 0x22
  const FAULT: byte := 0x40
  const FAULT_CLEAR: byte := 0x41
  const DEVICE_INFO: byte := 0x50
  const DEVICE_DISCOVERY: byte := 0x51
  const DIAGNOSTIC: byte := 0x60
  const SECURITY_COMMAND: byte := 0x70
  const SECURITY_STATE: byte := 0x71
  const SECURITY_EVENT: byte := 0x72

  // Packet flags.
  const FLAG_ACK_REQUIRED: byte := 0x01
  const FLAG_RESPONSE: byte := 0x02
  const FLAG_FAULT: byte := 0x04

  /** The first `length` payload bytes; the unused tail of the firmware's 128-byte array is not kept. */
  datatype Packet = Packet(source: byte, destination: byte, kind: byte, flags: byte, sequence: u16,
                           payload: seq<byte>)

  /** `(flags & FlagAckRequired) != 0`. */
  predicate AckRequired(p: Packet) {
    p.flags % 2 == 1
  }

  predicate Encodable(p: Packet) {
    |p.payload| <= MAX_PAYLOAD
  }

  datatype DecodeResult =
    | Ok(packet: Packet)
    | FrameTooShort
    | InvalidSync
    | UnsupportedVersion
    | PayloadTooLarge
    | LengthMismatch
    | CrcMismatch

  function Header(p: Packet): (h: seq<byte>)
    requires Encodable(p)
    ensures |h| == HEADER_SIZE
  {
    [SYNC1, SYNC2, VERSION, p.source, p.destination, p.kind, p.flags] + U16Bytes(p.sequence) + [|p.payload|]
  }

  function Encode(p: Packet): (f: seq<byte>)
    requires Encodable(p)
    ensures |f| == HEADER_SIZE + |p.payload| + CRC_SIZE
  {
    var body := Header(p) + p.payload;
    body + [HighByte(Crc(body)), LowByte(Crc(body))]
  }

  function Decode(f: seq<byte>): DecodeResult {
    if |f| < HEADER_SIZE + CRC_SIZE then FrameTooShort
    else if f[0] != SYNC1 || f[1] != SYNC2 then InvalidSync
    else if f[2] != VERSION then UnsupportedVersion
    else if f[9] > MAX_PAYLOAD then PayloadTooLarge
    else if |f| != HEADER_SIZE + f[9] + CRC_SIZE then LengthMismatch
    else
      var n: nat := HEADER_SIZE + f[9];
      if Join(f[n], f[n + 1]) != Crc(f[..n]) then CrcMismatch
      else Ok(Packet(f[3], f[4], f[5], f[6], U16At(f, 7), f[HEADER_SIZE..n]))
  }

  // ---- the firmware's encoder and decoder ------------------------------------------

  method EncodePacket(p: Packet, out: array?<byte>, capacity: nat) returns (ok: bool, length: nat)
    requires out != null ==> capacity <= out.Length
    modifies out
    ensures ok <==> Encodable(p) && out != null && HEADER_SIZE + |p.payload| + CRC_SIZE <= capacity
    ensures ok ==> length == |Encode(p)| && out[..length] == Encode(p)
    ensures ok ==> out[length..] == old(if out != null && length <= out.Length then out[length..] else [])
    ensures !ok ==> length == 0 && (out != null ==> out[..] == old(out[..]))
  {
    hide Crc, HighByte, LowByte;
    length := 0;
    if |p.payload| > MAX_PAYLOAD {
      return false, 0;
    }
    var size := HEADER_SIZE + |p.payload| + CRC_SIZE;
    if out == null || capacity < size {
      return false, 0;
    }
    out[0] := SYNC1;
    out[1] := SYNC2;
    out[2] := VERSION;
    out[3] := p.source;
    out[4] := p.destination;
    out[5] := p.kind;
    out[6] := p.flags;
    out[7] := p.sequence / 0x100;
    out[8] := p.sequence % 0x100;
    out[9] := |p.payload|;
    assert out[..HEADER_SIZE] == Header(p);
    for i := 0 to |p.payload|
      invariant out[..HEADER_SIZE + i] == Header(p) + p.payload[..i]
      invariant out[size..] == old(out[size..])
    {
      out[HEADER_SIZE + i] := p.payload[i];
      assert out[..HEADER_SIZE + i + 1] == out[..HEADER_SIZE + i] + [p.payload[i]];
    }
    var n := HEADER_SIZE + |p.payload|;
    assert out[..n] == Header(p) + p.payload;
    var crc := Crc16CcittFalse(out, n);
    out[n] := HighByte(crc);
    out[n + 1] := LowByte(crc);
    assert out[..n] == Header(p) + p.payload;
    assert out[..size] == out[..n] + [out[n], out[n + 1]];
    return true, size;
  }

  method DecodePacket(frame: array?<byte>, length: nat) returns (r: DecodeResult)
    requires frame != null ==> length <= frame.Length
    ensures frame == null ==> r == FrameTooShort
    ensures frame != null ==> r == Decode(frame[..length])
  {
    hide Crc, Join;
    if frame == null || length < HEADER_SIZE + CRC_SIZE {
      return FrameTooShort;
    }
    if frame[0] != SYNC1 || frame[1] != SYNC2 {
      return InvalidSync;
    }
    if frame[2] != VERSION {
      return UnsupportedVersion;
    }
    var n := frame[9];
    if n > MAX_PAYLOAD {
      return PayloadTooLarge;
    }
    if length != HEADER_SIZE + n + CRC_SIZE {
      return LengthMismatch;
    }
    var actual := Crc16CcittFalse(frame, HEADER_SIZE + n);
    assert frame[..length][..HEADER_SIZE + n] == frame[..HEADER_SIZE + n];
    if Join(frame[HEADER_SIZE + n], frame[HEADER_SIZE + n + 1]) != actual {
      return CrcMismatch;
    }
    var payload: seq<byte> := [];
    for i := 0 to n
      invariant payload == frame[HEADER_SIZE..HEADER_SIZE + i]
    {
      payload := payload + [frame[HEADER_SIZE + i]];
    }
    assert payload == frame[..length][HEADER_SIZE..HEADER_SIZE + n];
    return Ok(Packet(frame[3], frame[4], frame[5], frame[6], U16At(frame[..length], 7), payload));
  }

  // ---- round trips ------------------------------------------------------------------

  lemma HeaderBytes(p: Packet)
    requires Encodable(p)
    ensures var f := Encode(p);
      && f[0] == SYNC1 && f[1] == SYNC2 && f[2] == VERSION && f[3] == p.source && f[4] == p.destination
      && f[5] == p.kind && f[6] == p.flags && U16At(f, 7) == p.sequence && f[9] == |p.payload|
      && f[..HEADER_SIZE + |p.payload|] == Header(p) + p.payload
      && f[HEADER_SIZE..HEADER_SIZE + |p.payload|] == p.payload
  {
    hide Crc, HighByte, LowByte;
  }

  /** The frame on the wire, byte by byte, with the checksum of all before it at its end, high byte first. */
  lemma WireLayout(p: Packet)
    requires |p.payload| <= 128
    ensures var body := [0xA5, 0x5A, 0x01, p.source, p.destination, p.kind, p.flags, p.sequence / 0x100,
                         p.sequence % 0x100, |p.payload|] + p.payload;
      Encode(p) == body + [HighByte(Crc(body)), LowByte(Crc(body))]
  {
    hide Crc, HighByte, LowByte;
    assert U16Bytes(p.sequence) == [p.sequence / 0x100, p.sequence % 0x100];
    assert Header(p) == [0xA5, 0x5A, 0x01, p.source, p.destination, p.kind, p.flags, p.sequence / 0x100,
                         p.sequence % 0x100, |p.payload|];
  }

  /**
   A frame is accepted, and yields `p`, exactly when it is the encoding of `p`: decoding inverts
   encoding, and encoding what was decoded gives the received bytes back.
   */
  lemma DecodeInvertsEncode(p: Packet, f: seq<byte>)
    ensures Decode(f) == Ok(p) <==> Encodable(p) && f == Encode(p)
  {
    hide Crc, HighByte, LowByte, Join;
    if Encodable(p) && f == Encode(p) {
      HeaderBytes(p);
      SplitJoin(Crc(Header(p) + p.payload));
    }
    if Decode(f) == Ok(p) {
      var n: nat := HEADER_SIZE + f[9];
      JoinSplit(f[n], f[n + 1]);
      assert f[..HEADER_SIZE] == Header(p);
      assert f[..n] == f[..HEADER_SIZE] + f[HEADER_SIZE..n];
      assert f == f[..n] + [f[n], f[n + 1]];
    }
  }

  /** Damage in one field is reported as damage in that field. */
  lemma DecodeDiagnoses(p: Packet, at: nat, b: byte)
    requires Encodable(p) && at < |Encode(p)| && b != Encode(p)[at]
    ensures var r := Decode(Encode(p)[at := b]);
      && (at < 2 <==> r == InvalidSync)
      && (at == 2 <==> r == UnsupportedVersion)
      && (at == 9 && b > MAX_PAYLOAD <==> r == PayloadTooLarge)
      && (at == 9 && b <= MAX_PAYLOAD <==> r == LengthMismatch)
      && (3 <= at && at != 9 <==> r == CrcMismatch)
  {
    hide Crc, HighByte, LowByte, Join, Bits, Diff, FeedBits;
    var f := Encode(p);
    HeaderBytes(p);
    var g := f[at := b];
    if 3 <= at && at != 9 && Decode(g).Ok? {
      ByteDamage(f, at, b);
      BurstRejected(p, g, 8 * at);
    }
  }

  /** Truncated or extended frames are reported as too short or of the wrong length. */
  lemma DecodeChecksLength(p: Packet, f: seq<byte>)
    requires Encodable(p) && |f| != |Encode(p)|
    requires |f| >= HEADER_SIZE ==> f[..HEADER_SIZE] == Header(p)
    ensures Decode(f) == if |f| < HEADER_SIZE + CRC_SIZE then FrameTooShort else LengthMismatch
  {
    if |f| >= HEADER_SIZE + CRC_SIZE {
      assert forall i :: 0 <= i < HEADER_SIZE ==> f[i] == f[..HEADER_SIZE][i];
    }
  }

  const DIGITS: seq<byte> := [0x31, 0x32, 0x33, 0x34, 0x35, 0x36, 0x37, 0x38, 0x39]

  /** The published check value of CRC-16/CCITT-FALSE: the checksum of the text "123456789". */
  lemma CheckValue()
    ensures Crc(DIGITS) == 0x29B1
  {
    hide FeedByte;
    CheckFirst();
    CheckSecond();
    CheckStep(6, 0x37, 0x2EF4, 0x7718);
    CheckStep(7, 0x38, 0x7718, 0xA12B);
    CheckStep(8, 0x39, 0xA12B, 0x29B1);
    assert DIGITS[..9] == DIGITS;
  }

  lemma CheckFirst()
    ensures FeedBytes(0xFFFF, DIGITS[..3]) == 0x5BCE
  {
    hide FeedByte;
    CheckStep(0, 0x31, 0xFFFF, 0xC782);
    CheckStep(1, 0x32, 0xC782, 0x3DBA);
    CheckStep(2, 0x33, 0x3DBA, 0x5BCE);
  }

  lemma CheckSecond()
    ensures FeedBytes(0xFFFF, DIGITS[..6]) == 0x2EF4
  {
    hide FeedByte;
    CheckFirst();
    CheckStep(3, 0x34, 0x5BCE, 0x5349);
    CheckStep(4, 0x35, 0x5349, 0x4560);
    CheckStep(5, 0x36, 0x4560, 0x2EF4);
  }

  lemma CheckStep(k: nat, b: byte, v: reg, w: reg)
    requires k < 9 && DIGITS[k] == b
    requires FeedBytes(0xFFFF, DIGITS[..k]) == v && Step8(Xor(v, Lift(b))) == w
    ensures FeedBytes(0xFFFF, DIGITS[..k + 1]) == w
  {
    hide Step8, StepN, Xor, Lift;
    Step8IsStepN(Xor(v, Lift(b)));
    assert DIGITS[..k + 1][..k] == DIGITS[..k];
  }

  // ---- error detection ---------------------------------------------------------------

  /** A whole frame, checksum included, leaves the register at zero. */
  lemma FrameResidue(p: Packet)
    requires Encodable(p)
    ensures FeedBytes(0xFFFF, Encode(p)) == 0
  {
    hide FeedByte, HighByte, LowByte;
    var body := Header(p) + p.payload;
    var f := Encode(p);
    assert f[..|f| - 1][..|f| - 2] == body;
    OwnBytesClear(Crc(body));
  }

  /** Damage of the same length that is still accepted is a multiple of the polynomial. */
  lemma AcceptedDamage(p: Packet, g: seq<byte>)
    requires Encodable(p) && |g| == |Encode(p)| && Decode(g).Ok?
    ensures FeedBits(0, Diff(Bits(Encode(p)), Bits(g))) == 0
  {
    hide Crc, Xor, FeedBits, FeedBytes;
    var f, q := Encode(p), Decode(g).packet;
    DecodeInvertsEncode(q, g);
    FrameResidue(p);
    FrameResidue(q);
    BytesAreBits(0xFFFF, f);
    BytesAreBits(0xFFFF, g);
    FeedDiff(0xFFFF, 0xFFFF, Bits(f), Bits(g));
    XorLaws(0xFFFF, 0, 0);
    XorLaws(0, 0, 0);
  }

  /** Damage confined to 16 consecutive bits, anywhere in the frame, is never accepted. */
  lemma BurstRejected(p: Packet, g: seq<byte>, start: nat)
    requires Encodable(p) && |g| == |Encode(p)| && g != Encode(p)
    requires forall i :: 0 <= i < 8 * |g| && Bits(Encode(p))[i] != Bits(g)[i] ==> start <= i < start + 16
    ensures !Decode(g).Ok?
  {
    hide Bits, FeedBits;
    var f := Encode(p);
    var e := Diff(Bits(f), Bits(g));
    if forall i :: 0 <= i < |e| ==> !e[i] {
      assert Bits(f) == Bits(g);
      BitsInjective(f, g);
      assert false;
    }
    var some :| 0 <= some < |e| && e[some];
    var first := FirstSet(e, some);
    var end := if start + 16 <= |e| then start + 16 else |e|;
    BurstDetected(e, first, end - first);
    if Decode(g).Ok? {
      AcceptedDamage(p, g);
    }
  }

  /** The leftmost set bit. */
  lemma {:induction false} FirstSet(e: seq<bool>, some: nat) returns (first: nat)
    requires some < |e| && e[some]
    ensures first <= some && e[first] && forall i :: 0 <= i < first ==> !e[i]
  {
    first := some;
    if i :| 0 <= i < some && e[i] {
      first := FirstSet(e, i);
    }
  }

  /** An odd number of flipped bits is never accepted. */
  lemma OddDamageRejected(p: Packet, g: seq<byte>)
    requires Encodable(p) && |g| == |Encode(p)|
    requires CountSet(Diff(Bits(Encode(p)), Bits(g))) % 2 == 1
    ensures !Decode(g).Ok?
  {
    hide Bits, FeedBits, CountSet, Odd;
    if Decode(g).Ok? {
      AcceptedDamage(p, g);
      ParityKept(Diff(Bits(Encode(p)), Bits(g)));
      OddConstants();
      assert false;
    }
  }

  /** Two flipped bits are never accepted, whatever their distance. */
  lemma PairRejected(p: Packet, g: seq<byte>, i: nat, j: nat)
    requires Encodable(p) && |g| == |Encode(p)| && i < j < 8 * |g|
    requires forall k :: 0 <= k < 8 * |g| ==> (Bits(Encode(p))[k] != Bits(g)[k] <==> k == i || k == j)
    ensures !Decode(g).Ok?
  {
    hide Bits, FeedBits;
    PairDetected(Diff(Bits(Encode(p)), Bits(g)), i, j);
    if Decode(g).Ok? {
      AcceptedDamage(p, g);
    }
  }

  /** Changing one byte changes only that byte's eight bits. */
  lemma {:induction false} ByteDamage(f: seq<byte>, at: nat, b: byte)
    requires at < |f|
    ensures forall i :: 0 <= i < 8 * |f| && Bits(f)[i] != Bits(f[at := b])[i] ==> 8 * at <= i < 8 * at + 8
  {
    hide BitsOf;
    var n := |f| - 1;
    var g := f[at := b];
    if at < n {
      ByteDamage(f[..n], at, b);
      assert g[..n] == f[..n][at := b];
    } else {
      assert g[..n] == f[..n];
    }
  }
}
