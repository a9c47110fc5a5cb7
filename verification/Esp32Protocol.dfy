/** The second implementation of the protocol, in the esp32s3C sketch, compared with the library's. */
module Esp32Protocol {
  import opened Bytes
  import opened Crc16
  import opened Codec
  import opened StreamParsing

  method EncodeFrame(p: Packet, f: array<byte>, cap: nat) returns (ok: bool, written: nat)
    requires cap <= f.Length && |p.payload| < 0x100
    modifies f
    ensures ok <==> Encodable(p) && 12 + |p.payload| <= cap
    ensures ok ==> written == 12 + |p.payload| && f[..written] == Encode(p)
    ensures !ok ==> written == 0 && f[..] == old(f[..])
  {
    hide Crc, HighByte, LowByte;
    var len := |p.payload|;
    if len > MAX_PAYLOAD || cap < 12 + len {
      return false, 0;
    }
    f[0], f[1], f[2], f[3] := SYNC1, SYNC2, VERSION, p.source;
    f[4], f[5], f[6] := p.destination, p.kind, p.flags;
    f[7], f[8], f[9] := p.sequence / 0x100, p.sequence % 0x100, len;
    assert f[..10] == Header(p);
    for i := 0 to len
      invariant f[..10 + i] == Header(p) + p.payload[..i]
    {
      f[10 + i] := p.payload[i];
      assert f[..10 + i + 1] == f[..10 + i] + [p.payload[i]];
    }
    assert f[..10 + len] == Header(p) + p.payload;
    var crc := Crc16CcittFalse(f, 10 + len);
    f[10 + len] := HighByte(crc);
    f[11 + len] := LowByte(crc);
    assert f[..12 + len] == f[..10 + len] + [f[10 + len], f[11 + len]];
    return true, 12 + len;
  }

  predicate CrcFits(f: seq<byte>) {
    |f| >= 12 && Crc(f[..|f| - 2]) == Join(f[|f| - 2], f[|f| - 1])
  }

  function PacketIn(f: seq<byte>): Packet
    requires |f| >= 12
  {
    Packet(f[3], f[4], f[5], f[6], U16At(f, 7), f[10..|f| - 2])
  }

  /** One byte into the sketch's parser: the version is checked together with the length. */
  function EspAdvance(s: Parser, b: byte): (Parser, Option<Packet>) {
    var grown := s.buffer + [b];
    if |s.buffer| == 0 then (if b == SYNC1 then s.(buffer := grown) else s, None)
    else if |s.buffer| == 1 then
      (if b == SYNC2 then s.(buffer := grown)
       else Parser(if b == SYNC1 then [b] else [], 0, s.rejected), None)
    else if |s.buffer| >= MAX_FRAME then (Dropped(s), None)
    else if |grown| == 10 && (grown[2] != VERSION || grown[9] > MAX_PAYLOAD) then (Dropped(s), None)
    else
      var expected := if |grown| == 10 then 12 + grown[9] else s.expected;
      if expected != 0 && |grown| == expected then
        if CrcFits(grown) then (Parser([], 0, s.rejected), Some(PacketIn(grown))) else (Dropped(s), None)
      else (Parser(grown, expected, s.rejected), None)
  }

  class EspParser {
    const buffer: array<byte>
    var used: nat
    var expected: nat
    var rejected: u32

    ghost predicate Valid()
      reads this, buffer
    {
      && buffer.Length == MAX_FRAME && used <= MAX_FRAME
      && (expected != 0 ==> used >= 10 && expected - 12 == buffer[9])
    }

    ghost function State(): Parser
      reads this, buffer
      requires used <= buffer.Length
    {
      Parser(buffer[..used], expected, rejected)
    }

    constructor ()
      ensures Valid() && State() == FRESH && fresh(buffer)
    {
      buffer := new byte[MAX_FRAME](_ => 0);
      used, expected, rejected := 0, 0, 0;
    }

    method Reset()
      modifies this
      ensures used == 0 && expected == 0 && rejected == old(rejected)
    {
      used := 0;
      expected := 0;
    }

    /** The checksum test and the packet in the collected bytes. */
    method CheckFrame() returns (packet: Option<Packet>)
      requires buffer.Length == MAX_FRAME && 12 <= used <= MAX_FRAME && used - 12 == buffer[9]
      ensures packet == if CrcFits(buffer[..used]) then Some(PacketIn(buffer[..used])) else None
    {
      hide Crc, Join;
      var n := 10 + buffer[9];
      var got := Join(buffer[n], buffer[n + 1]);
      var crc := Crc16CcittFalse(buffer, n);
      assert buffer[..n] == buffer[..used][..n];
      if crc != got {
        return None;
      }
      var payload: seq<byte> := [];
      for i := 0 to buffer[9]
        invariant payload == buffer[10..10 + i]
      {
        payload := payload + [buffer[10 + i]];
      }
      assert payload == buffer[..used][10..n];
      return Some(Packet(buffer[3], buffer[4], buffer[5], buffer[6], U16At(buffer[..used], 7), payload));
    }

    method Push(b: byte) returns (packet: Option<Packet>)
      requires Valid()
      modifies this, buffer
      ensures Valid()
      ensures State() == EspAdvance(old(State()), b).0 && packet == EspAdvance(old(State()), b).1
    {
      hide CrcFits, PacketIn;
      ghost var before := State();
      packet := None;
      if used == 0 {
        if b != SYNC1 {
          return;
        }
        buffer[used] := b;
        used := used + 1;
        assert buffer[..used] == before.buffer + [b];
        return;
      }
      if used == 1 {
        if b != SYNC2 {
          Reset();
          if b == SYNC1 {
            buffer[used] := b;
            used := used + 1;
          }
          assert buffer[..used] == if b == SYNC1 then [b] else [];
          return;
        }
        buffer[used] := b;
        used := used + 1;
        assert buffer[..used] == before.buffer + [b];
        return;
      }
      if used >= MAX_FRAME {
        rejected := Inc32(rejected);
        Reset();
        return;
      }
      buffer[used] := b;
      used := used + 1;
      ghost var grown := before.buffer + [b];
      assert buffer[..used] == grown;
      if used == 10 {
        if buffer[2] != VERSION || buffer[9] > MAX_PAYLOAD {
          rejected := Inc32(rejected);
          Reset();
          return;
        }
        expected := 12 + buffer[9];
      }
      if expected != 0 && used == expected {
        packet := CheckFrame();
        if packet.None? {
          rejected := Inc32(rejected);
        }
        Reset();
      }
    }
  }

  /** What holds of every state of the sketch's parser. */
  predicate EspReachable(s: Parser) {
    Reachable(s) && (|s.buffer| >= HEADER_SIZE ==> s.buffer[2] == VERSION)
  }

  /** The header being completed carries a version other than 1 and an acceptable length. */
  predicate ForeignHeader(s: Parser, b: byte) {
    |s.buffer| == HEADER_SIZE - 1 && s.buffer[2] != VERSION && b <= MAX_PAYLOAD
  }

  /** From a common state the two parsers do the same with a byte exactly when it completes no foreign header. */
  lemma StepsAgree(s: Parser, b: byte)
    requires EspReachable(s)
    ensures EspAdvance(s, b) == Advance(s, b) <==> !ForeignHeader(s, b)
    ensures EspReachable(EspAdvance(s, b).0)
  {
    hide Crc, Join;
  }

  function EspRun(s: Parser, stream: seq<byte>): (Parser, seq<Packet>) {
    if stream == [] then (s, [])
    else
      var (mid, ps) := EspRun(s, stream[..|stream| - 1]);
      var (end, p) := EspAdvance(mid, stream[|stream| - 1]);
      (end, if p.Some? then ps + [p.value] else ps)
  }

  /** After this stream, the byte `b` completes a foreign header. */
  predicate ForeignAfter(stream: seq<byte>, b: byte) {
    ForeignHeader(Run(FRESH, stream).0, b)
  }

  predicate SameAfter(stream: seq<byte>) {
    EspRun(FRESH, stream) == Run(FRESH, stream)
  }

  ghost predicate NoForeignHeader(stream: seq<byte>) {
    forall k :: 0 <= k < |stream| ==> !ForeignAfter(stream[..k], stream[k])
  }

  ghost predicate InLockstep(stream: seq<byte>) {
    forall k :: 0 <= k <= |stream| ==> SameAfter(stream[..k])
  }

  /**
   The two parsers agree after every byte of a stream, in state, rejects and packets, exactly when
   the stream never completes a header with a foreign version.
   */
  lemma {:induction false} LockstepExactly(stream: seq<byte>)
    ensures InLockstep(stream) <==> NoForeignHeader(stream)
    ensures InLockstep(stream) ==> EspReachable(Run(FRESH, stream).0)
  {
    hide Advance, EspAdvance, ForeignHeader, EspReachable, InLockstep, NoForeignHeader;
    PrefixesOf(stream);
    if stream == [] {
      FreshIsReachable();
    } else {
      var n := |stream| - 1;
      var init, b := stream[..n], stream[n];
      LockstepExactly(init);
      PrefixesOf(init);
      if InLockstep(init) {
        var s := Run(FRESH, init).0;
        StepsAgree(s, b);
        PacketDecided(Run(FRESH, init).1, EspAdvance(s, b).1, Advance(s, b).1);
      }
    }
  }

  lemma PrefixesOf(stream: seq<byte>)
    ensures InLockstep(stream) ==> SameAfter(stream)
    ensures stream == [] ==> NoForeignHeader(stream) && (InLockstep(stream) <==> SameAfter(stream))
    ensures stream != [] ==> var n := |stream| - 1;
      && (InLockstep(stream) <==> InLockstep(stream[..n]) && SameAfter(stream))
      && (NoForeignHeader(stream) <==> NoForeignHeader(stream[..n]) && !ForeignAfter(stream[..n], stream[n]))
  {
    hide SameAfter, ForeignAfter;
    assert stream[..|stream|] == stream;
    if stream != [] {
      var n := |stream| - 1;
      assert forall k :: 0 <= k <= n ==> stream[..k] == stream[..n][..k];
    }
  }

  lemma FreshIsReachable()
    ensures EspReachable(FRESH)
  {
  }

  /** The packet list grows alike exactly when the same packet, or none, was completed. */
  lemma PacketDecided(ps: seq<Packet>, a: Option<Packet>, b: Option<Packet>)
    ensures (if a.Some? then ps + [a.value] else ps) == (if b.Some? then ps + [b.value] else ps) <==> a == b
  {
    if a.Some? && b.Some? && ps + [a.value] == ps + [b.value] {
      assert (ps + [a.value])[|ps|] == (ps + [b.value])[|ps|];
    } else if a.Some? && b.None? {
      assert |ps + [a.value]| != |ps|;
    } else if b.Some? && a.None? {
      assert |ps + [b.value]| != |ps|;
    }
  }

  lemma {:induction false} EspSettlesWithin(s: Parser, stream: seq<byte>)
    requires EspReachable(s) && SYNC1 !in stream
    ensures var end := EspRun(s, stream).0;
      EspReachable(end) && |end.buffer| < MAX_FRAME && (Idle(end) || Remaining(end) + |stream| <= Remaining(s))
  {
    hide Crc, Join;
    if stream != [] {
      EspSettlesWithin(s, stream[..|stream| - 1]);
    }
  }

  /** From any reachable state, 139 bytes other than the first sync byte return the sketch's parser to idle. */
  lemma EspSettlesAfterQuietBytes(s: Parser, stream: seq<byte>)
    requires EspReachable(s) && SYNC1 !in stream && |stream| >= MAX_FRAME - 1
    ensures Idle(EspRun(s, stream).0)
  {
    EspSettlesWithin(s, stream);
  }

  /** There the sketch rejects the candidate at once, while the library goes on collecting it. */
  lemma ForeignHeaderRejected(s: Parser, b: byte)
    requires EspReachable(s) && ForeignHeader(s, b)
    ensures EspAdvance(s, b) == (Parser([], 0, (s.rejected + 1) % 0x1_0000_0000), None)
    ensures Advance(s, b) == (Parser(s.buffer + [b], 12 + b, s.rejected), None)
  {
  }
}
