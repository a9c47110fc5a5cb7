/** The byte-driven frame parser: framing, resynchronisation and rejection counting. */
module StreamParsing {
  import opened Bytes
  import opened Codec

  /** The bytes collected for the current candidate, the frame size once known, and the reject counter. */
  datatype Parser = Parser(buffer: seq<byte>, expected: nat, rejected: u32)

  const FRESH: Parser := Parser([], 0, 0)

  predicate Idle(s: Parser) {
    s.buffer == [] && s.expected == 0
  }

  /** Nothing collected but possibly one first sync byte. */
  predicate Hunting(s: Parser) {
    (s.buffer == [] || s.buffer == [SYNC1]) && s.expected == 0
  }

  function Dropped(s: Parser): Parser {
    Parser([], 0, Inc32(s.rejected))
  }

  /** One byte in; the parser's next state and the packet completed by the byte, if any. */
  function Advance(s: Parser, b: byte): (Parser, Option<Packet>) {
    var grown := s.buffer + [b];
    if |s.buffer| == 0 then (if b == SYNC1 then s.(buffer := grown) else s, None)
    else if |s.buffer| == 1 then
      (if b == SYNC2 then s.(buffer := grown)
       else s.(buffer := if b == SYNC1 then [b] else []), None)
    else if |s.buffer| >= MAX_FRAME then (Dropped(s), None)
    else Judged(s.(buffer := grown))
  }

  /** What becomes of a candidate that a byte was just added to: the header decides its size, the last byte its fate. */
  function Judged(s: Parser): (Parser, Option<Packet>) {
    var n := |s.buffer|;
    if n == HEADER_SIZE && s.buffer[9] > MAX_PAYLOAD then (Dropped(s), None)
    else
      var expected := if n == HEADER_SIZE then HEADER_SIZE + s.buffer[9] + CRC_SIZE else s.expected;
      if expected != 0 && n == expected then
        match Decode(s.buffer)
        case Ok(p) => (Parser([], 0, s.rejected), Some(p))
        case _ => (Dropped(s), None)
      else (s.(expected := expected), None)
  }

  /** What holds of every parser that started fresh. */
  predicate Reachable(s: Parser) {
    && (|s.buffer| >= 1 ==> s.buffer[0] == SYNC1)
    && (|s.buffer| >= 2 ==> s.buffer[1] == SYNC2)
    && (|s.buffer| < HEADER_SIZE ==> s.expected == 0)
    && (|s.buffer| >= HEADER_SIZE ==>
          s.buffer[9] <= MAX_PAYLOAD && s.expected == HEADER_SIZE + s.buffer[9] + CRC_SIZE)
    && (s.expected != 0 ==> |s.buffer| < s.expected)
  }

  // ---- the firmware's parser ---------------------------------------------------------

  class StreamParser {
    const buffer: array<byte>
    var length: nat
    var expected: nat
    var rejectedFrames: u32

    ghost predicate Valid()
      reads this, buffer
    {
      buffer.Length == MAX_FRAME && length <= MAX_FRAME
    }

    ghost function State(): Parser
      reads this, buffer
      requires length <= buffer.Length
    {
      Parser(buffer[..length], expected, rejectedFrames)
    }

    constructor ()
      ensures Valid() && State() == FRESH && fresh(buffer)
    {
      buffer := new byte[MAX_FRAME](_ => 0);
      length, expected, rejectedFrames := 0, 0, 0;
    }

    method Reset()
      modifies this
      ensures length == 0 && expected == 0 && rejectedFrames == old(rejectedFrames)
    {
      length := 0;
      expected := 0;
    }

    method Push(b: byte) returns (packet: Option<Packet>)
      requires Valid()
      modifies this, buffer
      ensures Valid()
      ensures State() == Advance(old(State()), b).0 && packet == Advance(old(State()), b).1
      ensures old(Reachable(State())) ==> Reachable(State())
    {
      hide Judged;
      ghost var before := State();
      if Reachable(before) {
        AdvanceKeepsReachable(before, b);
      }
      packet := None;
      if length == 0 {
        if b != SYNC1 {
          return;
        }
        buffer[length] := b;
        length := length + 1;
        assert buffer[..length] == before.buffer + [b];
        return;
      }
      if length == 1 {
        if b != SYNC2 {
          length := if b == SYNC1 then 1 else 0;
          if length == 1 {
            buffer[0] := b;
          }
          assert buffer[..length] == if b == SYNC1 then [b] else [];
          return;
        }
        buffer[length] := b;
        length := length + 1;
        assert buffer[..length] == before.buffer + [b];
        return;
      }
      if length >= MAX_FRAME {
        rejectedFrames := Inc32(rejectedFrames);
        Reset();
        return;
      }
      buffer[length] := b;
      length := length + 1;
      assert buffer[..length] == before.buffer + [b];
      packet := Judge();
    }

    /** push() once the byte is in the buffer. */
    method Judge() returns (packet: Option<Packet>)
      requires Valid()
      modifies this
      ensures Valid() && (State(), packet) == Judged(old(State()))
    {
      hide Decode;
      packet := None;
      if length == HEADER_SIZE {
        var n := buffer[9];
        if n > MAX_PAYLOAD {
          rejectedFrames := Inc32(rejectedFrames);
          Reset();
          return;
        }
        expected := HEADER_SIZE + n + CRC_SIZE;
      }
      if expected != 0 && length == expected {
        var status := DecodePacket(buffer, length);
        if !status.Ok? {
          rejectedFrames := Inc32(rejectedFrames);
        }
        Reset();
        packet := if status.Ok? then Some(status.packet) else None;
      }
    }
  }

  /** Every byte keeps the parser consistent; its overflow guard is never reached. */
  lemma AdvanceKeepsReachable(s: Parser, b: byte)
    requires Reachable(s)
    ensures Reachable(Advance(s, b).0) && |s.buffer| < MAX_FRAME
  {
    hide Decode;
  }

  // ---- runs over byte streams -----------------------------------------------------------

  /** The parser after a stream, and the packets it completed, in order. */
  function Run(s: Parser, stream: seq<byte>): (Parser, seq<Packet>) {
    if stream == [] then (s, [])
    else
      var (mid, ps) := Run(s, stream[..|stream| - 1]);
      var (end, p) := Advance(mid, stream[|stream| - 1]);
      (end, if p.Some? then ps + [p.value] else ps)
  }

  lemma {:induction false} RunAppend(s: Parser, a: seq<byte>, b: seq<byte>)
    ensures Run(s, a + b).0 == Run(Run(s, a).0, b).0
    ensures Run(s, a + b).1 == Run(s, a).1 + Run(Run(s, a).0, b).1
  {
    hide Advance;
    if b == [] {
      assert a + b == a;
    } else {
      var n := |b| - 1;
      assert (a + b)[..|a + b| - 1] == a + b[..n];
      RunAppend(s, a, b[..n]);
    }
  }

  lemma {:induction false} RunKeepsReachable(s: Parser, stream: seq<byte>)
    requires Reachable(s)
    ensures Reachable(Run(s, stream).0)
  {
    hide Advance, Reachable;
    if stream != [] {
      RunKeepsReachable(s, stream[..|stream| - 1]);
      AdvanceKeepsReachable(Run(s, stream[..|stream| - 1]).0, stream[|stream| - 1]);
    }
  }

  /** The adjacent sync pair does not occur. */
  ghost predicate NoSyncPair(g: seq<byte>) {
    forall i :: 0 < i < |g| ==> !(g[i - 1] == SYNC1 && g[i] == SYNC2)
  }

  lemma {:induction false} GarbageIgnored(s: Parser, g: seq<byte>)
    requires Idle(s) && NoSyncPair(g)
    ensures Run(s, g) == (s.(buffer := if g != [] && g[|g| - 1] == SYNC1 then [SYNC1] else []), [])
  {
    if g != [] {
      var n := |g| - 1;
      GarbageIgnored(s, g[..n]);
      assert [] + [g[n]] == [g[n]] && [SYNC1] + [g[n]] == [SYNC1, g[n]];
    }
  }

  /** A sync pair, and a length byte that makes it a frame of this size, whatever else it holds. */
  predicate IsCandidate(f: seq<byte>) {
    |f| >= 12 && f[0] == 0xA5 && f[1] == 0x5A && f[9] <= 128 && |f| == 12 + f[9]
  }

  /** The parser's state when it has collected the first `k` bytes of a candidate. */
  function Collecting(f: seq<byte>, k: nat, rejected: u32): Parser
    requires k <= |f|
  {
    Parser(f[..k], if k < HEADER_SIZE then 0 else |f|, rejected)
  }

  lemma CandidateStep(f: seq<byte>, k: nat, rejected: u32)
    requires IsCandidate(f) && 1 <= k < |f| - 1
    ensures Advance(Collecting(f, k, rejected), f[k]) == (Collecting(f, k + 1, rejected), None)
  {
    hide Decode;
    assert f[..k] + [f[k]] == f[..k + 1];
    assert k + 1 >= HEADER_SIZE ==> f[..k + 1][9] == f[9];
  }

  lemma CandidateStarts(s: Parser, f: seq<byte>)
    requires Hunting(s) && IsCandidate(f)
    ensures Run(s, f[..1]) == (Collecting(f, 1, s.rejected), [])
  {
    hide Judged, Run;
    assert f[..1] == [SYNC1];
    assert s.buffer == [] ==> s.buffer + [SYNC1] == [SYNC1];
    assert Advance(s, SYNC1) == (Parser([SYNC1], 0, s.rejected), None);
    RunOne(s, SYNC1);
  }

  lemma RunOne(s: Parser, b: byte)
    ensures Run(s, [b]).0 == Advance(s, b).0
    ensures Run(s, [b]).1 == if Advance(s, b).1.Some? then [Advance(s, b).1.value] else []
  {
    hide Advance;
    assert [b][..0] == [] && Run(s, []) == (s, []);
  }

  /** A candidate is collected until its last byte, and nothing else happens. */
  lemma {:induction false} CandidatePrefix(s: Parser, f: seq<byte>, k: nat)
    requires Hunting(s) && IsCandidate(f) && 1 <= k < |f|
    ensures Run(s, f[..k]) == (Collecting(f, k, s.rejected), [])
  {
    hide Advance, Collecting, IsCandidate;
    if k == 1 {
      CandidateStarts(s, f);
    } else {
      CandidatePrefix(s, f, k - 1);
      CandidateStep(f, k - 1, s.rejected);
      assert f[..k][..k - 1] == f[..k - 1];
    }
  }

  lemma FramePrefix(s: Parser, p: Packet, k: nat)
    requires Hunting(s) && Encodable(p) && 1 <= k < |Encode(p)|
    ensures var expected := if k < HEADER_SIZE then 0 else |Encode(p)|;
      Run(s, Encode(p)[..k]) == (Parser(Encode(p)[..k], expected, s.rejected), [])
  {
    hide Encode, Run;
    HeaderBytes(p);
    CandidatePrefix(s, Encode(p), k);
  }

  /** A candidate that is not a valid frame, of whatever damage, yields nothing and is counted as one rejected frame. */
  lemma DamagedFrameRejected(s: Parser, f: seq<byte>)
    requires Hunting(s) && IsCandidate(f) && !Decode(f).Ok?
    ensures Run(s, f) == (Parser([], 0, (s.rejected + 1) % 0x1_0000_0000), [])
  {
    hide Decode, Advance;
    var n := |f| - 1;
    CandidatePrefix(s, f, n);
    LastByteDamaged(f, s.rejected);
  }

  lemma LastByteDamaged(f: seq<byte>, rejected: u32)
    requires IsCandidate(f) && !Decode(f).Ok?
    ensures Advance(Collecting(f, |f| - 1, rejected), f[|f| - 1])
         == (Parser([], 0, (rejected + 1) % 0x1_0000_0000), None)
  {
    hide Decode;
    var n := |f| - 1;
    assert f[..n] + [f[n]] == f;
  }

  /** A length byte above 128 rejects the candidate at once. */
  lemma OversizeRejected(s: Parser, h: seq<byte>)
    requires Hunting(s) && |h| == 10 && h[0] == 0xA5 && h[1] == 0x5A && h[9] > 128
    ensures Run(s, h) == (Parser([], 0, (s.rejected + 1) % 0x1_0000_0000), [])
  {
    hide Decode, Advance;
    var f := h[9 := 0] + [0, 0];
    CandidatePrefix(s, f, 9);
    assert f[..9] == h[..9];
    LengthRefused(h, s.rejected);
  }

  lemma LengthRefused(h: seq<byte>, rejected: u32)
    requires |h| == 10 && h[9] > 128
    ensures Advance(Parser(h[..9], 0, rejected), h[9]) == (Parser([], 0, (rejected + 1) % 0x1_0000_0000), None)
  {
    hide Decode;
    assert h[..9] + [h[9]] == h;
  }

  /** From idle, or after a stray first sync byte, a frame is parsed into its packet and nothing is rejected. */
  lemma FrameParsed(s: Parser, p: Packet)
    requires Hunting(s) && Encodable(p)
    ensures Run(s, Encode(p)) == (Parser([], 0, s.rejected), [p])
  {
    hide Encode, Decode, Advance;
    var f := Encode(p);
    var n := |f| - 1;
    FramePrefix(s, p, n);
    DecodeInvertsEncode(p, f);
    LastByte(Parser(f[..n], |f|, s.rejected), f, p);
    assert [] + [p] == [p];
  }

  lemma LastByte(s: Parser, f: seq<byte>, p: Packet)
    requires HEADER_SIZE + CRC_SIZE <= |f| <= MAX_FRAME && Decode(f) == DecodeResult.Ok(p)
    requires s.buffer == f[..|f| - 1] && s.expected == |f|
    ensures Advance(s, f[|f| - 1]) == (Parser([], 0, s.rejected), Some(p))
  {
    hide Decode;
    assert s.buffer + [f[|f| - 1]] == f;
  }

  /** Garbage before each packet's frame, and garbage after the last. */
  function Interleave(gaps: seq<seq<byte>>, ps: seq<Packet>): seq<byte>
    requires |gaps| == |ps| + 1
    requires forall p :: p in ps ==> Encodable(p)
  {
    if ps == [] then gaps[0]
    else Interleave(gaps[..|ps|], ps[..|ps| - 1]) + Encode(ps[|ps| - 1]) + gaps[|ps|]
  }

  /**
   Resynchronisation: whatever garbage without a sync pair surrounds the frames, even when it ends
   in a first sync byte, exactly the packets come out, in order, and nothing is rejected.
   */
  lemma {:induction false} Resynchronises(s: Parser, gaps: seq<seq<byte>>, ps: seq<Packet>)
    requires Idle(s) && |gaps| == |ps| + 1
    requires forall p :: p in ps ==> Encodable(p)
    requires forall g :: g in gaps ==> NoSyncPair(g)
    ensures var (end, out) := Run(s, Interleave(gaps, ps));
      out == ps && Hunting(end) && end.rejected == s.rejected
  {
    hide Encode, Advance, NoSyncPair;
    if ps == [] {
      GarbageIgnored(s, gaps[0]);
    } else {
      var n := |ps| - 1;
      var before := Interleave(gaps[..|ps|], ps[..n]);
      Resynchronises(s, gaps[..|ps|], ps[..n]);
      RunAppend(s, before + Encode(ps[n]), gaps[|ps|]);
      RunAppend(s, before, Encode(ps[n]));
      FrameParsed(Run(s, before).0, ps[n]);
      GarbageIgnored(Parser([], 0, s.rejected), gaps[|ps|]);
      assert ps == ps[..n] + [ps[n]];
    }
  }

  /** The stream is the frames of `ps` with gaps between, and `tail` is the newest part of the last gap. */
  ghost predicate Explains(gaps: seq<seq<byte>>, ps: seq<Packet>, tail: seq<byte>, stream: seq<byte>) {
    && |gaps| == |ps| + 1
    && (forall p :: p in ps ==> Encodable(p))
    && Interleave(gaps, ps) == stream
    && |tail| <= |gaps[|ps|]|
    && gaps[|ps|][|gaps[|ps|]| - |tail|..] == tail
  }

  /**
   The parser never invents a packet: on any stream at all, the packets that came out are frames that
   occur in the stream, disjoint and in that order, and the bytes being collected are its newest ones.
   */
  lemma {:induction false} PacketsOccurInStream(stream: seq<byte>) returns (gaps: seq<seq<byte>>)
    ensures Explains(gaps, Run(FRESH, stream).1, Run(FRESH, stream).0.buffer, stream)
  {
    hide Advance, Explains, Encode;
    if stream == [] {
      gaps := [[]];
      NothingExplained();
    } else {
      var n := |stream| - 1;
      var (mid, ps) := Run(FRESH, stream[..n]);
      var b := stream[n];
      var before := PacketsOccurInStream(stream[..n]);
      assert stream == stream[..n] + [b];
      if Advance(mid, b).1 == None {
        AdvanceKeepsNewest(mid, b);
        gaps := ExplainByte(before, ps, mid.buffer, stream[..n], b, Advance(mid, b).0.buffer);
      } else {
        AdvanceEmitsBuffer(mid, b);
        gaps := ExplainPacket(before, ps, mid.buffer, stream[..n], b, Advance(mid, b).1.value);
      }
    }
  }

  lemma NothingExplained()
    ensures Explains([[]], [], [], [])
  {
  }

  lemma ExplainByte(gaps: seq<seq<byte>>, ps: seq<Packet>, tail: seq<byte>, stream: seq<byte>, b: byte,
                    next: seq<byte>) returns (longer: seq<seq<byte>>)
    requires Explains(gaps, ps, tail, stream)
    requires |next| <= |tail| + 1 && next == (tail + [b])[|tail| + 1 - |next|..]
    ensures Explains(longer, ps, next, stream + [b])
  {
    hide Encode, Interleave;
    var k := |ps|;
    var last := gaps[k];
    longer := gaps[k := last + [b]];
    LastGapGrows(gaps, ps, last, [b]);
    assert last + [b] == last[..|last| - |tail|] + (tail + [b]);
  }

  lemma ExplainPacket(gaps: seq<seq<byte>>, ps: seq<Packet>, tail: seq<byte>, stream: seq<byte>, b: byte,
                      p: Packet) returns (longer: seq<seq<byte>>)
    requires Explains(gaps, ps, tail, stream)
    requires Encodable(p) && Encode(p) == tail + [b]
    ensures Explains(longer, ps + [p], [], stream + [b])
  {
    hide Encode;
    var k := |ps|;
    var last := gaps[k];
    var cut := last[..|last| - |tail|];
    var shorter := gaps[k := cut];
    LastGapGrows(shorter, ps, cut, tail);
    assert last == cut + tail && shorter[k := last] == gaps;
    longer := shorter + [[]];
    assert longer[..k + 1] == shorter && (ps + [p])[..k] == ps;
    assert Interleave(longer, ps + [p]) == Interleave(shorter, ps) + Encode(p) + [];
    assert Interleave(shorter, ps) + (tail + [b]) == Interleave(gaps, ps) + [b];
  }

  lemma LastGapGrows(gaps: seq<seq<byte>>, ps: seq<Packet>, last: seq<byte>, more: seq<byte>)
    requires |gaps| == |ps| + 1 && gaps[|ps|] == last
    requires forall p :: p in ps ==> Encodable(p)
    ensures Interleave(gaps[|ps| := last + more], ps) == Interleave(gaps, ps) + more
  {
    hide Encode;
    assert gaps[|ps| := last + more][..|ps|] == gaps[..|ps|];
  }

  /** Without a completed packet, what is being collected is a suffix of what was collected and the new byte. */
  lemma AdvanceKeepsNewest(s: Parser, b: byte)
    requires Advance(s, b).1 == None
    ensures var next := Advance(s, b).0.buffer;
      |next| <= |s.buffer| + 1 && next == (s.buffer + [b])[|s.buffer| + 1 - |next|..]
  {
    NextBuffer(s, b);
    var grown := s.buffer + [b];
    assert grown[|grown|..] == [] && grown[0..] == grown && grown[|grown| - 1..] == [b];
  }

  lemma NextBuffer(s: Parser, b: byte)
    ensures var next := Advance(s, b).0.buffer; next == [] || next == [b] || next == s.buffer + [b]
  {
    hide Decode;
  }

  lemma AdvanceEmitsBuffer(s: Parser, b: byte)
    requires Advance(s, b).1.Some?
    ensures Idle(Advance(s, b).0) && Encodable(Advance(s, b).1.value)
    ensures Encode(Advance(s, b).1.value) == s.buffer + [b]
  {
    hide Encode, Decode;
    DecodeInvertsEncode(Advance(s, b).1.value, s.buffer + [b]);
  }

  // ---- how many frames fit in a chunk -----------------------------------------------------

  /** Between frame boundaries every packet costs at least twelve bytes. */
  lemma {:induction false} PacketsCostBytes(s: Parser, stream: seq<byte>)
    requires Reachable(s) && Idle(s)
    ensures 12 * |Run(s, stream).1| + |Run(s, stream).0.buffer| <= |stream|
  {
    hide Decode;
    if stream != [] {
      PacketsCostBytes(s, stream[..|stream| - 1]);
      RunKeepsReachable(s, stream[..|stream| - 1]);
    }
  }

  /** Whatever was collected before, `n` bytes complete at most one frame more than fit in n - 1 bytes. */
  lemma {:induction false} PacketsPerChunk(s: Parser, stream: seq<byte>)
    requires Reachable(s)
    ensures 12 * |Run(s, stream).1| <= |stream| + 11
    ensures Run(s, stream).1 != [] ==> 12 * |Run(s, stream).1| + |Run(s, stream).0.buffer| <= |stream| + 11
  {
    hide Decode;
    if stream != [] {
      PacketsPerChunk(s, stream[..|stream| - 1]);
      RunKeepsReachable(s, stream[..|stream| - 1]);
    }
  }

  // ---- returning to idle ---------------------------------------------------------------------

  /** How many bytes other than the first sync byte can keep the parser busy. */
  function Remaining(s: Parser): int {
    if |s.buffer| == 0 then 0
    else if s.expected == 0 then MAX_FRAME - |s.buffer|
    else s.expected - |s.buffer|
  }

  lemma {:induction false} SettlesWithin(s: Parser, stream: seq<byte>)
    requires Reachable(s) && SYNC1 !in stream
    ensures var end := Run(s, stream).0;
      Idle(end) || Remaining(end) + |stream| <= Remaining(s)
  {
    hide Decode;
    if stream != [] {
      SettlesWithin(s, stream[..|stream| - 1]);
      RunKeepsReachable(s, stream[..|stream| - 1]);
    }
  }

  /** From any reachable state, 139 bytes other than the first sync byte return the parser to idle. */
  lemma SettlesAfterQuietBytes(s: Parser, stream: seq<byte>)
    requires Reachable(s) && SYNC1 !in stream && |stream| >= MAX_FRAME - 1
    ensures Idle(Run(s, stream).0)
  {
    SettlesWithin(s, stream);
    RunKeepsReachable(s, stream);
  }
}
