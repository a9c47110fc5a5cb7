/** What the northbridge's transmit, byte and malformed-frame counters show after any traffic, whatever writes fail. */
module NorthbridgeCounters {
  import opened Bytes
  import opened Codec
  import opened StreamParsing
  import opened Node
  import opened Routing
  import opened Northbridge
  import opened NorthbridgeRuns
  import opened NorthbridgeTraces

  // ---- transmit counters -----------------------------------------------------------------------------------

  /** The byte completes a packet that is counted on port `q` without being taken there. */
  ghost predicate OvercountsAt(b: Bridge, port: byte, x: byte, q: nat, env: Env)
    requires port < |b.parsers|
  {
    Completed(b, port, x).Some? && Overcounts(b, Completed(b, port, x).value, port, q, env)
  }

  /** How often reading the chunk on `port` counts a frame on port `q` that was not taken there. */
  ghost function OverIn(b: Bridge, port: byte, chunk: seq<byte>, q: nat, now: u32, env: Env): nat
    requires Sized(b) && port < PORTS
  {
    if chunk == [] then 0
    else
      var init, x := chunk[..|chunk| - 1], chunk[|chunk| - 1];
      OverIn(b, port, init, q, now, env)
      + if OvercountsAt(BytesIn(b, port, init, now, env), port, x, q, env) then 1 else 0
  }

  ghost function OverBurst(b: Bridge, x: Burst, q: nat, env: Env): nat
    requires Sized(b)
  {
    if Attached(b.router, x.port) then OverIn(BytesNoted(b, x.port, |x.chunk|), x.port, x.chunk, q, x.now, env) else 0
  }

  /** How often the traffic does. */
  ghost function OverAfter(b: Bridge, traffic: seq<Burst>, q: nat, env: Env): nat
    requires Sized(b)
  {
    if traffic == [] then 0
    else
      var init := traffic[..|traffic| - 1];
      OverAfter(b, init, q, env) + OverBurst(After(b, init, env), traffic[|traffic| - 1], q, env)
  }

  /** Port `q`'s transmit counter moved `n` away from the frames the port took. */
  ghost predicate Drifted(b: Bridge, r: Bridge, q: nat, n: nat)
    requires Sized(b) && Sized(r) && q < PORTS
  {
    TxGap(r, q) == (TxGap(b, q) + n) % TWO32
  }

  /** One byte moves a port's transmit counter away from the frames it took exactly if the byte overcounts. */
  lemma ByteDrifts(b: Bridge, port: byte, x: byte, now: u32, env: Env, q: nat)
    requires Sound(b) && Attached(b.router, port) && q < PORTS
    ensures var r := ByteIn(b, port, x, now, env);
      && Kept(b, r)
      && Drifted(b, r, q, if OvercountsAt(b, port, x, q, env) then 1 else 0)
      && (TxGap(r, q) == TxGap(b, q) <==> !OvercountsAt(b, port, x, q, env))
  {
    hide Advance, ByteIn, PacketIn, Encode, Encodable, FlowOk, Takes, TableOk, BindingsOk, Reachable, TxGap, Conserved,
      IsLocal;
    ByteKeeps(b, port, x, now, env);
    ByteInEffect(b, port, x, now, env);
    var b1 := Parsed(b, port, x);
    var r := ByteIn(b, port, x, now, env);
    ParsedGaps(b, port, x);
    GapRange(b, q);
    if Completed(b, port, x).Some? {
      var p := Completed(b, port, x).value;
      OvercountsDepends(b, b1, p, port, q, env);
      assert GapMoves(b1, r, q, Overcounts(b1, p, port, q, env));
    }
  }

  lemma ParsedGaps(b: Bridge, port: byte, x: byte)
    requires Sized(b) && port < PORTS
    ensures Sized(Parsed(b, port, x)) && SameGaps(b, Parsed(b, port, x))
  {
    hide Advance;
  }

  lemma GapRange(b: Bridge, q: nat)
    requires Sized(b) && q < PORTS
    ensures 0 <= TxGap(b, q) < TWO32 && (TxGap(b, q) + 1) % TWO32 != TxGap(b, q) && TxGap(b, q) % TWO32 == TxGap(b, q)
  {
  }

  lemma OvercountsDepends(a: Bridge, b: Bridge, p: Packet, port: byte, q: nat, env: Env)
    requires a.router == b.router && a.bindings == b.bindings && a.enforced == b.enforced
    ensures Overcounts(a, p, port, q, env) == Overcounts(b, p, port, q, env)
  {
    hide Takes;
  }

  lemma DriftsAdd(b: Bridge, mid: Bridge, r: Bridge, q: nat, m: nat, n: nat)
    requires Sized(b) && Sized(mid) && Sized(r) && q < PORTS && Drifted(b, mid, q, m) && Drifted(mid, r, q, n)
    ensures Drifted(b, r, q, m + n)
  {
    hide TxGap;
    ModuloAdds(TxGap(b, q) + m, n);
  }

  lemma ModuloAdds(x: int, n: nat)
    ensures (x % TWO32 + n) % TWO32 == (x + n) % TWO32
  {
    var y := x % TWO32 + n;
    assert x == x / TWO32 * TWO32 + x % TWO32;
    assert y == y / TWO32 * TWO32 + y % TWO32;
    assert x + n == (x / TWO32 + y / TWO32) * TWO32 + y % TWO32;
  }

  lemma NoDrift(b: Bridge, r: Bridge, q: nat)
    requires Sized(b) && Sized(r) && q < PORTS && TxGap(r, q) == TxGap(b, q)
    ensures Drifted(b, r, q, 0)
  {
  }

  lemma {:induction false} BytesDrift(b: Bridge, port: byte, chunk: seq<byte>, now: u32, env: Env, q: nat)
    requires Sound(b) && Attached(b.router, port) && q < PORTS
    ensures Drifted(b, BytesIn(b, port, chunk, now, env), q, OverIn(b, port, chunk, q, now, env))
  {
    hide ByteIn, TableOk, BindingsOk, Reachable, TxGap, OvercountsAt, Drifted;
    NoDrift(b, b, q);
    if chunk != [] {
      var init, x := chunk[..|chunk| - 1], chunk[|chunk| - 1];
      var mid := BytesIn(b, port, init, now, env);
      BytesDrift(b, port, init, now, env, q);
      BytesKeep(b, port, init, now, env);
      ByteDrifts(mid, port, x, now, env, q);
      DriftsAdd(b, mid, ByteIn(mid, port, x, now, env), q, OverIn(b, port, init, q, now, env),
                if OvercountsAt(mid, port, x, q, env) then 1 else 0);
    }
  }

  lemma BurstDrifts(b: Bridge, x: Burst, env: Env, q: nat)
    requires Sound(b) && q < PORTS
    ensures Drifted(b, PortServiced(b, x.port, x.chunk, x.now, env), q, OverBurst(b, x, q, env))
  {
    hide PortServiced, BytesIn, BytesNoted, RejectsNoted, TableOk, BindingsOk, Reachable, TxGap, OverIn, Drifted;
    if Attached(b.router, x.port) {
      var b1 := BytesNoted(b, x.port, |x.chunk|);
      var b2 := BytesIn(b1, x.port, x.chunk, x.now, env);
      NotedKeeps(b, x.port, |x.chunk|, 0);
      NoDrift(b, b1, q);
      BytesDrift(b1, x.port, x.chunk, x.now, env, q);
      BytesKeep(b1, x.port, x.chunk, x.now, env);
      NotedKeeps(b2, x.port, 0, 0);
      NoDrift(b2, RejectsNoted(b2, x.port), q);
      PortReads(b, x, env);
      DriftsAdd(b, b1, b2, q, 0, OverBurst(b, x, q, env));
      DriftsAdd(b, b2, RejectsNoted(b2, x.port), q, OverBurst(b, x, q, env), 0);
    } else {
      UnreadPort(b, x, env);
      NoDrift(b, b, q);
    }
  }

  /**
   Over any traffic, whatever writes fail: modulo 2^32, a port's transmit counter is the number of frames the port
   took, plus one for each broadcast that the port refused while another port took it.
   */
  lemma {:induction false} TransmitCounters(b: Bridge, traffic: seq<Burst>, env: Env, q: nat)
    requires Sound(b) && q < PORTS
    ensures Drifted(b, After(b, traffic, env), q, OverAfter(b, traffic, q, env))
  {
    hide PortServiced, TableOk, BindingsOk, Reachable, TxGap, Drifted, OverBurst;
    NoDrift(b, b, q);
    if traffic != [] {
      var init, x := traffic[..|traffic| - 1], traffic[|traffic| - 1];
      var mid := After(b, init, env);
      TransmitCounters(b, init, env, q);
      TrafficKeeps(b, init, env);
      BurstDrifts(mid, x, env, q);
      DriftsAdd(b, mid, After(b, traffic, env), q, OverAfter(b, init, q, env), OverBurst(mid, x, q, env));
    }
  }

  /**
   So a counter exact at the start is exact after the traffic if and only if such broadcasts were none, modulo
   2^32.
   */
  lemma TransmitExactWhen(b: Bridge, traffic: seq<Burst>, env: Env, q: nat)
    requires Sound(b) && q < PORTS && TxGap(b, q) == 0
    ensures TxGap(After(b, traffic, env), q) == 0 <==> OverAfter(b, traffic, q, env) % TWO32 == 0
  {
    hide After, TxGap;
    TransmitCounters(b, traffic, env, q);
  }

  /** Only the port's own refusals matter: a port that takes every frame is never overcounted. */
  lemma {:induction false} WillingPortExact(b: Bridge, traffic: seq<Burst>, env: Env, q: nat)
    requires Sound(b) && q < PORTS && forall n :: env(q, n)
    ensures OverAfter(b, traffic, q, env) == 0
  {
    hide PortServiced, TableOk, BindingsOk, Reachable, OverIn;
    if traffic != [] {
      var init, x := traffic[..|traffic| - 1], traffic[|traffic| - 1];
      WillingPortExact(b, init, env, q);
      var mid := After(b, init, env);
      if Attached(mid.router, x.port) {
        WillingChunk(BytesNoted(mid, x.port, |x.chunk|), x.port, x.chunk, x.now, env, q);
      }
    }
  }

  lemma {:induction false} WillingChunk(b: Bridge, port: byte, chunk: seq<byte>, now: u32, env: Env, q: nat)
    requires Sized(b) && port < PORTS && forall n :: env(q, n)
    ensures OverIn(b, port, chunk, q, now, env) == 0
  {
    hide Advance, ByteIn, IsBlocked;
    if chunk != [] {
      WillingChunk(b, port, chunk[..|chunk| - 1], now, env, q);
    }
  }

  // ---- a run in which a counter is wrong ---------------------------------------------------------------------

  const HELLO: Packet := Packet(MAIN_COMPUTER, BROADCAST, HEARTBEAT, 0, 1, [])

  /** Three attached ports, the main computer's heartbeat broadcast arriving on the first. */
  function ThreePorts(): Bridge {
    SetUp([Attach(0), Attach(1), Attach(2)]).0
  }

  /**
   A transmit counter can be wrong: from power-on with three ports, a broadcast read on port 0 that port 1 refuses
   and port 2 takes is counted on port 1, where no frame was taken.
   */
  lemma RefusedBroadcastIsCounted(env: Env)
    requires !env(1, 0) && env(2, 0)
    ensures var r := After(ThreePorts(), [Burst(0, Encode(HELLO), 0)], env);
      Sized(r) && TxGap(ThreePorts(), 1) == 0 && TxGap(r, 1) == 1 && !TxExact(r)
  {
    hide After, PacketIn, Encode, TableOk, Reachable, BytesIn, Overcounts, TxGap, SetUp;
    var ops := [Attach(0), Attach(1), Attach(2)];
    var b := ThreePorts();
    SetUpIsSound(ops);
    UnusedGaps(b);
    ThreePortsAre(b);
    var x := Burst(0, Encode(HELLO), 0);
    OneBurst(b, x, env);
    BurstDrifts(b, x, env, 1);
    HelloOvercounts(b, x, env);
  }

  lemma UnusedGaps(b: Bridge)
    requires Unused(b)
    ensures forall q :: 0 <= q < PORTS ==> TxGap(b, q) == 0
  {
  }

  lemma ThreePortsAre(b: Bridge)
    requires b == ThreePorts()
    ensures Sized(b) && b.bindings == Fresh().bindings && !b.enforced
    ensures forall q :: 0 <= q < PORTS ==> b.router.links[q] == Link(q < 3, []) && b.parsers[q] == FRESH
  {
    var ops := [Attach(0), Attach(1), Attach(2)];
    assert ops[..2][..1] == ops[..1] && ops[..1][..0] == [];
    assert SetUp(ops[..1]).0 == SetUpStep(Fresh(), Attach(0)).0;
    assert SetUp(ops[..2]).0 == SetUpStep(SetUp(ops[..1]).0, Attach(1)).0;
    assert b == SetUpStep(SetUp(ops[..2]).0, Attach(2)).0;
  }

  lemma OneBurst(b: Bridge, x: Burst, env: Env)
    requires Sized(b)
    ensures After(b, [x], env) == PortServiced(b, x.port, x.chunk, x.now, env)
  {
    hide PortServiced;
    assert [x][..0] == [];
  }

  /** Of all the frame's bytes only the last one overcounts, and it does. */
  lemma HelloOvercounts(b: Bridge, x: Burst, env: Env)
    requires b == ThreePorts() && x == Burst(0, Encode(HELLO), 0) && !env(1, 0) && env(2, 0)
    ensures Sized(b) && OverBurst(b, x, 1, env) == 1
  {
    hide Encode, Advance, BytesIn;
    ThreePortsAre(b);
    hide ThreePorts;
    var b1 := BytesNoted(b, 0, |x.chunk|);
    var n := |x.chunk| - 1;
    LastByteCompletes(b1, HELLO, 0, 0, env);
    FramePrefix(FRESH, HELLO, n);
    QuietOver(b1, 0, x.chunk[..n], 1, 0, env);
    var mid := BytesIn(b1, 0, x.chunk[..n], 0, env);
    assert Takes(mid.router, 2, env) && !Takes(mid.router, 1, env);
    assert OvercountsAt(mid, 0, x.chunk[n], 1, env);
  }

  lemma {:induction false} QuietOver(b: Bridge, port: byte, chunk: seq<byte>, q: nat, now: u32, env: Env)
    requires Sized(b) && port < PORTS && Run(b.parsers[port], chunk).1 == []
    ensures OverIn(b, port, chunk, q, now, env) == 0
  {
    hide Advance, ByteIn;
    if chunk != [] {
      var init := chunk[..|chunk| - 1];
      QuietOver(b, port, init, q, now, env);
      QuietBytes(b, port, init, now, env);
    }
  }

  // ---- byte and malformed-frame counters ---------------------------------------------------------------------

  /** How many candidates the parser rejects on this stream. */
  function Rejects(s: Parser, stream: seq<byte>): nat {
    if stream == [] then 0
    else
      var init := stream[..|stream| - 1];
      var mid := Run(s, init).0;
      Rejects(s, init) + if Advance(mid, stream[|stream| - 1]).0.rejected != mid.rejected then 1 else 0
  }

  lemma {:induction false} RejectsAppend(s: Parser, a: seq<byte>, b: seq<byte>)
    ensures Rejects(s, a + b) == Rejects(s, a) + Rejects(Run(s, a).0, b)
  {
    hide Advance;
    if b == [] {
      assert a + b == a;
    } else {
      var n := |b| - 1;
      RejectsAppend(s, a, b[..n]);
      RunAppend(s, a, b[..n]);
      assert (a + b)[..|a + b| - 1] == a + b[..n];
    }
  }

  /** The parser's own counter counts them, modulo 2^32. */
  lemma {:induction false} RejectsCounted(s: Parser, stream: seq<byte>)
    ensures Run(s, stream).0.rejected == (s.rejected + Rejects(s, stream)) % TWO32
  {
    hide Advance, Inc32;
    if stream != [] {
      var init := stream[..|stream| - 1];
      RejectsCounted(s, init);
      OneReject(Run(s, init).0, stream[|stream| - 1]);
      Inc32Counts(s.rejected + Rejects(s, init));
    }
  }

  lemma OneReject(s: Parser, b: byte)
    ensures Advance(s, b).0.rejected == s.rejected || Advance(s, b).0.rejected == Inc32(s.rejected)
  {
    hide Decode;
  }

  /** The highest reject counter that the parser of `q` showed at the end of a read of its port, or had before. */
  function HighWater(b: Bridge, traffic: seq<Burst>, q: nat): nat
    requires Sized(b) && q < PORTS
  {
    if traffic == [] then b.snapshots[q]
    else
      var high := HighWater(b, traffic[..|traffic| - 1], q);
      var now := Run(b.parsers[q], Heard(traffic, q)).0.rejected;
      if traffic[|traffic| - 1].port == q && now > high then now else high
  }

  /** What the byte and malformed-frame counters of an attached port show after traffic. */
  ghost predicate Metered(b: Bridge, r: Bridge, traffic: seq<Burst>, q: nat)
    requires Sized(b) && Sized(r) && q < PORTS
  {
    && r.stats[q].rxBytes == (b.stats[q].rxBytes + |Heard(traffic, q)|) % TWO32
    && r.stats[q].malformed == r.snapshots[q] == HighWater(b, traffic, q)
  }

  /** Servicing a port adds the bytes read, raises its malformed count to the parser's, and touches no other port's. */
  lemma PortMeters(b: Bridge, x: Burst, env: Env)
    requires Sized(b) && Attached(b.router, x.port) && b.stats[x.port].malformed == b.snapshots[x.port]
    ensures var r := PortServiced(b, x.port, x.chunk, x.now, env);
      var rejected := Run(b.parsers[x.port], x.chunk).0.rejected;
      && r.stats[x.port].rxBytes == (b.stats[x.port].rxBytes + |x.chunk|) % TWO32
      && r.stats[x.port].malformed == r.snapshots[x.port]
      && r.snapshots[x.port] == (if rejected > b.snapshots[x.port] then rejected else b.snapshots[x.port])
      && r.parsers == b.parsers[x.port := Run(b.parsers[x.port], x.chunk).0]
      && forall q :: 0 <= q < PORTS && q != x.port ==>
           && r.stats[q].rxBytes == b.stats[q].rxBytes && r.stats[q].malformed == b.stats[q].malformed
           && r.snapshots[q] == b.snapshots[q]
  {
    hide BytesIn, Run;
    BytesInShape(BytesNoted(b, x.port, |x.chunk|), x.port, x.chunk, x.now, env);
    PortReads(b, x, env);
    hide PortServiced;
  }

  /**
   Over any traffic, on every attached port: rxBytes is the number of bytes read, modulo 2^32, and malformed is the
   highest value the parser's reject counter showed at the end of a read.
   */
  lemma {:induction false} TrafficMetered(b: Bridge, traffic: seq<Burst>, env: Env, q: nat)
    requires Sound(b) && Balanced(b, 0, env) && q < PORTS && b.router.links[q].attached
    requires b.stats[q].malformed == b.snapshots[q]
    ensures Metered(b, After(b, traffic, env), traffic, q)
  {
    hide PortServiced, TableOk, BindingsOk, Reachable, Balanced, Run;
    if traffic != [] {
      var init, x := traffic[..|traffic| - 1], traffic[|traffic| - 1];
      var mid := After(b, init, env);
      TrafficMetered(b, init, env, q);
      TrafficBalances(b, init, env);
      TrafficKeeps(b, init, env);
      if x.port == q {
        PortMeters(mid, x, env);
        RunAppend(b.parsers[q], Heard(init, q), x.chunk);
        ModuloAdds(b.stats[q].rxBytes + |Heard(init, q)|, |x.chunk|);
      } else {
        OtherPortMeters(mid, x, env, q);
        assert Heard(traffic, q) == Heard(init, q);
      }
    }
  }

  lemma OtherPortMeters(b: Bridge, x: Burst, env: Env, q: nat)
    requires Sized(b) && q < PORTS && q != x.port
    ensures var r := PortServiced(b, x.port, x.chunk, x.now, env);
      && r.stats[q].rxBytes == b.stats[q].rxBytes && r.stats[q].malformed == b.stats[q].malformed
      && r.snapshots[q] == b.snapshots[q]
  {
    hide BytesIn;
    if Attached(b.router, x.port) {
      BytesInShape(BytesNoted(b, x.port, |x.chunk|), x.port, x.chunk, x.now, env);
      PortReads(b, x, env);
      hide PortServiced;
    }
  }

  /** Until the parser's reject counter first wraps, its highest value is its value: all rejects of the port so far. */
  lemma {:induction false} HighWaterIsRejects(b: Bridge, traffic: seq<Burst>, q: nat)
    requires Sized(b) && q < PORTS && b.parsers[q] == FRESH && b.snapshots[q] == 0
    requires Rejects(FRESH, Heard(traffic, q)) < TWO32
    ensures HighWater(b, traffic, q) == Rejects(FRESH, Heard(traffic, q)) == Run(FRESH, Heard(traffic, q)).0.rejected
  {
    hide Run, Advance;
    RejectsCounted(FRESH, Heard(traffic, q));
    if traffic != [] {
      var init, x := traffic[..|traffic| - 1], traffic[|traffic| - 1];
      var more := if x.port == q then x.chunk else [];
      assert Heard(traffic, q) == Heard(init, q) + more;
      RejectsAppend(FRESH, Heard(init, q), more);
      HighWaterIsRejects(b, init, q);
      if x.port != q {
        assert Heard(init, q) + [] == Heard(init, q);
      }
    }
  }

  /**
   From power-on, after any traffic: malformed is the number of candidates rejected on the port while those are fewer
   than 2^32, and in general equals the parser's counter exactly when that stands at its highest; after a wrap the
   firmware adds nothing until the counter passes its old height.
   */
  lemma MalformedCounts(ops: seq<Setup>, enforced: bool, traffic: seq<Burst>, env: Env, q: nat)
    requires q < PORTS && SetUp(ops).0.router.links[q].attached
    ensures var b := SetUp(ops).0.(enforced := enforced);
      var r, stream := After(b, traffic, env), Heard(traffic, q);
      && r.stats[q].rxBytes == |stream| % TWO32
      && (Rejects(FRESH, stream) < TWO32 ==> r.stats[q].malformed == Rejects(FRESH, stream))
      && (r.stats[q].malformed == r.parsers[q].rejected <==> HighWater(b, traffic, q) == r.parsers[q].rejected)
  {
    hide After, SetUp, HighWater, Rejects, TableOk, BindingsOk, RouteFor, Balanced, Run;
    SetUpIsSound(ops);
    var b := SetUp(ops).0.(enforced := enforced);
    FreshMeters(ops);
    EitherSound(SetUp(ops).0, enforced);
    UnusedBalances(b, env);
    TrafficMetered(b, traffic, env, q);
    if Rejects(FRESH, Heard(traffic, q)) < TWO32 {
      HighWaterIsRejects(b, traffic, q);
    }
  }

  lemma EitherSound(b: Bridge, enforced: bool)
    requires BridgeOk(b)
    ensures Sound(b.(enforced := enforced))
  {
  }

  lemma {:induction false} FreshMeters(ops: seq<Setup>)
    ensures forall q :: 0 <= q < PORTS ==> SetUp(ops).0.snapshots[q] == 0
  {
    hide BindNode;
    if ops != [] {
      FreshMeters(ops[..|ops| - 1]);
      StepMeters(SetUp(ops[..|ops| - 1]).0, ops[|ops| - 1]);
    }
  }

  lemma StepMeters(b: Bridge, op: Setup)
    ensures SetUpStep(b, op).0.snapshots == b.snapshots
  {
    hide SetRoute, FindBinding;
  }
}
