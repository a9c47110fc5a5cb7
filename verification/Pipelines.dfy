/** Publish, relay, decode: what a node publishes is what the dashboard shows. */
module Pipelines {
  import opened Bytes
  import opened Codec
  import opened StreamParsing
  import opened Node
  import opened Lighting
  import opened SecurityMessages
  import opened MotorcycleComputers
  import opened Routing
  import B = Northbridge
  import R = NorthbridgeRuns
  import T = NorthbridgeTraces

  // ---- lighting -------------------------------------------------------------------------------------

  /** The lamps on the dashboard are the lamps the lighting node read, whatever was shown before. */
  lemma LightingStateShown(d: Dash, io: Io, actual: Lamps, now: u32)
    requires |d.faults| == 4 && io.address == LIGHTING
    ensures Dispatch(d, Stamped(io, StatePacket(actual, MAIN_COMPUTER), false), now)
         == d.(lighting := LightingSnapshot(true, actual, now))
  {
    hide DiagnosticEntries, PortEntries, U32At, LampEntries;
    var payload := StatePacket(actual, MAIN_COMPUTER).payload;
    LampsRead(payload, d.lighting.lamps, actual);
  }

  lemma LampsRead(payload: seq<byte>, shown: Lamps, actual: Lamps)
    requires payload == StatePacket(actual, MAIN_COMPUTER).payload
    ensures LampEntries(payload, 0, shown) == Some(actual)
  {
    var l1 := Set(shown, LeftIndicator, actual.left);
    var l2 := Set(l1, RightIndicator, actual.right);
    var l3 := Set(l2, BrakeBright, actual.brake);
    assert Set(l3, HighBeam, actual.high) == actual;
    assert LampEntries(payload, 3, l3) == LampEntries(payload, 4, actual);
    assert LampEntries(payload, 2, l2) == LampEntries(payload, 3, l3);
    assert LampEntries(payload, 1, l1) == LampEntries(payload, 2, l2);
  }

  function DiagnosticBytes(c: ChannelDiagnostic): (b: seq<byte>)
    ensures |b| == 6
  {
    [OutputId(c.output), Bit(c.driven), Bit(c.feedback), ElectricalCode(c.status)] + U16Bytes(c.current)
  }

  predicate IsFaulty(c: ChannelDiagnostic) {
    c.status == OpenLoad || c.status == OverCurrent
  }

  /** The lighting diagnostics message for these four evaluated channels. */
  function LightingDiagnosticsPacket(cs: seq<ChannelDiagnostic>, destination: byte): Packet
    requires |cs| == 4
  {
    Packet(MAIN_COMPUTER, destination, LIGHTING_DIAGNOSTIC,
           if exists c :: c in cs && IsFaulty(c) then FLAG_RESPONSE + FLAG_FAULT else FLAG_RESPONSE, 0,
           DiagnosticBytes(cs[0]) + DiagnosticBytes(cs[1]) + DiagnosticBytes(cs[2]) + DiagnosticBytes(cs[3]))
  }

  lemma ChannelRead(payload: seq<byte>, i: nat, c: ChannelDiagnostic)
    requires |payload| == 24 && i < 4 && payload[6 * i..6 * i + 6] == DiagnosticBytes(c)
    ensures DiagnosticEntry(payload, i) == Some(c)
  {
    var at := 6 * i;
    var b := payload[at..at + 6];
    assert payload[at] == b[0] && payload[at + 1] == b[1] && payload[at + 2] == b[2] && payload[at + 3] == b[3];
    assert OutputOf(b[0]) == Some(c.output) && ElectricalOf(b[3]) == Some(c.status);
    assert payload[at + 4] == b[4] == c.current / 0x100 && payload[at + 5] == b[5] == c.current % 0x100;
    assert U16At(payload, at + 4) == c.current;
  }

  lemma {:induction false} ChannelsRead(payload: seq<byte>, cs: seq<ChannelDiagnostic>, n: nat)
    requires |payload| == 24 && |cs| == 4 && n <= 4
    requires forall i :: 0 <= i < 4 ==> DiagnosticEntry(payload, i) == Some(cs[i])
    ensures DiagnosticEntries(payload, n) == Some(cs[..n])
  {
    hide DiagnosticEntry;
    if n > 0 {
      ChannelsRead(payload, cs, n - 1);
      assert cs[..n - 1] + [cs[n - 1]] == cs[..n];
    }
  }

  lemma LightingDiagnosticsShown(d: Dash, io: Io, cs: seq<ChannelDiagnostic>, now: u32)
    requires |d.faults| == 4 && io.address == LIGHTING && |cs| == 4
    ensures Dispatch(d, Stamped(io, LightingDiagnosticsPacket(cs, MAIN_COMPUTER), false), now)
         == d.(diagnostics := DiagnosticSnapshot(true, cs, now))
  {
    hide LampEntries, PortEntries, U32At, DiagnosticEntry, DiagnosticBytes, IsFaulty;
    var p := Stamped(io, LightingDiagnosticsPacket(cs, MAIN_COMPUTER), false);
    forall i | 0 <= i < 4
      ensures DiagnosticEntry(p.payload, i) == Some(cs[i])
    {
      assert p.payload[6 * i..6 * i + 6] == DiagnosticBytes(cs[i]);
      ChannelRead(p.payload, i, cs[i]);
    }
    ChannelsRead(p.payload, cs, 4);
    assert cs[..4] == cs;
  }

  // ---- security ---------------------------------------------------------------------------------------

  lemma SecurityStateShown(d: Dash, io: Io, s: Snapshot, now: u32)
    requires |d.faults| == 4 && io.address == SECURITY
    ensures Dispatch(d, Stamped(io, SecurityStatePacket(s, MAIN_COMPUTER), false), now)
         == d.(security := d.security.(valid := true, updatedAt := now, state := s))
  {
    hide LampEntries, DiagnosticEntries, PortEntries, U32At;
  }

  lemma SecurityEventShown(d: Dash, io: Io, e: Event, now: u32)
    requires |d.faults| == 4 && io.address == SECURITY
    ensures Dispatch(d, Stamped(io, SecurityEventPacket(e, MAIN_COMPUTER), false), now)
         == d.(security := d.security.(lastEvent := e, hasEvent := true, lastEventAt := now))
  {
    hide LampEntries, DiagnosticEntries, PortEntries, U32At;
  }

  /** The security decoder accepts exactly the payloads the security node can publish, as the snapshots they carry. */
  lemma SecurityStateAcceptedWhen(d: Dash, p: Packet, s: Snapshot, now: u32)
    requires p.source == SECURITY && p.kind == SECURITY_STATE
    ensures DecodeSecurityState(d, p, now)
         == Some(d.(security := d.security.(valid := true, updatedAt := now, state := s)))
       <==> p.payload == SecurityStatePacket(s, MAIN_COMPUTER).payload
    ensures DecodeSecurityState(d, p, now).Some? ==>
      exists s' :: p.payload == SecurityStatePacket(s', MAIN_COMPUTER).payload
  {
    if DecodeSecurityState(d, p, now).Some? {
      var s' := DecodeSecurityState(d, p, now).value.security.state;
      assert p.payload == SecurityStatePacket(s', MAIN_COMPUTER).payload;
    }
  }

  // ---- northbridge ---------------------------------------------------------------------------------------

  lemma BridgeFaultShown(d: Dash, address: byte, expected: byte, actual: byte, events: u32, sequence: u16, now: u32)
    requires |d.faults| == 4
    ensures var p := B.TopologyFaultPacket(address, expected, actual, events).(source := NORTHBRIDGE,
                                                                                sequence := sequence);
      Dispatch(d, p, now)
      == d.(bridge := d.bridge.(faultActive := true, faultNode := address, expectedPort := expected,
                                actualPort := actual, topologyFaults := events, updatedAt := now))
  {
    hide LampEntries, DiagnosticEntries, PortEntries, U32At, U32Bytes;
    var head: seq<byte> := [0x02, 0x01, address, expected, actual];
    U32RoundTrip(events, head, []);
    assert head + U32Bytes(events) + [] == head + U32Bytes(events);
  }

  /** What the dashboard should show of the ports below `n`. */
  function ShownPorts(b: B.Bridge, n: nat): (ports: seq<PortSnapshot>)
    requires B.Sized(b)
    ensures |ports| == PORTS
  {
    seq(PORTS, q requires 0 <= q < PORTS =>
      if q < n && b.router.links[q].attached
        then PortSnapshot(true, b.stats[q].rxPackets, b.stats[q].txPackets, b.stats[q].rxBytes, b.stats[q].dropped,
                          b.stats[q].malformed)
        else NO_PORT)
  }

  lemma EntryRead(payload: seq<byte>, at: nat, port: byte, s: B.Stats)
    requires at + 21 <= |payload| && payload[at..at + 21] == B.PortEntry(port, s)
    ensures payload[at] == port
    ensures PortEntry(payload, at) == PortSnapshot(true, s.rxPackets, s.txPackets, s.rxBytes, s.dropped, s.malformed)
  {
    var pre, post := payload[..at], payload[at + 21..];
    assert payload == pre + B.PortEntry(port, s) + post;
    assert payload[at] == payload[at..at + 21][0];
    var h1 := pre + [port];
    var h2 := h1 + U32Bytes(s.rxPackets);
    var h3 := h2 + U32Bytes(s.txPackets);
    var h4 := h3 + U32Bytes(s.rxBytes);
    var h5 := h4 + U32Bytes(s.dropped);
    hide U32At, U32Bytes;
    WordRead(payload, h1, s.rxPackets,
             U32Bytes(s.txPackets) + U32Bytes(s.rxBytes) + U32Bytes(s.dropped) + U32Bytes(s.malformed) + post);
    WordRead(payload, h2, s.txPackets, U32Bytes(s.rxBytes) + U32Bytes(s.dropped) + U32Bytes(s.malformed) + post);
    WordRead(payload, h3, s.rxBytes, U32Bytes(s.dropped) + U32Bytes(s.malformed) + post);
    WordRead(payload, h4, s.dropped, U32Bytes(s.malformed) + post);
    WordRead(payload, h5, s.malformed, post);
  }

  lemma WordRead(payload: seq<byte>, head: seq<byte>, v: u32, tail: seq<byte>)
    requires payload == head + U32Bytes(v) + tail
    ensures U32At(payload, |head|) == v
  {
    U32RoundTrip(v, head, tail);
  }

  lemma {:induction false} EntriesPrefix(links: seq<Link>, stats: seq<B.Stats>, m: nat, n: nat)
    requires m <= n <= PORTS && |links| == |stats| == PORTS
    ensures var a, b := B.PortEntries(links, stats, m), B.PortEntries(links, stats, n);
      |a| <= |b| && b[..|a|] == a
  {
    hide B.PortEntry;
    if m < n {
      EntriesPrefix(links, stats, m, n - 1);
    }
  }

  /** The entry of attached port `n` lies right after those of the ports below it. */
  lemma EntryAt(links: seq<Link>, stats: seq<B.Stats>, head: seq<byte>, n: nat)
    requires n < PORTS && |links| == |stats| == PORTS && |head| == 18 && links[n].attached
    ensures var payload := head + B.PortEntries(links, stats, PORTS);
      var at := 18 + |B.PortEntries(links, stats, n)|;
      && at + 21 <= |payload| && payload[at..at + 21] == B.PortEntry(n, stats[n])
  {
    hide B.PortEntry;
    EntriesPrefix(links, stats, n, n + 1);
    EntriesPrefix(links, stats, n + 1, PORTS);
    var all, below := B.PortEntries(links, stats, PORTS), B.PortEntries(links, stats, n);
    var upTo := B.PortEntries(links, stats, n + 1);
    assert upTo == below + B.PortEntry(n, stats[n]);
    assert (head + all)[18 + |below|..18 + |below| + 21] == all[..|upTo|][|below|..];
  }

  /** Decoding from port `n`'s place on, with the ports below it already shown, shows all of them. */
  lemma {:induction false} PortsRead(b: B.Bridge, payload: seq<byte>, head: seq<byte>, n: nat)
    requires B.Sized(b) && n <= PORTS && |head| == 18
    requires payload == head + B.PortEntries(b.router.links, b.stats, PORTS)
    ensures var count, below := B.CountAttached(b.router.links, 0), B.CountAttached(b.router.links, n);
      && below <= count && |payload| == 18 + 21 * count
      && PortEntries(payload, count - below, count, ShownPorts(b, n)) == Some(ShownPorts(b, PORTS))
    decreases PORTS - n
  {
    hide B.PortEntry, PortEntry, B.PortEntries;
    var links, stats := b.router.links, b.stats;
    T.EntriesLength(links, stats, n);
    T.EntriesLength(links, stats, PORTS);
    if n < PORTS {
      PortsRead(b, payload, head, n + 1);
      if links[n].attached {
        EntryAt(links, stats, head, n);
        var at := 18 + |B.PortEntries(links, stats, n)|;
        EntryRead(payload, at, n, stats[n]);
        assert ShownPorts(b, n)[n := PortEntry(payload, at)] == ShownPorts(b, n + 1);
      } else {
        assert ShownPorts(b, n) == ShownPorts(b, n + 1);
      }
    }
  }

  /**
   The dashboard shows the northbridge's own books: its four counters, every attached port's counters,
   and nothing for the other ports.
   */
  lemma BridgeDiagnosticsShown(d: Dash, b: B.Bridge, sequence: u16, now: u32)
    requires |d.faults| == 4 && B.Sized(b) && B.CountAttached(b.router.links, 0) <= 5
    ensures Dispatch(d, B.DiagnosticPacket(b, MAIN_COMPUTER).(source := NORTHBRIDGE, sequence := sequence), now)
         == d.(bridge := d.bridge.(
              valid := true, forwarded := b.counts.forwarded, dropped := b.counts.dropped,
              movements := b.counts.movements, topologyFaults := b.counts.topologyFaults,
              ports := ShownPorts(b, PORTS), updatedAt := now))
  {
    hide LampEntries, DiagnosticEntries, PortEntries, U32At, U32Bytes, B.PortEntries;
    var c := b.counts;
    var count := B.CountAttached(b.router.links, 0);
    var payload := B.DiagnosticPacket(b, MAIN_COMPUTER).payload;
    var entries := B.PortEntries(b.router.links, b.stats, PORTS);
    var h1: seq<byte> := [0x02, count];
    var h2 := h1 + U32Bytes(c.forwarded);
    var h3 := h2 + U32Bytes(c.dropped);
    var h4 := h3 + U32Bytes(c.movements);
    WordRead(payload, h1, c.forwarded,
             U32Bytes(c.dropped) + U32Bytes(c.movements) + U32Bytes(c.topologyFaults) + entries);
    WordRead(payload, h2, c.dropped, U32Bytes(c.movements) + U32Bytes(c.topologyFaults) + entries);
    WordRead(payload, h3, c.movements, U32Bytes(c.topologyFaults) + entries);
    WordRead(payload, h4, c.topologyFaults, entries);
    PortsRead(b, payload, h4 + U32Bytes(c.topologyFaults), 0);
    assert ShownPorts(b, 0) == BLANK.bridge.ports;
  }

  // ---- across the northbridge --------------------------------------------------------------------------------

  /** A frame arriving whole on a port is relayed as that frame, and the port is ready for the next. */
  lemma FrameRelayed(b: B.Bridge, p: Packet, port: byte, now: u32, env: Env)
    requires R.Sound(b) && Attached(b.router, port) && Hunting(b.parsers[port]) && Encodable(p)
    requires !R.IsBlocked(b, p, port) && p.destination != NORTHBRIDGE
    ensures var r := B.BytesIn(b, port, Encode(p), now, env);
      R.Relayed(b.router, r.router, p, port, Encode(p)) && Idle(r.parsers[port]) && R.Kept(b, r)
      && (forall a :: a != p.source ==> RouteFor(r.router.routes, a) == RouteFor(b.router.routes, a))
  {
    hide Encode, Advance, B.ByteIn, B.PacketIn, R.Relayed, TableOk, RouteFor, Reachable, R.BindingsOk, R.BooksOk,
      R.FrameOk, B.ExpectedPort;
    var f := Encode(p);
    var n := |f| - 1;
    R.LastByteCompletes(b, p, port, now, env);
    var b1 := B.BytesIn(b, port, f[..n], now, env);
    R.RelaysByteForByte(b1, p, port, f[n], now, env);
    R.ByteInEffect(b1, port, f[n], now, env);
    R.BytesKeep(b, port, f, now, env);
  }

  /**
   A packet for the main computer that enters the northbridge on one port leaves by the port the main computer is
   routed to, and is what the main computer's parser makes of the new bytes there.
   */
  lemma AcrossTheBridge(b: B.Bridge, p: Packet, port: byte, q: byte, s: Parser, now: u32, env: Env)
    requires R.Sound(b) && Attached(b.router, port) && Hunting(b.parsers[port]) && Encodable(p)
    requires !R.IsBlocked(b, p, port) && p.destination == MAIN_COMPUTER && p.source != MAIN_COMPUTER
    requires RouteFor(b.router.routes, MAIN_COMPUTER) == Some(q) && q != port && q < PORTS && Hunting(s)
    ensures var log, log' := b.router.links[q].log, B.BytesIn(b, port, Encode(p), now, env).router.links[q].log;
      |log'| == |log| + 1 && Run(s, log'[|log|].frame) == (Parser([], 0, s.rejected), [p])
  {
    hide Encode, B.BytesIn, Run, TableOk, RouteFor, Reachable, R.BindingsOk, B.Misplaced;
    FrameRelayed(b, p, port, now, env);
    FrameParsed(s, p);
    assert LeavesBy(B.BytesIn(b, port, Encode(p), now, env).router, p, port, q);
  }
}
