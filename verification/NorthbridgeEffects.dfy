/** What the northbridge must do with a packet: count, learn, relay, report and answer, byte by byte. */
module NorthbridgeEffects {
  import opened Bytes
  import opened Codec
  import opened StreamParsing
  import opened Node
  import opened Routing
  import opened Northbridge
  import opened NorthbridgeRuns

  // ---- packets of its own -----------------------------------------------------------------------

  function Quad(v: u32): seq<byte> {
    [v / 0x100_0000, v / 0x1_0000 % 0x100, v / 0x100 % 0x100, v % 0x100]
  }

  lemma QuadIs(v: u32)
    ensures U32Bytes(v) == Quad(v)
  {
    BigEndian(0, v);
  }

  /** A packet of the northbridge's own on the wire: its own address, and its next number if it had none. */
  function OwnPacket(b: Bridge, p: Packet): Packet {
    Packet(0x10, p.destination, p.kind, p.flags, if p.sequence == 0 then b.localSequence else p.sequence, p.payload)
  }

  /** Sending one: a frame on that port and no other if it is attached, counted exactly if it was taken. */
  lemma OwnWrites(b: Bridge, p: Packet, egress: byte, env: Env)
    requires Sized(b)
    ensures var (r, ok) := SendLocal(b, p, egress, env);
      var attached := egress < PORTS && b.router.links[egress].attached;
      var writes := attached && |p.payload| <= 128;
      && ok == (writes && env(egress, |b.router.links[egress].log|))
      && r.router == (if writes then b.router.(links := b.router.links[egress := Link(true,
           b.router.links[egress].log + [WireEvent(Encode(OwnPacket(b, p)), ok, None)])]) else b.router)
      && r.localSequence == (if attached && p.sequence == 0
                             then if b.localSequence == 65535 then 1 else b.localSequence + 1 else b.localSequence)
      && r == b.(router := r.router, localSequence := r.localSequence, stats := r.stats)
      && |r.stats| == PORTS
      && forall q :: 0 <= q < PORTS ==>
           r.stats[q] == if ok && q == egress then b.stats[q].(txPackets := (b.stats[q].txPackets + 1) % 0x1_0000_0000)
                         else b.stats[q]
  {
    hide Encode;
  }

  /** These packets sent one after another by the same port. */
  function SentAll(b: Bridge, ps: seq<Packet>, egress: byte, env: Env): Bridge {
    if ps == [] then b else SendLocal(SentAll(b, ps[..|ps| - 1], egress, env), ps[|ps| - 1], egress, env).0
  }

  function EntryBytes(port: byte, s: Stats): seq<byte> {
    [port] + Quad(s.rxPackets) + Quad(s.txPackets) + Quad(s.rxBytes) + Quad(s.dropped) + Quad(s.malformed)
  }

  /** One entry for every attached port below `n`, in port order. */
  function EntriesBytes(b: Bridge, n: nat): seq<byte>
    requires Sized(b) && n <= PORTS
  {
    if n == 0 then []
    else EntriesBytes(b, n - 1) + if b.router.links[n - 1].attached then EntryBytes(n - 1, b.stats[n - 1]) else []
  }

  /** How many of the ports below `n` are attached. */
  function AttachedBelow(b: Bridge, n: nat): (k: nat)
    requires Sized(b) && n <= PORTS
    ensures k <= n
  {
    if n == 0 then 0 else AttachedBelow(b, n - 1) + if b.router.links[n - 1].attached then 1 else 0
  }

  lemma {:induction false} EntriesAre(b: Bridge, n: nat)
    requires Sized(b) && n <= PORTS
    ensures Northbridge.PortEntries(b.router.links, b.stats, n) == EntriesBytes(b, n)
    ensures CountAttached(b.router.links, n) + AttachedBelow(b, n) == CountAttached(b.router.links, 0)
  {
    hide U32Bytes, Quad;
    if n > 0 {
      EntriesAre(b, n - 1);
      var s := b.stats[n - 1];
      QuadIs(s.rxPackets);
      QuadIs(s.txPackets);
      QuadIs(s.rxBytes);
      QuadIs(s.dropped);
      QuadIs(s.malformed);
    }
  }

  /** Diagnostics: subsystem 2, how many ports, the four counters, the ports' own counters. */
  lemma DiagnosticBytesAre(b: Bridge, to: byte)
    requires Sized(b)
    ensures DiagnosticPacket(b, to)
         == Packet(0x01, to, 0x60, 0x02, 0,
                   [0x02, AttachedBelow(b, PORTS)] + Quad(b.counts.forwarded) + Quad(b.counts.dropped)
                   + Quad(b.counts.movements) + Quad(b.counts.topologyFaults) + EntriesBytes(b, PORTS))
  {
    hide U32Bytes, Quad;
    EntriesAre(b, PORTS);
    QuadIs(b.counts.forwarded);
    QuadIs(b.counts.dropped);
    QuadIs(b.counts.movements);
    QuadIs(b.counts.topologyFaults);
  }

  /**
   What the northbridge sends back, by the port the packet came by, for a packet to itself: an ACK with the packet's
   number if one is asked for, and then, for a discovery its identity and uptime, for a heartbeat a heartbeat, and
   for a diagnostics or state request its diagnostics.
   */
  function Replies(b: Bridge, p: Packet, port: byte, now: u32, env: Env): seq<Packet>
    requires Sized(b)
  {
    var ack := if p.flags % 2 == 1 then [Packet(0x01, p.source, 0x02, 0x02, p.sequence, [])] else [];
    SentSized(b, ack, port, env);
    ack
    + if p.kind == 0x51 then
        [Packet(0x01, p.source, 0x50, 0x02, 0,
                [0x01, 0x10, 0x03, 0x01, 0, 1, 0, 1, 0, 0] + Quad(now) + [0x00, 0x03])]
      else if p.kind == 0x01 then [Packet(0x01, p.source, 0x01, 0x02, 0, [])]
      else if p.kind == 0x60 || p.kind == 0x10 then [DiagnosticPacket(SentAll(b, ack, port, env), p.source)]
      else []
  }

  lemma {:induction false} SentSized(b: Bridge, ps: seq<Packet>, egress: byte, env: Env)
    requires Sized(b)
    ensures Sized(SentAll(b, ps, egress, env))
  {
    hide SendLocal;
    if ps != [] {
      SentSized(b, ps[..|ps| - 1], egress, env);
      SendLocalShape(SentAll(b, ps[..|ps| - 1], egress, env), ps[|ps| - 1], egress, env);
    }
  }

  lemma LocalReplies(b: Bridge, p: Packet, port: byte, now: u32, env: Env)
    requires Sized(b)
    ensures LocalHandled(b, p, port, now, env)
         == SentAll(b.(lastService := now), Replies(b.(lastService := now), p, port, now, env), port, env)
  {
    hide SendLocal, DiagnosticPacket, U32Bytes, Quad, SentAll;
    QuadIs(now);
    var b0 := b.(lastService := now);
    var ack := Packet(0x01, p.source, 0x02, 0x02, p.sequence, []);
    var acks := if p.flags % 2 == 1 then [ack] else [];
    var b1 := if p.flags % 2 == 1 then SendLocal(b0, ack, port, env).0 else b0;
    SentAppend(b0, [], ack, port, env);
    assert SentAll(b0, acks, port, env) == b1 by {
      assert [] + [ack] == [ack];
    }
    SendLocalShape(b0, ack, port, env);
    SendLocalStamp(b0, ack, port, env);
    DiagnosticDepends(b1, b.(router := b1.router, stats := b1.stats), p.source);
    var all := Replies(b0, p, port, now, env);
    if |all| > |acks| {
      SentAppend(b0, acks, all[|acks|], port, env);
      assert all == acks + [all[|acks|]];
    } else {
      assert all == acks;
    }
  }

  lemma SentAppend(b: Bridge, ps: seq<Packet>, p: Packet, port: byte, env: Env)
    ensures SentAll(b, ps + [p], port, env) == SendLocal(SentAll(b, ps, port, env), p, port, env).0
    ensures SentAll(b, [], port, env) == b
  {
    hide SendLocal;
    assert (ps + [p])[..|ps|] == ps;
  }

  lemma SendLocalStamp(b: Bridge, p: Packet, port: byte, env: Env)
    ensures var r := SendLocal(b, p, port, env).0; r.lastService == b.lastService && r.counts == b.counts
  {
    hide WriteTo;
  }

  // ---- a misplaced packet -----------------------------------------------------------------------

  /** The source is bound to another port than the packet came by. */
  predicate Elsewhere(b: Bridge, p: Packet, port: byte) {
    exists i :: 0 <= i < |b.bindings| && FindBinding(b.bindings, p.source, 0) == i && b.bindings[i].port != port
  }

  /**
   Under enforced topology a packet from a bound source on another port goes no further: it is counted as received,
   moved, a topology fault, and dropped, there and in all; and the main computer, if it has a route, is sent the node,
   where it belongs, where it was seen, and the number of faults so far.
   */
  lemma MisplacedIsReported(b: Bridge, p: Packet, port: byte, now: u32, env: Env)
    requires Sized(b) && port < PORTS && b.enforced && Elsewhere(b, p, port)
    ensures var c := b.counts;
      var faults: u32 := (c.topologyFaults + 1) % 0x1_0000_0000;
      var i := FindBinding(b.bindings, p.source, 0);
      var b1 := b.(counts := Counts(c.forwarded, (c.dropped + 1) % 0x1_0000_0000, (c.movements + 1) % 0x1_0000_0000,
                                    faults),
                   stats := b.stats[port := b.stats[port].(
                     rxPackets := (b.stats[port].rxPackets + 1) % 0x1_0000_0000,
                     dropped := (b.stats[port].dropped + 1) % 0x1_0000_0000)]);
      i < PORTS
      && PacketIn(b, p, port, now, env)
         == match RouteFor(b.router.routes, 0x01)
            case None => b1
            case Some(q) => SendLocal(b1, Packet(0x01, 0x01, 0x40, 0x04, 0,
                              [0x02, 0x01, p.source, b.bindings[i].port, port] + Quad(faults)), q, env).0
  {
    hide SendLocal, U32Bytes, Quad, FindBinding, RouteFor;
    QuadIs(Inc32(b.counts.topologyFaults));
    var s := b.stats[port];
    assert DropCounted(RxCounted(b.stats, port), port)
        == b.stats[port := s.(rxPackets := Inc32(s.rxPackets), dropped := Inc32(s.dropped))];
  }

  // ---- counting ---------------------------------------------------------------------------------

  /** The packet is relayed: not blocked, not for the northbridge itself, and some port it leaves by takes it. */
  ghost predicate IsRelayed(b: Bridge, r: Bridge, p: Packet, port: byte, env: Env) {
    && !(b.enforced && Elsewhere(b, p, port)) && p.destination != 0x10
    && exists q :: 0 <= q < PORTS && LeavesBy(r.router, p, port, q) && Takes(b.router, q, env)
  }

  /**
   Every packet is counted as received on its port; as moved if its source is bound elsewhere, and then as a topology
   fault where that is enforced; as forwarded if it is relayed; and, unless it was for the northbridge itself, else as
   dropped, there and in all.
   */
  lemma PacketCounts(b: Bridge, p: Packet, port: byte, now: u32, env: Env)
    requires Sized(b) && TableOk(b.router) && Encodable(p) && Attached(b.router, port)
    ensures var r, c := PacketIn(b, p, port, now, env), b.counts;
      var blocked := b.enforced && Elsewhere(b, p, port);
      var relayed := IsRelayed(b, r, p, port, env);
      var dropped := blocked || (p.destination != 0x10 && !relayed);
      && Sized(r)
      && r.counts == Counts(
           if relayed then (c.forwarded + 1) % 0x1_0000_0000 else c.forwarded,
           if dropped then (c.dropped + 1) % 0x1_0000_0000 else c.dropped,
           if Elsewhere(b, p, port) then (c.movements + 1) % 0x1_0000_0000 else c.movements,
           if blocked then (c.topologyFaults + 1) % 0x1_0000_0000 else c.topologyFaults)
      && forall q :: 0 <= q < PORTS ==>
           && r.stats[q].rxPackets == (if q == port then (b.stats[q].rxPackets + 1) % 0x1_0000_0000
                                       else b.stats[q].rxPackets)
           && r.stats[q].dropped == (if q == port && dropped then (b.stats[q].dropped + 1) % 0x1_0000_0000
                                     else b.stats[q].dropped)
  {
    hide Blocked, LocalHandled, Forwarded, MarkSeen, LeavesBy, Takes, Encode, TableOk, Encodable, FindBinding, RouteFor;
    var b0 := b.(stats := RxCounted(b.stats, port));
    var b1 := if Misplaced(b, p, port) then Moved(b0) else b0;
    ElsewhereIs(b, p, port);
    if IsBlocked(b, p, port) {
      BlockedCounts(b, p, port, env);
    } else if p.destination == NORTHBRIDGE {
      MarkSeenShape(b1.router, p.source, port, now);
      var b2 := b1.(router := MarkSeen(b1.router, p.source, port, now));
      LocalSendsOwn(b2, p, port, now, env);
      SendsOwnCounts(b2, LocalHandled(b2, p, port, now, env), env);
      LocalHandledShape(b2, p, port, now, env);
    } else {
      RelayedStats(b, b1, p, port, now, env);
    }
  }

  lemma ElsewhereIs(b: Bridge, p: Packet, port: byte)
    ensures Elsewhere(b, p, port) <==> Misplaced(b, p, port)
  {
  }

  lemma BlockedCounts(b: Bridge, p: Packet, port: byte, env: Env)
    requires Sized(b) && port < PORTS && IsBlocked(b, p, port)
    ensures var r, c := Blocked(Moved(b.(stats := RxCounted(b.stats, port))), p, port, env), b.counts;
      && Sized(r)
      && r.counts == Counts(c.forwarded, Inc32(c.dropped), Inc32(c.movements), Inc32(c.topologyFaults))
      && Counted(b.stats, r.stats, port, true)
  {
    hide Blocked, TopologyFaultPacket, Inc32, ExpectedPort;
    var b1 := b.(counts := b.counts.(movements := Inc32(b.counts.movements),
                                     topologyFaults := Inc32(b.counts.topologyFaults),
                                     dropped := Inc32(b.counts.dropped)),
                 stats := DropCounted(RxCounted(b.stats, port), port));
    BlockedSendsOwn(b, b1, p, port, env);
    SendsOwnCounts(b1, Blocked(Moved(b.(stats := RxCounted(b.stats, port))), p, port, env), env);
  }

  lemma RelayedStats(b: Bridge, b1: Bridge, p: Packet, port: byte, now: u32, env: Env)
    requires Sized(b) && TableOk(b.router) && Encodable(p) && Attached(b.router, port) && Arrived(b, b1, port)
    requires p.destination != NORTHBRIDGE
    ensures var r := Forwarded(b1, p, port, now, env);
      var ok := exists q :: 0 <= q < PORTS && LeavesBy(r.router, p, port, q) && Takes(b.router, q, env);
      && Sized(r) && Counted(b.stats, r.stats, port, !ok)
      && r.counts == b1.counts.(forwarded := if ok then Inc32(b1.counts.forwarded) else b1.counts.forwarded,
                                dropped := if ok then b1.counts.dropped else Inc32(b1.counts.dropped))
  {
    hide Forward, MarkSeen, LeavesBy, Takes, GrewBy, TableOk, Encode, Encodable, Inc32, Accounted;
    ForwardEffect(b.router, p, port, now, env);
    ForwardedStats(b, b1, p, port, now, env);
    AccountedCounts(b1.(router := Forward(b.router, p, port, now, env).0), p, port,
                    Forward(b.router, p, port, now, env).1);
  }

  lemma AccountedCounts(b: Bridge, p: Packet, port: byte, ok: bool)
    ensures Accounted(b, p, port, ok).counts == b.counts
  {
    hide BroadcastCounted;
  }

  // ---- learning ---------------------------------------------------------------------------------

  /** A packet that is not blocked teaches its source's route, if it had one or the table has room. */
  lemma PacketTeaches(b: Bridge, p: Packet, port: byte, now: u32, env: Env)
    requires Sized(b) && TableOk(b.router) && Encodable(p) && Attached(b.router, port)
    requires !IsBlocked(b, p, port)
    requires RouteFor(b.router.routes, p.source).Some? || exists i :: 0 <= i < ROUTES && !b.router.routes[i].active
    ensures RouteFor(PacketIn(b, p, port, now, env).router.routes, p.source) == Some(port)
  {
    hide LocalHandled, Forwarded, MarkSeen, Forward, Encode, Encodable, ExpectedPort, RouteFor, Accounted;
    MarkSeenLearns(b.router, p.source, port, now);
    ForwardEffect(b.router, p, port, now, env);
    var b0 := b.(stats := RxCounted(b.stats, port));
    var b1 := if Misplaced(b, p, port) then Moved(b0) else b0;
    if p.destination == NORTHBRIDGE {
      MarkSeenShape(b1.router, p.source, port, now);
      LocalSendsOwn(b1.(router := MarkSeen(b1.router, p.source, port, now)), p, port, now, env);
    } else {
      ForwardedRouter(b1, p, port, now, env);
    }
  }

  lemma ForwardedRouter(b: Bridge, p: Packet, port: byte, now: u32, env: Env)
    ensures Forwarded(b, p, port, now, env).router == Forward(b.router, p, port, now, env).0
  {
    hide Forward, BroadcastCounted;
  }

  /**
   The router learns and serves: once a packet from a node came in on port `q`, not blocked, with its route known or
   the table not full, a packet to that node from another node on another port leaves by `q`, as received, and by no
   other port.
   */
  lemma LearnedRouteServes(b: Bridge, first: Packet, q: byte, t: u32, second: Packet, port: byte, now: u32, env: Env)
    requires Sized(b) && TableOk(b.router) && Encodable(first) && Encodable(second)
    requires Attached(b.router, q) && Attached(b.router, port) && q != port
    requires !IsBlocked(b, first, q) && !IsBlocked(b, second, port)
    requires RouteFor(b.router.routes, first.source).Some? || exists i :: 0 <= i < ROUTES && !b.router.routes[i].active
    requires second.destination == first.source && second.source != first.source
    requires second.destination != NORTHBRIDGE && second.destination != BROADCAST
    ensures var b1 := PacketIn(b, first, q, t, env);
      && Sized(b1)
      && var b2 := PacketIn(b1, second, port, now, env);
      && Sized(b2)
      && b2.router.links[q].log
         == b1.router.links[q].log + [WireEvent(Encode(second), env(q, |b1.router.links[q].log|), Some(port))]
      && forall o :: 0 <= o < PORTS && o != q ==> b2.router.links[o] == b1.router.links[o]
  {
    hide PacketIn, MarkSeen, Forward, Encode, Encodable, Misplaced, RouteFor, BooksOk, FrameOk, GrewBy, TableOk;
    PacketTeaches(b, first, q, t, env);
    PacketInEffect(b, first, q, t, env);
    var b1 := PacketIn(b, first, q, t, env);
    SameBlocked(b, b1, second, port);
    PacketInEffect(b1, second, port, now, env);
    ForwardEffect(b1.router, second, port, now, env);
    GoesOn(b1, second, port, now, env);
    var b2 := PacketIn(b1, second, port, now, env);
    assert RouteFor(b2.router.routes, second.destination) == Some(q);
    assert forall o :: 0 <= o < PORTS ==> (LeavesBy(b2.router, second, port, o) <==> o == q);
    GrownLinks(b1.router, b2.router, second, port, q, env);
  }

  lemma SameBlocked(a: Bridge, b: Bridge, p: Packet, port: byte)
    requires a.bindings == b.bindings && a.enforced == b.enforced
    ensures IsBlocked(a, p, port) == IsBlocked(b, p, port)
  {
  }

  lemma GrownLinks(r: Router, r': Router, p: Packet, port: byte, q: byte, env: Env)
    requires Shaped(r) && Shaped(r') && Encodable(p) && q < PORTS && r.links[q].attached
    requires forall o :: 0 <= o < PORTS ==> GrewBy(r.links[o], r'.links[o], p, Some(port), Takes(r, o, env))
    requires forall o :: 0 <= o < PORTS ==> |r'.links[o].log| == |r.links[o].log| + if o == q then 1 else 0
    ensures r'.links[q].log == r.links[q].log + [WireEvent(Encode(p), env(q, |r.links[q].log|), Some(port))]
    ensures forall o :: 0 <= o < PORTS && o != q ==> r'.links[o] == r.links[o]
  {
    hide Encode;
    assert GrewBy(r.links[q], r'.links[q], p, Some(port), Takes(r, q, env));
  }

  // ---- one service call is traffic --------------------------------------------------------------

  /** What the ports below `n` read in one service call. */
  function Reads(chunks: seq<seq<byte>>, n: nat, now: u32): seq<Burst>
    requires n <= |chunks| <= PORTS
  {
    if n == 0 then [] else Reads(chunks, n - 1, now) + [Burst(n - 1, chunks[n - 1], now)]
  }

  /** A service call stamps the time and then services every port in order, so all that holds of traffic holds of it. */
  lemma {:induction false} ServiceIsTraffic(b: Bridge, chunks: seq<seq<byte>>, n: nat, now: u32, env: Env)
    requires Sized(b) && n <= |chunks| <= PORTS
    ensures Serviced(b, chunks, n, now, env) == After(b.(lastService := now), Reads(chunks, n, now), env)
  {
    hide PortServiced;
    if n > 0 {
      ServiceIsTraffic(b, chunks, n - 1, now, env);
      assert Reads(chunks, n, now)[..|Reads(chunks, n, now)| - 1] == Reads(chunks, n - 1, now);
    }
  }
}
