/** The northbridge runtime: framing per port, topology enforcement, relaying, local services and counters. */
module Northbridge {
  import opened Bytes
  import opened Codec
  import opened StreamParsing
  import opened Node
  import opened Routing

  datatype Stats = Stats(rxBytes: u32, rxPackets: u32, txPackets: u32, dropped: u32, malformed: u32)

  datatype Binding = Binding(address: byte, port: byte, active: bool)

  datatype Counts = Counts(forwarded: u32, dropped: u32, movements: u32, topologyFaults: u32)

  datatype Bridge = Bridge(router: Router, parsers: seq<Parser>, stats: seq<Stats>, bindings: seq<Binding>,
                           snapshots: seq<u32>, counts: Counts, lastService: u32, localSequence: u16,
                           enforced: bool)

  const NO_STATS: Stats := Stats(0, 0, 0, 0, 0)
  const UNBOUND: Binding := Binding(BROADCAST, 0, false)

  function Fresh(): Bridge {
    Bridge(Router(seq(ROUTES, _ => NO_ROUTE), seq(PORTS, _ => Link(false, []))), seq(PORTS, _ => FRESH),
           seq(PORTS, _ => NO_STATS), seq(PORTS, _ => UNBOUND), seq(PORTS, _ => 0),
           Counts(0, 0, 0, 0), 0, 1, false)
  }

  ghost predicate Sized(b: Bridge) {
    Shaped(b.router) && |b.parsers| == |b.stats| == |b.bindings| == |b.snapshots| == PORTS
  }

  // ---- bindings ------------------------------------------------------------------------------------

  function FindBinding(bs: seq<Binding>, address: byte, i: nat): (k: nat)
    requires i <= |bs|
    ensures i <= k <= |bs|
    ensures k < |bs| ==> bs[k].active && bs[k].address == address
    ensures forall j :: i <= j < k ==> !(bs[j].active && bs[j].address == address)
  {
    FirstFrom(bs, (b: Binding) => b.active && b.address == address, i)
  }

  function FreeBinding(bs: seq<Binding>, i: nat): (k: nat)
    requires i <= |bs|
    ensures i <= k <= |bs|
    ensures k < |bs| ==> !bs[k].active
  {
    FirstFrom(bs, (b: Binding) => !b.active, i)
  }

  /** The port an address is bound to, if it is. */
  function ExpectedPort(bs: seq<Binding>, address: byte): Option<byte> {
    var k := FindBinding(bs, address, 0);
    if k < |bs| then Some(bs[k].port) else None
  }

  function BindNode(b: Bridge, address: byte, port: byte): (Bridge, bool) {
    if !Attached(b.router, port) then (b, false)
    else
      var k := FindBinding(b.bindings, address, 0);
      var f := if k < |b.bindings| then k else FreeBinding(b.bindings, 0);
      if f >= |b.bindings| then (b, false)
      else
        var (router, ok) := SetRoute(b.router, address, port);
        (b.(bindings := b.bindings[f := Binding(address, port, true)], router := router), ok)
  }

  /** set_route(): a route without a binding. */
  function RouteNode(b: Bridge, address: byte, port: byte): (Bridge, bool) {
    var (router, ok) := SetRoute(b.router, address, port);
    (b.(router := router), ok)
  }

  // ---- packets of the northbridge's own --------------------------------------------------------------

  function TxCounted(stats: seq<Stats>, port: nat): seq<Stats> {
    if port < |stats| then stats[port := stats[port].(txPackets := Inc32(stats[port].txPackets))] else stats
  }

  function DropCounted(stats: seq<Stats>, port: nat): seq<Stats> {
    if port < |stats| then stats[port := stats[port].(dropped := Inc32(stats[port].dropped))] else stats
  }

  function RxCounted(stats: seq<Stats>, port: nat): seq<Stats> {
    if port < |stats| then stats[port := stats[port].(rxPackets := Inc32(stats[port].rxPackets))] else stats
  }

  function SendLocal(b: Bridge, p: Packet, egress: byte, env: Env): (Bridge, bool) {
    if !Attached(b.router, egress) then (b, false)
    else
      var out := p.(source := NORTHBRIDGE, sequence := if p.sequence == 0 then b.localSequence else p.sequence);
      var next := if p.sequence == 0 then NextSequence(b.localSequence) else b.localSequence;
      var (router, ok) := WriteTo(b.router, egress, out, None, env);
      (b.(router := router, localSequence := next, stats := if ok then TxCounted(b.stats, egress) else b.stats), ok)
  }

  function InfoPacket(destination: byte, uptime: u32): Packet {
    Packet(MAIN_COMPUTER, destination, DEVICE_INFO, FLAG_RESPONSE, 0,
           [0x01, NORTHBRIDGE, 0x03, VERSION, 0, 1, 0, 1, 0, 0] + U32Bytes(uptime) + [0x00, 0x03])
  }

  function TopologyFaultPacket(address: byte, expected: byte, actual: byte, events: u32): Packet {
    Packet(MAIN_COMPUTER, MAIN_COMPUTER, FAULT, FLAG_FAULT, 0,
           [0x02, 0x01, address, expected, actual] + U32Bytes(events))
  }

  /** How many of the ports from `i` on are attached. */
  function CountAttached(links: seq<Link>, i: nat): (n: nat)
    requires i <= |links|
    ensures n <= |links| - i
    decreases |links| - i
  {
    if i == |links| then 0 else (if links[i].attached then 1 else 0) + CountAttached(links, i + 1)
  }

  function PortEntry(port: byte, s: Stats): (e: seq<byte>)
    ensures |e| == 21
  {
    [port] + U32Bytes(s.rxPackets) + U32Bytes(s.txPackets) + U32Bytes(s.rxBytes) + U32Bytes(s.dropped)
    + U32Bytes(s.malformed)
  }

  /** The entries of the attached ports below `n`, in port order. */
  function PortEntries(links: seq<Link>, stats: seq<Stats>, n: nat): seq<byte>
    requires n <= PORTS && |links| == |stats| == PORTS
  {
    if n == 0 then []
    else PortEntries(links, stats, n - 1) + if links[n - 1].attached then PortEntry(n - 1, stats[n - 1]) else []
  }

  function DiagnosticPacket(b: Bridge, destination: byte): Packet
    requires Sized(b)
  {
    Packet(MAIN_COMPUTER, destination, DIAGNOSTIC, FLAG_RESPONSE, 0,
           [0x02, CountAttached(b.router.links, 0)] + U32Bytes(b.counts.forwarded) + U32Bytes(b.counts.dropped)
           + U32Bytes(b.counts.movements) + U32Bytes(b.counts.topologyFaults)
           + PortEntries(b.router.links, b.stats, PORTS))
  }

  // ---- one received packet -----------------------------------------------------------------------------

  function LocalHandled(b: Bridge, p: Packet, ingress: byte, now: u32, env: Env): Bridge
    requires Sized(b)
  {
    var b0 := b.(lastService := now);
    var b1 := if AckRequired(p)
              then SendLocal(b0, Packet(MAIN_COMPUTER, p.source, ACK, FLAG_RESPONSE, p.sequence, []), ingress, env).0
              else b0;
    if p.kind == DEVICE_DISCOVERY then SendLocal(b1, InfoPacket(p.source, b1.lastService), ingress, env).0
    else if p.kind == HEARTBEAT then SendLocal(b1, BeatPacket(p.source), ingress, env).0
    else if p.kind == DIAGNOSTIC || p.kind == GET_STATE then
      SendLocal(b1, DiagnosticPacket(b.(router := b1.router, stats := b1.stats), p.source), ingress, env).0
    else b1
  }

  function TopologyReported(b: Bridge, address: byte, expected: byte, actual: byte, env: Env): Bridge {
    match RouteFor(b.router.routes, MAIN_COMPUTER)
    case None => b
    case Some(port) =>
      SendLocal(b, TopologyFaultPacket(address, expected, actual, b.counts.topologyFaults), port, env).0
  }

  /** account_forward()'s transmit counts of a broadcast: every attached port from `i` on but the ingress port. */
  function BroadcastCounted(links: seq<Link>, stats: seq<Stats>, ingress: byte, i: nat): (s: seq<Stats>)
    requires i <= |links|
    ensures SameMeters(stats, s)
    decreases |links| - i
  {
    if i == |links| then stats
    else
      BroadcastCounted(links, if i != ingress && links[i].attached then TxCounted(stats, i) else stats, ingress, i + 1)
  }

  function Accounted(b: Bridge, p: Packet, ingress: byte, success: bool): Bridge {
    if !success then b.(stats := DropCounted(b.stats, ingress))
    else if p.destination == BROADCAST then b.(stats := BroadcastCounted(b.router.links, b.stats, ingress, 0))
    else
      match RouteFor(b.router.routes, p.destination)
      case Some(port) => if port == ingress then b else b.(stats := TxCounted(b.stats, port))
      case None => b
  }

  function Forwarded(b: Bridge, p: Packet, port: byte, now: u32, env: Env): Bridge {
    var (router, ok) := Forward(b.router, p, port, now, env);
    var b1 := Accounted(b.(router := router), p, port, ok);
    b1.(counts := if ok then b1.counts.(forwarded := Inc32(b1.counts.forwarded))
                  else b1.counts.(dropped := Inc32(b1.counts.dropped)))
  }

  /** The source is bound to another port. */
  predicate Misplaced(b: Bridge, p: Packet, port: byte) {
    ExpectedPort(b.bindings, p.source).Some? && ExpectedPort(b.bindings, p.source) != Some(port)
  }

  function Moved(b: Bridge): Bridge {
    b.(counts := b.counts.(movements := Inc32(b.counts.movements)))
  }

  /** A misplaced packet under enforced topology: counted, dropped and reported. */
  function Blocked(b: Bridge, p: Packet, port: byte, env: Env): Bridge {
    var b1 := b.(counts := b.counts.(topologyFaults := Inc32(b.counts.topologyFaults),
                                     dropped := Inc32(b.counts.dropped)),
                 stats := DropCounted(b.stats, port));
    match ExpectedPort(b.bindings, p.source)
    case Some(expected) => TopologyReported(b1, p.source, expected, port, env)
    case None => b1
  }

  function PacketIn(b: Bridge, p: Packet, port: byte, now: u32, env: Env): Bridge
    requires Sized(b)
  {
    var b0 := b.(stats := RxCounted(b.stats, port));
    if Misplaced(b0, p, port) && b0.enforced then Blocked(Moved(b0), p, port, env)
    else
      var b1 := if Misplaced(b0, p, port) then Moved(b0) else b0;
      if p.destination == NORTHBRIDGE
        then LocalHandled(b1.(router := MarkSeen(b1.router, p.source, port, now)), p, port, now, env)
      else Forwarded(b1, p, port, now, env)
  }

  function ByteIn(b: Bridge, port: byte, x: byte, now: u32, env: Env): Bridge
    requires Sized(b) && port < PORTS
  {
    var (parser, p) := Advance(b.parsers[port], x);
    var b1 := b.(parsers := b.parsers[port := parser]);
    match p
    case Some(packet) => PacketIn(b1, packet, port, now, env)
    case None => b1
  }

  // ---- sizes and attachments are kept, so that runs are well defined -----------------------------------------

  predicate SameAttached(a: seq<Link>, b: seq<Link>) {
    |a| == |b| && forall q :: 0 <= q < |a| ==> a[q].attached == b[q].attached
  }

  /**
   Handling packets changes neither sizes, attached ports, parsers, bindings, enforcement nor byte and reject
   counts.
   */
  ghost predicate SameShape(a: Bridge, b: Bridge) {
    && Sized(b) && SameAttached(a.router.links, b.router.links)
    && a.parsers == b.parsers && a.bindings == b.bindings && a.enforced == b.enforced
    && a.snapshots == b.snapshots && SameMeters(a.stats, b.stats)
  }

  /** Byte and malformed-frame counters are alike. */
  predicate SameMeters(a: seq<Stats>, b: seq<Stats>) {
    |a| == |b| && forall q :: 0 <= q < |a| ==> a[q].rxBytes == b[q].rxBytes && a[q].malformed == b[q].malformed
  }

  lemma {:induction false} FloodShape(r: Router, p: Packet, ingress: byte, i: nat, env: Env)
    requires Shaped(r) && i <= PORTS
    ensures var r' := Flood(r, p, ingress, i, env).0; Shaped(r') && SameAttached(r.links, r'.links)
    decreases PORTS - i
  {
    hide Encode;
    if i < PORTS {
      if i == ingress || !Attached(r, i) {
        FloodShape(r, p, ingress, i + 1, env);
      } else {
        FloodShape(WriteTo(r, i, p, Some(ingress), env).0, p, ingress, i + 1, env);
      }
    }
  }

  lemma MarkSeenShape(r: Router, address: byte, port: byte, now: u32)
    requires Shaped(r)
    ensures Shaped(MarkSeen(r, address, port, now)) && MarkSeen(r, address, port, now).links == r.links
  {
  }

  lemma ForwardShape(r: Router, p: Packet, ingress: byte, now: u32, env: Env)
    requires Shaped(r)
    ensures var r' := Forward(r, p, ingress, now, env).0; Shaped(r') && SameAttached(r.links, r'.links)
  {
    hide Encode, MarkSeen, Flood;
    MarkSeenShape(r, p.source, ingress, now);
    FloodShape(MarkSeen(r, p.source, ingress, now), p, ingress, 0, env);
  }

  lemma SendLocalShape(b: Bridge, p: Packet, egress: byte, env: Env)
    requires Sized(b)
    ensures SameShape(b, SendLocal(b, p, egress, env).0)
  {
    hide Encode;
  }

  lemma LocalHandledShape(b: Bridge, p: Packet, ingress: byte, now: u32, env: Env)
    requires Sized(b)
    ensures SameShape(b, LocalHandled(b, p, ingress, now, env))
  {
    hide SendLocal, DiagnosticPacket, U32Bytes;
    var b0 := b.(lastService := now);
    var ack := Packet(MAIN_COMPUTER, p.source, ACK, FLAG_RESPONSE, p.sequence, []);
    SendLocalShape(b0, ack, ingress, env);
    var b1 := if AckRequired(p) then SendLocal(b0, ack, ingress, env).0 else b0;
    SendLocalShape(b1, InfoPacket(p.source, b1.lastService), ingress, env);
    SendLocalShape(b1, BeatPacket(p.source), ingress, env);
    SendLocalShape(b1, DiagnosticPacket(b.(router := b1.router, stats := b1.stats), p.source), ingress, env);
  }

  lemma BlockedShape(b: Bridge, p: Packet, port: byte, env: Env)
    requires Sized(b)
    ensures SameShape(b, Blocked(b, p, port, env))
  {
    hide SendLocal, U32Bytes, ExpectedPort, RouteFor;
    var b1 := b.(counts := b.counts.(topologyFaults := Inc32(b.counts.topologyFaults),
                                     dropped := Inc32(b.counts.dropped)),
                 stats := DropCounted(b.stats, port));
    if ExpectedPort(b.bindings, p.source).Some? && RouteFor(b.router.routes, MAIN_COMPUTER).Some? {
      SendLocalShape(b1, TopologyFaultPacket(p.source, ExpectedPort(b.bindings, p.source).value, port,
                                             b1.counts.topologyFaults),
                     RouteFor(b.router.routes, MAIN_COMPUTER).value, env);
    }
  }

  lemma ForwardedShape(b: Bridge, p: Packet, port: byte, now: u32, env: Env)
    requires Sized(b)
    ensures SameShape(b, Forwarded(b, p, port, now, env))
  {
    hide Forward, BroadcastCounted, RouteFor;
    ForwardShape(b.router, p, port, now, env);
  }

  lemma ByteInShape(b: Bridge, port: byte, x: byte, now: u32, env: Env)
    requires Sized(b) && port < PORTS
    ensures SameShape(b.(parsers := b.parsers[port := Advance(b.parsers[port], x).0]), ByteIn(b, port, x, now, env))
  {
    hide Advance, Forwarded, MarkSeen, Blocked, LocalHandled, ExpectedPort;
    var (parser, p) := Advance(b.parsers[port], x);
    if p.Some? {
      var b0 := b.(parsers := b.parsers[port := parser], stats := RxCounted(b.stats, port));
      MarkSeenShape(b0.router, p.value.source, port, now);
      BlockedShape(Moved(b0), p.value, port, env);
      ForwardedShape(b0, p.value, port, now, env);
      ForwardedShape(Moved(b0), p.value, port, now, env);
      var seen := MarkSeen(b0.router, p.value.source, port, now);
      LocalHandledShape(b0.(router := seen), p.value, port, now, env);
      LocalHandledShape(Moved(b0).(router := seen), p.value, port, now, env);
    }
  }

  lemma {:induction false} SameCount(a: seq<Link>, b: seq<Link>, i: nat)
    requires SameAttached(a, b) && i <= |a|
    ensures CountAttached(a, i) == CountAttached(b, i)
    decreases |a| - i
  {
    if i < |a| {
      SameCount(a, b, i + 1);
    }
  }

  function BytesIn(b: Bridge, port: byte, chunk: seq<byte>, now: u32, env: Env): (r: Bridge)
    requires Sized(b) && port < PORTS
    ensures Sized(r)
  {
    if chunk == [] then b
    else
      var mid := BytesIn(b, port, chunk[..|chunk| - 1], now, env);
      ByteInShape(mid, port, chunk[|chunk| - 1], now, env);
      ByteIn(mid, port, chunk[|chunk| - 1], now, env)
  }

  lemma {:induction false} BytesInShape(b: Bridge, port: byte, chunk: seq<byte>, now: u32, env: Env)
    requires Sized(b) && port < PORTS
    ensures SameShape(b.(parsers := b.parsers[port := Run(b.parsers[port], chunk).0]),
                      BytesIn(b, port, chunk, now, env))
  {
    hide ByteIn, Advance;
    if chunk == [] {
      assert b.parsers[port := b.parsers[port]] == b.parsers;
    } else {
      var init, x := chunk[..|chunk| - 1], chunk[|chunk| - 1];
      BytesInShape(b, port, init, now, env);
      ByteInShape(BytesIn(b, port, init, now, env), port, x, now, env);
    }
  }

  // ---- the diagnostics payload array --------------------------------------------------------------------

  predicate AsksDiagnostics(p: Packet) {
    p.kind == DIAGNOSTIC || p.kind == GET_STATE
  }

  /**
   The packet makes the firmware write past its 128-byte diagnostics payload: it asks for diagnostics, is not
   blocked, and more than five ports are attached.
   */
  predicate Overruns(b: Bridge, p: Packet, port: byte) {
    && CountAttached(b.router.links, 0) > 5 && p.destination == NORTHBRIDGE && AsksDiagnostics(p)
    && !(b.enforced && Misplaced(b, p, port))
  }

  lemma OverrunsSame(a: Bridge, b: Bridge, p: Packet, port: byte)
    requires SameAttached(a.router.links, b.router.links) && a.bindings == b.bindings && a.enforced == b.enforced
    ensures Overruns(a, p, port) == Overruns(b, p, port)
  {
    SameCount(a.router.links, b.router.links, 0);
  }

  /** No packet that these bytes complete on the port overruns the payload. */
  ghost predicate Fits(b: Bridge, port: byte, chunk: seq<byte>)
    requires port < |b.parsers|
  {
    Attached(b.router, port) ==> forall p :: p in Run(b.parsers[port], chunk).1 ==> !Overruns(b, p, port)
  }

  /** The packet completed next was announced in the whole chunk, so it does not overrun either. */
  lemma NextFits(b: Bridge, port: byte, chunk: seq<byte>, i: nat, now: u32, env: Env)
    requires Sized(b) && port < PORTS && Attached(b.router, port) && Fits(b, port, chunk) && i < |chunk|
    ensures var mid := BytesIn(b, port, chunk[..i], now, env);
      var p := Advance(mid.parsers[port], chunk[i]).1;
      p.Some? ==> !Overruns(mid, p.value, port)
  {
    hide Advance, Overruns;
    var mid := BytesIn(b, port, chunk[..i], now, env);
    BytesInShape(b, port, chunk[..i], now, env);
    assert chunk[..i + 1][..i] == chunk[..i] && chunk[..i + 1] + chunk[i + 1..] == chunk;
    RunAppend(b.parsers[port], chunk[..i + 1], chunk[i + 1..]);
    var p := Advance(mid.parsers[port], chunk[i]).1;
    if p.Some? {
      assert p.value in Run(b.parsers[port], chunk[..i + 1]).1;
      OverrunsSame(b, mid, p.value, port);
    }
  }

  function BytesNoted(b: Bridge, port: byte, n: nat): (r: Bridge)
    requires Sized(b) && port < PORTS
    ensures Sized(r)
  {
    b.(stats := b.stats[port := b.stats[port].(rxBytes := Add32(b.stats[port].rxBytes, n))])
  }

  function RejectsNoted(b: Bridge, port: byte): Bridge
    requires Sized(b) && port < PORTS
  {
    var rejected, seen := b.parsers[port].rejected, b.snapshots[port];
    if rejected > seen then
      b.(stats := b.stats[port := b.stats[port].(malformed := Add32(b.stats[port].malformed, rejected - seen))],
         snapshots := b.snapshots[port := rejected])
    else b
  }

  /** `chunk` is what the port's transport returns when it is read. */
  function PortServiced(b: Bridge, port: byte, chunk: seq<byte>, now: u32, env: Env): (r: Bridge)
    requires Sized(b)
    ensures Sized(r)
  {
    if port >= PORTS || !Attached(b.router, port) then b
    else
      RejectsNoted(BytesIn(BytesNoted(b, port, |chunk|), port, chunk, now, env), port)
  }

  // ---- the firmware's runtime --------------------------------------------------------------------------------

  class NorthbridgeRuntime {
    const router: NorthbridgeRouter
    const parsers: array<Parser>
    const stats: array<Stats>
    const bindings: array<Binding>
    const snapshots: array<u32>
    var counts: Counts
    var lastService: u32
    var localSequence: u16
    var enforced: bool

    ghost predicate Valid()
      reads this, router`links
    {
      && router.Valid() && parsers.Length == PORTS && stats.Length == PORTS
      && bindings.Length == PORTS && snapshots.Length == PORTS
    }

    ghost function State(): (b: Bridge)
      reads this, router`links, router.routes, parsers, stats, bindings, snapshots
      requires Valid()
      ensures Sized(b)
    {
      Bridge(router.State(), parsers[..], stats[..], bindings[..], snapshots[..], counts, lastService, localSequence,
             enforced)
    }

    constructor (env: Env)
      ensures Valid() && router.env == env && State() == Fresh()
      ensures fresh(router) && fresh(router.routes) && fresh(parsers) && fresh(stats) && fresh(bindings)
              && fresh(snapshots)
    {
      router := new NorthbridgeRouter(env);
      parsers := new Parser[PORTS](_ => FRESH);
      stats := new Stats[PORTS](_ => NO_STATS);
      bindings := new Binding[PORTS](_ => UNBOUND);
      snapshots := new u32[PORTS](_ => 0);
      counts, lastService, localSequence, enforced := Counts(0, 0, 0, 0), 0, 1, false;
      new;
      assert parsers[..] == Fresh().parsers && stats[..] == Fresh().stats;
      assert bindings[..] == Fresh().bindings && snapshots[..] == Fresh().snapshots;
    }

    method AttachPort(port: byte) returns (ok: bool)
      requires Valid()
      modifies router`links
      ensures Valid() && (ok <==> port < PORTS)
      ensures State() == if !ok then old(State()) else old(State()).(router := old(State()).router.(
        links := old(router.links)[port := old(router.links)[port].(attached := true)]))
    {
      if port >= PORTS {
        return false;
      }
      ok := router.AttachPort(port);
    }

    method Bind(address: byte, port: byte) returns (ok: bool)
      requires Valid()
      modifies bindings, router.routes
      ensures Valid() && (State(), ok) == BindNode(old(State()), address, port)
    {
      hide SetRoute;
      if port >= PORTS || !router.links[port].attached {
        return false;
      }
      for i := 0 to PORTS
        invariant bindings[..] == old(bindings[..]) && State() == old(State())
        invariant FindBinding(bindings[..], address, i) == FindBinding(bindings[..], address, 0)
      {
        if bindings[i].active && bindings[i].address == address {
          ghost var changed := bindings[..][i := Binding(address, port, true)];
          bindings[i] := bindings[i].(port := port);
          assert bindings[..] == changed;
          ok := router.AddRoute(address, port);
          return ok;
        }
      }
      for i := 0 to PORTS
        invariant bindings[..] == old(bindings[..]) && State() == old(State())
        invariant FreeBinding(bindings[..], i) == FreeBinding(bindings[..], 0)
      {
        if !bindings[i].active {
          ghost var changed := bindings[..][i := Binding(address, port, true)];
          bindings[i] := Binding(address, port, true);
          assert bindings[..] == changed;
          ok := router.AddRoute(address, port);
          return ok;
        }
      }
      return false;
    }

    method RouteTo(address: byte, port: byte) returns (ok: bool)
      requires Valid()
      modifies router.routes
      ensures Valid() && (State(), ok) == RouteNode(old(State()), address, port)
    {
      hide SetRoute;
      ok := router.AddRoute(address, port);
    }

    method ExpectedPortFor(address: byte) returns (port: Option<byte>)
      requires Valid()
      ensures port == ExpectedPort(bindings[..], address)
    {
      for i := 0 to PORTS
        invariant FindBinding(bindings[..], address, i) == FindBinding(bindings[..], address, 0)
      {
        if bindings[i].active && bindings[i].address == address {
          return Some(bindings[i].port);
        }
      }
      return None;
    }

    method SendOwn(p: Packet, egress: byte) returns (ok: bool)
      requires Valid()
      modifies this`localSequence, router`links, stats
      ensures Valid() && (State(), ok) == SendLocal(old(State()), p, egress, router.env)
    {
      hide WriteTo;
      if egress >= PORTS || !router.links[egress].attached {
        return false;
      }
      var packet := p.(source := NORTHBRIDGE);
      if packet.sequence == 0 {
        packet := packet.(sequence := localSequence);
        localSequence := (localSequence + 1) % 0x1_0000;
        if localSequence == 0 {
          localSequence := 1;
        }
      }
      ok := router.WriteToPort(egress, packet, None);
      if ok {
        stats[egress] := stats[egress].(txPackets := Inc32(stats[egress].txPackets));
      }
    }

    method SendTopologyFault(address: byte, expected: byte, actual: byte)
      requires Valid()
      modifies this`localSequence, router`links, stats
      ensures Valid() && State() == TopologyReported(old(State()), address, expected, actual, router.env)
    {
      hide SendLocal;
      var port := router.LookUp(MAIN_COMPUTER);
      if port.None? {
        return;
      }
      var sent := SendOwn(Packet(MAIN_COMPUTER, MAIN_COMPUTER, FAULT, FLAG_FAULT, 0,
                                 [0x02, 0x01, address, expected, actual] + U32Bytes(counts.topologyFaults)),
                          port.value);
    }

    /** The payload of the diagnostics message, entry by entry. */
    method DiagnosticPayload() returns (payload: seq<byte>)
      requires Valid()
      ensures payload == DiagnosticPacket(State(), MAIN_COMPUTER).payload
    {
      hide U32Bytes;
      var attached := 0;
      for i := 0 to PORTS
        invariant attached + CountAttached(router.links, i) == CountAttached(router.links, 0)
      {
        if router.links[i].attached {
          attached := attached + 1;
        }
      }
      payload := [0x02, attached] + U32Bytes(counts.forwarded) + U32Bytes(counts.dropped)
                 + U32Bytes(counts.movements) + U32Bytes(counts.topologyFaults);
      ghost var head := payload;
      for port := 0 to PORTS
        invariant payload == head + PortEntries(router.links, stats[..], port)
      {
        if !router.links[port].attached {
          continue;
        }
        var s := stats[port];
        payload := payload + ([port] + U32Bytes(s.rxPackets) + U32Bytes(s.txPackets) + U32Bytes(s.rxBytes)
                              + U32Bytes(s.dropped) + U32Bytes(s.malformed));
      }
    }

    /** More than five attached ports would overrun the firmware's 128-byte payload array. */
    method SendDiagnostics(destination: byte, egress: byte)
      requires Valid() && CountAttached(router.links, 0) <= 5
      modifies this`localSequence, router`links, stats
      ensures Valid()
      ensures State() == SendLocal(old(State()), DiagnosticPacket(old(State()), destination), egress, router.env).0
    {
      hide SendLocal, U32Bytes;
      var payload := DiagnosticPayload();
      var sent := SendOwn(Packet(MAIN_COMPUTER, destination, DIAGNOSTIC, FLAG_RESPONSE, 0, payload), egress);
    }

    method HandleLocalPacket(p: Packet, ingress: byte, now: u32)
      requires Valid() && (AsksDiagnostics(p) ==> CountAttached(router.links, 0) <= 5)
      modifies this`lastService, this`localSequence, router`links, stats
      ensures Valid() && State() == LocalHandled(old(State()), p, ingress, now, router.env)
    {
      hide SendLocal, DiagnosticPacket, U32Bytes;
      lastService := now;
      if p.flags % 2 != 0 {
        ghost var before := State();
        SendLocalShape(before, Packet(MAIN_COMPUTER, p.source, ACK, FLAG_RESPONSE, p.sequence, []), ingress,
                       router.env);
        var sent := SendOwn(Packet(MAIN_COMPUTER, p.source, ACK, FLAG_RESPONSE, p.sequence, []), ingress);
        SameCount(before.router.links, router.links, 0);
      }
      DiagnosticDepends(State(), old(State()).(router := State().router, stats := State().stats), p.source);
      if p.kind == DEVICE_DISCOVERY {
        var sent := SendOwn(Packet(MAIN_COMPUTER, p.source, DEVICE_INFO, FLAG_RESPONSE, 0,
                                   [0x01, NORTHBRIDGE, 0x03, VERSION, 0, 1, 0, 1, 0, 0] + U32Bytes(lastService)
                                   + [0x00, 0x03]), ingress);
      } else if p.kind == HEARTBEAT {
        var sent := SendOwn(Packet(MAIN_COMPUTER, p.source, HEARTBEAT, FLAG_RESPONSE, 0, []), ingress);
      } else if p.kind == DIAGNOSTIC || p.kind == GET_STATE {
        SendDiagnostics(p.source, ingress);
      }
    }

    method AccountForward(p: Packet, ingress: byte, success: bool)
      requires Valid() && ingress < PORTS
      modifies stats
      ensures State() == Accounted(old(State()), p, ingress, success)
    {
      if !success {
        stats[ingress] := stats[ingress].(dropped := Inc32(stats[ingress].dropped));
        return;
      }
      if p.destination == BROADCAST {
        for port := 0 to PORTS
          invariant BroadcastCounted(router.links, stats[..], ingress, port)
                 == BroadcastCounted(router.links, old(stats[..]), ingress, 0)
        {
          if port != ingress && router.links[port].attached {
            ghost var counted := TxCounted(stats[..], port);
            stats[port] := stats[port].(txPackets := Inc32(stats[port].txPackets));
            assert stats[..] == counted;
          }
        }
        return;
      }
      var port := router.LookUp(p.destination);
      if port.Some? && port.value != ingress && port.value < PORTS {
        stats[port.value] := stats[port.value].(txPackets := Inc32(stats[port.value].txPackets));
      }
    }

    /** The body of service_port()'s loop for a completed packet. */
    method TakePacket(p: Packet, port: byte, now: u32)
      requires Valid() && port < PORTS && !Overruns(State(), p, port)
      modifies this`counts, this`lastService, this`localSequence, router`links, router.routes, stats
      ensures Valid() && State() == PacketIn(old(State()), p, port, now, router.env)
    {
      hide SendLocal, TopologyReported, LocalHandled, Accounted, Forward, MarkSeen, ExpectedPort;
      stats[port] := stats[port].(rxPackets := Inc32(stats[port].rxPackets));
      var expected := ExpectedPortFor(p.source);
      if expected.Some? && expected.value != port {
        counts := counts.(movements := Inc32(counts.movements));
        if enforced {
          counts := counts.(topologyFaults := Inc32(counts.topologyFaults), dropped := Inc32(counts.dropped));
          stats[port] := stats[port].(dropped := Inc32(stats[port].dropped));
          SendTopologyFault(p.source, expected.value, port);
          return;
        }
      }
      if p.destination == NORTHBRIDGE {
        MarkSeenShape(router.State(), p.source, port, now);
        router.NoteSeen(p.source, port, now);
        HandleLocalPacket(p, port, now);
        return;
      }
      var forwarded := router.ForwardPacket(p, port, now);
      AccountForward(p, port, forwarded);
      if forwarded {
        counts := counts.(forwarded := Inc32(counts.forwarded));
      } else {
        counts := counts.(dropped := Inc32(counts.dropped));
      }
    }

    method TakeByte(port: byte, x: byte, now: u32)
      requires Valid() && port < PORTS
      requires var p := Advance(parsers[port], x).1; p.Some? ==> !Overruns(State(), p.value, port)
      modifies this`counts, this`lastService, this`localSequence, router`links, router.routes, stats, parsers
      ensures Valid() && State() == ByteIn(old(State()), port, x, now, router.env)
    {
      hide Advance, PacketIn;
      var (parser, p) := Advance(parsers[port], x);
      parsers[port] := parser;
      if p.Some? {
        TakePacket(p.value, port, now);
      }
    }

    /** `chunk` is what read() returned, at most 64 bytes. */
    method ServicePort(port: byte, chunk: seq<byte>, now: u32)
      requires Valid() && |chunk| <= CHUNK_SIZE && (port < PORTS ==> Fits(State(), port, chunk))
      modifies this`counts, this`lastService, this`localSequence, router`links, router.routes, stats, parsers, snapshots
      ensures Valid() && State() == PortServiced(old(State()), port, chunk, now, router.env)
    {
      hide ByteIn, Fits, Advance, Overruns, RejectsNoted;
      if port >= PORTS || !router.links[port].attached {
        return;
      }
      ghost var before := State();
      stats[port] := stats[port].(rxBytes := Add32(stats[port].rxBytes, |chunk|));
      ghost var start := State();
      FitsSame(before, start, port, chunk);
      for i := 0 to |chunk|
        invariant Valid() && State() == BytesIn(start, port, chunk[..i], now, router.env)
      {
        assert chunk[..i + 1][..i] == chunk[..i];
        NextFits(start, port, chunk, i, now, router.env);
        TakeByte(port, chunk[i], now);
      }
      assert chunk[..|chunk|] == chunk;
      NoteRejects(port);
    }

    /** The end of service_port(). */
    method NoteRejects(port: byte)
      requires Valid() && port < PORTS
      modifies stats, snapshots
      ensures Valid() && State() == RejectsNoted(old(State()), port)
    {
      var rejected := parsers[port].rejected;
      if rejected > snapshots[port] {
        stats[port] := stats[port].(malformed := Add32(stats[port].malformed, rejected - snapshots[port]));
        snapshots[port] := rejected;
      }
    }

    method Service(chunks: seq<seq<byte>>, now: u32)
      requires Valid()
      requires |chunks| == PORTS && forall port :: 0 <= port < PORTS ==> |chunks[port]| <= CHUNK_SIZE
      requires forall port :: 0 <= port < PORTS ==> Fits(State(), port, chunks[port])
      modifies this`counts, this`lastService, this`localSequence, router`links, router.routes, stats, parsers, snapshots
      ensures Valid() && State() == Serviced(old(State()), chunks, PORTS, now, router.env)
    {
      hide PortServiced, Fits;
      ghost var before := State();
      lastService := now;
      for port := 0 to PORTS
        invariant Valid() && State() == Serviced(before, chunks, port, now, router.env)
      {
        ServicedShape(before, chunks, port, now, router.env);
        FitsSame(before, State(), port, chunks[port]);
        ServicePort(port, chunks[port], now);
      }
    }
  }

  /** Fitting depends on the port's own parser and the settings only. */
  lemma FitsSame(a: Bridge, b: Bridge, port: byte, chunk: seq<byte>)
    requires port < |a.parsers| && port < |b.parsers| && a.parsers[port] == b.parsers[port]
    requires SameAttached(a.router.links, b.router.links) && a.bindings == b.bindings && a.enforced == b.enforced
    ensures Fits(a, port, chunk) == Fits(b, port, chunk)
  {
    hide Overruns;
    forall p | p in Run(a.parsers[port], chunk).1
      ensures Overruns(a, p, port) == Overruns(b, p, port)
    {
      OverrunsSame(a, b, p, port);
    }
  }

  lemma PortServicedShape(b: Bridge, port: byte, chunk: seq<byte>, now: u32, env: Env)
    requires Sized(b)
    ensures var r := PortServiced(b, port, chunk, now, env);
      && SameAttached(b.router.links, r.router.links) && r.bindings == b.bindings && r.enforced == b.enforced
      && forall q :: 0 <= q < PORTS && q != port ==> r.parsers[q] == b.parsers[q]
  {
    hide BytesIn, Run;
    if port < PORTS {
      BytesInShape(BytesNoted(b, port, |chunk|), port, chunk, now, env);
    }
  }

  /** Servicing the ports below `n` leaves the settings, and the parsers from `n` on, alone. */
  lemma {:induction false} ServicedShape(b: Bridge, chunks: seq<seq<byte>>, n: nat, now: u32, env: Env)
    requires Sized(b) && n <= |chunks| <= PORTS
    ensures var r := Serviced(b, chunks, n, now, env);
      && SameAttached(b.router.links, r.router.links) && r.bindings == b.bindings && r.enforced == b.enforced
      && forall q :: n <= q < PORTS ==> r.parsers[q] == b.parsers[q]
  {
    hide PortServiced;
    if n > 0 {
      ServicedShape(b, chunks, n - 1, now, env);
      PortServicedShape(Serviced(b, chunks, n - 1, now, env), n - 1, chunks[n - 1], now, env);
    }
  }

  /** service(): the ports below `n`, in order. */
  function Serviced(b: Bridge, chunks: seq<seq<byte>>, n: nat, now: u32, env: Env): (r: Bridge)
    requires Sized(b) && n <= |chunks| <= PORTS
    ensures Sized(r)
  {
    if n == 0 then b.(lastService := now)
    else PortServiced(Serviced(b, chunks, n - 1, now, env), n - 1, chunks[n - 1], now, env)
  }

  lemma DiagnosticDepends(a: Bridge, b: Bridge, destination: byte)
    requires Sized(a) && Sized(b) && a.router == b.router && a.stats == b.stats && a.counts == b.counts
    ensures DiagnosticPacket(a, destination) == DiagnosticPacket(b, destination)
  {
  }
}
