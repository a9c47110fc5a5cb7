/** What the northbridge guarantees over any input byte streams on any ports. */
module NorthbridgeRuns {
  import opened Bytes
  import opened Codec
  import opened StreamParsing
  import opened Node
  import opened Routing
  import opened Northbridge

  // ---- set-up and traffic --------------------------------------------------------------------------

  datatype Setup =
    | Attach(port: byte)
    | Bind(address: byte, port: byte)

  function SetUpStep(b: Bridge, op: Setup): (Bridge, bool) {
    match op
    case Attach(port) =>
      if port < |b.router.links| then
        (b.(router := b.router.(links := b.router.links[port := b.router.links[port].(attached := true)])), true)
      else (b, false)
    case Bind(address, port) => BindNode(b, address, port)
  }

  /** The runtime after these set-up calls, and whether all of them succeeded. */
  function SetUp(ops: seq<Setup>): (r: (Bridge, bool))
    ensures Sized(r.0)
  {
    if ops == [] then (Fresh(), true)
    else
      var (b, ok) := SetUp(ops[..|ops| - 1]);
      var (b', ok') := SetUpStep(b, ops[|ops| - 1]);
      (b', ok && ok')
  }

  /** One service call of one port. */
  datatype Burst = Burst(port: byte, chunk: seq<byte>, now: u32)

  function After(b: Bridge, traffic: seq<Burst>, env: Env): (r: Bridge)
    requires Sized(b)
    ensures Sized(r)
  {
    if traffic == [] then b
    else
      var x := traffic[|traffic| - 1];
      PortServiced(After(b, traffic[..|traffic| - 1], env), x.port, x.chunk, x.now, env)
  }

  // ---- invariants -----------------------------------------------------------------------------------

  /** Every bound address is bound once, to an attached port, and routed to exactly that port. */
  ghost predicate BindingsOk(b: Bridge) {
    && (forall i :: 0 <= i < |b.bindings| && b.bindings[i].active ==>
          && Attached(b.router, b.bindings[i].port)
          && RouteFor(b.router.routes, b.bindings[i].address) == Some(b.bindings[i].port))
    && (forall i, j :: 0 <= i < j < |b.bindings| && b.bindings[i].active && b.bindings[j].active ==>
          b.bindings[i].address != b.bindings[j].address)
  }

  ghost predicate BridgeOk(b: Bridge) {
    && Sized(b) && TableOk(b.router) && BindingsOk(b)
    && forall q :: 0 <= q < PORTS ==> Reachable(b.parsers[q])
  }

  lemma ExpectedIsRoute(b: Bridge, address: byte)
    requires BindingsOk(b) && ExpectedPort(b.bindings, address).Some?
    ensures RouteFor(b.router.routes, address) == ExpectedPort(b.bindings, address)
    ensures Attached(b.router, ExpectedPort(b.bindings, address).value)
  {
  }

  /** A successful bind_node binds and routes its address, and no other address's binding or route changes. */
  lemma BindingEstablished(b: Bridge, address: byte, port: byte)
    requires BridgeOk(b)
    ensures var (b', ok) := BindNode(b, address, port);
      ok ==>
        && BridgeOk(b') && ExpectedPort(b'.bindings, address) == RouteFor(b'.router.routes, address) == Some(port)
        && (forall a :: a != address ==>
              && ExpectedPort(b'.bindings, a) == ExpectedPort(b.bindings, a)
              && RouteFor(b'.router.routes, a) == RouteFor(b.router.routes, a))
  {
    hide SetRoute, RouteFor;
    SetRouteKeepsTable(b.router, address, port);
    var (b', ok) := BindNode(b, address, port);
    if ok {
      var k := FindBinding(b.bindings, address, 0);
      var f := if k < PORTS then k else FreeBinding(b.bindings, 0);
      assert b'.bindings[f] == Binding(address, port, true);
      assert FindBinding(b'.bindings, address, 0) == f by {
        assert forall j :: 0 <= j < PORTS && j != f ==> !(b'.bindings[j].active && b'.bindings[j].address == address);
      }
      forall a | a != address
        ensures ExpectedPort(b'.bindings, a) == ExpectedPort(b.bindings, a)
      {
        SameBindings(b.bindings, b'.bindings, a, 0);
      }
    }
  }

  lemma {:induction false} SameBindings(a: seq<Binding>, b: seq<Binding>, address: byte, i: nat)
    requires |a| == |b| && i <= |a|
    requires forall j :: i <= j < |a| ==>
      ((a[j].active && a[j].address == address) <==> (b[j].active && b[j].address == address))
      && (a[j].active && a[j].address == address ==> a[j].port == b[j].port)
    ensures FindBinding(a, address, i) == FindBinding(b, address, i)
    ensures var k := FindBinding(a, address, i); k < |a| ==> a[k].port == b[k].port
    decreases |a| - i
  {
    if i < |a| {
      SameBindings(a, b, address, i + 1);
    }
  }

  // ---- steps that only send the northbridge's own packets ------------------------------------------------

  const SOURCE_AT: nat := 3

  ghost predicate Grows(a: seq<WireEvent>, b: seq<WireEvent>) {
    |a| <= |b| && b[..|a|] == a
  }

  /** A packet of the northbridge's own, under its own address. */
  predicate IsOwn(event: WireEvent) {
    event.from == None && |event.frame| > SOURCE_AT && event.frame[SOURCE_AT] == NORTHBRIDGE
  }

  /** Counters other than transmit counts. */
  predicate SameRxAndDrops(a: seq<Stats>, b: seq<Stats>) {
    |a| == |b| && forall q :: 0 <= q < |a| ==> a[q].rxPackets == b[q].rxPackets && a[q].dropped == b[q].dropped
  }

  /** How many of these frames the port took. */
  function Oks(log: seq<WireEvent>): nat {
    if log == [] then 0 else Oks(log[..|log| - 1]) + if log[|log| - 1].ok then 1 else 0
  }

  /** How far a port's transmit counter is from the number of frames the port took, modulo 2^32. */
  function TxGap(b: Bridge, q: nat): int
    requires q < |b.stats| && q < |b.router.links|
  {
    (b.stats[q].txPackets - Oks(b.router.links[q].log)) % TWO32
  }

  ghost predicate SendsOwn(a: Bridge, b: Bridge, env: Env)
    requires Sized(a)
  {
    && Sized(b) && SameAttached(a.router.links, b.router.links) && a.router.routes == b.router.routes
    && a.parsers == b.parsers && a.bindings == b.bindings && a.counts == b.counts && a.enforced == b.enforced
    && SameRxAndDrops(a.stats, b.stats)
    && (forall q :: 0 <= q < PORTS ==> Grows(a.router.links[q].log, b.router.links[q].log))
    && (forall q, k :: 0 <= q < PORTS && |a.router.links[q].log| <= k < |b.router.links[q].log| ==>
          IsOwn(b.router.links[q].log[k]) && b.router.links[q].log[k].ok == env(q, k))
    && (forall q :: 0 <= q < PORTS ==> TxGap(b, q) == TxGap(a, q))
  }

  lemma GapKept(tx: u32, n: nat)
    ensures (Inc32(tx) - (n + 1)) % TWO32 == (tx - n) % TWO32
    ensures (Inc32(tx) - n) % TWO32 == ((tx - n) % TWO32 + 1) % TWO32
  {
    if tx == TWO32 - 1 {
      assert Inc32(tx) - (n + 1) == (tx - n) - TWO32;
    }
    NextModulo(tx - n);
    if tx == TWO32 - 1 {
      assert Inc32(tx) - n == (tx - n + 1) + -1 * TWO32;
    }
  }

  lemma NextModulo(x: int)
    ensures (x + 1) % TWO32 == (x % TWO32 + 1) % TWO32
  {
    assert x == x / TWO32 * TWO32 + x % TWO32;
  }

  /** A port's log grew by a frame it took, by one it refused, or not at all. */
  lemma OksGrow(before: Link, after: Link, p: Packet, from: Option<byte>, ok: bool)
    requires Encodable(p) && GrewBy(before, after, p, from, ok)
    ensures Oks(after.log) == Oks(before.log) + if |after.log| > |before.log| && ok then 1 else 0
  {
    hide Encode;
  }

  lemma SendLocalSendsOwn(b: Bridge, p: Packet, egress: byte, env: Env)
    requires Sized(b)
    ensures SendsOwn(b, SendLocal(b, p, egress, env).0, env)
  {
    hide WriteTo, Encode, Inc32, GrewBy, Oks, Takes;
    var out := p.(source := NORTHBRIDGE, sequence := if p.sequence == 0 then b.localSequence else p.sequence);
    if !Attached(b.router, egress) || !Encodable(out) {
      NothingWritten(b.router, egress, out, env);
    } else {
      WriteToEffect(b.router, egress, out, None, env);
      WroteOwn(b.router, WriteTo(b.router, egress, out, None, env).0, egress, out, env);
      GapKept(b.stats[egress].txPackets, Oks(b.router.links[egress].log));
    }
  }

  lemma WroteOwn(r: Router, r': Router, egress: byte, p: Packet, env: Env)
    requires |r.links| == |r'.links| == PORTS && egress < PORTS && Encodable(p) && p.source == NORTHBRIDGE
    requires forall q :: 0 <= q < PORTS && q != egress ==> r'.links[q] == r.links[q]
    requires GrewBy(r.links[egress], r'.links[egress], p, None, Takes(r, egress, env))
    requires |r'.links[egress].log| == |r.links[egress].log| + 1
    ensures SameAttached(r.links, r'.links)
    ensures forall q :: 0 <= q < PORTS ==> Grows(r.links[q].log, r'.links[q].log)
    ensures forall q, k :: 0 <= q < PORTS && |r.links[q].log| <= k < |r'.links[q].log| ==>
      IsOwn(r'.links[q].log[k]) && r'.links[q].log[k].ok == env(q, k)
    ensures Oks(r'.links[egress].log) == Oks(r.links[egress].log) + if Takes(r, egress, env) then 1 else 0
  {
    hide Encode, Oks, GrewBy, IsOwn;
    OwnFrame(p);
    GrewMeans(r.links[egress], r'.links[egress], p, None, Takes(r, egress, env));
    OksGrow(r.links[egress], r'.links[egress], p, None, Takes(r, egress, env));
  }

  lemma NothingWritten(r: Router, port: byte, p: Packet, env: Env)
    requires !Attached(r, port) || !Encodable(p)
    ensures WriteTo(r, port, p, None, env) == (r, false)
  {
  }

  lemma OwnFrame(p: Packet)
    requires Encodable(p) && p.source == NORTHBRIDGE
    ensures forall ok :: IsOwn(WireEvent(Encode(p), ok, None))
  {
    HeaderBytes(p);
  }

  lemma GrewMeans(before: Link, after: Link, p: Packet, from: Option<byte>, ok: bool)
    requires Encodable(p) && GrewBy(before, after, p, from, ok)
    ensures after.attached == before.attached && Grows(before.log, after.log)
    ensures |after.log| > |before.log| ==> before.attached && |after.log| == |before.log| + 1
    ensures forall k :: |before.log| <= k < |after.log| ==> after.log[k] == WireEvent(Encode(p), ok, from)
  {
    hide Encode;
  }

  lemma SendsOwnTwice(a: Bridge, b: Bridge, c: Bridge, env: Env)
    requires Sized(a) && SendsOwn(a, b, env) && SendsOwn(b, c, env)
    ensures SendsOwn(a, c, env)
  {
    hide TxGap, IsOwn;
    forall q, k | 0 <= q < PORTS && |a.router.links[q].log| <= k < |c.router.links[q].log|
      ensures IsOwn(c.router.links[q].log[k]) && c.router.links[q].log[k].ok == env(q, k)
    {
      if k < |b.router.links[q].log| {
        assert c.router.links[q].log[k] == c.router.links[q].log[..|b.router.links[q].log|][k];
      }
    }
  }

  lemma LocalSendsOwn(b: Bridge, p: Packet, ingress: byte, now: u32, env: Env)
    requires Sized(b)
    ensures SendsOwn(b, LocalHandled(b, p, ingress, now, env), env)
  {
    hide SendLocal, DiagnosticPacket, InfoPacket;
    var b0 := b.(lastService := now);
    var ack := Packet(MAIN_COMPUTER, p.source, ACK, FLAG_RESPONSE, p.sequence, []);
    var b1 := if AckRequired(p) then SendLocal(b0, ack, ingress, env).0 else b0;
    SendLocalSendsOwn(b0, ack, ingress, env);
    NothingSendsOwn(b, b0, env);
    SendsOwnTwice(b, b0, b1, env);
    var r := LocalHandled(b, p, ingress, now, env);
    if p.kind == DEVICE_DISCOVERY {
      SendLocalSendsOwn(b1, InfoPacket(p.source, b1.lastService), ingress, env);
      SendsOwnTwice(b, b1, r, env);
    } else if p.kind == HEARTBEAT {
      SendLocalSendsOwn(b1, BeatPacket(p.source), ingress, env);
      SendsOwnTwice(b, b1, r, env);
    } else if p.kind == DIAGNOSTIC || p.kind == GET_STATE {
      SendLocalSendsOwn(b1, DiagnosticPacket(b.(router := b1.router, stats := b1.stats), p.source), ingress, env);
      SendsOwnTwice(b, b1, r, env);
    }
  }

  lemma NothingSendsOwn(a: Bridge, b: Bridge, env: Env)
    requires Sized(a) && b == a.(lastService := b.lastService)
    ensures SendsOwn(a, b, env)
  {
  }

  // ---- totals -------------------------------------------------------------------------------------------

  datatype Which = RxTotal | DropTotal

  function CounterOf(s: Stats, which: Which): u32 {
    if which == RxTotal then s.rxPackets else s.dropped
  }

  function Total(stats: seq<Stats>, which: Which): nat {
    if stats == [] then 0 else Total(stats[..|stats| - 1], which) + CounterOf(stats[|stats| - 1], which)
  }

  lemma {:induction false} TotalChanges(a: seq<Stats>, b: seq<Stats>, i: nat, which: Which)
    requires |a| == |b| && i < |a|
    requires forall q :: 0 <= q < |a| && q != i ==> CounterOf(a[q], which) == CounterOf(b[q], which)
    ensures Total(b, which) == Total(a, which) - CounterOf(a[i], which) + CounterOf(b[i], which)
  {
    var n := |a| - 1;
    if i < n {
      TotalChanges(a[..n], b[..n], i, which);
    } else {
      TotalSame(a[..n], b[..n], which);
    }
  }

  lemma {:induction false} TotalSame(a: seq<Stats>, b: seq<Stats>, which: Which)
    requires |a| == |b| && forall q :: 0 <= q < |a| ==> CounterOf(a[q], which) == CounterOf(b[q], which)
    ensures Total(a, which) == Total(b, which)
  {
    if a != [] {
      TotalSame(a[..|a| - 1], b[..|b| - 1], which);
    }
  }

  /** Equal modulo 2^32. */
  predicate Same32(a: int, b: int) {
    (a - b) % TWO32 == 0
  }

  /** The books of the northbridge balance; `local` is how many packets it handled itself. */
  ghost predicate Conserved(b: Bridge, local: nat) {
    && Same32(Total(b.stats, RxTotal), b.counts.forwarded + b.counts.dropped + local)
    && Same32(Total(b.stats, DropTotal), b.counts.dropped)
  }

  /** Every transmit counter is the number of frames its port took. */
  ghost predicate TxExact(b: Bridge) {
    forall q :: 0 <= q < |b.stats| && q < |b.router.links| ==> TxGap(b, q) == 0
  }

  /** Every write so far had the outcome the environment decides. */
  ghost predicate Outcomes(b: Bridge, env: Env) {
    forall q, k :: 0 <= q < |b.router.links| && 0 <= k < |b.router.links[q].log| ==>
      b.router.links[q].log[k].ok == env(q, k)
  }

  /**
   The guard of the one case in which a transmit counter moves away from the frames its port took: a broadcast that
   this port refuses while another port takes it is counted on both.
   */
  ghost predicate Overcounts(b: Bridge, p: Packet, port: byte, q: nat, env: Env) {
    && !IsBlocked(b, p, port) && p.destination == BROADCAST
    && q != port && q < |b.router.links| && b.router.links[q].attached && !Takes(b.router, q, env)
    && exists other :: 0 <= other < PORTS && other != port && Takes(b.router, other, env)
  }

  /** The packet, if the byte completes one. */
  function Completed(b: Bridge, port: byte, x: byte): Option<Packet>
    requires port < |b.parsers|
  {
    Advance(b.parsers[port], x).1
  }

  /** The packet goes no further: its source is bound elsewhere and topology is enforced. */
  predicate IsBlocked(b: Bridge, p: Packet, port: byte) {
    b.enforced && Misplaced(b, p, port)
  }

  predicate IsLocal(b: Bridge, p: Packet, port: byte) {
    !IsBlocked(b, p, port) && p.destination == NORTHBRIDGE
  }

  function LocalCount(b: Bridge, port: byte, x: byte): nat
    requires port < |b.parsers|
  {
    var p := Completed(b, port, x);
    if p.Some? && IsLocal(b, p.value, port) then 1 else 0
  }

  // ---- one packet ------------------------------------------------------------------------------------------

  /** What every packet keeps, and what it may write. */
  ghost predicate FlowOk(b: Bridge, r: Bridge, p: Packet, port: byte, env: Env)
    requires Sized(b) && Encodable(p)
  {
    && Sized(r) && TableOk(r.router) && SameAttached(b.router.links, r.router.links)
    && r.parsers == b.parsers && r.bindings == b.bindings && r.enforced == b.enforced
    && (forall a :: a != p.source || IsBlocked(b, p, port) ==>
          RouteFor(r.router.routes, a) == RouteFor(b.router.routes, a))
    && (RouteFor(b.router.routes, p.source) == Some(port) ==> RouteFor(r.router.routes, p.source) == Some(port))
    && (forall q :: 0 <= q < PORTS ==> Grows(b.router.links[q].log, r.router.links[q].log))
    && (forall q, k :: 0 <= q < PORTS && |b.router.links[q].log| <= k < |r.router.links[q].log| ==>
          FrameOk(b, r.router.links[q].log[k], q, p, port) && r.router.links[q].log[k].ok == env(q, k))
  }

  /** A written frame is the northbridge's own, or the relayed packet on another port than it came by. */
  predicate FrameOk(b: Bridge, event: WireEvent, q: nat, p: Packet, port: byte)
    requires Encodable(p)
  {
    IsOwn(event)
    || (event.from == Some(port) && event.frame == Encode(p) && q != port && !IsBlocked(b, p, port))
  }

  /** How a packet changes the books. */
  ghost predicate BooksOk(b: Bridge, r: Bridge, p: Packet, port: byte, env: Env)
    requires Sized(b)
  {
    && Sized(r) && (forall q :: 0 <= q < PORTS ==> GapMoves(b, r, q, Overcounts(b, p, port, q, env)))
    && (forall local: nat :: Conserved(b, local) ==> Conserved(r, local + if IsLocal(b, p, port) then 1 else 0))
  }

  /** The transmit counter of a port stays as far from the truth as it was, or moves one on. */
  predicate GapMoves(b: Bridge, r: Bridge, q: nat, over: bool)
    requires q < |b.stats| && q < |b.router.links| && q < |r.stats| && q < |r.router.links|
  {
    TxGap(r, q) == if over then (TxGap(b, q) + 1) % TWO32 else TxGap(b, q)
  }

  /** Rx counted on one port; and the drop counted there too, if any. */
  predicate Counted(a: seq<Stats>, b: seq<Stats>, port: nat, drop: bool) {
    && |a| == |b| && port < |a|
    && forall q :: 0 <= q < |a| ==>
         && b[q].rxPackets == (if q == port then Inc32(a[q].rxPackets) else a[q].rxPackets)
         && b[q].dropped == if drop && q == port then Inc32(a[q].dropped) else a[q].dropped
  }

  lemma BooksDropped(b: Bridge, r: Bridge, port: byte, local: nat)
    requires Counted(b.stats, r.stats, port, true) && Conserved(b, local)
    requires r.counts.forwarded == b.counts.forwarded && r.counts.dropped == Inc32(b.counts.dropped)
    ensures Conserved(r, local)
  {
    hide Same32, Inc32, Total;
    TotalChanges(b.stats, r.stats, port, RxTotal);
    TotalChanges(b.stats, r.stats, port, DropTotal);
    BalanceDropped(Total(b.stats, RxTotal), Total(b.stats, DropTotal), b.counts, local, b.stats[port].rxPackets,
                   b.stats[port].dropped);
  }

  lemma BooksForwarded(b: Bridge, r: Bridge, port: byte, local: nat)
    requires Counted(b.stats, r.stats, port, false) && Conserved(b, local)
    requires r.counts.dropped == b.counts.dropped
    ensures r.counts.forwarded == Inc32(b.counts.forwarded) ==> Conserved(r, local)
    ensures r.counts.forwarded == b.counts.forwarded ==> Conserved(r, local + 1)
  {
    hide Same32, Inc32, Total;
    TotalChanges(b.stats, r.stats, port, RxTotal);
    TotalSame(b.stats, r.stats, DropTotal);
    BalanceForwarded(Total(b.stats, RxTotal), b.counts, local, b.stats[port].rxPackets);
  }

  lemma BlockedEffect(b: Bridge, p: Packet, port: byte, env: Env)
    requires Sized(b) && TableOk(b.router) && Encodable(p) && port < PORTS && IsBlocked(b, p, port)
    ensures var r := Blocked(Moved(b.(stats := RxCounted(b.stats, port))), p, port, env);
      FlowOk(b, r, p, port, env) && BooksOk(b, r, p, port, env)
  {
    var b1 := b.(counts := b.counts.(movements := Inc32(b.counts.movements),
                                     topologyFaults := Inc32(b.counts.topologyFaults),
                                     dropped := Inc32(b.counts.dropped)),
                 stats := DropCounted(RxCounted(b.stats, port), port));
    var r := Blocked(Moved(b.(stats := RxCounted(b.stats, port))), p, port, env);
    BlockedSendsOwn(b, b1, p, port, env);
    hide Blocked, RouteFor, Encode, IsOwn, TxGap, Inc32, Misplaced;
    RoutesKeepTable(b.router, r.router);
    GapsSame(b, b1);
    assert FlowOk(b, r, p, port, env);
    hide Conserved, TableOk, SameAttached;
    assert Counted(b.stats, r.stats, port, true);
    forall local: nat | Conserved(b, local)
      ensures Conserved(r, local)
    {
      BooksDropped(b, r, port, local);
    }
  }

  lemma BlockedSendsOwn(b: Bridge, b1: Bridge, p: Packet, port: byte, env: Env)
    requires Sized(b) && IsBlocked(b, p, port) && port < PORTS
    requires b1 == b.(counts := b.counts.(movements := Inc32(b.counts.movements),
                                          topologyFaults := Inc32(b.counts.topologyFaults),
                                          dropped := Inc32(b.counts.dropped)),
                      stats := DropCounted(RxCounted(b.stats, port), port))
    ensures SendsOwn(b1, Blocked(Moved(b.(stats := RxCounted(b.stats, port))), p, port, env), env)
  {
    hide SendLocal, SendsOwn, RouteFor, ExpectedPort, TopologyFaultPacket;
    if RouteFor(b1.router.routes, MAIN_COMPUTER).Some? {
      SendLocalSendsOwn(b1, TopologyFaultPacket(p.source, ExpectedPort(b.bindings, p.source).value, port,
                                                b1.counts.topologyFaults),
                        RouteFor(b1.router.routes, MAIN_COMPUTER).value, env);
    } else {
      NothingSendsOwn(b1, b1, env);
    }
  }

  lemma GapsSame(a: Bridge, b: Bridge)
    requires Sized(a) && Sized(b) && a.router.links == b.router.links
    requires forall q :: 0 <= q < PORTS ==> a.stats[q].txPackets == b.stats[q].txPackets
    ensures forall q :: 0 <= q < PORTS ==> TxGap(a, q) == TxGap(b, q)
  {
  }

  lemma RoutesKeepTable(a: Router, b: Router)
    requires TableOk(a) && Shaped(b) && a.routes == b.routes && SameAttached(a.links, b.links)
    ensures TableOk(b)
  {
  }

  /** One packet more received and dropped. */
  lemma BalanceDropped(rx: int, drops: int, c: Counts, local: int, portRx: u32, portDrops: u32)
    requires Same32(rx, c.forwarded + c.dropped + local) && Same32(drops, c.dropped)
    ensures Same32(rx - portRx + Inc32(portRx), c.forwarded + Inc32(c.dropped) + local)
    ensures Same32(drops - portDrops + Inc32(portDrops), Inc32(c.dropped))
  {
  }

  /** One packet more received and forwarded. */
  lemma BalanceForwarded(rx: int, c: Counts, local: int, portRx: u32)
    requires Same32(rx, c.forwarded + c.dropped + local)
    ensures Same32(rx - portRx + Inc32(portRx), Inc32(c.forwarded) + c.dropped + local)
    ensures Same32(rx - portRx + Inc32(portRx), c.forwarded + c.dropped + local + 1)
  {
  }

  lemma LocalEffect(b: Bridge, moved: bool, p: Packet, port: byte, now: u32, env: Env)
    requires Sized(b) && TableOk(b.router) && Encodable(p) && Attached(b.router, port) && IsLocal(b, p, port)
    ensures var b0 := b.(stats := RxCounted(b.stats, port));
      var b1 := if moved then Moved(b0) else b0;
      var r := LocalHandled(b1.(router := MarkSeen(b1.router, p.source, port, now)), p, port, now, env);
      FlowOk(b, r, p, port, env) && BooksOk(b, r, p, port, env)
  {
    hide MarkSeen, LocalHandled, RouteFor, Encode, IsOwn, TxGap, Misplaced, Inc32;
    var b0 := b.(stats := RxCounted(b.stats, port));
    var b1 := if moved then Moved(b0) else b0;
    MarkSeenKeepsTable(b.router, p.source, port, now);
    var b2 := b1.(router := MarkSeen(b1.router, p.source, port, now));
    var r := LocalHandled(b2, p, port, now, env);
    LocalSendsOwn(b2, p, port, now, env);
    RoutesKeepTable(b2.router, r.router);
    GapsSame(b, b2);
    assert FlowOk(b, r, p, port, env);
    SendsOwnCounts(b2, r, env);
    hide Conserved, TableOk, SameAttached, SendsOwn;
    assert Counted(b.stats, r.stats, port, false);
    forall local: nat | Conserved(b, local)
      ensures Conserved(r, local + 1)
    {
      BooksForwarded(b, r, port, local);
    }
  }

  lemma SendsOwnCounts(a: Bridge, b: Bridge, env: Env)
    requires Sized(a) && SendsOwn(a, b, env)
    ensures SameRxAndDrops(a.stats, b.stats) && a.counts == b.counts
  {
  }

  lemma {:induction false} BroadcastCounts(links: seq<Link>, stats: seq<Stats>, ingress: byte, i: nat)
    requires |links| == |stats| && i <= |links|
    ensures var s := BroadcastCounted(links, stats, ingress, i);
      forall q :: 0 <= q < |stats| ==>
        s[q] == stats[q].(txPackets := if i <= q && q != ingress && links[q].attached
                          then Inc32(stats[q].txPackets) else stats[q].txPackets)
    decreases |links| - i
  {
    if i < |links| {
      BroadcastCounts(links, if i != ingress && links[i].attached then TxCounted(stats, i) else stats, ingress, i + 1);
    }
  }

  /** account_forward() counts, for a forwarded packet, exactly the ports it left by. */
  lemma AccountCounts(b: Bridge, p: Packet, ingress: byte)
    requires Sized(b) && TableOk(b.router) && p.destination != NORTHBRIDGE
    ensures var r := Accounted(b, p, ingress, true);
      && r == b.(stats := r.stats) && |r.stats| == PORTS
      && forall q :: 0 <= q < PORTS ==>
           r.stats[q] == b.stats[q].(txPackets := if LeavesBy(b.router, p, ingress, q)
                                     then Inc32(b.stats[q].txPackets) else b.stats[q].txPackets)
  {
    hide RouteFor;
    BroadcastCounts(b.router.links, b.stats, ingress, 0);
  }

  /** The bridge once a packet that goes on was counted as received. */
  predicate Arrived(b: Bridge, b1: Bridge, port: byte) {
    && b1 == b.(stats := RxCounted(b.stats, port), counts := b1.counts)
    && b1.counts.forwarded == b.counts.forwarded && b1.counts.dropped == b.counts.dropped
  }

  lemma ForwardedEffect(b: Bridge, moved: bool, p: Packet, port: byte, now: u32, env: Env)
    requires Sized(b) && TableOk(b.router) && Encodable(p) && Attached(b.router, port)
    requires !IsBlocked(b, p, port) && p.destination != NORTHBRIDGE
    ensures var b0 := b.(stats := RxCounted(b.stats, port));
      var r := Forwarded(if moved then Moved(b0) else b0, p, port, now, env);
      FlowOk(b, r, p, port, env) && BooksOk(b, r, p, port, env)
  {
    hide Forwarded, FlowOk, TableOk, GapMoves, Overcounts, Conserved;
    var b0 := b.(stats := RxCounted(b.stats, port));
    var b1 := if moved then Moved(b0) else b0;
    ForwardedFlow(b, b1, p, port, now, env);
    ForwardedTx(b, b1, p, port, now, env);
    ForwardedBooks(b, b1, p, port, now, env);
  }

  lemma ForwardedFlow(b: Bridge, b1: Bridge, p: Packet, port: byte, now: u32, env: Env)
    requires Sized(b) && TableOk(b.router) && Encodable(p) && Attached(b.router, port) && Arrived(b, b1, port)
    requires !IsBlocked(b, p, port) && p.destination != NORTHBRIDGE
    ensures FlowOk(b, Forwarded(b1, p, port, now, env), p, port, env)
  {
    ForwardEffect(b.router, p, port, now, env);
    MarkSeenKeepsTable(b.router, p.source, port, now);
    hide Forward, MarkSeen, RouteFor, Encode, IsOwn, Misplaced, LeavesBy, GrewBy, TableOk, Inc32;
    var r := Forwarded(b1, p, port, now, env);
    ForwardedStats(b, b1, p, port, now, env);
    hide Forwarded;
    ForwardedFrames(b, r, p, port, env);
  }

  /** The counters of a packet that goes on. */
  lemma ForwardedStats(b: Bridge, b1: Bridge, p: Packet, port: byte, now: u32, env: Env)
    requires Sized(b) && TableOk(b.router) && Encodable(p) && Attached(b.router, port) && Arrived(b, b1, port)
    requires p.destination != NORTHBRIDGE
    ensures var r := Forwarded(b1, p, port, now, env);
      var ok := Forward(b.router, p, port, now, env).1;
      && Sized(r) && r.router == Forward(b.router, p, port, now, env).0
      && Counted(b.stats, r.stats, port, !ok)
      && (forall q :: 0 <= q < PORTS ==>
            r.stats[q].txPackets == (if ok && LeavesBy(r.router, p, port, q) then Inc32(b.stats[q].txPackets)
                                     else b.stats[q].txPackets))
      && r.counts.forwarded == (if ok then Inc32(b.counts.forwarded) else b.counts.forwarded)
      && r.counts.dropped == (if ok then b.counts.dropped else Inc32(b.counts.dropped))
      && r.parsers == b.parsers && r.bindings == b.bindings && r.enforced == b.enforced
  {
    ForwardEffect(b.router, p, port, now, env);
    hide Forward, MarkSeen, LeavesBy, GrewBy, RouteFor, Encode, Inc32;
    var (router, ok) := Forward(b.router, p, port, now, env);
    var b2 := b1.(router := router);
    AccountCounts(b2, p, port);
    AccountDrop(b2, p, port);
    hide Accounted, TableOk;
  }

  lemma ForwardedTx(b: Bridge, b1: Bridge, p: Packet, port: byte, now: u32, env: Env)
    requires Sized(b) && TableOk(b.router) && Encodable(p) && Attached(b.router, port) && Arrived(b, b1, port)
    requires !IsBlocked(b, p, port) && p.destination != NORTHBRIDGE
    ensures var r := Forwarded(b1, p, port, now, env);
      Sized(r) && forall q :: 0 <= q < PORTS ==> GapMoves(b, r, q, Overcounts(b, p, port, q, env))
  {
    hide Forwarded, Forward, MarkSeen, LeavesBy, GrewBy, TableOk, Inc32, Counted, Encode, Encodable, GapMoves,
      Misplaced, Overcounts, Takes;
    ForwardEffect(b.router, p, port, now, env);
    ForwardedStats(b, b1, p, port, now, env);
    var r, ok := Forwarded(b1, p, port, now, env), Forward(b.router, p, port, now, env).1;
    ForwardedFrames(b, r, p, port, env);
    forall q | 0 <= q < PORTS
      ensures GapMoves(b, r, q, Overcounts(b, p, port, q, env))
    {
      OvercountedWhen(b, r, p, port, q, ok, env);
      OksGrow(b.router.links[q], r.router.links[q], p, Some(port), Takes(b.router, q, env));
      ForwardedGap(b, r, q, LeavesBy(r.router, p, port, q), ok, Takes(b.router, q, env));
    }
  }

  /** A port is overcounted exactly when the packet leaves by it, it refuses, and the packet counts as forwarded. */
  lemma OvercountedWhen(b: Bridge, r: Bridge, p: Packet, port: byte, q: nat, ok: bool, env: Env)
    requires Sized(b) && Sized(r) && q < PORTS && SameAttached(b.router.links, r.router.links)
    requires !IsBlocked(b, p, port) && p.destination != NORTHBRIDGE
    requires ok <==> exists o :: 0 <= o < PORTS && LeavesBy(r.router, p, port, o) && Takes(b.router, o, env)
    ensures Overcounts(b, p, port, q, env) <==> LeavesBy(r.router, p, port, q) && !Takes(b.router, q, env) && ok
  {
    hide Misplaced, RouteFor;
    if ok {
      var o :| 0 <= o < PORTS && LeavesBy(r.router, p, port, o) && Takes(b.router, o, env);
      assert o != port && Takes(b.router, o, env);
    }
    forall o | 0 <= o < PORTS && o != port && Takes(b.router, o, env)
      ensures p.destination == BROADCAST ==> LeavesBy(r.router, p, port, o)
    {
    }
  }

  lemma ForwardedGap(b: Bridge, r: Bridge, q: nat, leaves: bool, ok: bool, takes: bool)
    requires Sized(b) && Sized(r) && q < PORTS && (leaves && takes ==> ok)
    requires Oks(r.router.links[q].log) == Oks(b.router.links[q].log) + if leaves && takes then 1 else 0
    requires r.stats[q].txPackets == if ok && leaves then Inc32(b.stats[q].txPackets) else b.stats[q].txPackets
    ensures GapMoves(b, r, q, leaves && !takes && ok)
  {
    hide Oks, Inc32;
    GapKept(b.stats[q].txPackets, Oks(b.router.links[q].log));
  }

  lemma ForwardedBooks(b: Bridge, b1: Bridge, p: Packet, port: byte, now: u32, env: Env)
    requires Sized(b) && TableOk(b.router) && Encodable(p) && Attached(b.router, port) && Arrived(b, b1, port)
    requires p.destination != NORTHBRIDGE
    ensures forall local: nat :: Conserved(b, local) ==> Conserved(Forwarded(b1, p, port, now, env), local)
  {
    ForwardedStats(b, b1, p, port, now, env);
    hide Forwarded, Forward, MarkSeen, LeavesBy, TableOk, Inc32, Counted, Conserved;
    var r := Forwarded(b1, p, port, now, env);
    forall local: nat | Conserved(b, local)
      ensures Conserved(r, local)
    {
      if Forward(b.router, p, port, now, env).1 {
        BooksForwarded(b, r, port, local);
      } else {
        BooksDropped(b, r, port, local);
      }
    }
  }

  lemma AccountDrop(b: Bridge, p: Packet, ingress: byte)
    ensures Accounted(b, p, ingress, false) == b.(stats := DropCounted(b.stats, ingress))
  {
  }

  lemma ForwardedFrames(b: Bridge, r: Bridge, p: Packet, port: byte, env: Env)
    requires Sized(b) && Shaped(r.router) && Encodable(p) && port < PORTS
    requires r.router.links[port] == b.router.links[port]
    requires forall q :: 0 <= q < PORTS ==>
      GrewBy(b.router.links[q], r.router.links[q], p, Some(port), Takes(b.router, q, env))
    ensures SameAttached(b.router.links, r.router.links)
    ensures forall q :: 0 <= q < PORTS ==> Grows(b.router.links[q].log, r.router.links[q].log)
    ensures forall q, k :: 0 <= q < PORTS && |b.router.links[q].log| <= k < |r.router.links[q].log| ==>
      r.router.links[q].log[k] == WireEvent(Encode(p), env(q, k), Some(port)) && q != port
  {
    hide Encode;
  }

  /** What one completed packet does, whichever way it goes. */
  lemma PacketInEffect(b: Bridge, p: Packet, port: byte, now: u32, env: Env)
    requires Sized(b) && TableOk(b.router) && Encodable(p) && Attached(b.router, port)
    ensures var r := PacketIn(b, p, port, now, env); FlowOk(b, r, p, port, env) && BooksOk(b, r, p, port, env)
  {
    hide Blocked, LocalHandled, Forwarded, MarkSeen, FlowOk, BooksOk;
    var moved := Misplaced(b, p, port);
    if IsBlocked(b, p, port) {
      BlockedEffect(b, p, port, env);
    } else if p.destination == NORTHBRIDGE {
      LocalEffect(b, moved, p, port, now, env);
    } else {
      ForwardedEffect(b, moved, p, port, now, env);
    }
  }

  // ---- one byte ------------------------------------------------------------------------------------------

  /** The bridge with only the parser of `port` moved on by a byte. */
  function Parsed(b: Bridge, port: byte, x: byte): Bridge
    requires port < |b.parsers|
  {
    b.(parsers := b.parsers[port := Advance(b.parsers[port], x).0])
  }

  /** A byte that completes a packet completes exactly the frame collected, and is handled as that packet. */
  lemma ByteInEffect(b: Bridge, port: byte, x: byte, now: u32, env: Env)
    requires Sized(b) && TableOk(b.router) && Attached(b.router, port)
    ensures var r, p := ByteIn(b, port, x, now, env), Completed(b, port, x);
      && (p.None? ==> r == Parsed(b, port, x))
      && (p.Some? ==>
            && Encodable(p.value) && Encode(p.value) == b.parsers[port].buffer + [x]
            && r == PacketIn(Parsed(b, port, x), p.value, port, now, env)
            && FlowOk(Parsed(b, port, x), r, p.value, port, env) && BooksOk(Parsed(b, port, x), r, p.value, port, env))
  {
    hide Advance, PacketIn, FlowOk, BooksOk, Encode, Encodable;
    var p := Completed(b, port, x);
    if p.Some? {
      AdvanceEmitsBuffer(b.parsers[port], x);
      PacketInEffect(Parsed(b, port, x), p.value, port, now, env);
    }
  }

  /**
   Relaying: of a packet for others that is not blocked, each port's log grows by one copy of the received
   frame, byte for byte, where the packet leaves by that port, and stays as it was elsewhere; the ingress
   port is never among them, and a unicast leaves by the port its destination is routed to and no other.
   */
  lemma RelaysByteForByte(b: Bridge, p: Packet, port: byte, x: byte, now: u32, env: Env)
    requires Sized(b) && TableOk(b.router) && Attached(b.router, port) && Completed(b, port, x) == Some(p)
    requires !IsBlocked(b, p, port) && p.destination != NORTHBRIDGE
    ensures Relayed(b.router, ByteIn(b, port, x, now, env).router, p, port, b.parsers[port].buffer + [x])
  {
    ByteInEffect(b, port, x, now, env);
    ForwardEffect(b.router, p, port, now, env);
    GoesOn(Parsed(b, port, x), p, port, now, env);
    hide Advance, Forward, Encode, Encodable, FlowOk, BooksOk, TableOk, RouteFor, ByteIn, Completed, PacketIn, LeavesBy,
      ExpectedPort, MarkSeen;
  }

  ghost predicate Relayed(r: Router, r': Router, p: Packet, port: byte, frame: seq<byte>)
    requires Shaped(r)
  {
    && Shaped(r')
    && forall q :: 0 <= q < PORTS ==>
         if LeavesBy(r', p, port, q)
           then |r'.links[q].log| == |r.links[q].log| + 1 && r'.links[q].log[..|r.links[q].log|] == r.links[q].log
                && r'.links[q].log[|r.links[q].log|].frame == frame
                && r'.links[q].log[|r.links[q].log|].from == Some(port)
         else r'.links[q] == r.links[q]
  }

  lemma GoesOn(b: Bridge, p: Packet, port: byte, now: u32, env: Env)
    requires Sized(b) && !IsBlocked(b, p, port) && p.destination != NORTHBRIDGE
    ensures PacketIn(b, p, port, now, env).router == Forward(b.router, p, port, now, env).0
  {
    hide Forward, Blocked, LocalHandled, ExpectedPort, MarkSeen;
  }

  // ---- a whole frame ---------------------------------------------------------------------------------------

  /** Bytes that complete no packet move the port's parser on and do nothing else. */
  lemma {:induction false} QuietBytes(b: Bridge, port: byte, chunk: seq<byte>, now: u32, env: Env)
    requires Sized(b) && port < PORTS && Run(b.parsers[port], chunk).1 == []
    ensures BytesIn(b, port, chunk, now, env) == b.(parsers := b.parsers[port := Run(b.parsers[port], chunk).0])
  {
    hide Advance, PacketIn;
    if chunk == [] {
      assert b.parsers[port := b.parsers[port]] == b.parsers;
    } else {
      var before := chunk[..|chunk| - 1];
      QuietBytes(b, port, before, now, env);
      var s := Run(b.parsers[port], before).0;
      assert b.parsers[port := s][port := Advance(s, chunk[|chunk| - 1]).0]
          == b.parsers[port := Advance(s, chunk[|chunk| - 1]).0];
    }
  }

  /** All but the last byte of a frame are quiet, and the last one completes its packet. */
  lemma LastByteCompletes(b: Bridge, p: Packet, port: byte, now: u32, env: Env)
    requires Sized(b) && port < PORTS && Hunting(b.parsers[port]) && Encodable(p)
    ensures var f := Encode(p);
      var n := |f| - 1;
      var mid := BytesIn(b, port, f[..n], now, env);
      && mid == b.(parsers := b.parsers[port := mid.parsers[port]])
      && mid.parsers[port].buffer == f[..n] && Completed(mid, port, f[n]) == Some(p)
      && Advance(mid.parsers[port], f[n]).0 == Parser([], 0, b.parsers[port].rejected)
  {
    hide Encode, Advance, ByteIn;
    var f := Encode(p);
    var n := |f| - 1;
    HeaderBytes(p);
    FramePrefix(b.parsers[port], p, n);
    FrameParsed(b.parsers[port], p);
    QuietBytes(b, port, f[..n], now, env);
    var last := Completed(BytesIn(b, port, f[..n], now, env), port, f[n]);
    assert (if last.Some? then [] + [last.value] else []) == [p];
    assert last.Some? && ([] + [last.value])[0] == last.value && [p][0] == p;
  }

  /** A frame arriving whole on a port is handled as its packet, with the parser idle again. */
  lemma FrameHandled(b: Bridge, p: Packet, port: byte, now: u32, env: Env)
    requires Sized(b) && port < PORTS && Hunting(b.parsers[port]) && Encodable(p)
    ensures BytesIn(b, port, Encode(p), now, env)
         == PacketIn(b.(parsers := b.parsers[port := Parser([], 0, b.parsers[port].rejected)]), p, port, now, env)
  {
    hide Encode, Advance, PacketIn;
    LastByteCompletes(b, p, port, now, env);
    var f := Encode(p);
    var mid := BytesIn(b, port, f[..|f| - 1], now, env);
    var idle := Parser([], 0, b.parsers[port].rejected);
    assert mid.parsers[port := idle] == b.parsers[port := idle];
  }

  // ---- what any traffic keeps ----------------------------------------------------------------------------

  /** The invariant of a running northbridge; bound routes are part of it where topology is enforced. */
  ghost predicate Sound(b: Bridge) {
    && Sized(b) && TableOk(b.router) && (b.enforced ==> BindingsOk(b))
    && forall q :: 0 <= q < PORTS ==> Reachable(b.parsers[q])
  }

  ghost predicate Kept(b: Bridge, r: Bridge) {
    Sound(r) && SameAttached(b.router.links, r.router.links) && r.bindings == b.bindings && r.enforced == b.enforced
  }

  lemma ByteKeeps(b: Bridge, port: byte, x: byte, now: u32, env: Env)
    requires Sound(b) && Attached(b.router, port)
    ensures Kept(b, ByteIn(b, port, x, now, env))
  {
    hide Advance, PacketIn, ByteIn, Reachable, Encode, Encodable, BooksOk, FrameOk, TableOk, RouteFor, Misplaced;
    ByteInEffect(b, port, x, now, env);
    AdvanceKeepsReachable(b.parsers[port], x);
    if Completed(b, port, x).Some? && b.enforced {
      FlowKeepsBindings(Parsed(b, port, x), ByteIn(b, port, x, now, env), Completed(b, port, x).value, port, env);
    }
  }

  lemma FlowKeepsBindings(b: Bridge, r: Bridge, p: Packet, port: byte, env: Env)
    requires Sized(b) && b.enforced && BindingsOk(b) && Encodable(p) && FlowOk(b, r, p, port, env)
    ensures BindingsOk(r)
  {
    hide Encode, Encodable, RouteFor, TableOk, FrameOk, ExpectedPort;
    forall i | 0 <= i < |b.bindings| && b.bindings[i].active
      ensures RouteFor(r.router.routes, b.bindings[i].address) == Some(b.bindings[i].port)
    {
      if b.bindings[i].address == p.source && !IsBlocked(b, p, port) {
        BoundHere(b, p.source, i);
      }
    }
  }

  lemma BoundHere(b: Bridge, address: byte, i: nat)
    requires BindingsOk(b) && i < |b.bindings| && b.bindings[i].active && b.bindings[i].address == address
    ensures ExpectedPort(b.bindings, address) == Some(b.bindings[i].port)
  {
    assert FindBinding(b.bindings, address, 0) == i;
  }

  lemma {:induction false} BytesKeep(b: Bridge, port: byte, chunk: seq<byte>, now: u32, env: Env)
    requires Sound(b) && Attached(b.router, port)
    ensures Kept(b, BytesIn(b, port, chunk, now, env))
  {
    hide ByteIn, TableOk, BindingsOk, Reachable;
    if chunk != [] {
      BytesKeep(b, port, chunk[..|chunk| - 1], now, env);
      ByteKeeps(BytesIn(b, port, chunk[..|chunk| - 1], now, env), port, chunk[|chunk| - 1], now, env);
    }
  }

  /** Byte and reject counts enter neither the invariant nor the books. */
  lemma NotedKeeps(b: Bridge, port: byte, n: nat, local: nat)
    requires Sound(b) && Attached(b.router, port)
    ensures var r := BytesNoted(b, port, n);
      Kept(b, r) && r.parsers == b.parsers && r.router == b.router && SameGaps(b, r)
      && (Conserved(b, local) ==> Conserved(r, local))
    ensures var r := RejectsNoted(b, port);
      Kept(b, r) && r.parsers == b.parsers && r.router == b.router && SameGaps(b, r)
      && (Conserved(b, local) ==> Conserved(r, local))
  {
    hide TableOk, Reachable, RouteFor, Add32;
    SameBooks(b, BytesNoted(b, port, n), local);
    SameBooks(b, RejectsNoted(b, port), local);
  }

  lemma PortKeeps(b: Bridge, x: Burst, env: Env)
    requires Sound(b)
    ensures Kept(b, PortServiced(b, x.port, x.chunk, x.now, env))
  {
    hide BytesIn, TableOk, Reachable, BindingsOk, BytesNoted, RejectsNoted;
    if Attached(b.router, x.port) {
      NotedKeeps(b, x.port, |x.chunk|, 0);
      var b1 := BytesNoted(b, x.port, |x.chunk|);
      BytesKeep(b1, x.port, x.chunk, x.now, env);
      NotedKeeps(BytesIn(b1, x.port, x.chunk, x.now, env), x.port, 0, 0);
    }
  }

  lemma {:induction false} TrafficKeeps(b: Bridge, traffic: seq<Burst>, env: Env)
    requires Sound(b)
    ensures Kept(b, After(b, traffic, env))
  {
    hide PortServiced, TableOk, BindingsOk, Reachable;
    if traffic != [] {
      TrafficKeeps(b, traffic[..|traffic| - 1], env);
      PortKeeps(After(b, traffic[..|traffic| - 1], env), traffic[|traffic| - 1], env);
    }
  }

  /**
   With topology enforced, no input on any ports moves a bound node's route: whatever arrives, every
   bound address stays routed to its bound port, and the table keeps one entry per address, on attached ports.
   */
  lemma BoundRoutesHold(b: Bridge, traffic: seq<Burst>, env: Env)
    requires BridgeOk(b) && b.enforced
    ensures var r := After(b, traffic, env);
      && BridgeOk(r)
      && forall a :: ExpectedPort(b.bindings, a).Some? ==>
           RouteFor(r.router.routes, a) == ExpectedPort(r.bindings, a) == ExpectedPort(b.bindings, a)
  {
    TrafficKeeps(b, traffic, env);
    var r := After(b, traffic, env);
    hide After, TableOk, RouteFor, ExpectedPort, Reachable;
    forall a | ExpectedPort(b.bindings, a).Some?
      ensures RouteFor(r.router.routes, a) == ExpectedPort(b.bindings, a)
    {
      ExpectedIsRoute(r, a);
    }
  }

  // ---- the books balance over any traffic -----------------------------------------------------------------

  /** How many of these packets from `port` the northbridge handles itself. */
  function LocalPackets(b: Bridge, ps: seq<Packet>, port: byte): nat {
    if ps == [] then 0
    else LocalPackets(b, ps[..|ps| - 1], port) + if IsLocal(b, ps[|ps| - 1], port) then 1 else 0
  }

  /** Everything read from a port. */
  function Heard(traffic: seq<Burst>, port: nat): seq<byte> {
    if traffic == [] then []
    else
      Heard(traffic[..|traffic| - 1], port)
      + if traffic[|traffic| - 1].port == port then traffic[|traffic| - 1].chunk else []
  }

  /** The packets an attached port's parser makes of what was read there. */
  function PacketsFrom(b: Bridge, traffic: seq<Burst>, port: nat): seq<Packet>
    requires port < |b.parsers|
  {
    Run(b.parsers[port], Heard(traffic, port)).1
  }

  /** How many packets read on attached ports below `n` the northbridge handles itself. */
  function LocalTotal(b: Bridge, traffic: seq<Burst>, n: nat): nat
    requires Sized(b) && n <= PORTS
  {
    if n == 0 then 0
    else
      LocalTotal(b, traffic, n - 1)
      + if b.router.links[n - 1].attached then LocalPackets(b, PacketsFrom(b, traffic, n - 1), n - 1) else 0
  }

  ghost predicate Balanced(b: Bridge, local: nat, env: Env) {
    Conserved(b, local) && Outcomes(b, env) && ((forall q, n :: env(q, n)) ==> TxExact(b))
  }

  lemma ByteBalances(b: Bridge, port: byte, x: byte, now: u32, env: Env, local: nat)
    requires Sound(b) && Attached(b.router, port) && Balanced(b, local, env)
    ensures Balanced(ByteIn(b, port, x, now, env), local + LocalCount(b, port, x), env)
  {
    hide Advance, PacketIn, ByteIn, Encode, Encodable, FlowOk, BooksOk, ExpectedPort, Conserved, TxExact, TableOk,
      BindingsOk, Reachable, Parsed, Outcomes;
    ParsedBalances(b, port, x, local, env);
    ByteInEffect(b, port, x, now, env);
    var p := Completed(b, port, x);
    if p.Some? {
      FlowKeepsOutcomes(Parsed(b, port, x), ByteIn(b, port, x, now, env), p.value, port, env);
      BooksKeepBalance(Parsed(b, port, x), ByteIn(b, port, x, now, env), p.value, port, env, local);
    }
  }

  lemma BooksKeepBalance(b: Bridge, r: Bridge, p: Packet, port: byte, env: Env, local: nat)
    requires Sized(b) && BooksOk(b, r, p, port, env)
    ensures Conserved(b, local) ==> Conserved(r, local + if IsLocal(b, p, port) then 1 else 0)
    ensures (forall q, n :: env(q, n)) && TxExact(b) ==> TxExact(r)
  {
    hide Conserved, TxGap, Misplaced;
    if (forall q, n :: env(q, n)) && TxExact(b) {
      forall q | 0 <= q < PORTS
        ensures TxGap(r, q) == 0
      {
        assert GapMoves(b, r, q, Overcounts(b, p, port, q, env)) && TxGap(b, q) == 0;
      }
    }
  }

  lemma FlowKeepsOutcomes(b: Bridge, r: Bridge, p: Packet, port: byte, env: Env)
    requires Sized(b) && Encodable(p) && FlowOk(b, r, p, port, env) && Outcomes(b, env)
    ensures Outcomes(r, env)
  {
    hide Encode, Encodable, RouteFor, TableOk, FrameOk;
    forall q, k | 0 <= q < PORTS && 0 <= k < |r.router.links[q].log|
      ensures r.router.links[q].log[k].ok == env(q, k)
    {
      if k < |b.router.links[q].log| {
        assert r.router.links[q].log[k] == r.router.links[q].log[..|b.router.links[q].log|][k];
      }
    }
  }

  lemma ParsedBalances(b: Bridge, port: byte, x: byte, local: nat, env: Env)
    requires Sized(b) && port < PORTS && Balanced(b, local, env)
    ensures var r := Parsed(b, port, x);
      Sized(r) && Balanced(r, local, env) && r.bindings == b.bindings && r.enforced == b.enforced
      && r.router == b.router && SameGaps(b, r)
  {
    hide Advance, Conserved, TxGap;
    SameBooks(b, Parsed(b, port, x), local);
  }

  ghost predicate SameGaps(a: Bridge, b: Bridge)
    requires Sized(a) && Sized(b)
  {
    forall q :: 0 <= q < PORTS ==> TxGap(b, q) == TxGap(a, q)
  }

  /** Only these parts of the state enter the books. */
  lemma SameBooks(a: Bridge, b: Bridge, local: nat)
    requires Sized(a) && Sized(b) && a.router == b.router && SameRxAndDrops(a.stats, b.stats)
    requires a.counts == b.counts && forall q :: 0 <= q < PORTS ==> a.stats[q].txPackets == b.stats[q].txPackets
    ensures Conserved(a, local) ==> Conserved(b, local)
    ensures SameGaps(a, b)
  {
    TotalSame(a.stats, b.stats, RxTotal);
    TotalSame(a.stats, b.stats, DropTotal);
    GapsSame(a, b);
  }

  lemma LocalSame(a: Bridge, b: Bridge, ps: seq<Packet>, port: byte)
    requires a.bindings == b.bindings && a.enforced == b.enforced
    ensures LocalPackets(a, ps, port) == LocalPackets(b, ps, port)
  {
  }

  lemma {:induction false} LocalAppend(b: Bridge, ps: seq<Packet>, more: seq<Packet>, port: byte)
    ensures LocalPackets(b, ps + more, port) == LocalPackets(b, ps, port) + LocalPackets(b, more, port)
  {
    if more == [] {
      assert ps + more == ps;
    } else {
      LocalAppend(b, ps, more[..|more| - 1], port);
      assert (ps + more)[..|ps + more| - 1] == ps + more[..|more| - 1];
    }
  }

  /** Reading one port moves its parser on and no other port's. */
  lemma {:induction false} BytesBalance(b: Bridge, port: byte, chunk: seq<byte>, now: u32, env: Env, local: nat)
    requires Sound(b) && Attached(b.router, port) && Balanced(b, local, env)
    ensures var r := BytesIn(b, port, chunk, now, env);
      && r.parsers == b.parsers[port := Run(b.parsers[port], chunk).0]
      && Balanced(r, local + LocalPackets(b, Run(b.parsers[port], chunk).1, port), env)
  {
    hide ByteIn, TableOk, BindingsOk, Reachable, Balanced, IsLocal, Advance;
    if chunk == [] {
      assert b.parsers[port := b.parsers[port]] == b.parsers;
    } else {
      var before, x := chunk[..|chunk| - 1], chunk[|chunk| - 1];
      BytesBalance(b, port, before, now, env, local);
      BytesKeep(b, port, before, now, env);
      var mid := BytesIn(b, port, before, now, env);
      ByteBalances(mid, port, x, now, env, local + LocalPackets(b, Run(b.parsers[port], before).1, port));
      ByteInShape(mid, port, x, now, env);
      LocalByte(mid, b, Run(b.parsers[port], before).1, port, x);
    }
  }

  lemma LocalByte(mid: Bridge, b: Bridge, ps: seq<Packet>, port: byte, x: byte)
    requires Sized(mid) && mid.bindings == b.bindings && mid.enforced == b.enforced && port < PORTS
    ensures var p := Completed(mid, port, x);
      LocalPackets(b, if p.Some? then ps + [p.value] else ps, port)
      == LocalPackets(b, ps, port) + LocalCount(mid, port, x)
  {
    hide Advance;
  }

  lemma PortBalances(b: Bridge, x: Burst, env: Env, local: nat)
    requires Sound(b) && Balanced(b, local, env) && Attached(b.router, x.port)
    ensures var r := PortServiced(b, x.port, x.chunk, x.now, env);
      && r.parsers == b.parsers[x.port := Run(b.parsers[x.port], x.chunk).0]
      && Balanced(r, local + LocalPackets(b, Run(b.parsers[x.port], x.chunk).1, x.port), env)
  {
    hide TableOk, Reachable, BindingsOk, Balanced, Run, IsLocal, BytesNoted, RejectsNoted, PortServiced, BytesIn;
    var b1 := BytesNoted(b, x.port, |x.chunk|);
    var n := LocalPackets(b, Run(b.parsers[x.port], x.chunk).1, x.port);
    var b2 := BytesIn(b1, x.port, x.chunk, x.now, env);
    NotedBalances(b, x.port, |x.chunk|, local, env);
    BytesBalance(b1, x.port, x.chunk, x.now, env, local);
    LocalSame(b1, b, Run(b.parsers[x.port], x.chunk).1, x.port);
    BytesKeep(b1, x.port, x.chunk, x.now, env);
    NotedBalances(b2, x.port, 0, local + n, env);
    PortReads(b, x, env);
  }

  lemma NotedBalances(b: Bridge, port: byte, n: nat, local: nat, env: Env)
    requires Sound(b) && Attached(b.router, port) && Balanced(b, local, env)
    ensures var r := BytesNoted(b, port, n);
      Kept(b, r) && Balanced(r, local, env) && r.parsers == b.parsers && r.router == b.router
    ensures var r := RejectsNoted(b, port); Balanced(r, local, env) && r.parsers == b.parsers
  {
    hide BytesNoted, RejectsNoted, Conserved, TxGap, TableOk, BindingsOk, Reachable;
    NotedKeeps(b, port, n, local);
  }

  lemma PortReads(b: Bridge, x: Burst, env: Env)
    requires Sized(b) && Attached(b.router, x.port)
    ensures PortServiced(b, x.port, x.chunk, x.now, env)
         == RejectsNoted(BytesIn(BytesNoted(b, x.port, |x.chunk|), x.port, x.chunk, x.now, env), x.port)
  {
    hide BytesIn, BytesNoted, RejectsNoted;
  }

  lemma {:induction false} LocalTotalGrows(b: Bridge, before: seq<Burst>, x: Burst, n: nat)
    requires Sized(b) && n <= PORTS
    ensures LocalTotal(b, before + [x], n) == LocalTotal(b, before, n)
      + if x.port < n && Attached(b.router, x.port)
        then LocalPackets(b, Run(Run(b.parsers[x.port], Heard(before, x.port)).0, x.chunk).1, x.port) else 0
  {
    hide IsLocal, Advance;
    if n > 0 {
      var q := n - 1;
      LocalTotalGrows(b, before, x, q);
      assert (before + [x])[..|before|] == before;
      if x.port == q {
        RunAppend(b.parsers[q], Heard(before, q), x.chunk);
        LocalAppend(b, PacketsFrom(b, before, q), Run(Run(b.parsers[q], Heard(before, q)).0, x.chunk).1, q);
      } else {
        assert Heard(before, q) + [] == Heard(before, q);
      }
    }
  }

  /**
   Conservation over any traffic: modulo 2^32 the packets received are those forwarded, dropped or handled
   locally, the drops of the ports are the drops in all, and, where writes do not fail, each port's
   transmit counter is the number of frames written to it, all of which it took; every write has the outcome the
   environment decides; and every port is parsed on its own.
   */
  lemma {:induction false} TrafficBalances(b: Bridge, traffic: seq<Burst>, env: Env)
    requires Sound(b) && Balanced(b, 0, env)
    ensures var r := After(b, traffic, env);
      && Balanced(r, LocalTotal(b, traffic, PORTS), env)
      && (forall q :: 0 <= q < PORTS && b.router.links[q].attached ==>
            r.parsers[q] == Run(b.parsers[q], Heard(traffic, q)).0)
      && ((forall q, n :: env(q, n)) ==> forall q :: 0 <= q < PORTS ==>
            Same32(r.stats[q].txPackets, |r.router.links[q].log|))
  {
    hide PortServiced, TableOk, BindingsOk, Reachable, Balanced, Run, IsLocal, Same32;
    if traffic == [] {
      NothingHeard(b, PORTS);
    } else {
      var before, x := traffic[..|traffic| - 1], traffic[|traffic| - 1];
      TrafficBalances(b, before, env);
      TrafficKeeps(b, before, env);
      assert traffic == before + [x];
      LocalTotalGrows(b, before, x, PORTS);
      var mid := After(b, before, env);
      if Attached(b.router, x.port) {
        PortBalances(mid, x, env, LocalTotal(b, before, PORTS));
        LocalSame(mid, b, Run(mid.parsers[x.port], x.chunk).1, x.port);
        RunAppend(b.parsers[x.port], Heard(before, x.port), x.chunk);
      } else {
        UnreadPort(mid, x, env);
      }
      assert forall q :: 0 <= q < PORTS && q != x.port ==> Heard(traffic, q) == Heard(before, q);
    }
    AllTaken(After(b, traffic, env), LocalTotal(b, traffic, PORTS), env);
  }

  lemma AllTaken(b: Bridge, local: nat, env: Env)
    requires Sized(b) && Balanced(b, local, env)
    ensures (forall q, n :: env(q, n)) ==> forall q :: 0 <= q < PORTS ==>
      Same32(b.stats[q].txPackets, |b.router.links[q].log|)
  {
    hide Conserved, Oks;
    if forall q, n :: env(q, n) {
      forall q | 0 <= q < PORTS
        ensures Same32(b.stats[q].txPackets, |b.router.links[q].log|)
      {
        AllOk(b.router.links[q].log);
        assert TxGap(b, q) == 0;
      }
    }
  }

  lemma {:induction false} AllOk(log: seq<WireEvent>)
    requires forall k :: 0 <= k < |log| ==> log[k].ok
    ensures Oks(log) == |log|
  {
    if log != [] {
      AllOk(log[..|log| - 1]);
    }
  }

  lemma UnreadPort(b: Bridge, x: Burst, env: Env)
    requires Sized(b) && !Attached(b.router, x.port)
    ensures PortServiced(b, x.port, x.chunk, x.now, env) == b
  {
  }

  lemma {:induction false} NothingHeard(b: Bridge, n: nat)
    requires Sized(b) && n <= PORTS
    ensures LocalTotal(b, [], n) == 0
    ensures forall q :: 0 <= q < PORTS ==> Run(b.parsers[q], []) == (b.parsers[q], [])
  {
    if n > 0 {
      NothingHeard(b, n - 1);
    }
  }
}
