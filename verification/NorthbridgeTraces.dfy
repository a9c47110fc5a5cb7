/** Where the frames on the northbridge's wires come from, and what its set-up establishes. */
module NorthbridgeTraces {
  import opened Bytes
  import opened Codec
  import opened StreamParsing
  import opened Node
  import opened Routing
  import opened Northbridge
  import opened NorthbridgeRuns

  // ---- every relayed frame was received ---------------------------------------------------------------------

  predicate OccursAt(frame: seq<byte>, stream: seq<byte>, i: nat) {
    i + |frame| <= |stream| && stream[i..i + |frame|] == frame
  }

  predicate EndsIn(stream: seq<byte>, tail: seq<byte>) {
    |tail| <= |stream| && OccursAt(tail, stream, |stream| - |tail|)
  }

  /**
   The frame is valid, occurs in what was read on `port`, and its source is not bound to another port where that is
   enforced.
   */
  ghost predicate CameBy(b: Bridge, frame: seq<byte>, port: nat, heard: seq<seq<byte>>)
    requires Sized(b)
  {
    && port < |heard| && port < PORTS && b.router.links[port].attached
    && Decode(frame).Ok? && |frame| > SOURCE_AT
    && (exists i: nat :: OccursAt(frame, heard[port], i))
    && (b.enforced ==> ExpectedPort(b.bindings, frame[SOURCE_AT]) in {None, Some(port)})
  }

  /** A frame of the northbridge's own bears its address; a relayed one came by the port it was relayed from. */
  ghost predicate EventTraced(b: Bridge, event: WireEvent, q: nat, heard: seq<seq<byte>>)
    requires Sized(b)
  {
    match event.from
    case None => |event.frame| > SOURCE_AT && event.frame[SOURCE_AT] == NORTHBRIDGE
    case Some(port) => port != q && CameBy(b, event.frame, port, heard)
  }

  /** Since `b`, every frame written is the northbridge's own or was received whole on the port it was relayed from. */
  ghost predicate Traced(b: Bridge, r: Bridge, heard: seq<seq<byte>>)
    requires Sized(b)
  {
    && Sized(r) && |heard| == PORTS
    && (forall q :: 0 <= q < PORTS && b.router.links[q].attached ==> EndsIn(heard[q], r.parsers[q].buffer))
    && (forall q :: 0 <= q < PORTS ==> Grows(b.router.links[q].log, r.router.links[q].log))
    && (forall q, k :: 0 <= q < PORTS && |b.router.links[q].log| <= k < |r.router.links[q].log| ==>
          EventTraced(b, r.router.links[q].log[k], q, heard))
  }

  lemma MoreHeard(b: Bridge, event: WireEvent, q: nat, heard: seq<seq<byte>>, port: nat, more: seq<byte>)
    requires Sized(b) && port < |heard| && EventTraced(b, event, q, heard)
    ensures EventTraced(b, event, q, heard[port := heard[port] + more])
  {
    hide Decode, ExpectedPort;
    if event.from.Some? {
      var from := event.from.value;
      var i: nat :| OccursAt(event.frame, heard[from], i);
      assert OccursAt(event.frame, heard[port := heard[port] + more][from], i);
    }
  }

  lemma TailMoves(stream: seq<byte>, s: Parser, x: byte)
    requires EndsIn(stream, s.buffer)
    ensures EndsIn(stream + [x], s.buffer + [x]) && EndsIn(stream + [x], Advance(s, x).0.buffer)
  {
    hide Advance;
    NextBuffer(s, x);
    assert (stream + [x])[|stream| - |s.buffer|..] == s.buffer + [x];
    assert (stream + [x])[|stream| + 1..] == [] && (stream + [x])[|stream|..] == [x];
  }

  lemma RelayedCameBy(b: Bridge, p: Packet, port: byte, frame: seq<byte>, heard: seq<seq<byte>>)
    requires Sized(b) && Attached(b.router, port) && |heard| == PORTS && !IsBlocked(b, p, port)
    requires Encodable(p) && frame == Encode(p) && EndsIn(heard[port], frame)
    ensures CameBy(b, frame, port, heard)
  {
    hide Encode, ExpectedPort;
    DecodeInvertsEncode(p, frame);
    HeaderBytes(p);
    assert OccursAt(frame, heard[port], |heard[port]| - |frame|);
  }

  lemma ByteTraced(b: Bridge, r: Bridge, heard: seq<seq<byte>>, port: byte, x: byte, now: u32, env: Env)
    requires Sound(b) && Kept(b, r) && Attached(b.router, port) && Traced(b, r, heard)
    ensures Traced(b, ByteIn(r, port, x, now, env), heard[port := heard[port] + [x]])
  {
    hide Advance, PacketIn, ByteIn, Encode, BooksOk, TableOk, RouteFor, ExpectedPort, Decode, IsOwn, CameBy,
      Reachable, EndsIn, BindingsOk, EventTraced;
    var r' := ByteIn(r, port, x, now, env);
    var heard' := heard[port := heard[port] + [x]];
    ByteInEffect(r, port, x, now, env);
    TailMoves(heard[port], r.parsers[port], x);
    forall q, k | 0 <= q < PORTS && |b.router.links[q].log| <= k < |r'.router.links[q].log|
      ensures EventTraced(b, r'.router.links[q].log[k], q, heard')
    {
      if k < |r.router.links[q].log| {
        assert r'.router.links[q].log[k] == r'.router.links[q].log[..|r.router.links[q].log|][k];
        MoreHeard(b, r.router.links[q].log[k], q, heard, port, [x]);
      } else {
        NewFrameTraced(b, r, Completed(r, port, x).value, port, r'.router.links[q].log[k], q, heard');
      }
    }
  }

  lemma NewFrameTraced(b: Bridge, r: Bridge, p: Packet, port: byte, event: WireEvent, q: nat, heard: seq<seq<byte>>)
    requires Sized(b) && Attached(b.router, port) && |heard| == PORTS && Encodable(p)
    requires r.bindings == b.bindings && r.enforced == b.enforced
    requires FrameOk(r, event, q, p, port) && EndsIn(heard[port], Encode(p))
    ensures EventTraced(b, event, q, heard)
  {
    hide Encode, ExpectedPort, EndsIn, CameBy;
    if !IsOwn(event) {
      RelayedCameBy(b, p, port, event.frame, heard);
    }
  }

  lemma {:induction false} BytesTraced(b: Bridge, r: Bridge, heard: seq<seq<byte>>, port: byte, chunk: seq<byte>,
                                       now: u32, env: Env)
    requires Sound(b) && Kept(b, r) && Attached(b.router, port) && Traced(b, r, heard)
    ensures Traced(b, BytesIn(r, port, chunk, now, env), heard[port := heard[port] + chunk])
  {
    hide ByteIn, TableOk, BindingsOk, Reachable, EndsIn, EventTraced, Grows;
    if chunk == [] {
      assert heard[port] + chunk == heard[port];
      assert heard[port := heard[port] + chunk] == heard;
    } else {
      var before, x := chunk[..|chunk| - 1], chunk[|chunk| - 1];
      BytesTraced(b, r, heard, port, before, now, env);
      BytesKeep(r, port, before, now, env);
      ByteTraced(b, BytesIn(r, port, before, now, env), heard[port := heard[port] + before], port, x, now, env);
      assert heard[port] + chunk == heard[port] + before + [x];
      assert heard[port := heard[port] + before][port := heard[port] + chunk] == heard[port := heard[port] + chunk];
    }
  }

  function AllHeard(traffic: seq<Burst>): (heard: seq<seq<byte>>)
    ensures |heard| == PORTS
  {
    seq(PORTS, q requires 0 <= q < PORTS => Heard(traffic, q))
  }

  /**
   Relaying over any run: from a start with empty parsers, whatever arrives, under whatever source address, every
   frame the northbridge relays to a port was received, byte for byte and valid, on another attached port; where
   topology is enforced and its source is bound, that is its bound port. Every other frame written is a packet of
   the northbridge's own and bears its address.
   */
  lemma {:induction false} RelaysOnlyWhatCame(b: Bridge, traffic: seq<Burst>, env: Env)
    requires Sound(b) && forall q :: 0 <= q < PORTS ==> b.parsers[q].buffer == []
    ensures Traced(b, After(b, traffic, env), AllHeard(traffic))
  {
    hide PortServiced, TableOk, BindingsOk, Reachable, EndsIn, EventTraced;
    if traffic == [] {
      NothingEnds(b);
    } else {
      var before, x := traffic[..|traffic| - 1], traffic[|traffic| - 1];
      RelaysOnlyWhatCame(b, before, env);
      TrafficKeeps(b, before, env);
      PortTraced(b, After(b, before, env), AllHeard(before), x, env);
      if Attached(b.router, x.port) {
        assert forall q :: 0 <= q < PORTS && q != x.port ==> Heard(before, q) + [] == Heard(before, q);
        assert AllHeard(traffic) == AllHeard(before)[x.port := Heard(before, x.port) + x.chunk];
      } else {
        assert traffic == before + [x];
        UnreadTraced(b, After(b, traffic, env), before, x);
      }
    }
  }

  lemma PortTraced(b: Bridge, r: Bridge, heard: seq<seq<byte>>, x: Burst, env: Env)
    requires Sound(b) && Kept(b, r) && Traced(b, r, heard)
    ensures Traced(b, PortServiced(r, x.port, x.chunk, x.now, env),
                   if Attached(b.router, x.port) then heard[x.port := heard[x.port] + x.chunk] else heard)
  {
    hide PortServiced, BytesIn, BytesNoted, RejectsNoted, TableOk, BindingsOk, Reachable, EndsIn, EventTraced, Grows;
    if Attached(b.router, x.port) {
      var r1 := BytesNoted(r, x.port, |x.chunk|);
      NotedKeeps(r, x.port, |x.chunk|, 0);
      BytesTraced(b, r1, heard, x.port, x.chunk, x.now, env);
      BytesKeep(r1, x.port, x.chunk, x.now, env);
      NotedKeeps(BytesIn(r1, x.port, x.chunk, x.now, env), x.port, 0, 0);
      PortReads(r, x, env);
    } else {
      UnreadPort(r, x, env);
    }
  }

  /** Bytes waiting at an unattached port change nothing. */
  lemma UnreadTraced(b: Bridge, r: Bridge, before: seq<Burst>, x: Burst)
    requires Sized(b) && Traced(b, r, AllHeard(before)) && !Attached(b.router, x.port)
    ensures Traced(b, r, AllHeard(before + [x]))
  {
    hide EndsIn, ExpectedPort, Decode, IsOwn;
    assert (before + [x])[..|before|] == before;
    forall q | 0 <= q < PORTS && q != x.port
      ensures AllHeard(before + [x])[q] == AllHeard(before)[q]
    {
    }
    forall event, q | EventTraced(b, event, q, AllHeard(before))
      ensures EventTraced(b, event, q, AllHeard(before + [x]))
    {
      if event.from.Some? {
        assert CameBy(b, event.frame, event.from.value, AllHeard(before));
      }
    }
  }

  lemma NothingEnds(b: Bridge)
    requires Sized(b) && forall q :: 0 <= q < PORTS ==> b.parsers[q].buffer == []
    ensures forall q :: 0 <= q < PORTS ==> EndsIn(AllHeard([])[q], b.parsers[q].buffer)
  {
  }

  // ---- set-up -----------------------------------------------------------------------------------------------

  /** During set-up the route table is the binding table, slot for slot. */
  ghost predicate Mirrors(b: Bridge) {
    && Sized(b)
    && forall i :: 0 <= i < PORTS ==>
         && b.router.routes[i].active == b.bindings[i].active
         && (b.bindings[i].active ==>
               b.router.routes[i].address == b.bindings[i].address && b.router.routes[i].port == b.bindings[i].port)
  }

  lemma {:induction false} SameSlots(b: Bridge, address: byte, i: nat)
    requires Mirrors(b) && i <= PORTS
    ensures Find(b.router.routes, address, i) == FindBinding(b.bindings, address, i)
    ensures Free(b.router.routes, i) == FreeBinding(b.bindings, i)
    decreases PORTS - i
  {
    if i < PORTS {
      SameSlots(b, address, i + 1);
    }
  }

  /** Nothing has been sent, received or counted. */
  ghost predicate Unused(b: Bridge) {
    && Sized(b) && b.counts == Counts(0, 0, 0, 0)
    && forall q :: 0 <= q < PORTS ==> b.parsers[q] == FRESH && b.stats[q] == NO_STATS && b.router.links[q].log == []
  }

  lemma StepSound(b: Bridge, op: Setup)
    requires Mirrors(b) && BridgeOk(b) && Unused(b)
    ensures var b' := SetUpStep(b, op).0; Mirrors(b') && BridgeOk(b') && Unused(b')
  {
    hide BindNode, BridgeOk;
    match op
    case Attach(port) =>
      AttachKeeps(b, port);
    case Bind(address, port) =>
      BindMirrors(b, address, port);
      BindingEstablished(b, address, port);
  }

  /** Binding during set-up takes the same slot in both tables, or changes nothing. */
  lemma BindMirrors(b: Bridge, address: byte, port: byte)
    requires Mirrors(b)
    ensures var (b', ok) := BindNode(b, address, port);
      && Mirrors(b') && (!ok ==> b' == b)
      && b' == b.(bindings := b'.bindings, router := b.router.(routes := b'.router.routes))
  {
    SameSlots(b, address, 0);
  }

  lemma AttachKeeps(b: Bridge, port: byte)
    requires BridgeOk(b)
    ensures BridgeOk(SetUpStep(b, Attach(port)).0)
  {
    hide RouteFor, Reachable;
  }

  lemma UnusedBalances(b: Bridge, env: Env)
    requires Unused(b)
    ensures Balanced(b, 0, env)
  {
    ZeroTotal(b.stats, RxTotal);
    ZeroTotal(b.stats, DropTotal);
  }

  lemma {:induction false} ZeroTotal(stats: seq<Stats>, which: Which)
    requires forall q :: 0 <= q < |stats| ==> stats[q] == NO_STATS
    ensures Total(stats, which) == 0
  {
    if stats != [] {
      ZeroTotal(stats[..|stats| - 1], which);
    }
  }

  /**
   Any sequence of attach and bind calls, failed ones included, sets up a sound northbridge: every binding has
   its route, and nothing has been counted or written yet.
   */
  lemma {:induction false} SetUpIsSound(ops: seq<Setup>)
    ensures var b := SetUp(ops).0; Mirrors(b) && BridgeOk(b) && Unused(b)
  {
    hide SetUpStep;
    if ops == [] {
      FreshSound();
    } else {
      SetUpIsSound(ops[..|ops| - 1]);
      StepSound(SetUp(ops[..|ops| - 1]).0, ops[|ops| - 1]);
    }
  }

  lemma FreshSound()
    ensures Mirrors(Fresh()) && BridgeOk(Fresh()) && Unused(Fresh())
  {
  }

  /**
   During set-up, binding succeeds exactly if the port is attached and the address is bound already or a slot is
   free.
   */
  lemma BindSucceedsWhen(ops: seq<Setup>, address: byte, port: byte)
    ensures var b := SetUp(ops).0;
      BindNode(b, address, port).1 <==>
        Attached(b.router, port) && (ExpectedPort(b.bindings, address).Some? || FreeBinding(b.bindings, 0) < PORTS)
  {
    SetUpIsSound(ops);
    SameSlots(SetUp(ops).0, address, 0);
  }

  /** The bind call takes a binding slot: the port is attached, and the address is bound already or a slot is free. */
  predicate Binds(b: Bridge, address: byte, port: byte) {
    Attached(b.router, port) && (ExpectedPort(b.bindings, address).Some? || FreeBinding(b.bindings, 0) < |b.bindings|)
  }

  predicate Routable(b: Bridge, address: byte) {
    RouteFor(b.router.routes, address).Some? || Free(b.router.routes, 0) < |b.router.routes|
  }

  /**
   A bind call at any time, with any routes learned or set before: exactly when it succeeds, and exactly when it
   leaves what it must not, an active binding without a route: when the table is full of other addresses.
   */
  lemma BindOutcome(b: Bridge, address: byte, port: byte)
    requires BridgeOk(b)
    ensures var (b', ok) := BindNode(b, address, port);
      && (ok <==> Binds(b, address, port) && Routable(b, address))
      && (BridgeOk(b') <==> !(Binds(b, address, port) && !Routable(b, address)))
      && (Binds(b, address, port) && !Routable(b, address) ==>
            ExpectedPort(b'.bindings, address) == Some(port) && RouteFor(b'.router.routes, address) == None)
      && (!Binds(b, address, port) ==> b' == b)
  {
    BindingEstablished(b, address, port);
    hide TableOk, Reachable;
    if Binds(b, address, port) && !Routable(b, address) {
      var b' := BindNode(b, address, port).0;
      var k := FindBinding(b.bindings, address, 0);
      var f := if k < PORTS then k else FreeBinding(b.bindings, 0);
      assert b'.bindings[f] == Binding(address, port, true);
      assert FindBinding(b'.bindings, address, 0) < PORTS;
      assert !BindingsOk(b');
    }
  }

  /**
   Setting a route at any time keeps bound routes exactly unless it moves a bound address to another attached port.
   */
  lemma RouteNodeOutcome(b: Bridge, address: byte, port: byte)
    requires BridgeOk(b)
    ensures var (b', ok) := RouteNode(b, address, port);
      && (ok <==> Attached(b.router, port) && Routable(b, address))
      && (BridgeOk(b') <==>
            !(Attached(b.router, port) && ExpectedPort(b.bindings, address) !in {None, Some(port)}))
  {
    hide Reachable;
    SetRouteKeepsTable(b.router, address, port);
    hide TableOk;
    if ExpectedPort(b.bindings, address).Some? {
      ExpectedIsRoute(b, address);
    }
  }

  /** After `n` set_route calls for the addresses below `n`, all to port 0. */
  function Routed(n: nat): Bridge
    requires n <= ROUTES
  {
    if n == 0 then SetUp([Attach(0)]).0 else RouteNode(Routed(n - 1), n - 1, 0).0
  }

  lemma {:induction false} RoutedIs(n: nat)
    requires n <= ROUTES
    ensures var b := Routed(n);
      && BridgeOk(b) && b.bindings == Fresh().bindings
      && (forall q :: 0 <= q < PORTS ==> b.router.links[q].attached == (q == 0))
      && forall i :: 0 <= i < ROUTES ==> b.router.routes[i] == if i < n then Route(i, 0, true, 0) else NO_ROUTE
  {
    hide BridgeOk;
    if n == 0 {
      SetUpIsSound([Attach(0)]);
      assert [Attach(0)][..0] == [];
    } else {
      var before := Routed(n - 1);
      RoutedIs(n - 1);
      BridgeSized(before);
      RouteNodeOutcome(before, n - 1, 0);
      assert !before.router.routes[n - 1].active;
      assert Find(before.router.routes, n - 1, 0) == ROUTES && Free(before.router.routes, 0) == n - 1;
      assert FindBinding(before.bindings, n - 1, 0) == PORTS;
    }
  }

  /**
   Such a failed bind: eight routes are set, and then a ninth address is bound. The call fails, yet the binding
   stays.
   */
  lemma BindCanStrand()
    ensures var (b', ok) := BindNode(Routed(ROUTES), 0x20, 0);
      && !ok && ExpectedPort(b'.bindings, 0x20) == Some(0) && RouteFor(b'.router.routes, 0x20) == None
      && !BridgeOk(b')
  {
    hide BridgeOk, BindNode, Binds, Routable, Routed, RouteFor, ExpectedPort;
    RoutedIs(ROUTES);
    BridgeSized(Routed(ROUTES));
    NoRoom(Routed(ROUTES), 0x20);
    BindOutcome(Routed(ROUTES), 0x20, 0);
  }

  lemma NoRoom(b: Bridge, address: byte)
    requires Sized(b) && b.bindings == Fresh().bindings && Attached(b.router, 0) && address >= ROUTES
    requires forall i :: 0 <= i < ROUTES ==> b.router.routes[i] == Route(i, 0, true, 0)
    ensures Binds(b, address, 0) && !Routable(b, address)
  {
    assert !b.bindings[0].active;
    assert FreeBinding(b.bindings, 0) == 0;
  }

  lemma BridgeSized(b: Bridge)
    requires BridgeOk(b)
    ensures Sized(b)
  {
  }

  /** The three run properties together, from power-on: set-up calls, topology enforced, then any traffic at all. */
  lemma EnforcedNetwork(ops: seq<Setup>, traffic: seq<Burst>, env: Env)
    ensures var b := SetUp(ops).0.(enforced := true);
      var r := After(b, traffic, env);
      && BridgeOk(r) && Balanced(r, LocalTotal(b, traffic, PORTS), env) && Traced(b, r, AllHeard(traffic))
      && (forall a :: ExpectedPort(b.bindings, a).Some? ==>
            RouteFor(r.router.routes, a) == ExpectedPort(b.bindings, a))
  {
    hide SetUp, Balanced, Traced, TableOk, BindingsOk, RouteFor, ExpectedPort, After, LocalTotal;
    SetUpIsSound(ops);
    var b := SetUp(ops).0.(enforced := true);
    EnforcedSound(SetUp(ops).0);
    UnusedBalances(b, env);
    BoundRoutesHold(b, traffic, env);
    TrafficBalances(b, traffic, env);
    RelaysOnlyWhatCame(b, traffic, env);
  }

  lemma EnforcedSound(b: Bridge)
    requires BridgeOk(b)
    ensures BridgeOk(b.(enforced := true)) && Sound(b.(enforced := true))
  {
  }

  // ---- the diagnostics payload ---------------------------------------------------------------------------------

  lemma {:induction false} EntriesLength(links: seq<Link>, stats: seq<Stats>, n: nat)
    requires n <= PORTS && |links| == |stats| == PORTS
    ensures |PortEntries(links, stats, n)| + 21 * CountAttached(links, n) == 21 * CountAttached(links, 0)
  {
    hide PortEntry;
    if n > 0 {
      EntriesLength(links, stats, n - 1);
    }
  }

  /**
   The diagnostics payload fits its 128-byte array, and the packet can be encoded, exactly while at most five ports
   are attached.
   */
  lemma DiagnosticsFit(b: Bridge, destination: byte)
    requires Sized(b)
    ensures Encodable(DiagnosticPacket(b, destination)) <==> CountAttached(b.router.links, 0) <= 5
    ensures |DiagnosticPacket(b, destination).payload| == 18 + 21 * CountAttached(b.router.links, 0)
  {
    EntriesLength(b.router.links, b.stats, PORTS);
  }
}
