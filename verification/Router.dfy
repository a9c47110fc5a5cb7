/** The northbridge router: the learned route table and frame forwarding between ports. */
module Routing {
  import opened Bytes
  import opened Codec
  import opened Node

  const PORTS: nat := 8
  const ROUTES: nat := 8

  datatype Route = Route(address: byte, port: byte, active: bool, lastSeen: u32)

  const NO_ROUTE: Route := Route(BROADCAST, 0, false, 0)

  /** A port's transport, if attached, and what was written to it. */
  datatype Link = Link(attached: bool, log: seq<WireEvent>)

  /**
   A frame handed to a port, whether the port took it, and a note of where it came from: the port whose packet it
   relays, or none for a packet of the northbridge's own.
   */
  datatype WireEvent = WireEvent(frame: seq<byte>, ok: bool, from: Option<byte>)

  /** The environment decides whether the n-th write on a port succeeds. */
  type Env = (nat, nat) -> bool

  datatype Router = Router(routes: seq<Route>, links: seq<Link>)

  ghost predicate Shaped(r: Router) {
    |r.routes| == ROUTES && |r.links| == PORTS
  }

  // ---- the table --------------------------------------------------------------------------------

  /** The first slot from `i` on that routes the address; past the end if none does. */
  function Find(routes: seq<Route>, address: byte, i: nat): (k: nat)
    requires i <= |routes|
    ensures i <= k <= |routes|
    ensures k < |routes| ==> routes[k].active && routes[k].address == address
    ensures forall j :: i <= j < k ==> !(routes[j].active && routes[j].address == address)
  {
    FirstFrom(routes, (r: Route) => r.active && r.address == address, i)
  }

  function Free(routes: seq<Route>, i: nat): (k: nat)
    requires i <= |routes|
    ensures i <= k <= |routes|
    ensures k < |routes| ==> !routes[k].active
    ensures forall j :: i <= j < k ==> routes[j].active
  {
    FirstFrom(routes, (r: Route) => !r.active, i)
  }

  function RouteFor(routes: seq<Route>, address: byte): Option<byte> {
    var k := Find(routes, address, 0);
    if k < |routes| then Some(routes[k].port) else None
  }

  predicate Attached(r: Router, port: byte) {
    port < |r.links| && r.links[port].attached
  }

  function SetRoute(r: Router, address: byte, port: byte): (Router, bool) {
    if !Attached(r, port) then (r, false)
    else
      var k := Find(r.routes, address, 0);
      if k < |r.routes| then (r.(routes := r.routes[k := r.routes[k].(port := port)]), true)
      else
        var f := Free(r.routes, 0);
        if f < |r.routes| then (r.(routes := r.routes[f := Route(address, port, true, 0)]), true) else (r, false)
  }

  function RemoveRoute(r: Router, address: byte): (Router, bool) {
    var k := Find(r.routes, address, 0);
    if k < |r.routes| then (r.(routes := r.routes[k := NO_ROUTE]), true) else (r, false)
  }

  /** The source of a packet was seen on a port: its route moves there, or is added if there is room. */
  function MarkSeen(r: Router, address: byte, port: byte, now: u32): Router {
    var k := Find(r.routes, address, 0);
    if k < |r.routes| then r.(routes := r.routes[k := r.routes[k].(port := port, lastSeen := now)])
    else
      var r1 := SetRoute(r, address, port).0;
      var k1 := Find(r1.routes, address, 0);
      if k1 < |r1.routes| then r1.(routes := r1.routes[k1 := r1.routes[k1].(lastSeen := now)]) else r1
  }

  // ---- forwarding ----------------------------------------------------------------------------------

  function WriteTo(r: Router, port: byte, p: Packet, from: Option<byte>, env: Env): (Router, bool) {
    if !Attached(r, port) || !Encodable(p) then (r, false)
    else
      var link := r.links[port];
      var ok := env(port, |link.log|);
      (r.(links := r.links[port := link.(log := link.log + [WireEvent(Encode(p), ok, from)])]), ok)
  }

  /** Copies to every attached port from `i` on but the ingress port; whether any write succeeded. */
  function Flood(r: Router, p: Packet, ingress: byte, i: nat, env: Env): (Router, bool)
    requires i <= PORTS
    decreases PORTS - i
  {
    if i == PORTS then (r, false)
    else if i == ingress || !Attached(r, i) then Flood(r, p, ingress, i + 1, env)
    else
      var (r1, ok) := WriteTo(r, i, p, Some(ingress), env);
      var (r2, rest) := Flood(r1, p, ingress, i + 1, env);
      (r2, ok || rest)
  }

  function Forward(r: Router, p: Packet, ingress: byte, now: u32, env: Env): (Router, bool) {
    var r1 := MarkSeen(r, p.source, ingress, now);
    if p.destination == NORTHBRIDGE then (r1, true)
    else if p.destination == BROADCAST then Flood(r1, p, ingress, 0, env)
    else
      match RouteFor(r1.routes, p.destination)
      case Some(port) => if port == ingress then (r1, false) else WriteTo(r1, port, p, Some(ingress), env)
      case None => (r1, false)
  }

  // ---- the firmware's router ---------------------------------------------------------------------------

  class NorthbridgeRouter {
    const env: Env
    const routes: array<Route>
    var links: seq<Link>

    ghost predicate Valid()
      reads this`links
    {
      routes.Length == ROUTES && |links| == PORTS
    }

    ghost function State(): Router
      reads this`links, routes
    {
      Router(routes[..], links)
    }

    constructor (env: Env)
      ensures Valid() && this.env == env && fresh(routes)
      ensures State() == Router(seq(ROUTES, _ => NO_ROUTE), seq(PORTS, _ => Link(false, [])))
    {
      this.env := env;
      routes := new Route[ROUTES](_ => NO_ROUTE);
      links := seq(PORTS, _ => Link(false, []));
      new;
      assert routes[..] == seq(ROUTES, _ => NO_ROUTE);
    }

    method AttachPort(port: byte) returns (ok: bool)
      requires Valid()
      modifies this`links
      ensures Valid() && (ok <==> port < PORTS)
      ensures links == if ok then old(links)[port := old(links)[port].(attached := true)] else old(links)
    {
      if port >= PORTS {
        return false;
      }
      links := links[port := links[port].(attached := true)];
      return true;
    }

    method AddRoute(address: byte, port: byte) returns (ok: bool)
      requires Valid()
      modifies routes
      ensures (State(), ok) == SetRoute(old(State()), address, port)
    {
      if port >= PORTS || !links[port].attached {
        return false;
      }
      for i := 0 to ROUTES
        invariant routes[..] == old(routes[..])
        invariant Find(routes[..], address, i) == Find(routes[..], address, 0)
      {
        if routes[i].active && routes[i].address == address {
          routes[i] := routes[i].(port := port);
          return true;
        }
      }
      for i := 0 to ROUTES
        invariant routes[..] == old(routes[..])
        invariant Free(routes[..], i) == Free(routes[..], 0)
      {
        if !routes[i].active {
          routes[i] := Route(address, port, true, 0);
          return true;
        }
      }
      return false;
    }

    method DropRoute(address: byte) returns (ok: bool)
      requires Valid()
      modifies routes
      ensures (State(), ok) == RemoveRoute(old(State()), address)
    {
      for i := 0 to ROUTES
        invariant routes[..] == old(routes[..])
        invariant Find(routes[..], address, i) == Find(routes[..], address, 0)
      {
        if routes[i].active && routes[i].address == address {
          routes[i] := NO_ROUTE;
          return true;
        }
      }
      return false;
    }

    method LookUp(address: byte) returns (port: Option<byte>)
      requires Valid()
      ensures port == RouteFor(routes[..], address)
    {
      for i := 0 to ROUTES
        invariant Find(routes[..], address, i) == Find(routes[..], address, 0)
      {
        if routes[i].active && routes[i].address == address {
          return Some(routes[i].port);
        }
      }
      return None;
    }

    method NoteSeen(address: byte, ingress: byte, now: u32)
      requires Valid()
      modifies routes
      ensures State() == MarkSeen(old(State()), address, ingress, now)
    {
      hide SetRoute;
      for i := 0 to ROUTES
        invariant routes[..] == old(routes[..])
        invariant Find(routes[..], address, i) == Find(routes[..], address, 0)
      {
        if routes[i].active && routes[i].address == address {
          routes[i] := routes[i].(port := ingress, lastSeen := now);
          return;
        }
      }
      var added := AddRoute(address, ingress);
      ghost var table := routes[..];
      for i := 0 to ROUTES
        invariant routes[..] == table
        invariant Find(routes[..], address, i) == Find(routes[..], address, 0)
      {
        if routes[i].active && routes[i].address == address {
          routes[i] := routes[i].(lastSeen := now);
          return;
        }
      }
    }

    method WriteToPort(port: byte, p: Packet, from: Option<byte>) returns (ok: bool)
      requires Valid()
      modifies this`links
      ensures Valid() && (State(), ok) == WriteTo(old(State()), port, p, from, env)
    {
      hide Encode;
      if port >= PORTS || !links[port].attached {
        return false;
      }
      var frame := new byte[MAX_FRAME](_ => 0);
      var encoded, length := EncodePacket(p, frame, MAX_FRAME);
      if !encoded {
        return false;
      }
      ok := env(port, |links[port].log|);
      links := links[port := links[port].(log := links[port].log + [WireEvent(frame[..length], ok, from)])];
    }

    method ForwardPacket(p: Packet, ingress: byte, now: u32) returns (ok: bool)
      requires Valid()
      modifies this`links, routes
      ensures Valid() && (State(), ok) == Forward(old(State()), p, ingress, now, env)
    {
      hide WriteTo, MarkSeen, Find;
      NoteSeen(p.source, ingress, now);
      ghost var seen := State();
      if p.destination == NORTHBRIDGE {
        return true;
      }
      if p.destination == BROADCAST {
        ok := false;
        for port := 0 to PORTS
          invariant Valid()
          invariant Flood(seen, p, ingress, 0, env).0 == Flood(State(), p, ingress, port, env).0
          invariant Flood(seen, p, ingress, 0, env).1 == (ok || Flood(State(), p, ingress, port, env).1)
        {
          if port == ingress || !links[port].attached {
            continue;
          }
          var written := WriteToPort(port, p, Some(ingress));
          ok := written || ok;
        }
        return ok;
      }
      var port := LookUp(p.destination);
      if port.None? || port.value == ingress {
        return false;
      }
      ok := WriteToPort(port.value, p, Some(ingress));
    }
  }

  // ---- what the table always is ---------------------------------------------------------------------------

  /** One entry per address, each on an attached port. */
  ghost predicate TableOk(r: Router) {
    && Shaped(r)
    && (forall i :: 0 <= i < ROUTES && r.routes[i].active ==> Attached(r, r.routes[i].port))
    && (forall i, j :: 0 <= i < j < ROUTES && r.routes[i].active && r.routes[j].active ==>
          r.routes[i].address != r.routes[j].address)
  }

  /** The only slot routing an address is the one found. */
  lemma FindsSlot(routes: seq<Route>, address: byte, k: nat)
    requires k < |routes| && routes[k].active && routes[k].address == address
    requires forall j :: 0 <= j < |routes| && j != k ==> !(routes[j].active && routes[j].address == address)
    ensures RouteFor(routes, address) == Some(routes[k].port)
  {
    assert Find(routes, address, 0) == k;
  }

  lemma SetRouteKeepsTable(r: Router, address: byte, port: byte)
    requires TableOk(r)
    ensures var (r', ok) := SetRoute(r, address, port);
      && TableOk(r') && r'.links == r.links
      && (ok ==> RouteFor(r'.routes, address) == Some(port))
      && (forall a :: a != address ==> RouteFor(r'.routes, a) == RouteFor(r.routes, a))
  {
    var (r', ok) := SetRoute(r, address, port);
    if ok {
      var k := Find(r.routes, address, 0);
      FindsSlot(r'.routes, address, if k < ROUTES then k else Free(r.routes, 0));
    }
    forall a | a != address
      ensures RouteFor(r'.routes, a) == RouteFor(r.routes, a)
    {
      SameLookup(r.routes, r'.routes, a, 0);
    }
  }

  /**
   Setting a route writes one slot: the address's own, which keeps its stamp, or a free one, with none; it fails,
   and changes nothing, exactly if the port is not attached or there is neither.
   */
  lemma SetRouteWrites(r: Router, address: byte, port: byte)
    requires TableOk(r)
    ensures var (r', ok) := SetRoute(r, address, port);
      && (ok <==> Attached(r, port)
                  && (RouteFor(r.routes, address).Some? || exists i :: 0 <= i < ROUTES && !r.routes[i].active))
      && if ok then
           exists i :: 0 <= i < ROUTES && (r.routes[i].active ==> r.routes[i].address == address)
             && r' == r.(routes := r.routes[i := Route(address, port, true,
                                                       if r.routes[i].active then r.routes[i].lastSeen else 0)])
         else r' == r
  {
    var (r', ok) := SetRoute(r, address, port);
    if ok {
      var k := Find(r.routes, address, 0);
      var i := if k < ROUTES then k else Free(r.routes, 0);
      assert r' == r.(routes := r.routes[i := Route(address, port, true,
                                                    if r.routes[i].active then r.routes[i].lastSeen else 0)]);
    }
  }

  lemma RemoveRouteKeepsTable(r: Router, address: byte)
    requires TableOk(r)
    ensures var (r', ok) := RemoveRoute(r, address);
      && TableOk(r') && r'.links == r.links && RouteFor(r'.routes, address) == None
      && (ok <==> RouteFor(r.routes, address).Some?) && (!ok ==> r' == r)
      && (forall a :: a != address ==> RouteFor(r'.routes, a) == RouteFor(r.routes, a))
  {
    var r' := RemoveRoute(r, address).0;
    forall a | a != address
      ensures RouteFor(r'.routes, a) == RouteFor(r.routes, a)
    {
      SameLookup(r.routes, r'.routes, a, 0);
    }
  }

  /** Seeing an address touches no other address's route. */
  lemma MarkSeenKeepsTable(r: Router, address: byte, port: byte, now: u32)
    requires TableOk(r) && Attached(r, port)
    ensures var r' := MarkSeen(r, address, port, now);
      && TableOk(r') && r'.links == r.links
      && (RouteFor(r.routes, address).Some? ==> RouteFor(r'.routes, address) == Some(port))
      && (forall a :: a != address ==> RouteFor(r'.routes, a) == RouteFor(r.routes, a))
  {
    SetRouteKeepsTable(r, address, port);
    hide SetRoute;
    var r' := MarkSeen(r, address, port, now);
    if RouteFor(r.routes, address).Some? {
      FindsSlot(r'.routes, address, Find(r.routes, address, 0));
    }
    var r1 := if Find(r.routes, address, 0) < ROUTES then r else SetRoute(r, address, port).0;
    forall a | a != address
      ensures RouteFor(r'.routes, a) == RouteFor(r1.routes, a)
    {
      SameLookup(r1.routes, r'.routes, a, 0);
    }
  }

  /**
   The router learns: after a packet from an address, the address is routed to the port it came by, and stamped, if
   it had a route or the table had room; only in a table full of others it has none.
   */
  lemma MarkSeenLearns(r: Router, address: byte, port: byte, now: u32)
    requires TableOk(r) && Attached(r, port)
    ensures var r' := MarkSeen(r, address, port, now);
      if RouteFor(r.routes, address).Some? || (exists i :: 0 <= i < ROUTES && !r.routes[i].active)
        then RouteFor(r'.routes, address) == Some(port)
             && exists i :: 0 <= i < ROUTES && r'.routes[i] == Route(address, port, true, now)
        else RouteFor(r'.routes, address) == None && r' == r
  {
    var r' := MarkSeen(r, address, port, now);
    MarkSeenKeepsTable(r, address, port, now);
    var k := Find(r.routes, address, 0);
    if k < ROUTES {
      FindsSlot(r'.routes, address, k);
      assert r'.routes[k] == Route(address, port, true, now);
    } else if exists i :: 0 <= i < ROUTES && !r.routes[i].active {
      var f := Free(r.routes, 0);
      var r1 := SetRoute(r, address, port).0;
      assert f < ROUTES && r1.routes[f] == Route(address, port, true, 0);
      SetRouteKeepsTable(r, address, port);
      assert Find(r1.routes, address, 0) == f;
      assert r'.routes[f] == Route(address, port, true, now);
      FindsSlot(r'.routes, address, f);
    }
  }

  /** Tables whose slots agree about an address give the same route for it. */
  lemma {:induction false} SameLookup(a: seq<Route>, b: seq<Route>, address: byte, i: nat)
    requires |a| == |b| && i <= |a|
    requires forall j :: i <= j < |a| ==>
      ((a[j].active && a[j].address == address) <==> (b[j].active && b[j].address == address))
      && (a[j].active && a[j].address == address ==> a[j].port == b[j].port)
    ensures Find(a, address, i) == Find(b, address, i)
    ensures Find(a, address, i) < |a| ==> a[Find(a, address, i)].port == b[Find(b, address, i)].port
    decreases |a| - i
  {
    if i < |a| {
      SameLookup(a, b, address, i + 1);
    }
  }

  // ---- where a forwarded frame goes -------------------------------------------------------------------------

  /** The log of one port grew by exactly the frame of `p`, or not at all. */
  predicate GrewBy(before: Link, after: Link, p: Packet, from: Option<byte>, ok: bool)
    requires Encodable(p)
  {
    && after.attached == before.attached
    && (after == before
        || (before.attached && |after.log| == |before.log| + 1 && after.log[..|before.log|] == before.log
            && after.log[|before.log|] == WireEvent(Encode(p), ok, from)))
  }

  /** The port is attached and takes the next frame written to it. */
  predicate Takes(r: Router, q: nat, env: Env) {
    q < |r.links| && r.links[q].attached && env(q, |r.links[q].log|)
  }

  lemma WriteToEffect(r: Router, port: byte, p: Packet, from: Option<byte>, env: Env)
    requires |r.links| == PORTS && Encodable(p)
    ensures var (r', ok) := WriteTo(r, port, p, from, env);
      && r'.routes == r.routes && |r'.links| == PORTS
      && (forall q :: 0 <= q < PORTS && q != port ==> r'.links[q] == r.links[q])
      && (forall q :: 0 <= q < PORTS ==> GrewBy(r.links[q], r'.links[q], p, from, Takes(r, q, env)))
      && (ok <==> Takes(r, port, env))
      && (port < PORTS ==> |r'.links[port].log| == |r.links[port].log| + if Attached(r, port) then 1 else 0)
  {
    hide Encode;
  }

  /** A flood writes one copy to each attached port from `i` on, but never to the ingress port. */
  lemma {:induction false} FloodEffect(r: Router, p: Packet, ingress: byte, i: nat, env: Env)
    requires |r.links| == PORTS && Encodable(p) && i <= PORTS
    ensures var (r', ok) := Flood(r, p, ingress, i, env);
      && r'.routes == r.routes && |r'.links| == PORTS
      && (forall q :: 0 <= q < PORTS && (q < i || q == ingress) ==> r'.links[q] == r.links[q])
      && (forall q :: 0 <= q < PORTS ==> GrewBy(r.links[q], r'.links[q], p, Some(ingress), Takes(r, q, env)))
      && (forall q :: i <= q < PORTS && q != ingress && r.links[q].attached ==>
            |r'.links[q].log| == |r.links[q].log| + 1)
      && (ok <==> exists q :: i <= q < PORTS && q != ingress && Takes(r, q, env))
    decreases PORTS - i
  {
    hide WriteTo, GrewBy;
    if i < PORTS {
      if i == ingress || !Attached(r, i) {
        FloodEffect(r, p, ingress, i + 1, env);
      } else {
        WriteToEffect(r, i, p, Some(ingress), env);
        var r1 := WriteTo(r, i, p, Some(ingress), env).0;
        FloodEffect(r1, p, ingress, i + 1, env);
        GrowthCombines(r, r1, Flood(r1, p, ingress, i + 1, env).0, p, Some(ingress), i, env);
      }
    } else {
      GrowthCombines(r, r, r, p, Some(ingress), 0, env);
    }
  }

  lemma GrowthCombines(a: Router, b: Router, c: Router, p: Packet, from: Option<byte>, i: nat,
                       env: Env)
    requires Encodable(p) && |a.links| == |b.links| == |c.links| == PORTS && i < PORTS
    requires a == b || (forall q :: 0 <= q < PORTS ==> GrewBy(a.links[q], b.links[q], p, from, Takes(a, q, env)))
    requires forall q :: 0 <= q < PORTS && q != i ==> a.links[q] == b.links[q]
    requires b == c || (forall q :: 0 <= q < PORTS ==> GrewBy(b.links[q], c.links[q], p, from, Takes(b, q, env)))
    requires c.links[i] == b.links[i]
    ensures forall q :: 0 <= q < PORTS ==>
      GrewBy(a.links[q], c.links[q], p, from, Takes(a, q, env)) && a.links[q].attached == b.links[q].attached
  {
  }

  /**
   The ports a packet from `ingress` leaves by: its destination's, or for a broadcast every attached one, but never
   `ingress`.
   */
  predicate LeavesBy(r: Router, p: Packet, ingress: byte, q: nat) {
    && q != ingress && q < |r.links| && p.destination != NORTHBRIDGE
    && if p.destination == BROADCAST then r.links[q].attached else RouteFor(r.routes, p.destination) == Some(q)
  }

  /**
   Where a forwarded packet goes: every frame written is the packet's encoding; one copy leaves by the
   port its destination is routed to, or for a broadcast by every attached port, but none by the ingress port.
   */
  lemma ForwardEffect(r: Router, p: Packet, ingress: byte, now: u32, env: Env)
    requires TableOk(r) && Attached(r, ingress) && Encodable(p)
    ensures var (r', ok) := Forward(r, p, ingress, now, env);
      && TableOk(r') && r'.routes == MarkSeen(r, p.source, ingress, now).routes
      && r'.links[ingress] == r.links[ingress]
      && (forall q :: 0 <= q < PORTS ==> GrewBy(r.links[q], r'.links[q], p, Some(ingress), Takes(r, q, env)))
      && (forall q :: 0 <= q < PORTS ==>
            |r'.links[q].log| == |r.links[q].log| + if LeavesBy(r', p, ingress, q) then 1 else 0)
      && (p.destination != NORTHBRIDGE ==>
            (ok <==> exists q :: 0 <= q < PORTS && LeavesBy(r', p, ingress, q) && Takes(r, q, env)))
  {
    hide MarkSeen, WriteTo, GrewBy, Encode, RouteFor, Flood, TableOk;
    MarkSeenKeepsTable(r, p.source, ingress, now);
    TableShaped(r, p.destination);
    TableShaped(MarkSeen(r, p.source, ingress, now), p.destination);
    var r1 := MarkSeen(r, p.source, ingress, now);
    FloodEffect(r1, p, ingress, 0, env);
    GrowthCombines(r1, r1, r1, p, Some(ingress), 0, env);
    if p.destination != BROADCAST && RouteFor(r1.routes, p.destination).Some? {
      WriteToEffect(r1, RouteFor(r1.routes, p.destination).value, p, Some(ingress), env);
    }
    LinksKeepTable(r1, Forward(r, p, ingress, now, env).0, p, Some(ingress), env);
  }

  lemma TableShaped(r: Router, address: byte)
    requires TableOk(r)
    ensures Shaped(r) && (RouteFor(r.routes, address).Some? ==> Attached(r, RouteFor(r.routes, address).value))
  {
  }

  lemma LinksKeepTable(r: Router, r': Router, p: Packet, from: Option<byte>, env: Env)
    requires TableOk(r) && Encodable(p) && r'.routes == r.routes && |r'.links| == PORTS
    requires forall q :: 0 <= q < PORTS ==> GrewBy(r.links[q], r'.links[q], p, from, Takes(r, q, env))
    ensures TableOk(r')
    ensures forall q :: 0 <= q < PORTS ==>
      r'.links[q].attached == r.links[q].attached && (!r.links[q].attached ==> r'.links[q] == r.links[q])
  {
    assert forall q :: 0 <= q < PORTS ==> r'.links[q].attached == r.links[q].attached;
  }
}
