/** The lighting node's command side: SetOutput handling and state reports. */
module Lighting {
  import opened Bytes
  import opened Codec
  import opened Node

  datatype Output = LeftIndicator | RightIndicator | BrakeBright | HighBeam

  datatype Lamps = Lamps(left: bool, right: bool, brake: bool, high: bool)

  const ALL_OFF: Lamps := Lamps(false, false, false, false)

  function OutputId(o: Output): byte {
    match o
    case LeftIndicator => 0x01
    case RightIndicator => 0x02
    case BrakeBright => 0x03
    case HighBeam => 0x04
  }

  function OutputOf(raw: byte): (o: Option<Output>)
    ensures forall x :: o == Some(x) <==> OutputId(x) == raw
  {
    if raw == 0x01 then Some(LeftIndicator)
    else if raw == 0x02 then Some(RightIndicator)
    else if raw == 0x03 then Some(BrakeBright)
    else if raw == 0x04 then Some(HighBeam)
    else None
  }

  function Get(l: Lamps, o: Output): bool {
    match o
    case LeftIndicator => l.left
    case RightIndicator => l.right
    case BrakeBright => l.brake
    case HighBeam => l.high
  }

  function Set(l: Lamps, o: Output, on: bool): (r: Lamps)
    ensures forall x :: Get(r, x) == if x == o then on else Get(l, x)
  {
    match o
    case LeftIndicator => l.(left := on)
    case RightIndicator => l.(right := on)
    case BrakeBright => l.(brake := on)
    case HighBeam => l.(high := on)
  }

  // ---- the output hardware ---------------------------------------------------------------

  /** Output pins; the environment decides whether the n-th write succeeds. */
  class LightingHardware {
    const works: nat -> bool
    var lamps: Lamps
    var writes: nat

    constructor (works: nat -> bool)
      ensures this.works == works && lamps == ALL_OFF && writes == 0
    {
      this.works, lamps, writes := works, ALL_OFF, 0;
    }

    method WriteOutput(o: Output, on: bool) returns (ok: bool)
      modifies this`lamps, this`writes
      ensures ok == works(old(writes)) && writes == old(writes) + 1
      ensures lamps == if ok then Set(old(lamps), o, on) else old(lamps)
    {
      ok := works(writes);
      writes := writes + 1;
      if ok {
        lamps := Set(lamps, o, on);
      }
    }

    function ReadOutput(o: Output): bool
      reads this
    {
      Get(lamps, o)
    }
  }

  // ---- the server ---------------------------------------------------------------------------

  /** What the network commanded, what the outputs show, and how often the outputs were written. */
  datatype Light = Light(commanded: Lamps, actual: Lamps, writes: nat)

  function ApplyOutput(l: Light, o: Output, on: bool, works: nat -> bool): (Light, bool) {
    if works(l.writes) then (Light(Set(l.commanded, o, on), Set(l.actual, o, on), l.writes + 1), true)
    else (l.(writes := l.writes + 1), false)
  }

  function StatePacket(actual: Lamps, destination: byte): Packet {
    Packet(MAIN_COMPUTER, destination, STATE_UPDATE, 0, 0,
           [0x01, Bit(actual.left), 0x02, Bit(actual.right), 0x03, Bit(actual.brake), 0x04, Bit(actual.high)])
  }

  /** A well-formed SetOutput command. */
  predicate IsCommand(p: Packet) {
    p.kind == SET_OUTPUT && |p.payload| == 2 && OutputOf(p.payload[0]).Some? && p.payload[1] <= 1
  }

  function Target(p: Packet): Output
    requires IsCommand(p)
  {
    OutputOf(p.payload[0]).value
  }

  function Wish(p: Packet): bool
    requires IsCommand(p)
  {
    p.payload[1] != 0
  }

  /** handle_packet() on a SetOutput: the new state and what is sent back. */
  function HandleSetOutput(l: Light, p: Packet, works: nat -> bool): (Light, seq<Out>) {
    if !IsCommand(p) then (l, [Answer(p.source, p.sequence, true)])
    else
      var (l', ok) := ApplyOutput(l, Target(p), Wish(p), works);
      (l', if ok then [Answer(p.source, p.sequence, false), Publish(StatePacket(l'.actual, p.source))]
           else [Answer(p.source, p.sequence, true)])
  }

  class LightingServer {
    const node: BikeNode
    const hardware: LightingHardware
    var commanded: Lamps

    ghost function State(): Light
      reads this, hardware
    {
      Light(commanded, hardware.lamps, hardware.writes)
    }

    constructor (node: BikeNode, hardware: LightingHardware)
      ensures this.node == node && this.hardware == hardware && commanded == ALL_OFF
    {
      this.node, this.hardware, commanded := node, hardware, ALL_OFF;
    }

    method ValidOutput(raw: byte) returns (ok: bool)
      ensures ok <==> exists o :: OutputId(o) == raw
    {
      ok := raw == 0x01 || raw == 0x02 || raw == 0x03 || raw == 0x04;
      assert OutputId(LeftIndicator) == 1 && OutputId(RightIndicator) == 2;
      assert OutputId(BrakeBright) == 3 && OutputId(HighBeam) == 4;
    }

    method SetCommanded(o: Output, on: bool)
      modifies this`commanded
      ensures commanded == Set(old(commanded), o, on)
    {
      match o
      case LeftIndicator => commanded := commanded.(left := on);
      case RightIndicator => commanded := commanded.(right := on);
      case BrakeBright => commanded := commanded.(brake := on);
      case HighBeam => commanded := commanded.(high := on);
    }

    method Apply(o: Output, on: bool) returns (ok: bool)
      modifies this`commanded, hardware
      ensures State() == ApplyOutput(old(State()), o, on, hardware.works).0
      ensures ok == ApplyOutput(old(State()), o, on, hardware.works).1
    {
      ok := hardware.WriteOutput(o, on);
      if !ok {
        return false;
      }
      SetCommanded(o, on);
    }

    method PublishState(destination: byte, now: u32) returns (ok: bool)
      requires node.Valid()
      modifies node`sequence, node`pending, node.transport`log
      ensures node.Valid()
      ensures node.State()
           == Emit(old(node.State()), Publish(StatePacket(hardware.lamps, destination)), node.transport.accepts).0
      ensures ok
           == Emit(old(node.State()), Publish(StatePacket(hardware.lamps, destination)), node.transport.accepts).1
    {
      hide WritePacket;
      var outputs := [LeftIndicator, RightIndicator, BrakeBright, HighBeam];
      var payload: seq<byte> := [];
      for i := 0 to 4
        invariant payload == StatePacket(hardware.lamps, destination).payload[..2 * i]
      {
        payload := payload + [OutputId(outputs[i]), Bit(hardware.ReadOutput(outputs[i]))];
      }
      assert payload == StatePacket(hardware.lamps, destination).payload;
      ok := node.Transmit(Packet(MAIN_COMPUTER, destination, STATE_UPDATE, 0, 0, payload), now, false);
    }

    method HandlePacket(p: Packet, now: u32) returns (handled: bool, ghost outs: seq<Out>)
      requires node.Valid()
      modifies this`commanded, hardware, node`sequence, node`pending, node.transport`log
      ensures node.Valid() && (handled <==> p.kind == SET_OUTPUT)
      ensures (State(), outs) == if handled then HandleSetOutput(old(State()), p, hardware.works)
                                 else (old(State()), [])
      ensures node.State() == EmitAll(old(node.State()), outs, node.transport.accepts)
    {
      hide WritePacket, Send, SendAck, EmitAll, BikeNode.State, BikeNode.Valid;
      ghost var before := node.State();
      EmitNext(before, [], Answer(p.source, p.sequence, true), node.transport.accepts);
      outs := [];
      if p.kind != SET_OUTPUT {
        return false, outs;
      }
      var valid := false;
      if |p.payload| == 2 {
        valid := ValidOutput(p.payload[0]);
      }
      if |p.payload| != 2 || !valid || p.payload[1] > 1 {
        var sent := node.TransmitAck(p.source, p.sequence, true);
        EmitNext(before, [], Answer(p.source, p.sequence, true), node.transport.accepts);
        outs := [Answer(p.source, p.sequence, true)];
        return true, outs;
      }
      var on := p.payload[1] != 0;
      var o := OutputOf(p.payload[0]).value;
      var ok := Apply(o, on);
      if !ok {
        var sent := node.TransmitAck(p.source, p.sequence, true);
        EmitNext(before, [], Answer(p.source, p.sequence, true), node.transport.accepts);
        outs := [Answer(p.source, p.sequence, true)];
        return true, outs;
      }
      var sent := node.TransmitAck(p.source, p.sequence, false);
      sent := PublishState(p.source, now);
      outs := [Answer(p.source, p.sequence, false), Publish(StatePacket(hardware.lamps, p.source))];
      EmitNext(before, [], outs[0], node.transport.accepts);
      EmitNext(before, [outs[0]], outs[1], node.transport.accepts);
      assert [outs[0]] + [outs[1]] == outs;
      return true, outs;
    }
  }

  // ---- the controller's dispatch ---------------------------------------------------------------

  function InfoPacket(destination: byte, identity: seq<byte>): Packet {
    Packet(MAIN_COMPUTER, destination, DEVICE_INFO, FLAG_RESPONSE, 0, identity)
  }

  /** LightingController::service() on one packet returned by poll(); `identity` is the device-info payload. */
  function HandlePacket(l: Light, p: Packet, works: nat -> bool, identity: seq<byte>): (Light, seq<Out>) {
    var ack := if AckRequired(p) then [Answer(p.source, p.sequence, false)] else [];
    if p.kind == DEVICE_DISCOVERY then (l, ack + [Publish(InfoPacket(p.source, identity))])
    else if p.kind == HEARTBEAT then (l, ack + [Publish(BeatPacket(p.source))])
    else if p.kind == GET_STATE then (l, ack + [Publish(StatePacket(l.actual, p.source))])
    else if p.kind == SET_OUTPUT then HandleSetOutput(l, p, works)
    else (l, if AckRequired(p) then [Answer(p.source, p.sequence, true)] else [])
  }

  /**
   A SetOutput is acknowledged exactly when it was well formed and the output took it; otherwise nothing changes
   but the write count.
   */
  lemma AckMeansApplied(l: Light, p: Packet, works: nat -> bool)
    ensures var (l', outs) := HandleSetOutput(l, p, works);
      var applied := IsCommand(p) && works(l.writes);
      && (Answer(p.source, p.sequence, false) in outs <==> applied)
      && (Answer(p.source, p.sequence, true) in outs <==> !applied)
      && (forall o :: Get(l'.commanded, o) == if applied && o == Target(p) then Wish(p) else Get(l.commanded, o))
      && (forall o :: Get(l'.actual, o) == if applied && o == Target(p) then Wish(p) else Get(l.actual, o))
  {
  }

  /** The lamps, with the one of this identifier set: 1 left, 2 right, 3 brake, 4 high beam. */
  function Lit(l: Lamps, id: byte, on: bool): Lamps {
    Lamps(if id == 0x01 then on else l.left, if id == 0x02 then on else l.right,
          if id == 0x03 then on else l.brake, if id == 0x04 then on else l.high)
  }

  /** The state report, byte by byte. */
  function ReportOf(l: Lamps, to: byte): Out {
    Publish(Packet(0x01, to, 0x11, 0x00, 0,
                   [0x01, if l.left then 1 else 0, 0x02, if l.right then 1 else 0,
                    0x03, if l.brake then 1 else 0, 0x04, if l.high then 1 else 0]))
  }

  /**
   What the lighting node does with a packet, byte by byte. A SetOutput of an existing lamp and a value 0 or 1, whose
   output takes it, sets that lamp and no other and is answered by an ACK and then a state report; any other
   SetOutput is answered by a NACK. GetState, Heartbeat and discovery are answered, after an ACK if one is asked for;
   anything else is refused with a NACK if an answer is asked for.
   */
  lemma PacketEffect(l: Light, p: Packet, works: nat -> bool, identity: seq<byte>)
    ensures var (l', outs) := HandlePacket(l, p, works, identity);
      var ack := if p.flags % 2 == 1 then [Answer(p.source, p.sequence, false)] else [];
      var sets := p.kind == 0x20 && |p.payload| == 2 && 0x01 <= p.payload[0] <= 0x04 && p.payload[1] <= 1;
      && (sets && works(l.writes) ==>
            && l'.commanded == Lit(l.commanded, p.payload[0], p.payload[1] == 1)
            && l'.actual == Lit(l.actual, p.payload[0], p.payload[1] == 1)
            && outs == [Answer(p.source, p.sequence, false), ReportOf(l'.actual, p.source)])
      && (!(sets && works(l.writes)) ==> l'.commanded == l.commanded && l'.actual == l.actual)
      && l'.writes == (if sets then l.writes + 1 else l.writes)
      && (p.kind == 0x20 && !(sets && works(l.writes)) ==> outs == [Answer(p.source, p.sequence, true)])
      && (p.kind == 0x10 ==> outs == ack + [ReportOf(l.actual, p.source)])
      && (p.kind == 0x01 ==> outs == ack + [Publish(Packet(0x01, p.source, 0x01, 0x02, 0, []))])
      && (p.kind == 0x51 ==> outs == ack + [Publish(Packet(0x01, p.source, 0x50, 0x02, 0, identity))])
      && (p.kind !in {0x01, 0x10, 0x20, 0x51} ==>
            outs == if p.flags % 2 == 1 then [Answer(p.source, p.sequence, true)] else [])
  {
  }
}
