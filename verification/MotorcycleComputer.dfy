/** The main computer's decoders: the receiving half of every status publisher. */
module MotorcycleComputers {
  import opened Bytes
  import opened Codec
  import opened Lighting
  import opened SecurityMessages

  const MAX_PORTS: nat := 8

  datatype Electrical = Unknown | Off | Good | OpenLoad | OverCurrent

  function ElectricalCode(e: Electrical): byte {
    match e
    case Unknown => 0x00
    case Off => 0x01
    case Good => 0x02
    case OpenLoad => 0x03
    case OverCurrent => 0x04
  }

  function ElectricalOf(raw: byte): (e: Option<Electrical>)
    ensures forall x :: e == Some(x) <==> ElectricalCode(x) == raw
    ensures e == None <==> raw > 0x04
  {
    if raw == 0x00 then Some(Unknown)
    else if raw == 0x01 then Some(Off)
    else if raw == 0x02 then Some(Good)
    else if raw == 0x03 then Some(OpenLoad)
    else if raw == 0x04 then Some(OverCurrent)
    else None
  }

  datatype ChannelDiagnostic = ChannelDiagnostic(output: Output, driven: bool, feedback: bool, status: Electrical,
                                                 current: u16)

  datatype LightingSnapshot = LightingSnapshot(valid: bool, lamps: Lamps, updatedAt: u32)

  datatype DiagnosticSnapshot = DiagnosticSnapshot(valid: bool, channels: seq<ChannelDiagnostic>, updatedAt: u32)

  datatype LampFault = LampFault(latched: bool, status: Electrical, shutdown: bool, occurrences: u32,
                                 updatedAt: u32)

  datatype PortSnapshot = PortSnapshot(attached: bool, rxPackets: u32, txPackets: u32, rxBytes: u32,
                                       dropped: u32, malformed: u32)

  const NO_PORT: PortSnapshot := PortSnapshot(false, 0, 0, 0, 0, 0)

  datatype BridgeSnapshot = BridgeSnapshot(valid: bool, forwarded: u32, dropped: u32, movements: u32,
                                           topologyFaults: u32, ports: seq<PortSnapshot>, faultActive: bool,
                                           faultNode: byte, expectedPort: byte, actualPort: byte, updatedAt: u32)

  datatype SecuritySnapshot = SecuritySnapshot(valid: bool, state: Snapshot, lastEvent: Event, hasEvent: bool,
                                               updatedAt: u32, lastEventAt: u32)

  /** Everything the dashboard shows. */
  datatype Dash = Dash(lighting: LightingSnapshot, diagnostics: DiagnosticSnapshot, faults: seq<LampFault>,
                       bridge: BridgeSnapshot, security: SecuritySnapshot)

  const NO_FAULT: LampFault := LampFault(false, Off, false, 0, 0)
  const NO_DIAGNOSTIC: ChannelDiagnostic := ChannelDiagnostic(LeftIndicator, false, false, Unknown, 0)

  const BLANK: Dash :=
    Dash(LightingSnapshot(false, ALL_OFF, 0),
         DiagnosticSnapshot(false, [NO_DIAGNOSTIC, NO_DIAGNOSTIC, NO_DIAGNOSTIC, NO_DIAGNOSTIC], 0),
         [NO_FAULT, NO_FAULT, NO_FAULT, NO_FAULT],
         BridgeSnapshot(false, 0, 0, 0, 0,
                        [NO_PORT, NO_PORT, NO_PORT, NO_PORT, NO_PORT, NO_PORT, NO_PORT, NO_PORT],
                        false, BROADCAST, 0, 0, 0),
         SecuritySnapshot(false, Snapshot(Unlocked, false, false, false, false, false), UnlockedEvent, false, 0, 0))

  function LampIndex(o: Output): (i: nat)
    ensures i < 4
  {
    match o
    case LeftIndicator => 0
    case RightIndicator => 1
    case BrakeBright => 2
    case HighBeam => 3
  }

  // ---- what each decoder accepts, and what it makes of it -----------------------------------------

  /** The lamps after the entries from `i` on, if all are well formed; a later entry overrides an earlier one. */
  function LampEntries(payload: seq<byte>, i: nat, lamps: Lamps): Option<Lamps>
    requires |payload| == 8 && i <= 4
    decreases 4 - i
  {
    if i == 4 then Some(lamps)
    else if payload[2 * i + 1] > 1 then None
    else
      match OutputOf(payload[2 * i])
      case Some(o) => LampEntries(payload, i + 1, Set(lamps, o, payload[2 * i + 1] != 0))
      case None => None
  }

  function DecodeLightingState(d: Dash, p: Packet, now: u32): Option<Dash> {
    if p.source != LIGHTING || p.kind != STATE_UPDATE || |p.payload| != 8 then None
    else
      match LampEntries(p.payload, 0, d.lighting.lamps)
      case Some(lamps) => Some(d.(lighting := LightingSnapshot(true, lamps, now)))
      case None => None
  }

  function DiagnosticEntry(payload: seq<byte>, i: nat): Option<ChannelDiagnostic>
    requires |payload| == 24 && i < 4
  {
    var at := 6 * i;
    var output, status := OutputOf(payload[at]), ElectricalOf(payload[at + 3]);
    if payload[at + 1] > 1 || payload[at + 2] > 1 || status.None? || output.None? then None
    else Some(ChannelDiagnostic(output.value, payload[at + 1] != 0, payload[at + 2] != 0, status.value,
                                U16At(payload, at + 4)))
  }

  function DiagnosticEntries(payload: seq<byte>, n: nat): (r: Option<seq<ChannelDiagnostic>>)
    requires |payload| == 24 && n <= 4
    ensures r.Some? ==> |r.value| == n
  {
    if n == 0 then Some([])
    else
      match (DiagnosticEntries(payload, n - 1), DiagnosticEntry(payload, n - 1))
      case (Some(cs), Some(c)) => Some(cs + [c])
      case _ => None
  }

  function DecodeLightingDiagnostics(d: Dash, p: Packet, now: u32): Option<Dash> {
    if p.source != LIGHTING || p.kind != LIGHTING_DIAGNOSTIC || |p.payload| != 24 then None
    else
      match DiagnosticEntries(p.payload, 4)
      case Some(cs) => Some(d.(diagnostics := DiagnosticSnapshot(true, cs, now)))
      case None => None
  }

  function DecodeLightingFault(d: Dash, p: Packet, now: u32): Option<Dash>
    requires |d.faults| == 4
  {
    if p.source != LIGHTING || (p.kind != FAULT && p.kind != FAULT_CLEAR) || |p.payload| != 8
       || p.payload[0] != 0x01 then None
    else
      var output, status := OutputOf(p.payload[1]), ElectricalOf(p.payload[2]);
      if output.None? || status.None? || p.payload[3] > 1 then None
      else
        var latched := p.kind == FAULT;
        Some(d.(faults := d.faults[LampIndex(output.value) :=
          LampFault(latched, if latched then status.value else Off, latched && p.payload[3] != 0,
                    U32At(p.payload, 4), now)]))
  }

  function PortEntry(payload: seq<byte>, at: nat): PortSnapshot
    requires at + 21 <= |payload|
  {
    PortSnapshot(true, U32At(payload, at + 1), U32At(payload, at + 5), U32At(payload, at + 9),
                 U32At(payload, at + 13), U32At(payload, at + 17))
  }

  function PortEntries(payload: seq<byte>, i: nat, n: nat, ports: seq<PortSnapshot>): (r: Option<seq<PortSnapshot>>)
    requires i <= n && |payload| == 18 + 21 * n && |ports| == MAX_PORTS
    ensures r.Some? ==> |r.value| == MAX_PORTS
    decreases n - i
  {
    if i == n then Some(ports)
    else
      var at := 18 + 21 * i;
      if payload[at] >= MAX_PORTS then None
      else PortEntries(payload, i + 1, n, ports[payload[at] := PortEntry(payload, at)])
  }

  function DecodeBridgeDiagnostics(d: Dash, p: Packet, now: u32): Option<Dash> {
    if p.source != NORTHBRIDGE || p.kind != DIAGNOSTIC || |p.payload| < 18 || p.payload[0] != 0x02 then None
    else
      var n: nat := p.payload[1];
      if n > MAX_PORTS || |p.payload| != 18 + 21 * n then None
      else
        match PortEntries(p.payload, 0, n, BLANK.bridge.ports)
        case None => None
        case Some(ports) =>
          Some(d.(bridge := d.bridge.(
            valid := true, forwarded := U32At(p.payload, 2), dropped := U32At(p.payload, 6),
            movements := U32At(p.payload, 10), topologyFaults := U32At(p.payload, 14),
            ports := ports, updatedAt := now)))
  }

  function DecodeBridgeFault(d: Dash, p: Packet, now: u32): Option<Dash> {
    if p.source != NORTHBRIDGE || p.kind != FAULT || |p.payload| != 9 || p.payload[0] != 0x02
       || p.payload[1] != 0x01 then None
    else
      Some(d.(bridge := d.bridge.(
        faultActive := true, faultNode := p.payload[2], expectedPort := p.payload[3],
        actualPort := p.payload[4], topologyFaults := U32At(p.payload, 5), updatedAt := now)))
  }

  function DecodeSecurityState(d: Dash, p: Packet, now: u32): Option<Dash> {
    if p.source != SECURITY || p.kind != SECURITY_STATE || |p.payload| != 6 || ModeOf(p.payload[0]).None?
       || exists i :: 1 <= i < 6 && p.payload[i] > 1 then None
    else
      Some(d.(security := d.security.(
        valid := true, updatedAt := now,
        state := Snapshot(ModeOf(p.payload[0]).value, p.payload[1] != 0, p.payload[2] != 0, p.payload[3] != 0,
                          p.payload[4] != 0, p.payload[5] != 0))))
  }

  function DecodeSecurityEvent(d: Dash, p: Packet, now: u32): Option<Dash> {
    if p.source != SECURITY || p.kind != SECURITY_EVENT || |p.payload| != 1 || EventOf(p.payload[0]).None? then None
    else Some(d.(security := d.security.(lastEvent := EventOf(p.payload[0]).value, hasEvent := true,
                                         lastEventAt := now)))
  }

  /** The first decoder that accepts the packet updates the snapshot. */
  function Dispatch(d: Dash, p: Packet, now: u32): (r: Dash)
    requires |d.faults| == 4
    ensures |r.faults| == 4
  {
    var r1 := DecodeLightingState(d, p, now);
    if r1.Some? then r1.value else
    var r2 := DecodeLightingDiagnostics(d, p, now);
    if r2.Some? then r2.value else
    var r3 := DecodeLightingFault(d, p, now);
    if r3.Some? then r3.value else
    var r4 := DecodeBridgeDiagnostics(d, p, now);
    if r4.Some? then r4.value else
    var r5 := DecodeBridgeFault(d, p, now);
    if r5.Some? then r5.value else
    var r6 := DecodeSecurityState(d, p, now);
    if r6.Some? then r6.value else
    var r7 := DecodeSecurityEvent(d, p, now);
    if r7.Some? then r7.value else d
  }

  // ---- the firmware's decoders ------------------------------------------------------------------------

  class MotorcycleComputer {
    var lighting: LightingSnapshot
    var diagnostics: DiagnosticSnapshot
    const faults: array<LampFault>
    var bridge: BridgeSnapshot
    var security: SecuritySnapshot

    ghost predicate Valid()
      reads this
    {
      faults.Length == 4
    }

    ghost function State(): (d: Dash)
      reads this, faults
      requires Valid()
      ensures |d.faults| == 4
    {
      Dash(lighting, diagnostics, faults[..], bridge, security)
    }

    constructor ()
      ensures Valid() && State() == BLANK && fresh(faults)
    {
      lighting, diagnostics, bridge, security := BLANK.lighting, BLANK.diagnostics, BLANK.bridge, BLANK.security;
      faults := new LampFault[4](_ => NO_FAULT);
      new;
      assert faults[..] == BLANK.faults;
    }

    method ReadLightingState(p: Packet, now: u32) returns (ok: bool)
      requires Valid()
      modifies this`lighting
      ensures var r := DecodeLightingState(old(State()), p, now);
        ok == r.Some? && State() == if ok then r.value else old(State())
    {
      if p.source != LIGHTING || p.kind != STATE_UPDATE || |p.payload| != 8 {
        return false;
      }
      var next := lighting.lamps;
      for i := 0 to 4
        invariant LampEntries(p.payload, i, next) == LampEntries(p.payload, 0, lighting.lamps)
      {
        var rawOutput, rawValue := p.payload[2 * i], p.payload[2 * i + 1];
        if rawValue > 1 {
          return false;
        }
        var on := rawValue != 0;
        if rawOutput == 0x01 {
          next := next.(left := on);
        } else if rawOutput == 0x02 {
          next := next.(right := on);
        } else if rawOutput == 0x03 {
          next := next.(brake := on);
        } else if rawOutput == 0x04 {
          next := next.(high := on);
        } else {
          return false;
        }
      }
      lighting := LightingSnapshot(true, next, now);
      return true;
    }

    /** One channel's six bytes. */
    method ReadChannel(payload: seq<byte>, i: nat) returns (channel: Option<ChannelDiagnostic>)
      requires |payload| == 24 && i < 4
      ensures channel == DiagnosticEntry(payload, i)
    {
      var at := 6 * i;
      if payload[at + 1] > 1 || payload[at + 2] > 1 || payload[at + 3] > 0x04 {
        return None;
      }
      var output := OutputOf(payload[at]);
      if output.None? {
        return None;
      }
      return Some(ChannelDiagnostic(output.value, payload[at + 1] != 0, payload[at + 2] != 0,
                                    ElectricalOf(payload[at + 3]).value, U16At(payload, at + 4)));
    }

    method ReadLightingDiagnostics(p: Packet, now: u32) returns (ok: bool)
      requires Valid()
      modifies this`diagnostics
      ensures var r := DecodeLightingDiagnostics(old(State()), p, now);
        ok == r.Some? && State() == if ok then r.value else old(State())
    {
      if p.source != LIGHTING || p.kind != LIGHTING_DIAGNOSTIC || |p.payload| != 24 {
        return false;
      }
      var channels: seq<ChannelDiagnostic> := [];
      for i := 0 to 4
        invariant DiagnosticEntries(p.payload, i) == Some(channels) && State() == old(State())
      {
        var channel := ReadChannel(p.payload, i);
        if channel.None? {
          DiagnosticsFail(p.payload, i);
          return false;
        }
        channels := channels + [channel.value];
      }
      diagnostics := DiagnosticSnapshot(true, channels, now);
      return true;
    }

    method ReadLightingFault(p: Packet, now: u32) returns (ok: bool)
      requires Valid()
      modifies faults
      ensures var r := DecodeLightingFault(old(State()), p, now);
        ok == r.Some? && State() == if ok then r.value else old(State())
    {
      if p.source != LIGHTING || (p.kind != FAULT && p.kind != FAULT_CLEAR) || |p.payload| != 8
         || p.payload[0] != 0x01 {
        return false;
      }
      var output := OutputOf(p.payload[1]);
      if output.None? {
        return false;
      }
      var index := LampIndex(output.value);
      if p.payload[2] > 0x04 || p.payload[3] > 1 {
        return false;
      }
      var latched := p.kind == FAULT;
      var status := if latched then ElectricalOf(p.payload[2]).value else Off;
      var shutdown := latched && p.payload[3] != 0;
      faults[index] := LampFault(latched, status, shutdown, U32At(p.payload, 4), now);
      return true;
    }

    method ReadBridgeDiagnostics(p: Packet, now: u32) returns (ok: bool)
      requires Valid()
      modifies this`bridge
      ensures var r := DecodeBridgeDiagnostics(old(State()), p, now);
        ok == r.Some? && State() == if ok then r.value else old(State())
    {
      if p.source != NORTHBRIDGE || p.kind != DIAGNOSTIC || |p.payload| < 18 || p.payload[0] != 0x02 {
        return false;
      }
      var n: nat := p.payload[1];
      if n > MAX_PORTS || |p.payload| != 18 + n * 21 {
        return false;
      }
      var ports := [NO_PORT, NO_PORT, NO_PORT, NO_PORT, NO_PORT, NO_PORT, NO_PORT, NO_PORT];
      var at := 18;
      for i := 0 to n
        invariant at == 18 + 21 * i && |ports| == MAX_PORTS
        invariant PortEntries(p.payload, i, n, ports) == PortEntries(p.payload, 0, n, BLANK.bridge.ports)
      {
        var port := p.payload[at];
        if port >= MAX_PORTS {
          return false;
        }
        ports := ports[port := PortSnapshot(true, U32At(p.payload, at + 1), U32At(p.payload, at + 5),
                                            U32At(p.payload, at + 9), U32At(p.payload, at + 13),
                                            U32At(p.payload, at + 17))];
        at := at + 21;
      }
      bridge := bridge.(valid := true, forwarded := U32At(p.payload, 2), dropped := U32At(p.payload, 6),
                        movements := U32At(p.payload, 10), topologyFaults := U32At(p.payload, 14),
                        ports := ports, updatedAt := now);
      return true;
    }

    method ReadBridgeFault(p: Packet, now: u32) returns (ok: bool)
      requires Valid()
      modifies this`bridge
      ensures var r := DecodeBridgeFault(old(State()), p, now);
        ok == r.Some? && State() == if ok then r.value else old(State())
    {
      if p.source != NORTHBRIDGE || p.kind != FAULT || |p.payload| != 9 || p.payload[0] != 0x02
         || p.payload[1] != 0x01 {
        return false;
      }
      bridge := bridge.(faultActive := true, faultNode := p.payload[2], expectedPort := p.payload[3],
                        actualPort := p.payload[4], topologyFaults := U32At(p.payload, 5), updatedAt := now);
      return true;
    }

    method ReadSecurityState(p: Packet, now: u32) returns (ok: bool)
      requires Valid()
      modifies this`security
      ensures var r := DecodeSecurityState(old(State()), p, now);
        ok == r.Some? && State() == if ok then r.value else old(State())
    {
      if p.source != SECURITY || p.kind != SECURITY_STATE || |p.payload| != 6 {
        return false;
      }
      if p.payload[0] > 0x03 {
        return false;
      }
      for i := 1 to 6
        invariant forall k :: 1 <= k < i ==> p.payload[k] <= 1
      {
        if p.payload[i] > 1 {
          return false;
        }
      }
      var state := Snapshot(ModeOf(p.payload[0]).value, p.payload[1] != 0, p.payload[2] != 0, p.payload[3] != 0,
                            p.payload[4] != 0, p.payload[5] != 0);
      security := security.(state := state, valid := true, updatedAt := now);
      return true;
    }

    method ReadSecurityEvent(p: Packet, now: u32) returns (ok: bool)
      requires Valid()
      modifies this`security
      ensures var r := DecodeSecurityEvent(old(State()), p, now);
        ok == r.Some? && State() == if ok then r.value else old(State())
    {
      if p.source != SECURITY || p.kind != SECURITY_EVENT || |p.payload| != 1 {
        return false;
      }
      if p.payload[0] < 0x01 || p.payload[0] > 0x07 {
        return false;
      }
      security := security.(lastEvent := EventOf(p.payload[0]).value, hasEvent := true, lastEventAt := now);
      return true;
    }

    method DispatchPacket(p: Packet, now: u32)
      requires Valid()
      modifies this, faults
      ensures Valid() && State() == Dispatch(old(State()), p, now)
    {
      hide DecodeLightingState, DecodeLightingDiagnostics, DecodeLightingFault, DecodeBridgeDiagnostics,
           DecodeBridgeFault, DecodeSecurityState, DecodeSecurityEvent;
      var done := ReadLightingState(p, now);
      if done {
        return;
      }
      done := ReadLightingDiagnostics(p, now);
      if done {
        return;
      }
      done := ReadLightingFault(p, now);
      if done {
        return;
      }
      done := ReadBridgeDiagnostics(p, now);
      if done {
        return;
      }
      done := ReadBridgeFault(p, now);
      if done {
        return;
      }
      done := ReadSecurityState(p, now);
      if done {
        return;
      }
      done := ReadSecurityEvent(p, now);
    }
  }

  lemma {:induction false} DiagnosticsFail(payload: seq<byte>, i: nat)
    requires |payload| == 24 && i < 4 && DiagnosticEntry(payload, i).None?
    ensures DiagnosticEntries(payload, 4).None?
  {
    assert DiagnosticEntries(payload, i + 1).None?;
    if i < 3 {
      assert DiagnosticEntries(payload, i + 2).None?;
    }
    if i < 2 {
      assert DiagnosticEntries(payload, i + 3).None?;
    }
  }

  /** No packet is accepted by two decoders, so their order in dispatch does not matter. */
  lemma DecodersAreDisjoint(d: Dash, p: Packet, now: u32)
    requires |d.faults| == 4
    ensures var accepted :=
        (if DecodeLightingState(d, p, now).Some? then 1 else 0)
        + (if DecodeLightingDiagnostics(d, p, now).Some? then 1 else 0)
        + (if DecodeLightingFault(d, p, now).Some? then 1 else 0)
        + (if DecodeBridgeDiagnostics(d, p, now).Some? then 1 else 0)
        + (if DecodeBridgeFault(d, p, now).Some? then 1 else 0)
        + (if DecodeSecurityState(d, p, now).Some? then 1 else 0)
        + (if DecodeSecurityEvent(d, p, now).Some? then 1 else 0);
      accepted <= 1 && (accepted == 0 ==> Dispatch(d, p, now) == d)
  {
    hide LampEntries, DiagnosticEntries, PortEntries, U32At;
  }
}
