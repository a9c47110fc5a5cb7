/** Which packets each decoder of the main computer accepts, and what it makes of their bytes. */
module DashboardDecoding {
  import opened Bytes
  import opened Codec
  import opened Lighting
  import opened SecurityMessages
  import opened MotorcycleComputers

  function Word(b: seq<byte>, at: nat): u32
    requires at + 4 <= |b|
  {
    var b0: int, b1: int, b2: int, b3: int := b[at], b[at + 1], b[at + 2], b[at + 3];
    ((b0 * 0x100 + b1) * 0x100 + b2) * 0x100 + b3
  }

  lemma WordIs(b: seq<byte>, at: nat)
    requires at + 4 <= |b|
    ensures U32At(b, at) == Word(b, at)
  {
  }

  // ---- lighting --------------------------------------------------------------------------------------------------

  predicate LampEntryOk(payload: seq<byte>, i: nat)
    requires |payload| == 8 && i < 4
  {
    0x01 <= payload[2 * i] <= 0x04 && payload[2 * i + 1] <= 1
  }

  /** The lamps after the entries below `n`, in order: 1 left, 2 right, 3 brake, 4 high beam. */
  function LampsAfter(payload: seq<byte>, n: nat, shown: Lamps): Lamps
    requires |payload| == 8 && n <= 4
  {
    if n == 0 then shown
    else Lit(LampsAfter(payload, n - 1, shown), payload[2 * n - 2], payload[2 * n - 1] == 1)
  }

  lemma {:induction false} LampEntriesFrom(payload: seq<byte>, i: nat, shown: Lamps)
    requires |payload| == 8 && i <= 4
    ensures var r := LampEntries(payload, i, LampsAfter(payload, i, shown));
      if forall k :: i <= k < 4 ==> LampEntryOk(payload, k) then r == Some(LampsAfter(payload, 4, shown)) else r == None
    decreases 4 - i
  {
    if i < 4 {
      if LampEntryOk(payload, i) {
        var o := OutputOf(payload[2 * i]).value;
        var lamps := LampsAfter(payload, i, shown);
        assert Set(lamps, o, payload[2 * i + 1] != 0) == LampsAfter(payload, i + 1, shown);
        LampEntriesFrom(payload, i + 1, shown);
      } else {
        assert LampEntries(payload, i, LampsAfter(payload, i, shown)) == None;
      }
    }
  }

  /** A lamp report: eight bytes of four entries, each an existing lamp and 0 or 1; a later entry overrides. */
  lemma LightingStateDecoded(d: Dash, p: Packet, now: u32)
    ensures var r := DecodeLightingState(d, p, now);
      if p.source == 0x20 && p.kind == 0x11 && |p.payload| == 8 && forall i :: 0 <= i < 4 ==> LampEntryOk(p.payload, i)
        then r == Some(d.(lighting := LightingSnapshot(true, LampsAfter(p.payload, 4, d.lighting.lamps), now)))
        else r == None
  {
    hide LampEntries, LampEntryOk;
    if |p.payload| == 8 {
      LampEntriesFrom(p.payload, 0, d.lighting.lamps);
    }
  }

  function StatusOf(raw: byte): Electrical
    requires raw <= 0x04
  {
    if raw == 0x00 then Unknown else if raw == 0x01 then Off else if raw == 0x02 then Good
    else if raw == 0x03 then OpenLoad else OverCurrent
  }

  function LampOf(id: byte): Output
    requires 0x01 <= id <= 0x04
  {
    if id == 0x01 then LeftIndicator else if id == 0x02 then RightIndicator
    else if id == 0x03 then BrakeBright else HighBeam
  }

  predicate ChannelOk(b: seq<byte>, i: nat)
    requires |b| == 24 && i < 4
  {
    0x01 <= b[6 * i] <= 0x04 && b[6 * i + 1] <= 1 && b[6 * i + 2] <= 1 && b[6 * i + 3] <= 0x04
  }

  function ChannelOf(b: seq<byte>, i: nat): ChannelDiagnostic
    requires |b| == 24 && i < 4 && ChannelOk(b, i)
  {
    var high: int, low: int := b[6 * i + 4], b[6 * i + 5];
    ChannelDiagnostic(LampOf(b[6 * i]), b[6 * i + 1] == 1, b[6 * i + 2] == 1, StatusOf(b[6 * i + 3]),
                      high * 0x100 + low)
  }

  lemma EntryIs(b: seq<byte>, i: nat)
    requires |b| == 24 && i < 4
    ensures DiagnosticEntry(b, i) == if ChannelOk(b, i) then Some(ChannelOf(b, i)) else None
  {
  }

  lemma {:induction false} EntriesAre(b: seq<byte>, n: nat)
    requires |b| == 24 && n <= 4
    ensures var r := DiagnosticEntries(b, n);
      if forall i :: 0 <= i < n ==> ChannelOk(b, i)
        then r.Some? && |r.value| == n && forall i :: 0 <= i < n ==> r.value[i] == ChannelOf(b, i)
        else r == None
  {
    hide DiagnosticEntry, ChannelOk, ChannelOf;
    if n > 0 {
      EntriesAre(b, n - 1);
      EntryIs(b, n - 1);
    }
  }

  /** Lamp diagnostics: four entries of lamp, driven, feedback, status and current. */
  lemma LightingDiagnosticsDecoded(d: Dash, p: Packet, now: u32)
    ensures var r := DecodeLightingDiagnostics(d, p, now);
      if p.source == 0x20 && p.kind == 0x22 && |p.payload| == 24 && forall i :: 0 <= i < 4 ==> ChannelOk(p.payload, i)
        then r == Some(d.(diagnostics := DiagnosticSnapshot(true, [
               ChannelOf(p.payload, 0), ChannelOf(p.payload, 1), ChannelOf(p.payload, 2), ChannelOf(p.payload, 3)],
               now)))
        else r == None
  {
    hide DiagnosticEntries, ChannelOk, ChannelOf;
    if |p.payload| == 24 {
      EntriesAre(p.payload, 4);
      if DiagnosticEntries(p.payload, 4).Some? {
        var cs := DiagnosticEntries(p.payload, 4).value;
        assert cs == [cs[0], cs[1], cs[2], cs[3]];
      }
    }
  }

  /**
   A lamp fault or its clearing: subsystem 1, lamp, status, shutdown mark, count; a clearing shows Off and no
   shutdown.
   */
  lemma LightingFaultDecoded(d: Dash, p: Packet, now: u32)
    requires |d.faults| == 4
    ensures var r, b := DecodeLightingFault(d, p, now), p.payload;
      if p.source == 0x20 && (p.kind == 0x40 || p.kind == 0x41) && |b| == 8 && b[0] == 0x01
         && 0x01 <= b[1] <= 0x04 && b[2] <= 0x04 && b[3] <= 1
        then r == Some(d.(faults := d.faults[b[1] - 1 :=
               LampFault(p.kind == 0x40, if p.kind == 0x40 then StatusOf(b[2]) else Off, p.kind == 0x40 && b[3] == 1,
                         Word(b, 4), now)]))
        else r == None
  {
    if |p.payload| == 8 {
      WordIs(p.payload, 4);
    }
    hide U32At;
  }

  // ---- northbridge ----------------------------------------------------------------------------------------------

  predicate EntryOk(b: seq<byte>, i: nat)
    requires 18 + 21 * (i + 1) <= |b|
  {
    b[18 + 21 * i] < 8
  }

  function EntryOf(b: seq<byte>, i: nat): PortSnapshot
    requires 18 + 21 * (i + 1) <= |b|
  {
    var at := 18 + 21 * i;
    PortSnapshot(true, Word(b, at + 1), Word(b, at + 5), Word(b, at + 9), Word(b, at + 13), Word(b, at + 17))
  }

  /** The ports after the entries below `n`, in order. */
  function PortsAfter(b: seq<byte>, n: nat): (ports: seq<PortSnapshot>)
    requires 18 + 21 * n <= |b| && forall i :: 0 <= i < n ==> EntryOk(b, i)
    ensures |ports| == 8
  {
    if n == 0 then [NO_PORT, NO_PORT, NO_PORT, NO_PORT, NO_PORT, NO_PORT, NO_PORT, NO_PORT]
    else
      assert EntryOk(b, n - 1);
      PortsAfter(b, n - 1)[b[18 + 21 * (n - 1)] := EntryOf(b, n - 1)]
  }

  lemma {:induction false} PortEntriesFrom(b: seq<byte>, i: nat, n: nat)
    requires i <= n && |b| == 18 + 21 * n && forall k :: 0 <= k < i ==> EntryOk(b, k)
    ensures var r := PortEntries(b, i, n, PortsAfter(b, i));
      if forall k :: 0 <= k < n ==> EntryOk(b, k) then r == Some(PortsAfter(b, n)) else r == None
    decreases n - i
  {
    hide U32At, Word;
    if i < n {
      if EntryOk(b, i) {
        var at := 18 + 21 * i;
        WordIs(b, at + 1);
        WordIs(b, at + 5);
        WordIs(b, at + 9);
        WordIs(b, at + 13);
        WordIs(b, at + 17);
        PortEntriesFrom(b, i + 1, n);
      }
    }
  }

  /** The northbridge's diagnostics: subsystem 2, port count, four counters, and one entry a port of at most eight. */
  lemma BridgeDiagnosticsDecoded(d: Dash, p: Packet, now: u32)
    ensures var r, b := DecodeBridgeDiagnostics(d, p, now), p.payload;
      var n: nat := if |b| >= 18 then b[1] else 0;
      if p.source == 0x10 && p.kind == 0x60 && |b| >= 18 && b[0] == 0x02 && n <= 8 && |b| == 18 + 21 * n
         && forall i :: 0 <= i < n ==> EntryOk(b, i)
        then r == Some(d.(bridge := d.bridge.(
               valid := true, forwarded := Word(b, 2), dropped := Word(b, 6), movements := Word(b, 10),
               topologyFaults := Word(b, 14), ports := PortsAfter(b, n), updatedAt := now)))
        else r == None
  {
    hide U32At, PortEntries, Word, EntryOk;
    var b := p.payload;
    var n: nat := if |b| >= 18 then b[1] else 0;
    if |b| >= 18 && |b| == 18 + 21 * n {
      WordIs(b, 2);
      WordIs(b, 6);
      WordIs(b, 10);
      WordIs(b, 14);
      PortEntriesFrom(b, 0, n);
      assert PortsAfter(b, 0) == BLANK.bridge.ports;
    }
  }

  /** A topology fault: subsystem 2, fault 1, the node, where it belongs, where it was seen, and the event count. */
  lemma BridgeFaultDecoded(d: Dash, p: Packet, now: u32)
    ensures var r, b := DecodeBridgeFault(d, p, now), p.payload;
      if p.source == 0x10 && p.kind == 0x40 && |b| == 9 && b[0] == 0x02 && b[1] == 0x01
        then r == Some(d.(bridge := d.bridge.(faultActive := true, faultNode := b[2], expectedPort := b[3],
               actualPort := b[4], topologyFaults := Word(b, 5), updatedAt := now)))
        else r == None
  {
    if |p.payload| == 9 {
      WordIs(p.payload, 5);
    }
    hide U32At;
  }

  // ---- security ---------------------------------------------------------------------------------------------------

  /** A security state: mode, inhibit, alarm, warning, trigger, engine. */
  lemma SecurityStateDecoded(d: Dash, p: Packet, now: u32)
    ensures var r, b := DecodeSecurityState(d, p, now), p.payload;
      if p.source == 0x21 && p.kind == 0x71 && |b| == 6 && b[0] <= 0x03 && forall i :: 1 <= i < 6 ==> b[i] <= 1
        then r == Some(d.(security := d.security.(valid := true, updatedAt := now, state := Snapshot(
               if b[0] == 0x00 then Unlocked else if b[0] == 0x01 then Locked else if b[0] == 0x02 then Alarm
               else LockPending, b[1] == 1, b[2] == 1, b[3] == 1, b[4] == 1, b[5] == 1))))
        else r == None
  {
  }

  /** A security event: one byte, 1 to 7. */
  lemma SecurityEventDecoded(d: Dash, p: Packet, now: u32)
    ensures var r, b := DecodeSecurityEvent(d, p, now), p.payload;
      if p.source == 0x21 && p.kind == 0x72 && |b| == 1 && 0x01 <= b[0] <= 0x07
        then r == Some(d.(security := d.security.(hasEvent := true, lastEventAt := now, lastEvent :=
               if b[0] == 0x01 then ShockWarningEvent else if b[0] == 0x02 then ShockTriggerEvent
               else if b[0] == 0x03 then AlarmStartedEvent else if b[0] == 0x04 then AlarmStoppedEvent
               else if b[0] == 0x05 then LockedEvent else if b[0] == 0x06 then UnlockedEvent else LockPendingEvent)))
        else r == None
  {
  }

  /** A packet that some decoder accepts changes the dashboard as that decoder says, and any other changes nothing. */
  lemma DispatchShows(d: Dash, p: Packet, now: u32)
    requires |d.faults| == 4
    ensures var r := Dispatch(d, p, now);
      && (DecodeLightingState(d, p, now).Some? ==> r == DecodeLightingState(d, p, now).value)
      && (DecodeLightingDiagnostics(d, p, now).Some? ==> r == DecodeLightingDiagnostics(d, p, now).value)
      && (DecodeLightingFault(d, p, now).Some? ==> r == DecodeLightingFault(d, p, now).value)
      && (DecodeBridgeDiagnostics(d, p, now).Some? ==> r == DecodeBridgeDiagnostics(d, p, now).value)
      && (DecodeBridgeFault(d, p, now).Some? ==> r == DecodeBridgeFault(d, p, now).value)
      && (DecodeSecurityState(d, p, now).Some? ==> r == DecodeSecurityState(d, p, now).value)
      && (DecodeSecurityEvent(d, p, now).Some? ==> r == DecodeSecurityEvent(d, p, now).value)
  {
    DecodersAreDisjoint(d, p, now);
    hide DecodeLightingState, DecodeLightingDiagnostics, DecodeLightingFault, DecodeBridgeDiagnostics,
         DecodeBridgeFault, DecodeSecurityState, DecodeSecurityEvent;
  }
}
