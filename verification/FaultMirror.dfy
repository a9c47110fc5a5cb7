/**
 The fault manager, its node, a lossless in-order link, and the main computer's parser and decoders:
 the dashboard's fault record of every lamp follows the manager's.
 */
module FaultMirror {
  import opened Bytes
  import opened Codec
  import opened StreamParsing
  import opened Node
  import opened NodeRuns
  import opened Lighting
  import opened MotorcycleComputers
  import opened FaultManager

  /** `issued` counts the Fault messages per lamp. */
  datatype Mirror = Mirror(channels: seq<Channel>, node: Io, parser: Parser, dash: Dash, issued: seq<nat>)

  /**
   A diagnostic sample, a latch cleared, or any other packet the lighting node publishes; `at` is the time of
   reception.
   */
  datatype MirrorOp =
    | SampleOp(o: Output, reading: Reading, now: u32, took: bool, at: u32)
    | ClearOp(o: Output, now: u32, at: u32)
    | OtherOp(packet: Packet, now: u32, at: u32)

  function Boot(policies: seq<Policy>): Mirror
    requires |policies| == 4
  {
    Mirror(seq(4, i requires 0 <= i < 4 => QUIET.(policy := policies[i])), Start(LIGHTING), FRESH, BLANK, [0, 0, 0, 0])
  }

  /** The bytes of the frames the link took. */
  function Carried(log: seq<WriteEvent>): seq<byte> {
    if log == [] then []
    else Carried(log[..|log| - 1]) + if log[|log| - 1].ok then log[|log| - 1].frame else []
  }

  function DispatchAll(d: Dash, ps: seq<Packet>, at: u32): (r: Dash)
    requires |d.faults| == 4
    ensures |r.faults| == 4
  {
    if ps == [] then d else Dispatch(DispatchAll(d, ps[..|ps| - 1], at), ps[|ps| - 1], at)
  }

  /** The lighting node publishes `p`; the main computer parses the bytes and dispatches its packets. */
  function Carry(m: Mirror, p: Packet, now: u32, at: u32, accepts: nat -> bool): Mirror
    requires |m.dash.faults| == 4
  {
    var node := Send(m.node, p, now, false, accepts).0;
    var written := if |m.node.log| <= |node.log| then node.log[|m.node.log|..] else [];
    var (parser, ps) := Run(m.parser, Carried(written));
    m.(node := node, parser := parser, dash := DispatchAll(m.dash, Wanted(MAIN_COMPUTER, ps), at))
  }

  function Next(m: Mirror, op: MirrorOp, confirm: byte, accepts: nat -> bool): (r: Mirror)
    requires |m.channels| == |m.dash.faults| == |m.issued| == 4
    ensures |r.channels| == |r.dash.faults| == |r.issued| == 4
  {
    match op
    case SampleOp(o, reading, now, took, at) =>
      var i := LampIndex(o);
      var before := m.channels[i];
      var after := Observed(before, reading, confirm, now, took);
      var m' := m.(channels := m.channels[i := after]);
      if Latches(before, reading, confirm)
        then Carry(m', FaultPacket(o, after.record, FAULT), now, at, accepts).(issued := m.issued[i := m.issued[i] + 1])
        else m'
    case ClearOp(o, now, at) =>
      var i := LampIndex(o);
      var before := m.channels[i];
      var m' := m.(channels := m.channels[i := Cleared(before)]);
      if before.record.latched then Carry(m', FaultPacket(o, before.record, FAULT_CLEAR), now, at, accepts) else m'
    case OtherOp(p, now, at) => Carry(m, p, now, at, accepts)
  }

  function After(m: Mirror, ops: seq<MirrorOp>, confirm: byte, accepts: nat -> bool): (r: Mirror)
    requires |m.channels| == |m.dash.faults| == |m.issued| == 4
    ensures |r.channels| == |r.dash.faults| == |r.issued| == 4
  {
    if ops == [] then m else Next(After(m, ops[..|ops| - 1], confirm, accepts), ops[|ops| - 1], confirm, accepts)
  }

  // ---- one packet across the link -------------------------------------------------------------------

  /** A published packet arrives unchanged but for the sender's stamp, and leaves the parser idle. */
  lemma CarryDelivers(m: Mirror, p: Packet, now: u32, at: u32, accepts: nat -> bool)
    requires |m.dash.faults| == 4 && Idle(m.parser) && forall n :: accepts(n)
    ensures var out := Stamped(m.node, p, false);
      var r := Carry(m, p, now, at, accepts);
      && Idle(r.parser) && r.node.address == m.node.address && r.channels == m.channels && r.issued == m.issued
      && r.dash == if Encodable(p) && AddressedTo(MAIN_COMPUTER, p) && !IsControl(p)
                   then Dispatch(m.dash, out, at) else m.dash
  {
    hide Encode, Run, Dispatch;
    var out := Stamped(m.node, p, false);
    if Encodable(p) {
      var node := Send(m.node, p, now, false, accepts).0;
      var event := WriteEvent(Encode(out), true);
      assert node.log[|m.node.log|..] == [event];
      assert [event][..0] == [] && Carried([event]) == [] + Encode(out) == Encode(out);
      FrameParsed(m.parser, out);
      assert [out][..0] == [];
      assert DispatchAll(m.dash, [out], at) == Dispatch(m.dash, out, at);
      assert Run(m.parser, Carried([event])).1 == [out];
      assert Wanted(MAIN_COMPUTER, [out]) == if AddressedTo(MAIN_COMPUTER, out) && !IsControl(out) then [out] else [];
    } else {
      NothingParsed(m.parser);
    }
  }

  lemma NothingParsed(s: Parser)
    ensures Run(s, []) == (s, []) && Wanted(MAIN_COMPUTER, []) == []
  {
  }

  /** Only fault messages touch the fault records. */
  lemma OthersLeaveFaults(d: Dash, p: Packet, at: u32)
    requires |d.faults| == 4 && p.kind != FAULT && p.kind != FAULT_CLEAR
    ensures Dispatch(d, p, at).faults == d.faults
  {
    hide LampEntries, DiagnosticEntries, PortEntries, U32At;
  }

  /** Publish then decode: the lamp's record shows the manager's latch, status, shutdown and count. */
  lemma FaultRoundTrip(d: Dash, io: Io, o: Output, r: Record, kind: byte, at: u32)
    requires |d.faults| == 4 && io.address == LIGHTING && (kind == FAULT || kind == FAULT_CLEAR)
    ensures Dispatch(d, Stamped(io, FaultPacket(o, r, kind), false), at)
         == d.(faults := d.faults[LampIndex(o) :=
              LampFault(kind == FAULT, if kind == FAULT then r.latchedStatus else Off,
                        kind == FAULT && r.shutdown, r.occurrences, at)])
  {
    hide LampEntries, DiagnosticEntries, PortEntries, U32At, U32Bytes;
    var p := FaultPacket(o, r, kind);
    var head := [0x01, OutputId(o), ElectricalCode(r.latchedStatus), Bit(r.shutdown)];
    U32RoundTrip(r.occurrences, head, []);
    assert head + U32Bytes(r.occurrences) + [] == p.payload;
    assert ElectricalOf(p.payload[2]) == Some(r.latchedStatus);
  }

  // ---- every step of every run ------------------------------------------------------------------------

  /** The dashboard shows the latch, its status and the occurrence count; a shutdown it shows was applied. */
  predicate Agrees(c: Channel, f: LampFault) {
    && f.latched == c.record.latched && f.status == c.record.latchedStatus
    && f.occurrences == c.record.occurrences && (f.shutdown ==> c.record.shutdown)
    && (!c.record.latched ==> c.record.latchedStatus == Off && !c.record.shutdown)
  }

  ghost predicate InStep(m: Mirror) {
    && |m.channels| == |m.dash.faults| == |m.issued| == 4
    && Idle(m.parser) && m.node.address == LIGHTING
    && (forall i :: 0 <= i < 4 ==> Agrees(m.channels[i], m.dash.faults[i]))
    && (forall i :: 0 <= i < 4 ==> m.channels[i].record.occurrences == m.issued[i] % TWO32)
  }

  lemma NextKeepsStep(m: Mirror, op: MirrorOp, confirm: byte, accepts: nat -> bool)
    requires InStep(m) && forall n :: accepts(n)
    requires op.OtherOp? ==> op.packet.kind != FAULT && op.packet.kind != FAULT_CLEAR
    ensures InStep(Next(m, op, confirm, accepts))
  {
    hide Dispatch, Carry, FaultPacket, Stamped;
    match op
    case SampleOp(o, reading, now, took, at) =>
      var i := LampIndex(o);
      var after := Observed(m.channels[i], reading, confirm, now, took);
      var m' := m.(channels := m.channels[i := after]);
      Inc32Counts(m.issued[i]);
      if Latches(m.channels[i], reading, confirm) {
        FaultIsDeliverable(m.node, o, after.record, FAULT);
        CarryDelivers(m', FaultPacket(o, after.record, FAULT), now, at, accepts);
        FaultRoundTrip(m.dash, m.node, o, after.record, FAULT, at);
      }
    case ClearOp(o, now, at) =>
      var i := LampIndex(o);
      var before := m.channels[i];
      var m' := m.(channels := m.channels[i := Cleared(before)]);
      if before.record.latched {
        FaultIsDeliverable(m.node, o, before.record, FAULT_CLEAR);
        CarryDelivers(m', FaultPacket(o, before.record, FAULT_CLEAR), now, at, accepts);
        FaultRoundTrip(m.dash, m.node, o, before.record, FAULT_CLEAR, at);
      }
    case OtherOp(p, now, at) =>
      CarryDelivers(m, p, now, at, accepts);
      StampKeepsKind(m.node, p);
      OthersLeaveFaults(m.dash, Stamped(m.node, p, false), at);
  }

  lemma FaultIsDeliverable(io: Io, o: Output, r: Record, kind: byte)
    requires kind == FAULT || kind == FAULT_CLEAR
    ensures var p := FaultPacket(o, r, kind);
      Encodable(p) && AddressedTo(MAIN_COMPUTER, p) && !IsControl(p)
  {
  }

  lemma StampKeepsKind(io: Io, p: Packet)
    ensures Stamped(io, p, false).kind == p.kind
  {
  }

  /**
   Over any run of samples, clears and other traffic, for every lamp: the dashboard's latch, status
   and occurrence count are the manager's after every step, and the count is the number of Fault
   messages issued, modulo 2^32.
   */
  lemma {:induction false} FaultsAreMirrored(policies: seq<Policy>, ops: seq<MirrorOp>, confirm: byte,
                                             accepts: nat -> bool)
    requires |policies| == 4 && forall n :: accepts(n)
    requires forall op :: op in ops && op.OtherOp? ==> op.packet.kind != FAULT && op.packet.kind != FAULT_CLEAR
    ensures InStep(After(Boot(policies), ops, confirm, accepts))
  {
    hide Next;
    if ops != [] {
      hide InStep;
      var n := |ops| - 1;
      FaultsAreMirrored(policies, ops[..n], confirm, accepts);
      NextKeepsStep(After(Boot(policies), ops[..n], confirm, accepts), ops[n], confirm, accepts);
    }
  }

  // ---- the shutdown flag -----------------------------------------------------------------------------

  /** The dashboard's shutdown flag of lamp `i` is the manager's. */
  predicate FlagShown(m: Mirror, i: nat)
    requires i < |m.channels| && i < |m.dash.faults|
  {
    m.dash.faults[i].shutdown == m.channels[i].record.shutdown
  }

  /** A sample that switches the lamp off for the first time, without being the one that reports the fault. */
  predicate SilentShutdown(c: Channel, r: Reading, confirm: byte, took: bool) {
    ShutsDown(c, r, confirm) && took && !c.record.shutdown && !Latches(c, r, confirm)
  }

  /** Whether lamp `i`'s shutdown flag has gone unreported since the lamp's latest report or clearing. */
  predicate LagsAfter(m: Mirror, op: MirrorOp, i: nat, confirm: byte, lagged: bool)
    requires i < |m.channels|
  {
    match op
    case SampleOp(o, reading, _, took, _) =>
      if LampIndex(o) != i then lagged
      else !Latches(m.channels[i], reading, confirm)
           && (lagged || SilentShutdown(m.channels[i], reading, confirm, took))
    case ClearOp(o, _, _) => LampIndex(o) != i && lagged
    case OtherOp(_, _, _) => lagged
  }

  /** Exactly how one step changes whether the dashboard shows lamp `i`'s shutdown flag. */
  lemma FlagShownNext(m: Mirror, op: MirrorOp, i: nat, confirm: byte, accepts: nat -> bool)
    requires InStep(m) && i < 4 && forall n :: accepts(n)
    requires op.OtherOp? ==> op.packet.kind != FAULT && op.packet.kind != FAULT_CLEAR
    ensures FlagShown(Next(m, op, confirm, accepts), i) <==> !LagsAfter(m, op, i, confirm, !FlagShown(m, i))
  {
    hide Dispatch, Carry, FaultPacket, Stamped;
    assert Agrees(m.channels[i], m.dash.faults[i]);
    match op
    case SampleOp(o, reading, now, took, at) =>
      var k := LampIndex(o);
      var after := Observed(m.channels[k], reading, confirm, now, took);
      var m' := m.(channels := m.channels[k := after]);
      if Latches(m.channels[k], reading, confirm) {
        FaultIsDeliverable(m.node, o, after.record, FAULT);
        CarryDelivers(m', FaultPacket(o, after.record, FAULT), now, at, accepts);
        FaultRoundTrip(m.dash, m.node, o, after.record, FAULT, at);
      }
    case ClearOp(o, now, at) =>
      var k := LampIndex(o);
      var before := m.channels[k];
      var m' := m.(channels := m.channels[k := Cleared(before)]);
      if before.record.latched {
        FaultIsDeliverable(m.node, o, before.record, FAULT_CLEAR);
        CarryDelivers(m', FaultPacket(o, before.record, FAULT_CLEAR), now, at, accepts);
        FaultRoundTrip(m.dash, m.node, o, before.record, FAULT_CLEAR, at);
      }
    case OtherOp(p, now, at) =>
      CarryDelivers(m, p, now, at, accepts);
      StampKeepsKind(m.node, p);
      OthersLeaveFaults(m.dash, Stamped(m.node, p, false), at);
  }

  /** Whether lamp `i`'s shutdown is unreported after the run. */
  predicate Lags(m: Mirror, ops: seq<MirrorOp>, i: nat, confirm: byte, accepts: nat -> bool)
    requires |m.channels| == |m.dash.faults| == |m.issued| == 4 && i < 4
  {
    ops != []
    && var init := ops[..|ops| - 1];
       LagsAfter(After(m, init, confirm, accepts), ops[|ops| - 1], i, confirm, Lags(m, init, i, confirm, accepts))
  }

  /**
   Over any run, exactly when the dashboard shows a lamp's shutdown flag: unless a silent shutdown came after the
   lamp's latest Fault report or clearing.
   */
  lemma {:induction false} FlagShownExactly(policies: seq<Policy>, ops: seq<MirrorOp>, i: nat, confirm: byte,
                                            accepts: nat -> bool)
    requires |policies| == 4 && i < 4 && forall n :: accepts(n)
    requires forall op :: op in ops && op.OtherOp? ==> op.packet.kind != FAULT && op.packet.kind != FAULT_CLEAR
    ensures FlagShown(After(Boot(policies), ops, confirm, accepts), i)
       <==> !Lags(Boot(policies), ops, i, confirm, accepts)
  {
    hide Next, InStep, LagsAfter;
    if ops == [] {
      BootShows(policies, i);
    } else {
      var n := |ops| - 1;
      FaultsAreMirrored(policies, ops[..n], confirm, accepts);
      FlagShownExactly(policies, ops[..n], i, confirm, accepts);
      FlagShownNext(After(Boot(policies), ops[..n], confirm, accepts), ops[n], i, confirm, accepts);
    }
  }

  lemma BootShows(policies: seq<Policy>, i: nat)
    requires |policies| == 4 && i < 4
    ensures FlagShown(Boot(policies), i)
  {
  }

  /** The output of lamp `i` takes every shutdown write of the run. */
  ghost predicate TakesShutdowns(ops: seq<MirrorOp>, i: nat) {
    forall op :: op in ops && op.SampleOp? && LampIndex(op.o) == i ==> op.took
  }

  /**
   So a lamp's shutdown flag is shown after every step of any run in which its output takes every shutdown write,
   or its policy is to report only.
   */
  lemma {:induction false} FlagAlwaysShown(policies: seq<Policy>, ops: seq<MirrorOp>, i: nat, confirm: byte,
                                           accepts: nat -> bool)
    requires |policies| == 4 && i < 4 && forall n :: accepts(n)
    requires forall op :: op in ops && op.OtherOp? ==> op.packet.kind != FAULT && op.packet.kind != FAULT_CLEAR
    requires policies[i] == ReportOnly || TakesShutdowns(ops, i)
    ensures var m := After(Boot(policies), ops, confirm, accepts);
      && FlagShown(m, i)
      && m.channels[i].policy == policies[i]
      && (policies[i] == ShutdownOnOverCurrent && m.channels[i].record.latched
          && m.channels[i].record.latchedStatus == OverCurrent
          ==> m.channels[i].record.shutdown)
  {
    hide Next, InStep, FlagShown;
    if ops == [] {
      BootShows(policies, i);
    } else {
      var n := |ops| - 1;
      var before := After(Boot(policies), ops[..n], confirm, accepts);
      FlagAlwaysShown(policies, ops[..n], i, confirm, accepts);
      FaultsAreMirrored(policies, ops[..n], confirm, accepts);
      assert ops[n] in ops;
      FlagShownNext(before, ops[n], i, confirm, accepts);
      NextChannel(before, ops[n], i, confirm, accepts);
    }
  }

  lemma NextChannel(m: Mirror, op: MirrorOp, i: nat, confirm: byte, accepts: nat -> bool)
    requires |m.channels| == |m.dash.faults| == |m.issued| == 4 && i < 4
    ensures Next(m, op, confirm, accepts).channels[i] ==
      match op
      case SampleOp(o, reading, now, took, _) =>
        if LampIndex(o) == i then Observed(m.channels[i], reading, confirm, now, took) else m.channels[i]
      case ClearOp(o, _, _) => if LampIndex(o) == i then Cleared(m.channels[i]) else m.channels[i]
      case OtherOp(_, _, _) => m.channels[i]
  {
    hide Observed, Latches, Dispatch, Send, Run, FaultPacket;
  }

  /** The step after `init` is a silent shutdown of lamp `i`. */
  predicate SilentStep(m: Mirror, init: seq<MirrorOp>, op: MirrorOp, i: nat, confirm: byte, accepts: nat -> bool)
    requires |m.channels| == |m.dash.faults| == |m.issued| == 4 && i < 4
  {
    op.SampleOp? && LampIndex(op.o) == i
    && SilentShutdown(After(m, init, confirm, accepts).channels[i], op.reading, confirm, op.took)
  }

  predicate ShownAfter(policies: seq<Policy>, ops: seq<MirrorOp>, i: nat, confirm: byte, accepts: nat -> bool)
    requires |policies| == 4 && i < 4
  {
    FlagShown(After(Boot(policies), ops, confirm, accepts), i)
  }

  /**
   A lamp's shutdown flag is shown after every step of a run exactly when no step is a silent shutdown of the lamp.
   */
  lemma {:induction false} ShownThroughoutExactly(policies: seq<Policy>, ops: seq<MirrorOp>, i: nat, confirm: byte,
                                                  accepts: nat -> bool)
    requires |policies| == 4 && i < 4 && forall n :: accepts(n)
    requires forall op :: op in ops && op.OtherOp? ==> op.packet.kind != FAULT && op.packet.kind != FAULT_CLEAR
    ensures (forall k :: 0 <= k <= |ops| ==> ShownAfter(policies, ops[..k], i, confirm, accepts))
       <==> forall k :: 0 <= k < |ops| ==> !SilentStep(Boot(policies), ops[..k], ops[k], i, confirm, accepts)
  {
    hide After, Next, SilentShutdown, InStep, FlagShown;
    assert ops[..|ops|] == ops;
    if ops == [] {
      FlagShownExactly(policies, ops, i, confirm, accepts);
    } else {
      var n := |ops| - 1;
      ShownThroughoutExactly(policies, ops[..n], i, confirm, accepts);
      assert forall k :: 0 <= k <= n ==> ops[..n][..k] == ops[..k];
      FlagShownExactly(policies, ops[..n], i, confirm, accepts);
      FlagShownExactly(policies, ops, i, confirm, accepts);
      if forall k :: 0 <= k <= n ==> ShownAfter(policies, ops[..k], i, confirm, accepts) {
        assert ShownAfter(policies, ops[..n], i, confirm, accepts);
        LagStarts(Boot(policies), ops, i, confirm, accepts);
      }
    }
  }

  /** A lamp that did not lag lags after a step exactly if that is a silent shutdown. */
  lemma LagStarts(m: Mirror, ops: seq<MirrorOp>, i: nat, confirm: byte, accepts: nat -> bool)
    requires |m.channels| == |m.dash.faults| == |m.issued| == 4 && i < 4 && ops != []
    requires !Lags(m, ops[..|ops| - 1], i, confirm, accepts)
    ensures Lags(m, ops, i, confirm, accepts)
       <==> SilentStep(m, ops[..|ops| - 1], ops[|ops| - 1], i, confirm, accepts)
  {
    hide After;
  }

  const PROTECTED: seq<Policy> :=
    [ShutdownOnOverCurrent, ShutdownOnOverCurrent, ShutdownOnOverCurrent, ShutdownOnOverCurrent]

  /** Two over-current samples, the first one's shutdown write refused and the second one's taken, then an open load. */
  function LateShutdown(o: Output): seq<MirrorOp> {
    [SampleOp(o, Reading(OverCurrent, 9000), 0, false, 0), SampleOp(o, Reading(OverCurrent, 9000), 1, true, 1),
     SampleOp(o, Reading(OpenLoad, 0), 2, false, 2)]
  }

  /**
   The flag does lag: an over-current whose first shutdown write is refused and second taken is shut down without
   the dashboard showing it. The next report of the lamp, here of an open load, then carries the flag.
   */
  lemma ShutdownCanLag(o: Output, accepts: nat -> bool)
    requires forall n :: accepts(n)
    ensures var i, ops := LampIndex(o), LateShutdown(o);
      var m, m' := After(Boot(PROTECTED), ops[..2], 1, accepts), After(Boot(PROTECTED), ops, 1, accepts);
      && m.channels[i].record.shutdown && !m.dash.faults[i].shutdown
      && m'.channels[i].record.shutdown && m'.dash.faults[i].shutdown
  {
    hide Next, InStep, Observed, Latches, SilentShutdown;
    var i, ops, m0 := LampIndex(o), LateShutdown(o), Boot(PROTECTED);
    var c := QUIET.(policy := ShutdownOnOverCurrent);
    LateChannel(c);
    assert ops[..2][..1] == ops[..1] && ops[..1][..0] == [];
    assert m0.channels[i] == c;
    NextChannel(m0, ops[0], i, 1, accepts);
    NextChannel(After(m0, ops[..1], 1, accepts), ops[1], i, 1, accepts);
    NextChannel(After(m0, ops[..2], 1, accepts), ops[2], i, 1, accepts);
    FlagShownExactly(PROTECTED, ops[..2], i, 1, accepts);
    FlagShownExactly(PROTECTED, ops, i, 1, accepts);
  }

  lemma LateChannel(c: Channel)
    requires c == QUIET.(policy := ShutdownOnOverCurrent)
    ensures var over, open := Reading(OverCurrent, 9000), Reading(OpenLoad, 0);
      var c1 := Observed(c, over, 1, 0, false);
      var c2 := Observed(c1, over, 1, 1, true);
      && SilentShutdown(c1, over, 1, true) && !Latches(c1, over, 1) && c2.record.shutdown
      && Latches(c2, open, 1) && Observed(c2, open, 1, 2, false).record.shutdown
  {
  }

  /** A shutdown that succeeds only after the fault was reported is not reported: the one field that may lag. */
  lemma LateShutdownIsSilent(c: Channel, r: Reading, confirm: byte, now: u32)
    requires c.record.latched && !c.record.shutdown && c.record.latchedStatus == r.status
    requires ShutsDown(c, r, confirm)
    ensures !Latches(c, r, confirm) && Observed(c, r, confirm, now, true).record.shutdown
  {
  }
}
