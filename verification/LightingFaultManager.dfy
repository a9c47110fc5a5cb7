/** The lighting fault manager: confirmed, latched and counted electrical faults per lamp. */
module FaultManager {
  import opened Bytes
  import opened Codec
  import opened Node
  import opened Lighting
  import opened MotorcycleComputers

  datatype Policy = ReportOnly | ShutdownOnOverCurrent

  /** What the lamp diagnostics make of one current measurement. */
  datatype Reading = Reading(status: Electrical, current: u16)

  datatype Record = Record(active: Electrical, latchedStatus: Electrical, firstSeen: u32, lastSeen: u32,
                           occurrences: u32, lastCurrent: u16, latched: bool, shutdown: bool)

  datatype Channel = Channel(record: Record, streak: byte, policy: Policy)

  const NO_RECORD: Record := Record(Off, Off, 0, 0, 0, 0, false, false)
  const QUIET: Channel := Channel(NO_RECORD, 0, ReportOnly)
  const OUTPUTS: seq<Output> := [LeftIndicator, RightIndicator, BrakeBright, HighBeam]

  predicate IsFault(e: Electrical) {
    e == OpenLoad || e == OverCurrent
  }

  function Lengthened(streak: byte): byte {
    if streak < 0xFF then streak + 1 else streak
  }

  /** The sample is a fault seen often enough in a row. */
  predicate Confirms(c: Channel, r: Reading, confirm: byte) {
    IsFault(r.status) && Lengthened(c.streak) >= confirm
  }

  /** The sample latches a fault that was not latched yet, or latched with another status. */
  predicate Latches(c: Channel, r: Reading, confirm: byte) {
    Confirms(c, r, confirm) && (!c.record.latched || c.record.latchedStatus != r.status)
  }

  /** The sample makes the manager switch the lamp off. */
  predicate ShutsDown(c: Channel, r: Reading, confirm: byte) {
    Confirms(c, r, confirm) && r.status == OverCurrent && c.policy == ShutdownOnOverCurrent
  }

  /** update_channel(): `took` is whether the output accepts being switched off. */
  function Observed(c: Channel, r: Reading, confirm: byte, now: u32, took: bool): Channel {
    var seen := c.record.(active := r.status, lastCurrent := r.current);
    if !IsFault(r.status) then c.(record := seen, streak := 0)
    else if !Confirms(c, r, confirm) then c.(record := seen, streak := Lengthened(c.streak))
    else
      Channel(
        seen.(latched := true, latchedStatus := r.status, lastSeen := now,
              firstSeen := if c.record.latched then c.record.firstSeen else now,
              occurrences := if Latches(c, r, confirm) then Inc32(c.record.occurrences) else c.record.occurrences,
              shutdown := c.record.shutdown || (ShutsDown(c, r, confirm) && took)),
        Lengthened(c.streak), c.policy)
  }

  /** The channel took this one sample, whatever the output made of being switched off. */
  predicate SampledOnce(before: Channel, after: Channel, r: Reading, confirm: byte, now: u32) {
    after == Observed(before, r, confirm, now, true) || after == Observed(before, r, confirm, now, false)
  }

  /** clear_latch(). */
  function Cleared(c: Channel): Channel {
    c.(record := c.record.(latched := false, latchedStatus := Off, shutdown := false), streak := 0)
  }

  function FaultPacket(o: Output, r: Record, kind: byte): Packet {
    Packet(MAIN_COMPUTER, MAIN_COMPUTER, kind, if kind == FAULT then FLAG_RESPONSE + FLAG_FAULT else FLAG_RESPONSE, 0,
           [0x01, OutputId(o), ElectricalCode(r.latchedStatus), Bit(r.shutdown)] + U32Bytes(r.occurrences))
  }

  function Zip(records: seq<Record>, streaks: seq<byte>, policies: seq<Policy>): (s: seq<Channel>)
    requires |records| == |streaks| == |policies|
    ensures |s| == |records|
    ensures forall i :: 0 <= i < |s| ==> s[i] == Channel(records[i], streaks[i], policies[i])
  {
    seq(|records|, i requires 0 <= i < |records| => Channel(records[i], streaks[i], policies[i]))
  }

  /** Everything a diagnostic round touches: the channels, the lamps and their write count, and the node. */
  datatype Panel = Panel(channels: seq<Channel>, lamps: Lamps, writes: nat, io: Io)

  /** One lamp's sample: its channel, the shutdown write if one is made, and the Fault message if one is due. */
  function Updated(p: Panel, o: Output, r: Reading, confirm: byte, now: u32, works: nat -> bool,
                   accepts: nat -> bool): (p': Panel)
    requires |p.channels| == 4
    ensures |p'.channels| == 4
  {
    var i := LampIndex(o);
    var before := p.channels[i];
    var off := ShutsDown(before, r, confirm);
    var after := Observed(before, r, confirm, now, works(p.writes));
    Panel(p.channels[i := after],
          if off && works(p.writes) then Set(p.lamps, o, false) else p.lamps,
          if off then p.writes + 1 else p.writes,
          if Latches(before, r, confirm) then Emit(p.io, Publish(FaultPacket(o, after.record, FAULT)), accepts).0
          else p.io)
  }

  /** The first `n` lamps' samples, in order. */
  function Round(p: Panel, n: nat, evaluate: Output -> Reading, confirm: byte, now: u32, works: nat -> bool,
                 accepts: nat -> bool): (p': Panel)
    requires |p.channels| == 4 && n <= 4
    ensures |p'.channels| == 4
  {
    if n == 0 then p
    else
      Updated(Round(p, n - 1, evaluate, confirm, now, works, accepts), OUTPUTS[n - 1], evaluate(OUTPUTS[n - 1]),
              confirm, now, works, accepts)
  }

  class LightingFaultManager {
    const node: BikeNode
    const outputs: LightingHardware
    const policies: array<Policy>
    const records: array<Record>
    const streaks: array<byte>
    var confirmSamples: byte

    ghost predicate Valid()
      reads this, node, node.parser, node.parser.buffer
    {
      && node.Valid() && policies.Length == 4 && records.Length == 4 && streaks.Length == 4
      && streaks != node.parser.buffer
    }

    ghost function State(): (s: seq<Channel>)
      reads this, policies, records, streaks
      requires policies.Length == 4 && records.Length == 4 && streaks.Length == 4
      ensures |s| == 4
    {
      Zip(records[..], streaks[..], policies[..])
    }

    ghost function Whole(): (p: Panel)
      reads this, policies, records, streaks, outputs, node, node.transport, node.parser, node.parser.buffer,
            node.rxQueue
      requires Valid()
      ensures |p.channels| == 4
    {
      Panel(State(), outputs.lamps, outputs.writes, node.State())
    }

    constructor (node: BikeNode, outputs: LightingHardware)
      requires node.Valid()
      ensures Valid() && State() == [QUIET, QUIET, QUIET, QUIET] && confirmSamples == 3
      ensures this.node == node && this.outputs == outputs
      ensures fresh(policies) && fresh(records) && fresh(streaks)
    {
      this.node, this.outputs := node, outputs;
      policies := new Policy[4](_ => ReportOnly);
      records := new Record[4](_ => NO_RECORD);
      streaks := new byte[4](_ => 0);
      confirmSamples := 3;
    }

    method SetPolicy(o: Output, policy: Policy)
      requires Valid()
      modifies policies
      ensures State() == old(State())[LampIndex(o) := old(State())[LampIndex(o)].(policy := policy)]
    {
      policies[LampIndex(o)] := policy;
    }

    method SetConfirmSamples(value: byte)
      modifies this`confirmSamples
      ensures confirmSamples == if value == 0 then 1 else value
    {
      confirmSamples := if value == 0 then 1 else value;
    }

    method PublishFault(o: Output, r: Record, kind: byte, now: u32) returns (ok: bool)
      requires Valid()
      modifies node`sequence, node`pending, node.transport`log
      ensures Valid()
      ensures (node.State(), ok)
           == Emit(old(node.State()), Publish(FaultPacket(o, r, kind)), node.transport.accepts)
    {
      hide WritePacket, U32Bytes;
      var flags := if kind == FAULT then FLAG_RESPONSE + FLAG_FAULT else FLAG_RESPONSE;
      var payload := [0x01, OutputId(o), ElectricalCode(r.latchedStatus), if r.shutdown then 1 else 0];
      ok := node.Transmit(Packet(MAIN_COMPUTER, MAIN_COMPUTER, kind, flags, 0, payload + U32Bytes(r.occurrences)),
                          now, false);
    }

    method ClearLatch(o: Output, now: u32)
      requires Valid()
      modifies records, streaks, node`sequence, node`pending, node.transport`log
      ensures Valid()
      ensures var i := LampIndex(o); var before := old(State())[i];
        && State() == old(State())[i := Cleared(before)]
        && node.State() == if before.record.latched
             then Emit(old(node.State()), Publish(FaultPacket(o, before.record, FAULT_CLEAR)),
                       node.transport.accepts).0
             else old(node.State())
    {
      hide Emit, FaultPacket, BikeNode.State, BikeNode.Valid, LampIndex, Zip;
      var i := LampIndex(o);
      var previous := records[i];
      records[i] := records[i].(latched := false, latchedStatus := Off, shutdown := false);
      streaks[i] := 0;
      if previous.latched {
        var ok := PublishFault(o, previous, FAULT_CLEAR, now);
      }
    }

    method UpdateChannel(o: Output, diagnostic: Reading, now: u32)
      requires Valid() && confirmSamples >= 1
      modifies records, streaks, outputs, node`sequence, node`pending, node.transport`log
      ensures Valid() && confirmSamples == old(confirmSamples)
      ensures Whole() == Updated(old(Whole()), o, diagnostic, confirmSamples, now, outputs.works,
                                 node.transport.accepts)
    {
      hide Emit, FaultPacket, BikeNode.State, BikeNode.Valid, LampIndex, Zip, Set, Observed, Latches, ShutsDown;
      var newlyLatched := TakeSample(o, diagnostic, now);
      if newlyLatched {
        var ok := PublishFault(o, records[LampIndex(o)], FAULT, now);
      }
    }

    /** update_channel() up to the message, and whether one is due. */
    method TakeSample(o: Output, diagnostic: Reading, now: u32) returns (newlyLatched: bool)
      requires Valid() && confirmSamples >= 1
      modifies records, streaks, outputs
      ensures var i := LampIndex(o); var before := old(State())[i];
        var off := ShutsDown(before, diagnostic, confirmSamples);
        var took := outputs.works(old(outputs.writes));
        && State() == old(State())[i := Observed(before, diagnostic, confirmSamples, now, took)]
        && outputs.lamps == (if off && took then Set(old(outputs.lamps), o, false) else old(outputs.lamps))
        && outputs.writes == (if off then old(outputs.writes) + 1 else old(outputs.writes))
        && newlyLatched == Latches(before, diagnostic, confirmSamples)
    {
      hide LampIndex, Set, BikeNode.Valid;
      var i := LampIndex(o);
      records[i] := records[i].(active := diagnostic.status, lastCurrent := diagnostic.current);
      var confirmed := CountSample(i, diagnostic.status);
      if !confirmed {
        return false;
      }
      newlyLatched := LatchRecord(o, i, diagnostic.status, now);
    }

    /** The part of update_channel() that counts faulty samples in a row, and tells whether a fault is confirmed. */
    method CountSample(i: nat, status: Electrical) returns (confirmed: bool)
      requires streaks.Length == 4 && i < 4
      modifies streaks
      ensures streaks[..] == old(streaks[..])[i := if IsFault(status) then Lengthened(old(streaks[i])) else 0]
      ensures confirmed <==> IsFault(status) && streaks[i] >= confirmSamples
    {
      if !IsFault(status) {
        streaks[i] := 0;
        return false;
      }
      if streaks[i] < 0xFF {
        streaks[i] := streaks[i] + 1;
      }
      return streaks[i] >= confirmSamples;
    }

    /** The part of update_channel() that latches a confirmed fault. */
    method LatchRecord(o: Output, i: nat, status: Electrical, now: u32) returns (newlyLatched: bool)
      requires records.Length == 4 && policies.Length == 4 && i < 4
      modifies records, outputs
      ensures var r, off := old(records[i]), status == OverCurrent && policies[i] == ShutdownOnOverCurrent;
        var took := off && outputs.works(old(outputs.writes));
        && newlyLatched == (!r.latched || r.latchedStatus != status)
        && records[i] == r.(latched := true, latchedStatus := status, lastSeen := now,
                            firstSeen := if r.latched then r.firstSeen else now,
                            occurrences := if newlyLatched then Inc32(r.occurrences) else r.occurrences,
                            shutdown := r.shutdown || took)
        && outputs.lamps == (if took then Set(old(outputs.lamps), o, false) else old(outputs.lamps))
        && outputs.writes == old(outputs.writes) + if off then 1 else 0
      ensures forall k :: 0 <= k < 4 && k != i ==> records[k] == old(records[k])
    {
      var record := records[i];
      newlyLatched := !record.latched || record.latchedStatus != status;
      if !record.latched {
        record := record.(firstSeen := now, latched := true, occurrences := Inc32(record.occurrences));
      } else if record.latchedStatus != status {
        record := record.(occurrences := Inc32(record.occurrences));
      }
      record := record.(latchedStatus := status, lastSeen := now);
      if status == OverCurrent && policies[i] == ShutdownOnOverCurrent {
        var ok := outputs.WriteOutput(o, false);
        if ok {
          record := record.(shutdown := true);
        }
      }
      records[i] := record;
    }

    /** One round over the four lamps, in order: channels, lamps, shutdown writes and messages. */
    method Service(now: u32, evaluate: Output -> Reading)
      requires Valid() && confirmSamples >= 1
      modifies records, streaks, outputs, node`sequence, node`pending, node.transport`log
      ensures Valid() && confirmSamples == old(confirmSamples)
      ensures Whole() == Round(old(Whole()), 4, evaluate, confirmSamples, now, outputs.works, node.transport.accepts)
    {
      hide Updated, Whole;
      for n := 0 to 4
        invariant Valid() && confirmSamples == old(confirmSamples)
        invariant Whole() == Round(old(Whole()), n, evaluate, confirmSamples, now, outputs.works,
                                   node.transport.accepts)
      {
        UpdateChannel(OUTPUTS[n], evaluate(OUTPUTS[n]), now);
      }
    }
  }

  /** A round samples every lamp's channel exactly once, with its own reading. */
  lemma RoundSamplesEach(p: Panel, o: Output, evaluate: Output -> Reading, confirm: byte, now: u32,
                         works: nat -> bool, accepts: nat -> bool)
    requires |p.channels| == 4
    ensures var i := LampIndex(o);
      SampledOnce(p.channels[i], Round(p, 4, evaluate, confirm, now, works, accepts).channels[i], evaluate(o), confirm,
                  now)
  {
    RoundTakes(p, 4, o, evaluate, confirm, now, works, accepts);
  }

  lemma {:induction false} RoundTakes(p: Panel, n: nat, o: Output, evaluate: Output -> Reading, confirm: byte,
                                      now: u32, works: nat -> bool, accepts: nat -> bool)
    requires |p.channels| == 4 && n <= 4
    ensures var i := LampIndex(o);
      var c := Round(p, n, evaluate, confirm, now, works, accepts).channels[i];
      if i < n then SampledOnce(p.channels[i], c, evaluate(o), confirm, now) else c == p.channels[i]
  {
    hide Observed, Emit, ShutsDown, Latches;
    if n > 0 {
      RoundTakes(p, n - 1, o, evaluate, confirm, now, works, accepts);
      assert LampIndex(OUTPUTS[n - 1]) == n - 1 && OUTPUTS[LampIndex(o)] == o;
    }
  }

  // ---- runs of one channel ------------------------------------------------------------------------

  datatype ChannelOp =
    | Take(reading: Reading, now: u32, took: bool)
    | Clear

  function Do(c: Channel, op: ChannelOp, confirm: byte): Channel {
    match op
    case Take(r, now, took) => Observed(c, r, confirm, now, took)
    case Clear => Cleared(c)
  }

  function After(c: Channel, ops: seq<ChannelOp>, confirm: byte): Channel {
    if ops == [] then c else Do(After(c, ops[..|ops| - 1], confirm), ops[|ops| - 1], confirm)
  }

  /** How many faulty samples in a row end the run, with no clearing between. */
  function FaultyTail(ops: seq<ChannelOp>): nat {
    if ops == [] then 0
    else
      var op := ops[|ops| - 1];
      if op.Take? && (op.reading.status == OpenLoad || op.reading.status == OverCurrent)
        then FaultyTail(ops[..|ops| - 1]) + 1 else 0
  }

  lemma {:induction false} StreakCounts(c: Channel, ops: seq<ChannelOp>, confirm: byte)
    requires c.streak == 0
    ensures var n, tail := After(c, ops, confirm).streak, FaultyTail(ops);
      n == if tail < 0xFF then tail else 0xFF
  {
    if ops != [] {
      StreakCounts(c, ops[..|ops| - 1], confirm);
    }
  }

  /**
   A Fault message is issued exactly at a sample that ends confirm_samples or more faulty ones in a row, with
   nothing or another status latched.
   */
  lemma LatchNeedsConfirmation(c: Channel, ops: seq<ChannelOp>, r: Reading, confirm: byte, now: u32, took: bool)
    requires c.streak == 0 && confirm >= 1
    ensures var before := After(c, ops, confirm);
      Latches(before, r, confirm) <==>
        && FaultyTail(ops + [Take(r, now, took)]) >= confirm
        && (!before.record.latched || before.record.latchedStatus != r.status)
  {
    StreakCounts(c, ops, confirm);
    assert (ops + [Take(r, now, took)])[..|ops|] == ops;
  }

  /** Fault messages a run issues. */
  function Issued(c: Channel, ops: seq<ChannelOp>, confirm: byte): nat {
    if ops == [] then 0
    else
      var init, op := ops[..|ops| - 1], ops[|ops| - 1];
      Issued(c, init, confirm)
      + if op.Take? && Latches(After(c, init, confirm), op.reading, confirm) then 1 else 0
  }

  /** The occurrence count is the number of Fault messages issued, modulo 2^32; a cleared latch reads Off. */
  lemma {:induction false} OccurrencesCountMessages(ops: seq<ChannelOp>, policy: Policy, confirm: byte)
    ensures var c := After(QUIET.(policy := policy), ops, confirm);
      && c.record.occurrences == Issued(QUIET.(policy := policy), ops, confirm) % TWO32
      && (!c.record.latched ==> c.record.latchedStatus == Off && !c.record.shutdown)
  {
    hide Inc32, Lengthened;
    if ops != [] {
      var start := QUIET.(policy := policy);
      OccurrencesCountMessages(ops[..|ops| - 1], policy, confirm);
      Inc32Counts(Issued(start, ops[..|ops| - 1], confirm));
    }
  }

  // ---- what a record tells of the run ---------------------------------------------------------------------

  /** The run ends in a sample that is faulty for at least `confirm` samples in a row. */
  predicate EndsConfirmed(ops: seq<ChannelOp>, confirm: byte) {
    FaultyTail(ops) >= confirm
  }

  /** The newest reading, if any. */
  function Newest(ops: seq<ChannelOp>): Option<Reading> {
    if ops == [] then None
    else
      match ops[|ops| - 1]
      case Take(r, _, _) => Some(r)
      case Clear => Newest(ops[..|ops| - 1])
  }

  /** The newest confirmed sample, if any; where `sinceClear`, only since the newest clearing. */
  function NewestConfirmed(ops: seq<ChannelOp>, confirm: byte, sinceClear: bool): Option<ChannelOp> {
    if ops == [] then None
    else if ops[|ops| - 1].Clear? && sinceClear then None
    else if EndsConfirmed(ops, confirm) then Some(ops[|ops| - 1])
    else NewestConfirmed(ops[..|ops| - 1], confirm, sinceClear)
  }

  /** The first confirmed sample since the newest clearing that had one, or since power-on. */
  function FirstConfirmed(ops: seq<ChannelOp>, confirm: byte): Option<ChannelOp> {
    if ops == [] then None
    else
      var init := ops[..|ops| - 1];
      if EndsConfirmed(ops, confirm) && NewestConfirmed(init, confirm, true).None? then Some(ops[|ops| - 1])
      else FirstConfirmed(init, confirm)
  }

  /** An over-current confirmed since the newest clearing was switched off. */
  predicate SwitchedOff(ops: seq<ChannelOp>, policy: Policy, confirm: byte) {
    ops != [] && !ops[|ops| - 1].Clear?
    && ((EndsConfirmed(ops, confirm) && ops[|ops| - 1].reading.status == OverCurrent
         && policy == ShutdownOnOverCurrent && ops[|ops| - 1].took)
        || SwitchedOff(ops[..|ops| - 1], policy, confirm))
  }

  function TimeOf(op: Option<ChannelOp>): u32 {
    match op
    case Some(Take(_, now, _)) => now
    case _ => 0
  }

  /**
   A record is the history of its lamp: the present status and current are the newest sample's; a fault is latched
   exactly if a sample was confirmed since the newest clearing, with the newest such sample's status; it was last seen
   at the newest confirmed sample and first seen at the one that latched it; and the shutdown mark says that an
   over-current confirmed since then was switched off.
   */
  lemma {:induction false} RecordIsHistory(ops: seq<ChannelOp>, policy: Policy, confirm: byte)
    requires confirm >= 1
    ensures var c := After(QUIET.(policy := policy), ops, confirm);
      var latching := NewestConfirmed(ops, confirm, true);
      && c.policy == policy
      && (Newest(ops).Some? ==>
            c.record.active == Newest(ops).value.status && c.record.lastCurrent == Newest(ops).value.current)
      && (c.record.latched <==> latching.Some?)
      && c.record.latchedStatus == (if latching.Some? && latching.value.Take? then latching.value.reading.status
                                    else Off)
      && c.record.lastSeen == TimeOf(NewestConfirmed(ops, confirm, false))
      && c.record.firstSeen == TimeOf(FirstConfirmed(ops, confirm))
      && (c.record.shutdown <==> SwitchedOff(ops, policy, confirm))
  {
    hide Inc32;
    StreakCounts(QUIET.(policy := policy), ops, confirm);
    if ops != [] {
      RecordIsHistory(ops[..|ops| - 1], policy, confirm);
      StreakCounts(QUIET.(policy := policy), ops[..|ops| - 1], confirm);
    }
  }

  // ---- messages, byte by byte -----------------------------------------------------------------------------------

  function LampByte(o: Output): byte {
    match o
    case LeftIndicator => 0x01
    case RightIndicator => 0x02
    case BrakeBright => 0x03
    case HighBeam => 0x04
  }

  function StatusByte(e: Electrical): byte {
    match e
    case Unknown => 0x00
    case Off => 0x01
    case Good => 0x02
    case OpenLoad => 0x03
    case OverCurrent => 0x04
  }

  /** A Fault message carries flags response and fault, a FaultClear message only response; the count comes last. */
  lemma FaultMessageBytes(o: Output, r: Record, clear: bool)
    ensures FaultPacket(o, r, if clear then FAULT_CLEAR else FAULT)
         == Packet(0x01, 0x01, if clear then 0x41 else 0x40, if clear then 0x02 else 0x06, 0,
                   [0x01, LampByte(o), StatusByte(r.latchedStatus), if r.shutdown then 1 else 0,
                    r.occurrences / 0x100_0000, r.occurrences / 0x1_0000 % 0x100, r.occurrences / 0x100 % 0x100,
                    r.occurrences % 0x100])
  {
    BigEndian(0, r.occurrences);
  }

  /**
   One lamp's sample, seen from outside: the lamp goes off exactly if a confirmed over-current meets the shutdown
   policy and the output takes the write, no other lamp changes, and a Fault message with the record as it then is
   goes out exactly if a confirmed fault was not latched, or latched with another status.
   */
  lemma SampleTells(p: Panel, o: Output, r: Reading, confirm: byte, now: u32, works: nat -> bool,
                    accepts: nat -> bool)
    requires |p.channels| == 4
    ensures var p' := Updated(p, o, r, confirm, now, works, accepts);
      var c := p.channels[LampByte(o) - 1];
      var streak := if c.streak < 255 then c.streak + 1 else 255;
      var confirmed := (r.status == OpenLoad || r.status == OverCurrent) && streak >= confirm;
      var off := confirmed && r.status == OverCurrent && c.policy == ShutdownOnOverCurrent;
      && p'.lamps == (if off && works(p.writes) then Lit(p.lamps, LampByte(o), false) else p.lamps)
      && p'.writes == (if off then p.writes + 1 else p.writes)
      && p'.io == (if confirmed && (!c.record.latched || c.record.latchedStatus != r.status)
                   then Send(p.io, FaultPacket(o, p'.channels[LampByte(o) - 1].record, FAULT), 0, false, accepts).0
                   else p.io)
      && forall i :: 0 <= i < 4 && i != LampByte(o) - 1 ==> p'.channels[i] == p.channels[i]
  {
    hide Send, FaultPacket;
  }
}
