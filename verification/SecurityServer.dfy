/** The security controller: lock, alarm and start-inhibit, with filtered inputs and persisted armed intent. */
module Security {
  import opened Bytes
  import opened Codec
  import opened Node
  import opened SecurityMessages

  // ---- state ---------------------------------------------------------------------------------

  /** An input whose assertion must persist and whose release is immediate. */
  datatype Filter = Filter(stable: bool, pending: bool, changedAt: u32)

  /** The engine sense: running is believed at once, stopped only after a confirmation interval. */
  datatype Engine = Engine(running: bool, known: bool, stopPending: bool, stopStarted: u32)

  datatype Timing = Timing(engineStop: u32, warning: u32, trigger: u32, alarm: u32)

  datatype Inputs = Inputs(engine: bool, warning: bool, trigger: bool)

  datatype Sec = Sec(mode: Mode, lastController: byte,
                     engine: Engine, recovering: bool,
                     warning: Filter, trigger: Filter, previousWarning: bool, previousTrigger: bool,
                     alarmStarted: u32, timer: bool)

  const NO_FILTER: Filter := Filter(false, false, 0)
  const POWER_ON: Sec :=
    Sec(Unlocked, MAIN_COMPUTER, Engine(false, false, false, 0), false, NO_FILTER, NO_FILTER, false, false, 0, false)

  /** The two driven outputs, and how often they were written. */
  datatype Hw = Hw(alarm: bool, inhibit: bool, writes: nat)

  /** Non-volatile storage, if fitted. */
  datatype Store = Store(present: bool, readable: bool, writable: bool, armed: bool)

  /** `outs` is what the current operation handed to the node. */
  datatype Plant = Plant(sec: Sec, hw: Hw, store: Store, outs: seq<Out>)

  // ---- the parts of an operation -----------------------------------------------------------------

  function Filtered(f: Filter, raw: bool, confirm: u32, now: u32): (Filter, bool) {
    if !raw then (f.(stable := false, pending := false), f.stable)
    else if f.stable then (f.(pending := false), false)
    else
      var f1 := if f.pending then f else f.(pending := true, changedAt := now);
      if (!f.pending && confirm != 0) || Elapsed(now, f1.changedAt) < confirm then (f1, false)
      else (f1.(stable := true, pending := false), true)
  }

  function EngineSampled(e: Engine, raw: bool, now: u32, confirm: u32): Engine {
    if !e.known then e.(running := raw, known := true)
    else if raw then e.(running := true, stopPending := false)
    else if e.running then
      var e1 := if e.stopPending then e else e.(stopPending := true, stopStarted := now);
      if Elapsed(now, e1.stopStarted) >= confirm then e1.(running := false, stopPending := false) else e1
    else e.(stopPending := false)
  }

  function InputsSampled(s: Sec, ins: Inputs, now: u32, cfg: Timing): Sec {
    s.(engine := EngineSampled(s.engine, ins.engine, now, cfg.engineStop),
       warning := Filtered(s.warning, ins.warning, cfg.warning, now).0,
       trigger := Filtered(s.trigger, ins.trigger, cfg.trigger, now).0)
  }

  function SetAlarmOutput(hw: Hw, on: bool, works: nat -> bool): (Hw, bool) {
    var ok := works(hw.writes);
    (hw.(alarm := if ok then on else hw.alarm, writes := hw.writes + 1), ok)
  }

  function SetInhibitOutput(hw: Hw, on: bool, works: nat -> bool): Hw {
    hw.(inhibit := if works(hw.writes) then on else hw.inhibit, writes := hw.writes + 1)
  }

  predicate EngineRunning(s: Sec, ins: Inputs) {
    if s.engine.known then s.engine.running else ins.engine
  }

  function InhibitUpdated(p: Plant, ins: Inputs, works: nat -> bool): Plant {
    p.(hw := SetInhibitOutput(p.hw, (p.sec.mode == Locked || p.sec.mode == Alarm) && !EngineRunning(p.sec, ins), works))
  }

  function Announced(p: Plant, e: Event, destination: byte): Plant {
    p.(outs := p.outs + [Publish(SecurityEventPacket(e, destination))])
  }

  function SnapshotOf(p: Plant, ins: Inputs): Snapshot {
    Snapshot(p.sec.mode, p.hw.inhibit, p.hw.alarm, p.sec.warning.stable, p.sec.trigger.stable,
             EngineRunning(p.sec, ins))
  }

  function Reported(p: Plant, destination: byte, ins: Inputs): Plant {
    p.(outs := p.outs + [Publish(SecurityStatePacket(SnapshotOf(p, ins), destination))])
  }

  function Saved(p: Plant, armed: bool): Plant {
    if p.store.present && p.store.writable then p.(store := p.store.(armed := armed)) else p
  }

  // ---- the operations ---------------------------------------------------------------------------------

  /** set_locked(false) after the inputs were sampled. */
  function MadeUnlocked(p: Plant, works: nat -> bool): Plant {
    var hw := SetInhibitOutput(SetAlarmOutput(p.hw, false, works).0, false, works);
    Announced(Saved(p.(sec := p.sec.(mode := Unlocked, timer := false, recovering := false), hw := hw), false),
              UnlockedEvent, p.sec.lastController)
  }

  /** set_locked(true) after the inputs were sampled: a running engine only makes the lock pending. */
  function MadeLocked(p: Plant, ins: Inputs, works: nat -> bool): Plant {
    var mode := if p.sec.engine.running then LockPending else Locked;
    var event := if p.sec.engine.running then LockPendingEvent else LockedEvent;
    var p1 := Saved(p.(sec := p.sec.(timer := false, recovering := false), hw := SetAlarmOutput(p.hw, false, works).0),
                    true);
    InhibitUpdated(Announced(p1.(sec := p1.sec.(mode := mode)), event, p.sec.lastController), ins, works)
  }

  function SampledPlant(p: Plant, ins: Inputs, now: u32, cfg: Timing): Plant {
    p.(sec := InputsSampled(p.sec, ins, now, cfg))
  }

  function LockedOrUnlocked(p: Plant, lock: bool, ins: Inputs, now: u32, cfg: Timing, works: nat -> bool): Plant {
    var p0 := SampledPlant(p, ins, now, cfg);
    if lock then MadeLocked(p0, ins, works) else MadeUnlocked(p0, works)
  }

  function AlarmStart(p: Plant, reportTo: byte, ins: Inputs, now: u32, works: nat -> bool): (Plant, bool) {
    if p.sec.mode != Locked then (p, false)
    else
      var (hw, ok) := SetAlarmOutput(p.hw, true, works);
      if !ok then (p.(hw := hw), false)
      else
        (Announced(InhibitUpdated(p.(hw := hw, sec := p.sec.(mode := Alarm, alarmStarted := now, timer := true)),
                                  ins, works),
                   AlarmStartedEvent, reportTo), true)
  }

  function AlarmStop(p: Plant, reportTo: byte, ins: Inputs, works: nat -> bool): (Plant, bool) {
    var (hw, ok) := SetAlarmOutput(p.hw, false, works);
    if !ok then (p.(hw := hw), false)
    else
      (Announced(InhibitUpdated(p.(hw := hw, sec := p.sec.(timer := false,
                                                          mode := if p.sec.mode == Alarm then Locked else p.sec.mode)),
                                ins, works),
                 AlarmStoppedEvent, reportTo), true)
  }

  /** The command itself; `sent` is whether the node took the report a RequestState asks for. */
  function CommandApplied(p: Plant, command: Option<Command>, source: byte, ins: Inputs, now: u32, cfg: Timing,
                          works: nat -> bool, sent: bool): (Plant, bool) {
    match command
    case Some(LockCommand) => (LockedOrUnlocked(p, true, ins, now, cfg, works), true)
    case Some(UnlockCommand) => (LockedOrUnlocked(p, false, ins, now, cfg, works), true)
    case Some(SilenceAlarmCommand) => AlarmStop(p, source, ins, works)
    case Some(RequestStateCommand) =>
      (Reported(InhibitUpdated(SampledPlant(p, ins, now, cfg), ins, works), source, ins), sent)
    case None => (p, false)
  }

  /** The command, then the ACK or NACK if one is due, then a state report if it succeeded. */
  function CommandHandled(p: Plant, raw: byte, source: byte, sequence: u16, ack: bool, ins: Inputs, now: u32,
                          cfg: Timing, works: nat -> bool, sent: bool): (Plant, bool) {
    var command := CommandOf(raw);
    var (p1, ok) := CommandApplied(p.(sec := p.sec.(lastController := source)), command, source, ins, now, cfg, works,
                                   sent);
    var p2 := if ack then p1.(outs := p1.outs + [Answer(source, sequence, !ok)]) else p1;
    (if ok && command != Some(RequestStateCommand) then Reported(p2, source, ins) else p2, ok)
  }

  function PacketHandled(p: Plant, packet: Packet, ins: Inputs, now: u32, cfg: Timing, works: nat -> bool,
                         sent: bool): (Plant, bool) {
    if packet.kind != SECURITY_COMMAND then (p, false)
    else if |packet.payload| != 1 then
      (if AckRequired(packet) then p.(outs := p.outs + [Answer(packet.source, packet.sequence, true)]) else p, true)
    else
      CommandHandled(p, packet.payload[0], packet.source, packet.sequence, AckRequired(packet), ins, now, cfg, works,
                     sent)
  }

  /** A pending lock takes hold once the engine is believed stopped. */
  function LockPromoted(p: Plant, ins: Inputs): Plant {
    var to := p.sec.lastController;
    if p.sec.mode == LockPending && !p.sec.engine.running
    then Reported(Announced(p.(sec := p.sec.(mode := Locked, recovering := false)), LockedEvent, to), to, ins)
    else p
  }

  /** An alarm ends when its time is over. */
  function AlarmTimed(p: Plant, ins: Inputs, now: u32, cfg: Timing, works: nat -> bool): Plant {
    var to := p.sec.lastController;
    if p.sec.mode == Alarm && p.sec.timer && Elapsed(now, p.sec.alarmStarted) >= cfg.alarm
    then Reported(AlarmStop(p, to, ins, works).0, to, ins) else p
  }

  /** While locked, a newly confirmed warning is reported, and a newly confirmed trigger raises the alarm. */
  function ShocksChecked(p: Plant, ins: Inputs, now: u32, works: nat -> bool): Plant {
    var to := p.sec.lastController;
    var p1 := if p.sec.mode == Locked && p.sec.warning.stable && !p.sec.previousWarning
              then Announced(p, ShockWarningEvent, to) else p;
    if p1.sec.mode == Locked && p1.sec.trigger.stable && !p1.sec.previousTrigger then
      var (p2, started) := AlarmStart(Announced(p1, ShockTriggerEvent, to), to, ins, now, works);
      if started then Reported(p2, to, ins) else p2
    else p1
  }

  function EdgesNoted(p: Plant): Plant {
    p.(sec := p.sec.(previousWarning := p.sec.warning.stable, previousTrigger := p.sec.trigger.stable))
  }

  function Serviced(p: Plant, ins: Inputs, now: u32, cfg: Timing, works: nat -> bool): Plant {
    var p1 := InhibitUpdated(LockPromoted(SampledPlant(p, ins, now, cfg), ins), ins, works);
    EdgesNoted(ShocksChecked(AlarmTimed(p1, ins, now, cfg, works), ins, now, works))
  }

  /** restore_persisted_state(): the boot step. */
  function Restored(p: Plant, now: u32, works: nat -> bool): (Plant, bool) {
    var hw := SetInhibitOutput(SetAlarmOutput(p.hw, false, works).0, false, works);
    var armed := p.store.present && p.store.readable && p.store.armed;
    if !armed then (p.(hw := hw, sec := p.sec.(timer := false, mode := Unlocked, recovering := false)), false)
    else
      (p.(hw := hw,
          sec := p.sec.(timer := false, mode := LockPending, engine := Engine(true, true, false, now),
                        recovering := true, previousWarning := false, previousTrigger := false)), true)
  }

  // ---- the firmware's server ------------------------------------------------------------------------------

  /** Output drivers and input pins; the environment decides whether the n-th output write succeeds. */
  class SecurityHardware {
    const works: nat -> bool
    var ins: Inputs
    var alarm: bool
    var inhibit: bool
    var writes: nat

    ghost function State(): Hw
      reads this
    {
      Hw(alarm, inhibit, writes)
    }

    method DriveAlarm(on: bool) returns (ok: bool)
      modifies this
      ensures (State(), ok) == SetAlarmOutput(old(State()), on, works) && ins == old(ins)
    {
      ok := works(writes);
      writes := writes + 1;
      if ok {
        alarm := on;
      }
    }

    method DriveInhibit(on: bool)
      modifies this
      ensures State() == SetInhibitOutput(old(State()), on, works) && ins == old(ins)
    {
      if works(writes) {
        inhibit := on;
      }
      writes := writes + 1;
    }

    constructor (works: nat -> bool, ins: Inputs)
      ensures this.works == works && this.ins == ins && State() == Hw(false, false, 0)
    {
      this.works, this.ins, alarm, inhibit, writes := works, ins, false, false, 0;
    }
  }

  class SecurityPersistence {
    var readable: bool
    var writable: bool
    var armed: bool

    method LoadArmed() returns (ok: bool, value: bool)
      ensures ok == readable && (ok ==> value == armed)
    {
      return readable, readable && armed;
    }

    method SaveArmed(value: bool) returns (ok: bool)
      modifies this`armed
      ensures ok == writable && armed == if ok then value else old(armed)
    {
      ok := writable;
      if ok {
        armed := value;
      }
    }
  }

  class SecurityServer {
    const node: BikeNode
    const hardware: SecurityHardware
    const persistence: SecurityPersistence?
    var cfg: Timing
    var mode: Mode
    var lastController: byte
    var engine: Engine
    var recovering: bool
    var warning: Filter
    var trigger: Filter
    var previousWarning: bool
    var previousTrigger: bool
    var alarmStarted: u32
    var timer: bool

    /** What the current operation handed to the node, and the node before it. */
    ghost var outs: seq<Out>
    ghost var nodeBefore: Io

    ghost predicate Valid()
      reads this`outs, this`nodeBefore, node, node.transport, node.parser, node.parser.buffer, node.rxQueue
    {
      node.Valid() && node.State() == EmitAll(nodeBefore, outs, node.transport.accepts)
    }

    ghost function Fields(): Sec
      reads this
    {
      Sec(mode, lastController, engine, recovering, warning, trigger, previousWarning,
          previousTrigger, alarmStarted, timer)
    }

    ghost function State(): Plant
      reads this, hardware, persistence
    {
      Plant(Fields(), hardware.State(),
            if persistence == null then Store(false, false, false, false)
            else Store(true, persistence.readable, persistence.writable, persistence.armed),
            outs)
    }

    constructor (node: BikeNode, hardware: SecurityHardware, persistence: SecurityPersistence?)
      requires node.Valid()
      ensures this.node == node && this.hardware == hardware && this.persistence == persistence
      ensures Valid() && Fields() == POWER_ON && cfg == Timing(250, 50, 100, 30000) && outs == []
    {
      this.node, this.hardware, this.persistence := node, hardware, persistence;
      cfg := Timing(250, 50, 100, 30000);
      mode, lastController := Unlocked, MAIN_COMPUTER;
      engine, recovering := Engine(false, false, false, 0), false;
      warning, trigger := NO_FILTER, NO_FILTER;
      previousWarning, previousTrigger, alarmStarted, timer := false, false, 0, false;
      outs, nodeBefore := [], node.State();
    }

    /** The history notes start afresh with each operation. */
    ghost method Begin()
      requires node.Valid()
      modifies this
      ensures cfg == old(cfg)
      ensures Valid() && nodeBefore == node.State() && State() == old(State()).(outs := [])
    {
      outs, nodeBefore := [], node.State();
    }

    method UpdateFilteredAssert(raw: bool, f: Filter, confirm: u32, now: u32) returns (next: Filter, changed: bool)
      ensures (next, changed) == Filtered(f, raw, confirm, now)
    {
      next := f;
      if !raw {
        next := next.(pending := false);
        changed := next.stable;
        next := next.(stable := false);
        return;
      }
      if next.stable {
        next := next.(pending := false);
        return next, false;
      }
      if !next.pending {
        next := next.(pending := true, changedAt := now);
        if confirm != 0 {
          return next, false;
        }
      }
      if Elapsed(now, next.changedAt) < confirm {
        return next, false;
      }
      next := next.(stable := true, pending := false);
      return next, true;
    }

    /** The engine part of sample_inputs(). */
    method SampleEngine(raw: bool, now: u32)
      modifies this`engine
      ensures engine == EngineSampled(old(engine), raw, now, cfg.engineStop)
    {
      if !engine.known {
        engine := engine.(running := raw, known := true);
      } else if raw {
        engine := engine.(running := true, stopPending := false);
      } else if engine.running {
        if !engine.stopPending {
          engine := engine.(stopPending := true, stopStarted := now);
        }
        if Elapsed(now, engine.stopStarted) >= cfg.engineStop {
          engine := engine.(running := false, stopPending := false);
        }
      } else {
        engine := engine.(stopPending := false);
      }
    }

    method SampleInputs(now: u32)
      requires Valid()
      ensures Valid() && nodeBefore == old(nodeBefore)
      modifies this
      ensures cfg == old(cfg)
      ensures State() == SampledPlant(old(State()), hardware.ins, now, cfg)
    {
      hide Filtered, EngineSampled, EmitAll, BikeNode.State, BikeNode.Valid, Valid;
      SampleEngine(hardware.ins.engine, now);
      var changed;
      warning, changed := UpdateFilteredAssert(hardware.ins.warning, warning, cfg.warning, now);
      trigger, changed := UpdateFilteredAssert(hardware.ins.trigger, trigger, cfg.trigger, now);
    }

    method UpdateStartInhibit()
      requires Valid()
      ensures Valid() && nodeBefore == old(nodeBefore)
      modifies hardware
      ensures hardware.ins == old(hardware.ins)
      ensures State() == InhibitUpdated(old(State()), hardware.ins, hardware.works)
    {
      hide EmitAll, BikeNode.State, BikeNode.Valid, Valid;
      var engineRunning := if engine.known then engine.running else hardware.ins.engine;
      var should := (mode == Locked || mode == Alarm) && !engineRunning;
      hardware.DriveInhibit(should);
    }

    method PersistArmed(armed: bool)
      requires Valid()
      ensures Valid() && nodeBefore == old(nodeBefore)
      modifies persistence
      ensures State() == Saved(old(State()), armed)
    {
      hide EmitAll, BikeNode.State, BikeNode.Valid, Valid;
      if persistence != null {
        var ok := persistence.SaveArmed(armed);
      }
    }

    method PublishEvent(e: Event, destination: byte, now: u32) returns (ok: bool)
      requires Valid()
      modifies this, node`sequence, node`pending, node.transport`log
      ensures cfg == old(cfg)
      ensures Valid() && nodeBefore == old(nodeBefore)
      ensures State() == Announced(old(State()), e, destination)
    {
      hide WritePacket, EmitAll, BikeNode.State, BikeNode.Valid;
      var packet := Packet(MAIN_COMPUTER, destination, SECURITY_EVENT, 0, 0, [EventCode(e)]);
      EmitNext(nodeBefore, outs, Publish(packet), node.transport.accepts);
      ok := node.Transmit(packet, now, false);
      outs := outs + [Publish(packet)];
    }

    method CurrentState() returns (s: Snapshot)
      ensures s == SnapshotOf(State(), hardware.ins)
    {
      s := Snapshot(mode, hardware.inhibit, hardware.alarm, warning.stable, trigger.stable,
                    if engine.known then engine.running else hardware.ins.engine);
    }

    method PublishState(destination: byte, now: u32) returns (ok: bool)
      requires Valid()
      modifies this, node`sequence, node`pending, node.transport`log
      ensures cfg == old(cfg)
      ensures Valid() && nodeBefore == old(nodeBefore)
      ensures State() == Reported(old(State()), destination, hardware.ins)
      ensures ok == node.transport.accepts(|old(node.transport.log)|)
    {
      hide WritePacket, EmitAll, BikeNode.Valid;
      var s := CurrentState();
      var packet := Packet(MAIN_COMPUTER, destination, SECURITY_STATE, FLAG_RESPONSE, 0,
                           [ModeCode(s.mode), Bit(s.startInhibit), Bit(s.alarmActive), Bit(s.shockWarning),
                            Bit(s.shockTrigger), Bit(s.engineRunning)]);
      EmitNext(nodeBefore, outs, Publish(packet), node.transport.accepts);
      SendOutcome(node.State(), packet, now, node.transport.accepts);
      ok := node.Transmit(packet, now, false);
      outs := outs + [Publish(packet)];
    }

    method Acknowledge(destination: byte, sequence: u16, nack: bool)
      requires Valid()
      modifies this, node.transport`log
      ensures cfg == old(cfg)
      ensures Valid() && nodeBefore == old(nodeBefore)
      ensures State() == old(State()).(outs := old(outs) + [Answer(destination, sequence, nack)])
    {
      hide WritePacket, EmitAll, BikeNode.State, BikeNode.Valid;
      EmitNext(nodeBefore, outs, Answer(destination, sequence, nack), node.transport.accepts);
      var ok := node.TransmitAck(destination, sequence, nack);
      outs := outs + [Answer(destination, sequence, nack)];
    }

    method MakeUnlocked(now: u32)
      requires Valid()
      modifies this, hardware, persistence, node`sequence, node`pending, node.transport`log
      ensures cfg == old(cfg) && hardware.ins == old(hardware.ins)
      ensures Valid() && nodeBefore == old(nodeBefore)
      ensures State() == MadeUnlocked(old(State()), hardware.works)
    {
      hide EmitAll, BikeNode.State, BikeNode.Valid, Valid, SecurityEventPacket, SetAlarmOutput, SetInhibitOutput;
      mode := Unlocked;
      var done := hardware.DriveAlarm(false);
      hardware.DriveInhibit(false);
      timer := false;
      recovering := false;
      PersistArmed(false);
      var sent := PublishEvent(UnlockedEvent, lastController, now);
    }

    method MakeLocked(now: u32)
      requires Valid()
      modifies this, hardware, persistence, node`sequence, node`pending, node.transport`log
      ensures cfg == old(cfg) && hardware.ins == old(hardware.ins)
      ensures Valid() && nodeBefore == old(nodeBefore)
      ensures State() == MadeLocked(old(State()), hardware.ins, hardware.works)
    {
      hide EmitAll, BikeNode.State, BikeNode.Valid, Valid, SecurityEventPacket, SetAlarmOutput, InhibitUpdated;
      var done := hardware.DriveAlarm(false);
      timer := false;
      recovering := false;
      PersistArmed(true);
      if engine.running {
        mode := LockPending;
        var sent := PublishEvent(LockPendingEvent, lastController, now);
      } else {
        mode := Locked;
        var sent := PublishEvent(LockedEvent, lastController, now);
      }
      UpdateStartInhibit();
    }

    method SetLocked(locked: bool, now: u32) returns (ok: bool)
      requires Valid()
      modifies this, hardware, persistence, node`sequence, node`pending, node.transport`log
      ensures cfg == old(cfg) && hardware.ins == old(hardware.ins)
      ensures Valid() && nodeBefore == old(nodeBefore)
      ensures ok && State() == LockedOrUnlocked(old(State()), locked, hardware.ins, now, cfg, hardware.works)
    {
      hide BikeNode.State, BikeNode.Valid, Valid, State, MadeLocked, MadeUnlocked, SampledPlant;
      SampleInputs(now);
      if !locked {
        MakeUnlocked(now);
        return true;
      }
      MakeLocked(now);
      return true;
    }

    method StartAlarm(reportTo: byte, now: u32) returns (ok: bool)
      requires Valid()
      modifies this, hardware, node`sequence, node`pending, node.transport`log
      ensures cfg == old(cfg) && hardware.ins == old(hardware.ins)
      ensures Valid() && nodeBefore == old(nodeBefore)
      ensures (State(), ok) == AlarmStart(old(State()), reportTo, hardware.ins, now, hardware.works)
    {
      hide EmitAll, BikeNode.State, BikeNode.Valid, Valid, SecurityEventPacket, InhibitUpdated;
      if mode != Locked {
        return false;
      }
      ok := hardware.DriveAlarm(true);
      if !ok {
        return false;
      }
      mode := Alarm;
      alarmStarted := now;
      timer := true;
      UpdateStartInhibit();
      var sent := PublishEvent(AlarmStartedEvent, reportTo, now);
      return true;
    }

    method StopAlarm(reportTo: byte, now: u32) returns (ok: bool)
      requires Valid()
      modifies this, hardware, node`sequence, node`pending, node.transport`log
      ensures cfg == old(cfg) && hardware.ins == old(hardware.ins)
      ensures Valid() && nodeBefore == old(nodeBefore)
      ensures (State(), ok) == AlarmStop(old(State()), reportTo, hardware.ins, hardware.works)
    {
      hide EmitAll, BikeNode.State, BikeNode.Valid, Valid;
      ok := hardware.DriveAlarm(false);
      if !ok {
        return false;
      }
      timer := false;
      if mode == Alarm {
        mode := Locked;
      }
      UpdateStartInhibit();
      var sent := PublishEvent(AlarmStoppedEvent, reportTo, now);
      return true;
    }

    /** The switch of handle_command(). */
    method ApplyCommand(raw: byte, source: byte, now: u32) returns (ok: bool)
      requires Valid()
      modifies this, hardware, persistence, node`sequence, node`pending, node.transport`log
      ensures cfg == old(cfg) && hardware.ins == old(hardware.ins)
      ensures Valid() && nodeBefore == old(nodeBefore)
      ensures (State(), ok)
           == CommandApplied(old(State()), CommandOf(raw), source, hardware.ins, now, cfg, hardware.works,
                             node.transport.accepts(|old(node.transport.log)|))
    {
      hide EmitAll, BikeNode.State, BikeNode.Valid, Valid, State, SampledPlant, LockedOrUnlocked, AlarmStop,
           InhibitUpdated, Reported;
      ok := false;
      if raw == 0x01 {
        ok := SetLocked(true, now);
      } else if raw == 0x02 {
        ok := SetLocked(false, now);
      } else if raw == 0x03 {
        ok := StopAlarm(source, now);
      } else if raw == 0x04 {
        SampleInputs(now);
        UpdateStartInhibit();
        ok := PublishState(source, now);
      }
    }

    method HandleCommand(raw: byte, source: byte, sequence: u16, ack: bool, now: u32) returns (ok: bool)
      requires Valid()
      modifies this, hardware, persistence, node`sequence, node`pending, node.transport`log
      ensures cfg == old(cfg) && hardware.ins == old(hardware.ins)
      ensures Valid() && nodeBefore == old(nodeBefore)
      ensures (State(), ok)
           == CommandHandled(old(State()), raw, source, sequence, ack, hardware.ins, now, cfg, hardware.works,
                             node.transport.accepts(|old(node.transport.log)|))
    {
      hide EmitAll, BikeNode.State, BikeNode.Valid, Valid, CommandApplied, SnapshotOf, SecurityStatePacket;
      lastController := source;
      ok := ApplyCommand(raw, source, now);
      if ack {
        Acknowledge(source, sequence, !ok);
      }
      if ok && raw != 0x04 {
        var done := PublishState(source, now);
      }
    }

    method HandlePacket(packet: Packet, now: u32) returns (handled: bool)
      requires node.Valid()
      modifies this, hardware, persistence, node`sequence, node`pending, node.transport`log
      ensures cfg == old(cfg) && hardware.ins == old(hardware.ins)
      ensures Valid() && nodeBefore == old(node.State())
      ensures (State(), handled)
           == PacketHandled(old(State()).(outs := []), packet, hardware.ins, now, cfg, hardware.works,
                            node.transport.accepts(|old(node.transport.log)|))
    {
      hide BikeNode.State, BikeNode.Valid, CommandHandled;
      Begin();
      if packet.kind != SECURITY_COMMAND {
        return false;
      }
      if |packet.payload| != 1 {
        if packet.flags % 2 != 0 {
          Acknowledge(packet.source, packet.sequence, true);
        }
        return true;
      }
      handled := HandleCommand(packet.payload[0], packet.source, packet.sequence, packet.flags % 2 != 0, now);
    }

    method PromoteLock(now: u32)
      requires Valid()
      modifies this, hardware, node`sequence, node`pending, node.transport`log
      ensures cfg == old(cfg) && hardware.ins == old(hardware.ins)
      ensures Valid() && nodeBefore == old(nodeBefore)
      ensures State() == LockPromoted(old(State()), hardware.ins)
    {
      hide EmitAll, BikeNode.State, BikeNode.Valid, Valid, SecurityEventPacket, SecurityStatePacket, SnapshotOf;
      if mode == LockPending && !engine.running {
        mode := Locked;
        recovering := false;
        var sent := PublishEvent(LockedEvent, lastController, now);
        sent := PublishState(lastController, now);
      }
    }

    method TimeAlarm(now: u32)
      requires Valid()
      modifies this, hardware, node`sequence, node`pending, node.transport`log
      ensures cfg == old(cfg) && hardware.ins == old(hardware.ins)
      ensures Valid() && nodeBefore == old(nodeBefore)
      ensures State() == AlarmTimed(old(State()), hardware.ins, now, cfg, hardware.works)
    {
      hide EmitAll, BikeNode.State, BikeNode.Valid, Valid, SecurityStatePacket, SnapshotOf, AlarmStop;
      if mode == Alarm && timer && Elapsed(now, alarmStarted) >= cfg.alarm {
        var to := lastController;
        var stopped := StopAlarm(to, now);
        var sent := PublishState(to, now);
      }
    }

    method CheckShocks(now: u32)
      requires Valid()
      modifies this, hardware, node`sequence, node`pending, node.transport`log
      ensures cfg == old(cfg) && hardware.ins == old(hardware.ins)
      ensures Valid() && nodeBefore == old(nodeBefore)
      ensures State() == ShocksChecked(old(State()), hardware.ins, now, hardware.works)
    {
      hide EmitAll, BikeNode.State, BikeNode.Valid, Valid, SecurityEventPacket, SecurityStatePacket, SnapshotOf,
           AlarmStart;
      var to := lastController;
      if mode == Locked && warning.stable && !previousWarning {
        var sent := PublishEvent(ShockWarningEvent, to, now);
      }
      if mode == Locked && trigger.stable && !previousTrigger {
        var sent := PublishEvent(ShockTriggerEvent, to, now);
        var started := StartAlarm(to, now);
        if started {
          sent := PublishState(to, now);
        }
      }
    }

    method NoteEdges()
      requires Valid()
      modifies this
      ensures cfg == old(cfg) && Valid() && nodeBefore == old(nodeBefore)
      ensures State() == EdgesNoted(old(State()))
    {
      hide EmitAll, BikeNode.State, BikeNode.Valid;
      previousWarning := warning.stable;
      previousTrigger := trigger.stable;
    }

    method Service(now: u32)
      requires node.Valid()
      modifies this, hardware, node`sequence, node`pending, node.transport`log
      ensures cfg == old(cfg) && hardware.ins == old(hardware.ins)
      ensures Valid() && nodeBefore == old(node.State())
      ensures State() == Serviced(old(State()).(outs := []), hardware.ins, now, cfg, hardware.works)
    {
      hide BikeNode.State, BikeNode.Valid, Valid, State, SampledPlant, LockPromoted, InhibitUpdated, AlarmTimed,
           ShocksChecked, EdgesNoted;
      Begin();
      SampleInputs(now);
      PromoteLock(now);
      UpdateStartInhibit();
      TimeAlarm(now);
      CheckShocks(now);
      NoteEdges();
    }

    method RestorePersistedState(now: u32) returns (restored: bool)
      modifies this, hardware
      ensures cfg == old(cfg) && hardware.ins == old(hardware.ins)
      ensures (State(), restored) == Restored(old(State()), now, hardware.works)
    {
      hide SetAlarmOutput, SetInhibitOutput;
      var done := hardware.DriveAlarm(false);
      hardware.DriveInhibit(false);
      timer := false;
      var loaded, armed := false, false;
      if persistence != null {
        loaded, armed := persistence.LoadArmed();
      }
      if persistence == null || !loaded || !armed {
        mode := Unlocked;
        recovering := false;
        return false;
      }
      mode := LockPending;
      engine := Engine(true, true, false, now);
      recovering := true;
      previousWarning := false;
      previousTrigger := false;
      return true;
    }
  }
}
