/** What the security controller must do: every command byte by byte, every report, and alarms that start and last. */
module SecurityEffects {
  import opened Bytes
  import opened Codec
  import opened Node
  import opened SecurityMessages
  import opened Security
  import opened SecurityRuns

  // ---- messages, byte by byte ------------------------------------------------------------------------------

  function ModeByte(m: Mode): byte {
    match m
    case Unlocked => 0x00
    case Locked => 0x01
    case Alarm => 0x02
    case LockPending => 0x03
  }

  /** The state report of this plant. */
  function ReportOf(p: Plant, ins: Inputs, to: byte): Out {
    Publish(Packet(0x01, to, 0x71, 0x02, 0,
                   [ModeByte(p.sec.mode), if p.hw.inhibit then 1 else 0, if p.hw.alarm then 1 else 0,
                    if p.sec.warning.stable then 1 else 0, if p.sec.trigger.stable then 1 else 0,
                    if (if p.sec.engine.known then p.sec.engine.running else ins.engine) then 1 else 0]))
  }

  function EventOut(code: byte, to: byte): Out {
    Publish(Packet(0x01, to, 0x72, 0x00, 0, [code]))
  }

  /** The ACK or NACK, where one is asked for. */
  function Asked(p: Packet, failed: bool): seq<Out> {
    if p.flags % 2 == 1 then [Answer(p.source, p.sequence, failed)] else []
  }

  // ---- commands ------------------------------------------------------------------------------------------------

  /** A one-byte security command. */
  predicate Commands(op: Op, code: byte) {
    op.PacketOp? && op.packet.kind == 0x70 && op.packet.payload == [code]
  }

  /** What handle_packet() returns. */
  predicate Accepted(p: Plant, op: Op, cfg: Timing, works: nat -> bool)
    requires op.PacketOp?
  {
    PacketHandled(p.(outs := []), op.packet, op.ins, Clock(op.t), cfg, works, op.sent).1
  }

  function EngineAfter(p: Plant, op: Op, cfg: Timing): Engine {
    EngineSampled(p.sec.engine, op.ins.engine, Clock(op.t), cfg.engineStop)
  }

  /**
   0x01 locks: the bike is armed, at once if the engine is then believed stopped, else pending; the intent is stored;
   the alarm is off and the start inhibited exactly if locked; the commander gets the event, an ACK, and the state.
   */
  lemma LockCommandEffect(p: Plant, op: Op, cfg: Timing, works: nat -> bool)
    requires Commands(op, 0x01)
    ensures var r, e, to := Do(p, op, cfg, works), EngineAfter(p, op, cfg), op.packet.source;
      && r.sec.mode == (if e.running then LockPending else Locked)
      && r.sec.lastController == to && !r.sec.timer && !r.sec.recovering && r.sec.engine == e
      && r.store == (if p.store.present && p.store.writable then p.store.(armed := true) else p.store)
      && ((forall n :: works(n)) ==> !r.hw.alarm && (r.hw.inhibit <==> !e.running))
      && r.outs == [EventOut(if e.running then 0x07 else 0x05, to)] + Asked(op.packet, false)
                   + [ReportOf(r, op.ins, to)]
    ensures Accepted(p, op, cfg, works)
  {
    EngineIsKnown(p.sec.engine, op.ins.engine, Clock(op.t), cfg.engineStop);
    hide Filtered, EngineSampled;
  }

  /**
   0x02 unlocks: disarmed, both outputs off, the intent stored; the commander gets the event, an ACK and the state.
   */
  lemma UnlockCommandEffect(p: Plant, op: Op, cfg: Timing, works: nat -> bool)
    requires Commands(op, 0x02)
    ensures var r, to := Do(p, op, cfg, works), op.packet.source;
      && r.sec.mode == Unlocked && r.sec.lastController == to && !r.sec.timer && !r.sec.recovering
      && r.store == (if p.store.present && p.store.writable then p.store.(armed := false) else p.store)
      && ((forall n :: works(n)) ==> !r.hw.alarm && !r.hw.inhibit)
      && r.outs == [EventOut(0x06, to)] + Asked(op.packet, false) + [ReportOf(r, op.ins, to)]
    ensures Accepted(p, op, cfg, works)
  {
    hide Filtered, EngineSampled;
  }

  /**
   0x03 silences: if the output takes it, the alarm is off, an alarm falls back to locked, and the commander gets the
   event, an ACK and the state; if not, the commander gets a NACK and nothing else happens. No input is sampled.
   */
  lemma SilenceCommandEffect(p: Plant, op: Op, cfg: Timing, works: nat -> bool)
    requires Commands(op, 0x03)
    ensures var r, to := Do(p, op, cfg, works), op.packet.source;
      && SameFilters(p.sec, r.sec) && r.sec.lastController == to && r.store == p.store
      && if works(p.hw.writes) then
           && r.sec.mode == (if p.sec.mode == Alarm then Locked else p.sec.mode) && !r.sec.timer && !r.hw.alarm
           && r.outs == [EventOut(0x04, to)] + Asked(op.packet, false) + [ReportOf(r, op.ins, to)]
         else
           && r.sec == p.sec.(lastController := to) && r.hw == p.hw.(writes := p.hw.writes + 1)
           && r.outs == Asked(op.packet, true)
    ensures Accepted(p, op, cfg, works) == works(p.hw.writes)
  {
  }

  /** 0x04 samples the inputs and reports the state, once; the answer says whether the report was sent. */
  lemma RequestCommandEffect(p: Plant, op: Op, cfg: Timing, works: nat -> bool)
    requires Commands(op, 0x04)
    ensures var r, to := Do(p, op, cfg, works), op.packet.source;
      && r.sec == InputsSampled(p.sec, op.ins, Clock(op.t), cfg).(lastController := to) && r.store == p.store
      && r.hw.alarm == p.hw.alarm
      && r.outs == [ReportOf(r, op.ins, to)] + Asked(op.packet, !op.sent)
    ensures Accepted(p, op, cfg, works) == op.sent
  {
    hide Filtered, EngineSampled;
  }

  /** Any other command byte, and any other length, is refused: a NACK if an answer was asked for, and nothing else. */
  lemma OtherCommandRefused(p: Plant, op: Op, cfg: Timing, works: nat -> bool)
    requires op.PacketOp? && op.packet.kind == 0x70
    requires |op.packet.payload| != 1 || op.packet.payload[0] == 0x00 || op.packet.payload[0] > 0x04
    ensures var r := Do(p, op, cfg, works);
      && r.sec == (if |op.packet.payload| == 1 then p.sec.(lastController := op.packet.source) else p.sec)
      && r.hw == p.hw && r.store == p.store && r.outs == Asked(op.packet, true)
    ensures Accepted(p, op, cfg, works) == (|op.packet.payload| != 1)
  {
  }

  /** Packets of other kinds are not for the security server. */
  lemma OtherPacketIgnored(p: Plant, op: Op, cfg: Timing, works: nat -> bool)
    requires op.PacketOp? && op.packet.kind != 0x70
    ensures Do(p, op, cfg, works) == p.(outs := [])
    ensures !Accepted(p, op, cfg, works)
  {
  }

  // ---- service calls --------------------------------------------------------------------------------------------

  /** The alarm's time is over. */
  predicate AlarmOver(p: Plant, op: Op, cfg: Timing) {
    p.sec.mode == Alarm && p.sec.timer && Elapsed(Clock(op.t), p.sec.alarmStarted) >= cfg.alarm
  }

  /** A pending lock takes hold. */
  predicate TakesHold(p: Plant, op: Op, cfg: Timing) {
    p.sec.mode == LockPending && !EngineAfter(p, op, cfg).running
  }

  function WarningAfter(p: Plant, op: Op, cfg: Timing): Filter {
    Filtered(p.sec.warning, op.ins.warning, cfg.warning, Clock(op.t)).0
  }

  function TriggerAfter(p: Plant, op: Op, cfg: Timing): Filter {
    Filtered(p.sec.trigger, op.ins.trigger, cfg.trigger, Clock(op.t)).0
  }

  /**
   With working outputs, everything a service call does and tells: filters and edge memory; a pending lock that takes
   hold; an alarm whose time is over; a new warning, a new trigger, and the alarm the trigger starts, siren included.
   */
  lemma ServiceTells(p: Plant, op: Op, cfg: Timing, works: nat -> bool)
    requires op.ServiceOp? && forall n :: works(n)
    ensures var r, e, to := Do(p, op, cfg, works), EngineAfter(p, op, cfg), p.sec.lastController;
      var holds, over := TakesHold(p, op, cfg), AlarmOver(p, op, cfg);
      var watching := p.sec.mode == Locked || holds || over;
      var warned := watching && WarningAfter(p, op, cfg).stable && !p.sec.previousWarning;
      var shocked := watching && TriggerAfter(p, op, cfg).stable && !p.sec.previousTrigger;
      && r.sec.mode == (if shocked then Alarm else if watching then Locked else p.sec.mode)
      && r.hw.alarm == (if shocked then true else if over then false else p.hw.alarm)
      && r.hw.inhibit == ((r.sec.mode == Locked || r.sec.mode == Alarm) && !e.running)
      && r.sec.timer == (if shocked then true else if over then false else p.sec.timer)
      && r.sec.alarmStarted == (if shocked then Clock(op.t) else p.sec.alarmStarted)
      && r.sec.recovering == (!holds && p.sec.recovering)
      && r.sec.engine == e && r.sec.warning == WarningAfter(p, op, cfg) && r.sec.trigger == TriggerAfter(p, op, cfg)
      && r.sec.previousWarning == r.sec.warning.stable && r.sec.previousTrigger == r.sec.trigger.stable
      && r.store == p.store && r.sec.lastController == to
      && r.outs
         == (if holds then [EventOut(0x05, to), ReportOf(r.(sec := r.sec.(mode := Locked), hw := p.hw), op.ins, to)]
             else if over then
               [EventOut(0x04, to),
                ReportOf(r.(sec := r.sec.(mode := Locked), hw := r.hw.(alarm := false)), op.ins, to)]
             else [])
            + (if warned then [EventOut(0x01, to)] else [])
            + (if shocked then [EventOut(0x02, to), EventOut(0x03, to), ReportOf(r, op.ins, to)] else [])
  {
    hide Filtered, EngineSampled, Do, Prepared, ShocksChecked, ReportOf, EventOut;
    EngineIsKnown(p.sec.engine, op.ins.engine, Clock(op.t), cfg.engineStop);
    ServiceBefore(p, op, cfg, works);
    var q, r, to := Prepared(p, op, cfg, works), Do(p, op, cfg, works), p.sec.lastController;
    var checked := ShocksChecked(q, op.ins, Clock(op.t), works);
    ShocksTell(q, op.ins, Clock(op.t), works);
    ServiceParts(p, op, cfg, works);
    if TakesHold(p, op, cfg) {
      ReportDepends(q.(hw := p.hw), r.(sec := r.sec.(mode := Locked), hw := p.hw), op.ins, to);
    }
    if AlarmOver(p, op, cfg) {
      ReportDepends(q, r.(sec := r.sec.(mode := Locked), hw := r.hw.(alarm := false)), op.ins, to);
    }
    ReportDepends(checked, r, op.ins, to);
  }

  lemma ReportDepends(a: Plant, b: Plant, ins: Inputs, to: byte)
    requires a.sec.mode == b.sec.mode && a.hw.inhibit == b.hw.inhibit && a.hw.alarm == b.hw.alarm
    requires a.sec.warning == b.sec.warning && a.sec.trigger == b.sec.trigger && a.sec.engine == b.sec.engine
    ensures ReportOf(a, ins, to) == ReportOf(b, ins, to)
  {
  }

  /** The service call up to its shock check. */
  lemma ServiceBefore(p: Plant, op: Op, cfg: Timing, works: nat -> bool)
    requires op.ServiceOp? && forall n :: works(n)
    ensures var q, e, to := Prepared(p, op, cfg, works), EngineAfter(p, op, cfg), p.sec.lastController;
      var holds, over := TakesHold(p, op, cfg), AlarmOver(p, op, cfg);
      && q.sec == p.sec.(mode := if holds || over then Locked else p.sec.mode, engine := e,
                         recovering := !holds && p.sec.recovering, warning := WarningAfter(p, op, cfg),
                         trigger := TriggerAfter(p, op, cfg), timer := !over && p.sec.timer)
      && q.hw.alarm == (!over && p.hw.alarm)
      && q.hw.inhibit == ((q.sec.mode == Locked || q.sec.mode == Alarm) && !e.running)
      && q.store == p.store
      && q.outs == if holds then [EventOut(0x05, to), ReportOf(q.(hw := p.hw), op.ins, to)]
                   else if over then [EventOut(0x04, to), ReportOf(q, op.ins, to)] else []
  {
    hide Filtered, EngineSampled;
    EngineIsKnown(p.sec.engine, op.ins.engine, Clock(op.t), cfg.engineStop);
  }

  /** The shock check, on whatever it finds. */
  lemma ShocksTell(q: Plant, ins: Inputs, now: u32, works: nat -> bool)
    requires q.sec.engine.known && forall n :: works(n)
    requires q.hw.inhibit == ((q.sec.mode == Locked || q.sec.mode == Alarm) && !q.sec.engine.running)
    ensures var r, to := ShocksChecked(q, ins, now, works), q.sec.lastController;
      var warned := q.sec.mode == Locked && q.sec.warning.stable && !q.sec.previousWarning;
      var shocked := q.sec.mode == Locked && q.sec.trigger.stable && !q.sec.previousTrigger;
      && r.sec == (if shocked then q.sec.(mode := Alarm, alarmStarted := now, timer := true) else q.sec)
      && r.hw.alarm == (shocked || q.hw.alarm) && r.hw.inhibit == q.hw.inhibit && r.store == q.store
      && r.outs == q.outs + (if warned then [EventOut(0x01, to)] else [])
                   + (if shocked then [EventOut(0x02, to), EventOut(0x03, to), ReportOf(r, ins, to)] else [])
  {
  }

  /** An output that refuses the alarm leaves everything as it was, but for the attempt. */
  lemma AlarmStartRefused(p: Plant, to: byte, ins: Inputs, now: u32, works: nat -> bool)
    ensures var (r, ok) := AlarmStart(p, to, ins, now, works);
      && (ok <==> p.sec.mode == Locked && works(p.hw.writes))
      && (!ok ==> r == if p.sec.mode == Locked then p.(hw := p.hw.(writes := p.hw.writes + 1)) else p)
  {
  }

  /** A filter step tells whether it changed the filtered value; release is at once, and ends any pending assertion. */
  lemma FilterTells(f: Filter, raw: bool, confirm: u32, now: u32)
    ensures var (f', changed) := Filtered(f, raw, confirm, now);
      && (changed <==> f'.stable != f.stable)
      && (!raw ==> !f'.stable && !f'.pending) && (f'.stable ==> !f'.pending)
  {
  }

  // ---- an alarm lasts ---------------------------------------------------------------------------------------------

  /** A Lock, Unlock or SilenceAlarm command. */
  predicate Stops(op: Op) {
    Commands(op, 0x01) || Commands(op, 0x02) || Commands(op, 0x03)
  }

  /**
   Whatever writes fail, an alarm goes on, siren and all, through any operation that neither stops it nor finds it
   over.
   */
  lemma AlarmContinues(p: Plant, op: Op, cfg: Timing, works: nat -> bool)
    requires p.sec.mode == Alarm && !Stops(op) && !(op.ServiceOp? && AlarmOver(p, op, cfg))
    ensures var r := Do(p, op, cfg, works);
      r.sec.mode == Alarm && r.hw.alarm == p.hw.alarm && r.sec.timer == p.sec.timer
      && r.sec.alarmStarted == p.sec.alarmStarted
  {
    hide Filtered, EngineSampled, SecurityStatePacket, SnapshotOf;
    if op.PacketOp? && op.packet.kind == 0x70 && |op.packet.payload| == 1 {
      assert op.packet.payload == [op.packet.payload[0]];
      if op.packet.payload[0] == 0x04 {
        RequestCommandEffect(p, op, cfg, works);
        hide InputsSampled;
      }
    }
  }

  /**
   The alarm lasts: from its start on, for less than alarm_duration_ms of real time, every operation that is not a
   Lock, Unlock or SilenceAlarm command leaves it on, whatever writes fail.
   */
  lemma {:induction false} AlarmLasts(p: Plant, t0: nat, ops: seq<Op>, cfg: Timing, works: nat -> bool)
    requires p.sec.mode == Alarm && p.sec.timer && p.sec.alarmStarted == Clock(t0)
    requires forall op :: op in ops ==> t0 <= op.t < t0 + cfg.alarm && !Stops(op)
    ensures var r := After(p, ops, cfg, works);
      r.sec.mode == Alarm && r.sec.timer && r.sec.alarmStarted == Clock(t0) && r.hw.alarm == p.hw.alarm
  {
    hide Do, Stops;
    if ops != [] {
      var n := |ops| - 1;
      AlarmLasts(p, t0, ops[..n], cfg, works);
      assert ops[n] in ops;
      ElapsedIsModular(ops[n].t, t0);
      AlarmContinues(After(p, ops[..n], cfg, works), ops[n], cfg, works);
    }
  }

  // ---- an alarm starts ----------------------------------------------------------------------------------------------

  /** What the trigger filter knows of the trigger samples since power-on. */
  ghost predicate FilterTracks(f: Filter, h: seq<Sample>, confirm: u32) {
    if h == [] || !h[|h| - 1].level then !f.stable && !f.pending
    else
      var span := h[|h| - 1].t - h[RunStart(h)].t;
      && SteadyFrom(h, RunStart(h), true)
      && (f.stable ==> span >= confirm && !f.pending) && (confirm <= span < TWO32 ==> f.stable)
      && (!f.stable ==> f.pending && f.changedAt == Clock(h[RunStart(h)].t))
  }

  lemma FilterSampleTracks(f: Filter, h: seq<Sample>, x: Sample, confirm: u32)
    requires FilterTracks(f, h, confirm) && Ordered(h + [x])
    ensures FilterTracks(Filtered(f, x.level, confirm, Clock(x.t)).0, h + [x], confirm)
  {
    hide RunStart, Elapsed, Clock;
    var h' := h + [x];
    RunStartGrows(h, x);
    if x.level {
      var start := RunStart(h');
      assert h'[start].t <= h'[|h|].t && (|h| > 0 && start < |h| ==> h'[start].t <= h'[|h| - 1].t <= h'[|h|].t);
      ElapsedIsModular(x.t, h'[start].t);
    }
  }

  lemma {:induction false} TriggerSinceBoot(p: Plant, ops: seq<Op>, cfg: Timing, works: nat -> bool)
    requires InOrder(ops) && !p.sec.trigger.stable && !p.sec.trigger.pending
    ensures FilterTracks(After(p, ops, cfg, works).sec.trigger, Readings(ops, TriggerPin), cfg.trigger)
  {
    hide Do, Filtered;
    if ops != [] {
      hide FilterTracks;
      var n := |ops| - 1;
      InOrderPrefix(ops, n);
      TriggerSinceBoot(p, ops[..n], cfg, works);
      DoSamples(After(p, ops[..n], cfg, works), ops[n], cfg, works);
      ReadingsInOrder(ops, TriggerPin);
      if Samples(ops[n]) {
        FilterSampleTracks(After(p, ops[..n], cfg, works).sec.trigger, Readings(ops[..n], TriggerPin),
                           Sample(ops[n].t, ops[n].ins.trigger), cfg.trigger);
      } else {
        assert Readings(ops, TriggerPin) == Readings(ops[..n], TriggerPin);
      }
    }
  }

  /** The run up to and including its last service call; empty if there is none. */
  function ThroughService(ops: seq<Op>): seq<Op> {
    if ops == [] || ops[|ops| - 1].ServiceOp? then ops else ThroughService(ops[..|ops| - 1])
  }

  lemma {:induction false} EdgeMemory(p: Plant, ops: seq<Op>, cfg: Timing, works: nat -> bool)
    requires InOrder(ops)
    ensures InOrder(ThroughService(ops))
    ensures var seen := ThroughService(ops);
      After(p, ops, cfg, works).sec.previousTrigger
      == if seen == [] then p.sec.previousTrigger else After(p, seen, cfg, works).sec.trigger.stable
  {
    hide Do;
    if ops != [] {
      var n := |ops| - 1;
      InOrderPrefix(ops, n);
      DoSamples(After(p, ops[..n], cfg, works), ops[n], cfg, works);
      EdgeMemory(p, ops[..n], cfg, works);
    }
  }

  /** The newest trigger samples are high over at least `confirm`, and less than one clock wrap, of real time. */
  ghost predicate Held(h: seq<Sample>, confirm: u32) {
    h != [] && h[|h| - 1].level && confirm <= h[|h| - 1].t - h[RunStart(h)].t < TWO32
  }

  /** They are low, or high for less than `confirm`, or there are none. */
  ghost predicate NotYetHeld(h: seq<Sample>, confirm: u32) {
    h == [] || !h[|h| - 1].level || h[|h| - 1].t - h[RunStart(h)].t < confirm
  }

  /**
   The theft alarm sounds: over any run from boot, with working outputs, a service call that finds the bike locked and
   the trigger held high for trigger_confirm_ms, where the service call before had not yet found it so, starts the
   alarm: mode Alarm, the siren on, the timer running from now, and the start announced.
   */
  lemma AlarmSounds(hw: Hw, store: Store, t: nat, ops: seq<Op>, cfg: Timing, works: nat -> bool)
    requires InOrder(ops) && ops != [] && ops[|ops| - 1].ServiceOp? && forall n :: works(n)
    ensures var boot, init := Booted(hw, store, t, works), ops[..|ops| - 1];
      var r := After(boot, ops, cfg, works);
      && After(boot, init, cfg, works).sec.mode == Locked
      && Held(Readings(ops, TriggerPin), cfg.trigger)
      && NotYetHeld(Readings(ThroughService(init), TriggerPin), cfg.trigger)
      ==> r.sec.mode == Alarm && r.hw.alarm && r.sec.timer && r.sec.alarmStarted == Clock(ops[|ops| - 1].t)
          && EventOut(0x03, r.sec.lastController) in r.outs
  {
    hide Do, Booted, Filtered, EngineSampled, ReportOf;
    var boot, n := Booted(hw, store, t, works), |ops| - 1;
    var init := ops[..n];
    BootTrigger(hw, store, t, works);
    InOrderPrefix(ops, n);
    EdgeMemory(boot, init, cfg, works);
    TriggerSinceBoot(boot, ThroughService(init), cfg, works);
    TriggerSinceBoot(boot, ops, cfg, works);
    DoSamples(After(boot, init, cfg, works), ops[n], cfg, works);
    ServiceTells(After(boot, init, cfg, works), ops[n], cfg, works);
  }

  lemma BootTrigger(hw: Hw, store: Store, t: nat, works: nat -> bool)
    ensures var s := Booted(hw, store, t, works).sec;
      !s.trigger.stable && !s.trigger.pending && !s.previousTrigger && !s.previousWarning
  {
  }

  // ---- restart ------------------------------------------------------------------------------------------------------

  /**
   The boot step: both outputs are driven off and no alarm is timed; a stored armed intent is only pending, with the
   engine believed running until it has been seen stopped from now on; otherwise the bike is unlocked.
   */
  lemma RestoreEffect(p: Plant, now: u32, works: nat -> bool)
    ensures var (r, restored) := Restored(p, now, works);
      && restored == (p.store.present && p.store.readable && p.store.armed)
      && r.store == p.store && r.outs == p.outs && r.hw.writes == p.hw.writes + 2
      && r.hw.alarm == (!works(p.hw.writes) && p.hw.alarm)
      && r.hw.inhibit == (!works(p.hw.writes + 1) && p.hw.inhibit)
      && r.sec == if restored then
           Sec(LockPending, p.sec.lastController, Engine(true, true, false, now), true, p.sec.warning, p.sec.trigger,
               false, false, p.sec.alarmStarted, false)
         else p.sec.(mode := Unlocked, recovering := false, timer := false)
  {
  }
}
