/** What the security controller guarantees over whole runs, in real time across clock wrap. */
module SecurityRuns {
  import opened Bytes
  import opened Codec
  import opened Node
  import opened SecurityMessages
  import opened Security

  /** One operation, with its real time, what the pins read, and whether the node took a requested report. */
  datatype Op =
    | PacketOp(packet: Packet, t: nat, ins: Inputs, sent: bool)
    | ServiceOp(t: nat, ins: Inputs)

  function Do(p: Plant, op: Op, cfg: Timing, works: nat -> bool): Plant {
    var p0 := p.(outs := []);
    match op
    case PacketOp(packet, t, ins, sent) => PacketHandled(p0, packet, ins, Clock(t), cfg, works, sent).0
    case ServiceOp(t, ins) => Serviced(p0, ins, Clock(t), cfg, works)
  }

  function After(p: Plant, ops: seq<Op>, cfg: Timing, works: nat -> bool): Plant {
    if ops == [] then p else Do(After(p, ops[..|ops| - 1], cfg, works), ops[|ops| - 1], cfg, works)
  }

  /** Power-on with whatever the storage holds and the outputs show. */
  function Powered(hw: Hw, store: Store): Plant {
    Plant(POWER_ON, hw, store, [])
  }

  /** The firmware's boot: power on and restore the persisted intent. */
  function Booted(hw: Hw, store: Store, t: nat, works: nat -> bool): Plant {
    Restored(Powered(hw, store), Clock(t), works).0
  }

  predicate RestoredArmed(store: Store) {
    store.present && store.readable && store.armed
  }

  ghost predicate InOrder(ops: seq<Op>) {
    forall i, j :: 0 <= i <= j < |ops| ==> ops[i].t <= ops[j].t
  }

  lemma InOrderPrefix(ops: seq<Op>, n: nat)
    requires InOrder(ops) && n <= |ops|
    ensures InOrder(ops[..n])
  {
  }

  predicate CommandSamples(command: Option<Command>) {
    command == Some(LockCommand) || command == Some(UnlockCommand) || command == Some(RequestStateCommand)
  }

  /** The operation reads the input pins: a service call, or a Lock, Unlock or RequestState command. */
  predicate Samples(op: Op) {
    op.ServiceOp?
    || (op.packet.kind == SECURITY_COMMAND && |op.packet.payload| == 1
        && CommandSamples(CommandOf(op.packet.payload[0])))
  }

  datatype Pin = EnginePin | TriggerPin

  /** The samples of one pin over a run. */
  function Readings(ops: seq<Op>, pin: Pin): seq<Sample> {
    if ops == [] then []
    else
      var op := ops[|ops| - 1];
      Readings(ops[..|ops| - 1], pin)
      + if Samples(op) then [Sample(op.t, if pin == EnginePin then op.ins.engine else op.ins.trigger)] else []
  }

  lemma {:induction false} ReadingsInOrder(ops: seq<Op>, pin: Pin)
    requires InOrder(ops)
    ensures Ordered(Readings(ops, pin))
    ensures ops != [] && Readings(ops, pin) != [] ==> Readings(ops, pin)[|Readings(ops, pin)| - 1].t <= ops[|ops| - 1].t
  {
    hide Samples, Ordered;
    if ops == [] {
      OrderedGrows([], Sample(0, false));
    } else {
      var n := |ops| - 1;
      InOrderPrefix(ops, n);
      ReadingsInOrder(ops[..n], pin);
      if Samples(ops[n]) {
        assert n > 0 ==> ops[..n][n - 1].t <= ops[n].t;
        OrderedGrows(Readings(ops[..n], pin), Readings(ops, pin)[|Readings(ops, pin)| - 1]);
      } else {
        assert Readings(ops, pin) == Readings(ops[..n], pin);
      }
    }
  }

  lemma OrderedGrows(h: seq<Sample>, s: Sample)
    requires h != [] ==> Ordered(h) && h[|h| - 1].t <= s.t
    ensures Ordered(h + [s]) && Ordered([])
  {
    assert h != [] ==> forall i :: 0 <= i < |h| ==> h[i].t <= h[|h| - 1].t;
  }

  // ---- what an operation can change ---------------------------------------------------------------------

  /** The inhibit output is on exactly in Locked or Alarm with the engine believed stopped. */
  predicate InhibitMatches(p: Plant) {
    && (p.hw.inhibit <==> (p.sec.mode == Locked || p.sec.mode == Alarm) && !p.sec.engine.running)
    && (p.sec.mode != Unlocked ==> p.sec.engine.known)
  }

  /** The alarm output is on exactly in Alarm, which is exactly while the timer runs. */
  predicate AlarmMatches(p: Plant) {
    (p.hw.alarm <==> p.sec.mode == Alarm) && (p.sec.timer <==> p.sec.mode == Alarm)
  }

  /** The stored flag tells whether the bike is armed. */
  predicate Persists(p: Plant) {
    p.store.present && p.store.readable && p.store.writable && (p.store.armed <==> p.sec.mode != Unlocked)
  }

  /** Any output but the announcement of an alarm start. */
  predicate Quiet(o: Out) {
    o.Publish? && o.packet.kind == SECURITY_EVENT ==> o.packet.payload != [EventCode(AlarmStartedEvent)]
  }

  ghost predicate AllQuiet(p: Plant) {
    forall o :: o in p.outs ==> Quiet(o)
  }

  predicate SameFilters(a: Sec, b: Sec) {
    a.engine == b.engine && a.warning == b.warning && a.trigger == b.trigger
  }

  predicate SameEdges(a: Sec, b: Sec) {
    a.previousWarning == b.previousWarning && a.previousTrigger == b.previousTrigger
  }

  /**
   A step from `p` to `r`, with filters as in `s`, that starts no alarm: it keeps edge memory, persistence
   and, with working outputs, the meaning of both outputs.
   */
  ghost predicate Calm(p: Plant, s: Sec, r: Plant, works: nat -> bool) {
    && SameFilters(s, r.sec) && SameEdges(p.sec, r.sec)
    && (AllQuiet(p) ==> AllQuiet(r))
    && (Persists(p) ==> Persists(r))
    && (r.sec.mode == Alarm ==> p.sec.mode == Alarm && r.sec.alarmStarted == p.sec.alarmStarted)
    && ((forall n :: works(n)) && InhibitMatches(p) && AlarmMatches(p) ==> InhibitMatches(r) && AlarmMatches(r))
  }

  lemma LockIsCalm(p: Plant, lock: bool, ins: Inputs, now: u32, cfg: Timing, works: nat -> bool)
    ensures Calm(p, InputsSampled(p.sec, ins, now, cfg), LockedOrUnlocked(p, lock, ins, now, cfg, works), works)
  {
    hide Filtered;
    EngineIsKnown(p.sec.engine, ins.engine, now, cfg.engineStop);
    hide EngineSampled;
    var p0 := SampledPlant(p, ins, now, cfg);
    if lock {
      LockedParts(p0, ins, works);
    } else {
      UnlockedParts(p0, works);
    }
  }

  lemma EngineIsKnown(e: Engine, raw: bool, now: u32, confirm: u32)
    ensures EngineSampled(e, raw, now, confirm).known
  {
  }

  lemma LockedParts(p: Plant, ins: Inputs, works: nat -> bool)
    ensures var r := MadeLocked(p, ins, works);
      && SameFilters(p.sec, r.sec) && SameEdges(p.sec, r.sec) && (AllQuiet(p) ==> AllQuiet(r))
      && r.sec.mode == (if p.sec.engine.running then LockPending else Locked) && !r.sec.timer
      && ((forall n :: works(n)) && p.sec.engine.known ==>
            !r.hw.alarm && (r.hw.inhibit <==> r.sec.mode == Locked && !p.sec.engine.running))
      && r.store == if p.store.present && p.store.writable then p.store.(armed := true) else p.store
  {
  }

  lemma UnlockedParts(p: Plant, works: nat -> bool)
    ensures var r := MadeUnlocked(p, works);
      && SameFilters(p.sec, r.sec) && SameEdges(p.sec, r.sec) && (AllQuiet(p) ==> AllQuiet(r))
      && r.sec.mode == Unlocked && !r.sec.timer
      && ((forall n :: works(n)) ==> !r.hw.alarm && !r.hw.inhibit)
      && r.store == if p.store.present && p.store.writable then p.store.(armed := false) else p.store
  {
  }

  lemma StopIsCalm(p: Plant, to: byte, ins: Inputs, works: nat -> bool)
    ensures Calm(p, p.sec, AlarmStop(p, to, ins, works).0, works)
    ensures (forall n :: works(n)) ==> AlarmStop(p, to, ins, works).0.sec.mode != Alarm
  {
  }

  lemma RequestIsCalm(p: Plant, source: byte, ins: Inputs, now: u32, cfg: Timing, works: nat -> bool)
    ensures Calm(p, InputsSampled(p.sec, ins, now, cfg),
                 Reported(InhibitUpdated(SampledPlant(p, ins, now, cfg), ins, works), source, ins), works)
  {
    hide Filtered;
    EngineIsKnown(p.sec.engine, ins.engine, now, cfg.engineStop);
    hide EngineSampled;
  }

  /** Sending something quiet, or noting the commander, is calm. */
  lemma CalmAround(p: Plant, s: Sec, r: Plant, source: byte, out: Out, works: nat -> bool)
    requires Calm(p.(sec := p.sec.(lastController := source)), s, r, works)
    ensures Calm(p, s, r, works)
    ensures Quiet(out) ==> Calm(p, s, r.(outs := r.outs + [out]), works)
  {
  }

  lemma ReportIsQuiet(p: Plant, destination: byte, ins: Inputs)
    ensures Quiet(Publish(SecurityStatePacket(SnapshotOf(p, ins), destination)))
  {
  }

  lemma CommandIsCalm(p: Plant, command: Option<Command>, source: byte, ins: Inputs, now: u32, cfg: Timing,
                      works: nat -> bool, sent: bool)
    ensures Calm(p, if CommandSamples(command) then InputsSampled(p.sec, ins, now, cfg) else p.sec,
                 CommandApplied(p, command, source, ins, now, cfg, works, sent).0, works)
  {
    hide LockedOrUnlocked, AlarmStop, InhibitUpdated, SampledPlant, InputsSampled, Calm;
    match command
    case Some(LockCommand) => LockIsCalm(p, true, ins, now, cfg, works);
    case Some(UnlockCommand) => LockIsCalm(p, false, ins, now, cfg, works);
    case Some(SilenceAlarmCommand) => StopIsCalm(p, source, ins, works);
    case Some(RequestStateCommand) => RequestIsCalm(p, source, ins, now, cfg, works);
    case None => NothingIsCalm(p, works);
  }

  /** The acknowledgement and the report that may follow a command are calm. */
  lemma RepliesAreCalm(p: Plant, s: Sec, r: Plant, source: byte, answer: Out, ins: Inputs, works: nat -> bool)
    requires Calm(p.(sec := p.sec.(lastController := source)), s, r, works) && Quiet(answer)
    ensures var r1 := r.(outs := r.outs + [answer]);
      && Calm(p, s, r, works) && Calm(p, s, r1, works)
      && Calm(p, s, Reported(r, source, ins), works) && Calm(p, s, Reported(r1, source, ins), works)
  {
    hide Calm, Quiet, SecurityStatePacket;
    var r1 := r.(outs := r.outs + [answer]);
    CalmAround(p, s, r, source, answer, works);
    assert p.(sec := p.sec.(lastController := p.sec.lastController)) == p;
    ReportIsQuiet(r, source, ins);
    CalmAround(p, s, r, p.sec.lastController, Publish(SecurityStatePacket(SnapshotOf(r, ins), source)), works);
    ReportIsQuiet(r1, source, ins);
    CalmAround(p, s, r1, p.sec.lastController, Publish(SecurityStatePacket(SnapshotOf(r1, ins), source)), works);
  }

  lemma PacketIsCalm(p: Plant, op: Op, cfg: Timing, works: nat -> bool)
    requires op.PacketOp?
    ensures Calm(p.(outs := []), if Samples(op) then InputsSampled(p.sec, op.ins, Clock(op.t), cfg) else p.sec,
                 Do(p, op, cfg, works), works)
  {
    hide CommandApplied, InputsSampled, Calm, Quiet, SecurityStatePacket, Reported;
    var p0, packet, now := p.(outs := []), op.packet, Clock(op.t);
    if packet.kind == SECURITY_COMMAND && |packet.payload| == 1 {
      var source := packet.source;
      var p1 := p0.(sec := p0.sec.(lastController := source));
      var command := CommandOf(packet.payload[0]);
      var s := if Samples(op) then InputsSampled(p.sec, op.ins, now, cfg) else p.sec;
      CommandIsCalm(p1, command, source, op.ins, now, cfg, works, op.sent);
      SamplingIgnoresController(p0.sec, source, op.ins, now, cfg);
      var (r, ok) := CommandApplied(p1, command, source, op.ins, now, cfg, works, op.sent);
      CalmFilters(p1, s, if Samples(op) then InputsSampled(p1.sec, op.ins, now, cfg) else p1.sec, r, works);
      AnswerIsQuiet(source, packet.sequence, !ok);
      RepliesAreCalm(p0, s, r, source, Answer(source, packet.sequence, !ok), op.ins, works);
    } else {
      NothingIsCalm(p0, works);
      AnswerIsQuiet(packet.source, packet.sequence, true);
      assert p0.(sec := p0.sec.(lastController := p0.sec.lastController)) == p0;
      CalmAround(p0, p0.sec, p0, p0.sec.lastController, Answer(packet.source, packet.sequence, true), works);
    }
  }

  lemma AnswerIsQuiet(destination: byte, sequence: u16, nack: bool)
    ensures Quiet(Answer(destination, sequence, nack))
  {
  }

  lemma NothingIsCalm(p: Plant, works: nat -> bool)
    ensures Calm(p, p.sec, p, works)
  {
  }

  lemma SamplingIgnoresController(s: Sec, source: byte, ins: Inputs, now: u32, cfg: Timing)
    ensures SameFilters(InputsSampled(s.(lastController := source), ins, now, cfg), InputsSampled(s, ins, now, cfg))
  {
    hide Filtered, EngineSampled;
  }

  lemma CalmFilters(p: Plant, s: Sec, u: Sec, r: Plant, works: nat -> bool)
    requires SameFilters(u, s) && Calm(p, u, r, works)
    ensures Calm(p, s, r, works)
  {
  }

  /** A service call up to the shock check. */
  function Prepared(p: Plant, op: Op, cfg: Timing, works: nat -> bool): Plant {
    var now := Clock(op.t);
    AlarmTimed(InhibitUpdated(LockPromoted(SampledPlant(p.(outs := []), op.ins, now, cfg), op.ins), op.ins, works),
               op.ins, now, cfg, works)
  }

  lemma PreparingIsCalm(p: Plant, op: Op, cfg: Timing, works: nat -> bool)
    requires op.ServiceOp?
    ensures Calm(p.(outs := []), InputsSampled(p.sec, op.ins, Clock(op.t), cfg), Prepared(p, op, cfg, works), works)
    ensures !InputsSampled(p.sec, op.ins, Clock(op.t), cfg).engine.running ==>
      Prepared(p, op, cfg, works).sec.mode != LockPending
  {
    hide AlarmTimed, InputsSampled, InhibitUpdated, LockPromoted, Calm;
    var p0, now := p.(outs := []), Clock(op.t);
    var p2 := InhibitUpdated(LockPromoted(SampledPlant(p0, op.ins, now, cfg), op.ins), op.ins, works);
    PromotingIsCalm(p0, op.ins, now, cfg, works);
    TimingIsCalm(p2, op.ins, now, cfg, works);
    CalmTwice(p0, InputsSampled(p.sec, op.ins, now, cfg), p2, AlarmTimed(p2, op.ins, now, cfg, works), works);
  }

  lemma PromotingIsCalm(p: Plant, ins: Inputs, now: u32, cfg: Timing, works: nat -> bool)
    requires p.outs == []
    ensures var s := InputsSampled(p.sec, ins, now, cfg);
      var r := InhibitUpdated(LockPromoted(SampledPlant(p, ins, now, cfg), ins), ins, works);
      && Calm(p, s, r, works)
      && (!s.engine.running ==> r.sec.mode != LockPending)
  {
    hide Filtered, SecurityStatePacket, SnapshotOf;
    EngineIsKnown(p.sec.engine, ins.engine, now, cfg.engineStop);
    hide EngineSampled;
    PromotionIsQuiet(SampledPlant(p, ins, now, cfg), ins);
  }

  lemma TimingIsCalm(p: Plant, ins: Inputs, now: u32, cfg: Timing, works: nat -> bool)
    ensures var r := AlarmTimed(p, ins, now, cfg, works);
      Calm(p, p.sec, r, works) && (p.sec.mode != LockPending ==> r.sec.mode != LockPending)
  {
    hide AlarmStop, SecurityStatePacket, SnapshotOf, Calm;
    var to := p.sec.lastController;
    NothingIsCalm(p, works);
    StopIsCalm(p, to, ins, works);
    StopKeepsPending(p, to, ins, works);
    var r := AlarmStop(p, to, ins, works).0;
    ReportIsQuiet(r, to, ins);
    assert p.(sec := p.sec.(lastController := p.sec.lastController)) == p;
    CalmAround(p, p.sec, r, to, Publish(SecurityStatePacket(SnapshotOf(r, ins), to)), works);
  }

  lemma CalmTwice(p: Plant, s: Sec, q: Plant, r: Plant, works: nat -> bool)
    requires Calm(p, s, q, works) && Calm(q, q.sec, r, works)
    ensures Calm(p, s, r, works)
  {
    hide AllQuiet, Persists, InhibitMatches, AlarmMatches;
  }

  lemma StopKeepsPending(p: Plant, to: byte, ins: Inputs, works: nat -> bool)
    ensures p.sec.mode != LockPending ==> AlarmStop(p, to, ins, works).0.sec.mode != LockPending
  {
  }

  lemma PromotionIsQuiet(p: Plant, ins: Inputs)
    requires p.outs == []
    ensures AllQuiet(LockPromoted(p, ins))
  {
  }

  /** The shock check: either it is calm, or it announces an alarm that starts now, at a trigger edge. */
  lemma ShocksEffect(p: Plant, ins: Inputs, now: u32, works: nat -> bool)
    ensures var r := ShocksChecked(p, ins, now, works);
      && SameFilters(p.sec, r.sec) && SameEdges(p.sec, r.sec)
      && (p.sec.mode != LockPending ==> r.sec.mode != LockPending)
      && (Persists(p) ==> Persists(r))
      && (p.sec.engine.known && (forall n :: works(n)) && InhibitMatches(p) && AlarmMatches(p) ==>
            InhibitMatches(r) && AlarmMatches(r))
      && (AllQuiet(p) ==>
            if AllQuiet(r) then
              r.sec.mode == Alarm ==> p.sec.mode == Alarm && r.sec.alarmStarted == p.sec.alarmStarted
            else
              !p.sec.previousTrigger && p.sec.trigger.stable && r.sec.mode == Alarm && r.sec.alarmStarted == now)
      && (AllQuiet(p) ==>
            (!AllQuiet(r) <==> p.sec.mode == Locked && p.sec.trigger.stable && !p.sec.previousTrigger
                               && works(p.hw.writes)))
  {
    hide SnapshotOf;
    var to := p.sec.lastController;
    var p1 := if p.sec.mode == Locked && p.sec.warning.stable && !p.sec.previousWarning
              then Announced(p, ShockWarningEvent, to) else p;
    if p1.sec.mode == Locked && p1.sec.trigger.stable && !p1.sec.previousTrigger {
      var (p2, ok) := AlarmStart(Announced(p1, ShockTriggerEvent, to), to, ins, now, works);
      if ok {
        var started := Publish(SecurityEventPacket(AlarmStartedEvent, to));
        assert !Quiet(started);
        assert p2.outs[|p2.outs| - 1] == started && started in Reported(p2, to, ins).outs;
      }
    }
  }

  /** What a service call does, edge memory and alarm starts included. */
  lemma ServiceEffect(p: Plant, op: Op, cfg: Timing, works: nat -> bool)
    requires op.ServiceOp?
    ensures var s, r := InputsSampled(p.sec, op.ins, Clock(op.t), cfg), Do(p, op, cfg, works);
      && SameFilters(s, r.sec) && r.sec.previousTrigger == s.trigger.stable
      && (Persists(p) ==> Persists(r))
      && (!s.engine.running ==> r.sec.mode != LockPending)
      && ((forall n :: works(n)) && InhibitMatches(p) && AlarmMatches(p) ==> InhibitMatches(r) && AlarmMatches(r))
      && if AllQuiet(r) then
           (r.sec.mode == Alarm ==>
              && Prepared(p, op, cfg, works).sec.mode == Alarm
              && p.sec.mode == Alarm && r.sec.alarmStarted == p.sec.alarmStarted)
         else
           !p.sec.previousTrigger && s.trigger.stable && r.sec.mode == Alarm && r.sec.alarmStarted == Clock(op.t)
  {
    hide Filtered, EngineSampled, ShocksChecked, Prepared, Do, Quiet;
    EngineIsKnown(p.sec.engine, op.ins.engine, Clock(op.t), cfg.engineStop);
    PreparingIsCalm(p, op, cfg, works);
    ShocksEffect(Prepared(p, op, cfg, works), op.ins, Clock(op.t), works);
    ServiceParts(p, op, cfg, works);
  }

  lemma ServiceParts(p: Plant, op: Op, cfg: Timing, works: nat -> bool)
    requires op.ServiceOp?
    ensures Do(p, op, cfg, works) == EdgesNoted(ShocksChecked(Prepared(p, op, cfg, works), op.ins, Clock(op.t), works))
  {
    hide SampledPlant, LockPromoted, InhibitUpdated, AlarmTimed, ShocksChecked;
  }

  /** Filters move only by sampling; edge memory only in a service call. */
  lemma DoSamples(p: Plant, op: Op, cfg: Timing, works: nat -> bool)
    ensures var r := Do(p, op, cfg, works).sec;
      var s := if Samples(op) then InputsSampled(p.sec, op.ins, Clock(op.t), cfg) else p.sec;
      && SameFilters(s, r)
      && r.previousTrigger == if op.ServiceOp? then s.trigger.stable else p.sec.previousTrigger
  {
    hide Do, InputsSampled;
    if op.ServiceOp? {
      ServiceEffect(p, op, cfg, works);
    } else {
      PacketIsCalm(p, op, cfg, works);
    }
  }

  // ---- start inhibit ------------------------------------------------------------------------------------

  predicate EverRunning(h: seq<Sample>) {
    exists i :: 0 <= i < |h| && h[i].level
  }

  /** How the engine filter relates to the samples it has seen; `armed` is an armed restore before them. */
  ghost predicate EngineTracks(e: Engine, h: seq<Sample>, armed: bool, confirm: u32) {
    && (e.known <==> armed || h != []) && (e.stopPending ==> e.known)
    && (e.running && e.stopPending ==>
          h != [] && !h[|h| - 1].level && SteadyFrom(h, RunStart(h), false)
          && e.stopStarted == Clock(h[RunStart(h)].t))
    && (e.running && !e.stopPending ==> h == [] || h[|h| - 1].level)
    && (e.known && !e.running ==> h != [] && !h[|h| - 1].level)
    && (e.known && !e.running && (armed || EverRunning(h)) ==> SteadyFor(h, false, confirm))
  }

  lemma RunStartGrows(h: seq<Sample>, s: Sample)
    ensures RunStart(h + [s]) == if h != [] && h[|h| - 1].level == s.level then RunStart(h) else |h|
  {
    assert (h + [s])[..|h|] == h;
  }

  lemma EngineSampleTracks(e: Engine, h: seq<Sample>, armed: bool, s: Sample, confirm: u32)
    requires EngineTracks(e, h, armed, confirm) && Ordered(h + [s])
    ensures EngineTracks(EngineSampled(e, s.level, Clock(s.t), confirm), h + [s], armed, confirm)
  {
    if s.level || !e.known {
      EngineSampleDecides(e, h, armed, s, confirm);
    } else if e.running {
      LowWhileRunning(e, h, armed, s, confirm);
    } else {
      LowWhileStopped(e, h, armed, s, confirm);
    }
  }

  lemma EngineSampleDecides(e: Engine, h: seq<Sample>, armed: bool, s: Sample, confirm: u32)
    requires EngineTracks(e, h, armed, confirm) && (s.level || !e.known)
    ensures EngineTracks(EngineSampled(e, s.level, Clock(s.t), confirm), h + [s], armed, confirm)
  {
    hide RunStart, Elapsed, SteadyFor;
    assert !s.level ==> !EverRunning(h + [s]);
  }

  lemma LowWhileRunning(e: Engine, h: seq<Sample>, armed: bool, s: Sample, confirm: u32)
    requires EngineTracks(e, h, armed, confirm) && Ordered(h + [s]) && e.known && e.running && !s.level
    ensures EngineTracks(EngineSampled(e, false, Clock(s.t), confirm), h + [s], armed, confirm)
  {
    hide RunStart, Elapsed, Clock;
    var h' := h + [s];
    RunStartGrows(h, s);
    var start := RunStart(h');
    assert SteadyFrom(h', start, false);
    assert h'[start].t <= h'[|h|].t;
    ElapsedIsModular(s.t, h'[start].t);
  }

  lemma LowWhileStopped(e: Engine, h: seq<Sample>, armed: bool, s: Sample, confirm: u32)
    requires EngineTracks(e, h, armed, confirm) && Ordered(h + [s]) && e.known && !e.running && !s.level
    ensures EngineTracks(EngineSampled(e, false, Clock(s.t), confirm), h + [s], armed, confirm)
  {
    hide RunStart, Elapsed, SteadyFor;
    if EverRunning(h + [s]) {
      var i :| 0 <= i < |h + [s]| && (h + [s])[i].level;
      assert h[i].level;
    }
    if armed || EverRunning(h) {
      SteadyGrows(h, s, false, confirm);
    }
  }

  lemma {:induction false} EngineFollowsSamples(p: Plant, ops: seq<Op>, armed: bool, cfg: Timing, works: nat -> bool)
    requires InOrder(ops) && EngineTracks(p.sec.engine, [], armed, cfg.engineStop)
    ensures EngineTracks(After(p, ops, cfg, works).sec.engine, Readings(ops, EnginePin), armed, cfg.engineStop)
  {
    hide Do, EngineTracks, EngineSampled;
    if ops != [] {
      var n := |ops| - 1;
      InOrderPrefix(ops, n);
      EngineFollowsSamples(p, ops[..n], armed, cfg, works);
      var before := After(p, ops[..n], cfg, works);
      DoSamples(before, ops[n], cfg, works);
      ReadingsInOrder(ops, EnginePin);
      if Samples(ops[n]) {
        EngineSampleTracks(before.sec.engine, Readings(ops[..n], EnginePin), armed,
                           Sample(ops[n].t, ops[n].ins.engine), cfg.engineStop);
      } else {
        assert Readings(ops, EnginePin) == Readings(ops[..n], EnginePin);
      }
    }
  }

  lemma DoKeepsOutputs(p: Plant, op: Op, cfg: Timing, works: nat -> bool)
    requires InhibitMatches(p) && AlarmMatches(p) && forall n :: works(n)
    ensures InhibitMatches(Do(p, op, cfg, works)) && AlarmMatches(Do(p, op, cfg, works))
  {
    hide Do;
    if op.ServiceOp? {
      ServiceEffect(p, op, cfg, works);
    } else {
      PacketIsCalm(p, op, cfg, works);
    }
  }

  lemma {:induction false} OutputsMatch(p: Plant, ops: seq<Op>, cfg: Timing, works: nat -> bool)
    requires InhibitMatches(p) && AlarmMatches(p) && forall n :: works(n)
    ensures InhibitMatches(After(p, ops, cfg, works)) && AlarmMatches(After(p, ops, cfg, works))
  {
    hide Do;
    if ops != [] {
      hide InhibitMatches, AlarmMatches;
      OutputsMatch(p, ops[..|ops| - 1], cfg, works);
      DoKeepsOutputs(After(p, ops[..|ops| - 1], cfg, works), ops[|ops| - 1], cfg, works);
    }
  }

  lemma BootMatches(hw: Hw, store: Store, t: nat, works: nat -> bool)
    requires forall n :: works(n)
    ensures var p := Booted(hw, store, t, works);
      && InhibitMatches(p) && AlarmMatches(p) && !p.hw.alarm && !p.hw.inhibit
      && p.store == store && p.sec.mode == (if RestoredArmed(store) then LockPending else Unlocked)
      && EngineTracks(p.sec.engine, [], RestoredArmed(store), 0)
      && p.sec.engine.running == p.sec.engine.known == RestoredArmed(store) && !p.sec.engine.stopPending
  {
  }

  /**
   Start prevention is never a kill switch. At every operation boundary of every run, with working
   outputs: the inhibit is on only in Locked or Alarm, with the last sampled engine input low; and
   once the engine was sampled running, or after an armed restore, only after nothing but low samples
   over at least engine_stop_confirm_ms of real time.
   */
  lemma InhibitNeedsStoppedEngine(hw: Hw, store: Store, t: nat, ops: seq<Op>, cfg: Timing, works: nat -> bool)
    requires InOrder(ops) && forall n :: works(n)
    ensures var p := After(Booted(hw, store, t, works), ops, cfg, works);
      var h := Readings(ops, EnginePin);
      p.hw.inhibit ==>
        && (p.sec.mode == Locked || p.sec.mode == Alarm)
        && h != [] && !h[|h| - 1].level
        && (RestoredArmed(store) || EverRunning(h) ==> SteadyFor(h, false, cfg.engineStop))
  {
    hide After, Booted;
    BootMatches(hw, store, t, works);
    OutputsMatch(Booted(hw, store, t, works), ops, cfg, works);
    EngineFollowsSamples(Booted(hw, store, t, works), ops, RestoredArmed(store), cfg, works);
  }

  /**
   Promptness: after a service call, if the newest run of low engine samples spans the confirmation
   interval and less than one clock wrap, no lock is pending any more.
   */
  lemma PendingLockTakesHold(hw: Hw, store: Store, t: nat, ops: seq<Op>, cfg: Timing, works: nat -> bool)
    requires InOrder(ops) && ops != [] && ops[|ops| - 1].ServiceOp? && !ops[|ops| - 1].ins.engine
    requires var h := Readings(ops, EnginePin);
      h != [] && cfg.engineStop <= ops[|ops| - 1].t - h[RunStart(h)].t < TWO32
    requires forall n :: works(n)
    ensures var p := After(Booted(hw, store, t, works), ops, cfg, works);
      p.sec.mode != LockPending && (p.sec.mode != Unlocked ==> p.hw.inhibit)
  {
    hide Do, Booted, Filtered;
    var n := |ops| - 1;
    var boot := Booted(hw, store, t, works);
    BootMatches(hw, store, t, works);
    InOrderPrefix(ops, n);
    EngineFollowsSamples(boot, ops[..n], RestoredArmed(store), cfg, works);
    var before := After(boot, ops[..n], cfg, works);
    var h0 := Readings(ops[..n], EnginePin);
    var s := Sample(ops[n].t, false);
    RunStartGrows(h0, s);
    assert Readings(ops, EnginePin) == h0 + [s];
    ElapsedIsModular(s.t, (h0 + [s])[RunStart(h0 + [s])].t);
    assert !EngineSampled(before.sec.engine, false, Clock(s.t), cfg.engineStop).running;
    ServiceEffect(before, ops[n], cfg, works);
    OutputsMatch(boot, ops, cfg, works);
  }

  // ---- start inhibit with outputs that may fail ----------------------------------------------------------

  /** In any mode but Unlocked the engine filter has been set. */
  predicate Known(s: Sec) {
    s.mode != Unlocked ==> s.engine.known
  }

  /** Locked or in alarm, with the engine believed stopped. */
  predicate MayInhibit(s: Sec) {
    (s.mode == Locked || s.mode == Alarm) && s.engine.known && !s.engine.running
  }

  /** The step from `p` to `r` turns the inhibit on only where that is allowed, and keeps an allowed one allowed. */
  predicate Careful(p: Plant, r: Plant) {
    Known(p.sec) ==>
      && Known(r.sec) && (MayInhibit(p.sec) ==> MayInhibit(r.sec))
      && (!p.hw.inhibit && r.hw.inhibit ==> MayInhibit(r.sec))
  }

  lemma CarefulTwice(p: Plant, q: Plant, r: Plant)
    requires Careful(p, q) && Careful(q, r)
    ensures Careful(p, r)
  {
  }

  lemma UpdateIsCareful(p: Plant, ins: Inputs, works: nat -> bool)
    ensures Careful(p, InhibitUpdated(p, ins, works))
  {
  }

  lemma StopIsCareful(p: Plant, to: byte, ins: Inputs, works: nat -> bool)
    ensures Careful(p, AlarmStop(p, to, ins, works).0)
  {
  }

  lemma ShocksAreCareful(p: Plant, ins: Inputs, now: u32, works: nat -> bool)
    ensures Careful(p, ShocksChecked(p, ins, now, works))
  {
  }

  /** After sampling: whatever was locked before, the inhibit comes on only for a bike locked with a stopped engine. */
  lemma LockTurnsOn(p: Plant, lock: bool, ins: Inputs, now: u32, cfg: Timing, works: nat -> bool)
    ensures var r := LockedOrUnlocked(p, lock, ins, now, cfg, works);
      Known(r.sec) && (!p.hw.inhibit && r.hw.inhibit ==> MayInhibit(r.sec))
  {
    EngineIsKnown(p.sec.engine, ins.engine, now, cfg.engineStop);
    hide Filtered, EngineSampled;
  }

  lemma CommandTurnsOn(p: Plant, command: Option<Command>, source: byte, ins: Inputs, now: u32, cfg: Timing,
                       works: nat -> bool, sent: bool)
    requires Known(p.sec)
    ensures var r := CommandApplied(p, command, source, ins, now, cfg, works, sent).0;
      Known(r.sec) && (!p.hw.inhibit && r.hw.inhibit ==> MayInhibit(r.sec))
  {
    EngineIsKnown(p.sec.engine, ins.engine, now, cfg.engineStop);
    LockTurnsOn(p, true, ins, now, cfg, works);
    LockTurnsOn(p, false, ins, now, cfg, works);
    StopIsCareful(p, source, ins, works);
    UpdateIsCareful(SampledPlant(p, ins, now, cfg), ins, works);
    hide LockedOrUnlocked, AlarmStop, InhibitUpdated, Filtered, EngineSampled;
  }

  lemma ServiceTurnsOn(p: Plant, ins: Inputs, now: u32, cfg: Timing, works: nat -> bool)
    ensures var r := Serviced(p, ins, now, cfg, works);
      Known(p.sec) ==> Known(r.sec) && (!p.hw.inhibit && r.hw.inhibit ==> MayInhibit(r.sec))
  {
    EngineIsKnown(p.sec.engine, ins.engine, now, cfg.engineStop);
    hide Filtered, EngineSampled, AlarmStop, ShocksChecked, InhibitUpdated, Careful;
    var p1 := LockPromoted(SampledPlant(p, ins, now, cfg), ins);
    var p2 := InhibitUpdated(p1, ins, works);
    var p3 := AlarmTimed(p2, ins, now, cfg, works);
    UpdateIsCareful(p1, ins, works);
    StopIsCareful(p2, p2.sec.lastController, ins, works);
    TimedIsCareful(p2, ins, now, cfg, works);
    ShocksAreCareful(p3, ins, now, works);
    CarefulTwice(p1, p2, p3);
    CarefulTwice(p1, p3, ShocksChecked(p3, ins, now, works));
    CarefulMeans(p1, ShocksChecked(p3, ins, now, works));
  }

  lemma TimedIsCareful(p: Plant, ins: Inputs, now: u32, cfg: Timing, works: nat -> bool)
    ensures Careful(p, AlarmTimed(p, ins, now, cfg, works))
  {
    StopIsCareful(p, p.sec.lastController, ins, works);
    hide AlarmStop;
  }

  lemma CarefulMeans(p: Plant, r: Plant)
    requires Careful(p, r) && Known(p.sec)
    ensures Known(r.sec) && (!p.hw.inhibit && r.hw.inhibit ==> MayInhibit(r.sec))
  {
  }

  /**
   Whatever writes fail, an operation that turns the inhibit on leaves the bike locked with the engine believed
   stopped.
   */
  lemma OperationTurnsOn(p: Plant, op: Op, cfg: Timing, works: nat -> bool)
    requires Known(p.sec)
    ensures var r := Do(p, op, cfg, works);
      Known(r.sec) && (!p.hw.inhibit && r.hw.inhibit ==> MayInhibit(r.sec))
  {
    hide Serviced, CommandApplied, SecurityStatePacket, SnapshotOf;
    var p0 := p.(outs := []);
    match op
    case ServiceOp(t, ins) => ServiceTurnsOn(p0, ins, Clock(t), cfg, works);
    case PacketOp(packet, t, ins, sent) =>
      if packet.kind == SECURITY_COMMAND && |packet.payload| == 1 {
        var source := packet.source;
        CommandTurnsOn(p0.(sec := p0.sec.(lastController := source)), CommandOf(packet.payload[0]), source, ins,
                       Clock(t), cfg, works, sent);
      }
  }

  lemma {:induction false} EngineStaysKnown(p: Plant, ops: seq<Op>, cfg: Timing, works: nat -> bool)
    requires Known(p.sec)
    ensures Known(After(p, ops, cfg, works).sec)
  {
    hide Do, Known;
    if ops != [] {
      EngineStaysKnown(p, ops[..|ops| - 1], cfg, works);
      OperationTurnsOn(After(p, ops[..|ops| - 1], cfg, works), ops[|ops| - 1], cfg, works);
    }
  }

  lemma BootEngine(hw: Hw, store: Store, t: nat, confirm: u32, works: nat -> bool)
    ensures var s := Booted(hw, store, t, works).sec;
      Known(s) && EngineTracks(s.engine, [], RestoredArmed(store), confirm)
  {
  }

  /**
   Even with outputs that fail as they like, the inhibit is never switched on under a running engine: in any run
   from boot, an operation that turns it from off to on ends in Locked or Alarm, with the last engine sample low;
   and once the engine was sampled running, or after an armed restore, with nothing but low samples over at least
   engine_stop_confirm_ms of real time.
   */
  lemma InhibitTurnsOnSafely(hw: Hw, store: Store, t: nat, ops: seq<Op>, cfg: Timing, works: nat -> bool)
    requires InOrder(ops) && ops != []
    ensures var boot := Booted(hw, store, t, works);
      var before, after := After(boot, ops[..|ops| - 1], cfg, works), After(boot, ops, cfg, works);
      var h := Readings(ops, EnginePin);
      !before.hw.inhibit && after.hw.inhibit ==>
        && (after.sec.mode == Locked || after.sec.mode == Alarm)
        && h != [] && !h[|h| - 1].level
        && (RestoredArmed(store) || EverRunning(h) ==> SteadyFor(h, false, cfg.engineStop))
  {
    hide After, Do, Booted;
    var boot := Booted(hw, store, t, works);
    BootEngine(hw, store, t, cfg.engineStop, works);
    EngineStaysKnown(boot, ops[..|ops| - 1], cfg, works);
    OperationTurnsOn(After(boot, ops[..|ops| - 1], cfg, works), ops[|ops| - 1], cfg, works);
    AfterLast(boot, ops, cfg, works);
    EngineFollowsSamples(boot, ops, RestoredArmed(store), cfg, works);
  }

  // ---- alarm starts ---------------------------------------------------------------------------------------

  /** The operation announced that an alarm started. */
  ghost predicate Announces(p: Plant) {
    !AllQuiet(p)
  }

  /**
   The guard of an alarm start: a service call sees a confirmed trigger that the service call before did not, while
   locked, or as a pending lock takes hold, or as an alarm's time is over; and the output takes the write.
   */
  predicate StartsNow(p: Plant, op: Op, cfg: Timing, works: nat -> bool) {
    && op.ServiceOp? && !p.sec.previousTrigger
    && Filtered(p.sec.trigger, op.ins.trigger, cfg.trigger, Clock(op.t)).0.stable
    && if p.sec.mode == Alarm then
         p.sec.timer && Elapsed(Clock(op.t), p.sec.alarmStarted) >= cfg.alarm
         && works(p.hw.writes + 1) && works(p.hw.writes + 3)
       else
         (p.sec.mode == Locked
          || (p.sec.mode == LockPending
              && !EngineSampled(p.sec.engine, op.ins.engine, Clock(op.t), cfg.engineStop).running))
         && works(p.hw.writes + 1)
  }

  /** An alarm starts in an operation if and only if its guard holds; and then the bike is in alarm since now. */
  lemma AlarmStartsAtEdge(p: Plant, op: Op, cfg: Timing, works: nat -> bool)
    ensures var r := Do(p, op, cfg, works);
      && (Announces(r) <==> StartsNow(p, op, cfg, works))
      && (Announces(r) ==>
            && op.ServiceOp? && !p.sec.previousTrigger && r.sec.trigger.stable && r.sec.previousTrigger
            && r.sec.mode == Alarm && r.sec.alarmStarted == Clock(op.t))
      && (!Announces(r) && r.sec.mode == Alarm ==> p.sec.mode == Alarm && r.sec.alarmStarted == p.sec.alarmStarted)
  {
    hide Do, Filtered, EngineSampled, Quiet, Prepared;
    if op.ServiceOp? {
      ServiceEffect(p, op, cfg, works);
      PreparingIsCalm(p, op, cfg, works);
      PreparedLocked(p, op, cfg, works);
      ShocksEffect(Prepared(p, op, cfg, works), op.ins, Clock(op.t), works);
      ServiceParts(p, op, cfg, works);
    } else {
      PacketIsCalm(p, op, cfg, works);
    }
  }

  /** When the shock check of a service call finds the bike locked, and how often the outputs were written before it. */
  lemma PreparedLocked(p: Plant, op: Op, cfg: Timing, works: nat -> bool)
    requires op.ServiceOp?
    ensures var q, w, now := Prepared(p, op, cfg, works), p.hw.writes, Clock(op.t);
      var over := p.sec.mode == Alarm && p.sec.timer && Elapsed(now, p.sec.alarmStarted) >= cfg.alarm;
      && (q.sec.mode == Locked <==>
            p.sec.mode == Locked || (over && works(w + 1))
            || (p.sec.mode == LockPending && !EngineSampled(p.sec.engine, op.ins.engine, now, cfg.engineStop).running))
      && q.hw.writes == w + if !over then 1 else if works(w + 1) then 3 else 2
  {
    hide Filtered, EngineSampled, SecurityStatePacket, SnapshotOf;
  }

  /** The trigger filter and edge memory since an alarm start, against the trigger samples since then. */
  ghost predicate TriggerTracks(s: Sec, h: seq<Sample>, confirm: u32) {
    && ((forall i :: 0 <= i < |h| ==> h[i].level) ==> s.trigger.stable && s.previousTrigger)
    && ((exists i :: 0 <= i < |h| && !h[i].level) && h[|h| - 1].level ==>
          RunStart(h) > 0 && !h[RunStart(h) - 1].level && SteadyFrom(h, RunStart(h), true))
    && (h != [] && !h[|h| - 1].level ==> !s.trigger.stable && !s.trigger.pending)
    && ((exists i :: 0 <= i < |h| && !h[i].level) && h[|h| - 1].level ==>
          && (s.trigger.stable ==> h[|h| - 1].t - h[RunStart(h)].t >= confirm)
          && (!s.trigger.stable ==> s.trigger.pending && s.trigger.changedAt == Clock(h[RunStart(h)].t)))
  }

  lemma TriggerSampleTracks(s: Sec, h: seq<Sample>, x: Sample, next: Sec, confirm: u32)
    requires TriggerTracks(s, h, confirm) && Ordered(h + [x])
    requires next.trigger == Filtered(s.trigger, x.level, confirm, Clock(x.t)).0
    requires next.previousTrigger == s.previousTrigger || next.previousTrigger == next.trigger.stable
    ensures TriggerTracks(next, h + [x], confirm)
  {
    if !x.level {
      hide RunStart, Elapsed;
      assert (h + [x])[|h|] == x;
    } else if forall i :: 0 <= i < |h| ==> h[i].level {
      StuckTrigger(s, h, x, next, confirm);
    } else {
      ReassertedTrigger(s, h, x, next, confirm);
    }
  }

  lemma StuckTrigger(s: Sec, h: seq<Sample>, x: Sample, next: Sec, confirm: u32)
    requires TriggerTracks(s, h, confirm) && x.level && forall i :: 0 <= i < |h| ==> h[i].level
    requires next.trigger == Filtered(s.trigger, true, confirm, Clock(x.t)).0
    requires next.previousTrigger == s.previousTrigger || next.previousTrigger == next.trigger.stable
    ensures TriggerTracks(next, h + [x], confirm)
  {
    hide RunStart, Elapsed;
  }

  lemma ReassertedTrigger(s: Sec, h: seq<Sample>, x: Sample, next: Sec, confirm: u32)
    requires TriggerTracks(s, h, confirm) && Ordered(h + [x]) && x.level
    requires exists i :: 0 <= i < |h| && !h[i].level
    requires next.trigger == Filtered(s.trigger, true, confirm, Clock(x.t)).0
    ensures TriggerTracks(next, h + [x], confirm)
  {
    hide RunStart, Elapsed, Clock;
    var h' := h + [x];
    var i :| 0 <= i < |h| && !h[i].level;
    assert !h'[i].level;
    RunStartGrows(h, x);
    var start := RunStart(h');
    assert h'[start].t <= h'[|h|].t && (h[|h| - 1].level ==> h'[start].t <= h'[|h| - 1].t <= h'[|h|].t);
    ElapsedIsModular(x.t, h'[start].t);
    ZeroElapsed(Clock(x.t));
  }

  lemma ZeroElapsed(now: u32)
    ensures Elapsed(now, now) == 0
  {
  }

  lemma {:induction false} TriggerFollowsSamples(p: Plant, ops: seq<Op>, cfg: Timing, works: nat -> bool)
    requires InOrder(ops) && p.sec.trigger.stable && p.sec.previousTrigger
    ensures TriggerTracks(After(p, ops, cfg, works).sec, Readings(ops, TriggerPin), cfg.trigger)
  {
    hide Do, Filtered;
    if ops != [] {
      hide TriggerTracks;
      var n := |ops| - 1;
      InOrderPrefix(ops, n);
      TriggerFollowsSamples(p, ops[..n], cfg, works);
      var before := After(p, ops[..n], cfg, works);
      var h := Readings(ops[..n], TriggerPin);
      DoSamples(before, ops[n], cfg, works);
      ReadingsInOrder(ops, TriggerPin);
      if Samples(ops[n]) {
        TriggerSampleTracks(before.sec, h, Sample(ops[n].t, ops[n].ins.trigger), Do(before, ops[n], cfg, works).sec,
                            cfg.trigger);
      } else {
        assert Readings(ops, TriggerPin) == h;
        TriggerUnsampled(before.sec, h, Do(before, ops[n], cfg, works).sec, cfg.trigger);
      }
    }
  }

  lemma TriggerUnsampled(s: Sec, h: seq<Sample>, next: Sec, confirm: u32)
    requires TriggerTracks(s, h, confirm)
    requires next.trigger == s.trigger && next.previousTrigger == s.previousTrigger
    ensures TriggerTracks(next, h, confirm)
  {
  }

  /** The i-th operation of the run starts an alarm. */
  ghost predicate StartsAlarm(p: Plant, ops: seq<Op>, i: nat, cfg: Timing, works: nat -> bool)
    requires i < |ops|
  {
    Announces(After(p, ops[..i + 1], cfg, works))
  }

  /** The newest samples are high, over at least `span` of real time up to `t`, and directly follow a low one. */
  ghost predicate ReleasedAndHeld(h: seq<Sample>, t: nat, span: nat) {
    && h != [] && RunStart(h) > 0 && !h[RunStart(h) - 1].level && SteadyFrom(h, RunStart(h), true)
    && h[|h| - 1].t == t && t - h[RunStart(h)].t >= span
  }

  /**
   A stuck trigger never re-alarms: between any two alarm starts of any run, whatever Lock, Unlock and
   RequestState packets sample the inputs in between, there is a low trigger sample, directly followed by only
   high ones over at least trigger_confirm_ms of real time up to the second start.
   */
  lemma AlarmsAreSeparated(p: Plant, ops: seq<Op>, i: nat, j: nat, cfg: Timing, works: nat -> bool)
    requires InOrder(ops) && i < j < |ops|
    ensures StartsAlarm(p, ops, i, cfg, works) && StartsAlarm(p, ops, j, cfg, works) ==>
      ReleasedAndHeld(Readings(ops[i + 1..j + 1], TriggerPin), ops[j].t, cfg.trigger)
  {
    hide Do, Announces, After, Filtered, ReleasedAndHeld;
    if StartsAlarm(p, ops, i, cfg, works) && StartsAlarm(p, ops, j, cfg, works) {
      var p1 := After(p, ops[..i + 1], cfg, works);
      var between := ops[i + 1..j];
      AfterLast(p, ops[..i + 1], cfg, works);
      AfterLast(p, ops[..j + 1], cfg, works);
      AfterAppend(p, ops[..i + 1], between, cfg, works);
      assert ops[..i + 1] + between == ops[..j] && ops[..j + 1][..j] == ops[..j];
      AlarmStartsAtEdge(After(p, ops[..i], cfg, works), ops[i], cfg, works);
      assert ops[..i + 1][..i] == ops[..i];
      SecondStart(p1, between, ops[j], cfg, works);
      assert ops[i + 1..j + 1] == between + [ops[j]];
    }
  }

  lemma SecondStart(p: Plant, between: seq<Op>, second: Op, cfg: Timing, works: nat -> bool)
    requires InOrder(between + [second]) && p.sec.trigger.stable && p.sec.previousTrigger
    ensures Announces(Do(After(p, between, cfg, works), second, cfg, works)) ==>
      ReleasedAndHeld(Readings(between + [second], TriggerPin), second.t, cfg.trigger)
  {
    hide Do, Announces, After;
    if Announces(Do(After(p, between, cfg, works), second, cfg, works)) {
      var ops := between + [second];
      assert ops[..|between|] == between;
      InOrderPrefix(ops, |between|);
      TriggerFollowsSamples(p, between, cfg, works);
      TriggerFollowsSamples(p, ops, cfg, works);
      AfterLast(p, ops, cfg, works);
      AlarmStartsAtEdge(After(p, between, cfg, works), second, cfg, works);
      var h0, h := Readings(between, TriggerPin), Readings(ops, TriggerPin);
      DoSamples(After(p, between, cfg, works), second, cfg, works);
      assert h == h0 + [Sample(second.t, second.ins.trigger)];
      var k :| 0 <= k < |h0| && !h0[k].level;
      assert !h[k].level;
    }
  }

  lemma {:induction false} AfterAppend(p: Plant, a: seq<Op>, b: seq<Op>, cfg: Timing, works: nat -> bool)
    ensures After(p, a + b, cfg, works) == After(After(p, a, cfg, works), b, cfg, works)
  {
    hide Do;
    if b == [] {
      assert a + b == a;
    } else {
      var n := |b| - 1;
      AfterAppend(p, a, b[..n], cfg, works);
      assert (a + b)[..|a + b| - 1] == a + b[..n];
    }
  }

  lemma AfterLast(p: Plant, ops: seq<Op>, cfg: Timing, works: nat -> bool)
    requires ops != []
    ensures After(p, ops, cfg, works) == Do(After(p, ops[..|ops| - 1], cfg, works), ops[|ops| - 1], cfg, works)
  {
    hide Do;
  }

  // ---- how long an alarm lasts ------------------------------------------------------------------------------

  /** Real time of the newest service call, and of the newest alarm start; `t0` before there is one. */
  function LastService(ops: seq<Op>, t0: nat): nat {
    if ops == [] then t0
    else if ops[|ops| - 1].ServiceOp? then ops[|ops| - 1].t
    else LastService(ops[..|ops| - 1], t0)
  }

  ghost function LastStart(p: Plant, ops: seq<Op>, cfg: Timing, works: nat -> bool): nat {
    if ops == [] then 0
    else if Announces(After(p, ops, cfg, works)) then ops[|ops| - 1].t
    else LastStart(p, ops[..|ops| - 1], cfg, works)
  }

  /** No operation comes more than `gap` after the service call before it. */
  ghost predicate Attended(ops: seq<Op>, t0: nat, gap: nat) {
    forall i :: 0 <= i < |ops| ==> 0 <= ops[i].t - LastService(ops[..i], t0) <= gap
  }

  lemma ServiceEndsAlarm(p: Plant, op: Op, cfg: Timing, works: nat -> bool)
    requires op.ServiceOp? && p.sec.mode == Alarm && p.sec.timer && forall n :: works(n)
    requires Elapsed(Clock(op.t), p.sec.alarmStarted) >= cfg.alarm
    ensures var r := Do(p, op, cfg, works); Announces(r) || r.sec.mode != Alarm
  {
    ServiceEffect(p, op, cfg, works);
    hide Do, Filtered, EngineSampled, AlarmStop, SecurityEventPacket, SecurityStatePacket;
    var p0 := SampledPlant(p.(outs := []), op.ins, Clock(op.t), cfg);
    var p1 := InhibitUpdated(LockPromoted(p0, op.ins), op.ins, works);
    StopIsCalm(p1, p1.sec.lastController, op.ins, works);
  }

  /** While an alarm is on, the newest service call came less than the duration after its start. */
  lemma {:induction false} AlarmIsTimed(p: Plant, ops: seq<Op>, t0: nat, gap: nat, cfg: Timing, works: nat -> bool)
    requires InhibitMatches(p) && AlarmMatches(p) && p.sec.mode != Alarm && forall n :: works(n)
    requires InOrder(ops) && Attended(ops, t0, gap) && cfg.alarm + gap < TWO32
    ensures var end, start, last := After(p, ops, cfg, works), LastStart(p, ops, cfg, works), LastService(ops, t0);
      end.sec.mode == Alarm ==>
        end.sec.alarmStarted == Clock(start) && start <= last && (last == start || last - start < cfg.alarm)
  {
    hide Do, Announces, InhibitMatches, AlarmMatches;
    if ops != [] {
      var n := |ops| - 1;
      var init, op := ops[..n], ops[n];
      var before := After(p, init, cfg, works);
      InOrderPrefix(ops, n);
      AttendedPrefix(ops, t0, gap);
      AlarmIsTimed(p, init, t0, gap, cfg, works);
      AlarmStartsAtEdge(before, op, cfg, works);
      OutputsMatch(p, init, cfg, works);
      AlarmHasTimer(before);
      if op.ServiceOp? && before.sec.mode == Alarm && !Announces(Do(before, op, cfg, works)) {
        var start := LastStart(p, init, cfg, works);
        ElapsedIsModular(op.t, start);
        if Elapsed(Clock(op.t), Clock(start)) >= cfg.alarm {
          ServiceEndsAlarm(before, op, cfg, works);
        }
      }
    }
  }

  lemma AlarmHasTimer(p: Plant)
    requires AlarmMatches(p)
    ensures p.sec.mode == Alarm ==> p.sec.timer
  {
  }

  lemma AttendedPrefix(ops: seq<Op>, t0: nat, gap: nat)
    requires Attended(ops, t0, gap) && ops != []
    ensures var n := |ops| - 1; Attended(ops[..n], t0, gap) && 0 <= ops[n].t - LastService(ops[..n], t0) <= gap
  {
    var n := |ops| - 1;
    assert forall i :: 0 <= i < n ==> ops[..n][..i] == ops[..i];
  }

  /**
   The alarm is bounded: with working outputs and service gaps of at most `gap`, at every operation
   boundary at which the alarm output is on, its alarm started at most duration + gap of real time ago.
   The alarm output is on exactly in mode Alarm.
   */
  lemma AlarmIsBounded(hw: Hw, store: Store, ops: seq<Op>, t0: nat, gap: nat, cfg: Timing, works: nat -> bool)
    requires forall n :: works(n)
    requires InOrder(ops) && Attended(ops, t0, gap) && cfg.alarm + gap < TWO32 && ops != []
    ensures var boot := Booted(hw, store, t0, works);
      var end := After(boot, ops, cfg, works);
      && (end.hw.alarm <==> end.sec.mode == Alarm)
      && (end.hw.alarm ==> 0 <= ops[|ops| - 1].t - LastStart(boot, ops, cfg, works) <= cfg.alarm + gap)
  {
    hide After, Booted, LastStart;
    var boot := Booted(hw, store, t0, works);
    BootMatches(hw, store, t0, works);
    OutputsMatch(boot, ops, cfg, works);
    AlarmIsTimed(boot, ops, t0, gap, cfg, works);
    AttendedPrefix(ops, t0, gap);
  }

  // ---- persistence ---------------------------------------------------------------------------------------------

  predicate Healthy(store: Store) {
    store.present && store.readable && store.writable
  }

  lemma DoPersists(p: Plant, op: Op, cfg: Timing, works: nat -> bool)
    requires Persists(p)
    ensures Persists(Do(p, op, cfg, works))
  {
    hide Do;
    if op.ServiceOp? {
      ServiceEffect(p, op, cfg, works);
    } else {
      PacketIsCalm(p, op, cfg, works);
    }
  }

  lemma {:induction false} StorageFollowsMode(p: Plant, ops: seq<Op>, cfg: Timing, works: nat -> bool)
    requires Persists(p)
    ensures Persists(After(p, ops, cfg, works))
  {
    hide Do, Persists;
    if ops != [] {
      StorageFollowsMode(p, ops[..|ops| - 1], cfg, works);
      DoPersists(After(p, ops[..|ops| - 1], cfg, works), ops[|ops| - 1], cfg, works);
    }
  }

  /**
   With healthy storage the stored flag tells after every operation whether the bike is armed, so a
   crash at any operation boundary, with the outputs in any state, restarts in LockPending exactly
   when the bike was armed and in Unlocked otherwise, with both outputs off.
   */
  lemma CrashRestoresIntent(hw: Hw, store: Store, t: nat, ops: seq<Op>, cfg: Timing, works: nat -> bool,
                            crashed: Hw, t': nat, works': nat -> bool)
    requires Healthy(store) && forall n :: works'(n)
    ensures var end := After(Booted(hw, store, t, works), ops, cfg, works);
      var again := Booted(crashed, end.store, t', works');
      && (end.store.armed <==> end.sec.mode != Unlocked)
      && again.sec.mode == (if end.sec.mode != Unlocked then LockPending else Unlocked)
      && !again.hw.alarm && !again.hw.inhibit
  {
    hide After;
    StorageFollowsMode(Booted(hw, store, t, works), ops, cfg, works);
  }
}
