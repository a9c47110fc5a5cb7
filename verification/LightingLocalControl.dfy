/** Local lighting control: debounced switches, the flasher, and arbitration with network commands. */
module LocalControl {
  import opened Bytes
  import opened Codec
  import opened Node
  import opened Lighting

  // ---- debouncing ---------------------------------------------------------------------------

  datatype Debounce = Debounce(raw: bool, stable: bool, initialized: bool, changedAt: u32)

  const UNSAMPLED: Debounce := Debounce(false, false, false, 0)

  /** One sample: the new state, and whether the stable value changed. */
  function Update(d: Debounce, raw: bool, now: u32, window: u32): (Debounce, bool) {
    if !d.initialized then (Debounce(raw, raw, true, now), false)
    else
      var d1 := if raw != d.raw then d.(raw := raw, changedAt := now) else d;
      if d1.stable != d1.raw && Elapsed(now, d1.changedAt) >= window then (d1.(stable := d1.raw), true)
      else (d1, false)
  }

  class DebouncedInput {
    var raw: bool
    var stable: bool
    var initialized: bool
    var changedAt: u32

    constructor ()
      ensures State() == UNSAMPLED
    {
      raw, stable, initialized, changedAt := false, false, false, 0;
    }

    ghost function State(): Debounce
      reads this
    {
      Debounce(raw, stable, initialized, changedAt)
    }

    function Value(): bool
      reads this
    {
      stable
    }

    method UpdateInput(level: bool, now: u32, window: u32) returns (changed: bool)
      modifies this
      ensures (State(), changed) == Update(old(State()), level, now, window)
    {
      if !initialized {
        raw, stable, changedAt, initialized := level, level, now, true;
        return false;
      }
      if level != raw {
        raw := level;
        changedAt := now;
      }
      if stable != raw && Elapsed(now, changedAt) >= window {
        stable := raw;
        return true;
      }
      return false;
    }
  }

  function Debounced(h: seq<Sample>, window: u32): Debounce {
    if h == [] then UNSAMPLED
    else Update(Debounced(h[..|h| - 1], window), h[|h| - 1].level, Clock(h[|h| - 1].t), window).0
  }

  /**
   The update tells whether it changed the debounced value; the very first sample sets it without counting as a
   change.
   */
  lemma UpdateTells(d: Debounce, raw: bool, now: u32, window: u32)
    ensures var (d', changed) := Update(d, raw, now, window);
      && (changed <==> d.initialized && d'.stable != d.stable)
      && d'.initialized && d'.raw == raw && (!d.initialized ==> d'.stable == raw)
  {
  }

  lemma {:induction false} DebounceTracks(h: seq<Sample>, window: u32)
    requires h != []
    ensures var d := Debounced(h, window);
      && d.initialized && d.raw == h[|h| - 1].level
      && SteadyFrom(h, RunStart(h), d.raw)
      && (d.stable != d.raw ==> d.changedAt == Clock(h[RunStart(h)].t))
  {
    var n := |h| - 1;
    if n > 0 {
      DebounceTracks(h[..n], window);
    } else {
      assert h[..0] == [];
    }
  }

  /**
   A debounced value changes only after samples of the new level over a full window of real time,
   across clock wrap; and it has changed once the newest run of equal samples spans the window,
   provided that run is shorter than one wrap.
   */
  lemma DebounceNeedsFullWindow(h: seq<Sample>, s: Sample, window: u32)
    requires h != [] && Ordered(h + [s])
    ensures var h' := h + [s];
      var before, after := Debounced(h, window).stable, Debounced(h', window).stable;
      var start := RunStart(h');
      && (after != before ==> after == s.level && SteadyFor(h', s.level, window))
      && (window <= s.t - h'[start].t < TWO32 ==> after == s.level)
  {
    var h' := h + [s];
    assert h'[..|h|] == h;
    DebounceTracks(h, window);
    DebounceTracks(h', window);
    ElapsedIsModular(s.t, h'[RunStart(h')].t);
  }

  // ---- one loop of local control ---------------------------------------------------------------

  datatype Switches = Switches(left: bool, right: bool, front: bool, rear: bool, high: bool)

  datatype Config = Config(debounce: u32, halfPeriod: u32)

  datatype Local = Local(left: Debounce, right: Debounce, front: Debounce, rear: Debounce, high: Debounce,
                         lastToggle: u32, blinkOn: bool, previous: bool, initialized: bool)

  const BOOT: Local := Local(UNSAMPLED, UNSAMPLED, UNSAMPLED, UNSAMPLED, UNSAMPLED, 0, true, false, false)

  function Sampled(l: Local, s: Switches, now: u32, window: u32): Local {
    l.(left := Update(l.left, s.left, now, window).0,
       right := Update(l.right, s.right, now, window).0,
       front := Update(l.front, s.front, now, window).0,
       rear := Update(l.rear, s.rear, now, window).0,
       high := Update(l.high, s.high, now, window).0)
  }

  predicate IndicatorActive(l: Local) {
    l.left.stable || l.right.stable
  }

  /** The flasher, after the inputs were sampled. */
  function Flashed(l: Local, now: u32, halfPeriod: u32): Local {
    var active := IndicatorActive(l);
    var l1 := if l.initialized then l
              else l.(lastToggle := now, blinkOn := true, previous := active, initialized := true);
    var l2 := if active && !l1.previous then l1.(blinkOn := true, lastToggle := now)
              else if active && Elapsed(now, l1.lastToggle) >= halfPeriod
                then l1.(blinkOn := !l1.blinkOn, lastToggle := now)
              else l1;
    (if active then l2 else l2.(blinkOn := true, lastToggle := now)).(previous := active)
  }

  function Controlled(l: Local, s: Switches, now: u32, cfg: Config): Local {
    Flashed(Sampled(l, s, now, cfg.debounce), now, cfg.halfPeriod)
  }

  /** Local authority: what each output should show. */
  function Effective(l: Local, commanded: Lamps): Lamps {
    Lamps(if l.left.stable then l.blinkOn else commanded.left,
          if l.right.stable then l.blinkOn else commanded.right,
          l.front.stable || l.rear.stable || commanded.brake,
          l.high.stable || commanded.high)
  }

  /** write_if_changed(): the new state, and whether the output differed. */
  function WriteIfChanged(l: Light, o: Output, on: bool, works: nat -> bool): (Light, bool) {
    if Get(l.actual, o) == on then (l, false)
    else (l.(actual := if works(l.writes) then Set(l.actual, o, on) else l.actual, writes := l.writes + 1), true)
  }

  function Drive(l: Light, target: Lamps, works: nat -> bool): (Light, bool) {
    var (l1, c1) := WriteIfChanged(l, LeftIndicator, target.left, works);
    var (l2, c2) := WriteIfChanged(l1, RightIndicator, target.right, works);
    var (l3, c3) := WriteIfChanged(l2, BrakeBright, target.brake, works);
    var (l4, c4) := WriteIfChanged(l3, HighBeam, target.high, works);
    (l4, c1 || c2 || c3 || c4)
  }

  /** The node after a loop: a state report goes to the main computer when an output differed. */
  function Reported(io: Io, changed: bool, actual: Lamps, accepts: nat -> bool): Io {
    if changed then Emit(io, Publish(StatePacket(actual, MAIN_COMPUTER)), accepts).0 else io
  }

  class LightingInputs {
    var switches: Switches
  }

  class LightingLocalControl {
    const server: LightingServer
    const inputs: LightingInputs
    const left: DebouncedInput
    const right: DebouncedInput
    const front: DebouncedInput
    const rear: DebouncedInput
    const high: DebouncedInput
    var cfg: Config
    var lastToggle: u32
    var blinkOn: bool
    var previous: bool
    var initialized: bool

    ghost predicate Valid()
      reads this, server.node, server.node.parser, server.node.parser.buffer
    {
      && server.node.Valid()
      && left !in {right, front, rear, high} && right !in {front, rear, high}
      && front !in {rear, high} && rear != high
    }

    ghost function State(): Local
      reads this, left, right, front, rear, high
    {
      Local(left.State(), right.State(), front.State(), rear.State(), high.State(),
            lastToggle, blinkOn, previous, initialized)
    }

    constructor (server: LightingServer, inputs: LightingInputs)
      requires server.node.Valid()
      ensures Valid() && State() == BOOT && cfg == Config(25, 500)
      ensures this.server == server && this.inputs == inputs
    {
      this.server, this.inputs := server, inputs;
      left := new DebouncedInput();
      right := new DebouncedInput();
      front := new DebouncedInput();
      rear := new DebouncedInput();
      high := new DebouncedInput();
      cfg := Config(25, 500);
      lastToggle, blinkOn, previous, initialized := 0, true, false, false;
    }

    method SampleInputs(now: u32)
      requires Valid()
      modifies left, right, front, rear, high
      ensures State() == Sampled(old(State()), inputs.switches, now, cfg.debounce)
    {
      hide Update;
      var changed := left.UpdateInput(inputs.switches.left, now, cfg.debounce);
      changed := right.UpdateInput(inputs.switches.right, now, cfg.debounce);
      changed := front.UpdateInput(inputs.switches.front, now, cfg.debounce);
      changed := rear.UpdateInput(inputs.switches.rear, now, cfg.debounce);
      changed := high.UpdateInput(inputs.switches.high, now, cfg.debounce);
    }

    method WriteChanged(o: Output, on: bool) returns (changed: bool)
      modifies server.hardware
      ensures (server.State(), changed)
           == WriteIfChanged(old(server.State()), o, on, server.hardware.works)
    {
      if server.hardware.ReadOutput(o) == on {
        return false;
      }
      var ok := server.hardware.WriteOutput(o, on);
      return true;
    }

    /** The flasher part of service(). */
    method Flash(now: u32)
      requires Valid()
      modifies this`lastToggle, this`blinkOn, this`previous, this`initialized
      ensures State() == Flashed(old(State()), now, cfg.halfPeriod)
    {
      var active := left.Value() || right.Value();
      if !initialized {
        lastToggle := now;
        blinkOn := true;
        previous := active;
        initialized := true;
      }
      if active && !previous {
        blinkOn := true;
        lastToggle := now;
      } else if active && Elapsed(now, lastToggle) >= cfg.halfPeriod {
        blinkOn := !blinkOn;
        lastToggle := now;
      }
      if !active {
        blinkOn := true;
        lastToggle := now;
      }
      previous := active;
    }

    /** The four conditional writes of service(). */
    method DriveOutputs(target: Lamps) returns (changed: bool)
      modifies server.hardware
      ensures (server.State(), changed) == Drive(old(server.State()), target, server.hardware.works)
    {
      hide WriteIfChanged;
      changed := false;
      var c := WriteChanged(LeftIndicator, target.left);
      changed := c || changed;
      c := WriteChanged(RightIndicator, target.right);
      changed := c || changed;
      c := WriteChanged(BrakeBright, target.brake);
      changed := c || changed;
      c := WriteChanged(HighBeam, target.high);
      changed := c || changed;
    }

    /** What service() decides for each output. */
    method Arbitrated() returns (target: Lamps)
      requires Valid()
      ensures target == Effective(State(), server.commanded)
    {
      var commanded := server.commanded;
      var effectiveLeft := if left.Value() then blinkOn else commanded.left;
      var effectiveRight := if right.Value() then blinkOn else commanded.right;
      var effectiveBrake := front.Value() || rear.Value() || commanded.brake;
      var effectiveHigh := high.Value() || commanded.high;
      target := Lamps(effectiveLeft, effectiveRight, effectiveBrake, effectiveHigh);
    }

    /** The arbitration part of service(). */
    method Arbitrate(now: u32) returns (published: bool)
      requires Valid()
      modifies server.hardware, server.node`sequence, server.node`pending, server.node.transport`log
      ensures Valid()
      ensures (server.State(), published)
           == Drive(old(server.State()), Effective(State(), server.commanded), server.hardware.works)
      ensures server.node.State()
           == Reported(old(server.node.State()), published, server.hardware.lamps, server.node.transport.accepts)
    {
      hide Emit, Drive, StatePacket, EmitAll, Ring, Effective, BikeNode.State, BikeNode.Valid, BikeNode.Queue;
      ghost var nodeBefore := server.node.State();
      ghost var local := State();
      var target := Arbitrated();
      published := DriveOutputs(target);
      assert server.node.State() == nodeBefore && State() == local;
      if published {
        var sent := server.PublishState(MAIN_COMPUTER, now);
      }
    }

    method Service(now: u32) returns (ghost published: bool)
      requires Valid()
      modifies this`lastToggle, this`blinkOn, this`previous, this`initialized
      modifies left, right, front, rear, high, server.hardware
      modifies server.node`sequence, server.node`pending, server.node.transport`log
      ensures Valid() && State() == Controlled(old(State()), inputs.switches, now, cfg)
      ensures (server.State(), published)
           == Drive(old(server.State()), Effective(State(), server.commanded), server.hardware.works)
      ensures server.node.State()
           == Reported(old(server.node.State()), published, server.hardware.lamps, server.node.transport.accepts)
    {
      hide Sampled, Flashed, Drive, Reported, Effective, Ring, BikeNode.State, BikeNode.Valid;
      SampleInputs(now);
      Flash(now);
      published := Arbitrate(now);
    }
  }

  // ---- what a loop guarantees -------------------------------------------------------------------

  /**
   With outputs that always take a write, every loop ends with each output showing exactly what local
   control and the network command ask for, whatever was driven before; a report is due exactly when
   something changed.
   */
  lemma LoopEndsArbitrated(l: Light, target: Lamps, works: nat -> bool)
    requires forall n :: works(n)
    ensures var (l', changed) := Drive(l, target, works);
      l'.actual == target && l'.commanded == l.commanded && (changed <==> l.actual != target)
  {
    hide WriteIfChanged;
    WriteShows(l, LeftIndicator, target.left, works);
    var l1 := WriteIfChanged(l, LeftIndicator, target.left, works).0;
    WriteShows(l1, RightIndicator, target.right, works);
    var l2 := WriteIfChanged(l1, RightIndicator, target.right, works).0;
    WriteShows(l2, BrakeBright, target.brake, works);
    var l3 := WriteIfChanged(l2, BrakeBright, target.brake, works).0;
    WriteShows(l3, HighBeam, target.high, works);
    SameLamps(Drive(l, target, works).0.actual, target);
  }

  lemma WriteShows(l: Light, o: Output, on: bool, works: nat -> bool)
    requires forall n :: works(n)
    ensures var (l', changed) := WriteIfChanged(l, o, on, works);
      && l'.commanded == l.commanded && (changed <==> Get(l.actual, o) != on)
      && forall x :: Get(l'.actual, x) == if x == o then on else Get(l.actual, x)
  {
  }

  lemma SameLamps(a: Lamps, b: Lamps)
    requires forall o :: Get(a, o) == Get(b, o)
    ensures a == b
  {
    assert Get(a, LeftIndicator) == Get(b, LeftIndicator) && Get(a, RightIndicator) == Get(b, RightIndicator);
    assert Get(a, BrakeBright) == Get(b, BrakeBright) && Get(a, HighBeam) == Get(b, HighBeam);
  }

  /** How many outputs differ from their targets, left, right, brake and high beam in that order, before the n-th. */
  function Differing(actual: Lamps, target: Lamps, n: nat): nat {
    (if n > 0 && actual.left != target.left then 1 else 0) + (if n > 1 && actual.right != target.right then 1 else 0)
    + (if n > 2 && actual.brake != target.brake then 1 else 0) + (if n > 3 && actual.high != target.high then 1 else 0)
  }

  /**
   Whatever writes fail: a loop writes each output that differs from its target once, in order, and no other; an
   output whose write is taken shows its target, and one whose write is refused stays.
   */
  lemma LoopWritesDiffering(l: Light, target: Lamps, works: nat -> bool)
    ensures var (l', changed) := Drive(l, target, works);
      var a, w := l.actual, l.writes;
      && l' == Light(l.commanded, Lamps(
           if works(w) then target.left else a.left,
           if works(w + Differing(a, target, 1)) then target.right else a.right,
           if works(w + Differing(a, target, 2)) then target.brake else a.brake,
           if works(w + Differing(a, target, 3)) then target.high else a.high), w + Differing(a, target, 4))
      && (changed <==> a != target)
  {
    hide WriteIfChanged, Differing;
    DifferingCounts(l.actual, target);
    IndicatorWrites(l, target, works);
    var l1 := WriteIfChanged(l, LeftIndicator, target.left, works).0;
    var l2 := WriteIfChanged(l1, RightIndicator, target.right, works).0;
    MainWrites(l2, target, works);
  }

  lemma IndicatorWrites(l: Light, target: Lamps, works: nat -> bool)
    ensures var (l1, c1) := WriteIfChanged(l, LeftIndicator, target.left, works);
      var (l2, c2) := WriteIfChanged(l1, RightIndicator, target.right, works);
      var a, w := l.actual, l.writes;
      var v := if a.left != target.left then w + 1 else w;
      && l2.commanded == l.commanded && l2.writes == (if a.right != target.right then v + 1 else v)
      && l2.actual == a.(left := if works(w) then target.left else a.left,
                         right := if works(v) then target.right else a.right)
      && (c1 || c2 <==> a.left != target.left || a.right != target.right)
  {
    hide WriteIfChanged;
    WriteOne(l, LeftIndicator, target.left, works);
    WriteOne(WriteIfChanged(l, LeftIndicator, target.left, works).0, RightIndicator, target.right, works);
  }

  lemma MainWrites(l: Light, target: Lamps, works: nat -> bool)
    ensures var (l1, c1) := WriteIfChanged(l, BrakeBright, target.brake, works);
      var (l2, c2) := WriteIfChanged(l1, HighBeam, target.high, works);
      var a, w := l.actual, l.writes;
      var v := if a.brake != target.brake then w + 1 else w;
      && l2.commanded == l.commanded && l2.writes == (if a.high != target.high then v + 1 else v)
      && l2.actual == a.(brake := if works(w) then target.brake else a.brake,
                         high := if works(v) then target.high else a.high)
      && (c1 || c2 <==> a.brake != target.brake || a.high != target.high)
  {
    hide WriteIfChanged;
    WriteOne(l, BrakeBright, target.brake, works);
    WriteOne(WriteIfChanged(l, BrakeBright, target.brake, works).0, HighBeam, target.high, works);
  }

  lemma DifferingCounts(a: Lamps, b: Lamps)
    ensures Differing(a, b, 0) == 0
    ensures Differing(a, b, 1) == if a.left != b.left then 1 else 0
    ensures Differing(a, b, 2) == Differing(a, b, 1) + if a.right != b.right then 1 else 0
    ensures Differing(a, b, 3) == Differing(a, b, 2) + if a.brake != b.brake then 1 else 0
    ensures Differing(a, b, 4) == Differing(a, b, 3) + if a.high != b.high then 1 else 0
  {
  }

  lemma WriteOne(l: Light, o: Output, on: bool, works: nat -> bool)
    ensures var (l', changed) := WriteIfChanged(l, o, on, works);
      var now := Get(l.actual, o);
      var shown := if works(l.writes) then on else now;
      && (changed <==> now != on) && l'.commanded == l.commanded
      && l'.writes == (if changed then l.writes + 1 else l.writes)
      && l'.actual == match o
                      case LeftIndicator => l.actual.(left := shown)
                      case RightIndicator => l.actual.(right := shown)
                      case BrakeBright => l.actual.(brake := shown)
                      case HighBeam => l.actual.(high := shown)
  {
  }

  /** A loop that differed sends the main computer one state report, of the lamps as they then are; others send none. */
  lemma LoopReports(io: Io, changed: bool, actual: Lamps, accepts: nat -> bool)
    ensures Reported(io, changed, actual, accepts).log
         == if !changed then io.log
            else io.log + [WriteEvent(Encode(Packet(io.address, 0x01, 0x11, 0x00, io.sequence, [
              0x01, if actual.left then 1 else 0, 0x02, if actual.right then 1 else 0,
              0x03, if actual.brake then 1 else 0, 0x04, if actual.high then 1 else 0])), accepts(|io.log|))]
  {
    hide Encode;
  }

  /** The rider asks for an indicator: the debounced left or right switch is on. */
  predicate Requested(l: Local) {
    l.left.stable || l.right.stable
  }

  datatype LoopOp =
    | Network(packet: Packet)
    | Loop(t: nat, switches: Switches)

  /** Everything that changes over a run; `phaseStart` is an observer's note, not a field. */
  datatype World = World(light: Light, local: Local, phaseStart: nat)

  function Boot(): World {
    World(Light(ALL_OFF, ALL_OFF, 0), BOOT, 0)
  }

  /** A flash phase begins at boot, whenever no local indicator is requested, with an episode, and with a toggle. */
  function Next(w: World, op: LoopOp, cfg: Config, works: nat -> bool, identity: seq<byte>): World {
    match op
    case Network(p) => w.(light := HandlePacket(w.light, p, works, identity).0)
    case Loop(t, switches) =>
      var local := Controlled(w.local, switches, Clock(t), cfg);
      World(Drive(w.light, Effective(local, w.light.commanded), works).0, local,
            if !w.local.initialized || !Requested(local) || !Requested(w.local)
               || local.blinkOn != w.local.blinkOn then t else w.phaseStart)
  }

  function After(ops: seq<LoopOp>, cfg: Config, works: nat -> bool, identity: seq<byte>): World {
    if ops == [] then Boot()
    else Next(After(ops[..|ops| - 1], cfg, works, identity), ops[|ops| - 1], cfg, works, identity)
  }

  /**
   The brake lamp after every loop, over any mix of network commands and switch inputs; both indicators flash in
   phase.
   */
  lemma BrakeAlwaysHonoured(ops: seq<LoopOp>, cfg: Config, works: nat -> bool, identity: seq<byte>)
    requires forall n :: works(n)
    requires ops != [] && ops[|ops| - 1].Loop?
    ensures var w := After(ops, cfg, works, identity);
      var lamps, local := w.light.actual, w.local;
      && (lamps.brake <==> local.front.stable || local.rear.stable || w.light.commanded.brake)
      && (lamps.high <==> local.high.stable || w.light.commanded.high)
      && (local.left.stable ==> lamps.left == local.blinkOn)
      && (local.right.stable ==> lamps.right == local.blinkOn)
      && (!local.left.stable ==> lamps.left == w.light.commanded.left)
      && (!local.right.stable ==> lamps.right == w.light.commanded.right)
  {
    hide Controlled, Drive;
    var before := After(ops[..|ops| - 1], cfg, works, identity);
    var op := ops[|ops| - 1];
    var local := Controlled(before.local, op.switches, Clock(op.t), cfg);
    LoopEndsArbitrated(before.light, Effective(local, before.light.commanded), works);
  }

  datatype Switch = LeftSwitch | RightSwitch | FrontBrake | RearBrake | HighSwitch

  function Read(s: Switches, which: Switch): bool {
    match which
    case LeftSwitch => s.left
    case RightSwitch => s.right
    case FrontBrake => s.front
    case RearBrake => s.rear
    case HighSwitch => s.high
  }

  function DebounceOf(l: Local, which: Switch): Debounce {
    match which
    case LeftSwitch => l.left
    case RightSwitch => l.right
    case FrontBrake => l.front
    case RearBrake => l.rear
    case HighSwitch => l.high
  }

  /** The samples of one switch over a run. */
  function Readings(ops: seq<LoopOp>, which: Switch): seq<Sample> {
    if ops == [] then []
    else
      var op := ops[|ops| - 1];
      Readings(ops[..|ops| - 1], which) + if op.Loop? then [Sample(op.t, Read(op.switches, which))] else []
  }

  lemma UnsampledAtBoot(which: Switch)
    ensures DebounceOf(BOOT, which) == UNSAMPLED
  {
  }

  lemma ControlUpdatesSwitch(l: Local, s: Switches, now: u32, cfg: Config, which: Switch)
    ensures DebounceOf(Controlled(l, s, now, cfg), which)
         == Update(DebounceOf(l, which), Read(s, which), now, cfg.debounce).0
  {
    hide Update;
  }

  /** Each debounced switch is the debounce of its own samples alone, whatever the network does. */
  lemma {:induction false} SwitchesAreIndependent(ops: seq<LoopOp>, which: Switch, cfg: Config,
                                                  works: nat -> bool, identity: seq<byte>)
    ensures DebounceOf(After(ops, cfg, works, identity).local, which)
         == Debounced(Readings(ops, which), cfg.debounce)
  {
    hide Update, Drive, HandlePacket, Controlled, DebounceOf, Read, Effective;
    if ops == [] {
      UnsampledAtBoot(which);
    } else {
      var n := |ops| - 1;
      SwitchesAreIndependent(ops[..n], which, cfg, works, identity);
      var h := Readings(ops[..n], which);
      if ops[n].Loop? {
        ControlUpdatesSwitch(After(ops[..n], cfg, works, identity).local, ops[n].switches, Clock(ops[n].t), cfg,
                             which);
        assert (h + [Sample(ops[n].t, Read(ops[n].switches, which))])[..|h|] == h;
      } else {
        assert h + [] == h;
      }
    }
  }

  /**
   A flash episode starts ON, with one exception: at the very first loop after boot with a
   half-period of zero the lamp starts OFF.
   */
  lemma EpisodeStartsOn(l: Local, s: Switches, now: u32, cfg: Config)
    requires var l' := Controlled(l, s, now, cfg); Requested(l') && (l.initialized ==> !l.previous)
    ensures Controlled(l, s, now, cfg).blinkOn <==> l.initialized || cfg.halfPeriod != 0
  {
    hide Update;
  }

  /** At the loop that begins an episode every requested indicator lamp shows ON, with that one exception. */
  lemma EpisodeLightsLamps(ops: seq<LoopOp>, cfg: Config, works: nat -> bool, identity: seq<byte>)
    requires forall n :: works(n)
    requires ops != [] && ops[|ops| - 1].Loop?
    requires var before := After(ops[..|ops| - 1], cfg, works, identity).local;
      Requested(After(ops, cfg, works, identity).local) && (before.initialized ==> !before.previous)
    ensures var w := After(ops, cfg, works, identity);
      var on := After(ops[..|ops| - 1], cfg, works, identity).local.initialized || cfg.halfPeriod != 0;
      && (w.local.left.stable ==> w.light.actual.left == on)
      && (w.local.right.stable ==> w.light.actual.right == on)
  {
    hide Controlled, Drive;
    var op := ops[|ops| - 1];
    BrakeAlwaysHonoured(ops, cfg, works, identity);
    EpisodeStartsOn(After(ops[..|ops| - 1], cfg, works, identity).local, op.switches, Clock(op.t), cfg);
  }

  /**
   The exception at work: the left switch on at boot, a half-period of zero, and after the first loop the lamp is
   off.
   */
  lemma FirstEpisodeCanStartOff(t: nat, debounce: u32, works: nat -> bool, identity: seq<byte>)
    requires forall n :: works(n)
    ensures var w := After([Loop(t, Switches(true, false, false, false, false))], Config(debounce, 0), works, identity);
      w.local.left.stable && !w.light.actual.left
  {
    hide Drive;
    var ops, cfg := [Loop(t, Switches(true, false, false, false, false))], Config(debounce, 0);
    assert ops[..0] == [] && After([], cfg, works, identity) == Boot();
    EpisodeLightsLamps(ops, cfg, works, identity);
  }

  lemma {:induction false} PhaseIsTracked(ops: seq<LoopOp>, cfg: Config, works: nat -> bool, identity: seq<byte>)
    requires forall i, j :: 0 <= i <= j < |ops| && ops[i].Loop? && ops[j].Loop? ==> ops[i].t <= ops[j].t
    ensures var w := After(ops, cfg, works, identity);
      && (w.local.initialized ==>
            w.local.lastToggle == Clock(w.phaseStart) && w.local.previous == Requested(w.local))
      && (w.local.initialized || w.phaseStart == 0)
      && (w.phaseStart == 0 || exists i :: 0 <= i < |ops| && ops[i].Loop? && ops[i].t == w.phaseStart)
  {
    hide Update, Drive, HandlePacket;
    if ops != [] {
      var n := |ops| - 1;
      PhaseIsTracked(ops[..n], cfg, works, identity);
      var before := After(ops[..n], cfg, works, identity);
      if before.phaseStart != 0 {
        var i :| 0 <= i < n && ops[..n][i].Loop? && ops[..n][i].t == before.phaseStart;
        assert ops[i].Loop? && ops[i].t == before.phaseStart;
      }
      if ops[n].Loop? && before.local.initialized && cfg.halfPeriod == 0 {
        assert Elapsed(Clock(ops[n].t), before.local.lastToggle) >= 0;
      }
    }
  }

  /**
   While an indicator stays requested, the lamp toggles no sooner than half a period of real time after the phase
   began.
   */
  lemma TogglesAreSpaced(ops: seq<LoopOp>, t: nat, s: Switches, cfg: Config, works: nat -> bool,
                         identity: seq<byte>)
    requires var all := ops + [Loop(t, s)];
      forall i, j :: 0 <= i <= j < |all| && all[i].Loop? && all[j].Loop? ==> all[i].t <= all[j].t
    requires var before := After(ops, cfg, works, identity).local;
      var after := Controlled(before, s, Clock(t), cfg);
      before.initialized && Requested(before) && after.blinkOn != before.blinkOn && Requested(after)
    ensures t - After(ops, cfg, works, identity).phaseStart >= cfg.halfPeriod
  {
    hide Update, After;
    var all := ops + [Loop(t, s)];
    forall i, j | 0 <= i <= j < |ops| && ops[i].Loop? && ops[j].Loop?
      ensures ops[i].t <= ops[j].t
    {
      assert all[i] == ops[i] && all[j] == ops[j];
    }
    PhaseIsTracked(ops, cfg, works, identity);
    var start := After(ops, cfg, works, identity).phaseStart;
    if start != 0 {
      var i :| 0 <= i < |ops| && ops[i].Loop? && ops[i].t == start;
      assert all[i] == ops[i] && all[|ops|] == Loop(t, s);
    }
    ElapsedIsModular(t, start);
  }

  /** Loop times never go back. */
  ghost predicate LoopsInOrder(ops: seq<LoopOp>) {
    forall i, j :: 0 <= i <= j < |ops| && ops[i].Loop? && ops[j].Loop? ==> ops[i].t <= ops[j].t
  }

  /** The flasher as the loop at real time `t` leaves it. */
  function LoopedAt(ops: seq<LoopOp>, t: nat, s: Switches, cfg: Config, works: nat -> bool,
                    identity: seq<byte>): Local {
    After(ops + [Loop(t, s)], cfg, works, identity).local
  }

  /**
   The flasher flashes: while an indicator stays requested, a loop toggles the phase if and only if it comes at least
   half a period of real time after the phase began, provided less than one clock wrap has passed; an active phase
   is shown by every requested indicator lamp where outputs take their writes.
   */
  lemma TogglesWhen(ops: seq<LoopOp>, t: nat, s: Switches, cfg: Config, works: nat -> bool, identity: seq<byte>)
    requires LoopsInOrder(ops + [Loop(t, s)])
    requires var before := After(ops, cfg, works, identity);
      before.local.initialized && Requested(before.local) && t - before.phaseStart < TWO32
    requires Requested(LoopedAt(ops, t, s, cfg, works, identity))
    ensures var before, w := After(ops, cfg, works, identity), After(ops + [Loop(t, s)], cfg, works, identity);
      && (w.local.blinkOn != before.local.blinkOn <==> t - before.phaseStart >= cfg.halfPeriod)
      && w.phaseStart == (if t - before.phaseStart >= cfg.halfPeriod then t else before.phaseStart)
      && ((forall n :: works(n)) && w.local.left.stable ==> w.light.actual.left == w.local.blinkOn)
      && ((forall n :: works(n)) && w.local.right.stable ==> w.light.actual.right == w.local.blinkOn)
  {
    hide Update, After, Drive, Effective;
    var all := ops + [Loop(t, s)];
    AfterNext(ops, Loop(t, s), cfg, works, identity);
    StartsBefore(ops, t, s, cfg, works, identity);
    ElapsedIsModular(t, After(ops, cfg, works, identity).phaseStart);
    if forall n :: works(n) {
      BrakeAlwaysHonoured(all, cfg, works, identity);
    }
  }

  lemma AfterNext(ops: seq<LoopOp>, op: LoopOp, cfg: Config, works: nat -> bool, identity: seq<byte>)
    ensures After(ops + [op], cfg, works, identity) == Next(After(ops, cfg, works, identity), op, cfg, works, identity)
  {
    hide Next;
    assert (ops + [op])[..|ops|] == ops;
  }

  /** The phase began at a loop of the run, or at boot, and the toggle stamp says when. */
  lemma StartsBefore(ops: seq<LoopOp>, t: nat, s: Switches, cfg: Config, works: nat -> bool, identity: seq<byte>)
    requires LoopsInOrder(ops + [Loop(t, s)])
    ensures var w := After(ops, cfg, works, identity);
      && w.phaseStart <= t
      && (w.local.initialized ==>
            w.local.lastToggle == Clock(w.phaseStart) && w.local.previous == Requested(w.local))
  {
    hide After, Update;
    var all := ops + [Loop(t, s)];
    forall i, j | 0 <= i <= j < |ops| && ops[i].Loop? && ops[j].Loop?
      ensures ops[i].t <= ops[j].t
    {
      assert all[i] == ops[i] && all[j] == ops[j];
    }
    PhaseIsTracked(ops, cfg, works, identity);
    var start := After(ops, cfg, works, identity).phaseStart;
    if start != 0 {
      var i :| 0 <= i < |ops| && ops[i].Loop? && ops[i].t == start;
      assert all[i] == ops[i] && all[|ops|] == Loop(t, s);
    }
  }

  /** Real time of the newest loop, 0 before there is one. */
  function LastLoop(ops: seq<LoopOp>): nat {
    if ops == [] then 0
    else if ops[|ops| - 1].Loop? then ops[|ops| - 1].t
    else LastLoop(ops[..|ops| - 1])
  }

  /** No loop but the first comes more than `gap` after the one before it. */
  ghost predicate Looped(ops: seq<LoopOp>, gap: nat) {
    forall i :: 0 <= i < |ops| && ops[i].Loop? && (exists j :: 0 <= j < i && ops[j].Loop?) ==>
      ops[i].t - LastLoop(ops[..i]) <= gap
  }

  /**
   No phase is long: with loop gaps of at most `gap`, and half_period + gap below 2^32, after every loop the current
   flash phase began less than half a period, or just now, before; so it ends within half_period + gap.
   */
  lemma {:induction false} PhasesAreShort(ops: seq<LoopOp>, gap: nat, cfg: Config, works: nat -> bool,
                                          identity: seq<byte>)
    requires LoopsInOrder(ops) && Looped(ops, gap) && cfg.halfPeriod + gap < TWO32
    ensures var w := After(ops, cfg, works, identity);
      w.local.initialized ==>
        && (exists i :: 0 <= i < |ops| && ops[i].Loop?)
        && w.phaseStart <= LastLoop(ops)
        && (LastLoop(ops) == w.phaseStart || LastLoop(ops) - w.phaseStart < cfg.halfPeriod)
  {
    hide Update, Drive, HandlePacket, Controlled, Effective;
    if ops != [] {
      var n := |ops| - 1;
      var init, op := ops[..n], ops[n];
      LoopedPrefix(ops, gap);
      PhasesAreShort(init, gap, cfg, works, identity);
      assert ops == init + [op];
      var w := After(init, cfg, works, identity);
      if op.Loop? {
        StartsBefore(init, op.t, op.switches, cfg, works, identity);
        LoopPhase(w, op.t, op.switches, cfg, works, identity);
        if w.local.initialized {
          var i :| 0 <= i < |init| && init[i].Loop?;
          assert ops[i].Loop? && op.t - LastLoop(ops[..n]) <= gap;
          LastLoopBefore(ops);
          ElapsedIsModular(op.t, w.phaseStart);
        }
        assert ops[n].Loop?;
      } else if w.local.initialized {
        var i :| 0 <= i < |init| && init[i].Loop?;
        assert ops[i].Loop?;
      }
    }
  }

  /** One loop either starts a phase now or keeps it, and then the clock shows less than half a period since. */
  lemma LoopPhase(w: World, t: nat, s: Switches, cfg: Config, works: nat -> bool, identity: seq<byte>)
    requires w.local.initialized ==> w.local.previous == Requested(w.local)
    ensures var w' := Next(w, Loop(t, s), cfg, works, identity);
      && w'.local.initialized
      && (w'.phaseStart == t
          || (w'.phaseStart == w.phaseStart && w.local.initialized
              && Elapsed(Clock(t), w.local.lastToggle) < cfg.halfPeriod))
  {
    hide Update, Drive, Effective, Elapsed, Clock;
  }

  lemma LoopedPrefix(ops: seq<LoopOp>, gap: nat)
    requires ops != [] && LoopsInOrder(ops) && Looped(ops, gap)
    ensures var init := ops[..|ops| - 1]; LoopsInOrder(init) && Looped(init, gap)
  {
    var init := ops[..|ops| - 1];
    forall i | 0 <= i < |init| && init[i].Loop? && exists j :: 0 <= j < i && init[j].Loop?
      ensures init[i].t - LastLoop(init[..i]) <= gap
    {
      var j :| 0 <= j < i && init[j].Loop?;
      assert init[..i] == ops[..i] && ops[j].Loop? && ops[i].Loop?;
    }
  }

  /** The newest loop of a run is the last entry, or was not later. */
  lemma LastLoopBefore(ops: seq<LoopOp>)
    requires ops != [] && LoopsInOrder(ops) && ops[|ops| - 1].Loop?
    ensures LastLoop(ops[..|ops| - 1]) <= ops[|ops| - 1].t
  {
    LastLoopIs(ops[..|ops| - 1]);
    var init := ops[..|ops| - 1];
    if LastLoop(init) != 0 {
      var i :| 0 <= i < |init| && init[i].Loop? && init[i].t == LastLoop(init);
      assert ops[i].Loop? && ops[i].t <= ops[|ops| - 1].t;
    }
  }

  lemma {:induction false} LastLoopIs(ops: seq<LoopOp>)
    ensures LastLoop(ops) == 0 || exists i :: 0 <= i < |ops| && ops[i].Loop? && ops[i].t == LastLoop(ops)
  {
    if ops != [] && !ops[|ops| - 1].Loop? {
      LastLoopIs(ops[..|ops| - 1]);
      if LastLoop(ops) != 0 {
        var i :| 0 <= i < |ops| - 1 && ops[..|ops| - 1][i].Loop? && ops[..|ops| - 1][i].t == LastLoop(ops);
        assert ops[i].Loop? && ops[i].t == LastLoop(ops);
      }
    }
  }
}
