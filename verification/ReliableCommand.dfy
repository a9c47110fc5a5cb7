/**
 The commanding node, the lighting node, and a lossy in-order link each way: an acknowledged
 SetOutput was applied, and stays in force until the commander sends another for the same output.
 */
module ReliableCommand {
  import opened Bytes
  import opened Codec
  import opened Node
  import opened NodeRuns
  import opened Lighting

  /** A frame the commander put on the link, with the number of its sequence allocation. */
  datatype Sent = Sent(packet: Packet, id: nat)

  /** An ACK or NACK of the lighting node for the frame at index `of`. */
  datatype Reply = Reply(packet: Packet, of: nat)

  /** A command that an ACK cleared: its packet, allocation, and the index of its first copy. */
  datatype Confirmed = Confirmed(packet: Packet, id: nat, first: nat)

  /**
   `sent` and `replies` are the histories of the two links; `next` and `nextReply` are how far they
   have been delivered. `id` and `first` describe the outstanding command. `applied` lists the
   indices of the frames whose command the lighting node applied, in order.
   */
  datatype Sys = Sys(cmd: Io, allocs: nat, id: nat, first: nat, sent: seq<Sent>, next: nat, light: Light,
                     applied: seq<nat>, replies: seq<Reply>, nextReply: nat, confirmed: seq<Confirmed>)

  /** `autoAck` is the lighting node's setting; the lighting controller switches it off. */
  datatype Env = Env(accepts: nat -> bool, works: nat -> bool, identity: seq<byte>, autoAck: bool)

  datatype SysOp =
    | CmdSend(packet: Packet, t: nat, requireAck: bool)
    | CmdService(t: nat)
    | Deliver(i: nat)
    | DeliverReply(j: nat)

  /** The commander's address and its settings for reliable sends. */
  function Boot(address: byte, timeout: u32, retries: byte): Sys {
    Sys(Start(address).(ackTimeout := timeout, maxRetries := retries), 0, 0, 0, [], 0, Light(ALL_OFF, ALL_OFF, 0), [],
        [], 0, [])
  }

  /** The sequence number of the n-th allocation. */
  function SequenceAt(n: nat): u16 {
    n % 0xFFFF + 1
  }

  /** The packet reaches the lighting application: addressed to it, and not an ACK or NACK. */
  predicate ForLighting(p: Packet) {
    AddressedTo(LIGHTING, p) && !IsControl(p)
  }

  /** The lighting node, with nothing received that waits. */
  function LightingNode(autoAck: bool): Io {
    Start(LIGHTING).(autoAck := autoAck)
  }

  /** The answer the node itself gives before its application sees the packet. */
  function AutoAnswer(p: Packet, of: nat, autoAck: bool): seq<Reply> {
    if autoAck && AckRequired(p) then [Reply(ReplyPacket(LIGHTING, p.source, p.sequence, false), of)] else []
  }

  /** The node's receive path hands on exactly the packets for the application, and answers as AutoAnswer says. */
  lemma ReceptionOf(p: Packet, autoAck: bool, accepts: nat -> bool)
    ensures var node := Accept(LightingNode(autoAck), p, accepts);
      && node.queue == (if ForLighting(p) then [p] else [])
      && node.log == (if ForLighting(p) && AutoAnswer(p, 0, autoAck) != []
                      then [WriteEvent(Encode(AutoAnswer(p, 0, autoAck)[0].packet), accepts(0))] else [])
  {
    hide Encode;
  }

  predicate Applies(l: Light, p: Packet, works: nat -> bool) {
    IsCommand(p) && works(l.writes)
  }

  /** The ACKs and NACKs among what the lighting node sends back. */
  function Answers(outs: seq<Out>, of: nat): seq<Reply> {
    if outs == [] then []
    else
      var o := outs[|outs| - 1];
      Answers(outs[..|outs| - 1], of)
      + if o.Answer? then [Reply(ReplyPacket(LIGHTING, o.destination, o.sequence, o.nack), of)] else []
  }

  ghost function Next(s: Sys, op: SysOp, env: Env): Sys {
    match op
    case CmdSend(p, t, requireAck) =>
      var (cmd, ok) := Send(s.cmd, p, Clock(t), requireAck, env.accepts);
      var s' := s.(cmd := cmd, allocs := s.allocs + 1,
                   sent := if ok then s.sent + [Sent(Stamped(s.cmd, p, requireAck), s.allocs)] else s.sent);
      if ok && requireAck then s'.(id := s.allocs, first := |s.sent|) else s'
    case CmdService(t) =>
      var cmd := Service(s.cmd, Clock(t), env.accepts);
      s.(cmd := cmd, sent := if Wrote(s.cmd, cmd) then s.sent + [Sent(s.cmd.pending.packet, s.id)] else s.sent)
    case Deliver(i) =>
      if i >= |s.sent| || Accept(LightingNode(env.autoAck), s.sent[i].packet, env.accepts).queue == []
        then s.(next := i + 1)
      else
        var p := Accept(LightingNode(env.autoAck), s.sent[i].packet, env.accepts).queue[0];
        var (light, outs) := HandlePacket(s.light, p, env.works, env.identity);
        s.(next := i + 1, light := light,
           replies := s.replies + AutoAnswer(p, i, env.autoAck) + Answers(outs, i),
           applied := if Applies(s.light, p, env.works) then s.applied + [i] else s.applied)
    case DeliverReply(j) =>
      if j >= |s.replies| || !AddressedTo(s.cmd.address, s.replies[j].packet) then s.(nextReply := j + 1)
      else
        var pending := HandleControl(s.cmd.pending, s.replies[j].packet);
        s.(nextReply := j + 1, cmd := s.cmd.(pending := pending),
           confirmed := if s.cmd.pending.active && !pending.active
             then s.confirmed + [Confirmed(s.cmd.pending.packet, s.id, s.first)] else s.confirmed)
  }

  /** Fewer than 65535 allocations were made since the frame with this id was allocated. */
  predicate Recent(s: Sys, id: nat) {
    s.allocs - id <= 0xFFFF
  }

  /**
   What the environment may do: the commander's applications leave the sequence number to the node;
   links lose frames but keep order; and no answered or outstanding frame is older than 65535 allocations.
   */
  ghost predicate Enabled(s: Sys, op: SysOp) {
    match op
    case CmdSend(p, t, requireAck) => p.sequence == 0 && !IsControl(p)
    case CmdService(t) => true
    case Deliver(i) => s.next <= i < |s.sent|
    case DeliverReply(j) =>
      && s.nextReply <= j < |s.replies|
      && (s.replies[j].of < |s.sent| ==> Recent(s, s.sent[s.replies[j].of].id))
      && (s.cmd.pending.active ==> Recent(s, s.id))
  }

  ghost predicate Runs(s: Sys, ops: seq<SysOp>, env: Env) {
    ops == [] || (Runs(s, ops[..|ops| - 1], env) && Enabled(After(s, ops[..|ops| - 1], env), ops[|ops| - 1]))
  }

  ghost function After(s: Sys, ops: seq<SysOp>, env: Env): Sys {
    if ops == [] then s else Next(After(s, ops[..|ops| - 1], env), ops[|ops| - 1], env)
  }

  // ---- sequence numbers ---------------------------------------------------------------------

  lemma SequenceFollows(n: nat)
    ensures NextSequence(SequenceAt(n)) == SequenceAt(n + 1)
  {
    var q, r := n / 0xFFFF, n % 0xFFFF;
    assert n == 0xFFFF * q + r;
    if r == 0xFFFE {
      assert n + 1 == 0xFFFF * (q + 1);
    } else {
      assert n + 1 == 0xFFFF * q + (r + 1);
    }
  }

  /** Within a window of 65535 allocations a sequence number identifies its allocation. */
  lemma SequenceIdentifies(s: Sys, a: nat, b: nat)
    requires SequenceAt(a) == SequenceAt(b) && a < s.allocs && b < s.allocs && Recent(s, a) && Recent(s, b)
    ensures a == b
  {
    var d := a / 0xFFFF - b / 0xFFFF;
    assert a - b == 0xFFFF * d;
    assert -0xFFFF < a - b < 0xFFFF;
  }

  // ---- invariants ------------------------------------------------------------------------------

  ghost predicate SentOk(s: Sys) {
    && s.cmd.sequence == SequenceAt(s.allocs)
    && (forall i :: 0 <= i < |s.sent| ==>
          s.sent[i].id < s.allocs && s.sent[i].packet.sequence == SequenceAt(s.sent[i].id))
    && (forall i, j :: 0 <= i < |s.sent| && 0 <= j < |s.sent| && s.sent[i].id == s.sent[j].id ==>
          s.sent[i].packet == s.sent[j].packet)
    && (s.cmd.pending.active ==>
          && s.first < |s.sent| && s.sent[s.first] == Sent(s.cmd.pending.packet, s.id)
          && forall k :: 0 <= k < |s.sent| && s.sent[k].id == s.id ==> s.first <= k)
  }

  ghost predicate AppliedOk(s: Sys) {
    && s.next <= |s.sent|
    && (forall k :: k in s.applied ==> k < s.next && IsCommand(s.sent[k].packet))
    && (forall i, j :: 0 <= i < j < |s.applied| ==> s.applied[i] < s.applied[j])
    && (forall o :: Get(s.light.commanded, o) == Latest(s.applied, s.sent, o))
  }

  /** The value the newest applied command for output `o` asked for. */
  ghost function Latest(applied: seq<nat>, sent: seq<Sent>, o: Output): bool {
    if applied == [] then false
    else
      var k := applied[|applied| - 1];
      if k < |sent| && IsCommand(sent[k].packet) && Target(sent[k].packet) == o then Wish(sent[k].packet)
      else Latest(applied[..|applied| - 1], sent, o)
  }

  ghost predicate RepliesOk(s: Sys) {
    forall j :: 0 <= j < |s.replies| ==> ReplyOk(s, s.replies[j])
  }

  /** An answer carries its frame's sequence number; an ACK for a SetOutput follows its application. */
  ghost predicate ReplyOk(s: Sys, r: Reply) {
    && r.of < s.next <= |s.sent| && r.packet.sequence == s.sent[r.of].packet.sequence
    && (r.packet.kind == ACK && s.sent[r.of].packet.kind == SET_OUTPUT ==> r.of in s.applied)
  }

  ghost predicate ConfirmedOk(s: Sys) {
    forall c :: c in s.confirmed ==>
      && c.first < |s.sent| && s.sent[c.first] == Sent(c.packet, c.id)
      && (c.packet.kind == SET_OUTPUT ==> WasApplied(s, c))
  }

  /** A copy of the command, sent at or after the first one, was applied. */
  ghost predicate WasApplied(s: Sys, c: Confirmed) {
    exists k :: k in s.applied && k < |s.sent| && c.first <= k && s.sent[k] == Sent(c.packet, c.id)
  }

  ghost predicate Inv(s: Sys) {
    SentOk(s) && AppliedOk(s) && RepliesOk(s) && ConfirmedOk(s)
  }

  // ---- each step keeps them -----------------------------------------------------------------------

  lemma {:induction false} LatestGrows(applied: seq<nat>, sent: seq<Sent>, more: seq<Sent>, o: Output)
    requires forall k :: k in applied ==> k < |sent|
    ensures Latest(applied, sent + more, o) == Latest(applied, sent, o)
  {
    if applied != [] {
      var n := |applied| - 1;
      assert applied[n] in applied && forall k :: k in applied[..n] ==> k in applied;
      LatestGrows(applied[..n], sent, more, o);
    }
  }

  /** Putting another frame on the link disturbs nothing that was delivered. */
  lemma SendingKeepsRest(s: Sys, s': Sys, more: seq<Sent>)
    requires AppliedOk(s) && RepliesOk(s) && ConfirmedOk(s)
    requires s' == s.(cmd := s'.cmd, allocs := s'.allocs, id := s'.id, first := s'.first, sent := s.sent + more)
    ensures AppliedOk(s') && RepliesOk(s') && ConfirmedOk(s')
  {
    forall o {
      LatestGrows(s.applied, s.sent, more, o);
    }
    forall j | 0 <= j < |s'.replies|
      ensures ReplyOk(s', s'.replies[j])
    {
      assert ReplyOk(s, s.replies[j]);
    }
    forall c | c in s'.confirmed && c.packet.kind == SET_OUTPUT
      ensures WasApplied(s', c)
    {
      assert WasApplied(s, c);
      var k :| k in s.applied && k < |s.sent| && c.first <= k && s.sent[k] == Sent(c.packet, c.id);
      assert s'.sent[k] == s.sent[k];
    }
  }

  lemma SendKeepsInv(s: Sys, op: SysOp, env: Env)
    requires Inv(s) && Enabled(s, op) && op.CmdSend?
    ensures Inv(Next(s, op, env))
  {
    hide WritePacket, AppliedOk, RepliesOk, ConfirmedOk, SequenceAt, NextSequence;
    var s' := Next(s, op, env);
    SequenceFollows(s.allocs);
    WriteKeepsFields(s.cmd, Stamped(s.cmd, op.packet, op.requireAck), env.accepts);
    WriteKeepsFields(s.cmd.(sequence := NextSequence(s.cmd.sequence)),
                     Stamped(s.cmd, op.packet, op.requireAck), env.accepts);
    var more := if s'.sent == s.sent then [] else [s'.sent[|s.sent|]];
    assert s'.sent == s.sent + more;
    SendingKeepsRest(s, s', more);
  }

  lemma WriteKeepsFields(io: Io, p: Packet, accepts: nat -> bool)
    ensures var r := WritePacket(io, p, accepts).0; r == io.(log := r.log)
  {
    hide Encode;
  }

  lemma ServiceKeepsInv(s: Sys, op: SysOp, env: Env)
    requires Inv(s) && op.CmdService?
    ensures Inv(Next(s, op, env))
  {
    hide Encode, AppliedOk, RepliesOk, ConfirmedOk, SequenceAt;
    var s' := Next(s, op, env);
    var more := if s'.sent == s.sent then [] else [s'.sent[|s.sent|]];
    assert s'.sent == s.sent + more;
    SendingKeepsRest(s, s', more);
  }

  lemma AnswersOf(outs: seq<Out>, of: nat)
    requires |outs| <= 2
    ensures forall r :: r in Answers(outs, of) ==>
      && r.of == of
      && (exists o :: o in outs && o.Answer?
            && r.packet == ReplyPacket(LIGHTING, o.destination, o.sequence, o.nack))
  {
    if |outs| >= 1 {
      assert outs[|outs| - 1] in outs;
      assert |outs| == 2 ==> outs[..1][0] == outs[0];
    }
  }

  /** Every answer carries the command's sequence number; only an applied SetOutput is ACKed. */
  lemma HandleAnswers(l: Light, p: Packet, env: Env)
    ensures var (l', outs) := HandlePacket(l, p, env.works, env.identity);
      && |outs| <= 2
      && (forall o :: o in outs && o.Answer? ==>
            o.sequence == p.sequence && (p.kind == SET_OUTPUT && !o.nack ==> Applies(l, p, env.works)))
      && (forall o :: Get(l'.commanded, o) ==
            if Applies(l, p, env.works) && Target(p) == o then Wish(p) else Get(l.commanded, o))
  {
  }

  lemma DeliverKeepsInv(s: Sys, op: SysOp, env: Env)
    requires Inv(s) && Enabled(s, op) && op.Deliver? && !env.autoAck
    ensures Inv(Next(s, op, env))
  {
    hide HandlePacket, Answers, Applies, SentOk, Accept;
    ReceptionOf(s.sent[op.i].packet, env.autoAck, env.accepts);
    var s' := Next(s, op, env);
    var p := s.sent[op.i].packet;
    assert SentOk(s') by {
      SentOkFramed(s, s');
    }
    if ForLighting(p) {
      var (light, outs) := HandlePacket(s.light, p, env.works, env.identity);
      HandleAnswers(s.light, p, env);
      AnswersOf(outs, op.i);
      AppliesIsCommand(s.light, p, env.works);
    }
    DeliverKeepsApplied(s, op, env);
    assert forall k :: k in s.applied ==> k in s'.applied;
    forall j | 0 <= j < |s'.replies|
      ensures ReplyOk(s', s'.replies[j])
    {
      if j < |s.replies| {
        assert ReplyOk(s, s.replies[j]);
      } else {
        assert s'.replies[j] in Answers(HandlePacket(s.light, p, env.works, env.identity).1, op.i);
      }
    }
    forall c | c in s'.confirmed && c.packet.kind == SET_OUTPUT
      ensures WasApplied(s', c)
    {
      assert WasApplied(s, c);
    }
  }

  lemma DeliverKeepsApplied(s: Sys, op: SysOp, env: Env)
    requires AppliedOk(s) && Enabled(s, op) && op.Deliver?
    ensures AppliedOk(Next(s, op, env))
  {
    hide HandlePacket, Answers, IsCommand, Target, Wish, Get, Accept;
    ReceptionOf(s.sent[op.i].packet, env.autoAck, env.accepts);
    var s' := Next(s, op, env);
    var p := s.sent[op.i].packet;
    if ForLighting(p) {
      HandleAnswers(s.light, p, env);
      if Applies(s.light, p, env.works) {
        assert s'.applied[..|s.applied|] == s.applied && s'.applied[|s.applied|] == op.i;
        forall i | 0 <= i < |s.applied|
          ensures s.applied[i] < op.i
        {
          assert s.applied[i] in s.applied;
        }
      }
    }
  }

  lemma AppliesIsCommand(l: Light, p: Packet, works: nat -> bool)
    ensures Applies(l, p, works) ==> IsCommand(p)
  {
  }

  lemma SentOkFramed(s: Sys, s': Sys)
    requires SentOk(s) && s'.cmd == s.cmd && s'.allocs == s.allocs && s'.sent == s.sent
    requires s'.id == s.id && s'.first == s.first
    ensures SentOk(s')
  {
  }

  lemma ReplyKeepsInv(s: Sys, op: SysOp, env: Env)
    requires Inv(s) && Enabled(s, op) && op.DeliverReply?
    ensures Inv(Next(s, op, env))
  {
    hide SequenceAt, IsCommand;
    var s' := Next(s, op, env);
    var r := s.replies[op.j];
    assert ReplyOk(s, r);
    forall j | 0 <= j < |s'.replies|
      ensures ReplyOk(s', s'.replies[j])
    {
      assert ReplyOk(s, s.replies[j]);
    }
    if s'.confirmed != s.confirmed {
      SequenceIdentifies(s, s.id, s.sent[r.of].id);
      var c := Confirmed(s.cmd.pending.packet, s.id, s.first);
      assert s.sent[r.of] == Sent(c.packet, c.id);
      assert c.packet.kind == SET_OUTPUT ==> WasApplied(s', c);
    }
    forall c | c in s.confirmed && c.packet.kind == SET_OUTPUT
      ensures WasApplied(s', c)
    {
      assert WasApplied(s, c);
    }
  }

  lemma {:induction false} RunKeepsInv(address: byte, timeout: u32, retries: byte, ops: seq<SysOp>, env: Env)
    requires Runs(Boot(address, timeout, retries), ops, env) && !env.autoAck
    ensures Inv(After(Boot(address, timeout, retries), ops, env))
  {
    hide Next, Enabled;
    if ops == [] {
    } else {
      hide Inv;
      var init, op := ops[..|ops| - 1], ops[|ops| - 1];
      var mid := After(Boot(address, timeout, retries), init, env);
      RunKeepsInv(address, timeout, retries, init, env);
      match op
      case CmdSend(_, _, _) => SendKeepsInv(mid, op, env);
      case CmdService(_) => ServiceKeepsInv(mid, op, env);
      case Deliver(_) => DeliverKeepsInv(mid, op, env);
      case DeliverReply(_) => ReplyKeepsInv(mid, op, env);
    }
  }

  // ---- the result ----------------------------------------------------------------------------------

  /** No frame after the command's first copy commands output `o`, other than further copies. */
  ghost predicate NotSuperseded(s: Sys, c: Confirmed, o: Output) {
    forall k :: c.first < k < |s.sent| && IsCommand(s.sent[k].packet) && Target(s.sent[k].packet) == o ==>
      s.sent[k].id == c.id
  }

  lemma {:induction false} LatestIs(s: Sys, applied: seq<nat>, k: nat, c: Confirmed, o: Output)
    requires SentOk(s) && NotSuperseded(s, c, o)
    requires c.first < |s.sent| && s.sent[c.first] == Sent(c.packet, c.id)
    requires IsCommand(c.packet) && Target(c.packet) == o
    requires k in applied && c.first <= k && s.sent[..|s.sent|] == s.sent && k < |s.sent|
    requires s.sent[k] == Sent(c.packet, c.id)
    requires forall i :: i in applied ==> i < |s.sent|
    requires forall i, j :: 0 <= i < j < |applied| ==> applied[i] < applied[j]
    ensures Latest(applied, s.sent, o) == Wish(c.packet)
    decreases |applied|
  {
    var n := |applied| - 1;
    var last := applied[n];
    assert last in applied && forall i :: i in applied[..n] ==> i in applied;
    if IsCommand(s.sent[last].packet) && Target(s.sent[last].packet) == o {
      assert c.first <= last;
    } else {
      assert k in applied[..n];
      LatestIs(s, applied[..n], k, c, o);
    }
  }

  /**
   Over any run: a SetOutput that an ACK cleared was applied by the lighting node, and until the
   commander sends another SetOutput for that output, its value is the one in force, whatever
   retries, losses and stale answers occur.
   */
  lemma AckedCommandIsInForce(address: byte, timeout: u32, retries: byte, ops: seq<SysOp>, env: Env, c: Confirmed)
    requires Runs(Boot(address, timeout, retries), ops, env) && !env.autoAck
    requires c in After(Boot(address, timeout, retries), ops, env).confirmed && c.packet.kind == SET_OUTPUT
    ensures var s := After(Boot(address, timeout, retries), ops, env);
      && WasApplied(s, c) && IsCommand(c.packet)
      && (NotSuperseded(s, c, Target(c.packet)) ==>
            Get(s.light.commanded, Target(c.packet)) == Wish(c.packet))
  {
    hide After, Runs, IsCommand, Target, Wish;
    RunKeepsInv(address, timeout, retries, ops, env);
    var s := After(Boot(address, timeout, retries), ops, env);
    var k :| k in s.applied && k < |s.sent| && c.first <= k && s.sent[k] == Sent(c.packet, c.id);
    assert IsCommand(c.packet);
    if NotSuperseded(s, c, Target(c.packet)) {
      LatestIs(s, s.applied, k, c, Target(c.packet));
    }
  }

  // ---- why the lighting controller switches automatic ACKs off ---------------------------------------------------

  /** A lamp command is sent, delivered, and its first answer delivered. */
  function OneCommand(p: Packet): seq<SysOp> {
    [CmdSend(p, 0, true), Deliver(0), DeliverReply(0)]
  }

  /**
   The lighting node's automatic ACK must be off: with it on, any SetOutput that the lighting node does not apply, be
   it malformed or refused by the output, is acknowledged all the same, before it is looked at.
   */
  lemma AutoAckProvesNothing(address: byte, timeout: u32, retries: byte, p: Packet, env: Env)
    requires env.autoAck && forall n :: env.accepts(n)
    requires p.kind == SET_OUTPUT && p.destination == LIGHTING && p.sequence == 0 && Encodable(p)
    requires !(IsCommand(p) && env.works(0))
    ensures var b := Boot(address, timeout, retries);
      var s := After(b, OneCommand(p), env);
      && Runs(b, OneCommand(p), env)
      && s.confirmed == [Confirmed(Stamped(b.cmd, p, true), 0, 0)] && s.applied == []
      && !WasApplied(s, s.confirmed[0]) && s.light.commanded == ALL_OFF
  {
    hide Encode, Accept, Runs, After, IsCommand;
    var b := Boot(address, timeout, retries);
    var sending, delivery, answer := CmdSend(p, 0, true), Deliver(0), DeliverReply(0);
    var out := Stamped(b.cmd, p, true);
    ReceptionOf(out, true, env.accepts);
    FirstSend(b, p, env);
    NotApplied(p, out, env);
    StepRuns(b, [], sending, env);
    assert [] + [sending] == [sending] && [sending] + [delivery] == [sending, delivery];
    StepRuns(b, [sending], delivery, env);
    var s2 := Next(Next(b, sending, env), delivery, env);
    assert s2.replies[0] == Reply(ReplyPacket(LIGHTING, address, 1, false), 0);
    assert [sending, delivery] + [answer] == OneCommand(p);
    StepRuns(b, [sending, delivery], answer, env);
  }

  lemma NotApplied(p: Packet, out: Packet, env: Env)
    requires p.kind == SET_OUTPUT && !(IsCommand(p) && env.works(0))
    requires out == p.(source := out.source, sequence := out.sequence, flags := out.flags)
    ensures var l := Light(ALL_OFF, ALL_OFF, 0);
      !Applies(l, out, env.works) && HandlePacket(l, out, env.works, env.identity).0.commanded == ALL_OFF
  {
  }

  lemma FirstSend(b: Sys, p: Packet, env: Env)
    requires b == Boot(b.cmd.address, b.cmd.ackTimeout, b.cmd.maxRetries) && Encodable(p) && p.sequence == 0
    requires forall n :: env.accepts(n)
    ensures var (cmd, ok) := Send(b.cmd, p, 0, true, env.accepts);
      ok && cmd.pending == Pending(true, Stamped(b.cmd, p, true), 0, 0) && cmd.address == b.cmd.address
  {
    hide Encode;
  }

  lemma StepRuns(s: Sys, init: seq<SysOp>, op: SysOp, env: Env)
    ensures Runs(s, [], env) && After(s, [], env) == s
    ensures After(s, init + [op], env) == Next(After(s, init, env), op, env)
    ensures Runs(s, init, env) && Enabled(After(s, init, env), op) ==> Runs(s, init + [op], env)
  {
    hide Enabled, Next;
    assert (init + [op])[..|init|] == init;
  }

  /** Every SetOutput that an ACK cleared during the run was applied. */
  ghost predicate AcksProve(address: byte, timeout: u32, retries: byte, ops: seq<SysOp>, env: Env) {
    Runs(Boot(address, timeout, retries), ops, env) ==>
      var s := After(Boot(address, timeout, retries), ops, env);
      forall c :: c in s.confirmed && c.packet.kind == SET_OUTPUT ==> WasApplied(s, c)
  }

  const MALFORMED: Packet := Packet(MAIN_COMPUTER, LIGHTING, SET_OUTPUT, 0, 0, [0x09, 0x01])

  /** On a link that takes every frame, an ACK proves application in every run exactly if automatic ACKs are off. */
  lemma AcksProveExactly(address: byte, timeout: u32, retries: byte, env: Env)
    requires forall n :: env.accepts(n)
    ensures (forall ops :: AcksProve(address, timeout, retries, ops, env)) <==> !env.autoAck
  {
    hide After, Runs, WasApplied;
    if env.autoAck {
      AutoAckProvesNothing(address, timeout, retries, MALFORMED, env);
      var s := After(Boot(address, timeout, retries), OneCommand(MALFORMED), env);
      assert s.confirmed[0] in s.confirmed;
      assert !AcksProve(address, timeout, retries, OneCommand(MALFORMED), env);
    } else {
      forall ops
        ensures AcksProve(address, timeout, retries, ops, env)
      {
        if Runs(Boot(address, timeout, retries), ops, env) {
          RunKeepsInv(address, timeout, retries, ops, env);
        }
      }
    }
  }
}
