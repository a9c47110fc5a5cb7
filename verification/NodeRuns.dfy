/** What holds of a BikeNode over whole runs: lossless in-order reception, and reliable-send bookkeeping. */
module NodeRuns {
  import opened Bytes
  import opened Codec
  import opened StreamParsing
  import opened Node

  /** One call on the node, with the real time of the call or the bytes its link would return. */
  datatype Op =
    | PollOp(chunk: seq<byte>)
    | SendOp(packet: Packet, t: nat, requireAck: bool)
    | ReplyOp(destination: byte, sequence: u16, nack: bool)
    | ServiceOp(t: nat)

  function Do(io: Io, op: Op, accepts: nat -> bool): Io {
    match op
    case PollOp(chunk) => Poll(io, chunk, accepts).0
    case SendOp(p, t, requireAck) => Send(io, p, Clock(t), requireAck, accepts).0
    case ReplyOp(destination, sequence, nack) => SendAck(io, destination, sequence, nack, accepts).0
    case ServiceOp(t) => Service(io, Clock(t), accepts)
  }

  function After(io: Io, ops: seq<Op>, accepts: nat -> bool): Io {
    if ops == [] then io else Do(After(io, ops[..|ops| - 1], accepts), ops[|ops| - 1], accepts)
  }

  // ---- reception ---------------------------------------------------------------------------

  /** The packets an application on this node should see: addressed to it, and neither ACK nor NACK. */
  function Wanted(address: byte, ps: seq<Packet>): (w: seq<Packet>)
    ensures |w| <= |ps|
  {
    if ps == [] then []
    else
      var p := ps[|ps| - 1];
      Wanted(address, ps[..|ps| - 1]) + if AddressedTo(address, p) && !IsControl(p) then [p] else []
  }

  /** The bytes taken from the link and the packets returned by poll(), over a run. */
  function Consumed(io: Io, ops: seq<Op>, accepts: nat -> bool): seq<byte> {
    if ops == [] then []
    else
      var init, op := ops[..|ops| - 1], ops[|ops| - 1];
      Consumed(io, init, accepts)
      + if op.PollOp? && After(io, init, accepts).queue == [] then op.chunk else []
  }

  function Returned(io: Io, ops: seq<Op>, accepts: nat -> bool): seq<Packet> {
    if ops == [] then []
    else
      var init, op := ops[..|ops| - 1], ops[|ops| - 1];
      Returned(io, init, accepts) + Polled(After(io, init, accepts), op, accepts)
  }

  /** The packet a call returns to the application, if it is a successful poll(). */
  function Polled(io: Io, op: Op, accepts: nat -> bool): seq<Packet> {
    if !op.PollOp? then []
    else
      match Poll(io, op.chunk, accepts).1
      case Some(p) => [p]
      case None => []
  }

  /** What a completed packet changes: the pending command if it answers one, else the queue. */
  lemma AcceptEffect(io: Io, p: Packet, accepts: nat -> bool)
    ensures var r := Accept(io, p, accepts);
      var control := AddressedTo(io.address, p) && IsControl(p);
      && r == io.(pending := r.pending, queue := r.queue, rxDrops := r.rxDrops, log := r.log)
      && r.pending == (if control then HandleControl(io.pending, p) else io.pending)
      && (|io.queue| < QUEUE_SIZE || Wanted(io.address, [p]) == [] ==>
            r.queue == io.queue + Wanted(io.address, [p]) && r.rxDrops == io.rxDrops)
  {
    hide HandleControl, Encode;
    assert [p][..0] == [];
    assert Wanted(io.address, [p]) == if AddressedTo(io.address, p) && !IsControl(p) then [p] else [];
  }

  /** A packet is queued while fewer than eight wait, and else dropped and counted. */
  lemma QueueIsBounded(io: Io, p: Packet)
    requires |io.queue| <= 8
    ensures Enqueue(io, p)
         == if |io.queue| < 8 then io.(queue := io.queue + [p]) else io.(rxDrops := (io.rxDrops + 1) % 0x1_0000_0000)
  {
  }

  lemma {:induction false} ReceiveQueues(io: Io, chunk: seq<byte>, accepts: nat -> bool)
    requires |io.queue| + |Wanted(io.address, Run(io.parser, chunk).1)| <= QUEUE_SIZE
    ensures var r := Receive(io, chunk, accepts);
      && r.parser == Run(io.parser, chunk).0 && r.address == io.address && r.rxDrops == io.rxDrops
      && r.queue == io.queue + Wanted(io.address, Run(io.parser, chunk).1)
  {
    hide Advance, Accept, Wanted;
    if chunk == [] {
      NothingConsumed(io);
    } else {
      var n := |chunk| - 1;
      var (mid, ps) := Run(io.parser, chunk[..n]);
      var (parser, p) := Advance(mid, chunk[n]);
      if p.Some? {
        WantedAppend(io.address, ps, [p.value]);
      }
      ReceiveQueues(io, chunk[..n], accepts);
      if p.Some? {
        AcceptEffect(Receive(io, chunk[..n], accepts).(parser := parser), p.value, accepts);
      }
    }
  }

  lemma {:induction false} WantedAppend(address: byte, a: seq<Packet>, b: seq<Packet>)
    ensures Wanted(address, a + b) == Wanted(address, a) + Wanted(address, b)
  {
    if b == [] {
      assert a + b == a;
    } else {
      assert (a + b)[..|a + b| - 1] == a + b[..|b| - 1];
      WantedAppend(address, a, b[..|b| - 1]);
    }
  }

  /**
   Over any run of calls, what poll() returned followed by what is still queued is exactly the
   addressed non-control packets parsed from the bytes taken so far, in stream order; and nothing is
   ever dropped, because a 64-byte read into an empty queue completes at most six frames.
   */
  lemma {:induction false} ReceptionIsLosslessFifo(io: Io, ops: seq<Op>, accepts: nat -> bool)
    requires Reachable(io.parser) && io.queue == []
    requires forall op :: op in ops && op.PollOp? ==> |op.chunk| <= CHUNK_SIZE
    ensures var end := After(io, ops, accepts);
      && Returned(io, ops, accepts) + end.queue
         == Wanted(io.address, Run(io.parser, Consumed(io, ops, accepts)).1)
      && end.rxDrops == io.rxDrops && |end.queue| < QUEUE_SIZE - 1
      && end.parser == Run(io.parser, Consumed(io, ops, accepts)).0 && end.address == io.address
  {
    hide Run, Do, Polled, Wanted, Reachable;
    if ops == [] {
      NothingConsumed(io);
    } else {
      var n := |ops| - 1;
      var init, op := ops[..n], ops[n];
      var mid := After(io, init, accepts);
      var before := Consumed(io, init, accepts);
      ReceptionIsLosslessFifo(io, init, accepts);
      RunKeepsReachable(io.parser, before);
      CallIsFifo(mid, op, accepts);
      var r, x, q := Returned(io, init, accepts), Polled(mid, op, accepts), Do(mid, op, accepts).queue;
      assert (r + x) + q == r + (x + q);
      if op.PollOp? && mid.queue == [] {
        RunAppend(io.parser, before, op.chunk);
        WantedAppend(io.address, Run(io.parser, before).1, Run(mid.parser, op.chunk).1);
      } else {
        NothingConsumed(mid);
        assert Consumed(io, ops, accepts) == before;
      }
    }
  }

  /** One call: what it returns and leaves queued is what was queued and what its read completed. */
  lemma CallIsFifo(io: Io, op: Op, accepts: nat -> bool)
    requires Reachable(io.parser) && |io.queue| < QUEUE_SIZE - 1
    requires op.PollOp? ==> |op.chunk| <= CHUNK_SIZE
    ensures var end := Do(io, op, accepts);
      var read := op.PollOp? && io.queue == [];
      var (parser, ps) := Run(io.parser, if read then op.chunk else []);
      && end.parser == parser && end.address == io.address && end.rxDrops == io.rxDrops
      && |end.queue| < QUEUE_SIZE - 1
      && (!read ==> ps == [])
      && Polled(io, op, accepts) + end.queue == io.queue + Wanted(io.address, ps)
  {
    hide Advance, Accept, Receive, Encode;
    NothingConsumed(io);
    if op.PollOp? && io.queue == [] {
      PacketsPerChunk(io.parser, op.chunk);
      ReceiveQueues(io, op.chunk, accepts);
    }
  }

  lemma NothingConsumed(io: Io)
    ensures Run(io.parser, []) == (io.parser, []) && Wanted(io.address, []) == []
  {
  }

  // ---- what goes on the wire ---------------------------------------------------------------

  /** The next sequence number after `s`: 65535 is followed by 1. */
  function Following(s: u16): u16 {
    if s == 65535 then 1 else s + 1
  }

  /**
   A send puts exactly one frame on the wire, unless a command is outstanding and another is sent or the payload is
   too long: the packet itself, from this node, numbered if it was not, and asking for an ACK only where required.
   */
  lemma SendWrites(io: Io, p: Packet, now: u32, requireAck: bool, accepts: nat -> bool)
    ensures var (end, ok) := Send(io, p, now, requireAck, accepts);
      var q := Packet(io.address, p.destination, p.kind, p.flags + (if requireAck && p.flags % 2 == 0 then 1 else 0),
                      if p.sequence == 0 then io.sequence else p.sequence, p.payload);
      var writes := |p.payload| <= 128 && !(requireAck && io.pending.active);
      && end.log == (if writes then io.log + [WriteEvent(Encode(q), accepts(|io.log|))] else io.log)
      && (ok <==> writes && accepts(|io.log|))
      && end.sequence == (if p.sequence == 0 then Following(io.sequence) else io.sequence)
      && end.pending == (if ok && requireAck then Pending(true, q, now, 0) else io.pending)
      && end == io.(log := end.log, sequence := end.sequence, pending := end.pending)
  {
    hide Encode;
  }

  /** An ACK or NACK is one frame without payload, a response that carries the number of what it answers. */
  lemma AckWrites(io: Io, destination: byte, sequence: u16, nack: bool, accepts: nat -> bool)
    ensures var (end, ok) := SendAck(io, destination, sequence, nack, accepts);
      var q := Packet(io.address, destination, if nack then 0x03 else 0x02, 0x02, sequence, []);
      && end == io.(log := io.log + [WriteEvent(Encode(q), accepts(|io.log|))]) && ok == accepts(|io.log|)
  {
    hide Encode;
  }

  /** What a node hands out as one message is one frame: the packet from this node, numbered, or the ACK or NACK. */
  lemma EmitWrites(io: Io, out: Out, accepts: nat -> bool)
    ensures var end := Emit(io, out, accepts).0;
      match out
      case Publish(p) =>
        end.log == if |p.payload| > 128 then io.log
                   else io.log + [WriteEvent(Encode(Packet(io.address, p.destination, p.kind, p.flags,
                     if p.sequence == 0 then io.sequence else p.sequence, p.payload)), accepts(|io.log|))]
      case Answer(destination, sequence, nack) =>
        end.log == io.log + [WriteEvent(Encode(Packet(io.address, destination, if nack then 0x03 else 0x02, 0x02,
                                                      sequence, [])), accepts(|io.log|))]
  {
    hide Encode;
  }

  /** A received packet for this node that asks for an ACK gets one, exactly if the node answers automatically. */
  lemma AcceptAnswers(io: Io, p: Packet, accepts: nat -> bool)
    ensures var end := Accept(io, p, accepts);
      var answers := (p.destination == io.address || p.destination == 0xFF) && p.kind != 0x02 && p.kind != 0x03
                     && p.flags % 2 == 1 && io.autoAck;
      end.log == if answers then SendAck(io, p.source, p.sequence, false, accepts).0.log else io.log
  {
    hide Encode;
  }

  // ---- reliable send -----------------------------------------------------------------------

  /** A packet of this kind answering the outstanding command is among those parsed. */
  ghost predicate Answered(io: Io, ps: seq<Packet>, kind: byte) {
    exists p :: p in ps && Answers(io, p, kind)
  }

  /** Addressed to the node, from the node that was commanded, with the outstanding command's sequence number. */
  predicate Answers(io: Io, p: Packet, kind: byte) {
    && (p.destination == io.address || p.destination == 0xFF) && p.kind == kind
    && io.pending.active && p.source == io.pending.packet.destination
    && p.sequence == io.pending.packet.sequence
  }

  /** A read clears the outstanding command exactly when it brings a matching ACK; a matching NACK rewinds its timer. */
  lemma {:induction false} ReceiveAnswers(io: Io, chunk: seq<byte>, accepts: nat -> bool)
    ensures var r := Receive(io, chunk, accepts);
      var ps := Run(io.parser, chunk).1;
      && r.parser == Run(io.parser, chunk).0
      && r == io.(parser := r.parser, pending := r.pending, queue := r.queue, rxDrops := r.rxDrops, log := r.log)
      && r.pending.packet == io.pending.packet && r.pending.retries == io.pending.retries
      && (r.pending.active <==> io.pending.active && !Answered(io, ps, ACK))
      && (r.pending.active ==> r.pending.sentAt == if Answered(io, ps, NACK) then 0 else io.pending.sentAt)
  {
    hide Advance, Accept, Wanted, Answered;
    if chunk == [] {
      NothingAnswered(io);
    } else {
      var n := |chunk| - 1;
      var (mid, ps) := Run(io.parser, chunk[..n]);
      var (parser, p) := Advance(mid, chunk[n]);
      ReceiveAnswers(io, chunk[..n], accepts);
      if p.Some? {
        AnsweredByNext(io, ps, p.value, ACK);
        AnsweredByNext(io, ps, p.value, NACK);
        AcceptEffect(Receive(io, chunk[..n], accepts).(parser := parser), p.value, accepts);
      }
    }
  }

  lemma NothingAnswered(io: Io)
    ensures !Answered(io, [], ACK) && !Answered(io, [], NACK)
  {
  }

  lemma AnsweredByNext(io: Io, ps: seq<Packet>, p: Packet, kind: byte)
    ensures Answered(io, ps + [p], kind) <==>
      Answered(io, ps, kind) || Answers(io, p, kind)
  {
    assert forall q :: q in ps + [p] <==> q in ps || q == p;
  }

  /** What an observer of the calls counts: commands accepted and acknowledged, copies of the newest one. */
  datatype Tally = Tally(accepted: nat, acked: nat, copies: nat, lastCopy: nat, nacked: bool)

  const NO_TALLY: Tally := Tally(0, 0, 0, 0, false)

  /** Whether the call put one more accepted frame on the link. */
  ghost predicate Wrote(before: Io, after: Io) {
    |after.log| == |before.log| + 1 && after.log[|before.log|].ok
  }

  ghost function Count(io: Io, tally: Tally, op: Op, accepts: nat -> bool): Tally {
    match op
    case SendOp(p, t, requireAck) =>
      if requireAck && Send(io, p, Clock(t), true, accepts).1
      then Tally(tally.accepted + 1, tally.acked, 1, t, false) else tally
    case ServiceOp(t) =>
      if Wrote(io, Do(io, op, accepts)) then tally.(copies := tally.copies + 1, lastCopy := t, nacked := false)
      else tally
    case PollOp(chunk) =>
      if io.queue != [] then tally
      else
        var ps := Run(io.parser, chunk).1;
        tally.(acked := tally.acked + if Answered(io, ps, ACK) then 1 else 0,
               nacked := tally.nacked || Answered(io, ps, NACK))
    case ReplyOp(_, _, _) => tally
  }

  ghost function Tallied(io: Io, ops: seq<Op>, accepts: nat -> bool): Tally {
    if ops == [] then NO_TALLY
    else
      var init := ops[..|ops| - 1];
      Count(After(io, init, accepts), Tallied(io, init, accepts), ops[|ops| - 1], accepts)
  }

  /** What links the node to the observer's tally. */
  ghost predicate Balanced(io: Io, tally: Tally) {
    && tally.acked + (if io.pending.active then 1 else 0) <= tally.accepted
    && io.txFailures == (tally.accepted - tally.acked - if io.pending.active then 1 else 0) % TWO32
    && tally.copies <= 1 + io.maxRetries
    && (io.pending.active ==>
          && Encodable(io.pending.packet) && io.pending.retries <= io.maxRetries
          && tally.copies == 1 + io.pending.retries
          && (!tally.nacked ==> io.pending.sentAt == Clock(tally.lastCopy)))
  }

  lemma CallKeepsBalance(io: Io, tally: Tally, op: Op, accepts: nat -> bool)
    requires Balanced(io, tally)
    ensures Balanced(Do(io, op, accepts), Count(io, tally, op, accepts))
    ensures Do(io, op, accepts).maxRetries == io.maxRetries && Do(io, op, accepts).ackTimeout == io.ackTimeout
  {
    hide Encode, Run, Receive;
    if op.PollOp? && io.queue == [] {
      ReceiveAnswers(io, op.chunk, accepts);
      Inc32Counts(tally.accepted - tally.acked);
    } else if op.ServiceOp? {
      Inc32Counts(tally.accepted - tally.acked - 1);
    }
  }

  lemma {:induction false} RunKeepsBalance(io: Io, ops: seq<Op>, accepts: nat -> bool)
    requires !io.pending.active && io.txFailures == 0
    ensures Balanced(After(io, ops, accepts), Tallied(io, ops, accepts))
    ensures After(io, ops, accepts).maxRetries == io.maxRetries
    ensures After(io, ops, accepts).ackTimeout == io.ackTimeout
  {
    hide Do, Count;
    if ops != [] {
      RunKeepsBalance(io, ops[..|ops| - 1], accepts);
      hide Balanced;
      CallKeepsBalance(After(io, ops[..|ops| - 1], accepts), Tallied(io, ops[..|ops| - 1], accepts),
                       ops[|ops| - 1], accepts);
    }
  }

  /**
   Conservation of commands, modulo 2^32: every accepted ack-required send is acknowledged, counted as
   failed, or the one outstanding; and none is on the link more than 1 + max_retries times.
   */
  lemma CommandsAreConserved(io: Io, ops: seq<Op>, accepts: nat -> bool)
    requires !io.pending.active && io.txFailures == 0
    ensures var end, tally := After(io, ops, accepts), Tallied(io, ops, accepts);
      && tally.accepted % TWO32
         == (tally.acked + end.txFailures + if end.pending.active then 1 else 0) % TWO32
      && tally.copies <= 1 + io.maxRetries
  {
    hide After, Tallied;
    RunKeepsBalance(io, ops, accepts);
    var end, tally := After(io, ops, accepts), Tallied(io, ops, accepts);
    var p := if end.pending.active then 1 else 0;
    var d := tally.accepted - tally.acked - p;
    assert d == d / TWO32 * TWO32 + end.txFailures;
    assert tally.accepted == d / TWO32 * TWO32 + (tally.acked + end.txFailures + p);
  }

  /** A retry comes at least ack_timeout of real time after the previous copy, unless a matching NACK came between. */
  lemma RetriesAreSpaced(io: Io, ops: seq<Op>, t: nat, accepts: nat -> bool)
    requires !io.pending.active && io.txFailures == 0
    requires var tally := Tallied(io, ops, accepts); !tally.nacked && tally.lastCopy <= t
    requires Wrote(After(io, ops, accepts), Do(After(io, ops, accepts), ServiceOp(t), accepts))
    ensures t - Tallied(io, ops, accepts).lastCopy >= io.ackTimeout
  {
    hide After, Tallied, Encode;
    RunKeepsBalance(io, ops, accepts);
    ElapsedIsModular(t, Tallied(io, ops, accepts).lastCopy);
  }

  /** After a matching NACK the next service call acts at once exactly when the clock shows at least ack_timeout. */
  lemma NackRetriesWhen(io: Io, p: Packet, now: u32, accepts: nat -> bool)
    requires Matches(io.pending, p) && p.kind == NACK && Encodable(io.pending.packet)
    ensures var nacked := io.(pending := HandleControl(io.pending, p));
      Service(nacked, now, accepts) != nacked <==> now >= io.ackTimeout
  {
    hide Encode;
    var nacked := io.(pending := HandleControl(io.pending, p));
    var after := Service(nacked, now, accepts);
    assert Elapsed(now, 0) == now;
    if now >= io.ackTimeout && io.pending.retries < io.maxRetries {
      assert |after.log| == |nacked.log| + 1;
    }
  }

  function ServiceAll(io: Io, times: seq<nat>, accepts: nat -> bool): Io
    decreases |times|
  {
    if times == [] then io else ServiceAll(Service(io, Clock(times[0]), accepts), times[1..], accepts)
  }

  /** Every service call comes ack_timeout or more, but less than one clock wrap, after the one before. */
  ghost predicate Due(since: nat, times: seq<nat>, timeout: nat)
    decreases |times|
  {
    times != [] ==> timeout <= times[0] - since < TWO32 && Due(times[0], times[1..], timeout)
  }

  /**
   The special case of a run of nothing but due service calls: they retransmit the same frame until the
   limit, and the next one gives up and counts one failure.
   */
  lemma {:induction false} RetriesEnd(io: Io, since: nat, times: seq<nat>, accepts: nat -> bool)
    requires io.pending.active && Encodable(io.pending.packet) && io.pending.retries <= io.maxRetries
    requires io.pending.sentAt == Clock(since) && Due(since, times, io.ackTimeout)
    requires forall n :: accepts(n)
    requires |times| == io.maxRetries - io.pending.retries + 1
    ensures var end := ServiceAll(io, times, accepts);
      && !end.pending.active && end.txFailures == Inc32(io.txFailures)
      && end.log == io.log + seq(|times| - 1, _ => WriteEvent(Encode(io.pending.packet), true))
    decreases |times|
  {
    hide Encode;
    ElapsedIsModular(times[0], since);
    var next := Service(io, Clock(times[0]), accepts);
    if io.pending.retries < io.maxRetries {
      RetriesEnd(next, times[0], times[1..], accepts);
    } else {
      assert times[1..] == [];
    }
  }

  // ---- progress of an outstanding command ----------------------------------------------------

  /** The call is a service call that finds the outstanding command due. */
  predicate FindsDue(io: Io, op: Op) {
    op.ServiceOp? && io.pending.active && Elapsed(Clock(op.t), io.pending.sentAt) >= io.ackTimeout
  }

  /** A command is outstanding at every boundary of the run, so it is the same one throughout. */
  ghost predicate StaysPending(io: Io, ops: seq<Op>, accepts: nat -> bool) {
    After(io, ops, accepts).pending.active && (ops == [] || StaysPending(io, ops[..|ops| - 1], accepts))
  }

  /** How many service calls of the run found the command due. */
  function DueCalls(io: Io, ops: seq<Op>, accepts: nat -> bool): nat {
    if ops == [] then 0
    else
      var init := ops[..|ops| - 1];
      DueCalls(io, init, accepts) + if FindsDue(After(io, init, accepts), ops[|ops| - 1]) then 1 else 0
  }

  /** What one call does to a command outstanding before it, on a link that takes every frame. */
  lemma CallOnPending(io: Io, op: Op, accepts: nat -> bool)
    requires io.pending.active && Encodable(io.pending.packet) && io.pending.retries <= io.maxRetries
    requires forall n :: accepts(n)
    ensures var next := Do(io, op, accepts);
      var ps := if op.PollOp? && io.queue == [] then Run(io.parser, op.chunk).1 else [];
      && next.maxRetries == io.maxRetries && next.ackTimeout == io.ackTimeout
      && next.pending.packet == io.pending.packet
      && (next.pending.active <==> !Answered(io, ps, ACK) && !(FindsDue(io, op) && io.pending.retries == io.maxRetries))
      && next.txFailures == (if FindsDue(io, op) && io.pending.retries == io.maxRetries then Inc32(io.txFailures)
                             else io.txFailures)
      && (next.pending.active ==>
            && next.pending.retries == io.pending.retries + (if FindsDue(io, op) then 1 else 0)
            && next.pending.sentAt == if FindsDue(io, op) then Clock(op.t)
                                      else if Answered(io, ps, NACK) then 0 else io.pending.sentAt)
      && (FindsDue(io, op) && next.pending.active ==>
            next.log == io.log + [WriteEvent(Encode(io.pending.packet), true)])
  {
    hide Encode, Run, Receive, Answered;
    NothingAnswered(io);
    if op.PollOp? && io.queue == [] {
      ReceiveAnswers(io, op.chunk, accepts);
    }
  }

  /**
   Progress over any run of calls, whatever is polled, sent, answered or serviced too early: while the command
   stays outstanding, its retry count is the number of service calls that found it due, which never exceeds the
   limit, and no failure is counted.
   */
  lemma {:induction false} RetriesAreCounted(io: Io, ops: seq<Op>, accepts: nat -> bool)
    requires io.pending.active && Encodable(io.pending.packet) && io.pending.retries <= io.maxRetries
    requires StaysPending(io, ops, accepts) && forall n :: accepts(n)
    ensures var end := After(io, ops, accepts);
      && end.pending.packet == io.pending.packet && end.txFailures == io.txFailures
      && end.maxRetries == io.maxRetries && end.ackTimeout == io.ackTimeout
      && end.pending.retries == io.pending.retries + DueCalls(io, ops, accepts) <= io.maxRetries
  {
    hide Do, Encode, FindsDue, Answered, Run;
    if ops != [] {
      var init := ops[..|ops| - 1];
      RetriesAreCounted(io, init, accepts);
      CallOnPending(After(io, init, accepts), ops[|ops| - 1], accepts);
    }
  }

  /**
   The next service call that finds the command due retransmits it if the limit leaves a retry after the due
   calls so far, and otherwise, and only then, gives up and counts one failure.
   */
  lemma DueCallDecides(io: Io, ops: seq<Op>, t: nat, accepts: nat -> bool)
    requires io.pending.active && Encodable(io.pending.packet) && io.pending.retries <= io.maxRetries
    requires StaysPending(io, ops, accepts) && forall n :: accepts(n)
    requires FindsDue(After(io, ops, accepts), ServiceOp(t))
    ensures var before := After(io, ops, accepts);
      var after := Do(before, ServiceOp(t), accepts);
      && (!after.pending.active <==> io.pending.retries + DueCalls(io, ops, accepts) == io.maxRetries)
      && after.txFailures == (if after.pending.active then io.txFailures else Inc32(io.txFailures))
      && (after.pending.active ==> after.log == before.log + [WriteEvent(Encode(io.pending.packet), true)])
  {
    hide Do, Encode, FindsDue, After;
    RetriesAreCounted(io, ops, accepts);
    CallOnPending(After(io, ops, accepts), ServiceOp(t), accepts);
    NothingAnswered(After(io, ops, accepts));
  }

  // ---- how long a command stays outstanding ------------------------------------------------------

  /** Real time of the newest service call; `t0` before there is one. */
  function LastService(ops: seq<Op>, t0: nat): nat {
    if ops == [] then t0
    else if ops[|ops| - 1].ServiceOp? then ops[|ops| - 1].t
    else LastService(ops[..|ops| - 1], t0)
  }

  /** No service call comes more than `gap` after the one before it. */
  ghost predicate Attended(ops: seq<Op>, t0: nat, gap: nat) {
    forall i :: 0 <= i < |ops| && ops[i].ServiceOp? ==> 0 <= ops[i].t - LastService(ops[..i], t0) <= gap
  }

  /**
   What an observer of the calls since a command was sent notes: the time of its newest copy, whether a matching
   NACK came since and when the newest service call before it was, and how many copies were answered by a NACK.
   */
  datatype Watch = Watch(copy: nat, nacked: bool, heldFrom: nat, rewinds: nat)

  ghost function Noted(io: Io, w: Watch, op: Op, last: nat): Watch {
    match op
    case ServiceOp(t) => if FindsDue(io, op) then Watch(t, false, t, w.rewinds) else w
    case PollOp(chunk) =>
      if io.queue == [] && !w.nacked && Answered(io, Run(io.parser, chunk).1, NACK)
        then Watch(w.copy, true, last, w.rewinds + 1) else w
    case SendOp(_, _, _) => w
    case ReplyOp(_, _, _) => w
  }

  ghost function Watched(io: Io, ops: seq<Op>, t0: nat, accepts: nat -> bool): Watch {
    if ops == [] then Watch(t0, false, t0, 0)
    else
      var init := ops[..|ops| - 1];
      Noted(After(io, init, accepts), Watched(io, init, t0, accepts), ops[|ops| - 1], LastService(init, t0))
  }

  /** How the outstanding command's timer stands at a boundary, `last` being the newest service call. */
  ghost predicate OnTime(p: Pending, w: Watch, last: nat, timeout: nat, gap: nat) {
    && w.copy <= w.heldFrom <= last
    && (!w.nacked ==>
          p.sentAt == Clock(w.copy) && w.heldFrom == w.copy && (last == w.copy || last - w.copy < timeout))
    && (w.nacked ==>
          && p.sentAt == 0 && w.rewinds >= 1
          && (w.heldFrom == w.copy || w.heldFrom - w.copy < timeout)
          && (last == w.heldFrom || (Clock(last) < timeout && last - Clock(last) <= w.heldFrom + gap)))
  }

  /** The NACKed copies that were followed by another copy. */
  function Past(w: Watch): int {
    w.rewinds - if w.nacked then 1 else 0
  }

  /** A service call that finds the command not due keeps its timer on time; a due one comes soon enough. */
  lemma ServiceOnTime(p: Pending, w: Watch, last: nat, t: nat, timeout: nat, gap: nat)
    requires OnTime(p, w, last, timeout, gap) && last <= t <= last + gap && timeout + gap < TWO32
    ensures Elapsed(Clock(t), p.sentAt) < timeout ==> OnTime(p, w, t, timeout, gap)
    ensures t <= w.copy + (timeout + gap) + if w.nacked then timeout + gap else 0
  {
    if w.nacked {
      assert Elapsed(Clock(t), 0) == Clock(t);
      LowClock(last, t, timeout, gap);
    } else {
      ElapsedIsModular(t, w.copy);
    }
  }

  /** Gaps too short to skip the high part of a wrap keep low clock values within one wrap. */
  lemma LowClock(last: nat, t: nat, timeout: nat, gap: nat)
    requires last <= t <= last + gap && timeout + gap < TWO32
    ensures t - Clock(t) <= t
    ensures Clock(last) < timeout && Clock(t) < timeout ==> t - Clock(t) == last - Clock(last)
  {
    var a, b := last / TWO32, t / TWO32;
    assert last == a * TWO32 + Clock(last) && t == b * TWO32 + Clock(t);
    if Clock(last) < timeout && Clock(t) < timeout {
      assert (b - a) * TWO32 < TWO32 && (b - a) * TWO32 > -TWO32;
    }
  }

  /** Each call keeps the timer on time, and a new copy comes within timeout + gap, or twice that after a NACK. */
  lemma CallOnTime(io: Io, w: Watch, op: Op, last: nat, gap: nat, accepts: nat -> bool)
    requires io.pending.active && Encodable(io.pending.packet) && io.pending.retries <= io.maxRetries
    requires forall n :: accepts(n)
    requires Do(io, op, accepts).pending.active && OnTime(io.pending, w, last, io.ackTimeout, gap)
    requires io.ackTimeout + gap < TWO32 && (op.ServiceOp? ==> last <= op.t <= last + gap)
    ensures var next, w' := Do(io, op, accepts).pending, Noted(io, w, op, last);
      var W := io.ackTimeout + gap;
      var d := next.retries - io.pending.retries + Past(w') - Past(w);
      && OnTime(next, w', if op.ServiceOp? then op.t else last, io.ackTimeout, gap)
      && 0 <= Past(w') - Past(w) <= next.retries - io.pending.retries <= 1
      && w'.copy <= w.copy + (if d == 0 then 0 else if d == 1 then W else W + W)
  {
    hide Do, Encode, Run, Answered;
    CallOnPending(io, op, accepts);
    NothingAnswered(io);
    if op.ServiceOp? {
      ServiceOnTime(io.pending, w, last, op.t, io.ackTimeout, gap);
    }
  }

  lemma SentOnTime(p: Pending, t0: nat, timeout: nat, gap: nat)
    requires p.sentAt == Clock(t0)
    ensures var w := Watch(t0, false, t0, 0); OnTime(p, w, t0, timeout, gap) && Past(w) == 0
  {
  }

  lemma AttendedPrefix(ops: seq<Op>, t0: nat, gap: nat)
    requires Attended(ops, t0, gap) && ops != []
    ensures var n := |ops| - 1;
      && Attended(ops[..n], t0, gap)
      && (ops[n].ServiceOp? ==> 0 <= ops[n].t - LastService(ops[..n], t0) <= gap)
  {
    var n := |ops| - 1;
    assert forall i :: 0 <= i < n ==> ops[..n][..i] == ops[..i];
  }

  /** `n` shares of time. */
  function Shares(n: int, share: nat): int {
    n * share
  }

  lemma SharesAdd(n: int, share: nat)
    ensures Shares(n + 1, share) == Shares(n, share) + share
    ensures Shares(n + 2, share) == Shares(n, share) + share + share
    ensures Shares(0, share) == 0
  {
  }

  lemma SharesGrow(a: int, b: int, share: nat)
    requires a <= b
    ensures Shares(a, share) <= Shares(b, share)
  {
  }

  /** Every copy so far came within its share of time, and no copy counts more than one NACK. */
  lemma {:induction false} CopiesOnTime(io: Io, ops: seq<Op>, t0: nat, gap: nat, accepts: nat -> bool)
    requires io.pending.active && Encodable(io.pending.packet) && io.pending.retries <= io.maxRetries
    requires io.pending.sentAt == Clock(t0) && StaysPending(io, ops, accepts) && forall n :: accepts(n)
    requires Attended(ops, t0, gap) && io.ackTimeout + gap < TWO32
    ensures var end, w := After(io, ops, accepts), Watched(io, ops, t0, accepts);
      var copies := end.pending.retries - io.pending.retries;
      && OnTime(end.pending, w, LastService(ops, t0), io.ackTimeout, gap)
      && 0 <= Past(w) <= copies
      && w.copy - t0 <= Shares(copies + Past(w), io.ackTimeout + gap)
  {
    hide Do, Encode, Noted, OnTime, Past, Shares;
    if ops == [] {
      SharesAdd(0, io.ackTimeout + gap);
      SentOnTime(io.pending, t0, io.ackTimeout, gap);
    } else {
      var n := |ops| - 1;
      var init, op := ops[..n], ops[n];
      var before, w := After(io, init, accepts), Watched(io, init, t0, accepts);
      AttendedPrefix(ops, t0, gap);
      CopiesOnTime(io, init, t0, gap, accepts);
      RetriesAreCounted(io, init, accepts);
      CallOnTime(before, w, op, LastService(init, t0), gap, accepts);
      SharesAdd(before.pending.retries - io.pending.retries + Past(w), io.ackTimeout + gap);
    }
  }

  /**
   Bounded answer time, across clock wrap: with a link that takes every frame and service gaps of at most `gap`,
   a command sent at `t0` is acknowledged or given up within (1 + max_retries) * (timeout + gap) of real time,
   whatever is polled, sent and received meanwhile; a copy answered by a matching NACK adds at most one
   timeout + gap more. So at any boundary at which it is still outstanding, the next service call is due by then.
   */
  lemma CommandEndsInTime(io: Io, ops: seq<Op>, t0: nat, gap: nat, accepts: nat -> bool)
    requires io.pending.active && Encodable(io.pending.packet) && io.pending.retries == 0
    requires io.pending.sentAt == Clock(t0) && StaysPending(io, ops, accepts) && forall n :: accepts(n)
    requires Attended(ops, t0, gap) && io.ackTimeout + gap < TWO32
    ensures var rewinds := Watched(io, ops, t0, accepts).rewinds;
      && rewinds <= 1 + io.maxRetries
      && LastService(ops, t0) + gap - t0 <= Shares(1 + io.maxRetries + rewinds, io.ackTimeout + gap)
  {
    hide After, Watched, LastService, Attended, StaysPending, Shares;
    CopiesOnTime(io, ops, t0, gap, accepts);
    RetriesAreCounted(io, ops, accepts);
    var end, w, share := After(io, ops, accepts), Watched(io, ops, t0, accepts), io.ackTimeout + gap;
    var spent := end.pending.retries + Past(w);
    SharesAdd(spent, share);
    SharesGrow(if w.nacked then spent + 2 else spent + 1, 1 + io.maxRetries + w.rewinds, share);
    HeldOnTime(end.pending, w, LastService(ops, t0), io.ackTimeout, gap);
  }

  lemma HeldOnTime(p: Pending, w: Watch, last: nat, timeout: nat, gap: nat)
    requires OnTime(p, w, last, timeout, gap)
    ensures last + gap <= w.copy + (timeout + gap) + if w.nacked then timeout + gap else 0
  {
  }

  /**
   An accepted command starts outstanding, with its time of sending and no retry: what CommandEndsInTime starts
   from.
   */
  lemma AcceptedSendStarts(io: Io, p: Packet, t0: nat, accepts: nat -> bool)
    requires Send(io, p, Clock(t0), true, accepts).1
    ensures var pending := Send(io, p, Clock(t0), true, accepts).0.pending;
      pending == Pending(true, Stamped(io, p, true), Clock(t0), 0) && Encodable(pending.packet)
  {
    hide Encode;
  }

  /** An outstanding command ends only by a matching ACK, or by a due service call at the limit, which is counted. */
  lemma EndsByAnswerOrFailure(io: Io, op: Op, accepts: nat -> bool)
    requires io.pending.active && !Do(io, op, accepts).pending.active
    ensures var end := Do(io, op, accepts);
      || (op.PollOp? && io.queue == [] && Answered(io, Run(io.parser, op.chunk).1, ACK)
          && end.txFailures == io.txFailures)
      || (FindsDue(io, op) && io.pending.retries >= io.maxRetries && end.txFailures == Inc32(io.txFailures))
  {
    hide Encode, Run, Receive, Answered;
    if op.PollOp? && io.queue == [] {
      ReceiveAnswers(io, op.chunk, accepts);
    }
  }

  /**
   With the settings a node starts with, a first command is acknowledged or given up within four times 250 ms and the
   gap between service calls, if no copy is answered by a NACK.
   */
  lemma DefaultDeadline(address: byte, p: Packet, ops: seq<Op>, t0: nat, gap: nat, accepts: nat -> bool)
    requires Send(Start(address), p, Clock(t0), true, accepts).1 && (forall n :: accepts(n)) && gap < 0x8000_0000
    requires var io := Send(Start(address), p, Clock(t0), true, accepts).0;
      StaysPending(io, ops, accepts) && Attended(ops, t0, gap) && Watched(io, ops, t0, accepts).rewinds == 0
    ensures LastService(ops, t0) + gap - t0 <= 4 * (250 + gap)
  {
    hide After, Watched, LastService, Attended, StaysPending, Encode;
    AcceptedSendStarts(Start(address), p, t0, accepts);
    SendWrites(Start(address), p, Clock(t0), true, accepts);
    CommandEndsInTime(Send(Start(address), p, Clock(t0), true, accepts).0, ops, t0, gap, accepts);
  }
}
