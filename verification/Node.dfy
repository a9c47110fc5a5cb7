/** BikeNode: stop-and-wait reliable send, and the receive queue filled from 64-byte chunks. */
module Node {
  import opened Bytes
  import opened Codec
  import opened StreamParsing

  // ---- the serial link ------------------------------------------------------------------

  /** A frame handed to the link, and whether the link took it. */
  datatype WriteEvent = WriteEvent(frame: seq<byte>, ok: bool)

  /** The environment decides the outcome of the n-th write, and how much each read returns. */
  class Transport {
    const accepts: nat -> bool
    var incoming: seq<byte>
    var log: seq<WriteEvent>

    constructor (accepts: nat -> bool, incoming: seq<byte>)
      ensures this.accepts == accepts && this.incoming == incoming && log == []
    {
      this.accepts, this.incoming, log := accepts, incoming, [];
    }

    method Write(data: array<byte>, length: nat) returns (ok: bool)
      requires length <= data.Length
      modifies this`log
      ensures ok == accepts(|old(log)|) && log == old(log) + [WriteEvent(data[..length], ok)]
    {
      ok := accepts(|log|);
      log := log + [WriteEvent(data[..length], ok)];
    }

    method Read(capacity: nat) returns (chunk: seq<byte>)
      modifies this`incoming
      ensures |chunk| <= capacity && old(incoming) == chunk + incoming
    {
      var n: nat :| n <= capacity && n <= |incoming|;
      chunk, incoming := incoming[..n], incoming[n..];
    }
  }

  // ---- state -----------------------------------------------------------------------------

  const QUEUE_SIZE: nat := 8
  const CHUNK_SIZE: nat := 64
  const NO_PACKET: Packet := Packet(MAIN_COMPUTER, NORTHBRIDGE, HEARTBEAT, 0, 0, [])

  datatype Pending = Pending(active: bool, packet: Packet, sentAt: u32, retries: byte)

  /** The node's fields, with the ring buffer as the sequence it holds, and the link's write log. */
  datatype Io = Io(address: byte, parser: Parser, sequence: u16, pending: Pending, ackTimeout: u32,
                   maxRetries: byte, txFailures: u32, autoAck: bool, queue: seq<Packet>, rxDrops: u32,
                   log: seq<WriteEvent>)

  function Start(address: byte): Io {
    Io(address, FRESH, 1, Pending(false, NO_PACKET, 0, 0), 250, 3, 0, true, [], 0, [])
  }

  /** The counter after handing out `s`: sequence number 0 is skipped on wrap. */
  function NextSequence(s: u16): u16 {
    if s == 0xFFFF then 1 else s + 1
  }

  function WritePacket(io: Io, p: Packet, accepts: nat -> bool): (Io, bool) {
    if !Encodable(p) then (io, false)
    else
      var ok := accepts(|io.log|);
      (io.(log := io.log + [WriteEvent(Encode(p), ok)]), ok)
  }

  /** The packet as it goes on the wire: own source, a sequence number, the ACK flag when asked for. */
  function Stamped(io: Io, p: Packet, requireAck: bool): Packet {
    p.(source := io.address,
       sequence := if p.sequence == 0 then io.sequence else p.sequence,
       flags := if requireAck && !AckRequired(p) then p.flags + FLAG_ACK_REQUIRED else p.flags)
  }

  function Send(io: Io, p: Packet, now: u32, requireAck: bool, accepts: nat -> bool): (Io, bool) {
    var io1 := if p.sequence == 0 then io.(sequence := NextSequence(io.sequence)) else io;
    if requireAck && io.pending.active then (io1, false)
    else
      var out := Stamped(io, p, requireAck);
      var (io2, ok) := WritePacket(io1, out, accepts);
      if ok && requireAck then (io2.(pending := Pending(true, out, now, 0)), true) else (io2, ok)
  }

  function ReplyPacket(address: byte, destination: byte, sequence: u16, nack: bool): Packet {
    Packet(address, destination, if nack then NACK else ACK, FLAG_RESPONSE, sequence, [])
  }

  /** A node's answer to a heartbeat request. */
  function BeatPacket(destination: byte): Packet {
    Packet(MAIN_COMPUTER, destination, HEARTBEAT, FLAG_RESPONSE, 0, [])
  }

  function SendAck(io: Io, destination: byte, sequence: u16, nack: bool, accepts: nat -> bool): (Io, bool) {
    WritePacket(io, ReplyPacket(io.address, destination, sequence, nack), accepts)
  }

  predicate IsControl(p: Packet) {
    p.kind == ACK || p.kind == NACK
  }

  predicate AddressedTo(address: byte, p: Packet) {
    p.destination == address || p.destination == BROADCAST
  }

  /** The packet answers the outstanding command. */
  predicate Matches(pending: Pending, p: Packet) {
    pending.active && p.sequence == pending.packet.sequence && p.source == pending.packet.destination
  }

  function HandleControl(pending: Pending, p: Packet): Pending {
    if !Matches(pending, p) then pending
    else if p.kind == ACK then pending.(active := false)
    else if p.kind == NACK then pending.(sentAt := 0)
    else pending
  }

  function Enqueue(io: Io, p: Packet): Io {
    if |io.queue| >= QUEUE_SIZE then io.(rxDrops := Inc32(io.rxDrops)) else io.(queue := io.queue + [p])
  }

  /** What poll() does with a packet the parser completed. */
  function Accept(io: Io, p: Packet, accepts: nat -> bool): Io {
    if !AddressedTo(io.address, p) then io
    else if IsControl(p) then io.(pending := HandleControl(io.pending, p))
    else if io.autoAck && AckRequired(p) then
      Enqueue(SendAck(io, p.source, p.sequence, false, accepts).0, p)
    else Enqueue(io, p)
  }

  function ReceiveByte(io: Io, b: byte, accepts: nat -> bool): Io {
    var (parser, p) := Advance(io.parser, b);
    var io1 := io.(parser := parser);
    if p.Some? then Accept(io1, p.value, accepts) else io1
  }

  function Receive(io: Io, chunk: seq<byte>, accepts: nat -> bool): Io {
    if chunk == [] then io
    else ReceiveByte(Receive(io, chunk[..|chunk| - 1], accepts), chunk[|chunk| - 1], accepts)
  }

  function Dequeue(io: Io): (Io, Option<Packet>) {
    if io.queue == [] then (io, None) else (io.(queue := io.queue[1..]), Some(io.queue[0]))
  }

  /** `chunk` is what the link returns if it is read; it is read only when the queue is empty. */
  function Poll(io: Io, chunk: seq<byte>, accepts: nat -> bool): (Io, Option<Packet>) {
    if io.queue != [] then Dequeue(io) else Dequeue(Receive(io, chunk, accepts))
  }

  function Service(io: Io, now: u32, accepts: nat -> bool): Io {
    if !io.pending.active || Elapsed(now, io.pending.sentAt) < io.ackTimeout then io
    else if io.pending.retries >= io.maxRetries then
      io.(pending := io.pending.(active := false), txFailures := Inc32(io.txFailures))
    else
      var (io1, ok) := WritePacket(io, io.pending.packet, accepts);
      if ok then io1.(pending := io.pending.(retries := io.pending.retries + 1, sentAt := now)) else io1
  }

  /** The `count` slots of a ring buffer from `head` on, wrapping at its end. */
  function Ring(slots: seq<Packet>, head: nat, count: nat): (q: seq<Packet>)
    requires |slots| == QUEUE_SIZE && head < QUEUE_SIZE && count <= QUEUE_SIZE
    ensures |q| == count
  {
    seq(count, i requires 0 <= i < count => slots[(head + i) % QUEUE_SIZE])
  }

  lemma RingAppend(slots: seq<Packet>, head: nat, count: nat, p: Packet)
    requires |slots| == QUEUE_SIZE && head < QUEUE_SIZE && count < QUEUE_SIZE
    ensures Ring(slots[(head + count) % QUEUE_SIZE := p], head, count + 1) == Ring(slots, head, count) + [p]
  {
  }

  lemma RingDrop(slots: seq<Packet>, head: nat, count: nat)
    requires |slots| == QUEUE_SIZE && head < QUEUE_SIZE && 1 <= count <= QUEUE_SIZE
    ensures Ring(slots, (head + 1) % QUEUE_SIZE, count - 1) == Ring(slots, head, count)[1..]
    ensures Ring(slots, head, count)[0] == slots[head]
  {
  }

  // ---- what an application hands to its node ------------------------------------------------

  /** A packet sent without acknowledgement, or an ACK / NACK for a received one. */
  datatype Out =
    | Publish(packet: Packet)
    | Answer(destination: byte, sequence: u16, nack: bool)

  function Emit(io: Io, out: Out, accepts: nat -> bool): (Io, bool) {
    match out
    case Publish(p) => Send(io, p, 0, false, accepts)
    case Answer(destination, sequence, nack) => SendAck(io, destination, sequence, nack, accepts)
  }

  function EmitAll(io: Io, outs: seq<Out>, accepts: nat -> bool): Io {
    if outs == [] then io else Emit(EmitAll(io, outs[..|outs| - 1], accepts), outs[|outs| - 1], accepts).0
  }

  /** An unacknowledged send of an encodable packet succeeds exactly when the link takes its frame. */
  lemma SendOutcome(io: Io, p: Packet, now: u32, accepts: nat -> bool)
    requires Encodable(p)
    ensures Send(io, p, now, false, accepts).1 == accepts(|io.log|)
  {
    hide Encode;
  }

  lemma EmitNext(io: Io, outs: seq<Out>, out: Out, accepts: nat -> bool)
    ensures EmitAll(io, outs + [out], accepts) == Emit(EmitAll(io, outs, accepts), out, accepts).0
    ensures EmitAll(io, [], accepts) == io && [] + [out] == [out]
  {
    assert (outs + [out])[..|outs|] == outs;
  }

  // ---- the firmware's node ------------------------------------------------------------------

  class BikeNode {
    const address: byte
    const transport: Transport
    const parser: StreamParser
    const rxQueue: array<Packet>
    var sequence: u16
    var pending: Pending
    var ackTimeout: u32
    var maxRetries: byte
    var txFailures: u32
    var autoAck: bool
    var rxHead: nat
    var rxTail: nat
    var rxCount: nat
    var rxDrops: u32

    ghost predicate Valid()
      reads this, parser, parser.buffer
    {
      && parser.Valid() && rxQueue.Length == QUEUE_SIZE
      && rxHead < QUEUE_SIZE && rxCount <= QUEUE_SIZE && rxTail == (rxHead + rxCount) % QUEUE_SIZE
    }

    /** The packets waiting in the ring buffer, oldest first. */
    ghost function Queue(): (q: seq<Packet>)
      reads this, parser, parser.buffer, rxQueue
      requires Valid()
      ensures |q| == rxCount
    {
      Ring(rxQueue[..], rxHead, rxCount)
    }

    ghost function State(): Io
      reads this, transport, parser, parser.buffer, rxQueue
      requires Valid()
    {
      Io(address, parser.State(), sequence, pending, ackTimeout, maxRetries, txFailures, autoAck, Queue(),
         rxDrops, transport.log)
    }

    constructor (address: byte, transport: Transport)
      requires transport.log == []
      ensures Valid() && State() == Start(address) && this.transport == transport
      ensures sequence == 1 && !pending.active && ackTimeout == 250 && maxRetries == 3 && autoAck
      ensures txFailures == 0 && rxDrops == 0
      ensures fresh(parser) && fresh(parser.buffer) && fresh(rxQueue)
    {
      this.address, this.transport := address, transport;
      parser := new StreamParser();
      rxQueue := new Packet[QUEUE_SIZE](_ => NO_PACKET);
      sequence := 1;
      pending := Pending(false, NO_PACKET, 0, 0);
      ackTimeout, maxRetries, txFailures, autoAck := 250, 3, 0, true;
      rxHead, rxTail, rxCount, rxDrops := 0, 0, 0, 0;
    }

    method TakeSequence() returns (value: u16)
      requires Valid()
      modifies this`sequence
      ensures value == old(sequence) && sequence == NextSequence(old(sequence))
    {
      value := sequence;
      sequence := (sequence + 1) % 0x1_0000;
      if sequence == 0 {
        sequence := 1;
      }
    }

    method WriteOut(p: Packet) returns (ok: bool)
      requires Valid()
      modifies transport`log
      ensures Valid() && State() == WritePacket(old(State()), p, transport.accepts).0
      ensures ok == WritePacket(old(State()), p, transport.accepts).1
    {
      hide Encode;
      var frame := new byte[MAX_FRAME](_ => 0);
      var encoded, length := EncodePacket(p, frame, MAX_FRAME);
      if !encoded {
        return false;
      }
      ok := transport.Write(frame, length);
    }

    method Transmit(p: Packet, now: u32, requireAck: bool) returns (ok: bool)
      requires Valid()
      modifies this`sequence, this`pending, transport`log
      ensures Valid() && State() == Send(old(State()), p, now, requireAck, transport.accepts).0
      ensures ok == Send(old(State()), p, now, requireAck, transport.accepts).1
    {
      hide WritePacket;
      var packet := p.(source := address);
      if packet.sequence == 0 {
        var s := TakeSequence();
        packet := packet.(sequence := s);
      }
      if requireAck {
        if pending.active {
          return false;
        }
        packet := packet.(flags := if packet.flags % 2 == 0 then packet.flags + FLAG_ACK_REQUIRED else packet.flags);
      }
      ok := WriteOut(packet);
      if !ok {
        return false;
      }
      if requireAck {
        pending := Pending(true, packet, now, 0);
      }
    }

    method TransmitAck(destination: byte, sequence: u16, nack: bool) returns (ok: bool)
      requires Valid()
      modifies transport`log
      ensures Valid() && State() == SendAck(old(State()), destination, sequence, nack, transport.accepts).0
      ensures ok == SendAck(old(State()), destination, sequence, nack, transport.accepts).1
    {
      ok := WriteOut(Packet(address, destination, if nack then NACK else ACK, FLAG_RESPONSE, sequence, []));
    }

    method HandleControlPacket(p: Packet)
      requires Valid()
      modifies this`pending
      ensures pending == HandleControl(old(pending), p)
    {
      if !pending.active {
        return;
      }
      if p.sequence != pending.packet.sequence {
        return;
      }
      if p.source != pending.packet.destination {
        return;
      }
      if p.kind == ACK {
        pending := pending.(active := false);
      } else if p.kind == NACK {
        pending := pending.(sentAt := 0);
      }
    }

    method EnqueueRx(p: Packet) returns (ok: bool)
      requires Valid()
      modifies this`rxTail, this`rxCount, this`rxDrops, rxQueue
      ensures Valid() && State() == Enqueue(old(State()), p) && (ok <==> old(rxCount) < QUEUE_SIZE)
    {
      hide Ring;
      if rxCount >= QUEUE_SIZE {
        rxDrops := Inc32(rxDrops);
        return false;
      }
      RingAppend(rxQueue[..], rxHead, rxCount, p);
      ghost var slots := rxQueue[..][rxTail := p];
      rxQueue[rxTail] := p;
      assert rxQueue[..] == slots;
      rxTail := (rxTail + 1) % QUEUE_SIZE;
      rxCount := rxCount + 1;
      return true;
    }

    method DequeueRx() returns (p: Option<Packet>)
      requires Valid()
      modifies this`rxHead, this`rxCount
      ensures Valid() && State() == Dequeue(old(State())).0 && p == Dequeue(old(State())).1
    {
      hide Ring;
      if rxCount == 0 {
        return None;
      }
      RingDrop(rxQueue[..], rxHead, rxCount);
      p := Some(rxQueue[rxHead]);
      rxHead := (rxHead + 1) % QUEUE_SIZE;
      rxCount := rxCount - 1;
    }

    /** The body of poll()'s loop over the bytes read. */
    method TakeByte(b: byte)
      requires Valid()
      modifies this, transport`log, parser, parser.buffer, rxQueue
      ensures Valid() && State() == ReceiveByte(old(State()), b, transport.accepts)
    {
      hide Advance, SendAck, Ring, Enqueue, HandleControl;
      ghost var prior := State();
      var packet := parser.Push(b);
      assert State() == prior.(parser := Advance(prior.parser, b).0);
      if packet.None? {
        return;
      }
      var q := packet.value;
      if q.destination != address && q.destination != BROADCAST {
        return;
      }
      if q.kind == ACK || q.kind == NACK {
        HandleControlPacket(q);
        return;
      }
      if autoAck && q.flags % 2 != 0 {
        var sent := TransmitAck(q.source, q.sequence, false);
      }
      var queued := EnqueueRx(q);
    }

    method PollPacket() returns (p: Option<Packet>, ghost chunk: seq<byte>)
      requires Valid()
      modifies this, transport, parser, parser.buffer, rxQueue
      ensures Valid() && |chunk| <= 64
      ensures old(transport.incoming) == (if old(rxCount) > 0 then [] else chunk) + transport.incoming
      ensures State() == Poll(old(State()), chunk, transport.accepts).0
      ensures p == Poll(old(State()), chunk, transport.accepts).1
    {
      hide ReceiveByte;
      chunk := [];
      p := DequeueRx();
      if p.Some? {
        return;
      }
      ghost var before := State();
      var bytes := transport.Read(CHUNK_SIZE);
      chunk := bytes;
      assert State() == before;
      for i := 0 to |bytes|
        invariant Valid() && State() == Receive(before, bytes[..i], transport.accepts)
        invariant transport.incoming == old(transport.incoming)[|bytes|..]
      {
        assert bytes[..i + 1][..i] == bytes[..i];
        TakeByte(bytes[i]);
      }
      assert bytes[..|bytes|] == bytes;
      p := DequeueRx();
    }

    method ServicePending(now: u32)
      requires Valid()
      modifies this`pending, this`txFailures, transport`log
      ensures Valid() && State() == Service(old(State()), now, transport.accepts)
    {
      hide WritePacket;
      if !pending.active {
        return;
      }
      if Elapsed(now, pending.sentAt) < ackTimeout {
        return;
      }
      if pending.retries >= maxRetries {
        pending := pending.(active := false);
        txFailures := Inc32(txFailures);
        return;
      }
      var ok := WriteOut(pending.packet);
      if ok {
        pending := pending.(retries := pending.retries + 1, sentAt := now);
      }
    }
  }
}
