# Motorcycle controller network: a verified model

Four microcontroller nodes and a main computer share a binary protocol. A lighting node, a security node and a
main computer hang on the ports of a *northbridge*, which learns where addresses live and relays frames. This
project models the protocol and the state machines that use it, and proves what the network relies on.

| file | what it models |
|---|---|
| `Bytes.dfy` | bytes, wrapping 16- and 32-bit integers, the 32-bit millisecond clock against real time, sample histories |
| `Crc16.dfy` | CRC-16/CCITT-FALSE: the bitwise loop, its linearity over GF(2), and the errors it must catch |
| `Codec.dfy` | frames: encoding, decoding with its six error statuses, and damage to frames |
| `StreamParser.dfy` | the byte-driven parser and its behaviour on arbitrary streams |
| `Esp32Protocol.dfy` | the second encoder and parser, in the ESP32-S3 sketch, against the first |
| `Node.dfy`, `NodeRuns.dfy` | `BikeNode`: receive queue, stop-and-wait sending, and both over whole runs |
| `LightingServer.dfy`, `ReliableCommand.dfy` | lamp commands, and commander + lossy links + lighting node as one system |
| `LightingLocalControl.dfy` | debounced switches, flasher, arbitration with network commands |
| `LightingFaultManager.dfy`, `FaultMirror.dfy` | latching lamp faults, and the dashboard's copy of them across the link |
| `SecurityMessages.dfy`, `SecurityServer.dfy`, `SecurityRuns.dfy`, `SecurityEffects.dfy` | lock, alarm and start-inhibit controller over whole runs |
| `Router.dfy`, `Northbridge.dfy`, `NorthbridgeRuns.dfy`, `NorthbridgeTraces.dfy`, `NorthbridgeCounters.dfy`, `NorthbridgeEffects.dfy` | route table, relaying, topology enforcement, counters |
| `MotorcycleComputer.dfy`, `DashboardDecoding.dfy`, `Pipelines.dfy` | the dashboard's decoders, and publish - relay - decode end to end |

How it is built:

- A class whose methods update fields is a Dafny class with those fields; each method is proved equal to a
  step function on the class's abstract value, and the lemmas about runs are about that function.
- Integers of 8, 16 and 32 bits keep their width: counters and sequence numbers wrap as in the source, and the CRC
  register is a 16-bit vector. Runs carry unbounded real time `t`; the program only ever sees `t mod 2^32`.
- What the program cannot decide is a parameter: whether the n-th write to a transport or an output pin succeeds
  (`accepts`, `works`, `env`), what the pins read, which bytes arrive, when calls happen. "Infallible" is
  `forall n :: works(n)` and is written where a property needs it.
- A run is a sequence of calls. A statement about every run holds at every call boundary, because every prefix of a run is a run.

Results that differ from what one might expect of the code:

- A flash episode starts with the lamp on, except in the very first loop after boot with a half-period of zero
  (`EpisodeStartsOn` gives the exact condition).
- A negative acknowledgement makes the next service call act at once exactly when the clock value is at least the
  acknowledgement timeout, because the source rewinds the send time to 0 rather than to the past (`NackRetriesWhen`).
- The two parsers part exactly at a completed header with a foreign version and an acceptable length: one drops the
  candidate there, the other goes on collecting (`StepsAgree`, `LockstepExactly`).
- The dashboard may miss an over-current shutdown: one whose write succeeds only after the fault was reported issues
  no message, and is shown only with the lamp's next Fault report. `FlagShownExactly` and `ShownThroughoutExactly` say
  exactly when the flag is shown, `FlagAlwaysShown` what a user can do about it (outputs that take every shutdown
  write, or the report-only policy), and `ShutdownCanLag` gives a run in which it is not.
- An ACK says that a lamp command was applied only because the lighting controller switches automatic ACKs off
  (`library/include/bike/lighting_controller.hpp:11`); with them on it says nothing (`AutoAckProvesNothing`).
- A transmit counter is the number of frames its port took, plus one for each broadcast that the port refused while
  another port took it, modulo 2^32, so it is exact exactly when there were none (`TransmitCounters`,
  `TransmitExactWhen`); refused unicasts and refused packets of the northbridge's own do no harm, nor does a refusal on
  another port (`WillingPortExact`). `RefusedBroadcastIsCounted` is a run in which a counter is wrong.
- The malformed-frame count of a port follows its parser's reject counter until that wraps, and then stands still until
  the counter passes its old height (`MalformedCounts`).
- A bind call made when the route table is full of other addresses fails and still leaves its binding, without a route
  (`BindOutcome` gives the exact condition, `BindCanStrand` such a run).
- A diagnostics message fits its payload array exactly while at most five ports are attached (`DiagnosticsFit`).
- `esp32/lighting/src/main.cpp:31` calls `set_debounce_ms`, which the class does not have; the model follows the
  class, where the setter is `set_input_debounce_ms` (`library/include/bike/lighting_local_control.hpp:26`).

## Model

| member | source | states |
|---|---|---|
| Crc16.Crc16CcittFalse | protocol/include/bike_protocol/crc16.hpp:7-18 | the two nested loops compute the bit-serial CRC of the first `length` bytes, started at 0xFFFF |
| Crc16.StepLinear | protocol/include/bike_protocol/crc16.hpp:12-14 | one shift step is linear: the step of a sum is the sum of the steps |
| Crc16.StepNInjective | protocol/include/bike_protocol/crc16.hpp:11-15 | any number of shift steps maps different registers to different registers |
| Crc16.BytesAreBits | protocol/include/bike_protocol/crc16.hpp:9-16 | feeding whole bytes into the top of the register is the same as feeding their bits one at a time |
| Crc16.FeedDiff | protocol/include/bike_protocol/crc16.hpp:9-16 | the registers of two equally long messages differ by the register of their difference |
| Crc16.OwnBytesClear | protocol/include/bike_protocol/crc16.hpp:9-16 | feeding a register its own two bytes leaves zero: the residue of the checksum is 0 |
| Crc16.BurstDetected | protocol/include/bike_protocol/crc16.hpp:9-16 | an error pattern confined to 16 consecutive bits never leaves a zero register |
| Crc16.OddStep | protocol/include/bike_protocol/crc16.hpp:12-14 | a shift step keeps the parity of the register |
| Crc16.ParityKept | protocol/include/bike_protocol/crc16.hpp:9-16 | the register's parity is the parity of the number of set bits fed |
| Crc16.NoShortCycle | protocol/include/bike_protocol/crc16.hpp:12-14 | a single set bit does not come back to the same register within the length of the longest frame |
| Crc16.PairDetected | protocol/include/bike_protocol/crc16.hpp:9-16 | two set bits at most 1120 bits apart never leave a zero register |
| Codec.EncodePacket | protocol/src/codec.cpp:24-60 | succeeds exactly for an acceptable payload, a buffer and enough room, then holds the frame and leaves the rest of the buffer; otherwise writes nothing and reports length 0 |
| Codec.DecodePacket | protocol/src/codec.cpp:62-107 | gives the status and packet of the first `length` bytes, with the null frame too short |
| Bytes.BigEndian | protocol/src/codec.cpp:7-10 | 16- and 32-bit integers travel most significant byte first |
| Codec.WireLayout | protocol/src/codec.cpp:41-56 | the frame byte by byte: sync pair A5 5A, version 1, addresses, type, flags, number, length, payload, and the checksum of all before it, high byte first |
| Codec.HeaderBytes | protocol/src/codec.cpp:41-49 | where each field of an encoded frame lies, and that its length follows from byte 9 |
| Codec.DecodeInvertsEncode | protocol/src/codec.cpp:24-107 | a frame decodes to a packet if and only if it is that packet's encoding |
| Codec.DecodeDiagnoses | protocol/src/codec.cpp:67-93 | changing any single byte of a valid frame is always rejected, and which status is given for which byte |
| Codec.DecodeChecksLength | protocol/src/codec.cpp:67-87 | a frame with a valid header but another length is too short or mismatched, never anything else |
| Codec.CheckValue | protocol/include/bike_protocol/crc16.hpp:7-18 | the checksum of the digits 1 to 9 is 0x29B1, the published check value |
| Codec.FrameResidue | protocol/src/codec.cpp:55-56 | the checksum over a whole frame, CRC field included, is 0 |
| Codec.AcceptedDamage | protocol/src/codec.cpp:89-93 | damage to a frame can be accepted only if its error pattern has a zero register |
| Codec.BurstRejected | protocol/src/codec.cpp:24-107 | same-length damage confined to 16 consecutive bits anywhere in a frame is never decoded as Ok |
| Codec.OddDamageRejected | protocol/src/codec.cpp:24-107 | damage that flips an odd number of bits is never decoded as Ok |
| Codec.PairRejected | protocol/src/codec.cpp:24-107 | damage that flips exactly two bits is never decoded as Ok |
| StreamParsing.StreamParser.Push | library/src/stream_parser.cpp:6-49 | one byte changes collected bytes, expected size and reject count, and completes a packet, as the framing machine says |
| StreamParsing.StreamParser.Judge | library/src/stream_parser.cpp:31-48 | the header decides a candidate's size or rejects it, and its last byte completes or rejects it |
| StreamParsing.StreamParser.Reset | library/src/stream_parser.cpp:51-54 | forgets the candidate and keeps the reject count |
| StreamParsing.AdvanceKeepsReachable | library/src/stream_parser.cpp:23-27 | every byte keeps the parser consistent, and its overflow guard is never reached |
| StreamParsing.RunAppend | library/src/stream_parser.cpp:6-49 | how a stream is cut into chunks makes no difference |
| StreamParsing.GarbageIgnored | library/src/stream_parser.cpp:7-21 | garbage without an adjacent sync pair yields nothing, rejects nothing, and leaves at most one stray sync byte |
| StreamParsing.CandidatePrefix | library/src/stream_parser.cpp:29-39 | whatever follows a sync pair with an acceptable length byte is collected to that length |
| StreamParsing.FrameParsed | library/src/stream_parser.cpp:29-46 | from idle, or after a stray first sync byte, a frame yields exactly its packet and no reject |
| StreamParsing.DamagedFrameRejected | library/src/stream_parser.cpp:41-46 | a candidate that is not a valid frame, of whatever damage, yields nothing and is counted as exactly one rejected frame |
| StreamParsing.OversizeRejected | library/src/stream_parser.cpp:31-37 | a length byte above 128 rejects and counts the candidate at once |
| StreamParsing.Resynchronises | library/src/stream_parser.cpp:6-54 | any alternation of frames and sync-free garbage, also garbage ending in 0xA5, yields exactly the packets in order and no reject |
| StreamParsing.PacketsOccurInStream | library/src/stream_parser.cpp:6-54 | on any stream at all, the packets that come out are disjoint frames of the stream in that order: none is invented |
| StreamParsing.AdvanceEmitsBuffer | library/src/stream_parser.cpp:41-46 | a completed packet is exactly the bytes collected, and the parser is idle afterwards |
| StreamParsing.PacketsPerChunk | library/src/stream_parser.cpp:41-46 | n bytes complete at most (n + 11) / 12 packets, whatever was collected before |
| StreamParsing.SettlesAfterQuietBytes | library/src/stream_parser.cpp:6-54 | from any reachable state 139 bytes other than 0xA5 return the parser to idle |
| Esp32Protocol.EncodeFrame | esp32s3C/Protocol.cpp:4 | the sketch's encoder writes the library's bytes, and fails exactly when the payload or the room does not do |
| Esp32Protocol.EspParser.CheckFrame | esp32s3C/Protocol.cpp:11 | a complete candidate yields its packet if and only if its last two bytes are the checksum of the rest |
| Esp32Protocol.EspParser.Push | esp32s3C/Protocol.cpp:5-13 | one byte changes the sketch's parser, which checks the version at the header and only the checksum at the end |
| Esp32Protocol.StepsAgree | esp32s3C/Protocol.cpp:10 | from a common state both parsers do the same with a byte if and only if it completes no header with a foreign version and an acceptable length |
| Esp32Protocol.ForeignHeaderRejected | esp32s3C/Protocol.cpp:10 | at a header with a foreign version the sketch rejects and counts the candidate, while the library goes on collecting |
| Esp32Protocol.LockstepExactly | esp32s3C/Protocol.cpp:5-13 | both parsers agree in state, rejects and packets after every byte of a stream if and only if no such header is completed in it |
| Esp32Protocol.EspSettlesAfterQuietBytes | esp32s3C/Protocol.cpp:5-13 | 139 bytes other than 0xA5 return the sketch's parser to idle |
| Node.BikeNode.TakeSequence | library/src/node.cpp:8-12 | sequence numbers count up and skip 0 on wrap |
| Node.BikeNode.WriteOut | library/src/node.cpp:14-19 | one frame goes to the transport if the packet can be encoded; its outcome is the transport's |
| Node.BikeNode.Transmit | library/src/node.cpp:21-40 | stamps source, sequence and ACK flag, refuses while a command is outstanding, and remembers a written command |
| Node.BikeNode.TransmitAck | library/src/node.cpp:42-51 | writes an ACK or NACK with the given sequence number |
| Node.BikeNode.HandleControlPacket | library/src/node.cpp:53-63 | only a matching ACK clears, and only a matching NACK rewinds, the outstanding command |
| Node.BikeNode.EnqueueRx | library/src/node.cpp:65-75 | the ring buffer appends to the abstract queue, or counts a drop when full |
| Node.BikeNode.DequeueRx | library/src/node.cpp:77-83 | the ring buffer yields the head of the abstract queue |
| Node.BikeNode.TakeByte | library/src/node.cpp:93-111 | one received byte: address filter, control packets, automatic ACK, queueing |
| Node.BikeNode.PollPacket | library/src/node.cpp:85-114 | reads the link only when the queue is empty and returns the head of the queue |
| Node.BikeNode.ServicePending | library/src/node.cpp:116-130 | gives up at the retry limit, else retransmits once the timeout passed |
| NodeRuns.QueueIsBounded | library/src/node.cpp:65-75 | a packet is queued while fewer than eight wait, else dropped and counted |
| NodeRuns.ReceptionIsLosslessFifo | library/src/node.cpp:65-114 | over any run, the packets returned and then those queued are exactly the addressed, non-control packets parsed from the bytes read, in order, and nothing is ever dropped |
| NodeRuns.SendWrites | library/src/node.cpp:21-40 | a send puts exactly one frame on the wire, of this node, numbered if it was not, and asking for an ACK only where required; or none if a command is outstanding and another is sent or the payload is too long |
| NodeRuns.AckWrites | library/src/node.cpp:42-51 | an ACK or NACK is one response frame without payload that carries the number of what it answers |
| NodeRuns.EmitWrites | library/src/node.cpp:14-51 | what a server hands to its node is exactly one frame, and which |
| NodeRuns.AcceptAnswers | library/src/node.cpp:97-108 | an addressed data packet that asks for an ACK gets one exactly if the node answers automatically |
| NodeRuns.ReceiveAnswers | library/src/node.cpp:53-63 | a read clears the outstanding command if and only if it brings an ACK to this node, from the node commanded, with the command's number; and rewinds its timer if and only if it brings such a NACK |
| NodeRuns.CommandsAreConserved | library/src/node.cpp:21-63 | modulo 2^32, accepted commands are those acknowledged, those failed and the one outstanding; none is on the link more than 1 + max_retries times |
| NodeRuns.RetriesAreSpaced | library/src/node.cpp:116-130 | a retry comes at least ack_timeout of real time after the copy before it, across clock wrap, unless a matching NACK came |
| NodeRuns.NackRetriesWhen | library/src/node.cpp:58-62 | after a matching NACK the next service call acts if and only if the clock value is at least the timeout |
| NodeRuns.RetriesAreCounted | library/src/node.cpp:116-130 | over any run of calls, with a link that takes every frame: while a command stays outstanding its retry count is the number of service calls that found it due, never above max_retries |
| NodeRuns.DueCallDecides | library/src/node.cpp:116-130 | after any such run a due service call retransmits the same frame, unless the retries are used up, and then, and only then, gives up and counts one failure |
| NodeRuns.EndsByAnswerOrFailure | library/src/node.cpp:53-63 | an outstanding command ends only by a read that brings a matching ACK or by a counted failure at the limit |
| NodeRuns.AcceptedSendStarts | library/src/node.cpp:21-40 | an accepted command is outstanding with its own packet, its time of sending and no retry |
| NodeRuns.CopiesOnTime | library/src/node.cpp:116-130 | over any run with service gaps of at most G, every copy came within one timeout + G for each copy and each NACKed copy before it |
| NodeRuns.CommandEndsInTime | library/src/node.cpp:116-130 | across clock wrap, with service gaps of at most G and timeout + G below 2^32, a command is acknowledged or given up within (1 + max_retries) * (timeout + G) of real time; each copy answered by a NACK adds at most one timeout + G |
| NodeRuns.DefaultDeadline | library/include/bike/node.hpp:50-51 | with the settings a node starts with that is four times 250 ms and the gap |
| NodeRuns.RetriesEnd | library/src/node.cpp:116-130 | the special case of nothing but due service calls: exactly max_retries copies of the same frame and then one failure |
| Lighting.LightingServer.ValidOutput | library/src/lighting_server.cpp:19-28 | accepts exactly the four output identifiers |
| Lighting.LightingServer.Apply | library/src/lighting_server.cpp:39-43 | a refused hardware write leaves the commanded state alone |
| Lighting.LightingServer.PublishState | library/src/lighting_server.cpp:45-74 | reports the output levels read back from the hardware, in the fixed order |
| Lighting.LightingServer.HandlePacket | library/src/lighting_server.cpp:76-95 | answers a malformed or refused SetOutput with a NACK, an applied one with an ACK and then a state report |
| Lighting.AckMeansApplied | library/src/lighting_server.cpp:76-95 | a SetOutput is ACKed if and only if it was well formed and applied, else NACKed with every lamp unchanged; no other lamp ever changes |
| Lighting.PacketEffect | library/src/lighting_controller.cpp:31-58 | byte by byte: which SetOutput sets which lamp and no other, answered by an ACK and then a state report; which is refused by a NACK; and what every other packet is answered |
| ReliableCommand.SequenceIdentifies | library/src/node.cpp:8-12 | within 65535 allocations a sequence number identifies its allocation |
| ReliableCommand.ReceptionOf | library/src/node.cpp:97-110 | the lighting node hands its application exactly the addressed, non-control packets, and answers by itself exactly if automatic ACKs are on and one is asked for |
| ReliableCommand.RunKeepsInv | library/src/node.cpp:21-63 | over any run of commander, lossy in-order links and lighting node without automatic ACKs: every answer belongs to a delivered frame, every ACK to an applied command |
| ReliableCommand.AckedCommandIsInForce | library/src/node.cpp:53-63 | a SetOutput cleared by an ACK was applied, and its value is in force until the commander sends another for that output, whatever losses, retries and stale answers occur; the lighting node has automatic ACKs off, as its controller sets it |
| ReliableCommand.AutoAckProvesNothing | library/include/bike/lighting_controller.hpp:11 | with automatic ACKs on, any SetOutput that is malformed or refused by the output is cleared by an ACK in a run in which nothing is applied |
| ReliableCommand.AcksProveExactly | library/include/bike/lighting_controller.hpp:11 | on a link that takes every frame, an ACK proves application in every run if and only if automatic ACKs are off, for any timeout and retry limit |
| LocalControl.DebouncedInput.UpdateInput | library/src/lighting_local_control.cpp:5-25 | one sample of one switch: first sample taken as is, then a change after a full window |
| LocalControl.UpdateTells | library/src/lighting_local_control.cpp:5-25 | an update tells exactly whether it changed the debounced value; the first sample sets it |
| LocalControl.DebounceNeedsFullWindow | library/src/lighting_local_control.cpp:14-24 | a debounced value changes only after equal samples over a full window of real time, and has changed once the newest equal run spans it |
| LocalControl.LightingLocalControl.SampleInputs | library/src/lighting_local_control.cpp:27-33 | samples all five switches with the configured window |
| LocalControl.LightingLocalControl.Flash | library/src/lighting_local_control.cpp:49-76 | the flasher step after sampling |
| LocalControl.LightingLocalControl.DriveOutputs | library/src/lighting_local_control.cpp:39-87 | writes only outputs that differ and tells whether any did |
| LocalControl.LightingLocalControl.Service | library/src/lighting_local_control.cpp:45-92 | one loop: sampling, flasher, arbitration, and a report to the main computer when an output differed |
| LocalControl.LoopEndsArbitrated | library/src/lighting_local_control.cpp:78-91 | with outputs that take every write, a loop ends with every output as arbitrated, whatever it was; a report is due if and only if one differed |
| LocalControl.LoopWritesDiffering | library/src/lighting_local_control.cpp:39-87 | whatever writes fail: a loop writes each differing output once, in order, and no other; a taken write shows, a refused one does not |
| LocalControl.LoopReports | library/src/lighting_local_control.cpp:89-91 | a loop in which an output differed sends the main computer exactly one state report, and which bytes; others send none |
| LocalControl.BrakeAlwaysHonoured | library/src/lighting_local_control.cpp:78-87 | after every loop of any run the brake is on if and only if a debounced brake or the remote command asks for it; high beam alike; each locally requested indicator shows the common flasher phase, each other one its remote command |
| LocalControl.SwitchesAreIndependent | library/src/lighting_local_control.cpp:27-33 | over any run each debounced switch is the debounce of its own samples, whatever the network sends |
| LocalControl.EpisodeStartsOn | library/src/lighting_local_control.cpp:53-69 | a flash phase begins on at an episode if and only if the control had run before or the half-period is not zero |
| LocalControl.EpisodeLightsLamps | library/src/lighting_local_control.cpp:53-85 | over any run, at the loop that begins an episode every requested indicator lamp is on under exactly that condition |
| LocalControl.FirstEpisodeCanStartOff | library/src/lighting_local_control.cpp:53-69 | the exception at work: the left switch on at boot with a half-period of zero, and the lamp is off after the first loop |
| LocalControl.PhaseIsTracked | library/src/lighting_local_control.cpp:53-76 | over any run the last toggle time is the real start of the current phase, and the episode memory is last loop's request |
| LocalControl.TogglesAreSpaced | library/src/lighting_local_control.cpp:65-69 | while an indicator stays requested the lamp toggles no sooner than half a period of real time after its phase began |
| LocalControl.TogglesWhen | library/src/lighting_local_control.cpp:65-69 | while an indicator stays requested a loop toggles the phase if and only if it comes at least half a period of real time, and less than one wrap, after the phase began; the requested lamps show it |
| LocalControl.PhasesAreShort | library/src/lighting_local_control.cpp:60-74 | over any run with loop gaps of at most G no flash phase lasts longer than half a period + G |
| FaultManager.LightingFaultManager.SetConfirmSamples | library/include/bike/lighting_fault_manager.hpp:27 | a confirmation count of 0 means 1 |
| FaultManager.LightingFaultManager.PublishFault | library/src/lighting_fault_manager.cpp:36-53 | sends the record of one lamp as a Fault or FaultClear message and returns whether it was written |
| FaultManager.LightingFaultManager.ClearLatch | library/src/lighting_fault_manager.cpp:55-65 | clears one lamp's latch and streak, and reports only what was latched |
| FaultManager.LightingFaultManager.UpdateChannel | library/src/lighting_fault_manager.cpp:67-98 | one diagnostic sample of one lamp: streak, latch, count, shutdown write, lamps and message; the other channels are untouched |
| FaultManager.LightingFaultManager.CountSample | library/src/lighting_fault_manager.cpp:75-80 | counts faulty samples in a row up to 255, and tells whether a fault is confirmed |
| FaultManager.LightingFaultManager.LatchRecord | library/src/lighting_fault_manager.cpp:82-96 | latches a confirmed fault, counts it if it is new, and switches the lamp off where the policy says so |
| FaultManager.LightingFaultManager.Service | library/src/lighting_fault_manager.cpp:100-102 | samples the four lamps in order; channels, lamps, write count and messages are those of the four samples one after another |
| FaultManager.RoundSamplesEach | library/src/lighting_fault_manager.cpp:100-102 | a round gives every lamp exactly one sample, with its own reading |
| FaultManager.StreakCounts | library/src/lighting_fault_manager.cpp:75-80 | over any run the streak is the number of faulty samples in a row, capped at 255 |
| FaultManager.LatchNeedsConfirmation | library/src/lighting_fault_manager.cpp:75-97 | a Fault message is issued if and only if the sample ends confirm_samples faulty ones in a row with nothing, or another status, latched |
| FaultManager.OccurrencesCountMessages | library/src/lighting_fault_manager.cpp:82-97 | over any run occurrence_count is the number of Fault messages issued, modulo 2^32 |
| FaultManager.RecordIsHistory | library/src/lighting_fault_manager.cpp:55-96 | over any run a lamp's record is its history: present status and current are the newest sample's; latched exactly if a sample was confirmed since the newest clearing, with its status; first and last seen at the latching and the newest confirmed sample; shutdown exactly if a confirmed over-current was switched off |
| FaultManager.FaultMessageBytes | library/src/lighting_fault_manager.cpp:36-53 | the Fault and FaultClear messages byte by byte |
| FaultManager.SampleTells | library/src/lighting_fault_manager.cpp:67-98 | one sample seen from outside: exactly when the lamp is switched off, and no other, and exactly when a Fault message goes out |
| FaultMirror.CarryDelivers | library/src/motorcycle_computer.cpp:176-181 | a published packet crosses node, link and parser unchanged but for the sender's stamp |
| FaultMirror.FaultRoundTrip | library/src/motorcycle_computer.cpp:77-93 | a published fault record decodes to its latch, status, shutdown flag and count, in that lamp's place |
| FaultMirror.FaultsAreMirrored | library/src/motorcycle_computer.cpp:77-93 | over any run of samples, clears and other traffic on a lossless link, the dashboard's latch, status and count of every lamp are the manager's after every step |
| FaultMirror.FlagShownNext | library/src/lighting_fault_manager.cpp:82-97 | how one step changes whether the dashboard shows a lamp's shutdown flag: only a first successful shutdown that is not itself reported hides it, and any report or clearing of the lamp shows it again |
| FaultMirror.FlagShownExactly | library/src/lighting_fault_manager.cpp:82-97 | over any run the flag is shown if and only if no such silent shutdown came after the lamp's latest Fault report or clearing |
| FaultMirror.ShownThroughoutExactly | library/src/lighting_fault_manager.cpp:82-97 | the flag is shown after every step of a run if and only if no step is a silent shutdown |
| FaultMirror.FlagAlwaysShown | library/src/lighting_fault_manager.cpp:93-97 | the flag is shown after every step of any run in which the lamp's output takes every shutdown write or its policy is to report only |
| FaultMirror.ShutdownCanLag | library/src/lighting_fault_manager.cpp:93-97 | a run in which it is not shown: first shutdown write refused, second taken; an open load confirmed next brings the flag |
| FaultMirror.LateShutdownIsSilent | library/src/lighting_fault_manager.cpp:93-97 | the step behind it: a shutdown that first succeeds after its fault was latched issues no message |
| Security.SecurityServer.UpdateFilteredAssert | library/src/security_server.cpp:46-72 | asserts after a confirmation time, clears at once |
| Security.SecurityServer.SampleEngine | library/src/security_server.cpp:75-94 | running at once, stopped only after the confirmation time |
| Security.SecurityServer.SampleInputs | library/src/security_server.cpp:74-100 | samples engine, warning and trigger filters |
| Security.SecurityServer.UpdateStartInhibit | library/src/security_server.cpp:102-107 | drives the inhibit exactly in Locked or Alarm with the engine believed stopped |
| Security.SecurityServer.PersistArmed | library/src/security_server.cpp:16-18 | saves the armed flag if there is storage |
| Security.SecurityServer.PublishState | library/src/security_server.cpp:118-132 | reports mode, outputs, filtered shocks and engine |
| Security.SecurityServer.SetLocked | library/src/security_server.cpp:134-161 | unlocks, locks, or leaves the lock pending while the engine is believed running |
| Security.SecurityServer.StartAlarm | library/src/security_server.cpp:163-172 | starts an alarm only from Locked and only if the output takes it |
| Security.SecurityServer.StopAlarm | library/src/security_server.cpp:174-181 | ends an alarm without sampling the inputs |
| Security.SecurityServer.HandleCommand | library/src/security_server.cpp:183-211 | dispatches a command, acknowledges it, and reports the state |
| Security.SecurityServer.HandlePacket | library/src/security_server.cpp:213-226 | takes only SecurityCommand packets and refuses those of another length |
| Security.SecurityServer.Service | library/src/security_server.cpp:228-257 | samples, promotes a pending lock, times the alarm, acts on shock edges |
| Security.SecurityServer.RestorePersistedState | library/src/security_server.cpp:20-44 | boots with both outputs off and an armed intent only pending |
| SecurityRuns.InhibitNeedsStoppedEngine | library/src/security_server.cpp:74-107 | at every boundary of every run from boot: inhibit on implies Locked or Alarm, the last engine sample low, and, once it was sampled running or after an armed restore, only low samples over engine_stop_confirm_ms of real time |
| SecurityRuns.OperationTurnsOn | library/src/security_server.cpp:102-107 | whatever output writes fail, an operation that turns the inhibit on ends in Locked or Alarm with the engine believed stopped |
| SecurityRuns.InhibitTurnsOnSafely | library/src/security_server.cpp:74-107 | the same over any run from boot in terms of samples: the last engine sample is low, and, once it was sampled running or after an armed restore, only low samples came over engine_stop_confirm_ms of real time |
| SecurityRuns.PendingLockTakesHold | library/src/security_server.cpp:228-238 | a service call at which low engine samples span the confirmation time, and less than one wrap, leaves no lock pending, and the inhibit on if armed |
| SecurityRuns.EngineFollowsSamples | library/src/security_server.cpp:74-94 | over any run the engine filter is determined by the newest run of engine samples as stated |
| SecurityRuns.OutputsMatch | library/src/security_server.cpp:134-181 | with working outputs, over any run: inhibit on exactly in Locked or Alarm with the engine believed stopped; alarm output on exactly in Alarm, exactly while the timer runs |
| SecurityRuns.AlarmStartsAtEdge | library/src/security_server.cpp:228-257 | an alarm starts in an operation if and only if it is a service call that sees a confirmed trigger the service call before did not, while locked, or as a pending lock takes hold or an alarm is over, and the output takes the write |
| SecurityEffects.AlarmSounds | library/src/security_server.cpp:246-256 | over any run from boot, with working outputs: a service call that finds the bike locked and the trigger high for trigger_confirm_ms, where the one before had not, starts the alarm: siren on, timer running from now, start announced |
| SecurityEffects.AlarmContinues | library/src/security_server.cpp:240-244 | whatever writes fail, an alarm goes on through any operation that is neither a Lock, Unlock or SilenceAlarm command nor a service call at which its time is over |
| SecurityEffects.AlarmLasts | library/src/security_server.cpp:240-244 | so it sounds for alarm_duration_ms of real time unless commanded otherwise |
| SecurityEffects.ServiceTells | library/src/security_server.cpp:228-257 | with working outputs, everything a service call changes and every message it sends, byte by byte |
| SecurityEffects.ShocksTell | library/src/security_server.cpp:246-253 | the shock check by itself: which messages, and the alarm with its siren |
| SecurityEffects.AlarmStartRefused | library/src/security_server.cpp:163-172 | an alarm start succeeds exactly from Locked with an output that takes the write; else nothing changes but the attempt |
| SecurityEffects.FilterTells | library/src/security_server.cpp:46-72 | a filter step tells exactly whether it changed the filtered value; release is at once |
| SecurityEffects.LockCommandEffect | library/src/security_server.cpp:189-191 | command byte 1: armed at once or, with the engine believed running, pending; intent stored; outputs; event, ACK and report byte by byte |
| SecurityEffects.UnlockCommandEffect | library/src/security_server.cpp:192-194 | command byte 2: disarmed, intent stored, outputs off; event, ACK and report |
| SecurityEffects.SilenceCommandEffect | library/src/security_server.cpp:195-197 | command byte 3: the alarm off and back to locked, event, ACK and report if the output takes the write; else a NACK and nothing else |
| SecurityEffects.RequestCommandEffect | library/src/security_server.cpp:198-202 | command byte 4: inputs sampled, one report, and an answer that says whether it was sent |
| SecurityEffects.OtherCommandRefused | library/src/security_server.cpp:203-218 | any other command byte or length: a NACK if one is asked for, and nothing else |
| SecurityEffects.OtherPacketIgnored | library/src/security_server.cpp:213-214 | packets of other kinds change nothing |
| SecurityEffects.TriggerSinceBoot | library/src/security_server.cpp:46-72 | over any run the trigger filter is determined by the newest run of trigger samples, in both directions |
| SecurityRuns.AlarmsAreSeparated | library/src/security_server.cpp:213-257 | between two alarm starts, whatever packets sample the inputs, there is a low trigger sample followed by only high ones over trigger_confirm_ms of real time |
| SecurityRuns.AlarmIsTimed | library/src/security_server.cpp:240-244 | while an alarm is on, the newest service call came less than the duration after its start |
| SecurityRuns.AlarmIsBounded | library/src/security_server.cpp:228-257 | with service gaps of at most G and duration + G below 2^32, no alarm that is on started more than duration + G of real time ago |
| SecurityRuns.StorageFollowsMode | library/src/security_server.cpp:134-161 | the stored armed flag is true exactly when the mode is not Unlocked, after every operation |
| SecurityRuns.CrashRestoresIntent | library/src/security_server.cpp:20-44 | a crash at any operation boundary of any run restarts in LockPending exactly when the bike was armed, with both outputs off |
| SecurityEffects.RestoreEffect | library/src/security_server.cpp:20-44 | the boot step in full: outputs driven off, an armed intent pending with the engine believed running from now, else unlocked |
| Routing.NorthbridgeRouter.AttachPort | library/src/router.cpp:5-9 | attaches an existing port and no other |
| Routing.NorthbridgeRouter.AddRoute | library/src/router.cpp:11-32 | moves an address's route, or takes the first free slot |
| Routing.NorthbridgeRouter.DropRoute | library/src/router.cpp:34-42 | frees the slot of an address |
| Routing.NorthbridgeRouter.LookUp | library/src/router.cpp:44-51 | the port of the first active slot with the address |
| Routing.NorthbridgeRouter.NoteSeen | library/src/router.cpp:86-102 | learns or moves the route of a source and stamps it |
| Routing.NorthbridgeRouter.WriteToPort | library/src/router.cpp:53-60 | writes the packet's frame to one attached port |
| Routing.NorthbridgeRouter.ForwardPacket | library/src/router.cpp:62-84 | learns the source, then broadcasts, relays or refuses |
| Routing.SetRouteKeepsTable | library/src/router.cpp:11-32 | the table keeps one entry per address, each on an attached port; only that address's route changes |
| Routing.SetRouteWrites | library/src/router.cpp:11-32 | setting a route writes exactly one slot, the address's own with its stamp or a free one without; and exactly when it fails, changing nothing |
| Routing.RemoveRouteKeepsTable | library/src/router.cpp:34-42 | the same for removal, after which the address has no route; it succeeds exactly if there was one |
| Routing.MarkSeenKeepsTable | library/src/router.cpp:86-102 | the same for learning; a known source is routed to where it was seen |
| Routing.MarkSeenLearns | library/src/router.cpp:86-102 | the router learns: a source is then routed to its port, and stamped, if it had a route or a slot was free, and only in a table full of others not |
| Routing.FloodEffect | library/src/router.cpp:69-76 | a broadcast writes one copy to each attached port but the ingress port, and succeeds if and only if one of them takes it |
| Routing.ForwardEffect | library/src/router.cpp:62-84 | one copy of the frame leaves by each port the packet should leave by and none by any other, never by its ingress port; it succeeds if and only if one of those ports takes it |
| Northbridge.NorthbridgeRuntime.Bind | library/src/northbridge.cpp:23-32 | binds an address to an attached port and routes it there |
| Northbridge.NorthbridgeRuntime.RouteTo | library/include/bike/northbridge.hpp:29 | sets a route without a binding |
| Northbridge.NorthbridgeRuntime.ExpectedPortFor | library/src/northbridge.cpp:34-37 | the port an address is bound to, if any |
| Northbridge.NorthbridgeRuntime.SendOwn | library/src/northbridge.cpp:43-53 | sends a packet as the northbridge's own and counts it if it was written |
| Northbridge.NorthbridgeRuntime.SendTopologyFault | library/src/northbridge.cpp:76-81 | reports a misplaced node to the main computer if that has a route |
| Northbridge.NorthbridgeRuntime.DiagnosticPayload | library/src/northbridge.cpp:85-92 | the four counters and one entry per attached port in port order |
| Northbridge.NorthbridgeRuntime.SendDiagnostics | library/src/northbridge.cpp:83-94 | sends them to the asking node, where the payload array holds them |
| Northbridge.NorthbridgeRuntime.HandleLocalPacket | library/src/northbridge.cpp:96-106 | acknowledges and answers packets for the northbridge itself |
| Northbridge.NorthbridgeRuntime.AccountForward | library/src/northbridge.cpp:108-112 | counts a drop on the ingress port, or a transmission on each egress port |
| Northbridge.NorthbridgeRuntime.TakePacket | library/src/northbridge.cpp:118-122 | one completed packet: counted, then blocked, handled or forwarded, on any number of ports unless it makes the source overrun its diagnostics payload |
| Northbridge.NorthbridgeRuntime.ServicePort | library/src/northbridge.cpp:114-125 | one read of one port, byte by byte, and its reject count |
| Northbridge.NorthbridgeRuntime.NoteRejects | library/src/northbridge.cpp:124 | adds the parser's new rejects to the malformed count, once |
| Northbridge.NextFits | library/src/northbridge.cpp:117-121 | reading on never turns a packet of the chunk that fits into one that overruns |
| Northbridge.NorthbridgeRuntime.Service | library/src/northbridge.cpp:127-130 | every port in order |
| NorthbridgeRuns.BindingEstablished | library/src/northbridge.cpp:23-32 | a successful bind_node binds and routes its address and changes no other address's binding or route |
| NorthbridgeRuns.PacketInEffect | library/src/northbridge.cpp:118-122 | whichever way a packet goes: the table stays sound, a blocked source's route stays, every write is an own frame or a relayed one on another port, and each counter moves as it should, a transmit counter away from the frames taken exactly under the overcounting guard |
| NorthbridgeRuns.RelaysByteForByte | library/src/northbridge.cpp:117-122 | of a packet that goes on, each port it leaves by gets exactly one copy of the received bytes, and every other port nothing |
| NorthbridgeEffects.OwnWrites | library/src/northbridge.cpp:43-53 | a packet of its own is one frame with its own address and next number on that port and no other, counted exactly if it was taken |
| NorthbridgeEffects.DiagnosticBytesAre | library/src/northbridge.cpp:83-94 | the diagnostics message byte by byte |
| NorthbridgeEffects.LocalReplies | library/src/northbridge.cpp:96-106 | what a packet to the northbridge is answered, by the port it came by: ACK, identity, heartbeat or diagnostics, byte by byte |
| NorthbridgeEffects.MisplacedIsReported | library/src/northbridge.cpp:119-120 | under enforced topology a packet from a bound source on another port goes no further, is counted four ways, and the main computer is told the node, where it belongs, where it was seen, and the fault count |
| NorthbridgeEffects.PacketCounts | library/src/northbridge.cpp:118-122 | for every packet, exactly which counters move: received, moved, topology faults, forwarded if and only if a port it leaves by takes it, else dropped |
| NorthbridgeEffects.PacketTeaches | library/src/northbridge.cpp:121-122 | a packet that is not blocked teaches its source's route, if it had one or the table has room |
| NorthbridgeEffects.LearnedRouteServes | library/src/northbridge.cpp:117-122 | once a packet from a node came in on a port, a packet to that node from another port leaves by that port, as received, and by no other |
| NorthbridgeEffects.ServiceIsTraffic | library/src/northbridge.cpp:127-130 | a service call is one burst on every port in order, so every statement about traffic holds of it |
| NorthbridgeRuns.TrafficKeeps | library/src/northbridge.cpp:114-125 | any traffic keeps the table, the parsers, the bindings and, where enforced, the bound routes sound |
| NorthbridgeRuns.BoundRoutesHold | library/src/northbridge.cpp:114-123 | with topology enforced, no input on any ports changes a bound node's route; the table keeps one entry per address, on attached ports |
| NorthbridgeRuns.LastByteCompletes | library/src/northbridge.cpp:117-118 | of a frame arriving whole all bytes but the last are quiet, and the last completes its packet |
| NorthbridgeRuns.FrameHandled | library/src/northbridge.cpp:117-122 | a frame arriving whole is handled as its packet, and the parser is idle again |
| NorthbridgeRuns.TrafficBalances | library/src/northbridge.cpp:108-125 | over any traffic, modulo 2^32: packets received are those forwarded, dropped and locally handled; the ports' drops are all drops; with infallible writes each transmit counter is the number of frames written, all of them taken; each port is parsed on its own |
| NorthbridgeCounters.ByteDrifts | library/src/northbridge.cpp:108-122 | one byte moves a port's transmit counter away from the frames the port took if and only if it completes a broadcast that the port refuses and another port takes |
| NorthbridgeCounters.TransmitCounters | library/src/northbridge.cpp:108-125 | over any traffic, whatever writes fail: each transmit counter is the frames its port took plus the number of such broadcasts, modulo 2^32 |
| NorthbridgeCounters.TransmitExactWhen | library/src/northbridge.cpp:108-125 | a counter exact at the start is exact after the traffic if and only if the number of such broadcasts is 0 modulo 2^32 |
| NorthbridgeCounters.WillingPortExact | library/src/northbridge.cpp:108-112 | a port that takes every frame written to it is never overcounted, whatever other ports refuse |
| NorthbridgeCounters.RefusedBroadcastIsCounted | library/src/northbridge.cpp:110 | a run from power-on in which a counter is wrong: of three ports the second refuses a broadcast that the third takes |
| NorthbridgeCounters.RejectsCounted | library/src/stream_parser.cpp:23-46 | the parser's reject counter is the number of candidates it rejected, modulo 2^32 |
| NorthbridgeCounters.TrafficMetered | library/src/northbridge.cpp:116-124 | over any traffic, on every attached port: rx_bytes is the bytes read modulo 2^32, and malformed_frames is the highest value the parser's reject counter showed after a read |
| NorthbridgeCounters.MalformedCounts | library/src/northbridge.cpp:124 | from power-on: malformed_frames is the candidates rejected on the port while those are fewer than 2^32, and equals the parser's counter if and only if that stands at its highest |
| NorthbridgeTraces.RelaysOnlyWhatCame | library/src/northbridge.cpp:114-123 | over any traffic, every relayed frame, whatever source it bears, was received valid and byte for byte on another attached port, where enforced and its source is bound on its bound port; every other frame written is the northbridge's own and bears its address |
| NorthbridgeTraces.SetUpIsSound | library/src/northbridge.cpp:17-32 | any sequence of attach and bind calls, failed ones included, leaves a sound northbridge with nothing counted or written |
| NorthbridgeTraces.BindSucceedsWhen | library/src/northbridge.cpp:23-32 | during set-up a bind succeeds if and only if the port is attached and the address is bound or a slot is free |
| NorthbridgeTraces.BindOutcome | library/src/northbridge.cpp:23-32 | at any time, with any routes learned or set: exactly when bind_node succeeds, and exactly when it leaves an active binding without a route |
| NorthbridgeTraces.RouteNodeOutcome | library/include/bike/northbridge.hpp:29 | at any time set_route keeps every bound route if and only if it does not move a bound address to another attached port |
| NorthbridgeTraces.BindCanStrand | library/src/northbridge.cpp:28-30 | after set_route calls for eight addresses, binding a ninth fails and its binding stays without a route |
| NorthbridgeTraces.EnforcedNetwork | library/src/northbridge.cpp:17-130 | from power-on through any set-up and any traffic with topology enforced: bound routes hold, the books balance, and every relayed frame is accounted for |
| NorthbridgeTraces.DiagnosticsFit | library/src/northbridge.cpp:83-94 | the payload is 18 + 21 bytes a port, and fits if and only if at most five ports are attached |
| MotorcycleComputers.MotorcycleComputer.ReadLightingState | library/src/motorcycle_computer.cpp:30-50 | accepts exactly well-formed lamp reports and shows them; otherwise changes nothing |
| MotorcycleComputers.MotorcycleComputer.ReadLightingDiagnostics | library/src/motorcycle_computer.cpp:52-75 | the same for lamp diagnostics |
| MotorcycleComputers.MotorcycleComputer.ReadChannel | library/src/motorcycle_computer.cpp:56-69 | the same for one channel's six bytes |
| MotorcycleComputers.MotorcycleComputer.ReadLightingFault | library/src/motorcycle_computer.cpp:77-93 | the same for lamp faults and clears |
| MotorcycleComputers.MotorcycleComputer.ReadBridgeDiagnostics | library/src/motorcycle_computer.cpp:95-125 | the same for northbridge diagnostics |
| MotorcycleComputers.MotorcycleComputer.ReadBridgeFault | library/src/motorcycle_computer.cpp:127-137 | the same for topology faults |
| MotorcycleComputers.MotorcycleComputer.ReadSecurityState | library/src/motorcycle_computer.cpp:139-152 | the same for security states |
| MotorcycleComputers.MotorcycleComputer.ReadSecurityEvent | library/src/motorcycle_computer.cpp:154-162 | the same for security events |
| MotorcycleComputers.MotorcycleComputer.DispatchPacket | library/src/motorcycle_computer.cpp:164-174 | the first decoder that accepts a packet updates the dashboard |
| MotorcycleComputers.DecodersAreDisjoint | library/src/motorcycle_computer.cpp:164-174 | at most one decoder accepts a packet, so their order is immaterial |
| DashboardDecoding.LightingStateDecoded | library/src/motorcycle_computer.cpp:30-50 | exactly which lamp reports are accepted, and what each byte shows |
| DashboardDecoding.LightingDiagnosticsDecoded | library/src/motorcycle_computer.cpp:52-75 | the same for lamp diagnostics |
| DashboardDecoding.LightingFaultDecoded | library/src/motorcycle_computer.cpp:77-93 | the same for lamp faults and clearings |
| DashboardDecoding.BridgeDiagnosticsDecoded | library/src/motorcycle_computer.cpp:95-125 | the same for northbridge diagnostics |
| DashboardDecoding.BridgeFaultDecoded | library/src/motorcycle_computer.cpp:127-137 | the same for topology faults |
| DashboardDecoding.SecurityStateDecoded | library/src/motorcycle_computer.cpp:139-152 | the same for security states |
| DashboardDecoding.SecurityEventDecoded | library/src/motorcycle_computer.cpp:154-162 | the same for security events |
| DashboardDecoding.DispatchShows | library/src/motorcycle_computer.cpp:164-174 | a packet that some decoder accepts changes the dashboard as that decoder says |
| Pipelines.LightingStateShown | library/src/lighting_server.cpp:54-74 | the dashboard shows exactly the lamps the lighting node read, whatever it showed before |
| Pipelines.LightingDiagnosticsShown | library/src/lighting_diagnostics.cpp:66-98 | the dashboard shows exactly the four published channel diagnostics |
| Pipelines.SecurityStateShown | library/src/security_server.cpp:118-132 | the dashboard shows exactly the published security state |
| Pipelines.SecurityEventShown | library/src/security_server.cpp:109-116 | the dashboard shows exactly the published security event |
| Pipelines.SecurityStateAcceptedWhen | library/src/motorcycle_computer.cpp:139-152 | the decoder shows a state if and only if the payload is the one published for it, and accepts no other payload |
| Pipelines.BridgeDiagnosticsShown | library/src/northbridge.cpp:83-94 | the dashboard shows the northbridge's counters, every attached port's counters, and nothing for other ports |
| Pipelines.BridgeFaultShown | library/src/northbridge.cpp:76-81 | the dashboard shows the misplaced node, both ports and the event count |
| Pipelines.FrameRelayed | library/src/northbridge.cpp:114-123 | a frame arriving whole on a port is relayed as that frame, and the port is ready for the next |
| Pipelines.AcrossTheBridge | library/src/northbridge.cpp:114-123 | a packet for the main computer that enters one port is exactly what the main computer's parser makes of the new bytes on its own port |

## Left out

- `NetworkSupervisor`, `SelfTestRunner`, `LightingDiagnostics::evaluate` and `is_online`: field copies and a threshold; a lamp's electrical status is an input here.
- The `Router` and `Ports` of the ESP32-S3 sketch: a simpler and incomplete second northbridge; its codec is modelled.
- Serial, GPIO and preference-storage adapters, main programs, command-line tools and logging: foreign calls and user interface.
- Device-identity payloads are a parameter or a constant; heartbeat and discovery carry no hard property.
- A packet's payload is exactly its `length` bytes; what the 128-byte array holds beyond them is not kept.
- Transports are one per port and distinct; two ports attached to one transport object are not modelled.
- Northbridge.NorthbridgeRuntime.SendDiagnostics: requires at most five attached ports, because with more the source writes past its payload array, which has no defined behaviour.
- Northbridge.NorthbridgeRuntime.TakePacket: for the same reason excludes exactly the packets that ask for diagnostics, are not blocked and find more than five ports attached; so do the methods above it. The run lemmas exclude nothing.
- MotorcycleComputers.MotorcycleComputer.DispatchPacket: the supervisor and the packet observer, called first in the source, are not modelled; neither changes a decoder's state.
- NorthbridgeRuns.TrafficBalances: speaks of transmit counters with infallible writes only; TransmitCounters says what they show whatever writes fail.
- NodeRuns.RetriesEnd: covers runs of due service calls only; RetriesAreCounted and DueCallDecides cover every run.
- SecurityRuns.InhibitNeedsStoppedEngine: speaks of the last sampled engine input, because silencing an alarm samples nothing.
- FaultMirror.FaultsAreMirrored: leaves out the shutdown flag, which the source does not always report; FlagShownExactly says when it is shown.
- ReliableCommand.AckedCommandIsInForce: a damaged frame counts as lost, and fewer than 65535 sequence numbers are allocated while a frame or answer is under way.
- Pins are read once per operation and settings (timeouts, confirmation times, retry limit, policies) do not change during a run.
- Lamp outputs outside the four identifiers cannot be written down in the model; the source ignores them.
- An over-current shutdown is not persistent: local control may drive the output again in the next loop, and no lemma says otherwise.
