/** The security controller's commands, modes and events, and the packets that report them. */
module SecurityMessages {
  import opened Bytes
  import opened Codec

  datatype Mode = Unlocked | Locked | Alarm | LockPending

  datatype Event =
    | ShockWarningEvent | ShockTriggerEvent | AlarmStartedEvent | AlarmStoppedEvent
    | LockedEvent | UnlockedEvent | LockPendingEvent

  datatype Command = LockCommand | UnlockCommand | SilenceAlarmCommand | RequestStateCommand

  function ModeCode(m: Mode): byte {
    match m
    case Unlocked => 0x00
    case Locked => 0x01
    case Alarm => 0x02
    case LockPending => 0x03
  }

  function ModeOf(raw: byte): (m: Option<Mode>)
    ensures forall x :: m == Some(x) <==> ModeCode(x) == raw
    ensures m == None <==> raw > 0x03
  {
    if raw == 0x00 then Some(Unlocked)
    else if raw == 0x01 then Some(Locked)
    else if raw == 0x02 then Some(Alarm)
    else if raw == 0x03 then Some(LockPending)
    else None
  }

  function EventCode(e: Event): byte {
    match e
    case ShockWarningEvent => 0x01
    case ShockTriggerEvent => 0x02
    case AlarmStartedEvent => 0x03
    case AlarmStoppedEvent => 0x04
    case LockedEvent => 0x05
    case UnlockedEvent => 0x06
    case LockPendingEvent => 0x07
  }

  function EventOf(raw: byte): (e: Option<Event>)
    ensures forall x :: e == Some(x) <==> EventCode(x) == raw
    ensures e == None <==> raw < 0x01 || raw > 0x07
  {
    if raw == 0x01 then Some(ShockWarningEvent)
    else if raw == 0x02 then Some(ShockTriggerEvent)
    else if raw == 0x03 then Some(AlarmStartedEvent)
    else if raw == 0x04 then Some(AlarmStoppedEvent)
    else if raw == 0x05 then Some(LockedEvent)
    else if raw == 0x06 then Some(UnlockedEvent)
    else if raw == 0x07 then Some(LockPendingEvent)
    else None
  }

  function CommandOf(raw: byte): Option<Command> {
    if raw == 0x01 then Some(LockCommand)
    else if raw == 0x02 then Some(UnlockCommand)
    else if raw == 0x03 then Some(SilenceAlarmCommand)
    else if raw == 0x04 then Some(RequestStateCommand)
    else None
  }

  datatype Snapshot = Snapshot(mode: Mode, startInhibit: bool, alarmActive: bool, shockWarning: bool,
                               shockTrigger: bool, engineRunning: bool)

  function SecurityStatePacket(s: Snapshot, destination: byte): Packet {
    Packet(MAIN_COMPUTER, destination, SECURITY_STATE, FLAG_RESPONSE, 0,
           [ModeCode(s.mode), Bit(s.startInhibit), Bit(s.alarmActive), Bit(s.shockWarning),
            Bit(s.shockTrigger), Bit(s.engineRunning)])
  }

  function SecurityEventPacket(e: Event, destination: byte): Packet {
    Packet(MAIN_COMPUTER, destination, SECURITY_EVENT, 0, 0, [EventCode(e)])
  }
}
