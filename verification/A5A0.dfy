/** Codec of the routed 01 A5 A0 purifier family, wire type 2 (protocols/a5a0.py). */
module A5A0 {
  import opened Bytes
  import opened Models
  import opened Framing

  const STATE_PREFIX: bytes := [0x02, 0x5A, 0xA1]
  const RECORD_PREFIX: bytes := [0x5A, 0xA1]
  const CONTROL_PREFIX: bytes := [0xA5, 0xA0]
  const QUERY: bytes := [0x01, 0xA5, 0xA0, 0x11, 0x11, 0x00, 0x00]

  function EncodeQuery(context: Context): Result<bytes>
  {
    if context.identity.wireType != 2 then Err(InvalidCommand) else Wrap(context, QUERY)
  }

  function CommandCode(operation: Operation): Option<byte>
  {
    match operation
    case Mode => Some(0x51)
    case Speed => Some(0x52)
    case Ptc => Some(0x53)
    case Timer => Some(0x54)
    case ChildLock => Some(0x55)
    case Display => Some(0x56)
    case FilterOperation => Some(0x57)
    case Power => Some(0x5E)
    case Airflow | Percentage | Backlight => None
  }

  predicate ValueValid(command: Command)
  {
    var v := command.value;
    match command.operation
    case Mode => v in {1, 2, 3, 5}
    case Speed => 1 <= v <= 6
    case Ptc => v in {0, 1, 2}
    case Timer => v in {0, 1, 2, 3, 5, 8}
    case ChildLock => v in {0x00, 0x11}
    case Display => v in {0x00, 0x11}
    case FilterOperation => v in {1, 2, 3}
    case Power => v in {0x35, 0x11}
    case Airflow | Percentage | Backlight => false
  }

  function ControlPayload(code: byte, value: byte): bytes
  {
    [0x01, 0xA5, 0xA0, code, value, 0x00, (0xA5 + 0xA0 + code as int + value as int) % 256]
  }

  function EncodeCommand(context: Context, command: Command): Result<bytes>
  {
    if context.identity.wireType != 2 then Err(InvalidCommand)
    else if CommandCode(command.operation) == None then Err(InvalidCommand)
    else if !ValueValid(command) then Err(InvalidCommand)
    else Wrap(context, ControlPayload(CommandCode(command.operation).value, command.value))
  }

  function LockField(value: byte): Option<bool>
  {
    if value == 0x00 then Some(false) else if value == 0x11 then Some(true) else None
  }

  function DisplayField(value: byte): Option<bool>
  {
    if value == 0x00 then Some(true) else if value == 0x11 then Some(false) else None
  }

  function PowerField(value: byte): Option<PowerState>
  {
    if value == 0x00 then Some(On) else if value == 0x11 then Some(Off) else None
  }

  function SafeVolume(base: int, exponent: byte): Option<int>
  {
    match exponent
    case 0 => Some(base)
    case 1 => Some(base * 10)
    case 2 => Some(base * 100)
    case 3 => Some(base * 1000)
    case 4 => Some(base * 10000)
    case _ => None
  }

  function DecodeState(p: bytes): DeviceState
    requires |p| == 33
  {
    EMPTY_STATE.(
      mode := Some(p[3] % 16),
      filterTypeRaw := Some(p[3] / 16),
      speed := if 1 <= p[4] <= 6 then Some(p[4]) else None,
      timerHours := if p[5] in {0, 1, 2, 3, 5, 8} then Some(p[5]) else None,
      airQualityRaw := Some(p[6]),
      childLock := LockField(p[7]),
      displayOn := DisplayField(p[8]),
      power := PowerField(p[9]),
      timerRemainingMinutes := Some(FromBytes(p[10..12])),
      pm25 := Some(FromBytes(p[12..14])),
      processedAirM3 := SafeVolume(FromBytes(p[22..24]), p[21]),
      purifiedAirM3 := SafeVolume(FromBytes(p[25..27]), p[24]),
      processedAirExponent := Some(p[21]),
      processedAirBase := Some(FromBytes(p[22..24])),
      purifiedAirExponent := Some(p[24]),
      purifiedAirBase := Some(FromBytes(p[25..27])),
      linkageRaw := Some(p[27]))
  }

  predicate ControlChecksumValid(payload: bytes)
    requires |payload| == 7
  {
    (payload[1] as int + payload[2] as int + payload[3] as int + payload[4] as int + payload[5] as int) % 256
      == payload[6]
  }

  function Packet(outer: OuterFrame, source: Endpoint, kind: PacketKind, state: Option<DeviceState>): DecodedPacket
  {
    DecodedPacket(outer.identity, outer.sequence, kind, state, source, FamilyA5A0, None, outer.operation)
  }

  /** The state record of a payload: the only one, or the second of a double record. */
  function CurrentRecord(payload: bytes): Option<bytes>
  {
    if !(STATE_PREFIX <= payload) then None
    else if |payload| == 33 then Some(payload)
    else if |payload| == 65 && payload[33..35] == RECORD_PREFIX then Some(payload[..1] + payload[33..])
    else None
  }

  function Decode(datagram: bytes, source: Endpoint): Option<DecodedPacket>
  {
    var parsed := ParseOuterFrame(datagram);
    if parsed == None then None
    else
      var outer := parsed.value;
      if outer.identity.wireType != 2 then None
      else
        var record := CurrentRecord(outer.payload);
        if record.Some? then Some(Packet(outer, source, StateKind, Some(DecodeState(record.value))))
        else if |outer.payload| == 7 && outer.payload[0] == 0x01 && outer.payload[1..3] == CONTROL_PREFIX
                && ControlChecksumValid(outer.payload)
        then Some(Packet(outer, source, AckKind, None))
        else None
  }
}
