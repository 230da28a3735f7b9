/** Codec of the F072 families: X50 on wire type 3, G30/G45 on wire type 4 (protocols/f072.py). */
module F072 {
  import opened Bytes
  import opened Models
  import opened Framing
  import opened Crc16
  import A5A0

  type F072Family = f: Family | f.FamilyX50? || f.FamilyG30? witness FamilyX50

  function WireType(family: F072Family): byte
  {
    if family.FamilyX50? then 3 else 4
  }

  // ---------------------------------------------------------------- requests

  /** The route-free request frame: both frame builders differ only in the last three bytes. */
  function RequestFrame(family: F072Family, sequence: u16, code: byte, hi: byte, lo: byte): bytes
  {
    Seal(PREFIX + [0x00, 0x0D, WireType(family), 0x04, 0x02] + ToBytes2(sequence) + [0x03, code, hi, lo])
  }

  function SingleValueFrame(family: F072Family, sequence: u16, code: byte, value: byte): bytes
  {
    RequestFrame(family, sequence, code, value, 0x00)
  }

  function FlowFrame(family: F072Family, sequence: u16, flow: u16): bytes
  {
    RequestFrame(family, sequence, 0x58, ToBytes2(flow)[0], ToBytes2(flow)[1])
  }

  function EncodeQuery(family: F072Family, context: Context): Result<bytes>
  {
    if context.identity.wireType != WireType(family) then Err(InvalidCommand)
    else Wrap(context, [0x01] + SingleValueFrame(family, context.innerSequence, 0x11, 0x11))
  }

  function CommandCode(family: F072Family, operation: Operation): Option<byte>
  {
    match operation
    case Mode => Some(0x51)
    case Speed => if family.FamilyX50? then Some(0x52) else None
    case Ptc => Some(0x53)
    case Timer => Some(0x54)
    case ChildLock => Some(0x55)
    case Display => Some(0x56)
    case Power => Some(0x5E)
    case FilterOperation | Airflow | Percentage | Backlight => None
  }

  predicate ValueValid(family: F072Family, command: Command)
  {
    var v := command.value;
    match command.operation
    case Mode => if family.FamilyX50? then v in {1, 2, 3, 5} else v in {1, 5}
    case Speed => 0 <= v <= 5
    case Ptc => v in {0, 1, 2}
    case Timer => v in {0, 1, 2, 3, 5, 8}
    case ChildLock => v in {0x00, 0x11}
    case Display => v in {0x00, 0x11}
    case Power => v in {0x00, 0x11}
    case FilterOperation | Airflow | Percentage | Backlight => false
  }

  function MaximumFlow(model: Option<DeviceModel>): int
  {
    if model == Some(DeviceModel.G45) then 450 else 300
  }

  /** The codec's own model stands in when the context names none. */
  function EffectiveModel(context: Context, model: Option<DeviceModel>): Option<DeviceModel>
  {
    if context.model.Some? then context.model else model
  }

  predicate FlowValid(flow: int, model: Option<DeviceModel>)
  {
    40 <= flow <= MaximumFlow(model) && flow % 5 == 0
  }

  /** flow_for_percentage on its accepted range. */
  function FlowForPercentage(percentage: int, model: Option<DeviceModel>): (flow: int)
    requires 1 <= percentage <= 100
    ensures FlowValid(flow, model)
  {
    var span := MaximumFlow(model) - 40;
    40 + (2 * (percentage - 1) * span + 99 * 5) / (2 * 99 * 5) * 5
  }

  function EncodeCommand(family: F072Family, model: Option<DeviceModel>, context: Context, command: Command): Result<bytes>
  {
    var v := command.value;
    var effective := EffectiveModel(context, model);
    if context.identity.wireType != WireType(family) then Err(InvalidCommand)
    else if command.operation.Percentage? then
      if !family.FamilyG30? || v > 100 then Err(InvalidCommand)
      else if v == 0 then Wrap(context, [0x01] + SingleValueFrame(family, context.innerSequence, 0x5E, 0x11))
      else Wrap(context, [0x01] + FlowFrame(family, context.innerSequence, FlowForPercentage(v, effective)))
    else if command.operation.Airflow? then
      if !family.FamilyG30? || !FlowValid(v, effective) then Err(InvalidCommand)
      else Wrap(context, [0x01] + FlowFrame(family, context.innerSequence, v))
    else if CommandCode(family, command.operation) == None then Err(InvalidCommand)
    else if !ValueValid(family, command) then Err(InvalidCommand)
    else
      Wrap(context, [0x01]
        + SingleValueFrame(family, context.innerSequence, CommandCode(family, command.operation).value, v))
  }

  // ---------------------------------------------------------------- responses

  function LockField(value: byte): Option<bool>
  {
    if value == 0x00 then Some(true) else if value == 0x11 then Some(false) else None
  }

  function OnOffField(value: byte): Option<bool>
  {
    if value == 0x00 then Some(true) else if value == 0x11 then Some(false) else None
  }

  function PowerField(value: byte): Option<PowerState>
  {
    if value == 0x00 then Some(On) else if value == 0x11 then Some(Off) else None
  }

  /** The fields that both state layouts keep at the same offsets. */
  function CommonState(d: bytes): DeviceState
    requires |d| >= 29
  {
    EMPTY_STATE.(
      mode := Some(d[3] % 16),
      timerHours := if d[5] in {0, 1, 2, 3, 5, 8} then Some(d[5]) else None,
      airQualityRaw := Some(d[6]),
      childLock := LockField(d[7]),
      displayOn := OnOffField(d[8]),
      power := PowerField(d[9]),
      timerRemainingMinutes := Some(FromBytes(d[10..12])),
      pm25 := Some(FromBytes(d[12..14])),
      processedAirM3 := A5A0.SafeVolume(FromBytes(d[22..24]), d[21]),
      purifiedAirM3 := A5A0.SafeVolume(FromBytes(d[25..27]), d[24]),
      processedAirExponent := Some(d[21]),
      processedAirBase := Some(FromBytes(d[22..24])),
      purifiedAirExponent := Some(d[24]),
      purifiedAirBase := Some(FromBytes(d[25..27])))
  }

  function DecodeX50State(d: bytes): DeviceState
    requires |d| >= 30
  {
    CommonState(d).(
      filterTypeRaw := Some(d[3] / 16),
      speed := if 1 <= d[4] <= 6 then Some(d[4]) else None,
      linkageRaw := Some(d[29]))
  }

  function DecodeG30State(d: bytes, model: Option<DeviceModel>): DeviceState
    requires |d| >= 29
  {
    var flow := FromBytes(d[27..29]);
    CommonState(d).(
      filterTypeRaw := Some(if d[3] / 16 != 0 then 1 else 0),
      temperature := Some(d[14]),
      humidity := Some(d[15]),
      co2 := Some(FromBytes(d[16..18])),
      ptc := if d[18] in {0, 1, 2} then Some(d[18]) else None,
      airflowM3h := if FlowValid(flow, model) then Some(flow) else None)
  }

  /** What the frame check, marker and type of a response leave: its data area. */
  function ResponseData(payload: bytes): Option<bytes>
  {
    if |payload| < 14 || payload[0] !in {0x01, 0x02} then None
    else
      var frame := payload[1..];
      if frame[..2] != PREFIX || !ResponseCrcValid(frame) then None
      else if frame[5] !in {0x84, 0x03} || frame[6] != 0x02 then None
      else Some(frame[7..|frame| - 2])
  }

  function Packet(
    family: F072Family, outer: OuterFrame, source: Endpoint, kind: PacketKind, state: Option<DeviceState>
  ): DecodedPacket
  {
    DecodedPacket(outer.identity, outer.sequence, kind, state, source, family, None, outer.operation)
  }

  function Decode(family: F072Family, model: Option<DeviceModel>, datagram: bytes, source: Endpoint): Option<DecodedPacket>
  {
    var parsed := ParseOuterFrame(datagram);
    if parsed == None then None
    else
      var outer := parsed.value;
      if outer.identity.wireType != WireType(family) then None
      else
        var area := ResponseData(outer.payload);
        if area == None then None
        else
          var d := area.value;
          if family.FamilyG30? && |d| >= 29 then
            Some(Packet(family, outer, source, StateKind, Some(DecodeG30State(d, model))))
          else if family.FamilyX50? && |d| >= 30 then
            Some(Packet(family, outer, source, StateKind, Some(DecodeX50State(d))))
          else if |d| == 4 then Some(Packet(family, outer, source, AckKind, None))
          else None
  }
}
