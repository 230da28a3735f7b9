/** The codec that codec_for_model selects, and what every codec guarantees to the transport. */
module Codecs {
  import opened Bytes
  import opened Models
  import opened Framing
  import opened Crc16
  import A5A0
  import M25
  import F072

  function EncodeQuery(model: DeviceModel, context: Context): Result<bytes>
  {
    match FamilyForModel(model)
    case FamilyM25 => M25.EncodeQuery(context)
    case FamilyA5A0 => A5A0.EncodeQuery(context)
    case FamilyX50 => F072.EncodeQuery(FamilyX50, context)
    case FamilyG30 => F072.EncodeQuery(FamilyG30, context)
  }

  function EncodeCommand(model: DeviceModel, context: Context, command: Command): Result<bytes>
  {
    match FamilyForModel(model)
    case FamilyM25 => M25.EncodeCommand(context, command)
    case FamilyA5A0 => A5A0.EncodeCommand(context, command)
    case FamilyX50 => F072.EncodeCommand(FamilyX50, Some(model), context, command)
    case FamilyG30 => F072.EncodeCommand(FamilyG30, Some(model), context, command)
  }

  function Decode(model: DeviceModel, datagram: bytes, source: Endpoint): Option<DecodedPacket>
  {
    match FamilyForModel(model)
    case FamilyM25 => M25.Decode(datagram, source)
    case FamilyA5A0 => A5A0.Decode(datagram, source)
    case FamilyX50 => F072.Decode(FamilyX50, Some(model), datagram, source)
    case FamilyG30 => F072.Decode(FamilyG30, Some(model), datagram, source)
  }

  // ---------------------------------------------------------------- confirmation

  /** _state_confirms_command. */
  predicate StateConfirms(model: DeviceModel, state: DeviceState, command: Command)
  {
    var family := FamilyForModel(model);
    var v := command.value;
    match command.operation
    case Mode => state.mode == Some(v)
    case Speed => state.speed == Some(v)
    case Ptc => state.ptc.None? || state.ptc == Some(v)
    case Timer => state.timerHours == Some(v)
    case ChildLock => state.childLock == Some(v == (if family.FamilyA5A0? then 0x11 else 0x00))
    case Display => state.displayOn == Some(v == 0x00)
    case Power => state.power == Some(if v == (if family.FamilyA5A0? then 0x35 else 0x00) then On else Off)
    case Airflow => state.airflowM3h == Some(v)
    case Percentage =>
      if v == 0 then state.power == Some(Off)
      else family.FamilyG30? && v <= 100 && state.airflowM3h == Some(F072.FlowForPercentage(v, Some(model)))
    case Backlight => state.backlight == Some(v)
    case FilterOperation => true
  }

  /** The kind of packet that may confirm a command: only the M25 codec has a backlight query. */
  function ExpectedKind(model: DeviceModel, command: Command): PacketKind
  {
    if command.operation.Backlight? && FamilyForModel(model).FamilyM25? then BacklightKind else StateKind
  }

  /** What a packet from a codec is worth: its family is the codec's, ACKs carry no state. */
  lemma DecodedPackets(model: DeviceModel, datagram: bytes, source: Endpoint)
    requires Decode(model, datagram, source).Some?
    ensures var p := Decode(model, datagram, source).value;
      && p.family == FamilyForModel(model)
      && p.source == source
      && (p.state.Some? <==> p.kind.StateKind? || p.kind.BacklightKind?)
      && (p.kind.BacklightKind? ==> p.family.FamilyM25? && p.state.value.backlight.Some?)
      && (exists f :: ParseOuterFrame(datagram) == Some(f) && p.identity == f.identity
                   && p.sequence == f.sequence && p.outerOperation == f.operation)
  {
    hide ParseOuterFrame, F072.ResponseData;
  }

  /** A command that was sent is one that its family documents. */
  lemma EncodedCommands(model: DeviceModel, context: Context, command: Command)
    requires EncodeCommand(model, context, command).Ok?
    ensures FamilyForModel(model).FamilyM25? <==> command.operation.Backlight?
    ensures command.operation.Percentage? ==> FamilyForModel(model).FamilyG30? && command.value <= 100
  {
    hide Wrap, F072.RequestFrame;
  }

  /** What a codec refuses it refuses with InvalidCommandError. */
  lemma RefusalsAreInvalid(model: DeviceModel, context: Context, command: Command)
    ensures EncodeCommand(model, context, command).Err? ==> EncodeCommand(model, context, command) == Err(InvalidCommand)
    ensures EncodeQuery(model, context).Err? ==> EncodeQuery(model, context) == Err(InvalidCommand)
    ensures M25.EncodeBacklightQuery(context).Err? ==>
      M25.EncodeBacklightQuery(context) == Err(InvalidCommand) && context.identity.wireType != 1
    ensures FamilyForModel(model).FamilyM25? && context.identity.wireType != 1 ==> EncodeQuery(model, context).Err?
  {
    hide Crc, ToBytes2;
  }

  // ---------------------------------------------------------------- requests on the wire

  /** The command byte and its two parameter bytes in an F072 request. */
  function F072Parameters(model: DeviceModel, command: Command): (byte, u16)
    requires FamilyForModel(model).FamilyX50? || FamilyForModel(model).FamilyG30?
    requires command.value <= 0xFF || command.operation.Airflow?
    requires command.operation.Percentage? ==> command.value <= 100
  {
    match command.operation
    case Airflow => (0x58, command.value)
    case Percentage =>
      if command.value == 0 then (0x5E, 0x11 * 256)
      else (0x58, F072.FlowForPercentage(command.value, Some(model)))
    case _ =>
      var code := F072.CommandCode(FamilyForModel(model), command.operation);
      (if code.Some? then code.value else 0, command.value * 256)
  }

  /** The reading of a request frame: sequence, command byte and two-byte parameter. */
  predicate ReadsAs(frame: bytes, wireType: byte, sequence: u16, code: byte, parameter: u16)
  {
    && |frame| == 15
    && RequestCrcValid(frame)
    && frame[4] == wireType && frame[9] == 0x03 && frame[10] == code
    && FromBytes(frame[7..9]) == sequence
    && FromBytes(frame[11..13]) == parameter
  }

  lemma RequestFrameReadsBack(family: F072.F072Family, sequence: u16, code: byte, hi: byte, lo: byte)
    ensures ReadsAs(F072.RequestFrame(family, sequence, code, hi, lo),
                    F072.WireType(family), sequence, code, 256 * (hi as int) + lo)
  {
    hide Crc;
    var body := PREFIX + [0x00, 0x0D, F072.WireType(family), 0x04, 0x02] + ToBytes2(sequence)
                + [0x03, code, hi, lo];
    assert body[..2] == PREFIX;
    assert body[2..4] == [0x00, 0x0D];
    FromBytes2([0x00, 0x0D]);
    SealedFramePasses(body);
    var frame := Seal(body);
    assert frame[7..9] == ToBytes2(sequence);
    assert frame[11..13] == [hi, lo];
    ToBytes2RoundTrip(sequence);
    FromBytes2([hi, lo]);
  }

  lemma Be16(n: u16)
    ensures 256 * (ToBytes2(n)[0] as int) + ToBytes2(n)[1] == n
  {}

  /**
   * Every F072 command that the codec encodes is read back from the datagram with its outer
   * and inner sequences, its command byte and its value, under a valid request checksum.
   */
  lemma F072CommandReadsBack(model: DeviceModel, context: Context, command: Command)
    requires FamilyForModel(model).FamilyX50? || FamilyForModel(model).FamilyG30?
    requires context.model == Some(model)
    requires EncodeCommand(model, context, command).Ok?
    ensures command.value <= 0xFF || command.operation.Airflow?
    ensures command.operation.Percentage? ==> command.value <= 100
    ensures var (code, parameter) := F072Parameters(model, command);
      exists f :: ParseOuterFrame(EncodeCommand(model, context, command).value) == Some(f)
        && f.identity == context.identity && f.operation == context.outerOperation
        && f.sequence == context.outerSequence
        && |f.payload| == 16 && f.payload[0] == 0x01
        && ReadsAs(f.payload[1..], f.identity.wireType, context.innerSequence, code, parameter)
  {
    hide BuildOuterFrame, ParseOuterFrame, F072.RequestFrame;
    var family: F072.F072Family := FamilyForModel(model);
    var s := context.innerSequence;
    var (code, parameter) := F072Parameters(model, command);
    var bytes2 := ToBytes2(parameter);
    Be16(parameter);
    var inner := F072.RequestFrame(family, s, code, bytes2[0], bytes2[1]);
    assert EncodeCommand(model, context, command) == Wrap(context, [0x01] + inner);
    RequestFrameReadsBack(family, s, code, bytes2[0], bytes2[1]);
    ParseOfBuild(context.identity, context.outerOperation, context.outerSequence, [0x01] + inner);
    assert ([0x01] + inner)[1..] == inner;
  }

  /**
   * On the A5A0 family the codec takes exactly its own control layout for an acknowledgement:
   * every command it encodes, sent back unchanged, is decoded to an ACK with the command's
   * identity and sequence; the query, whose last byte is no checksum, is decoded to nothing.
   */
  lemma A5A0CommandIsItsAck(model: DeviceModel, context: Context, command: Command, source: Endpoint)
    requires FamilyForModel(model).FamilyA5A0?
    ensures EncodeCommand(model, context, command).Ok? ==>
      Decode(model, EncodeCommand(model, context, command).value, source)
        == Some(DecodedPacket(context.identity, context.outerSequence, AckKind, None, source, FamilyA5A0, None,
                              context.outerOperation))
    ensures EncodeQuery(model, context).Ok? ==> Decode(model, EncodeQuery(model, context).value, source) == None
  {
    hide BuildOuterFrame, ParseOuterFrame;
    if EncodeCommand(model, context, command).Ok? {
      var payload := A5A0.ControlPayload(A5A0.CommandCode(command.operation).value, command.value);
      ParseOfBuild(context.identity, context.outerOperation, context.outerSequence, payload);
      assert payload[1..3] == A5A0.CONTROL_PREFIX;
    }
    if EncodeQuery(model, context).Ok? {
      ParseOfBuild(context.identity, context.outerOperation, context.outerSequence, A5A0.QUERY);
    }
  }

  // ---------------------------------------------------------------- echoes

  ghost predicate NoState(packet: Option<DecodedPacket>)
  {
    packet.Some? ==> packet.value.state.None?
  }

  lemma EchoedPayload(model: DeviceModel, context: Context, payload: bytes, source: Endpoint)
    requires Wrap(context, payload).Ok?
    requires !A5A0.CurrentRecord(payload).Some?
    requires |payload| >= 2 && payload[1] != 0xF5
    requires F072.ResponseData(payload).None?
    ensures NoState(Decode(model, Wrap(context, payload).value, source))
  {
    hide BuildOuterFrame, ParseOuterFrame, F072.ResponseData, A5A0.CurrentRecord;
    ParseOfBuild(context.identity, context.outerOperation, context.outerSequence, payload);
  }

  lemma F072RequestIsNoResponse(family: F072.F072Family, sequence: u16, code: byte, hi: byte, lo: byte)
    ensures var p := [0x01] + F072.RequestFrame(family, sequence, code, hi, lo);
      F072.ResponseData(p).None? && !A5A0.CurrentRecord(p).Some? && |p| == 16 && p[1] == 0xF0
  {
    hide Crc;
    var frame := F072.RequestFrame(family, sequence, code, hi, lo);
    var p := [0x01] + frame;
    assert p[1..] == frame;
    assert frame[5] == 0x04;
    assert p[0] != A5A0.STATE_PREFIX[0];
  }

  /** No query or command that any codec sends is taken for a device state when it is echoed back. */
  lemma {:induction false} EchoIsNoState(
    model: DeviceModel, receiver: DeviceModel, context: Context, command: Command, source: Endpoint)
    ensures EncodeQuery(model, context).Ok? ==>
      NoState(Decode(receiver, EncodeQuery(model, context).value, source))
    ensures EncodeCommand(model, context, command).Ok? ==>
      NoState(Decode(receiver, EncodeCommand(model, context, command).value, source))
    ensures M25.EncodeBacklightQuery(context).Ok? ==>
      NoState(Decode(receiver, M25.EncodeBacklightQuery(context).value, source))
  {
    EchoedQuery(model, receiver, context, source);
    EchoedCommand(model, receiver, context, command, source);
    if M25.EncodeBacklightQuery(context).Ok? {
      assert M25.BACKLIGHT_QUERY[0] == 0x03;
      EchoedPayload(receiver, context, M25.BACKLIGHT_QUERY, source);
    }
  }

  lemma {:induction false} EchoedQuery(model: DeviceModel, receiver: DeviceModel, context: Context, source: Endpoint)
    ensures EncodeQuery(model, context).Ok? ==>
      NoState(Decode(receiver, EncodeQuery(model, context).value, source))
  {
    hide BuildOuterFrame, Decode, F072.RequestFrame, F072.ResponseData;
    if EncodeQuery(model, context).Ok? {
      match FamilyForModel(model)
      case FamilyM25 =>
        ShortPayloadIsNoResponse(M25.QUERY);
        assert M25.QUERY[0] == 0x03;
        EchoedPayload(receiver, context, M25.QUERY, source);
      case FamilyA5A0 =>
        ShortPayloadIsNoResponse(A5A0.QUERY);
        assert A5A0.QUERY[0] == 0x01;
        EchoedPayload(receiver, context, A5A0.QUERY, source);
      case FamilyX50 =>
        F072RequestIsNoResponse(FamilyX50, context.innerSequence, 0x11, 0x11, 0x00);
        EchoedPayload(receiver, context, [0x01] + F072.SingleValueFrame(FamilyX50, context.innerSequence, 0x11, 0x11), source);
      case FamilyG30 =>
        F072RequestIsNoResponse(FamilyG30, context.innerSequence, 0x11, 0x11, 0x00);
        EchoedPayload(receiver, context, [0x01] + F072.SingleValueFrame(FamilyG30, context.innerSequence, 0x11, 0x11), source);
    }
  }

  lemma ShortPayloadIsNoResponse(p: bytes)
    requires |p| < 14
    ensures F072.ResponseData(p).None?
  {}

  lemma {:induction false} EchoedCommand(
    model: DeviceModel, receiver: DeviceModel, context: Context, command: Command, source: Endpoint)
    ensures EncodeCommand(model, context, command).Ok? ==>
      NoState(Decode(receiver, EncodeCommand(model, context, command).value, source))
  {
    hide BuildOuterFrame, Decode, F072.RequestFrame, F072.ResponseData, F072.FlowForPercentage;
    if EncodeCommand(model, context, command).Ok? {
      match FamilyForModel(model)
      case FamilyM25 =>
        var p := [0x03, 0xFA, 0xA3, 0x03, 0x01, command.value, if command.value == 0 then 0xA1 else 0xA2];
        ShortPayloadIsNoResponse(p);
        assert p[0] == 0x03;
        EchoedPayload(receiver, context, p, source);
      case FamilyA5A0 =>
        var p := A5A0.ControlPayload(A5A0.CommandCode(command.operation).value, command.value);
        ShortPayloadIsNoResponse(p);
        assert p[0] == 0x01;
        EchoedPayload(receiver, context, p, source);
      case FamilyX50 =>
        EchoedF072Command(FamilyX50, model, receiver, context, command, source);
      case FamilyG30 =>
        EchoedF072Command(FamilyG30, model, receiver, context, command, source);
    }
  }

  lemma {:induction false} EchoedF072Command(
    family: F072.F072Family, model: DeviceModel, receiver: DeviceModel, context: Context, command: Command,
    source: Endpoint)
    requires F072.EncodeCommand(family, Some(model), context, command).Ok?
    ensures NoState(Decode(receiver, F072.EncodeCommand(family, Some(model), context, command).value, source))
  {
    hide BuildOuterFrame, Decode, F072.RequestFrame, F072.ResponseData, F072.FlowForPercentage;
    var s := context.innerSequence;
    var code, hi, lo: byte;
    if command.operation.Percentage? && command.value == 0 {
      code, hi, lo := 0x5E, 0x11, 0x00;
    } else if command.operation.Percentage? {
      var flow: u16 := F072.FlowForPercentage(command.value, F072.EffectiveModel(context, Some(model)));
      code, hi, lo := 0x58, ToBytes2(flow)[0], ToBytes2(flow)[1];
    } else if command.operation.Airflow? {
      code, hi, lo := 0x58, ToBytes2(command.value)[0], ToBytes2(command.value)[1];
    } else {
      code, hi, lo := F072.CommandCode(family, command.operation).value, command.value, 0x00;
    }
    F072RequestIsNoResponse(family, s, code, hi, lo);
    EchoedPayload(receiver, context, [0x01] + F072.RequestFrame(family, s, code, hi, lo), source);
  }
}
