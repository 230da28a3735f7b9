/**
 * Which of the commands that can be sent can also be confirmed.  The client reports success
 * only after a decoded state shows the commanded value, so a value that can be encoded but
 * never decoded makes every such command time out.
 */
module Confirmability {
  import opened Bytes
  import opened Models
  import opened Framing
  import opened Crc16
  import opened Codecs
  import A5A0
  import M25
  import F072

  /** Some datagram from the commanded device would confirm the command. */
  ghost predicate Confirmable(model: DeviceModel, mac: Mac, source: Endpoint, command: Command)
  {
    exists d: bytes :: ConfirmingDatagram(model, mac, source, command, d)
  }

  predicate ConfirmingDatagram(model: DeviceModel, mac: Mac, source: Endpoint, command: Command, d: bytes)
  {
    var packet := Decode(model, d, source);
    packet.Some? && packet.value.identity.mac == mac && packet.value.kind == ExpectedKind(model, command)
    && packet.value.state.Some? && StateConfirms(model, packet.value.state.value, command)
  }

  const ZEROS: bytes :=
    [0, 0, 0, 0, 0, 0, 0, 0, 0, 0, 0, 0, 0, 0, 0, 0, 0, 0, 0, 0, 0, 0, 0, 0, 0, 0, 0, 0, 0, 0]

  /** A device's broadcast of a payload. */
  function Broadcast(identity: Identity, payload: bytes): bytes
    requires |payload| <= MAX_PAYLOAD
  {
    BuildOuterFrame(identity, 0x04, 0, payload).value
  }

  lemma BroadcastParses(identity: Identity, payload: bytes)
    requires |payload| <= MAX_PAYLOAD
    ensures ParseOuterFrame(Broadcast(identity, payload)) == Some(OuterFrame(identity, 0x04, 0, payload))
  {
    hide BuildOuterFrame, ParseOuterFrame;
    ParseOfBuild(identity, 0x04, 0, payload);
  }

  /** Every data area of a state can be put on the wire by a device of the family. */
  function F072Response(family: F072.F072Family, data: bytes): bytes
  {
    [0x01] + Seal(PREFIX + [0x00, 0x00, F072.WireType(family), 0x84, 0x02] + data)
  }

  lemma F072ResponseDecodes(family: F072.F072Family, data: bytes)
    requires |data| >= 4
    ensures F072.ResponseData(F072Response(family, data)) == Some(data)
  {
    hide Crc;
    var head := PREFIX + [0x00, 0x00, F072.WireType(family), 0x84, 0x02];
    assert (head + data)[..2] == PREFIX;
    SealedFramePasses(head + data);
    var payload := F072Response(family, data);
    var frame := payload[1..];
    assert frame == Seal(head + data);
    assert frame[7..|frame| - 2] == data;
  }

  /** The X50 data area that shows a commanded value. */
  function X50Data(command: Command): bytes
    requires command.value < 0x100
  {
    var v: byte := command.value;
    match command.operation
    case Mode => ZEROS[3 := v]
    case Speed => ZEROS[4 := v]
    case Timer => ZEROS[5 := v]
    case ChildLock => ZEROS[7 := v]
    case Display => ZEROS[8 := v]
    case Power => ZEROS[9 := v]
    case _ => ZEROS
  }

  function G30Data(command: Command, flow: u16): bytes
    requires command.value < 0x100 || command.operation.Airflow?
  {
    match command.operation
    case Mode => ZEROS[3 := command.value]
    case Timer => ZEROS[5 := command.value]
    case ChildLock => ZEROS[7 := command.value]
    case Display => ZEROS[8 := command.value]
    case Power => ZEROS[9 := command.value]
    case Ptc => ZEROS[18 := command.value]
    case Percentage => ZEROS[9 := 0x11][27 := flow / 256][28 := flow % 256]
    case Airflow => ZEROS[27 := flow / 256][28 := flow % 256]
    case _ => ZEROS
  }

  function A5A0Record(command: Command): bytes
    requires command.value < 0x100
  {
    var v: byte := command.value;
    var zeros := [0x02, 0x5A, 0xA1] + ZEROS;
    match command.operation
    case Mode => zeros[3 := v]
    case Speed => zeros[4 := v]
    case Timer => zeros[5 := v]
    case ChildLock => zeros[7 := v]
    case Display => zeros[8 := v]
    case Power => zeros[9 := if v == 0x35 then 0x00 else 0x11]
    case _ => zeros
  }

  function F072State(model: DeviceModel, data: bytes): DeviceState
    requires |data| >= 30
  {
    if FamilyForModel(model).FamilyX50? then F072.DecodeX50State(data) else F072.DecodeG30State(data, Some(model))
  }

  /** A broadcast of a data area confirms every command that its state confirms. */
  lemma F072DatagramConfirms(model: DeviceModel, identity: Identity, source: Endpoint, data: bytes, command: Command)
    requires |data| == 30 && !FamilyForModel(model).FamilyM25? && !FamilyForModel(model).FamilyA5A0?
    requires identity.wireType == F072.WireType(FamilyForModel(model))
    requires StateConfirms(model, F072State(model, data), command)
    ensures |F072Response(FamilyForModel(model), data)| <= MAX_PAYLOAD
    ensures ConfirmingDatagram(
      model, identity.mac, source, command, Broadcast(identity, F072Response(FamilyForModel(model), data)))
  {
    hide BuildOuterFrame, ParseOuterFrame, F072.ResponseData, FromBytes, Seal, StateConfirms;
    hide F072.DecodeX50State, F072.DecodeG30State;
    F072ResponseDecodes(FamilyForModel(model), data);
    PayloadSize(FamilyForModel(model), data);
    BroadcastParses(identity, F072Response(FamilyForModel(model), data));
  }

  lemma PayloadSize(family: F072.F072Family, data: bytes)
    ensures |F072Response(family, data)| == |data| + 10
  {}

  lemma X50Confirmable(model: DeviceModel, context: Context, source: Endpoint, command: Command)
    requires FamilyForModel(model).FamilyX50?
    requires EncodeCommand(model, context, command).Ok?
    requires command != Command(Speed, 0)
    ensures Confirmable(model, context.identity.mac, source, command)
  {
    hide BuildOuterFrame, FromBytes, F072.RequestFrame, Broadcast, ConfirmingDatagram;
    F072DatagramConfirms(model, context.identity, source, X50Data(command), command);
  }

  /** The airflow that a G30 command asks for. */
  function FlowOf(model: DeviceModel, command: Command): u16
    requires command.operation.Percentage? ==> command.value <= 100
  {
    if command.operation.Airflow? then command.value
    else if command.operation.Percentage? && command.value != 0 then F072.FlowForPercentage(command.value, Some(model))
    else 0
  }

  lemma G30StateConfirms(model: DeviceModel, context: Context, command: Command)
    requires FamilyForModel(model).FamilyG30? && context.model == Some(model)
    requires EncodeCommand(model, context, command).Ok?
    ensures command.operation.Percentage? ==> command.value <= 100
    ensures command.value < 0x100 || command.operation.Airflow?
    ensures context.identity.wireType == 4
    ensures StateConfirms(model, F072.DecodeG30State(G30Data(command, FlowOf(model, command)), Some(model)), command)
  {
    hide Wrap, FromBytes, F072.RequestFrame, F072.FlowForPercentage;
    var flow := FlowOf(model, command);
    if command.operation.Airflow? || command.operation.Percentage? {
      assert G30Data(command, flow)[27..29] == ToBytes2(flow);
      ToBytes2RoundTrip(flow);
    }
  }

  lemma G30Confirmable(model: DeviceModel, context: Context, source: Endpoint, command: Command)
    requires FamilyForModel(model).FamilyG30? && context.model == Some(model)
    requires EncodeCommand(model, context, command).Ok?
    ensures Confirmable(model, context.identity.mac, source, command)
  {
    hide EncodeCommand, F072.DecodeG30State, StateConfirms, Broadcast, ConfirmingDatagram, FlowOf;
    G30StateConfirms(model, context, command);
    F072DatagramConfirms(model, context.identity, source, G30Data(command, FlowOf(model, command)), command);
  }

  lemma A5A0StateConfirms(model: DeviceModel, command: Command)
    requires FamilyForModel(model).FamilyA5A0? && A5A0.ValueValid(command)
    ensures StateConfirms(model, A5A0.DecodeState(A5A0Record(command)), command)
  {
    hide FromBytes, A5A0.SafeVolume;
  }

  lemma A5A0Confirmable(model: DeviceModel, context: Context, source: Endpoint, command: Command)
    requires FamilyForModel(model).FamilyA5A0?
    requires EncodeCommand(model, context, command).Ok?
    ensures command.value < 0x100 && |A5A0Record(command)| <= MAX_PAYLOAD
    ensures ConfirmingDatagram(
      model, context.identity.mac, source, command, Broadcast(context.identity, A5A0Record(command)))
    ensures Confirmable(model, context.identity.mac, source, command)
  {
    hide BuildOuterFrame, ParseOuterFrame, A5A0.DecodeState, A5A0Record, StateConfirms;
    A5A0StateConfirms(model, command);
    var record := A5A0Record(command);
    RecordIsCurrent(command);
    BroadcastParses(context.identity, record);
    assert ConfirmingDatagram(model, context.identity.mac, source, command, Broadcast(context.identity, record));
  }

  lemma RecordIsCurrent(command: Command)
    requires command.value < 0x100
    ensures |A5A0Record(command)| == 33 && A5A0.CurrentRecord(A5A0Record(command)) == Some(A5A0Record(command))
  {}

  lemma M25Confirmable(model: DeviceModel, context: Context, source: Endpoint, command: Command)
    requires FamilyForModel(model).FamilyM25?
    requires EncodeCommand(model, context, command).Ok?
    ensures Confirmable(model, context.identity.mac, source, command)
  {
    hide BuildOuterFrame, ParseOuterFrame;
    var payload: bytes := [0x03, 0xF5, 0xA3, 0x03, 0x01, command.value, 0x00];
    BroadcastParses(context.identity, payload);
    assert payload[3..5] == [0x03, 0x01];
    assert ConfirmingDatagram(model, context.identity.mac, source, command, Broadcast(context.identity, payload));
  }

  /** No decoded X50 state ever shows speed zero. */
  lemma NoStateShowsSpeedZero(model: DeviceModel, d: bytes, source: Endpoint)
    requires FamilyForModel(model).FamilyX50?
    requires Decode(model, d, source).Some? && Decode(model, d, source).value.state.Some?
    ensures Decode(model, d, source).value.state.value.speed != Some(0)
  {
    hide ParseOuterFrame, F072.ResponseData;
  }

  /** Speed zero is a command that the X50 codec encodes. */
  lemma SpeedZeroIsSent(model: DeviceModel, context: Context)
    requires FamilyForModel(model).FamilyX50? && context.identity.wireType == 3
    ensures EncodeCommand(model, context, Command(Speed, 0)).Ok?
  {
    hide F072.RequestFrame;
    assert |F072.RequestFrame(FamilyX50, context.innerSequence, 0x52, 0, 0)| == 15 by {
      RequestFrameReadsBack(FamilyX50, context.innerSequence, 0x52, 0, 0);
    }
  }

  /**
   * A command that can be sent can be confirmed by some datagram of the device, except for
   * exactly one: speed zero on the X50 family.
   */
  lemma ConfirmableUnlessSpeedZero(model: DeviceModel, context: Context, source: Endpoint, command: Command)
    requires context.model == Some(model)
    requires EncodeCommand(model, context, command).Ok?
    ensures Confirmable(model, context.identity.mac, source, command)
       <==> !(FamilyForModel(model).FamilyX50? && command == Command(Speed, 0))
  {
    hide Decode, EncodeCommand;
    match FamilyForModel(model)
    case FamilyM25 => M25Confirmable(model, context, source, command);
    case FamilyA5A0 => A5A0Confirmable(model, context, source, command);
    case FamilyG30 => G30Confirmable(model, context, source, command);
    case FamilyX50 =>
      if command != Command(Speed, 0) {
        X50Confirmable(model, context, source, command);
      } else {
        forall d | ConfirmingDatagram(model, context.identity.mac, source, command, d)
          ensures false
        {
          NoStateShowsSpeedZero(model, d, source);
        }
      }
  }

  // ---------------------------------------------------------------- what a confirmation tells

  /** A decoded state that proves nothing about the commanded value. */
  predicate Uninformative(state: DeviceState, operation: Operation)
  {
    operation.FilterOperation? || (operation.Ptc? && state.ptc.None?)
  }

  /** Commands without a decoded field are confirmed by any state: on A5A0 and X50 that is every PTC command. */
  lemma AnyStateConfirms(model: DeviceModel, d: bytes, source: Endpoint, command: Command)
    requires Decode(model, d, source).Some? && Decode(model, d, source).value.state.Some?
    requires command.operation.FilterOperation?
          || (command.operation.Ptc? && !FamilyForModel(model).FamilyG30?)
    ensures Uninformative(Decode(model, d, source).value.state.value, command.operation)
    ensures StateConfirms(model, Decode(model, d, source).value.state.value, command)
  {
    hide ParseOuterFrame, F072.ResponseData;
  }

  /**
   * Any other state confirms at most one of the values that can be sent for an operation;
   * only the percentages of one airflow, and zero beside any of them, share a state.
   */
  lemma OneValuePerState(model: DeviceModel, context: Context, state: DeviceState, operation: Operation, v: u16, w: u16)
    requires EncodeCommand(model, context, Command(operation, v)).Ok? && EncodeCommand(model, context, Command(operation, w)).Ok?
    requires StateConfirms(model, state, Command(operation, v)) && StateConfirms(model, state, Command(operation, w))
    requires !Uninformative(state, operation)
    ensures v == w
         || (operation.Percentage? && 1 <= v <= 100 && 1 <= w <= 100
             && F072.FlowForPercentage(v, Some(model)) == F072.FlowForPercentage(w, Some(model)))
         || (operation.Percentage? && (v == 0 || w == 0) && state.power == Some(Off))
  {
    hide Wrap, F072.RequestFrame, F072.FlowForPercentage;
  }

  /** One datagram of the device confirms either value. */
  ghost predicate ShareConfirmation(
    model: DeviceModel, mac: Mac, source: Endpoint, operation: Operation, v: u16, w: u16)
  {
    exists d: bytes ::
      ConfirmingDatagram(model, mac, source, Command(operation, v), d)
      && ConfirmingDatagram(model, mac, source, Command(operation, w), d)
  }

  /** Filter operations, PTC settings, percentage zero, and percentages of one airflow. */
  predicate Shared(model: DeviceModel, operation: Operation, v: u16, w: u16)
  {
    operation.FilterOperation? || operation.Ptc?
    || (operation.Percentage? && v <= 100 && w <= 100
        && (v == 0 || w == 0
            || F072.FlowForPercentage(v, Some(model)) == F072.FlowForPercentage(w, Some(model))))
  }

  /** No field of the G30 shows a PTC byte that is none of the three settings, so it confirms them all. */
  lemma G30SharedPtc(model: DeviceModel, value: u16)
    requires FamilyForModel(model).FamilyG30?
    ensures StateConfirms(model, F072.DecodeG30State(ZEROS[18 := 7], Some(model)), Command(Ptc, value))
  {
    hide FromBytes;
  }

  /** A device that is switched off and reports the airflow of a percentage shows that percentage, and zero. */
  lemma G30SharedPercentage(model: DeviceModel, context: Context, v: u16, w: u16)
    requires FamilyForModel(model).FamilyG30? && context.model == Some(model)
    requires EncodeCommand(model, context, Command(Percentage, w)).Ok? && v <= 100 && w <= 100 && w != 0
    requires v == 0 || F072.FlowForPercentage(v, Some(model)) == F072.FlowForPercentage(w, Some(model))
    ensures var shown := Command(Percentage, w);
      var state := F072.DecodeG30State(G30Data(shown, FlowOf(model, shown)), Some(model));
      StateConfirms(model, state, Command(Percentage, v)) && StateConfirms(model, state, Command(Percentage, w))
  {
    hide FromBytes, EncodeCommand, F072.FlowForPercentage;
    G30StateConfirms(model, context, Command(Percentage, w));
  }

  lemma ShareF072(
    model: DeviceModel, identity: Identity, source: Endpoint, data: bytes, operation: Operation, v: u16, w: u16)
    requires |data| == 30 && !FamilyForModel(model).FamilyM25? && !FamilyForModel(model).FamilyA5A0?
    requires identity.wireType == F072.WireType(FamilyForModel(model))
    requires StateConfirms(model, F072State(model, data), Command(operation, v))
    requires StateConfirms(model, F072State(model, data), Command(operation, w))
    ensures ShareConfirmation(model, identity.mac, source, operation, v, w)
  {
    hide StateConfirms, F072State, ConfirmingDatagram, F072Response, Broadcast;
    F072DatagramConfirms(model, identity, source, data, Command(operation, v));
    F072DatagramConfirms(model, identity, source, data, Command(operation, w));
  }

  lemma SharedHasWitness(model: DeviceModel, context: Context, source: Endpoint, operation: Operation, v: u16, w: u16)
    requires context.model == Some(model) && v != w && Shared(model, operation, v, w)
    requires EncodeCommand(model, context, Command(operation, v)).Ok? && EncodeCommand(model, context, Command(operation, w)).Ok?
    ensures ShareConfirmation(model, context.identity.mac, source, operation, v, w)
  {
    hide FromBytes, ConfirmingDatagram, Broadcast, F072.FlowForPercentage, StateConfirms, Wrap, F072.RequestFrame;
    hide A5A0.DecodeState, F072.DecodeG30State, F072.DecodeX50State;
    EncodedCommands(model, context, Command(operation, v));
    match FamilyForModel(model)
    case FamilyM25 =>
    case FamilyA5A0 =>
      A5A0Confirmable(model, context, source, Command(operation, v));
      A5A0Confirmable(model, context, source, Command(operation, w));
      assert A5A0Record(Command(operation, v)) == A5A0Record(Command(operation, w));
    case FamilyX50 =>
      X50SharedPtc(model, v);
      X50SharedPtc(model, w);
      ShareF072(model, context.identity, source, ZEROS, operation, v, w);
    case FamilyG30 =>
      if operation.Ptc? {
        G30SharedPtc(model, v);
        G30SharedPtc(model, w);
        ShareF072(model, context.identity, source, ZEROS[18 := 7], operation, v, w);
      } else if w != 0 {
        G30SharedPercentage(model, context, v, w);
        var shown := Command(Percentage, w);
        ShareF072(model, context.identity, source, G30Data(shown, FlowOf(model, shown)), operation, v, w);
      } else {
        G30SharedPercentage(model, context, w, v);
        var shown := Command(Percentage, v);
        ShareF072(model, context.identity, source, G30Data(shown, FlowOf(model, shown)), operation, v, w);
      }
  }

  lemma X50SharedPtc(model: DeviceModel, value: u16)
    requires FamilyForModel(model).FamilyX50?
    ensures StateConfirms(model, F072.DecodeX50State(ZEROS), Command(Ptc, value))
  {
    hide FromBytes;
  }

  /**
   * Two different values that can be sent for an operation are confirmed by one datagram exactly
   * when the operation is a filter operation or a PTC setting, or they are percentages of one
   * airflow or one of them is percentage zero.
   */
  lemma SharedConfirmationIff(
    model: DeviceModel, context: Context, source: Endpoint, operation: Operation, v: u16, w: u16)
    requires context.model == Some(model) && v != w
    requires EncodeCommand(model, context, Command(operation, v)).Ok? && EncodeCommand(model, context, Command(operation, w)).Ok?
    ensures ShareConfirmation(model, context.identity.mac, source, operation, v, w) <==> Shared(model, operation, v, w)
  {
    EncodedCommands(model, context, Command(operation, v));
    EncodedCommands(model, context, Command(operation, w));
    hide EncodeCommand, Decode, StateConfirms, F072.FlowForPercentage;
    if Shared(model, operation, v, w) {
      SharedHasWitness(model, context, source, operation, v, w);
    } else {
      forall d | ConfirmingDatagram(model, context.identity.mac, source, Command(operation, v), d)
                 && ConfirmingDatagram(model, context.identity.mac, source, Command(operation, w), d)
        ensures false
      {
        OneValuePerState(model, context, Decode(model, d, source).value.state.value, operation, v, w);
      }
    }
  }
}
