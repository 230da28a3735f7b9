/** The commands and queries of every model on the wire: which are sent, and as what. */
module Commands {
  import opened Bytes
  import opened Models
  import opened Framing
  import opened Crc16
  import opened Codecs
  import A5A0
  import M25
  import F072

  /** The wire type that each model's identity carries. */
  function WireTypeOf(model: DeviceModel): byte
  {
    match model
    case M25 => 1
    case X83 | X83C | X83CPlus => 2
    case X50 | X50S | X60 | X70 => 3
    case G30 | G45 => 4
  }

  /** The command byte of an operation, the same for all purifiers. */
  function Code(operation: Operation): byte
  {
    match operation
    case Mode => 0x51
    case Speed => 0x52
    case Ptc => 0x53
    case Timer => 0x54
    case ChildLock => 0x55
    case Display => 0x56
    case FilterOperation => 0x57
    case Airflow | Percentage => 0x58
    case Power => 0x5E
    case Backlight => 0xA3
  }

  /** What each kind of device can be told. */
  predicate Documented(model: DeviceModel, operation: Operation, v: u16)
  {
    match operation
    case Mode => v in (if WireTypeOf(model) == 4 then {1, 5} else {1, 2, 3, 5}) && WireTypeOf(model) != 1
    case Speed => v in {1, 2, 3, 4, 5} + (if WireTypeOf(model) == 2 then {6} else {0}) && WireTypeOf(model) in {2, 3}
    case Ptc => v in {0, 1, 2} && WireTypeOf(model) != 1
    case Timer => v in {0, 1, 2, 3, 5, 8} && WireTypeOf(model) != 1
    case ChildLock | Display => v in {0x00, 0x11} && WireTypeOf(model) != 1
    case Power => v in {if WireTypeOf(model) == 2 then 0x35 else 0x00, 0x11} && WireTypeOf(model) != 1
    case FilterOperation => v in {1, 2, 3} && WireTypeOf(model) == 2
    case Airflow => 40 <= v <= (if model == G45 then 450 else 300) && v % 5 == 0 && WireTypeOf(model) == 4
    case Percentage => v <= 100 && WireTypeOf(model) == 4
    case Backlight => v in {0, 1} && WireTypeOf(model) == 1
  }

  /** The frame inside the envelope of an F072 request. */
  function Inner(model: DeviceModel, sequence: u16, code: byte, high: byte, low: byte): bytes
  {
    var body := [0x00, 0x0D, WireTypeOf(model), 0x04, 0x02] + ToBytes2(sequence) + [0x03, code, high, low];
    [0x01, 0xF0, 0x72] + body + ToBytes2(Crc(body))
  }

  function Payload(model: DeviceModel, sequence: u16, command: Command): bytes
    requires Documented(model, command.operation, command.value)
  {
    var v := command.value;
    match WireTypeOf(model)
    case 1 => [0x03, 0xFA, 0xA3, 0x03, 0x01, v, 0xA1 + v]
    case 2 =>
      [0x01, 0xA5, 0xA0, Code(command.operation), v, 0x00, (0x145 + (Code(command.operation) as int) + v) % 0x100]
    case _ =>
      if command.operation == Percentage && v == 0 then Inner(model, sequence, Code(Power), 0x11, 0x00)
      else if command.operation == Percentage then
        var flow := F072.FlowForPercentage(v, Some(model));
        Inner(model, sequence, 0x58, flow / 0x100, flow % 0x100)
      else if command.operation == Airflow then Inner(model, sequence, 0x58, v / 0x100, v % 0x100)
      else Inner(model, sequence, Code(command.operation), v, 0x00)
  }

  lemma InnerFrame(family: F072.F072Family, model: DeviceModel, sequence: u16, code: byte, high: byte, low: byte)
    requires family == FamilyForModel(model)
    ensures [0x01] + F072.RequestFrame(family, sequence, code, high, low) == Inner(model, sequence, code, high, low)
    ensures |Inner(model, sequence, code, high, low)| == 16
  {
    hide Crc, ToBytes2, Seal, WireTypeOf;
    assert F072.WireType(family) == WireTypeOf(model) by { SameWireType(family, model); }
    var body := [0x00, 0x0D, WireTypeOf(model), 0x04, 0x02] + ToBytes2(sequence) + [0x03, code, high, low];
    var head := PREFIX + [0x00, 0x0D, F072.WireType(family), 0x04, 0x02] + ToBytes2(sequence) + [0x03, code, high, low];
    assert head == [0xF0, 0x72] + body;
    SealedBody(head, body);
  }

  lemma SameWireType(family: F072.F072Family, model: DeviceModel)
    requires family == FamilyForModel(model)
    ensures F072.WireType(family) == WireTypeOf(model)
  {}

  lemma SealedBody(head: bytes, body: bytes)
    requires head == [0xF0, 0x72] + body
    ensures [0x01] + Seal(head) == [0x01, 0xF0, 0x72] + body + ToBytes2(Crc(body))
  {
    hide Crc, ToBytes2;
    assert head[2..] == body;
  }

  predicate OnTheWire(r: Result<bytes>, context: Context, payload: bytes)
  {
    r.Ok? && r == BuildOuterFrame(context.identity, context.outerOperation, context.outerSequence, payload)
  }

  /** A command is sent exactly if it is documented for the model, under the wire type of the model. */
  lemma CommandOnTheWire(model: DeviceModel, context: Context, command: Command)
    requires context.model == Some(model)
    ensures EncodeCommand(model, context, command).Ok?
       <==> context.identity.wireType == WireTypeOf(model) && Documented(model, command.operation, command.value)
    ensures EncodeCommand(model, context, command).Ok? ==>
      OnTheWire(EncodeCommand(model, context, command), context, Payload(model, context.innerSequence, command))
  {
    hide EncodeCommand, Documented, Payload, OnTheWire, WireTypeOf;
    match FamilyForModel(model)
    case FamilyM25 => M25CommandOnTheWire(model, context, command);
    case FamilyA5A0 => A5A0CommandOnTheWire(model, context, command);
    case FamilyX50 => F072CommandOnTheWire(model, context, command);
    case FamilyG30 => F072CommandOnTheWire(model, context, command);
  }

  /** The context's model, if it names one of the codec's family, counts in place of the codec's own. */
  lemma ContextModelCounts(model: DeviceModel, context: Context, command: Command)
    ensures context.model == None ==>
      EncodeCommand(model, context, command) == EncodeCommand(model, context.(model := Some(model)), command)
    ensures context.model.Some? && FamilyForModel(context.model.value) == FamilyForModel(model) ==>
      EncodeCommand(model, context, command) == EncodeCommand(context.model.value, context, command)
  {
    hide BuildOuterFrame, F072.RequestFrame, F072.ValueValid, A5A0.ValueValid;
  }

  lemma M25CommandOnTheWire(model: DeviceModel, context: Context, command: Command)
    requires FamilyForModel(model) == FamilyM25
    ensures EncodeCommand(model, context, command).Ok?
       <==> context.identity.wireType == WireTypeOf(model) && Documented(model, command.operation, command.value)
    ensures EncodeCommand(model, context, command).Ok? ==>
      OnTheWire(EncodeCommand(model, context, command), context, Payload(model, context.innerSequence, command))
  {
    hide BuildOuterFrame, A5A0.EncodeCommand, F072.EncodeCommand;
    WrapFits(context);
  }

  lemma A5A0CommandOnTheWire(model: DeviceModel, context: Context, command: Command)
    requires FamilyForModel(model) == FamilyA5A0
    ensures EncodeCommand(model, context, command).Ok?
       <==> context.identity.wireType == WireTypeOf(model) && Documented(model, command.operation, command.value)
    ensures EncodeCommand(model, context, command).Ok? ==>
      OnTheWire(EncodeCommand(model, context, command), context, Payload(model, context.innerSequence, command))
  {
    hide BuildOuterFrame, Inner, M25.EncodeCommand, F072.EncodeCommand, F072.FlowForPercentage;
    WrapFits(context);
    A5A0Values(command);
    hide A5A0.ValueValid, A5A0.CommandCode, Code;
  }

  lemma A5A0Values(command: Command)
    ensures A5A0.CommandCode(command.operation).Some? && A5A0.ValueValid(command)
       <==> Documented(X83, command.operation, command.value)
    ensures A5A0.CommandCode(command.operation).Some? ==> A5A0.CommandCode(command.operation).value == Code(command.operation)
    ensures A5A0.ValueValid(command) ==> command.value < 0x100
  {}

  lemma WrapFits(context: Context)
    ensures forall payload: bytes :: |payload| <= 16 ==> Wrap(context, payload).Ok?
  {}

  lemma F072CommandOnTheWire(model: DeviceModel, context: Context, command: Command)
    requires context.model == Some(model) && FamilyForModel(model) in {FamilyX50, FamilyG30}
    ensures EncodeCommand(model, context, command).Ok?
       <==> context.identity.wireType == WireTypeOf(model) && Documented(model, command.operation, command.value)
    ensures EncodeCommand(model, context, command).Ok? ==>
      OnTheWire(EncodeCommand(model, context, command), context, Payload(model, context.innerSequence, command))
  {
    hide EncodeCommand, Documented, Payload, OnTheWire, WireTypeOf;
    if command.operation in {Percentage, Airflow} {
      FlowCommandOnTheWire(model, context, command);
    } else {
      SingleCommandOnTheWire(model, context, command);
    }
  }

  lemma FlowCommandOnTheWire(model: DeviceModel, context: Context, command: Command)
    requires context.model == Some(model) && FamilyForModel(model) in {FamilyX50, FamilyG30}
    requires command.operation in {Percentage, Airflow}
    ensures EncodeCommand(model, context, command).Ok?
       <==> context.identity.wireType == WireTypeOf(model) && Documented(model, command.operation, command.value)
    ensures EncodeCommand(model, context, command).Ok? ==>
      OnTheWire(EncodeCommand(model, context, command), context, Payload(model, context.innerSequence, command))
  {
    hide BuildOuterFrame, F072.RequestFrame, Inner, A5A0.EncodeCommand, M25.EncodeCommand;
    var family: F072.F072Family := FamilyForModel(model);
    var v, s := command.value, context.innerSequence;
    WrapFits(context);
    if context.identity.wireType == WireTypeOf(model) && Documented(model, command.operation, v) {
      if command.operation == Percentage && v == 0 {
        InnerFrame(family, model, s, 0x5E, 0x11, 0x00);
      } else if command.operation == Percentage {
        var flow := F072.FlowForPercentage(v, Some(model));
        hide F072.FlowForPercentage;
        InnerFrame(family, model, s, 0x58, flow / 0x100, flow % 0x100);
      } else {
        InnerFrame(family, model, s, 0x58, v / 0x100, v % 0x100);
      }
    }
  }

  lemma SingleCommandOnTheWire(model: DeviceModel, context: Context, command: Command)
    requires context.model == Some(model) && FamilyForModel(model) in {FamilyX50, FamilyG30}
    requires command.operation !in {Percentage, Airflow}
    ensures EncodeCommand(model, context, command).Ok?
       <==> context.identity.wireType == WireTypeOf(model) && Documented(model, command.operation, command.value)
    ensures EncodeCommand(model, context, command).Ok? ==>
      OnTheWire(EncodeCommand(model, context, command), context, Payload(model, context.innerSequence, command))
  {
    hide BuildOuterFrame, F072.RequestFrame, Inner, A5A0.EncodeCommand, M25.EncodeCommand, F072.FlowForPercentage;
    var family: F072.F072Family := FamilyForModel(model);
    WrapFits(context);
    if context.identity.wireType == WireTypeOf(model) && Documented(model, command.operation, command.value) {
      InnerFrame(family, model, context.innerSequence, Code(command.operation), command.value, 0x00);
    }
  }

  /** What asks for the state. */
  function QueryPayload(model: DeviceModel, sequence: u16): bytes
  {
    match WireTypeOf(model)
    case 1 => [0x03, 0xFA, 0xA0, 0x11, 0x11, 0x00, 0x00]
    case 2 => [0x01, 0xA5, 0xA0, 0x11, 0x11, 0x00, 0x00]
    case _ => Inner(model, sequence, 0x11, 0x11, 0x00)
  }

  /** A query is sent exactly under the wire type of the model. */
  lemma QueryOnTheWire(model: DeviceModel, context: Context)
    ensures EncodeQuery(model, context).Ok? <==> context.identity.wireType == WireTypeOf(model)
    ensures EncodeQuery(model, context).Ok? ==>
      OnTheWire(EncodeQuery(model, context), context, QueryPayload(model, context.innerSequence))
  {
    hide BuildOuterFrame, F072.RequestFrame, Inner;
    WrapFits(context);
    if FamilyForModel(model) in {FamilyX50, FamilyG30} {
      InnerFrame(FamilyForModel(model), model, context.innerSequence, 0x11, 0x11, 0x00);
    }
  }

  /** The detector is asked for its backlight with a query of its own. */
  lemma BacklightQueryOnTheWire(context: Context)
    ensures M25.EncodeBacklightQuery(context).Ok? <==> context.identity.wireType == 1
    ensures M25.EncodeBacklightQuery(context).Ok? ==>
      OnTheWire(M25.EncodeBacklightQuery(context), context, [0x03, 0xFA, 0xA4, 0x02, 0x01, 0xA1])
  {
    hide BuildOuterFrame;
    WrapFits(context);
  }

  /**
   * The airflow of a percentage is the multiple of five that is nearest to the point that divides
   * the range of airflows as the percentage divides 1 to 100, the higher one of two.
   */
  lemma FlowIsNearest(model: DeviceModel, percentage: int)
    requires 1 <= percentage <= 100
    ensures var flow := F072.FlowForPercentage(percentage, Some(model));
      var span := if model == G45 then 410 else 260;
      && flow % 5 == 0
      && 2 * (99 * (flow - 40) - (percentage - 1) * span) <= 99 * 5
      && 2 * ((percentage - 1) * span - 99 * (flow - 40)) < 99 * 5
    ensures F072.FlowForPercentage(1, Some(model)) == 40
    ensures F072.FlowForPercentage(100, Some(model)) == if model == G45 then 450 else 300
  {
    if model == G45 {
      assert F072.MaximumFlow(Some(model)) == 450;
    } else {
      assert F072.MaximumFlow(Some(model)) == 300;
    }
  }
}
