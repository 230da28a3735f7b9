/**
 * Which reports of a device confirm a command: those in which the device's own octet is the
 * commanded one, under the meanings of the commands and the layouts of the reports.
 */
module Obedience {
  import opened Bytes
  import opened Models
  import opened Framing
  import opened Codecs
  import opened Reports
  import opened Commands
  import opened Confirmability
  import F072

  /** The report shows the commanded value, at the place of its operation. */
  predicate Obeys(model: DeviceModel, operation: Operation, v: u16, c: Common, ptc: byte, flow: u16)
  {
    match operation
    case Mode => c.mode == v
    case Speed => c.speed == v && v != 0
    case Timer => c.timer == v
    case ChildLock => c.lock == v
    case Display => c.display == v
    case Power => if WireTypeOf(model) == 2 then c.power == (if v == 0x35 then 0x00 else 0x11) else c.power == v
    case Ptc => WireTypeOf(model) == 4 ==> ptc == v || ptc !in {0, 1, 2}
    case Airflow => flow == v
    case Percentage => if v == 0 then c.power == 0x11 else v <= 100 && flow == F072.FlowForPercentage(v, Some(model))
    case FilterOperation => true
    case Backlight => false
  }

  lemma X50Obeys(model: DeviceModel, operation: Operation, v: u16, c: Common, linkage: byte)
    requires WireTypeOf(model) == 3 && Documented(model, operation, v)
    ensures StateConfirms(model, X50Shows(c, linkage), Command(operation, v)) <==> Obeys(model, operation, v, c, 0, 0)
  {}

  lemma G30Obeys(
    model: DeviceModel, operation: Operation, v: u16, c: Common, temperature: byte, humidity: byte, co2: u16, ptc: byte,
    flow: u16)
    requires WireTypeOf(model) == 4 && Documented(model, operation, v)
    ensures StateConfirms(model, G30Shows(model, c, temperature, humidity, co2, ptc, flow), Command(operation, v))
       <==> Obeys(model, operation, v, c, ptc, flow)
  {}

  lemma A5A0Obeys(model: DeviceModel, operation: Operation, v: u16, c: Common, linkage: byte)
    requires WireTypeOf(model) == 2 && Documented(model, operation, v)
    ensures StateConfirms(model, A5A0Shows(c, linkage), Command(operation, v)) <==> Obeys(model, operation, v, c, 0, 0)
  {}

  /** A report of an X50 from the commanded device confirms a command exactly if it shows its value. */
  lemma X50ReportConfirms(
    model: DeviceModel, command: Command, mac: Mac, w: Response, source: Endpoint, head: bytes, c: Common, middle: bytes,
    two: bytes, linkage: byte, more: bytes)
    requires FamilyForModel(model) == FamilyX50 && Documented(model, command.operation, command.value)
    requires Proper(w) && w.identity.wireType == 3
    requires |head| == 3 && |middle| == 5 && |two| == 2 && w.data == Area(head, c, middle, two + [linkage] + more)
    ensures ConfirmingDatagram(model, mac, source, command, Datagram(w))
       <==> w.identity.mac == mac && Obeys(model, command.operation, command.value, c, 0, 0)
  {
    X50ReportIsPublished(model, w, source, head, c, middle, two, linkage, more);
    X50Obeys(model, command.operation, command.value, c, linkage);
    hide Decode, Datagram, Area, X50Shows, StateConfirms, Obeys, Proper;
  }

  /** A report of a G30 or G45, likewise. */
  lemma G30ReportConfirms(
    model: DeviceModel, command: Command, mac: Mac, w: Response, source: Endpoint, head: bytes, c: Common,
    temperature: byte, humidity: byte, co2: u16, ptc: byte, flow: u16, more: bytes)
    requires FamilyForModel(model) == FamilyG30 && Documented(model, command.operation, command.value)
    requires Proper(w) && w.identity.wireType == 4 && |head| == 3
    requires w.data == Area(head, c, [temperature, humidity] + ToBytes2(co2) + [ptc], ToBytes2(flow) + more)
    ensures ConfirmingDatagram(model, mac, source, command, Datagram(w))
       <==> w.identity.mac == mac && Obeys(model, command.operation, command.value, c, ptc, flow)
  {
    G30ReportIsPublished(model, w, source, head, c, temperature, humidity, co2, ptc, flow, more);
    G30Obeys(model, command.operation, command.value, c, temperature, humidity, co2, ptc, flow);
    hide Decode, Datagram, Area, G30Shows, StateConfirms, Obeys, Proper;
  }

  /** A report of an A5A0 purifier, likewise; 0x35 and 0x11 command what is reported as 0x00 and 0x11. */
  lemma A5A0ReportConfirms(
    model: DeviceModel, command: Command, mac: Mac, identity: Identity, operation: byte, sequence: u16, source: Endpoint,
    older: bytes, c: Common, middle: bytes, linkage: byte, five: bytes, d: bytes)
    requires FamilyForModel(model) == FamilyA5A0 && Documented(model, command.operation, command.value)
    requires identity.wireType == 2 && |middle| == 5 && |five| == 5
    requires older == [] || (|older| == 32 && older[..2] == [0x5A, 0xA1])
    requires Ok(d) == BuildOuterFrame(identity, operation, sequence,
                                      Record(c, middle, linkage, five)[..1] + older + Record(c, middle, linkage, five)[1..])
    ensures ConfirmingDatagram(model, mac, source, command, d)
       <==> identity.mac == mac && Obeys(model, command.operation, command.value, c, 0, 0)
  {
    A5A0ReportIsPublished(model, identity, operation, sequence, source, older, c, middle, linkage, five);
    A5A0Obeys(model, command.operation, command.value, c, linkage);
    hide Decode, Record, A5A0Shows, StateConfirms, Obeys, BuildOuterFrame;
  }

  /** The detector's backlight report confirms the backlight command with its value. */
  lemma BacklightReportConfirms(
    model: DeviceModel, value: u16, mac: Mac, identity: Identity, operation: byte, sequence: u16, source: Endpoint,
    payload: bytes, backlight: byte, d: bytes)
    requires FamilyForModel(model) == FamilyM25 && identity.wireType == 1 && |payload| <= 0xF8
    requires BacklightReport(payload, backlight) && Ok(d) == BuildOuterFrame(identity, operation, sequence, payload)
    ensures ConfirmingDatagram(model, mac, source, Command(Backlight, value), d)
       <==> identity.mac == mac && backlight as int == value
  {
    BacklightIsPublished(model, identity, operation, sequence, source, payload, backlight);
    hide Decode, BuildOuterFrame, BacklightReport;
  }
}
