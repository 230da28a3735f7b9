/**
 * The device's side of the state packets: what a purifier or a detector reports, byte by byte in
 * the order of the wire, and that the codecs read exactly such packets and exactly those values.
 */
module Reports {
  import opened Bytes
  import opened Models
  import opened Framing
  import opened Crc16
  import opened Codecs
  import A5A0
  import M25
  import F072

  type Nibble = n: int | 0 <= n < 16

  /** What all purifiers report at the same places. */
  datatype Common = Common(
    filter: Nibble, mode: Nibble, speed: byte, timer: byte, airQuality: byte, lock: byte, display: byte, power: byte,
    remaining: u16, pm25: u16, online: u16,
    processedExponent: byte, processedBase: u16, purifiedExponent: byte, purifiedBase: u16)

  /** Three octets in front, the common fields around five others, and the rest. */
  function Area(head: bytes, c: Common, middle: bytes, rest: bytes): (area: bytes)
    requires |head| == 3 && |middle| == 5
    ensures |area| == 27 + |rest|
  {
    head
    + [16 * c.filter + c.mode, c.speed, c.timer, c.airQuality, c.lock, c.display, c.power]
    + ToBytes2(c.remaining) + ToBytes2(c.pm25)
    + middle
    + ToBytes2(c.online)
    + [c.processedExponent] + ToBytes2(c.processedBase)
    + [c.purifiedExponent] + ToBytes2(c.purifiedBase)
    + rest
  }

  // ---------------------------------------------------------------- what is published

  function SpeedShown(speed: byte): Option<int>
  {
    if speed in {1, 2, 3, 4, 5, 6} then Some(speed) else None
  }

  function TimerShown(timer: byte): Option<int>
  {
    if timer in {0, 1, 2, 3, 5, 8} then Some(timer) else None
  }

  /** 0x00 and 0x11 are known; which of them means true depends on the field. */
  function Known(value: byte, yes: byte, no: byte): Option<bool>
  {
    if value == yes then Some(true) else if value == no then Some(false) else None
  }

  function PowerShown(power: byte): Option<PowerState>
  {
    if power == 0x00 then Some(On) else if power == 0x11 then Some(Off) else None
  }

  function TenTo(n: nat): nat
  {
    if n == 0 then 1 else 10 * TenTo(n - 1)
  }

  function Volume(base: u16, exponent: byte): Option<int>
  {
    if exponent <= 4 then Some(base * TenTo(exponent)) else None
  }

  function FlowShown(flow: u16, model: DeviceModel): Option<int>
  {
    if 40 <= flow <= (if model == G45 then 450 else 300) && flow % 5 == 0 then Some(flow) else None
  }

  /** An X50 has no temperature, humidity, CO2, PTC or airflow in its state; 0x00 locks it and lights its display. */
  function X50Shows(c: Common, linkage: byte): DeviceState
  {
    DeviceState(
      mode := Some(c.mode), filterTypeRaw := Some(c.filter), speed := SpeedShown(c.speed),
      timerHours := TimerShown(c.timer), airQualityRaw := Some(c.airQuality),
      childLock := Known(c.lock, 0x00, 0x11), displayOn := Known(c.display, 0x00, 0x11), power := PowerShown(c.power),
      timerRemainingMinutes := Some(c.remaining), pm25 := Some(c.pm25),
      processedAirM3 := Volume(c.processedBase, c.processedExponent),
      processedAirExponent := Some(c.processedExponent), processedAirBase := Some(c.processedBase),
      purifiedAirM3 := Volume(c.purifiedBase, c.purifiedExponent),
      purifiedAirExponent := Some(c.purifiedExponent), purifiedAirBase := Some(c.purifiedBase),
      linkageRaw := Some(linkage),
      temperature := None, humidity := None, co2 := None, ptc := None, airflowM3h := None, backlight := None)
  }

  /** A G30 or G45 has an air quality board and an airflow, and no speed or linkage. */
  function G30Shows(
    model: DeviceModel, c: Common, temperature: byte, humidity: byte, co2: u16, ptc: byte, flow: u16): DeviceState
  {
    DeviceState(
      mode := Some(c.mode), filterTypeRaw := Some(if c.filter == 0 then 0 else 1), speed := None,
      timerHours := TimerShown(c.timer), airQualityRaw := Some(c.airQuality),
      childLock := Known(c.lock, 0x00, 0x11), displayOn := Known(c.display, 0x00, 0x11), power := PowerShown(c.power),
      timerRemainingMinutes := Some(c.remaining), pm25 := Some(c.pm25),
      processedAirM3 := Volume(c.processedBase, c.processedExponent),
      processedAirExponent := Some(c.processedExponent), processedAirBase := Some(c.processedBase),
      purifiedAirM3 := Volume(c.purifiedBase, c.purifiedExponent),
      purifiedAirExponent := Some(c.purifiedExponent), purifiedAirBase := Some(c.purifiedBase),
      linkageRaw := None,
      temperature := Some(temperature), humidity := Some(humidity), co2 := Some(co2),
      ptc := if ptc in {0, 1, 2} then Some(ptc) else None, airflowM3h := FlowShown(flow, model), backlight := None)
  }

  /** On the A5A0 family 0x11 locks. */
  function A5A0Shows(c: Common, linkage: byte): DeviceState
  {
    X50Shows(c, linkage).(childLock := Known(c.lock, 0x11, 0x00))
  }

  function SensorShows(pm25: u16, linkage: byte): DeviceState
  {
    EMPTY_STATE.(pm25 := Some(pm25), linkageRaw := Some(linkage))
  }

  // ---------------------------------------------------------------- the fields at their places

  lemma AreaBytes(head: bytes, c: Common, middle: bytes, rest: bytes)
    requires |head| == 3 && |middle| == 5
    ensures var d := Area(head, c, middle, rest);
      && d[..3] == head && d[3] == 16 * c.filter + c.mode && d[4] == c.speed && d[5] == c.timer && d[6] == c.airQuality
      && d[7] == c.lock && d[8] == c.display && d[9] == c.power
      && d[10..12] == ToBytes2(c.remaining) && d[12..14] == ToBytes2(c.pm25) && d[14..19] == middle
      && d[21] == c.processedExponent && d[22..24] == ToBytes2(c.processedBase)
      && d[24] == c.purifiedExponent && d[25..27] == ToBytes2(c.purifiedBase) && d[27..] == rest
  {
    hide ToBytes2;
  }

  function ReadCommon(d: bytes): Common
    requires |d| >= 27
  {
    FromBytes2RoundTrip(d[10..12]);
    FromBytes2RoundTrip(d[12..14]);
    FromBytes2RoundTrip(d[19..21]);
    FromBytes2RoundTrip(d[22..24]);
    FromBytes2RoundTrip(d[25..27]);
    Common(d[3] / 16, d[3] % 16, d[4], d[5], d[6], d[7], d[8], d[9], FromBytes(d[10..12]), FromBytes(d[12..14]),
           FromBytes(d[19..21]), d[21], FromBytes(d[22..24]), d[24], FromBytes(d[25..27]))
  }

  lemma AreaOfRead(d: bytes)
    requires |d| >= 27
    ensures d == Area(d[..3], ReadCommon(d), d[14..19], d[27..])
  {
    FromBytes2RoundTrip(d[10..12]);
    FromBytes2RoundTrip(d[12..14]);
    FromBytes2RoundTrip(d[19..21]);
    FromBytes2RoundTrip(d[22..24]);
    FromBytes2RoundTrip(d[25..27]);
    hide ToBytes2, FromBytes;
    assert [16 * (d[3] / 16) + d[3] % 16, d[4], d[5], d[6], d[7], d[8], d[9]] == d[3..10];
    assert d == d[..3] + d[3..10] + d[10..12] + d[12..14] + d[14..19] + d[19..21] + [d[21]] + d[22..24] + [d[24]]
                + d[25..27] + d[27..];
  }

  lemma Volumes(base: u16, exponent: byte)
    ensures A5A0.SafeVolume(base, exponent) == Volume(base, exponent)
  {
    assert TenTo(0) == 1 && TenTo(1) == 10 && TenTo(2) == 100;
    assert TenTo(3) == 1000 && TenTo(4) == 10000;
  }

  lemma CommonFields(head: bytes, c: Common, middle: bytes, rest: bytes)
    requires |head| == 3 && |middle| == 5
    ensures var d := Area(head, c, middle, rest);
      && FromBytes(d[10..12]) == c.remaining && FromBytes(d[12..14]) == c.pm25
      && A5A0.SafeVolume(FromBytes(d[22..24]), d[21]) == Volume(c.processedBase, c.processedExponent)
      && A5A0.SafeVolume(FromBytes(d[25..27]), d[24]) == Volume(c.purifiedBase, c.purifiedExponent)
      && FromBytes(d[22..24]) == c.processedBase && FromBytes(d[25..27]) == c.purifiedBase
      && d[3] % 16 == c.mode && d[3] / 16 == c.filter
  {
    AreaBytes(head, c, middle, rest);
    hide Area, FromBytes, ToBytes2, A5A0.SafeVolume, Volume;
    ToBytes2RoundTrip(c.remaining);
    ToBytes2RoundTrip(c.pm25);
    ToBytes2RoundTrip(c.processedBase);
    ToBytes2RoundTrip(c.purifiedBase);
    Volumes(c.processedBase, c.processedExponent);
    Volumes(c.purifiedBase, c.purifiedExponent);
  }

  lemma X50StateRead(head: bytes, c: Common, middle: bytes, rest: bytes)
    requires |head| == 3 && |middle| == 5 && |rest| >= 3
    ensures F072.DecodeX50State(Area(head, c, middle, rest)) == X50Shows(c, rest[2])
  {
    AreaBytes(head, c, middle, rest);
    CommonFields(head, c, middle, rest);
    var d := Area(head, c, middle, rest);
    hide Area, FromBytes, ToBytes2, A5A0.SafeVolume, Volume;
    assert d[29] == d[27..][2];
  }

  lemma G30StateRead(
    model: DeviceModel, head: bytes, c: Common, temperature: byte, humidity: byte, co2: u16, ptc: byte, flow: u16, rest: bytes)
    requires |head| == 3
    ensures F072.DecodeG30State(Area(head, c, [temperature, humidity] + ToBytes2(co2) + [ptc], ToBytes2(flow) + rest), Some(model))
         == G30Shows(model, c, temperature, humidity, co2, ptc, flow)
  {
    var middle := [temperature, humidity] + ToBytes2(co2) + [ptc];
    var tail := ToBytes2(flow) + rest;
    AreaBytes(head, c, middle, tail);
    CommonFields(head, c, middle, tail);
    var d := Area(head, c, middle, tail);
    ToBytes2RoundTrip(co2);
    ToBytes2RoundTrip(flow);
    assert middle[2..4] == ToBytes2(co2) && tail[..2] == ToBytes2(flow);
    hide Area, FromBytes, ToBytes2, A5A0.SafeVolume, Volume;
    assert d[16..18] == d[14..19][2..4] && d[27..29] == d[27..][..2];
    assert d[14] == d[14..19][0] && d[15] == d[14..19][1] && d[18] == d[14..19][4];
  }

  lemma A5A0StateRead(head: bytes, c: Common, middle: bytes, linkage: byte, five: bytes)
    requires |head| == 3 && |middle| == 5 && |five| == 5
    ensures A5A0.DecodeState(Area(head, c, middle, [linkage] + five)) == A5A0Shows(c, linkage)
  {
    AreaBytes(head, c, middle, [linkage] + five);
    CommonFields(head, c, middle, [linkage] + five);
    var d := Area(head, c, middle, [linkage] + five);
    hide Area, FromBytes, ToBytes2, A5A0.SafeVolume, Volume;
    assert d[27] == d[27..][0];
  }

  // ---------------------------------------------------------------- F072 packets

  /** A response of the F072 families, with what the codec leaves unread: route, length, type and marker. */
  datatype Response = Response(
    identity: Identity, operation: byte, sequence: u16, route: byte, length: u16, kind: byte, marker: byte, data: bytes)

  predicate Proper(w: Response)
  {
    w.route in {0x01, 0x02} && w.marker in {0x84, 0x03} && 4 <= |w.data| <= 238
  }

  function Routed(w: Response): bytes
  {
    [w.route] + Seal([0xF0, 0x72] + ToBytes2(w.length) + [w.kind, w.marker, 0x02] + w.data)
  }

  function Datagram(w: Response): (d: bytes)
    requires Proper(w)
  {
    BuildOuterFrame(w.identity, w.operation, w.sequence, Routed(w)).value
  }

  lemma RoutedIsRead(w: Response)
    requires Proper(w)
    ensures |Routed(w)| <= 0xF8 && F072.ResponseData(Routed(w)) == Some(w.data)
  {
    hide Crc;
    var head := [0xF0, 0x72] + ToBytes2(w.length) + [w.kind, w.marker, 0x02];
    assert (head + w.data)[..2] == PREFIX;
    SealedFramePasses(head + w.data);
    var frame := Routed(w)[1..];
    assert frame == Seal(head + w.data);
    assert frame[7..|frame| - 2] == w.data;
  }

  lemma ReadIsRouted(identity: Identity, operation: byte, sequence: u16, payload: bytes) returns (w: Response)
    requires F072.ResponseData(payload).Some? && |payload| <= 0xF8
    ensures Proper(w) && w.identity == identity && w.operation == operation && w.sequence == sequence
    ensures w.data == F072.ResponseData(payload).value && Routed(w) == payload
  {
    hide Crc;
    var frame := payload[1..];
    FromBytes2RoundTrip(frame[2..4]);
    FromBytes2RoundTrip(frame[|frame| - 2..]);
    w := Response(identity, operation, sequence, payload[0], FromBytes(frame[2..4]), frame[4], frame[5], frame[7..|frame| - 2]);
    hide FromBytes, ToBytes2;
    var body := frame[..|frame| - 2];
    assert frame[..2] == [0xF0, 0x72];
    assert body == [0xF0, 0x72] + ToBytes2(w.length) + [w.kind, w.marker, 0x02] + w.data by {
      assert body == frame[..2] + frame[2..4] + [frame[4], frame[5], frame[6]] + frame[7..|frame| - 2];
    }
    assert body[2..] == frame[2..|frame| - 2];
    assert frame == body + frame[|frame| - 2..];
  }

  /** What a codec of the F072 families makes of a response: by the length of its data area alone. */
  function Reading(model: DeviceModel, w: Response, source: Endpoint): Option<DecodedPacket>
    requires FamilyForModel(model) in {FamilyX50, FamilyG30}
  {
    var family := FamilyForModel(model);
    if family.FamilyG30? && |w.data| >= 29 then
      Some(DecodedPacket(w.identity, w.sequence, StateKind, Some(F072.DecodeG30State(w.data, Some(model))), source, family,
                         None, w.operation))
    else if family.FamilyX50? && |w.data| >= 30 then
      Some(DecodedPacket(w.identity, w.sequence, StateKind, Some(F072.DecodeX50State(w.data)), source, family, None,
                         w.operation))
    else if |w.data| == 4 then
      Some(DecodedPacket(w.identity, w.sequence, AckKind, None, source, family, None, w.operation))
    else None
  }

  lemma ResponseIsRead(model: DeviceModel, w: Response, source: Endpoint)
    requires FamilyForModel(model) in {FamilyX50, FamilyG30} && Proper(w)
    requires w.identity.wireType == if FamilyForModel(model) == FamilyX50 then 3 else 4
    ensures Decode(model, Datagram(w), source) == Reading(model, w, source)
  {
    RoutedIsRead(w);
    hide Routed, F072.ResponseData, BuildOuterFrame, ParseOuterFrame, F072.DecodeG30State, F072.DecodeX50State;
    ParseOfBuild(w.identity, w.operation, w.sequence, Routed(w));
  }

  /** Every state of an X50 is published as it was reported. */
  lemma X50ReportIsPublished(
    model: DeviceModel, w: Response, source: Endpoint, head: bytes, c: Common, middle: bytes, two: bytes, linkage: byte,
    more: bytes)
    requires FamilyForModel(model) == FamilyX50 && Proper(w) && w.identity.wireType == 3
    requires |head| == 3 && |middle| == 5 && |two| == 2 && w.data == Area(head, c, middle, two + [linkage] + more)
    ensures Decode(model, Datagram(w), source)
         == Some(DecodedPacket(w.identity, w.sequence, StateKind, Some(X50Shows(c, linkage)), source, FamilyX50, None,
                               w.operation))
  {
    hide F072.DecodeX50State, F072.DecodeG30State, X50Shows, Area, Datagram, Decode;
    X50StateRead(head, c, middle, two + [linkage] + more);
    ResponseIsRead(model, w, source);
  }

  /** Every state of a G30 or G45 is published as it was reported. */
  lemma G30ReportIsPublished(
    model: DeviceModel, w: Response, source: Endpoint, head: bytes, c: Common, temperature: byte, humidity: byte, co2: u16,
    ptc: byte, flow: u16, more: bytes)
    requires FamilyForModel(model) == FamilyG30 && Proper(w) && w.identity.wireType == 4
    requires |head| == 3
    requires w.data == Area(head, c, [temperature, humidity] + ToBytes2(co2) + [ptc], ToBytes2(flow) + more)
    ensures Decode(model, Datagram(w), source)
         == Some(DecodedPacket(w.identity, w.sequence, StateKind,
                               Some(G30Shows(model, c, temperature, humidity, co2, ptc, flow)), source, FamilyG30, None,
                               w.operation))
  {
    hide F072.DecodeX50State, F072.DecodeG30State, G30Shows, Area, Datagram, Decode;
    G30StateRead(model, head, c, temperature, humidity, co2, ptc, flow, more);
    ResponseIsRead(model, w, source);
  }

  /** Whatever a codec of the F072 families accepts is a response of a device of its type, as printed above. */
  lemma AcceptedIsAResponse(model: DeviceModel, d: bytes, source: Endpoint) returns (w: Response)
    requires FamilyForModel(model) in {FamilyX50, FamilyG30} && Decode(model, d, source).Some?
    ensures Proper(w) && w.identity.wireType == (if FamilyForModel(model) == FamilyX50 then 3 else 4)
    ensures d == Datagram(w) && (|w.data| == 4 || |w.data| >= if FamilyForModel(model) == FamilyX50 then 30 else 29)
  {
    var outer := ParseOuterFrame(d).value;
    BuildOfParse(d);
    w := ReadIsRouted(outer.identity, outer.operation, outer.sequence, outer.payload);
    hide Routed, F072.ResponseData, BuildOuterFrame, ParseOuterFrame, F072.DecodeG30State, F072.DecodeX50State;
  }

  // ---------------------------------------------------------------- A5A0 packets

  /** The routed payload of one record, or of two, of which the second counts. */
  function Record(c: Common, middle: bytes, linkage: byte, five: bytes): (r: bytes)
    requires |middle| == 5 && |five| == 5
    ensures |r| == 33
  {
    Area([0x02, 0x5A, 0xA1], c, middle, [linkage] + five)
  }

  /** Every state of an A5A0 purifier is published as it was reported, behind an older record or alone. */
  lemma A5A0ReportIsPublished(
    model: DeviceModel, identity: Identity, operation: byte, sequence: u16, source: Endpoint, older: bytes, c: Common,
    middle: bytes, linkage: byte, five: bytes)
    requires FamilyForModel(model) == FamilyA5A0 && identity.wireType == 2 && |middle| == 5 && |five| == 5
    requires older == [] || (|older| == 32 && older[..2] == [0x5A, 0xA1])
    ensures var d := BuildOuterFrame(identity, operation, sequence,
                                     Record(c, middle, linkage, five)[..1] + older + Record(c, middle, linkage, five)[1..]);
      d.Ok? && Decode(model, d.value, source)
        == Some(DecodedPacket(identity, sequence, StateKind, Some(A5A0Shows(c, linkage)), source, FamilyA5A0, None, operation))
  {
    var record := Record(c, middle, linkage, five);
    var payload := record[..1] + older + record[1..];
    AreaBytes([0x02, 0x5A, 0xA1], c, middle, [linkage] + five);
    A5A0StateRead([0x02, 0x5A, 0xA1], c, middle, linkage, five);
    hide Area, A5A0.DecodeState, A5A0Shows, BuildOuterFrame, ParseOuterFrame;
    ParseOfBuild(identity, operation, sequence, payload);
    RecordIsFound(record, older);
  }

  lemma RecordIsFound(record: bytes, older: bytes)
    requires |record| == 33 && record[..3] == [0x02, 0x5A, 0xA1]
    requires older == [] || (|older| == 32 && older[..2] == [0x5A, 0xA1])
    ensures A5A0.CurrentRecord(record[..1] + older + record[1..]) == Some(record)
  {
    var payload := record[..1] + older + record[1..];
    assert record[0] == 0x02 && record[1] == 0x5A && record[2] == 0xA1;
    if older == [] {
      assert payload == record;
    } else {
      assert older[0] == 0x5A && older[1] == 0xA1;
      assert payload[33..] == record[1..] && payload[33..35] == [0x5A, 0xA1];
      assert payload[..1] + payload[33..] == record;
    }
  }

  lemma FoundRecord(p: bytes) returns (older: bytes)
    requires A5A0.CurrentRecord(p).Some?
    ensures var record := A5A0.CurrentRecord(p).value;
      && |record| == 33 && record[..3] == [0x02, 0x5A, 0xA1]
      && (older == [] || (|older| == 32 && older[..2] == [0x5A, 0xA1])) && p == record[..1] + older + record[1..]
  {
    var record := A5A0.CurrentRecord(p).value;
    older := if |p| == 33 then [] else p[1..33];
    assert p[..3] == [0x02, 0x5A, 0xA1] && p[0] == 0x02;
    if |p| == 65 {
      assert record[1..] == p[33..] && record[..1] == p[..1];
      assert record == [p[0]] + p[33..] && p[33..35] == [p[33], p[34]];
    }
    assert p == p[..1] + older + p[1 + |older|..];
  }

  lemma ReadRecord(record: bytes) returns (c: Common, middle: bytes, linkage: byte, five: bytes)
    requires |record| == 33 && record[..3] == [0x02, 0x5A, 0xA1]
    ensures |middle| == 5 && |five| == 5 && record == Record(c, middle, linkage, five)
  {
    c, middle, linkage, five := ReadCommon(record), record[14..19], record[27], record[28..];
    AreaOfRead(record);
    hide ReadCommon, Area;
    assert record[27..] == [linkage] + five;
  }

  /** Whatever the A5A0 codec accepts as a state is such a packet. */
  lemma A5A0StateIsAReport(model: DeviceModel, d: bytes, source: Endpoint)
    returns (outer: OuterFrame, older: bytes, c: Common, middle: bytes, linkage: byte, five: bytes)
    requires FamilyForModel(model) == FamilyA5A0
    requires Decode(model, d, source).Some? && Decode(model, d, source).value.kind.StateKind?
    ensures outer.identity.wireType == 2 && |middle| == 5 && |five| == 5
    ensures older == [] || (|older| == 32 && older[..2] == [0x5A, 0xA1])
    ensures outer.payload == Record(c, middle, linkage, five)[..1] + older + Record(c, middle, linkage, five)[1..]
    ensures BuildOuterFrame(outer.identity, outer.operation, outer.sequence, outer.payload) == Ok(d)
  {
    hide BuildOuterFrame, ParseOuterFrame, A5A0.DecodeState, A5A0.CurrentRecord, Record;
    outer := ParseOuterFrame(d).value;
    BuildOfParse(d);
    older := FoundRecord(outer.payload);
    c, middle, linkage, five := ReadRecord(A5A0.CurrentRecord(outer.payload).value);
  }

  // ---------------------------------------------------------------- M25 packets

  function Sensors(route: byte, form: byte, pm25: u16, two: bytes, linkage: byte, nine: bytes): bytes
  {
    [route, 0xF5, form] + ToBytes2(pm25) + two + [linkage] + nine
  }

  /** Every reading of the detector is published as it was reported. */
  lemma SensorsArePublished(
    model: DeviceModel, identity: Identity, operation: byte, sequence: u16, source: Endpoint, route: byte, form: byte,
    pm25: u16, two: bytes, linkage: byte, nine: bytes)
    requires FamilyForModel(model) == FamilyM25 && identity.wireType == 1
    requires route in {0x03, 0x04} && form in {0xA1, 0xA2} && |two| == 2 && |nine| == 9
    ensures var d := BuildOuterFrame(identity, operation, sequence, Sensors(route, form, pm25, two, linkage, nine));
      d.Ok? && Decode(model, d.value, source)
        == Some(DecodedPacket(identity, sequence, StateKind, Some(SensorShows(pm25, linkage)), source, FamilyM25, None, operation))
  {
    hide BuildOuterFrame, ParseOuterFrame;
    var payload := Sensors(route, form, pm25, two, linkage, nine);
    ParseOfBuild(identity, operation, sequence, payload);
    assert payload[3..5] == ToBytes2(pm25);
    ToBytes2RoundTrip(pm25);
    hide FromBytes, ToBytes2;
  }

  /** The backlight is reported in two forms. */
  predicate BacklightReport(payload: bytes, backlight: byte)
  {
    && |payload| >= 6 && payload[0] in {0x03, 0x04} && payload[1] == 0xF5 && payload[4] == 0x01 && payload[5] == backlight
    && (payload[2] == 0xA4 || (payload[2] == 0xA3 && payload[3] == 0x03 && |payload| == 7))
  }

  lemma BacklightIsPublished(
    model: DeviceModel, identity: Identity, operation: byte, sequence: u16, source: Endpoint, payload: bytes, backlight: byte)
    requires FamilyForModel(model) == FamilyM25 && identity.wireType == 1 && |payload| <= 0xF8
    requires BacklightReport(payload, backlight)
    ensures var d := BuildOuterFrame(identity, operation, sequence, payload);
      d.Ok? && Decode(model, d.value, source)
        == Some(DecodedPacket(identity, sequence, BacklightKind, Some(EMPTY_STATE.(backlight := Some(backlight))), source,
                              FamilyM25, None, operation))
  {
    hide BuildOuterFrame, ParseOuterFrame;
    ParseOfBuild(identity, operation, sequence, payload);
    assert payload[3..5] == [payload[3], payload[4]];
  }

  /** Whatever the M25 codec accepts is one of these. */
  lemma M25PacketIsAReport(model: DeviceModel, d: bytes, source: Endpoint) returns (outer: OuterFrame)
    requires FamilyForModel(model) == FamilyM25 && Decode(model, d, source).Some?
    ensures outer.identity.wireType == 1 && BuildOuterFrame(outer.identity, outer.operation, outer.sequence, outer.payload) == Ok(d)
    ensures
      var p := outer.payload;
      if Decode(model, d, source).value.kind.StateKind? then
        |p| == 17 && p[0] in {0x03, 0x04} && p[2] in {0xA1, 0xA2}
        && FromBytes(p[3..5]) < 0x1_0000 && p == Sensors(p[0], p[2], FromBytes(p[3..5]), p[5..7], p[7], p[8..])
      else |p| >= 6 && BacklightReport(p, p[5])
  {
    outer := ParseOuterFrame(d).value;
    BuildOfParse(d);
    hide BuildOuterFrame, ParseOuterFrame;
    var p := outer.payload;
    if p[2] in {0xA1, 0xA2} {
      FromBytes2RoundTrip(p[3..5]);
      hide FromBytes, ToBytes2;
      assert p == [p[0], p[1], p[2]] + p[3..5] + p[5..7] + [p[7]] + p[8..];
    } else if p[2] == 0xA3 {
      assert p[3..5] == [p[3], p[4]];
    }
  }
}
