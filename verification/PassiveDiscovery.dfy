/** The second, independently written validator of state broadcasts (discovery.py). */
module PassiveDiscovery {
  import opened Bytes
  import opened Models
  import opened Framing
  import opened Crc16
  import opened Codecs
  import A5A0
  import M25
  import F072

  const UDP_PORT: u16 := 11530

  datatype DiscoveryResult = DiscoveryResult(host: string, mac: Mac, company: byte, wireType: byte, auth: u16)

  /** The per-family layout test of _decode_passive_status. */
  predicate ValidState(wireType: byte, payload: bytes)
  {
    if wireType == 1 then
      |payload| == 17 && payload[0] in {0x03, 0x04} && payload[1] == 0xF5 && payload[2] in {0xA1, 0xA2}
    else if wireType == 2 then
      |payload| in {33, 65} && payload[..3] == [0x02, 0x5A, 0xA1]
      && (|payload| == 33 || payload[33..35] == [0x5A, 0xA1])
    else if wireType in {3, 4} && |payload| >= 16 && payload[0] in {0x01, 0x02} then
      var frame := payload[1..];
      var minimum := if wireType == 3 then 30 else 29;
      |frame| >= minimum + 9 && frame[..2] == [0xF0, 0x72] && frame[5] in {0x84, 0x03} && frame[6] == 0x02
      && ResponseCrcValid(frame)
    else false
  }

  function DecodePassiveStatus(
    datagram: bytes, source: Endpoint, expectedHost: string, expectedMac: Mac, wireTypes: set<int>
  ): Option<DiscoveryResult>
  {
    if source != Endpoint(expectedHost, UDP_PORT) then None
    else
      var parsed := ParseOuterFrame(datagram);
      if parsed == None then None
      else
        var outer := parsed.value;
        var identity := outer.identity;
        if outer.operation != 0x04 then None
        else if identity.mac != expectedMac then None
        else if identity.wireType !in wireTypes then None
        else if !ValidState(identity.wireType, outer.payload) then None
        else Some(DiscoveryResult(expectedHost, identity.mac, identity.company, identity.wireType, identity.auth))
  }

  /** A model of each family, to name its codec by the wire type it answers to. */
  function ModelForWireType(wireType: byte): Option<DeviceModel>
  {
    match wireType
    case 1 => Some(DeviceModel.M25)
    case 2 => Some(DeviceModel.X83)
    case 3 => Some(DeviceModel.X50)
    case 4 => Some(DeviceModel.G30)
    case _ => None
  }

  /** The codec of the datagram's own wire type decodes it to a STATE packet. */
  predicate DecodesToState(model: DeviceModel, datagram: bytes, source: Endpoint)
  {
    var packet := Decode(model, datagram, source);
    packet.Some? && packet.value.kind.StateKind?
  }

  lemma StateLayoutsAgree(model: DeviceModel, outer: OuterFrame, datagram: bytes, source: Endpoint)
    requires ParseOuterFrame(datagram) == Some(outer)
    requires 1 <= outer.identity.wireType <= 4
    requires FamilyForModel(model) == WireFamily(outer.identity.wireType)
    ensures DecodesToState(model, datagram, source) <==> ValidState(outer.identity.wireType, outer.payload)
  {
    hide ParseOuterFrame, ValidState, FamilyForModel;
    match outer.identity.wireType
    case 1 => M25LayoutsAgree(outer, datagram, source);
    case 2 => A5A0LayoutsAgree(outer, datagram, source);
    case 3 => F072DecodesToState(model, FamilyX50, outer, datagram, source);
    case 4 => F072DecodesToState(model, FamilyG30, outer, datagram, source);
  }

  lemma M25LayoutsAgree(outer: OuterFrame, datagram: bytes, source: Endpoint)
    requires ParseOuterFrame(datagram) == Some(outer) && outer.identity.wireType == 1
    ensures M25.Decode(datagram, source).Some? && M25.Decode(datagram, source).value.kind.StateKind?
       <==> ValidState(1, outer.payload)
  {
    hide ParseOuterFrame, FromBytes;
  }

  lemma A5A0LayoutsAgree(outer: OuterFrame, datagram: bytes, source: Endpoint)
    requires ParseOuterFrame(datagram) == Some(outer) && outer.identity.wireType == 2
    ensures A5A0.Decode(datagram, source).Some? && A5A0.Decode(datagram, source).value.kind.StateKind?
       <==> ValidState(2, outer.payload)
  {
    hide ParseOuterFrame, A5A0.DecodeState, A5A0.CurrentRecord;
    CurrentRecordAgrees(outer.payload);
  }

  lemma CurrentRecordAgrees(p: bytes)
    ensures A5A0.CurrentRecord(p).Some? <==> ValidState(2, p)
  {
    assert A5A0.STATE_PREFIX <= p <==> |p| >= 3 && p[..3] == A5A0.STATE_PREFIX;
  }

  lemma F072DecodesToState(
    model: DeviceModel, family: F072.F072Family, outer: OuterFrame, datagram: bytes, source: Endpoint)
    requires ParseOuterFrame(datagram) == Some(outer) && outer.identity.wireType == F072.WireType(family)
    requires FamilyForModel(model) == family
    ensures DecodesToState(model, datagram, source) <==> ValidState(outer.identity.wireType, outer.payload)
  {
    hide ParseOuterFrame, ValidState, F072.ResponseData, F072.DecodeX50State, F072.DecodeG30State, FamilyForModel;
    F072LayoutsAgree(outer.identity.wireType, outer.payload);
  }

  function WireFamily(wireType: byte): Family
  {
    match wireType
    case 1 => FamilyM25
    case 2 => FamilyA5A0
    case 3 => FamilyX50
    case _ => FamilyG30
  }

  lemma F072LayoutsAgree(wireType: byte, p: bytes)
    requires wireType in {3, 4}
    ensures ValidState(wireType, p)
       <==> F072.ResponseData(p).Some? && |F072.ResponseData(p).value| >= (if wireType == 3 then 30 else 29)
  {
    hide Crc;
  }

  /**
   * The two validators agree on every datagram: for a datagram with operation 0x04 that comes
   * from the expected source with the expected MAC and an allowed wire type, the passive
   * validator accepts it if and only if the runtime codec of that wire type decodes a state.
   */
  lemma {:induction false} ValidatorsAgree(
    datagram: bytes, source: Endpoint, host: string, mac: Mac, wireTypes: set<int>, model: DeviceModel)
    requires source == Endpoint(host, 11530)
    requires ParseOuterFrame(datagram).Some?
    requires var f := ParseOuterFrame(datagram).value;
      f.operation == 0x04 && f.identity.mac == mac && f.identity.wireType in wireTypes
      && 1 <= f.identity.wireType <= 4 && FamilyForModel(model) == WireFamily(f.identity.wireType)
    ensures DecodePassiveStatus(datagram, source, host, mac, wireTypes).Some?
       <==> DecodesToState(model, datagram, source)
  {
    hide ParseOuterFrame, ValidState, DecodesToState;
    StateLayoutsAgree(model, ParseOuterFrame(datagram).value, datagram, source);
  }

  lemma NoLayout(outer: OuterFrame)
    requires !(1 <= outer.identity.wireType <= 4)
    ensures !ValidState(outer.identity.wireType, outer.payload)
  {}

  /** Whatever else it is sent, the passive validator accepts only what some codec decodes to a state. */
  lemma PassiveAcceptanceIsSound(
    datagram: bytes, source: Endpoint, host: string, mac: Mac, wireTypes: set<int>)
    requires DecodePassiveStatus(datagram, source, host, mac, wireTypes).Some?
    ensures ParseOuterFrame(datagram).Some?
    ensures var model := ModelForWireType(ParseOuterFrame(datagram).value.identity.wireType);
      model.Some? && DecodesToState(model.value, datagram, source)
    ensures var r := DecodePassiveStatus(datagram, source, host, mac, wireTypes).value;
      r.mac == mac && r.wireType in wireTypes && source == Endpoint(r.host, 11530)
    ensures var r, f := DecodePassiveStatus(datagram, source, host, mac, wireTypes).value, ParseOuterFrame(datagram).value;
      && f.operation == 0x04
      && r == DiscoveryResult(host, f.identity.mac, f.identity.company, f.identity.wireType, f.identity.auth)
  {
    hide ParseOuterFrame, DecodesToState, ValidState;
    if !(1 <= ParseOuterFrame(datagram).value.identity.wireType <= 4) { NoLayout(ParseOuterFrame(datagram).value); }
    var f := ParseOuterFrame(datagram).value;
    StateLayoutsAgree(ModelForWireType(f.identity.wireType).value, f, datagram, source);
  }

  /** A wire type outside 1..4 is accepted by neither side. */
  lemma UnknownWireTypes(
    datagram: bytes, source: Endpoint, host: string, mac: Mac, wireTypes: set<int>, model: DeviceModel)
    requires ParseOuterFrame(datagram).Some?
    requires !(1 <= ParseOuterFrame(datagram).value.identity.wireType <= 4)
    ensures DecodePassiveStatus(datagram, source, host, mac, wireTypes).None?
    ensures Decode(model, datagram, source).None?
  {
    hide ParseOuterFrame, F072.ResponseData;
  }
}
