/** The typed values of the local protocol, as far as they travel between the modules here. */
module Models {
  import opened Bytes

  datatype DeviceModel = M25 | X83 | G30 | X83C | X50 | X50S | X83CPlus | X60 | X70 | G45

  datatype Family = FamilyM25 | FamilyA5A0 | FamilyX50 | FamilyG30

  function FamilyForModel(model: DeviceModel): Family
  {
    match model
    case M25 => FamilyM25
    case X83 | X83C | X83CPlus => FamilyA5A0
    case X50 | X50S | X60 | X70 => FamilyX50
    case G30 | G45 => FamilyG30
  }

  datatype PowerState = Off | On

  datatype PacketKind = StateKind | AckKind | DiscoveryKind | BacklightKind

  datatype Operation =
    | Mode | Speed | Ptc | Timer | ChildLock | Display | FilterOperation
    | Power | Airflow | Percentage | Backlight

  type Mac = m: bytes | |m| == 6 witness [0, 0, 0, 0, 0, 0]

  datatype Identity = Identity(mac: Mac, company: byte, wireType: byte, auth: u16)

  datatype Command = Command(operation: Operation, value: u16)
  {
    predicate IsCoalescible()
    {
      operation.Percentage? || operation.Speed?
    }
  }

  datatype Context = Context(
    identity: Identity, outerSequence: u16, innerSequence: u16, model: Option<DeviceModel>, outerOperation: byte)

  datatype Endpoint = Endpoint(host: string, port: u16)

  /** One validated set of observations; `raw_values` is diagnostics and is not modelled. */
  datatype DeviceState = DeviceState(
    mode: Option<int>,
    speed: Option<int>,
    timerHours: Option<int>,
    timerRemainingMinutes: Option<int>,
    airQualityRaw: Option<int>,
    childLock: Option<bool>,
    displayOn: Option<bool>,
    power: Option<PowerState>,
    ptc: Option<int>,
    pm25: Option<int>,
    filterTypeRaw: Option<int>,
    processedAirM3: Option<int>,
    purifiedAirM3: Option<int>,
    processedAirExponent: Option<int>,
    processedAirBase: Option<int>,
    purifiedAirExponent: Option<int>,
    purifiedAirBase: Option<int>,
    temperature: Option<int>,
    humidity: Option<int>,
    co2: Option<int>,
    airflowM3h: Option<int>,
    linkageRaw: Option<int>,
    backlight: Option<int>)

  const EMPTY_STATE := DeviceState(
    None, None, None, None, None, None, None, None, None, None, None, None,
    None, None, None, None, None, None, None, None, None, None, None)

  datatype DecodedPacket = DecodedPacket(
    identity: Identity,
    sequence: u16,
    kind: PacketKind,
    state: Option<DeviceState>,
    source: Endpoint,
    family: Family,
    innerSequence: Option<u16>,
    outerOperation: byte)

  datatype Error =
    | InvalidCommand | ClientClosed | RequestTimeout | DeviceUnavailable | InvalidValue

  datatype Result<+T> = Ok(value: T) | Err(error: Error)

  /** What a caller of the client is told. */
  datatype Outcome = Success(state: DeviceState) | Failure(error: Error)

  const CLOSED := Failure(ClientClosed)
}
