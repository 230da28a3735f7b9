/**
 * The reply waits of the client (transport.py): a wait is registered before its first datagram
 * is sent, is completed by a confirming state, by closing or by its last timeout, and receives
 * every accepted datagram in between.  A step is what runs between two awaits.
 */
module Requests {
  import opened Bytes
  import opened Models
  import opened DuplicateCache
  import Codecs
  import M25

  /** The future of a wait. */
  datatype Reply = Awaited | Answered(state: DeviceState) | Failed(error: Error) | Dropped

  /** `Ended(None)` is a wait whose task was cancelled. */
  datatype Phase = Sleeping | Waiting | Ended(outcome: Option<Outcome>)

  datatype Request = Request(
    command: Option<Command>,
    kind: PacketKind,
    datagrams: seq<bytes>,
    outerSequences: set<u16>,
    innerSequences: set<u16>,
    createdAt: real,
    retries: nat,
    paced: bool,
    reply: Reply,
    phase: Phase,
    attempt: nat,
    index: nat,
    sent: nat,
    firstContext: nat)

  /** The fields of the client that requests read and write; `contexts` and `heard` are history. */
  datatype Client = Client(
    model: DeviceModel,
    port: u16,
    host: string,
    identity: Identity,
    connected: bool,
    closed: bool,
    now: real,
    state: Option<DeviceState>,
    available: bool,
    lastStateAt: Option<real>,
    outerSequence: u16,
    innerSequence: u16,
    requests: seq<Request>,
    pending: seq<nat>,
    recent: Arrivals,
    contexts: nat,
    heard: seq<DeviceState>)

  function Fresh(model: DeviceModel, identity: Identity, host: string, port: u16): Client
  {
    Client(model, port, host, identity, false, false, 0.0, None, false, None, 0, 0, [], [], [], 0, [])
  }

  // ---------------------------------------------------------------- contexts and encoding

  function CurrentContext(c: Client): Context
  {
    Context(c.identity, c.outerSequence, c.innerSequence, Some(c.model), 0x04)
  }

  /** _next_context. */
  function TakeContext(c: Client): Client
  {
    c.(outerSequence := (c.outerSequence + 1) % 0x1_0000,
       innerSequence := (c.innerSequence + 1) % 0x1_0000,
       contexts := c.contexts + 1)
  }

  function ConfirmingQuery(c: Client, command: Command): Result<bytes>
  {
    if Codecs.ExpectedKind(c.model, command).BacklightKind? then M25.EncodeBacklightQuery(CurrentContext(c))
    else Codecs.EncodeQuery(c.model, CurrentContext(c))
  }

  function NewRequest(
    c: Client, command: Option<Command>, kind: PacketKind, datagrams: seq<bytes>,
    outers: set<u16>, inners: set<u16>, retries: nat, paced: bool, at: real
  ): Request
  {
    Request(command, kind, datagrams, outers, inners, at, retries, paced, Awaited, Sleeping, 0, 0, 0, c.contexts)
  }

  /** _execute_command up to the registration of its wait. */
  function PrepareCommand(c: Client, command: Command, at: real): (Client, Result<Request>)
  {
    if c.closed then (c, Err(ClientClosed))
    else
      var first := Codecs.EncodeCommand(c.model, CurrentContext(c), command);
      var c1 := TakeContext(c);
      if first.Err? then (c1, Err(first.error))
      else
        var second := ConfirmingQuery(c1, command);
        var c2 := TakeContext(c1);
        if second.Err? then (c2, Err(second.error))
        else
          (c2, Ok(NewRequest(c, Some(command), Codecs.ExpectedKind(c.model, command), [first.value, second.value],
                             {c.outerSequence, c1.outerSequence}, {c.innerSequence, c1.innerSequence}, 3, true, at)))
  }

  /** refresh up to the registration of its wait; the M25 asks for its backlight as well. */
  function PrepareRefresh(c: Client, at: real): (Client, Result<Request>)
  {
    if c.closed then (c, Err(ClientClosed))
    else
      var first := Codecs.EncodeQuery(c.model, CurrentContext(c));
      var c1 := TakeContext(c);
      if first.Err? then (c1, Err(first.error))
      else if !FamilyForModel(c.model).FamilyM25? then
        (c1, Ok(NewRequest(c, None, StateKind, [first.value], {c.outerSequence}, {c.innerSequence}, 2, false, at)))
      else
        var second := M25.EncodeBacklightQuery(CurrentContext(c1));
        var c2 := TakeContext(c1);
        if second.Err? then (c2, Err(second.error))
        else
          (c2, Ok(NewRequest(c, None, StateKind, [first.value, second.value],
                             {c.outerSequence, c1.outerSequence}, {c.innerSequence, c1.innerSequence}, 2, false, at)))
  }

  // ---------------------------------------------------------------- sending and waiting

  function Remove(pending: seq<nat>, i: nat): seq<nat>
  {
    if pending == [] then []
    else if pending[0] == i then pending[1..]
    else [pending[0]] + Remove(pending[1..], i)
  }

  /** The `finally` of _send_for_state: an undecided future is cancelled. */
  function Finish(r: Request, outcome: Option<Outcome>): Request
  {
    r.(phase := Ended(outcome), reply := if r.reply.Awaited? then Dropped else r.reply)
  }

  /** The sending loop of one attempt from datagram `index` on, as far as the next await. */
  function SendFrom(r: Request, closed: bool, connected: bool, index: nat, failAt: Option<nat>): Request
    decreases |r.datagrams| - index
  {
    if index >= |r.datagrams| then r.(phase := Waiting, index := index)
    else if closed then Finish(r, Some(CLOSED))
    else if !connected then Finish(r, Some(Failure(DeviceUnavailable)))
    else
      var r1 := r.(sent := r.sent + 1);
      if failAt == Some(index) then Finish(r1, Some(Failure(DeviceUnavailable)))
      else if r.paced && index + 1 < |r.datagrams| then r1.(phase := Sleeping, index := index + 1)
      else SendFrom(r1, closed, connected, index + 1, failAt)
  }

  /** One wait moves on; when it ends it leaves the pending list. */
  function Put(c: Client, i: nat, r: Request): Client
    requires i < |c.requests|
  {
    c.(requests := c.requests[i := r], pending := if r.phase.Ended? then Remove(c.pending, i) else c.pending)
  }

  function End(c: Client, i: nat, outcome: Option<Outcome>): Client
    requires i < |c.requests|
  {
    Put(c, i, Finish(c.requests[i], outcome))
  }

  function Transmit(c: Client, i: nat, index: nat, failAt: Option<nat>): Client
    requires i < |c.requests|
  {
    Put(c, i, SendFrom(c.requests[i], c.closed, c.connected, index, failAt))
  }

  /** Register the wait and send the first datagrams. */
  function Begin(prepared: (Client, Result<Request>), failAt: Option<nat>): Client
  {
    if prepared.1.Err? then prepared.0
    else
      var i := |prepared.0.requests|;
      Transmit(prepared.0.(requests := prepared.0.requests + [prepared.1.value], pending := prepared.0.pending + [i]),
               i, 0, failAt)
  }

  /** A timed-out attempt: the next one, or the end. */
  function Timeout(c: Client, i: nat, failAt: Option<nat>): Client
    requires i < |c.requests|
  {
    var r := c.requests[i];
    if r.attempt + 1 < r.retries then
      Put(c, i, SendFrom(r.(attempt := r.attempt + 1), c.closed, c.connected, 0, failAt))
    else End(c.(available := false), i, Some(Failure(RequestTimeout)))
  }

  /** The wait returns because its future is done. */
  function Wake(c: Client, i: nat): Client
    requires i < |c.requests|
  {
    match c.requests[i].reply
    case Answered(state) => End(c, i, Some(Success(state)))
    case Failed(error) => End(c, i, Some(Failure(error)))
    case _ => c
  }

  // ---------------------------------------------------------------- receiving

  function Newer<T>(received: Option<T>, previous: Option<T>): Option<T>
  {
    if received.Some? then received else previous
  }

  /** _merge_state on two states. */
  function Merge(p: DeviceState, r: DeviceState): DeviceState
  {
    DeviceState(
      Newer(r.mode, p.mode), Newer(r.speed, p.speed), Newer(r.timerHours, p.timerHours),
      Newer(r.timerRemainingMinutes, p.timerRemainingMinutes), Newer(r.airQualityRaw, p.airQualityRaw),
      Newer(r.childLock, p.childLock), Newer(r.displayOn, p.displayOn), Newer(r.power, p.power),
      Newer(r.ptc, p.ptc), Newer(r.pm25, p.pm25), Newer(r.filterTypeRaw, p.filterTypeRaw),
      Newer(r.processedAirM3, p.processedAirM3), Newer(r.purifiedAirM3, p.purifiedAirM3),
      Newer(r.processedAirExponent, p.processedAirExponent), Newer(r.processedAirBase, p.processedAirBase),
      Newer(r.purifiedAirExponent, p.purifiedAirExponent), Newer(r.purifiedAirBase, p.purifiedAirBase),
      Newer(r.temperature, p.temperature), Newer(r.humidity, p.humidity), Newer(r.co2, p.co2),
      Newer(r.airflowM3h, p.airflowM3h), Newer(r.linkageRaw, p.linkageRaw), Newer(r.backlight, p.backlight))
  }

  function MergeState(previous: Option<DeviceState>, incoming: DeviceState): DeviceState
  {
    if previous == None then incoming else Merge(previous.value, incoming)
  }

  /** The tests of _resolve_matching_pending on one registered wait. */
  predicate Matches(model: DeviceModel, r: Request, packet: DecodedPacket, merged: DeviceState, at: real)
  {
    && r.reply.Awaited? && r.createdAt <= at
    && packet.kind == r.kind
    && (packet.sequence in r.outerSequences
        || (packet.innerSequence.Some? && packet.innerSequence.value in r.innerSequences)
        || packet.outerOperation in {0x04, 0x06})
    && (r.command.Some? ==> Codecs.StateConfirms(model, merged, r.command.value))
  }

  function ResolvePending(
    model: DeviceModel, requests: seq<Request>, pending: seq<nat>, packet: DecodedPacket, merged: DeviceState, at: real
  ): (rs: seq<Request>)
    ensures |rs| == |requests|
    ensures forall i :: 0 <= i < |requests| ==>
      rs[i] == if i in pending && Matches(model, requests[i], packet, merged, at)
               then requests[i].(reply := Answered(merged)) else requests[i]
  {
    seq(|requests|, i requires 0 <= i < |requests| =>
      if i in pending && Matches(model, requests[i], packet, merged, at)
      then requests[i].(reply := Answered(merged)) else requests[i])
  }

  /** A validated packet of the configured device. */
  function Accept(c: Client, packet: DecodedPacket, at: real): Client
  {
    var learned := c.(identity := packet.identity, host := packet.source.host);
    if packet.state == None then learned
    else
      var incoming := packet.state.value;
      var merged := if packet.family.FamilyM25? then MergeState(c.state, incoming) else incoming;
      learned.(state := Some(merged), available := true, lastStateAt := Some(at),
               requests := ResolvePending(c.model, c.requests, c.pending, packet, merged, at), heard := c.heard + [incoming])
  }

  /** _datagram_received. */
  function Receive(c: Client, data: bytes, source: Endpoint, at: real): Client
  {
    if c.closed || source.port != c.port then c
    else
      var (recent, novel) := Arrive(c.recent, data, at);
      var c1 := c.(recent := recent, now := at);
      if !novel then c1
      else
        var packet := Codecs.Decode(c.model, data, source);
        if packet == None || packet.value.identity.mac != c.identity.mac then c1
        else Accept(c1, packet.value, at)
  }

  // ---------------------------------------------------------------- closing, and runs

  /** _fail_pending on the registered waits. */
  function FailAll(requests: seq<Request>, pending: seq<nat>): (rs: seq<Request>)
    ensures |rs| == |requests|
    ensures forall i :: 0 <= i < |requests| ==>
      rs[i] == if i in pending && requests[i].reply.Awaited? then requests[i].(reply := Failed(ClientClosed))
               else requests[i]
  {
    seq(|requests|, i requires 0 <= i < |requests| =>
      if i in pending && requests[i].reply.Awaited? then requests[i].(reply := Failed(ClientClosed)) else requests[i])
  }

  /** Closing fails every wait, and the endpoint is given up. */
  function Close(c: Client): Client
  {
    c.(closed := true, connected := false, pending := [], requests := FailAll(c.requests, c.pending))
  }

  datatype Event =
    | Start
    | BeginCommand(command: Command, failAt: Option<nat>, at: real)
    | BeginRefresh(failAt: Option<nat>, at: real)
    | SleepDone(request: nat, failAt: Option<nat>)
    | TimedOut(request: nat, failAt: Option<nat>)
    | Woken(request: nat)
    | Cancelled(request: nat)
    | Received(data: bytes, source: Endpoint, at: real)
    | Closed

  predicate Enabled(c: Client, e: Event)
  {
    match e
    case Start => !c.closed
    case BeginCommand(_, _, at) => c.now <= at && (c.connected || c.closed)
    case BeginRefresh(_, at) => c.now <= at && (c.connected || c.closed)
    case SleepDone(i, _) => i < |c.requests| && c.requests[i].phase.Sleeping?
    case TimedOut(i, _) => i < |c.requests| && c.requests[i].phase.Waiting?
    case Woken(i) => i < |c.requests| && c.requests[i].phase.Waiting? && !c.requests[i].reply.Awaited?
    case Cancelled(i) => i < |c.requests| && !c.requests[i].phase.Ended?
    case Received(_, _, at) => c.now <= at && (c.connected || c.closed)
    case Closed => !c.closed
  }

  function Next(c: Client, e: Event): Client
  {
    if !Enabled(c, e) then c
    else
      match e
      case Start => c.(connected := true)
      case BeginCommand(command, failAt, at) => Begin(PrepareCommand(c.(now := at), command, at), failAt)
      case BeginRefresh(failAt, at) => Begin(PrepareRefresh(c.(now := at), at), failAt)
      case SleepDone(i, failAt) => Transmit(c, i, c.requests[i].index, failAt)
      case TimedOut(i, failAt) => Timeout(c, i, failAt)
      case Woken(i) => Wake(c, i)
      case Cancelled(i) => End(c, i, None)
      case Received(data, source, at) => Receive(c, data, source, at)
      case Closed => Close(c)
  }

  function Run(start: Client, events: seq<Event>): Client
  {
    if events == [] then start else Next(Run(start, events[..|events| - 1]), events[|events| - 1])
  }
}
