/** What a success means: which datagram confirmed it, and what the reported state is made of. */
module Confirmation {
  import opened Bytes
  import opened Models
  import opened Requests
  import opened RequestSafety
  import DuplicateCache
  import Codecs
  import F072
  import Framing
  import Confirmability

  // ---------------------------------------------------------------- merging partial states

  datatype Field =
    | FMode | FSpeed | FTimerHours | FTimerRemaining | FAirQuality | FChildLock | FDisplay | FPower | FPtc | FPm25
    | FFilterType | FProcessedAir | FPurifiedAir | FProcessedExponent | FProcessedBase | FPurifiedExponent
    | FPurifiedBase | FTemperature | FHumidity | FCo2 | FAirflow | FLinkage | FBacklight

  datatype Value = Number(n: int) | Flag(b: bool) | Switch(p: PowerState)

  function NumberOf(o: Option<int>): Option<Value>
  {
    if o.Some? then Some(Number(o.value)) else None
  }

  function FlagOf(o: Option<bool>): Option<Value>
  {
    if o.Some? then Some(Flag(o.value)) else None
  }

  function Get(s: DeviceState, f: Field): Option<Value>
  {
    match f
    case FMode => NumberOf(s.mode)
    case FSpeed => NumberOf(s.speed)
    case FTimerHours => NumberOf(s.timerHours)
    case FTimerRemaining => NumberOf(s.timerRemainingMinutes)
    case FAirQuality => NumberOf(s.airQualityRaw)
    case FChildLock => FlagOf(s.childLock)
    case FDisplay => FlagOf(s.displayOn)
    case FPower => if s.power.Some? then Some(Switch(s.power.value)) else None
    case FPtc => NumberOf(s.ptc)
    case FPm25 => NumberOf(s.pm25)
    case FFilterType => NumberOf(s.filterTypeRaw)
    case FProcessedAir => NumberOf(s.processedAirM3)
    case FPurifiedAir => NumberOf(s.purifiedAirM3)
    case FProcessedExponent => NumberOf(s.processedAirExponent)
    case FProcessedBase => NumberOf(s.processedAirBase)
    case FPurifiedExponent => NumberOf(s.purifiedAirExponent)
    case FPurifiedBase => NumberOf(s.purifiedAirBase)
    case FTemperature => NumberOf(s.temperature)
    case FHumidity => NumberOf(s.humidity)
    case FCo2 => NumberOf(s.co2)
    case FAirflow => NumberOf(s.airflowM3h)
    case FLinkage => NumberOf(s.linkageRaw)
    case FBacklight => NumberOf(s.backlight)
  }

  /** The value of a field in the last of the states that has one. */
  function Latest(heard: seq<DeviceState>, f: Field): Option<Value>
  {
    if heard == [] then None
    else if Get(heard[|heard| - 1], f).Some? then Get(heard[|heard| - 1], f)
    else Latest(heard[..|heard| - 1], f)
  }

  /** The state of the client is the last one heard, for an M25 completed from the earlier ones. */
  ghost predicate StateIsHeard(c: Client)
  {
    if c.heard == [] then c.state == None
    else
      && c.state.Some?
      && (!FamilyForModel(c.model).FamilyM25? ==> c.state.value == c.heard[|c.heard| - 1])
      && (FamilyForModel(c.model).FamilyM25? ==> forall f :: Get(c.state.value, f) == Latest(c.heard, f))
  }

  lemma MergeGet(previous: DeviceState, incoming: DeviceState, f: Field)
    ensures Get(Merge(previous, incoming), f)
         == if Get(incoming, f).Some? then Get(incoming, f) else Get(previous, f)
  {}

  lemma LatestStep(heard: seq<DeviceState>, incoming: DeviceState, f: Field)
    ensures Latest(heard + [incoming], f) == if Get(incoming, f).Some? then Get(incoming, f) else Latest(heard, f)
  {
    hide Get;
    assert (heard + [incoming])[..|heard|] == heard;
  }

  lemma MergeTakesTheLatest(heard: seq<DeviceState>, state: Option<DeviceState>, incoming: DeviceState, f: Field)
    requires if state.Some? then Get(state.value, f) == Latest(heard, f) else heard == []
    ensures Get(MergeState(state, incoming), f) == Latest(heard + [incoming], f)
  {
    hide Get, Merge;
    LatestStep(heard, incoming, f);
    if state.Some? {
      MergeGet(state.value, incoming, f);
    }
  }

  /** The last attempt of a wait times out. */
  predicate GivesUp(c: Client, e: Event)
  {
    e.TimedOut? && Enabled(c, e) && c.requests[e.request].attempt + 1 >= c.requests[e.request].retries
  }

  /** What a step leaves that receives nothing. */
  predicate SameAvailability(c: Client, c': Client)
  {
    c'.available == c.available && c'.lastStateAt == c.lastStateAt && c'.state == c.state && c'.heard == c.heard
    && c'.host == c.host && c'.identity == c.identity && c'.model == c.model
  }

  lemma {:induction false} QuietStep(c: Client, e: Event)
    requires !e.Received?
    ensures SameAvailability(c.(available := c.available && !GivesUp(c, e)), Next(c, e))
  {
    hide PrepareCommand, PrepareRefresh, SendFrom, Remove, Begin;
    if e.BeginCommand? {
      PrepareKeepsAvailability(c.(now := e.at), e.command, e.at);
      BeginKeepsAvailability(PrepareCommand(c.(now := e.at), e.command, e.at), e.failAt);
    } else if e.BeginRefresh? {
      PrepareKeepsAvailability(c.(now := e.at), Command(Power, 0), e.at);
      BeginKeepsAvailability(PrepareRefresh(c.(now := e.at), e.at), e.failAt);
    }
  }

  lemma BeginKeepsAvailability(prepared: (Client, Result<Request>), failAt: Option<nat>)
    ensures SameAvailability(prepared.0, Begin(prepared, failAt))
  {
    hide SendFrom, Remove;
  }

  lemma PrepareKeepsAvailability(c: Client, command: Command, at: real)
    ensures SameAvailability(c, PrepareCommand(c, command, at).0) && SameAvailability(c, PrepareRefresh(c, at).0)
  {
    hide Codecs.EncodeCommand, Codecs.EncodeQuery, ConfirmingQuery;
  }

  lemma {:induction false} StepKeepsHeard(c: Client, e: Event)
    requires StateIsHeard(c)
    ensures StateIsHeard(Next(c, e))
  {
    if e.Received? {
      ReceiveKeepsHeard(c, e.data, e.source, e.at);
      hide StateIsHeard, Receive;
    } else {
      QuietStep(c, e);
      hide Next, Get, Latest;
    }
  }

  lemma {:induction false} ReceiveKeepsHeard(c: Client, data: bytes, source: Endpoint, at: real)
    requires StateIsHeard(c)
    ensures StateIsHeard(Receive(c, data, source, at))
  {
    hide Get, Merge, MergeState, ResolvePending, DuplicateCache.Arrive, Codecs.Decode;
    var packet := Codecs.Decode(c.model, data, source);
    var c' := Receive(c, data, source, at);
    if c'.heard != c.heard {
      Codecs.DecodedPackets(c.model, data, source);
      var incoming := packet.value.state.value;
      assert c'.heard == c.heard + [incoming];
      if FamilyForModel(c.model).FamilyM25? {
        forall f ensures Get(c'.state.value, f) == Latest(c'.heard, f) {
          MergeTakesTheLatest(c.heard, c.state, incoming, f);
        }
      }
    }
  }

  /** On every run each reported field is the latest value that was received for it. */
  lemma {:induction false} ReportedFieldsAreTheLatest(start: Client, events: seq<Event>)
    requires Initial(start)
    ensures StateIsHeard(Run(start, events))
  {
    hide Next;
    if events != [] {
      ReportedFieldsAreTheLatest(start, events[..|events| - 1]);
      StepKeepsHeard(Run(start, events[..|events| - 1]), events[|events| - 1]);
    }
  }

  // ---------------------------------------------------------------- what a success means

  /** The datagram of this step confirms the wait, by its own fields. */
  predicate ConfirmedBy(c: Client, e: Event, i: nat)
    requires i < |c.requests|
  {
    && e.Received? && Enabled(c, e) && !c.closed && i in c.pending
    && var r := c.requests[i];
    && var packet := Codecs.Decode(c.model, e.data, e.source);
    && r.reply.Awaited? && r.createdAt <= e.at && e.source.port == c.port
    && packet.Some? && packet.value.identity.mac == c.identity.mac
    && packet.value.kind == r.kind && packet.value.state.Some?
    && (packet.value.sequence in r.outerSequences || packet.value.outerOperation in {0x04, 0x06})
    && (r.command.Some? ==> Codecs.StateConfirms(c.model, packet.value.state.value, r.command.value))
  }

  /** For every family but the M25 the merged state is the packet's own. */
  lemma OwnStateConfirms(c: Client, r: Request, packet: DecodedPacket, merged: DeviceState, at: real)
    requires packet.family == FamilyForModel(c.model) && packet.state.Some?
    requires packet.kind.BacklightKind? ==> packet.state.value.backlight.Some?
    requires merged == if packet.family.FamilyM25? then MergeState(c.state, packet.state.value) else packet.state.value
    requires Typed(c.model, r) && Matches(c.model, r, packet, merged, at) && r.command.Some?
    ensures Codecs.StateConfirms(c.model, packet.state.value, r.command.value)
  {
  }

  lemma DecodedHasNoInner(model: DeviceModel, data: bytes, source: Endpoint)
    requires Codecs.Decode(model, data, source).Some?
    ensures Codecs.Decode(model, data, source).value.innerSequence == None
  {
    hide Framing.ParseOuterFrame, F072.ResponseData;
  }

  lemma {:induction false} AcceptedMatches(c: Client, packet: DecodedPacket, at: real, i: nat)
    requires i < |c.requests|
    requires Accept(c, packet, at).requests[i].reply.Answered? && !c.requests[i].reply.Answered?
    ensures packet.state.Some? && i in c.pending
    ensures var merged := if packet.family.FamilyM25? then MergeState(c.state, packet.state.value) else packet.state.value;
      && Matches(c.model, c.requests[i], packet, merged, at)
      && Accept(c, packet, at).state == Some(merged) && Accept(c, packet, at).requests[i].reply.state == merged
  {
    hide Matches, MergeState;
  }

  lemma {:induction false} ReceivedConfirms(c: Client, data: bytes, source: Endpoint, at: real, i: nat)
    requires i < |c.requests| && Typed(c.model, c.requests[i]) && c.now <= at && (c.connected || c.closed)
    requires Receive(c, data, source, at).requests[i].reply.Answered? && !c.requests[i].reply.Answered?
    ensures ConfirmedBy(c, Received(data, source, at), i)
    ensures Receive(c, data, source, at).state == Some(Receive(c, data, source, at).requests[i].reply.state)
  {
    hide DuplicateCache.Arrive, Codecs.Decode, Codecs.StateConfirms, MergeState, Typed, Accept;
    var packet := Codecs.Decode(c.model, data, source).value;
    var c1 := c.(recent := DuplicateCache.Arrive(c.recent, data, at).0, now := at);
    AcceptedMatches(c1, packet, at, i);
    var merged := if packet.family.FamilyM25? then MergeState(c.state, packet.state.value) else packet.state.value;
    Codecs.DecodedPackets(c.model, data, source);
    DecodedHasNoInner(c.model, data, source);
    if c.requests[i].command.Some? {
      OwnStateConfirms(c, c.requests[i], packet, merged, at);
    }
  }

  lemma ReceiveStep(c: Client, e: Event)
    requires Enabled(c, e) && e.Received?
    ensures Next(c, e) == Receive(c, e.data, e.source, e.at) && c.now <= e.at && (c.connected || c.closed)
  {}

  lemma TypedRequest(c: Client, i: nat)
    requires Inv(c) && i < |c.requests|
    ensures Typed(c.model, c.requests[i]) && RequestOk(c, c.requests[i])
  {
    assert RequestOk(c, c.requests[i]);
  }

  /** A wait is answered only by a received datagram that confirms it. */
  lemma {:induction false} AnsweredOnlyWhenConfirmed(c: Client, e: Event, i: nat)
    requires Inv(c) && i < |c.requests| && i < |Next(c, e).requests|
    requires Next(c, e).requests[i].reply.Answered? && !c.requests[i].reply.Answered?
    ensures ConfirmedBy(c, e, i)
    ensures Next(c, e).state == Some(Next(c, e).requests[i].reply.state)
  {
    TypedRequest(c, i);
    if !Enabled(c, e) {
      UnchangedWhenDisabled(c, e);
    }
    hide Inv, RequestOk, Next, ConfirmedBy, Typed, Enabled;
    if OwnEvent(e, i) {
      OwnStepAdvances(c, e, i);
    } else {
      ForeignStepAdvances(c, e, i);
      ReceiveStep(c, e);
      ReceivedConfirms(c, e.data, e.source, e.at, i);
    }
  }

  lemma {:induction false} NewWaitIsUnanswered(r: Request, closed: bool, connected: bool, index: nat, failAt: Option<nat>)
    requires !r.reply.Answered?
    ensures !SendFrom(r, closed, connected, index, failAt).reply.Answered?
  {
    SendFromReply(r, closed, connected, index, failAt);
  }

  lemma BegunUnanswered(prepared: (Client, Result<Request>), failAt: Option<nat>, i: nat)
    requires |prepared.0.requests| <= i < |Begin(prepared, failAt).requests|
    requires prepared.1.Ok? ==> prepared.1.value.reply.Awaited?
    ensures !Begin(prepared, failAt).requests[i].reply.Answered?
  {
    hide SendFrom, Remove;
    if prepared.1.Ok? {
      NewWaitIsUnanswered(prepared.1.value, prepared.0.closed, prepared.0.connected, 0, failAt);
    }
  }

  /** A wait that begins with this step is not answered by it. */
  lemma NothingIsAnsweredAtOnce(c: Client, e: Event, i: nat)
    requires |c.requests| <= i < |Next(c, e).requests|
    ensures !Next(c, e).requests[i].reply.Answered?
  {
    hide Begin, PrepareCommand, PrepareRefresh, SendFrom, Remove, DuplicateCache.Arrive, Codecs.Decode, MergeState, Matches;
    if e.BeginCommand? {
      PreparedIsAwaited(c.(now := e.at), e.command, e.at);
      PrepareKeepsRequests(c.(now := e.at), e.command, e.at);
      BegunUnanswered(PrepareCommand(c.(now := e.at), e.command, e.at), e.failAt, i);
    } else if e.BeginRefresh? {
      PreparedIsAwaited(c.(now := e.at), Command(Power, 0), e.at);
      PrepareKeepsRequests(c.(now := e.at), Command(Power, 0), e.at);
      BegunUnanswered(PrepareRefresh(c.(now := e.at), e.at), e.failAt, i);
    }
  }

  lemma PreparedIsAwaited(c: Client, command: Command, at: real)
    ensures var r := PrepareCommand(c, command, at).1; r.Ok? ==> r.value.reply.Awaited?
    ensures var r := PrepareRefresh(c, at).1; r.Ok? ==> r.value.reply.Awaited?
  {
    hide Codecs.EncodeCommand, Codecs.EncodeQuery, ConfirmingQuery;
  }

  /** Step n of the run, from the configured MAC, confirms wait i, which was registered before, with the state that it reports. */
  ghost predicate ConfirmedAt(start: Client, events: seq<Event>, n: nat, i: nat, state: DeviceState)
  {
    && n < |events|
    && var before := Run(start, events[..n]);
    && i < |before.requests| && ConfirmedBy(before, events[n], i) && before.identity.mac == start.identity.mac
    && Run(start, events[..n + 1]).state == Some(state)
  }

  /**
   * On every run a wait that was answered was confirmed by one datagram that arrived after the
   * wait was registered, from the configured MAC and of the expected kind, whose own decoded
   * fields show what was commanded; the reported state is the client's state at that step.
   */
  lemma {:induction false} ConfirmationIsSound(start: Client, events: seq<Event>, i: nat)
    requires Initial(start) && i < |Run(start, events).requests|
    requires Run(start, events).requests[i].reply.Answered?
    ensures exists n: nat :: ConfirmedAt(start, events, n, i, Run(start, events).requests[i].reply.state)
  {
    hide Next, ConfirmedBy;
    if events != [] {
      var init, e := events[..|events| - 1], events[|events| - 1];
      var c, state := Run(start, init), Run(start, events).requests[i].reply.state;
      assert events[..|init|] == init && events[..|init| + 1] == events;
      assert Run(start, events) == Next(c, e);
      RunFromInitial(start, init);
      if i >= |c.requests| {
        NothingIsAnsweredAtOnce(c, e, i);
      } else if !c.requests[i].reply.Answered? {
        AnsweredOnlyWhenConfirmed(c, e, i);
        MacNeverChanges(start, init);
        assert ConfirmedAt(start, events, |init|, i, state);
      } else {
        hide Run;
        CompletedAtMostOnce(c, e, i);
        ConfirmationIsSound(start, init, i);
        var n: nat :| ConfirmedAt(start, init, n, i, state);
        assert init[..n] == events[..n] && init[..n + 1] == events[..n + 1];
        assert ConfirmedAt(start, events, n, i, state);
      }
    }
  }

  /** The MAC that the client was configured with never changes. */
  lemma {:induction false} MacNeverChanges(start: Client, events: seq<Event>)
    ensures Run(start, events).identity.mac == start.identity.mac
    ensures Run(start, events).model == start.model && Run(start, events).port == start.port
  {
    hide Next;
    if events != [] {
      MacNeverChanges(start, events[..|events| - 1]);
      StepKeepsMac(Run(start, events[..|events| - 1]), events[|events| - 1]);
    }
  }

  /** What no step changes. */
  predicate SameDevice(c: Client, c': Client)
  {
    c'.identity.mac == c.identity.mac && c'.model == c.model && c'.port == c.port
  }

  lemma StepKeepsMac(c: Client, e: Event)
    ensures SameDevice(c, Next(c, e))
  {
    hide SendFrom, Remove, PrepareCommand, PrepareRefresh, Receive;
    if Enabled(c, e) {
      match e
      case BeginCommand(command, failAt, at) => PrepareKeepsDevice(c.(now := at), command, at);
      case BeginRefresh(failAt, at) => PrepareKeepsDevice(c.(now := at), Command(Power, 0), at);
      case Received(data, source, at) => ReceiveKeepsDevice(c, data, source, at);
      case _ =>
    }
  }

  lemma PrepareKeepsDevice(c: Client, command: Command, at: real)
    ensures SameDevice(c, PrepareCommand(c, command, at).0) && SameDevice(c, PrepareRefresh(c, at).0)
  {
    hide Codecs.EncodeCommand, Codecs.EncodeQuery, ConfirmingQuery;
  }

  lemma ReceiveKeepsDevice(c: Client, data: bytes, source: Endpoint, at: real)
    ensures SameDevice(c, Receive(c, data, source, at))
  {
    hide ResolvePending, DuplicateCache.Arrive, Codecs.Decode, MergeState;
  }

  /** A command that returned a state was answered: success is never reported without confirmation. */
  lemma SuccessIsConfirmed(start: Client, events: seq<Event>, i: nat, state: DeviceState)
    requires Initial(start) && i < |Run(start, events).requests|
    requires Run(start, events).requests[i].phase == Ended(Some(Success(state)))
    ensures exists n: nat :: ConfirmedAt(start, events, n, i, state)
  {
    RunFromInitial(start, events);
    TypedRequest(Run(start, events), i);
    hide Run, Inv, ConfirmedAt, Typed;
    ConfirmationIsSound(start, events, i);
  }

  lemma SpeedZeroIsNotConfirmed(c: Client, e: Event, i: nat)
    requires FamilyForModel(c.model).FamilyX50? && i < |c.requests|
    requires c.requests[i].command == Some(Command(Speed, 0))
    ensures !ConfirmedBy(c, e, i)
  {
    hide Codecs.Decode, Enabled;
    if e.Received? {
      var packet := Codecs.Decode(c.model, e.data, e.source);
      if packet.Some? && packet.value.state.Some? {
        Confirmability.NoStateShowsSpeedZero(c.model, e.data, e.source);
      }
    }
  }

  /** Speed zero can be sent to an X50 but no run ever confirms it. */
  lemma {:induction false} SpeedZeroNeverSucceeds(start: Client, events: seq<Event>, i: nat)
    requires Initial(start) && FamilyForModel(start.model).FamilyX50? && i < |Run(start, events).requests|
    requires Run(start, events).requests[i].command == Some(Command(Speed, 0))
    ensures !Run(start, events).requests[i].reply.Answered?
  {
    hide ConfirmedBy, Initial, FamilyForModel;
    if Run(start, events).requests[i].reply.Answered? {
      ConfirmationIsSound(start, events, i);
      var n: nat :| ConfirmedAt(start, events, n, i, Run(start, events).requests[i].reply.state);
      CommandIsFixed(start, events, n, i);
      MacNeverChanges(start, events[..n]);
      hide Run;
      SpeedZeroIsNotConfirmed(Run(start, events[..n]), events[n], i);
    }
  }

  lemma {:induction false} CommandIsFixed(start: Client, events: seq<Event>, n: nat, i: nat)
    requires Initial(start) && n <= |events| && i < |Run(start, events[..n]).requests|
    ensures i < |Run(start, events).requests|
    ensures Run(start, events).requests[i].command == Run(start, events[..n]).requests[i].command
    decreases |events|
  {
    hide Next;
    if n == |events| {
      assert events[..n] == events;
    } else {
      var init, e := events[..|events| - 1], events[|events| - 1];
      assert init[..n] == events[..n];
      CommandIsFixed(start, init, n, i);
      RunFromInitial(start, init);
      CompletedAtMostOnce(Run(start, init), e, i);
    }
  }

  // ---------------------------------------------------------------- the duplicate cache in the client

  predicate Offers(c: Client, e: Event)
  {
    e.Received? && Enabled(c, e) && !c.closed && e.source.port == c.port
  }

  /** The datagrams of a run that reach the duplicate check, with their arrival times. */
  function Offered(start: Client, events: seq<Event>): DuplicateCache.Arrivals
  {
    if events == [] then []
    else
      var init, e := events[..|events| - 1], events[|events| - 1];
      if Offers(Run(start, init), e) then Offered(start, init) + [DuplicateCache.Arrival(e.data, e.at)]
      else Offered(start, init)
  }

  /** The client's cache is the bounded cache of what was offered to it, on a clock that runs forwards. */
  lemma {:induction false} ClientRunsTheCache(start: Client, events: seq<Event>)
    requires Initial(start)
    ensures Run(start, events).recent == DuplicateCache.Run(Offered(start, events)).cache
    ensures DuplicateCache.ClockRuns(Offered(start, events)) && 0.0 <= Run(start, events).now
    ensures forall a :: a in Offered(start, events) ==> a.at <= Run(start, events).now
  {
    if events != [] {
      var init, e := events[..|events| - 1], events[|events| - 1];
      var c, before := Run(start, init), Offered(start, init);
      ClientRunsTheCache(start, init);
      assert Run(start, events) == Next(c, e);
      StepOffers(c, e);
      hide Next, Run, Offers;
      if Offers(c, e) {
        OfferedStep(before, DuplicateCache.Arrival(e.data, e.at));
      }
    }
  }

  lemma OfferedStep(before: DuplicateCache.Arrivals, a: DuplicateCache.Arrival)
    requires DuplicateCache.ClockRuns(before) && 0.0 <= a.at && forall b :: b in before ==> b.at <= a.at
    ensures DuplicateCache.ClockRuns(before + [a])
    ensures DuplicateCache.Run(before + [a]).cache
         == DuplicateCache.Arrive(DuplicateCache.Run(before).cache, a.data, a.at).0
  {
    assert (before + [a])[..|before|] == before;
    assert forall i :: 0 <= i < |before| ==> before[i] in before;
    hide DuplicateCache.Prune;
  }

  lemma {:induction false} StepOffers(c: Client, e: Event)
    ensures c.now <= Next(c, e).now
    ensures Offers(c, e) ==> e.Received? && e.at <= Next(c, e).now && c.now <= e.at
    ensures Next(c, e).recent == if Offers(c, e) then DuplicateCache.Arrive(c.recent, e.data, e.at).0 else c.recent
  {
    hide PrepareCommand, PrepareRefresh, SendFrom, Remove, ResolvePending, DuplicateCache.Arrive, Codecs.Decode, MergeState;
    if e.BeginCommand? {
      PrepareKeepsClock(c.(now := e.at), e.command, e.at);
    } else if e.BeginRefresh? {
      PrepareKeepsClock(c.(now := e.at), Command(Power, 0), e.at);
    }
  }

  lemma PrepareKeepsClock(c: Client, command: Command, at: real)
    ensures PrepareCommand(c, command, at).0.now == c.now && PrepareCommand(c, command, at).0.recent == c.recent
    ensures PrepareRefresh(c, at).0.now == c.now && PrepareRefresh(c, at).0.recent == c.recent
  {
    hide Codecs.EncodeCommand, Codecs.EncodeQuery, ConfirmingQuery;
  }

  // ---------------------------------------------------------------- availability and learning

  /**
   * The client becomes available, and notes the time, exactly when a validated state arrives; it
   * becomes unavailable exactly when a request times out for good, although it still holds the
   * last state.
   */
  predicate AvailabilityMoves(c: Client, e: Event, c': Client)
  {
    && |c.heard| <= |c'.heard|
    && (|c.heard| < |c'.heard| ==> e.Received? && c'.available && c'.lastStateAt == Some(e.at))
    && (|c.heard| == |c'.heard| ==>
          c'.available == (c.available && !GivesUp(c, e)) && c'.lastStateAt == c.lastStateAt && c'.state == c.state)
  }

  lemma AvailabilityStep(c: Client, e: Event)
    ensures AvailabilityMoves(c, e, Next(c, e))
  {
    if e.Received? {
      hide ResolvePending, DuplicateCache.Arrive, Codecs.Decode, MergeState;
    } else {
      QuietStep(c, e);
      hide Next, GivesUp;
    }
  }

  /** The address and the header fields change only to those of a validated packet with the configured MAC. */
  lemma LearnsOnlyFromTheDevice(c: Client, e: Event)
    requires Next(c, e).host != c.host || Next(c, e).identity != c.identity
    ensures e.Received? && !c.closed && e.source.port == c.port
    ensures var packet := Codecs.Decode(c.model, e.data, e.source);
      && packet.Some? && packet.value.identity.mac == c.identity.mac
      && Next(c, e).identity == packet.value.identity && Next(c, e).host == e.source.host
  {
    if !e.Received? {
      QuietStep(c, e);
      hide Next, GivesUp;
    } else {
      if Codecs.Decode(c.model, e.data, e.source).Some? {
        Codecs.DecodedPackets(c.model, e.data, e.source);
      }
      hide ResolvePending, DuplicateCache.Arrive, Codecs.Decode, MergeState;
    }
  }
}
