/** What every interleaving of replies, timeouts, cancellations and closing keeps of the waits. */
module RequestSafety {
  import opened Bytes
  import opened Models
  import opened Requests
  import Codecs
  import DuplicateCache
  import M25

  predicate Increasing(s: seq<nat>)
  {
    forall i, j :: 0 <= i < j < |s| ==> s[i] < s[j]
  }

  lemma {:induction false} RemoveEffect(pending: seq<nat>, i: nat)
    requires Increasing(pending)
    ensures Increasing(Remove(pending, i))
    ensures forall k: nat :: k in Remove(pending, i) <==> k in pending && k != i
  {
    if pending != [] {
      var rest := pending[1..];
      assert pending == [pending[0]] + rest;
      if pending[0] != i {
        RemoveEffect(rest, i);
        var kept := Remove(rest, i);
        forall j | 0 <= j < |kept| ensures pending[0] < kept[j] {
          assert kept[j] in kept;
        }
      }
    }
  }

  // ---------------------------------------------------------------- one wait

  /** Datagrams of that many complete attempts. */
  function Sends(attempts: nat, n: nat): nat
  {
    if n == 1 then attempts else 2 * attempts
  }

  /** What is sent counts up to the limit of the wait and no further. */
  predicate Counted(r: Request)
  {
    && 1 <= |r.datagrams| <= 2
    && r.attempt < r.retries && r.index <= |r.datagrams|
    && (r.phase.Ended? ==> r.sent <= Sends(r.retries, |r.datagrams|))
    && (!r.phase.Ended? ==> r.sent == Sends(r.attempt, |r.datagrams|) + r.index)
    && (r.phase.Waiting? ==> r.index == |r.datagrams|)
  }

  predicate Settled(r: Request)
  {
    && (r.phase.Ended? ==> !r.reply.Awaited?)
    && (r.reply.Dropped? ==> r.phase.Ended?)
    && (r.phase.Ended? && r.phase.outcome.Some? && r.phase.outcome.value.Success? ==>
          r.reply == Answered(r.phase.outcome.value.state))
  }

  /** The context of a datagram of the wait, under the identity known when it was made. */
  function ContextOf(model: DeviceModel, identity: Identity, number: nat): Context
  {
    Context(identity, number % 0x1_0000, number % 0x1_0000, Some(model), 0x04)
  }

  /** What is sent: the command and the query that confirms it, or the queries of a refresh, each under its own sequence. */
  predicate Carries(model: DeviceModel, r: Request, identity: Identity)
    requires 1 <= |r.datagrams| <= 2
  {
    var first, second := ContextOf(model, identity, r.firstContext), ContextOf(model, identity, r.firstContext + 1);
    match r.command
    case Some(command) =>
      && |r.datagrams| == 2
      && Codecs.EncodeCommand(model, first, command) == Ok(r.datagrams[0])
      && (if r.kind.BacklightKind? then M25.EncodeBacklightQuery(second) else Codecs.EncodeQuery(model, second))
         == Ok(r.datagrams[1])
    case None =>
      && Codecs.EncodeQuery(model, first) == Ok(r.datagrams[0])
      && (|r.datagrams| == 2 ==> M25.EncodeBacklightQuery(second) == Ok(r.datagrams[1]))
  }

  ghost predicate CarriesItsMessages(model: DeviceModel, r: Request)
    requires 1 <= |r.datagrams| <= 2
  {
    exists identity :: Carries(model, r, identity)
  }

  /** The command of a wait is one that its family documents, and the wait is made for it. */
  ghost predicate Typed(model: DeviceModel, r: Request)
  {
    match r.command
    case None =>
      r.retries == 2 && !r.paced && r.kind.StateKind? && |r.datagrams| == (if FamilyForModel(model).FamilyM25? then 2 else 1)
      && CarriesItsMessages(model, r)
    case Some(command) =>
      r.retries == 3 && r.paced && |r.datagrams| == 2 && r.kind == Codecs.ExpectedKind(model, command)
      && (FamilyForModel(model).FamilyM25? <==> command.operation.Backlight?)
      && CarriesItsMessages(model, r)
  }

  /** The sequence numbers of consecutive contexts. */
  function Numbers(first: nat, n: nat): set<u16>
  {
    if n == 1 then {first % 0x1_0000} else {first % 0x1_0000, (first + 1) % 0x1_0000}
  }

  predicate Sequenced(r: Request)
  {
    r.outerSequences == Numbers(r.firstContext, |r.datagrams|) && r.innerSequences == r.outerSequences
  }

  ghost predicate RequestOk(c: Client, r: Request)
  {
    Counted(r) && Settled(r) && Typed(c.model, r) && Sequenced(r)
    && r.firstContext + |r.datagrams| <= c.contexts && r.createdAt <= c.now
    && (c.closed ==> !r.reply.Awaited?)
  }

  // ---------------------------------------------------------------- the invariant

  ghost predicate InOrder(c: Client)
  {
    forall i, j :: 0 <= i < j < |c.requests| ==>
      c.requests[i].firstContext + |c.requests[i].datagrams| <= c.requests[j].firstContext
  }

  ghost predicate PendingOk(c: Client)
  {
    && Increasing(c.pending)
    && (c.closed ==> c.pending == [])
    && (forall i: nat :: i in c.pending <==> i < |c.requests| && !c.requests[i].phase.Ended? && !c.closed)
  }

  ghost predicate Inv(c: Client)
  {
    && c.outerSequence == c.innerSequence == c.contexts % 0x1_0000
    && PendingOk(c) && InOrder(c)
    && (forall i :: 0 <= i < |c.requests| ==> RequestOk(c, c.requests[i]))
  }

  // ---------------------------------------------------------------- steps of one wait

  /** A step of one wait that keeps what was fixed at its registration. */
  predicate SameWait(r: Request, r': Request)
  {
    r' == r.(reply := r'.reply, phase := r'.phase, attempt := r'.attempt, index := r'.index, sent := r'.sent)
  }

  lemma SameMessages(model: DeviceModel, r: Request, r': Request)
    requires SameWait(r, r') && Typed(model, r)
    ensures Typed(model, r')
  {
    hide Codecs.EncodeCommand, Codecs.EncodeQuery;
    var identity :| Carries(model, r, identity);
    assert Carries(model, r', identity);
  }

  lemma {:induction false} PutKeepsInv(c: Client, i: nat, r: Request)
    requires Inv(c) && i < |c.requests| && !c.requests[i].phase.Ended?
    requires SameWait(c.requests[i], r) && Counted(r) && Settled(r) && (c.closed ==> !r.reply.Awaited?)
    ensures Inv(Put(c, i, r))
  {
    RemoveEffect(c.pending, i);
    hide Remove, Increasing, Sequenced, Counted, Settled;
    var c' := Put(c, i, r);
    assert RequestOk(c, c.requests[i]);
    assert InOrder(c');
    assert PendingOk(c');
    SameMessages(c.model, c.requests[i], r);
    hide Typed;
    forall j | 0 <= j < |c'.requests| ensures RequestOk(c', c'.requests[j]) {
      assert RequestOk(c, c.requests[j]);
    }
  }

  /** What the sending loop makes of a wait. */
  lemma {:induction false} SendFromEffect(
    r: Request, closed: bool, connected: bool, index: nat, failAt: Option<nat>)
    requires 1 <= |r.datagrams| <= 2 && index <= |r.datagrams| && r.attempt < r.retries && r.index <= |r.datagrams|
    requires !r.reply.Dropped?
    requires r.sent == Sends(r.attempt, |r.datagrams|) + index
    ensures var r' := SendFrom(r, closed, connected, index, failAt);
      SameWait(r, r') && Counted(r') && Settled(r') && r'.attempt == r.attempt
      && (r'.phase.Sleeping? ==> index < r'.index) && (r'.reply.Awaited? ==> r.reply.Awaited?)
    decreases |r.datagrams| - index
  {
    if index < |r.datagrams| && !closed && connected && failAt != Some(index)
       && !(r.paced && index + 1 < |r.datagrams|) {
      SendFromEffect(r.(sent := r.sent + 1), closed, connected, index + 1, failAt);
      assert SendFrom(r, closed, connected, index, failAt)
          == SendFrom(r.(sent := r.sent + 1), closed, connected, index + 1, failAt);
      hide SendFrom;
    }
  }

  lemma SendKeepsInv(c: Client, i: nat, r: Request, index: nat, failAt: Option<nat>)
    requires Inv(c) && i < |c.requests| && !c.requests[i].phase.Ended?
    requires SameWait(c.requests[i], r) && r.reply == c.requests[i].reply
    requires index <= |r.datagrams| && r.attempt < r.retries && r.index <= |r.datagrams|
    requires r.sent == Sends(r.attempt, |r.datagrams|) + index
    ensures Inv(Put(c, i, SendFrom(r, c.closed, c.connected, index, failAt)))
  {
    hide SendFrom, Put, PendingOk, InOrder;
    assert RequestOk(c, c.requests[i]);
    SendFromEffect(r, c.closed, c.connected, index, failAt);
    PutKeepsInv(c, i, SendFrom(r, c.closed, c.connected, index, failAt));
  }

  lemma EndKeepsInv(c: Client, i: nat, outcome: Option<Outcome>)
    requires Inv(c) && i < |c.requests| && !c.requests[i].phase.Ended?
    requires outcome.Some? && outcome.value.Success? ==> c.requests[i].reply == Answered(outcome.value.state)
    ensures Inv(End(c, i, outcome))
  {
    hide Put, PendingOk, InOrder;
    assert RequestOk(c, c.requests[i]);
    PutKeepsInv(c, i, Finish(c.requests[i], outcome));
  }

  lemma TimeoutKeepsInv(c: Client, i: nat, failAt: Option<nat>)
    requires Inv(c) && i < |c.requests| && c.requests[i].phase.Waiting?
    ensures Inv(Timeout(c, i, failAt))
  {
    hide Put, SendFrom, PendingOk, InOrder, End;
    assert RequestOk(c, c.requests[i]);
    var r := c.requests[i];
    if r.attempt + 1 < r.retries {
      SendKeepsInv(c, i, r.(attempt := r.attempt + 1), 0, failAt);
    } else {
      var c1 := c.(available := false);
      assert Inv(c1) by {
        SameRequests(c, c1);
      }
      EndKeepsInv(c1, i, Some(Failure(RequestTimeout)));
    }
  }

  /** Steps that touch no wait. */
  lemma SameRequests(c: Client, c': Client)
    requires Inv(c)
    requires c'.requests == c.requests && c'.pending == c.pending && c'.contexts == c.contexts
    requires c'.outerSequence == c.outerSequence && c'.innerSequence == c.innerSequence
    requires c'.model == c.model && c'.closed == c.closed && c.now <= c'.now
    ensures Inv(c')
  {
    hide Increasing, Sequenced, Counted, Settled;
    forall j | 0 <= j < |c'.requests| ensures RequestOk(c', c'.requests[j]) {
      assert RequestOk(c, c.requests[j]);
    }
  }

  /** Steps that only complete replies. */
  lemma RepliesKeepInv(c: Client, c': Client)
    requires Inv(c) && |c'.requests| == |c.requests| && c'.contexts == c.contexts
    requires c'.outerSequence == c.outerSequence && c'.innerSequence == c.innerSequence
    requires c'.model == c.model && c.now <= c'.now && (c.closed ==> c'.closed)
    requires forall i :: 0 <= i < |c.requests| ==>
      c'.requests[i] == c.requests[i].(reply := c'.requests[i].reply)
      && (c'.requests[i].reply == c.requests[i].reply
          || (!c.requests[i].phase.Ended? && !c'.requests[i].reply.Awaited? && !c'.requests[i].reply.Dropped?))
      && (c'.closed ==> !c'.requests[i].reply.Awaited?)
    requires c'.pending == if c'.closed then [] else c.pending
    ensures Inv(c')
  {
    assert Increasing([]);
    forall j | 0 <= j < |c'.requests| ensures RequestOk(c', c'.requests[j]) {
      assert RequestOk(c, c.requests[j]);
      SameMessages(c.model, c.requests[j], c'.requests[j]);
    }
  }

  // ---------------------------------------------------------------- the steps of the client

  /** A wait that is registered now. */
  ghost predicate NewWait(c: Client, r: Request)
  {
    && !c.closed && r.reply.Awaited? && r.phase.Sleeping? && r.attempt == r.index == r.sent == 0
    && Typed(c.model, r) && Sequenced(r) && r.firstContext + |r.datagrams| == c.contexts && r.createdAt <= c.now
    && forall j :: 0 <= j < |c.requests| ==> c.requests[j].firstContext + |c.requests[j].datagrams| <= r.firstContext
  }

  lemma TakenContext(c: Client)
    requires Inv(c)
    ensures Inv(TakeContext(c))
  {
    var c' := TakeContext(c);
    hide Increasing, Sequenced, Counted, Settled;
    forall j | 0 <= j < |c'.requests| ensures RequestOk(c', c'.requests[j]) {
      assert RequestOk(c, c.requests[j]);
    }
  }

  lemma EarlierContexts(c: Client)
    requires Inv(c)
    ensures forall j :: 0 <= j < |c.requests| ==>
      c.requests[j].firstContext + |c.requests[j].datagrams| <= c.contexts
    ensures c.outerSequence == c.innerSequence == c.contexts % 0x1_0000
    ensures TakeContext(c).outerSequence == TakeContext(c).innerSequence == (c.contexts + 1) % 0x1_0000
  {
    hide PendingOk, InOrder;
    forall j | 0 <= j < |c.requests|
      ensures c.requests[j].firstContext + |c.requests[j].datagrams| <= c.contexts
    {
      assert RequestOk(c, c.requests[j]);
    }
  }

  /** A request whose datagrams were just encoded carries them. */
  lemma Carrying(model: DeviceModel, r: Request, identity: Identity)
    requires 1 <= |r.datagrams| <= 2 && Carries(model, r, identity)
    ensures CarriesItsMessages(model, r)
  {}

  lemma PreparedCommand(c: Client, command: Command, at: real)
    requires Inv(c) && c.now == at
    ensures var (c', r) := PrepareCommand(c, command, at);
      Inv(c') && (r.Ok? ==> NewWait(c', r.value))
  {
    hide Inv, Codecs.EncodeCommand, Codecs.EncodeQuery, M25.EncodeBacklightQuery, FamilyForModel, CarriesItsMessages;
    TakenContext(c);
    TakenContext(TakeContext(c));
    EarlierContexts(c);
    var r := PrepareCommand(c, command, at).1;
    if r.Ok? {
      Codecs.EncodedCommands(c.model, CurrentContext(c), command);
      assert CurrentContext(c) == ContextOf(c.model, c.identity, c.contexts);
      assert CurrentContext(TakeContext(c)) == ContextOf(c.model, c.identity, c.contexts + 1);
      Carrying(c.model, r.value, c.identity);
    }
  }

  lemma PreparedRefresh(c: Client, at: real)
    requires Inv(c) && c.now == at
    ensures var (c', r) := PrepareRefresh(c, at);
      Inv(c') && (r.Ok? ==> NewWait(c', r.value))
  {
    hide Inv, Codecs.EncodeQuery, M25.EncodeBacklightQuery, FamilyForModel, CarriesItsMessages;
    TakenContext(c);
    TakenContext(TakeContext(c));
    EarlierContexts(c);
    var r := PrepareRefresh(c, at).1;
    if r.Ok? {
      assert CurrentContext(c) == ContextOf(c.model, c.identity, c.contexts);
      assert CurrentContext(TakeContext(c)) == ContextOf(c.model, c.identity, c.contexts + 1);
      Carrying(c.model, r.value, c.identity);
    }
  }

  function Register(c: Client, r: Request): Client
  {
    c.(requests := c.requests + [r], pending := c.pending + [|c.requests|])
  }

  lemma RegisterKeepsInv(c: Client, r: Request)
    requires Inv(c) && NewWait(c, r)
    ensures Inv(Register(c, r))
  {
    hide Sequenced;
    var c' := Register(c, r);
    assert Increasing(c'.pending) by {
      assert forall i :: 0 <= i < |c.pending| ==> c.pending[i] in c.pending;
    }
    assert PendingOk(c');
    forall j | 0 <= j < |c'.requests| ensures RequestOk(c', c'.requests[j]) {
      if j < |c.requests| {
        assert RequestOk(c, c.requests[j]);
      }
    }
  }

  lemma BeginKeepsInv(prepared: (Client, Result<Request>), failAt: Option<nat>)
    requires Inv(prepared.0) && (prepared.1.Ok? ==> NewWait(prepared.0, prepared.1.value))
    ensures Inv(Begin(prepared, failAt))
  {
    if prepared.1.Ok? {
      var (c, r) := (prepared.0, prepared.1.value);
      RegisterKeepsInv(c, r);
      hide Inv, Put, SendFrom;
      SendKeepsInv(Register(c, r), |c.requests|, r, 0, failAt);
    }
  }

  lemma {:induction false} AcceptKeepsInv(c: Client, packet: DecodedPacket, at: real)
    requires Inv(c) && c.now == at && !c.closed
    ensures Inv(Accept(c, packet, at))
  {
    var c' := Accept(c, packet, at);
    if packet.state == None {
      SameRequests(c, c');
    } else {
      hide Matches, RequestOk, MergeState;
      assert PendingOk(c);
      RepliesKeepInv(c, c');
    }
  }

  lemma {:induction false} ReceiveKeepsInv(c: Client, data: bytes, source: Endpoint, at: real)
    requires Inv(c) && c.now <= at
    ensures Inv(Receive(c, data, source, at))
  {
    hide Inv, DuplicateCache.Arrive, Codecs.Decode, Accept;
    var c1 := c.(recent := DuplicateCache.Arrive(c.recent, data, at).0, now := at);
    SameRequests(c, c1);
    if !c.closed {
      var packet := Codecs.Decode(c.model, data, source);
      if packet.Some? {
        AcceptKeepsInv(c1, packet.value, at);
      }
    }
  }

  lemma {:induction false} CloseKeepsInv(c: Client)
    requires Inv(c)
    ensures Inv(Close(c))
  {
    var c' := Close(c);
    forall i | 0 <= i < |c.requests| ensures c'.closed ==> !c'.requests[i].reply.Awaited? {
      assert RequestOk(c, c.requests[i]);
      assert PendingOk(c);
    }
    hide RequestOk, InOrder;
    RepliesKeepInv(c, c');
  }

  lemma {:induction false} NextKeepsInv(c: Client, e: Event)
    requires Inv(c)
    ensures Inv(Next(c, e))
  {
    hide Inv, Begin, PrepareCommand, PrepareRefresh, Transmit, Timeout, Wake, End, Receive, Close;
    if Enabled(c, e) {
      match e
      case Start => SameRequests(c, Next(c, e));
      case BeginCommand(command, failAt, at) =>
        SameRequests(c, c.(now := at));
        PreparedCommand(c.(now := at), command, at);
        BeginKeepsInv(PrepareCommand(c.(now := at), command, at), failAt);
      case BeginRefresh(failAt, at) =>
        SameRequests(c, c.(now := at));
        PreparedRefresh(c.(now := at), at);
        BeginKeepsInv(PrepareRefresh(c.(now := at), at), failAt);
      case SleepDone(i, failAt) => SleepDoneKeepsInv(c, i, failAt);
      case TimedOut(i, failAt) => TimeoutKeepsInv(c, i, failAt);
      case Woken(i) => WakeKeepsInv(c, i);
      case Cancelled(i) => EndKeepsInv(c, i, None);
      case Received(data, source, at) => ReceiveKeepsInv(c, data, source, at);
      case Closed => CloseKeepsInv(c);
    }
  }

  lemma SleepDoneKeepsInv(c: Client, i: nat, failAt: Option<nat>)
    requires Inv(c) && i < |c.requests| && c.requests[i].phase.Sleeping?
    ensures Inv(Transmit(c, i, c.requests[i].index, failAt))
  {
    hide Put, SendFrom, PendingOk, InOrder;
    assert RequestOk(c, c.requests[i]);
    SendKeepsInv(c, i, c.requests[i], c.requests[i].index, failAt);
  }

  lemma WakeKeepsInv(c: Client, i: nat)
    requires Inv(c) && i < |c.requests| && c.requests[i].phase.Waiting?
    ensures Inv(Wake(c, i))
  {
    hide Inv, End;
    match c.requests[i].reply
    case Answered(state) => EndKeepsInv(c, i, Some(Success(state)));
    case Failed(error) => EndKeepsInv(c, i, Some(Failure(error)));
    case _ =>
  }

  lemma {:induction false} RunKeepsInv(start: Client, events: seq<Event>)
    requires Inv(start)
    ensures Inv(Run(start, events))
  {
    hide Next, Inv;
    if events != [] {
      RunKeepsInv(start, events[..|events| - 1]);
      NextKeepsInv(Run(start, events[..|events| - 1]), events[|events| - 1]);
    }
  }

  // ---------------------------------------------------------------- every request ends cleanly

  predicate Initial(c: Client)
  {
    c == Requests.Fresh(c.model, c.identity, c.host, c.port)
  }

  lemma {:induction false} RunFromInitial(start: Client, events: seq<Event>)
    requires Initial(start)
    ensures Inv(Run(start, events))
  {
    RunKeepsInv(start, events);
  }

  /** At most six datagrams for a command, two for a refresh and four for the refresh of an M25. */
  lemma SentAtMost(start: Client, events: seq<Event>, i: nat)
    requires Initial(start) && i < |Run(start, events).requests|
    ensures Run(start, events).requests[i].sent
         <= if Run(start, events).requests[i].command.Some? then 6
            else if FamilyForModel(Run(start, events).model).FamilyM25? then 4 else 2
  {
    RunFromInitial(start, events);
    hide Run, PendingOk, InOrder;
    assert RequestOk(Run(start, events), Run(start, events).requests[i]);
  }

  /** The datagrams of a wait are its own messages, whatever happened since it began. */
  lemma SendsItsMessages(start: Client, events: seq<Event>, i: nat)
    requires Initial(start) && i < |Run(start, events).requests|
    ensures 1 <= |Run(start, events).requests[i].datagrams| <= 2
    ensures CarriesItsMessages(Run(start, events).model, Run(start, events).requests[i])
  {
    RunFromInitial(start, events);
    hide Run, PendingOk, InOrder;
    assert RequestOk(Run(start, events), Run(start, events).requests[i]);
  }

  /** A wait that ended is not pending; one that has not is pending, once, until the client closes. */
  lemma PendingIsWhatWaits(start: Client, events: seq<Event>, i: nat)
    requires Initial(start) && i < |Run(start, events).requests|
    ensures multiset(Run(start, events).pending)[i]
         == if Run(start, events).requests[i].phase.Ended? || Run(start, events).closed then 0 else 1
  {
    RunFromInitial(start, events);
    hide Run, RequestOk, InOrder;
    OnceWhenIncreasing(Run(start, events).pending, i);
  }

  lemma {:induction false} OnceWhenIncreasing(s: seq<nat>, i: nat)
    requires Increasing(s)
    ensures multiset(s)[i] == if i in s then 1 else 0
  {
    if s != [] {
      OnceWhenIncreasing(s[1..], i);
      assert s == [s[0]] + s[1..];
    }
  }

  /** On a closed client every reply is decided. */
  lemma {:induction false} ClosedLeavesNobodyWaiting(start: Client, events: seq<Event>, i: nat)
    requires Initial(start) && i < |Run(start, events).requests| && Run(start, events).closed
    ensures !Run(start, events).requests[i].reply.Awaited? && Run(start, events).pending == []
  {
    RunFromInitial(start, events);
    hide Run, InOrder;
    var c := Run(start, events);
    assert RequestOk(c, c.requests[i]);
  }

  predicate IsOwn(e: Event)
  {
    e.SleepDone? || e.TimedOut? || e.Woken? || e.Cancelled?
  }

  predicate OwnEvent(e: Event, i: nat)
  {
    IsOwn(e) && e.request == i
  }

  /** What a step may change of a wait. */
  predicate Advances(r: Request, r': Request)
  {
    SameWait(r, r') && (!r.reply.Awaited? ==> r'.reply == r.reply) && (r.phase.Ended? ==> r' == r)
  }

  /** What a wait becomes by a step of its own. */
  function Own(r: Request, closed: bool, connected: bool, e: Event): Request
    requires IsOwn(e)
    requires e.Woken? ==> r.reply.Answered? || r.reply.Failed?
  {
    match e
    case SleepDone(_, failAt) => SendFrom(r, closed, connected, r.index, failAt)
    case TimedOut(_, failAt) =>
      if r.attempt + 1 < r.retries then SendFrom(r.(attempt := r.attempt + 1), closed, connected, 0, failAt)
      else Finish(r, Some(Failure(RequestTimeout)))
    case Woken(_) =>
      Finish(r, Some(if r.reply.Answered? then Success(r.reply.state) else Failure(r.reply.error)))
    case Cancelled(_) => Finish(r, None)
  }

  lemma OwnStepIsLocal(c: Client, e: Event, i: nat)
    requires i < |c.requests| && Settled(c.requests[i]) && OwnEvent(e, i) && Enabled(c, e)
    ensures e.Woken? ==> c.requests[i].reply.Answered? || c.requests[i].reply.Failed?
    ensures Next(c, e) == Put(c.(available := Next(c, e).available), i, Own(c.requests[i], c.closed, c.connected, e))
  {
    hide SendFrom, Remove;
  }

  lemma OwnAdvances(r: Request, closed: bool, connected: bool, e: Event)
    requires IsOwn(e) && Counted(r) && Settled(r) && !r.phase.Ended?
    requires e.SleepDone? ==> r.phase.Sleeping?
    requires e.TimedOut? || e.Woken? ==> r.phase.Waiting?
    requires e.Woken? ==> r.reply.Answered? || r.reply.Failed?
    ensures Advances(r, Own(r, closed, connected, e)) && Counted(Own(r, closed, connected, e))
    ensures Own(r, closed, connected, e).reply.Answered? ==> r.reply.Answered?
    ensures Rank(Own(r, closed, connected, e)) < Rank(r)
  {
    hide SendFrom;
    if e.SleepDone? {
      SendRank(r, closed, connected, r.index, e.failAt);
      SendFromReply(r, closed, connected, r.index, e.failAt);
    } else if e.TimedOut? && r.attempt + 1 < r.retries {
      SendRank(r.(attempt := r.attempt + 1), closed, connected, 0, e.failAt);
      SendFromReply(r.(attempt := r.attempt + 1), closed, connected, 0, e.failAt);
    }
  }

  lemma OwnStepAdvances(c: Client, e: Event, i: nat)
    requires i < |c.requests| && RequestOk(c, c.requests[i]) && OwnEvent(e, i) && Enabled(c, e)
    ensures i < |Next(c, e).requests| && Advances(c.requests[i], Next(c, e).requests[i])
    ensures Counted(c.requests[i]) && Counted(Next(c, e).requests[i])
    ensures Next(c, e).requests[i].reply.Answered? ==> c.requests[i].reply.Answered?
    ensures Rank(Next(c, e).requests[i]) < Rank(c.requests[i])
  {
    OwnStepIsLocal(c, e, i);
    hide Next, Own, Counted, Settled, Typed, Sequenced, Advances, Rank, Remove;
    OwnAdvances(c.requests[i], c.closed, c.connected, e);
  }

  /** How many steps of its own a wait can still make. */
  function Rank(r: Request): nat
    requires Counted(r)
  {
    match r.phase
    case Sleeping => (r.retries - r.attempt) * 4 - r.index
    case Waiting => (r.retries - r.attempt) * 4 - 3
    case Ended(_) => 0
  }

  lemma SendRank(r: Request, closed: bool, connected: bool, index: nat, failAt: Option<nat>)
    requires 1 <= |r.datagrams| <= 2 && index <= |r.datagrams| && r.attempt < r.retries && r.index <= |r.datagrams|
    requires !r.reply.Dropped? && r.sent == Sends(r.attempt, |r.datagrams|) + index
    ensures Counted(SendFrom(r, closed, connected, index, failAt))
    ensures SameWait(r, SendFrom(r, closed, connected, index, failAt))
    ensures Rank(SendFrom(r, closed, connected, index, failAt)) < (r.retries - r.attempt) * 4 - index
  {
    SendFromEffect(r, closed, connected, index, failAt);
    hide SendFrom;
  }

  lemma OtherWaitStays(c: Client, e: Event, i: nat, k: nat)
    requires i < |c.requests| && k < |c.requests| && k != i && RequestOk(c, c.requests[k]) && OwnEvent(e, k)
    requires Enabled(c, e)
    ensures i < |Next(c, e).requests| && Next(c, e).requests[i] == c.requests[i]
  {
    OwnStepIsLocal(c, e, k);
    hide Next, Own, Remove, RequestOk;
  }

  lemma BeginKeepsRequests(prepared: (Client, Result<Request>), failAt: Option<nat>, i: nat)
    requires i < |prepared.0.requests|
    ensures i < |Begin(prepared, failAt).requests|
    ensures Begin(prepared, failAt).requests[i] == prepared.0.requests[i]
  {
    hide SendFrom, Remove;
  }

  lemma {:induction false} ForeignStepAdvances(c: Client, e: Event, i: nat)
    requires Inv(c) && i < |c.requests| && !OwnEvent(e, i) && Enabled(c, e)
    ensures i < |Next(c, e).requests| && Advances(c.requests[i], Next(c, e).requests[i])
    ensures Next(c, e).requests[i] == c.requests[i].(reply := Next(c, e).requests[i].reply)
    ensures Next(c, e).requests[i].reply.Answered? && !c.requests[i].reply.Answered? ==> e.Received?
  {
    assert i in c.pending ==> !c.requests[i].phase.Ended? by {
      assert PendingOk(c);
    }
    hide PendingOk, InOrder, RequestOk, PrepareCommand, PrepareRefresh, Begin, Receive, Transmit, Timeout, Wake, End;
    if IsOwn(e) {
      assert RequestOk(c, c.requests[e.request]);
      OtherWaitStays(c, e, i, e.request);
    } else if e.BeginCommand? {
      BeginKeepsRequests(PrepareCommand(c.(now := e.at), e.command, e.at), e.failAt, i);
      PrepareKeepsRequests(c.(now := e.at), e.command, e.at);
    } else if e.BeginRefresh? {
      BeginKeepsRequests(PrepareRefresh(c.(now := e.at), e.at), e.failAt, i);
      PrepareKeepsRequests(c.(now := e.at), Command(Power, 0), e.at);
    } else if e.Received? {
      ReceiveAdvances(c, e.data, e.source, e.at, i);
    }
  }

  lemma ReceiveAdvances(c: Client, data: bytes, source: Endpoint, at: real, i: nat)
    requires i < |c.requests| && (i in c.pending ==> !c.requests[i].phase.Ended?)
    ensures i < |Receive(c, data, source, at).requests|
    ensures Advances(c.requests[i], Receive(c, data, source, at).requests[i])
    ensures Receive(c, data, source, at).requests[i]
         == c.requests[i].(reply := Receive(c, data, source, at).requests[i].reply)
  {
    hide DuplicateCache.Arrive, Codecs.Decode, MergeState, Codecs.StateConfirms;
  }

  /** A reply is completed at most once, an end is final, and nothing else of a wait ever changes. */
  lemma {:induction false} CompletedAtMostOnce(c: Client, e: Event, i: nat)
    requires Inv(c) && i < |c.requests|
    ensures i < |Next(c, e).requests| && Advances(c.requests[i], Next(c, e).requests[i])
  {
    assert RequestOk(c, c.requests[i]);
    hide Inv, RequestOk, Next, SameWait;
    if !Enabled(c, e) {
      assert Next(c, e) == c by {
        UnchangedWhenDisabled(c, e);
      }
      assert SameWait(c.requests[i], c.requests[i]) by {
        SameItself(c.requests[i]);
      }
    } else if OwnEvent(e, i) {
      OwnStepAdvances(c, e, i);
    } else {
      ForeignStepAdvances(c, e, i);
    }
  }

  lemma UnchangedWhenDisabled(c: Client, e: Event)
    requires !Enabled(c, e)
    ensures Next(c, e) == c
  {}

  lemma SameItself(r: Request)
    ensures SameWait(r, r)
  {}

  lemma PrepareKeepsRequests(c: Client, command: Command, at: real)
    ensures PrepareCommand(c, command, at).0.requests == c.requests
    ensures PrepareRefresh(c, at).0.requests == c.requests
  {
    hide Codecs.EncodeCommand, Codecs.EncodeQuery, ConfirmingQuery;
  }

  lemma {:induction false} SendFromReply(r: Request, closed: bool, connected: bool, index: nat, failAt: Option<nat>)
    ensures SendFrom(r, closed, connected, index, failAt).reply == r.reply
         || (r.reply.Awaited? && SendFrom(r, closed, connected, index, failAt).reply.Dropped?)
    decreases |r.datagrams| - index
  {
    if index < |r.datagrams| && !closed && connected && failAt != Some(index)
       && !(r.paced && index + 1 < |r.datagrams|) {
      SendFromReply(r.(sent := r.sent + 1), closed, connected, index + 1, failAt);
    }
  }

  /**
   * Two waits have no outer sequence in common, unless 65536 contexts were issued since the
   * first of them began.
   */
  lemma DisjointSequences(start: Client, events: seq<Event>, i: nat, j: nat)
    requires Initial(start) && i < j < |Run(start, events).requests|
    requires Run(start, events).contexts - Run(start, events).requests[i].firstContext <= 0x1_0000
    ensures Run(start, events).requests[i].outerSequences !! Run(start, events).requests[j].outerSequences
    ensures Run(start, events).requests[i].innerSequences !! Run(start, events).requests[j].innerSequences
  {
    RunFromInitial(start, events);
    hide Run, PendingOk;
    var c := Run(start, events);
    assert RequestOk(c, c.requests[i]) && RequestOk(c, c.requests[j]);
    assert InOrder(c);
    hide RequestOk, InOrder;
    NumbersDisjoint(c.requests[i].firstContext, |c.requests[i].datagrams|,
                    c.requests[j].firstContext, |c.requests[j].datagrams|);
  }

  lemma NumbersDisjoint(a: nat, n: nat, b: nat, m: nat)
    requires 1 <= n <= 2 && 1 <= m <= 2 && a + n <= b && b + m <= a + 0x1_0000
    ensures Numbers(a, n) !! Numbers(b, m)
  {
    Different(a, b);
    if m == 2 {
      Different(a, b + 1);
    }
    if n == 2 {
      Different(a + 1, b);
    }
    if n == 2 && m == 2 {
      Different(a + 1, b + 1);
    }
  }

  lemma Different(a: nat, b: nat)
    requires a < b < a + 0x1_0000
    ensures a % 0x1_0000 != b % 0x1_0000
  {}

  /**
   * While a wait has not ended it has a step of its own to make, and each brings it nearer to
   * its end; no other step takes it away from it.
   */
  lemma {:induction false} EveryWaitEnds(c: Client, e: Event, i: nat)
    requires Inv(c) && i < |c.requests|
    ensures i < |Next(c, e).requests| && Counted(c.requests[i]) && Counted(Next(c, e).requests[i])
    ensures OwnEvent(e, i) && Enabled(c, e) ==> Rank(Next(c, e).requests[i]) < Rank(c.requests[i])
    ensures !OwnEvent(e, i) ==> Rank(Next(c, e).requests[i]) == Rank(c.requests[i])
    ensures !c.requests[i].phase.Ended? ==> exists own :: OwnEvent(own, i) && !own.Cancelled? && Enabled(c, own)
  {
    assert RequestOk(c, c.requests[i]);
    assert c.requests[i].phase.Waiting? ==> Enabled(c, TimedOut(i, None)) && OwnEvent(TimedOut(i, None), i);
    assert c.requests[i].phase.Sleeping? ==> Enabled(c, SleepDone(i, None)) && OwnEvent(SleepDone(i, None), i);
    if !Enabled(c, e) {
      UnchangedWhenDisabled(c, e);
    } else if OwnEvent(e, i) {
      OwnStepAdvances(c, e, i);
    } else {
      ForeignStepAdvances(c, e, i);
    }
    hide Inv, Next;
  }
}
