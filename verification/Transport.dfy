/**
 * The whole client (transport.py): the command queue and the reply waits, joined where the
 * worker executes a command, takes its outcome, is cancelled, and where the client closes.
 */
module Transport {
  import opened Bytes
  import opened Models
  import Q = CommandQueue
  import R = Requests
  import RequestSafety
  import Confirmation
  import Codecs
  import M25
  import DuplicateCache

  datatype System = System(queue: Q.Queue, client: R.Client)

  function Initially(model: DeviceModel, identity: Identity, host: string, port: u16): System
  {
    System(Q.EMPTY, R.Fresh(model, identity, host, port))
  }

  datatype Event =
    | Start
    | Submit(command: Command)
    | CancelCaller(future: nat)
    | Pop(task: nat)
    | Execute(task: nat, failAt: Option<nat>, at: real)
    | TakeOutcome(task: nat)
    | Clear(task: nat)
    | Exit(task: nat)
    | Refresh(failAt: Option<nat>, at: real)
    | Wait(event: R.Event)
    | Receive(data: bytes, source: Endpoint, at: real)
    | CloseBegin
    | CloseDrain
    | DeliverCancel(task: nat)

  function PhaseOf(s: System, t: nat): Q.Phase
  {
    if t < |s.queue.tasks| then s.queue.tasks[t].phase else Q.Gone
  }

  /** The wait that a worker is running, if it is. */
  function WaitOf(s: System, t: nat): Option<nat>
  {
    if PhaseOf(s, t).Running? && PhaseOf(s, t).request < |s.client.requests| then Some(PhaseOf(s, t).request) else None
  }

  /** A worker runs this wait: only its cancellation may interrupt the wait. */
  predicate Executed(s: System, i: nat)
  {
    exists t: nat :: t < |s.queue.tasks| && WaitOf(s, t) == Some(i)
  }

  ghost predicate Enabled(s: System, e: Event)
  {
    match e
    case Start => R.Enabled(s.client, R.Start)
    case Submit(_) => s.client.connected || s.client.closed
    case CancelCaller(f) => Q.Enabled(s.queue, Q.ECancelCaller(f))
    case Pop(t) => Q.Enabled(s.queue, Q.EPop(t))
    case Execute(t, failAt, at) =>
      PhaseOf(s, t).Popped? && s.queue.outcomes != []
      && R.Enabled(s.client, R.BeginCommand(PhaseOf(s, t).entry.command, failAt, at))
    case TakeOutcome(t) =>
      WaitOf(s, t).Some? && s.queue.outcomes != []
      && s.client.requests[WaitOf(s, t).value].phase.Ended?
      && s.client.requests[WaitOf(s, t).value].phase.outcome.Some?
    case Clear(t) => Q.Enabled(s.queue, Q.EClear(t))
    case Exit(t) => Q.Enabled(s.queue, Q.EExit(t))
    case Refresh(failAt, at) => R.Enabled(s.client, R.BeginRefresh(failAt, at))
    case Wait(w) => RequestSafety.IsOwn(w) && R.Enabled(s.client, w) && (w.Cancelled? ==> !Executed(s, w.request))
    case Receive(data, source, at) => R.Enabled(s.client, R.Received(data, source, at))
    case CloseBegin => Q.Enabled(s.queue, Q.ECloseBegin) && !s.client.closed
    case CloseDrain => Q.Enabled(s.queue, Q.ECloseDrain)
    case DeliverCancel(t) => Q.Enabled(s.queue, Q.EDeliverCancel(t))
  }

  /** The new wait of an execution; it has none when encoding the command fails. */
  function Prepared(s: System, t: nat, at: real): Result<R.Request>
    requires PhaseOf(s, t).Popped?
  {
    R.PrepareCommand(s.client.(now := at), PhaseOf(s, t).entry.command, at).1
  }

  /** What an event means to the queue. */
  function QueueEvent(s: System, e: Event): Option<Q.Event>
  {
    match e
    case Submit(command) => Some(Q.ESubmit(command))
    case CancelCaller(f) => Some(Q.ECancelCaller(f))
    case Pop(t) => Some(Q.EPop(t))
    case Execute(t, _, at) =>
      if !PhaseOf(s, t).Popped? then None
      else if Prepared(s, t, at).Err? then Some(Q.EResolve(t, Failure(Prepared(s, t, at).error)))
      else Some(Q.EStart(t, |s.client.requests|))
    case TakeOutcome(t) =>
      if WaitOf(s, t).Some? && s.client.requests[WaitOf(s, t).value].phase.Ended?
         && s.client.requests[WaitOf(s, t).value].phase.outcome.Some?
      then Some(Q.EResolve(t, s.client.requests[WaitOf(s, t).value].phase.outcome.value))
      else None
    case Clear(t) => Some(Q.EClear(t))
    case Exit(t) => Some(Q.EExit(t))
    case CloseBegin => Some(Q.ECloseBegin)
    case CloseDrain => Some(Q.ECloseDrain)
    case DeliverCancel(t) => Some(Q.EDeliverCancel(t))
    case _ => None
  }

  /** What it means to the waits. */
  function WaitEvent(s: System, e: Event): Option<R.Event>
  {
    match e
    case Start => Some(R.Start)
    case Execute(t, failAt, at) =>
      if PhaseOf(s, t).Popped? then Some(R.BeginCommand(PhaseOf(s, t).entry.command, failAt, at)) else None
    case Refresh(failAt, at) => Some(R.BeginRefresh(failAt, at))
    case Wait(w) => Some(w)
    case Receive(data, source, at) => Some(R.Received(data, source, at))
    case CloseBegin => Some(R.Closed)
    case DeliverCancel(t) => if WaitOf(s, t).Some? then Some(R.Cancelled(WaitOf(s, t).value)) else None
    case _ => None
  }

  ghost function Next(s: System, e: Event): System
  {
    if !Enabled(s, e) then s
    else
      System(if QueueEvent(s, e).Some? then Q.Next(s.queue, QueueEvent(s, e).value) else s.queue,
             if WaitEvent(s, e).Some? then R.Next(s.client, WaitEvent(s, e).value) else s.client)
  }

  ghost function Run(start: System, events: seq<Event>): System
  {
    if events == [] then start else Next(Run(start, events[..|events| - 1]), events[|events| - 1])
  }

  // ---------------------------------------------------------------- a run is a run of both parts

  ghost function QueueTrace(start: System, events: seq<Event>): seq<Q.Event>
  {
    if events == [] then []
    else
      var init, e := events[..|events| - 1], events[|events| - 1];
      var s := Run(start, init);
      if Enabled(s, e) && QueueEvent(s, e).Some? then QueueTrace(start, init) + [QueueEvent(s, e).value]
      else QueueTrace(start, init)
  }

  ghost function WaitTrace(start: System, events: seq<Event>): seq<R.Event>
  {
    if events == [] then []
    else
      var init, e := events[..|events| - 1], events[|events| - 1];
      var s := Run(start, init);
      if Enabled(s, e) && WaitEvent(s, e).Some? then WaitTrace(start, init) + [WaitEvent(s, e).value]
      else WaitTrace(start, init)
  }

  predicate Initial(s: System)
  {
    s == Initially(s.client.model, s.client.identity, s.client.host, s.client.port)
  }

  /** Every run of the client is a run of the queue and a run of the waits, so each keeps its properties. */
  lemma {:induction false} RunIsBothRuns(start: System, events: seq<Event>)
    requires Initial(start)
    ensures Run(start, events).queue == Q.Run(QueueTrace(start, events))
    ensures Run(start, events).client == R.Run(start.client, WaitTrace(start, events))
  {
    hide Q.Next, R.Next, Enabled, QueueEvent, WaitEvent;
    if events != [] {
      var init, e := events[..|events| - 1], events[|events| - 1];
      RunIsBothRuns(start, init);
      var s := Run(start, init);
      assert Run(start, events) == Next(s, e);
      var qs, ws := QueueTrace(start, init), WaitTrace(start, init);
      if Enabled(s, e) && QueueEvent(s, e).Some? {
        assert (qs + [QueueEvent(s, e).value])[..|qs|] == qs;
      }
      if Enabled(s, e) && WaitEvent(s, e).Some? {
        assert (ws + [WaitEvent(s, e).value])[..|ws|] == ws;
      }
    }
  }

  // ---------------------------------------------------------------- what joins the two parts

  /** The running worker waits for a wait of its own command that was not cancelled. */
  predicate RunsItsCommand(s: System, t: nat)
    requires t < |s.queue.tasks|
  {
    var phase := s.queue.tasks[t].phase;
    phase.Running? ==>
      && phase.request < |s.client.requests|
      && s.client.requests[phase.request].command == Some(phase.entry.command)
      && s.client.requests[phase.request].phase != R.Ended(None)
  }

  /** Some wait of that command ended with that outcome. */
  ghost predicate Returned(c: R.Client, command: Command, outcome: Outcome)
  {
    exists i: nat :: i < |c.requests| && WaitReturned(c.requests[i], command, outcome)
  }

  predicate WaitReturned(r: R.Request, command: Command, outcome: Outcome)
  {
    r.command == Some(command) && r.phase == R.Ended(Some(outcome))
  }

  /** The codec refuses the command, or the query that would confirm it, under some header of the device. */
  ghost predicate Unsendable(model: DeviceModel, command: Command)
  {
    exists context: Context :: context.model == Some(model) && Refuses(model, context, command)
  }

  predicate Refuses(model: DeviceModel, context: Context, command: Command)
  {
    Codecs.EncodeCommand(model, context, command) == Err(InvalidCommand)
    || Codecs.EncodeQuery(model, context) == Err(InvalidCommand)
  }

  /** Where the outcome of an entry comes from: its wait, the closing of the client, or the codec. */
  ghost predicate Explained(c: R.Client, command: Command, outcome: Outcome)
  {
    || Returned(c, command, outcome)
    || (outcome == CLOSED && c.closed)
    || (outcome == Failure(InvalidCommand) && Unsendable(c.model, command))
  }

  ghost predicate OutcomesExplained(s: System)
  {
    |s.queue.outcomes| == |s.queue.popped|
    && forall k :: 0 <= k < |s.queue.popped| && s.queue.outcomes[k].Some? ==>
      Explained(s.client, s.queue.popped[k].command, s.queue.outcomes[k].value)
  }

  ghost predicate Joined(s: System)
  {
    && s.queue.closed == s.client.closed
    && (s.queue.tasks != [] ==> s.client.connected || s.client.closed)
    && (forall t: nat :: t < |s.queue.tasks| ==> RunsItsCommand(s, t))
    && OutcomesExplained(s)
  }

  ghost predicate Inv(s: System)
  {
    Q.Inv(s.queue) && RequestSafety.Inv(s.client) && Joined(s)
  }

  /** What the waits may do between two states that the queue relies on. */
  ghost predicate WaitsGoOn(c: R.Client, c': R.Client)
  {
    && |c.requests| <= |c'.requests| && c'.model == c.model && (c.closed ==> c'.closed)
    && (c'.connected || c'.closed || !(c.connected || c.closed))
    && forall i: nat :: i < |c.requests| ==>
      c'.requests[i].command == c.requests[i].command
      && (c.requests[i].phase.Ended? ==> c'.requests[i] == c.requests[i])
  }

  lemma {:induction false} WaitStep(c: R.Client, e: R.Event)
    requires RequestSafety.Inv(c)
    ensures WaitsGoOn(c, R.Next(c, e))
    ensures R.Next(c, e).closed == (c.closed || (e.Closed? && R.Enabled(c, e)))
    ensures forall i: nat :: i < |c.requests| && !(e.Cancelled? && e.request == i) && c.requests[i].phase != R.Ended(None) ==>
      R.Next(c, e).requests[i].phase != R.Ended(None)
  {
    WaitStepKeepsConnection(c, e);
    Confirmation.StepKeepsMac(c, e);
    hide R.Next;
    forall i: nat | i < |c.requests|
      ensures i < |R.Next(c, e).requests| && R.Next(c, e).requests[i].command == c.requests[i].command
      ensures c.requests[i].phase.Ended? ==> R.Next(c, e).requests[i] == c.requests[i]
      ensures !(e.Cancelled? && e.request == i) && c.requests[i].phase != R.Ended(None) ==>
        R.Next(c, e).requests[i].phase != R.Ended(None)
    {
      RequestSafety.CompletedAtMostOnce(c, e, i);
      if !(e.Cancelled? && e.request == i) && c.requests[i].phase != R.Ended(None) {
        NotDropped(c, e, i);
      }
    }
    RequestsGrow(c, e);
  }

  lemma RequestsGrow(c: R.Client, e: R.Event)
    requires RequestSafety.Inv(c)
    ensures |c.requests| <= |R.Next(c, e).requests|
  {
    if |c.requests| > 0 {
      RequestSafety.CompletedAtMostOnce(c, e, |c.requests| - 1);
    }
  }

  lemma {:induction false} SendingEndsWithAnOutcome(
    r: R.Request, closed: bool, connected: bool, index: nat, failAt: Option<nat>)
    ensures R.SendFrom(r, closed, connected, index, failAt).phase != R.Ended(None)
    decreases |r.datagrams| - index
  {
    if index < |r.datagrams| && !closed && connected && failAt != Some(index)
       && !(r.paced && index + 1 < |r.datagrams|) {
      SendingEndsWithAnOutcome(r.(sent := r.sent + 1), closed, connected, index + 1, failAt);
    }
  }

  lemma NotDropped(c: R.Client, e: R.Event, i: nat)
    requires RequestSafety.Inv(c) && i < |c.requests| && !(e.Cancelled? && e.request == i)
    requires c.requests[i].phase != R.Ended(None)
    ensures i < |R.Next(c, e).requests| && R.Next(c, e).requests[i].phase != R.Ended(None)
  {
    Confirmation.TypedRequest(c, i);
    hide RequestSafety.Inv, RequestSafety.Counted, RequestSafety.Typed, R.Next;
    if !R.Enabled(c, e) {
      RequestSafety.UnchangedWhenDisabled(c, e);
    } else if RequestSafety.OwnEvent(e, i) {
      OwnStepNotDropped(c, e, i);
    } else {
      RequestSafety.ForeignStepAdvances(c, e, i);
    }
  }

  lemma OwnStepNotDropped(c: R.Client, e: R.Event, i: nat)
    requires i < |c.requests| && RequestSafety.Settled(c.requests[i]) && R.Enabled(c, e)
    requires RequestSafety.OwnEvent(e, i) && !e.Cancelled?
    ensures i < |R.Next(c, e).requests| && R.Next(c, e).requests[i].phase != R.Ended(None)
  {
    hide R.Next, R.SendFrom, R.Remove, RequestSafety.Settled, R.Enabled;
    RequestSafety.OwnStepIsLocal(c, e, i);
    var r := c.requests[i];
    if e.SleepDone? {
      SendingEndsWithAnOutcome(r, c.closed, c.connected, r.index, e.failAt);
    } else if e.TimedOut? {
      SendingEndsWithAnOutcome(r.(attempt := r.attempt + 1), c.closed, c.connected, 0, e.failAt);
    }
  }

  lemma WaitStepKeepsConnection(c: R.Client, e: R.Event)
    ensures var c' := R.Next(c, e); c'.connected || c'.closed || !(c.connected || c.closed)
    ensures R.Next(c, e).closed == (c.closed || (e.Closed? && R.Enabled(c, e)))
  {
    hide R.SendFrom, R.Remove, DuplicateCache.Arrive, Codecs.Decode, R.MergeState, R.ResolvePending;
    hide Codecs.EncodeCommand, Codecs.EncodeQuery, R.ConfirmingQuery;
  }

  // ---------------------------------------------------------------- every step keeps it

  lemma ExplainedStays(c: R.Client, c': R.Client, command: Command, outcome: Outcome)
    requires WaitsGoOn(c, c') && Explained(c, command, outcome)
    ensures Explained(c', command, outcome)
  {
    hide Unsendable;
    if Returned(c, command, outcome) {
      var i: nat :| i < |c.requests| && WaitReturned(c.requests[i], command, outcome);
      assert WaitReturned(c'.requests[i], command, outcome);
    }
  }

  lemma OutcomesStay(s: System, s': System)
    requires OutcomesExplained(s) && WaitsGoOn(s.client, s'.client)
    requires s'.queue.popped == s.queue.popped && s'.queue.outcomes == s.queue.outcomes
    ensures OutcomesExplained(s')
  {
    hide WaitsGoOn, Explained;
    forall k | 0 <= k < |s'.queue.popped| && s'.queue.outcomes[k].Some?
      ensures Explained(s'.client, s'.queue.popped[k].command, s'.queue.outcomes[k].value)
    {
      ExplainedStays(s.client, s'.client, s'.queue.popped[k].command, s'.queue.outcomes[k].value);
    }
  }

  /** Steps of the queue that neither start nor end an execution. */
  predicate Plain(e: Q.Event)
  {
    !e.EStart? && !e.EResolve? && !e.ECloseBegin? && !e.EDeliverCancel?
  }

  lemma PlainQueueStep(q: Q.Queue, e: Q.Event)
    requires Plain(e) && |q.outcomes| == |q.popped|
    ensures var q' := Q.Next(q, e);
      && q'.closed == q.closed && |q'.outcomes| == |q'.popped|
      && (q'.tasks != [] && !e.ESubmit? ==> q.tasks != [])
      && (forall t: nat :: t < |q'.tasks| && q'.tasks[t].phase.Running? ==>
            t < |q.tasks| && q'.tasks[t].phase == q.tasks[t].phase)
      && q.popped <= q'.popped
      && (forall k :: 0 <= k < |q'.popped| ==>
            q'.outcomes[k] == if k < |q.popped| then q.outcomes[k] else None)
  {
    hide Q.SetAll, Q.FailEntries, Q.Entered;
  }

  lemma PlainStepKeepsJoined(s: System, e: Q.Event)
    requires Joined(s) && Plain(e) && (e.ESubmit? ==> s.client.connected || s.client.closed)
    ensures Joined(System(Q.Next(s.queue, e), s.client))
  {
    PlainQueueStep(s.queue, e);
    hide Q.Next, Explained;
    var s' := System(Q.Next(s.queue, e), s.client);
    forall t: nat | t < |s'.queue.tasks| ensures RunsItsCommand(s', t) {
      if s'.queue.tasks[t].phase.Running? {
        assert RunsItsCommand(s, t);
      }
    }
  }

  /** Steps of the waits that leave the queue alone. */
  lemma WaitStepKeepsJoined(s: System, e: R.Event)
    requires Joined(s) && RequestSafety.Inv(s.client) && !e.Closed?
    requires e.Cancelled? ==> !Executed(s, e.request)
    ensures Joined(System(s.queue, R.Next(s.client, e)))
  {
    var s' := System(s.queue, R.Next(s.client, e));
    WaitStep(s.client, e);
    hide R.Next, RequestSafety.Inv;
    OutcomesStay(s, s');
    hide OutcomesExplained;
    forall t: nat | t < |s'.queue.tasks| ensures RunsItsCommand(s', t) {
      assert RunsItsCommand(s, t);
      if s.queue.tasks[t].phase.Running? && e.Cancelled? {
        assert WaitOf(s, t) == Some(s.queue.tasks[t].phase.request);
      }
    }
  }

  lemma ClosedJoined(s: System, c: R.Client)
    requires Joined(s) && WaitsGoOn(s.client, c) && c.closed
    requires forall i: nat :: i < |s.client.requests| && s.client.requests[i].phase != R.Ended(None) ==>
      c.requests[i].phase != R.Ended(None)
    ensures Joined(System(s.queue.(closed := true), c))
  {
    var s' := System(s.queue.(closed := true), c);
    OutcomesStay(s, s');
    hide OutcomesExplained;
    forall t: nat | t < |s'.queue.tasks| ensures RunsItsCommand(s', t) {
      assert RunsItsCommand(s, t);
    }
  }

  lemma {:induction false} CloseKeepsJoined(s: System)
    requires Joined(s) && RequestSafety.Inv(s.client) && !s.queue.closed
    ensures Joined(System(Q.Next(s.queue, Q.ECloseBegin), R.Next(s.client, R.Closed)))
  {
    assert Q.Next(s.queue, Q.ECloseBegin) == s.queue.(closed := true);
    assert R.Enabled(s.client, R.Closed);
    hide R.Next, Q.Next, RequestSafety.Inv, OutcomesExplained, RunsItsCommand;
    WaitStep(s.client, R.Closed);
    ClosedJoined(s, R.Next(s.client, R.Closed));
  }

  /** An execution ends with an outcome that is explained. */
  lemma ResolveKeepsJoined(s: System, t: nat, outcome: Outcome, raising: bool)
    requires Q.Inv(s.queue) && Joined(s) && t < |s.queue.tasks| && Q.Executing(s.queue.tasks[t].phase)
    requires Explained(s.client, s.queue.tasks[t].phase.entry.command, outcome)
    ensures s.queue.outcomes != [] && Joined(System(Q.Resolve(s.queue, t, outcome, raising), s.client))
  {
    Q.ResolveKeepsTasks(s.queue, t, outcome, raising);
    hide Q.Inv, Q.SetAll, Explained;
    var s' := System(Q.Resolve(s.queue, t, outcome, raising), s.client);
    forall i: nat | i < |s'.queue.tasks| ensures RunsItsCommand(s', i) {
      assert RunsItsCommand(s, i);
    }
  }

  /** A new wait is one of its command and is not yet cancelled. */
  lemma BegunWait(c: R.Client, command: Command, failAt: Option<nat>, at: real)
    requires R.Enabled(c, R.BeginCommand(command, failAt, at))
    requires R.PrepareCommand(c.(now := at), command, at).1.Ok?
    ensures var c' := R.Next(c, R.BeginCommand(command, failAt, at)); var n := |c.requests|;
      n < |c'.requests| && c'.requests[n].command == Some(command) && c'.requests[n].phase != R.Ended(None)
  {
    var prepared := R.PrepareCommand(c.(now := at), command, at);
    RequestSafety.PrepareKeepsRequests(c.(now := at), command, at);
    PreparedCommand(c.(now := at), command, at);
    SendingEndsWithAnOutcome(prepared.1.value, prepared.0.closed, prepared.0.connected, 0, failAt);
    SendingKeepsCommand(prepared.1.value, prepared.0.closed, prepared.0.connected, 0, failAt);
    hide R.PrepareCommand, R.SendFrom, R.Remove;
  }

  lemma PreparedCommand(c: R.Client, command: Command, at: real)
    ensures var r := R.PrepareCommand(c, command, at).1; r.Ok? ==> r.value.command == Some(command)
  {
    hide Codecs.EncodeCommand, R.ConfirmingQuery;
  }

  lemma {:induction false} SendingKeepsCommand(
    r: R.Request, closed: bool, connected: bool, index: nat, failAt: Option<nat>)
    ensures R.SendFrom(r, closed, connected, index, failAt).command == r.command
    decreases |r.datagrams| - index
  {
    if index < |r.datagrams| && !closed && connected && failAt != Some(index)
       && !(r.paced && index + 1 < |r.datagrams|) {
      SendingKeepsCommand(r.(sent := r.sent + 1), closed, connected, index + 1, failAt);
    }
  }

  lemma {:induction false} ExecuteKeepsJoined(s: System, t: nat, failAt: Option<nat>, at: real)
    requires Inv(s) && Enabled(s, Execute(t, failAt, at))
    ensures Joined(Next(s, Execute(t, failAt, at)))
  {
    var command := PhaseOf(s, t).entry.command;
    var e := R.BeginCommand(command, failAt, at);
    var between := System(s.queue, R.Next(s.client, e));
    WaitStepKeepsJoined(s, e);
    if Prepared(s, t, at).Err? {
      FailedExecution(s, t, failAt, at);
    } else {
      BegunWait(s.client, command, failAt, at);
      hide Q.Inv, RequestSafety.Inv, R.Next, OutcomesExplained;
      StartKeepsJoined(between, t, |s.client.requests|);
    }
  }

  lemma FailedExecution(s: System, t: nat, failAt: Option<nat>, at: real)
    requires Inv(s) && PhaseOf(s, t).Popped? && Prepared(s, t, at).Err?
    requires Joined(System(s.queue, R.Next(s.client, R.BeginCommand(PhaseOf(s, t).entry.command, failAt, at))))
    ensures s.queue.outcomes != []
    ensures Joined(System(Q.Resolve(s.queue, t, Failure(Prepared(s, t, at).error), false),
                          R.Next(s.client, R.BeginCommand(PhaseOf(s, t).entry.command, failAt, at))))
  {
    var command := PhaseOf(s, t).entry.command;
    var e := R.BeginCommand(command, failAt, at);
    PreparationFails(s.client.(now := at), command, at, failAt);
    StaysAsItWas(s.client, e);
    OutcomeOfWorker(s.queue, t);
    var c := R.Next(s.client, e);
    var outcome := Failure(Prepared(s, t, at).error);
    if !Returned(s.client.(now := at), command, outcome) {
      hide R.Next, Unsendable, Q.Inv, RequestSafety.Inv, Joined, Returned, Q.Resolve, R.PrepareCommand;
      assert Explained(c, command, outcome);
    } else {
      WaitStep(s.client, e);
      hide R.Next, Unsendable, Q.Inv, RequestSafety.Inv, Joined, Returned, Q.Resolve, R.PrepareCommand, WaitsGoOn;
      SameReturned(s.client, at, command, outcome);
      ExplainedStays(s.client, c, command, outcome);
    }
    ResolveKeepsJoined(System(s.queue, c), t, outcome, false);
  }

  lemma SameReturned(c: R.Client, at: real, command: Command, outcome: Outcome)
    ensures Returned(c.(now := at), command, outcome) <==> Returned(c, command, outcome)
  {
    if i: nat :| i < |c.requests| && WaitReturned(c.requests[i], command, outcome) {
      assert WaitReturned(c.(now := at).requests[i], command, outcome);
    }
    if i: nat :| i < |c.requests| && WaitReturned(c.(now := at).requests[i], command, outcome) {
      assert WaitReturned(c.requests[i], command, outcome);
    }
  }

  /** When there is no wait to begin, the client is closed or the codec refuses. */
  lemma PreparationFails(c: R.Client, command: Command, at: real, failAt: Option<nat>)
    requires R.PrepareCommand(c, command, at).1.Err?
    ensures Explained(c, command, Failure(R.PrepareCommand(c, command, at).1.error))
  {
    hide Codecs.EncodeCommand, Codecs.EncodeQuery, M25.EncodeBacklightQuery;
    Codecs.RefusalsAreInvalid(c.model, R.CurrentContext(c), command);
    Codecs.RefusalsAreInvalid(c.model, R.CurrentContext(R.TakeContext(c)), command);
    if !c.closed {
      if Codecs.EncodeCommand(c.model, R.CurrentContext(c), command).Err? {
        assert Refuses(c.model, R.CurrentContext(c), command);
      } else {
        assert Refuses(c.model, R.CurrentContext(R.TakeContext(c)), command);
      }
    }
  }

  lemma StaysAsItWas(c: R.Client, e: R.Event)
    ensures R.Next(c, e).model == c.model && (c.closed ==> R.Next(c, e).closed)
  {
    Confirmation.StepKeepsMac(c, e);
    WaitStepKeepsConnection(c, e);
    hide R.Next;
  }

  lemma StartKeepsJoined(s: System, t: nat, request: nat)
    requires Joined(s) && t < |s.queue.tasks| && s.queue.tasks[t].phase.Popped?
    requires request < |s.client.requests| && s.client.requests[request].phase != R.Ended(None)
    requires s.client.requests[request].command == Some(s.queue.tasks[t].phase.entry.command)
    ensures Joined(System(Q.Start(s.queue, t, request), s.client))
  {
    hide Explained;
    var s' := System(Q.Start(s.queue, t, request), s.client);
    forall i: nat | i < |s'.queue.tasks| ensures RunsItsCommand(s', i) {
      assert RunsItsCommand(s, i);
    }
  }

  lemma TakeOutcomeKeepsJoined(s: System, t: nat)
    requires Inv(s) && Enabled(s, TakeOutcome(t))
    ensures Joined(Next(s, TakeOutcome(t)))
  {
    hide RequestSafety.Inv, Q.Resolve;
    var i := WaitOf(s, t).value;
    var outcome := s.client.requests[i].phase.outcome.value;
    assert RunsItsCommand(s, t);
    assert WaitReturned(s.client.requests[i], s.queue.tasks[t].phase.entry.command, outcome);
    ResolveKeepsJoined(s, t, outcome, false);
    hide Q.Inv;
  }

  /** The queue's part of a delivered cancellation. */
  lemma QueueCancelStep(s: System, t: nat)
    requires Q.Inv(s.queue) && Joined(s) && Q.Enabled(s.queue, Q.EDeliverCancel(t))
    ensures Joined(System(Q.Next(s.queue, Q.EDeliverCancel(t)), s.client))
    ensures var tasks := Q.Next(s.queue, Q.EDeliverCancel(t)).tasks; t < |tasks| && !tasks[t].phase.Running?
    ensures forall i: nat :: i < |s.queue.tasks| && i != t ==>
      Q.Next(s.queue, Q.EDeliverCancel(t)).tasks[i] == s.queue.tasks[i]
  {
    var q := s.queue;
    var taken := q.(tasks := q.tasks[t := q.tasks[t].(cancelRequested := false)]);
    Q.SameFutures(q, taken);
    var s1 := System(taken, s.client);
    assert Joined(s1) by {
      hide Q.Inv, Explained;
      forall i: nat | i < |taken.tasks| ensures RunsItsCommand(s1, i) {
        assert RunsItsCommand(s, i);
      }
    }
    if Q.Executing(q.tasks[t].phase) {
      hide Q.FuturesInv;
      assert q.workerTask == Some(t);
      assert Q.TasksInv(taken);
      ResolveKeepsJoined(s1, t, CLOSED, true);
      hide Q.SetAll;
    } else {
      hide Q.Inv, Explained, Q.Resolve;
      var s' := System(Q.Next(q, Q.EDeliverCancel(t)), s.client);
      forall i: nat | i < |s'.queue.tasks| ensures RunsItsCommand(s', i) {
        assert RunsItsCommand(s, i);
      }
    }
  }

  lemma {:induction false} DeliverCancelKeepsJoined(s: System, t: nat)
    requires Inv(s) && Enabled(s, DeliverCancel(t))
    ensures Joined(Next(s, DeliverCancel(t)))
  {
    var e := Q.EDeliverCancel(t);
    QueueCancelStep(s, t);
    var s1 := System(Q.Next(s.queue, e), s.client);
    if WaitOf(s, t).Some? {
      var i := WaitOf(s, t).value;
      OneWorker(s.queue, t);
      hide Q.Next, R.Next, Q.Inv, RequestSafety.Inv, Joined;
      QueueCancelKeepsTasks(s.queue, t);
      forall o: nat | o < |s1.queue.tasks| ensures WaitOf(s1, o) != Some(i) {
        assert o != t ==> s1.queue.tasks[o] == s.queue.tasks[o];
      }
      assert RequestSafety.Inv(s1.client);
      WaitStepKeepsJoined(s1, R.Cancelled(i));
    }
  }

  lemma OneWorker(q: Q.Queue, t: nat)
    requires Q.Inv(q) && t < |q.tasks| && !q.tasks[t].phase.Gone?
    ensures forall o: nat :: o < |q.tasks| && o != t ==> q.tasks[o].phase.Gone?
  {
    hide Q.FuturesInv;
  }

  lemma QueueCancelKeepsTasks(q: Q.Queue, t: nat)
    ensures |Q.Next(q, Q.EDeliverCancel(t)).tasks| == |q.tasks|
  {
    hide Q.SetAll;
  }

  lemma StepKeepsJoined(s: System, e: Event)
    requires Inv(s) && Enabled(s, e)
    ensures Joined(Next(s, e))
  {
    hide Q.Inv, RequestSafety.Inv, Joined, Q.Next, R.Next;
    if e.Execute? {
      ExecuteKeepsJoined(s, e.task, e.failAt, e.at);
    } else if e.TakeOutcome? {
      TakeOutcomeKeepsJoined(s, e.task);
    } else if e.DeliverCancel? {
      DeliverCancelKeepsJoined(s, e.task);
    } else if e.CloseBegin? {
      CloseKeepsJoined(s);
    } else if e.Start? || e.Refresh? || e.Wait? || e.Receive? {
      WaitStepKeepsJoined(s, WaitEvent(s, e).value);
    } else {
      PlainStepKeepsJoined(s, QueueEvent(s, e).value);
    }
  }

  lemma {:induction false} NextKeepsInv(s: System, e: Event)
    requires Inv(s)
    ensures Inv(Next(s, e))
  {
    if Enabled(s, e) {
      StepKeepsJoined(s, e);
      hide Q.Inv, RequestSafety.Inv, Joined, Q.Next, R.Next, Enabled;
      if QueueEvent(s, e).Some? {
        Q.NextKeepsInv(s.queue, QueueEvent(s, e).value);
      }
      if WaitEvent(s, e).Some? {
        RequestSafety.NextKeepsInv(s.client, WaitEvent(s, e).value);
      }
    }
  }

  lemma {:induction false} RunKeepsInv(start: System, events: seq<Event>)
    requires Initial(start)
    ensures Inv(Run(start, events))
  {
    hide Next;
    if events == [] {
      Q.RunKeepsInv([]);
      RequestSafety.RunFromInitial(start.client, []);
    } else {
      RunKeepsInv(start, events[..|events| - 1]);
      NextKeepsInv(Run(start, events[..|events| - 1]), events[|events| - 1]);
    }
  }

  // ---------------------------------------------------------------- main results

  /** What stands behind a success that a caller of `command` was given. */
  ghost predicate Backed(start: System, events: seq<Event>, f: nat, state: DeviceState, k: nat, i: nat, n: nat)
  {
    && var s, trace := Run(start, events), WaitTrace(start, events);
    && k < |s.queue.popped| && f in s.queue.popped[k].waiters
    && Confirmation.ConfirmedAt(start.client, trace, n, i, state)
    && R.Run(start.client, trace[..n]).requests[i].command == Some(s.queue.popped[k].command)
  }

  /**
   * On every run of the client, whatever is lost, forged, delayed or closed: a caller that was
   * given a state as the result of its command was given it because a datagram of the
   * configured device, received after the wait was registered, showed by its own fields the
   * value of the command that represents the caller.
   */
  lemma {:induction false} CommandSuccessIsConfirmed(start: System, events: seq<Event>, f: nat, state: DeviceState)
    requires Initial(start) && f < |Run(start, events).queue.callers|
    requires Run(start, events).queue.callers[f] == Q.Done(Success(state))
    ensures exists k: nat, i: nat, n: nat :: Backed(start, events, f, state, k, i, n)
  {
    RunKeepsInv(start, events);
    RunIsBothRuns(start, events);
    var s := Run(start, events);
    Q.CallersGetTheirEntrysOutcome(QueueTrace(start, events), f);
    hide Q.Inv, RequestSafety.Inv, Run, QueueTrace, Q.Run, R.Run, WaitTrace;
    var k: nat :| k < |s.queue.popped| == |s.queue.outcomes| && f in s.queue.popped[k].waiters
               && s.queue.outcomes[k] == Some(Success(state));
    assert Explained(s.client, s.queue.popped[k].command, Success(state));
    var i: nat :| i < |s.client.requests| && WaitReturned(s.client.requests[i], s.queue.popped[k].command, Success(state));
    Confirmation.SuccessIsConfirmed(start.client, WaitTrace(start, events), i, state);
    var n: nat :| Confirmation.ConfirmedAt(start.client, WaitTrace(start, events), n, i, state);
    Confirmation.CommandIsFixed(start.client, WaitTrace(start, events), n, i);
    assert Backed(start, events, f, state, k, i, n);
  }

  /**
   * Whatever a caller is told comes from where it should: the outcome of a wait for the command
   * that represents the caller, the closing of the client, or the codec's refusal of the command.
   */
  lemma {:induction false} OutcomeIsExplained(start: System, events: seq<Event>, f: nat)
    requires Initial(start) && f < |Run(start, events).queue.callers| && Run(start, events).queue.callers[f].Done?
    ensures var s := Run(start, events);
      || (s.queue.callers[f].outcome == CLOSED && s.client.closed)
      || exists k: nat :: k < |s.queue.popped| && f in s.queue.popped[k].waiters
           && Explained(s.client, s.queue.popped[k].command, s.queue.callers[f].outcome)
  {
    RunKeepsInv(start, events);
    RunIsBothRuns(start, events);
    var s := Run(start, events);
    ClosedOrFromItsEntry(s.queue, f);
    if !s.queue.closed || s.queue.callers[f].outcome != CLOSED {
      hide Q.Inv, RequestSafety.Inv, Run, QueueTrace, Q.Run, R.Run, WaitTrace, Explained;
      var k: nat :| k < |s.queue.popped| == |s.queue.outcomes| && f in s.queue.popped[k].waiters
                 && s.queue.outcomes[k] == Some(s.queue.callers[f].outcome);
      assert Explained(s.client, s.queue.popped[k].command, s.queue.callers[f].outcome);
    }
  }

  lemma ClosedOrFromItsEntry(q: Q.Queue, f: nat)
    requires Q.Inv(q) && f < |q.callers| && q.callers[f].Done?
    ensures (q.closed && q.callers[f].outcome == CLOSED)
         || exists k: nat :: k < |q.popped| == |q.outcomes| && f in q.popped[k].waiters
              && q.outcomes[k] == Some(q.callers[f].outcome)
  {
    var k := Q.EntryOf(Q.All(q), q.submitted, f);
    hide Q.Tiles, Q.QueuedInv, Q.DiscardedInv, Q.TasksInv;
    if k >= |q.popped| {
      Q.UntakenFuture(q, k, f);
      NotDiscardedWhileOpen(q, k, f);
    } else {
      assert Q.AllDecided(q, q.popped[k].waiters, q.outcomes[k]);
    }
  }

  lemma NotDiscardedWhileOpen(q: Q.Queue, k: nat, f: nat)
    requires Q.Inv(q) && |q.popped| <= k < |Q.All(q)| && f in Q.All(q)[k].waiters
    ensures f < |q.callers| && (q.closed || !q.callers[f].Done?)
  {
    hide Q.Tiles, Q.TasksInv, Q.PoppedInv;
    var i := k - |q.popped|;
    if i >= |q.discarded| {
      assert Q.AllUndecided(q, q.queue[i - |q.discarded|].waiters);
    } else {
      assert Q.AllDropped(q, q.discarded[i].waiters);
    }
  }

  // ---------------------------------------------------------------- every caller is served

  /** The steps that carry on the work: of the worker, and of the wait that it runs. */
  predicate Advances(s: System, e: Event)
  {
    || e.Pop? || e.Execute? || e.TakeOutcome? || e.Clear? || e.Exit?
    || (e.Wait? && RequestSafety.IsOwn(e.event) && !e.event.Cancelled? && RunsWait(s, e.event.request))
  }

  predicate RunsWait(s: System, i: nat)
  {
    Q.WorkerPhase(s.queue).Running? && Q.WorkerPhase(s.queue).request == i
  }

  /** How many steps of the wait that the worker runs can still come. */
  function WaitRank(s: System): nat
  {
    var phase := Q.WorkerPhase(s.queue);
    if phase.Running? && phase.request < |s.client.requests| && RequestSafety.Counted(s.client.requests[phase.request])
    then RequestSafety.Rank(s.client.requests[phase.request]) else 0
  }

  ghost function Rank(s: System, f: nat): nat
  {
    16 * Q.Rank(s.queue, f) + WaitRank(s)
  }

  lemma WaitRankIsSmall(s: System)
    requires Inv(s)
    ensures WaitRank(s) < 16
  {
    hide Q.Inv;
    var phase := Q.WorkerPhase(s.queue);
    if phase.Running? {
      assert RunsItsCommand(s, s.queue.workerTask.value);
      assert RequestSafety.RequestOk(s.client, s.client.requests[phase.request]);
    }
  }

  /** Some step that carries on the work is enabled. */
  ghost predicate GoesOn(s: System)
  {
    exists e :: Advances(s, e) && Enabled(s, e)
  }

  /** While a caller of an open client is undecided there is a step that carries on the work. */
  lemma WorkCanGoOn(start: System, events: seq<Event>, f: nat)
    requires Initial(start) && f < |Run(start, events).queue.callers|
    requires Run(start, events).queue.callers[f].Waiting? && !Run(start, events).queue.closed
    ensures GoesOn(Run(start, events))
  {
    RunKeepsInv(start, events);
    hide Run;
    var s := Run(start, events);
    Q.WaitingHasWorker(s.queue, f);
    var t := s.queue.workerTask.value;
    if s.queue.tasks[t].phase.Running? {
      RunningGoesOn(s, t, s.queue.tasks[t].phase.request);
    } else if s.queue.tasks[t].phase.Popped? {
      PoppedGoesOn(s, t);
    } else {
      TaskGoesOn(s, t);
    }
  }

  lemma TaskGoesOn(s: System, t: nat)
    requires Q.Alive(s.queue, t) && !Q.Executing(s.queue.tasks[t].phase)
    ensures GoesOn(s)
  {
    var phase := s.queue.tasks[t].phase;
    var e := if phase.Clearing? then Clear(t) else if phase.Exiting? then Exit(t) else Pop(t);
    assert Enabled(s, e) && Advances(s, e);
  }

  lemma PoppedGoesOn(s: System, t: nat)
    requires Inv(s) && s.queue.workerTask == Some(t) && t < |s.queue.tasks| && s.queue.tasks[t].phase.Popped?
    ensures GoesOn(s)
  {
    OutcomeOfWorker(s.queue, t);
    hide Q.Inv, RequestSafety.Inv, OutcomesExplained, RunsItsCommand;
    assert Enabled(s, Execute(t, None, s.client.now)) && Advances(s, Execute(t, None, s.client.now));
  }

  lemma RunningGoesOn(s: System, t: nat, i: nat)
    requires Inv(s) && s.queue.workerTask == Some(t) && t < |s.queue.tasks|
    requires s.queue.tasks[t].phase.Running? && s.queue.tasks[t].phase.request == i
    ensures GoesOn(s)
  {
    assert RunsItsCommand(s, t);
    OutcomeOfWorker(s.queue, t);
    hide Q.Inv, Joined, GoesOn;
    if s.client.requests[i].phase.Ended? {
      hide RequestSafety.Inv;
      EndedWaitGoesOn(s, t, i);
    } else {
      RequestSafety.EveryWaitEnds(s.client, R.Start, i);
      hide RequestSafety.Inv, RequestSafety.Counted, RequestSafety.Rank, R.Next, R.Enabled, RequestSafety.OwnEvent;
      var w :| RequestSafety.OwnEvent(w, i) && !w.Cancelled? && R.Enabled(s.client, w);
      OwnWaitGoesOn(s, t, i, w);
    }
  }

  lemma EndedWaitGoesOn(s: System, t: nat, i: nat)
    requires t < |s.queue.tasks| && s.queue.tasks[t].phase.Running? && s.queue.tasks[t].phase.request == i
    requires i < |s.client.requests| && s.client.requests[i].phase.Ended? && s.client.requests[i].phase.outcome.Some?
    requires s.queue.outcomes != []
    ensures GoesOn(s)
  {
    assert Enabled(s, TakeOutcome(t)) && Advances(s, TakeOutcome(t));
  }

  lemma OwnWaitGoesOn(s: System, t: nat, i: nat, w: R.Event)
    requires s.queue.workerTask == Some(t) && t < |s.queue.tasks|
    requires s.queue.tasks[t].phase.Running? && s.queue.tasks[t].phase.request == i
    requires RequestSafety.OwnEvent(w, i) && !w.Cancelled? && R.Enabled(s.client, w)
    ensures GoesOn(s)
  {
    hide R.Enabled;
    assert Enabled(s, Wait(w)) && Advances(s, Wait(w));
  }

  /** An executing worker has a place for its outcome. */
  lemma OutcomeOfWorker(q: Q.Queue, t: nat)
    requires Q.Inv(q) && t < |q.tasks| && Q.Executing(q.tasks[t].phase)
    ensures q.outcomes != [] && q.workerTask == Some(t)
  {
    hide Q.FuturesInv;
  }

  lemma QuietQueueStep(q: Q.Queue, e: Q.Event)
    requires Q.Inv(q) && !q.closed && Q.WorkerPhase(q) != Q.Gone && (e.ESubmit? || e.ECancelCaller?)
    ensures Q.WorkerPhase(Q.Next(q, e)) == Q.WorkerPhase(q)
  {
    hide Q.Inv, Q.Entered;
  }

  lemma WaitOnlyRank(s: System, e: R.Event)
    requires Inv(s)
    ensures var s' := System(s.queue, R.Next(s.client, e));
      && WaitRank(s') <= WaitRank(s)
      && (RequestSafety.IsOwn(e) && R.Enabled(s.client, e) && RunsWait(s, e.request) ==> WaitRank(s') < WaitRank(s))
  {
    hide Q.Inv, R.Next;
    var phase := Q.WorkerPhase(s.queue);
    if phase.Running? {
      assert RunsItsCommand(s, s.queue.workerTask.value);
      RequestSafety.EveryWaitEnds(s.client, e, phase.request);
      hide RequestSafety.Inv, RequestSafety.Counted, RequestSafety.Rank, R.Enabled;
      if RequestSafety.OwnEvent(e, phase.request) && !R.Enabled(s.client, e) {
        RequestSafety.UnchangedWhenDisabled(s.client, e);
      }
    }
  }

  lemma WorkerStepRank(s: System, e: Event, f: nat)
    requires Inv(s) && Enabled(s, e) && !Next(s, e).queue.closed
    requires QueueEvent(s, e).Some? && Q.WorkerStep(QueueEvent(s, e).value)
    requires f < |s.queue.callers| <= |Next(s, e).queue.callers|
    requires s.queue.callers[f].Waiting? && Next(s, e).queue.callers[f].Waiting?
    ensures Rank(Next(s, e), f) < Rank(s, f)
  {
    NextKeepsInv(s, e);
    WaitRankIsSmall(Next(s, e));
    EnabledQueueEvent(s, e);
    Q.RankNeverGrows(s.queue, QueueEvent(s, e).value, f);
    hide Inv, Q.Next, R.Next, Q.Rank, WaitRank, QueueEvent, WaitEvent, Enabled;
  }

  lemma QuietStepRank(s: System, e: Event, f: nat)
    requires Inv(s) && Enabled(s, e) && !Next(s, e).queue.closed
    requires QueueEvent(s, e).Some? && !Q.WorkerStep(QueueEvent(s, e).value)
    requires f < |s.queue.callers| <= |Next(s, e).queue.callers|
    requires s.queue.callers[f].Waiting? && Next(s, e).queue.callers[f].Waiting?
    ensures Rank(Next(s, e), f) <= Rank(s, f) && !Advances(s, e)
  {
    var qe := QueueEvent(s, e).value;
    EnabledQueueEvent(s, e);
    Q.ClosedStays(s.queue, qe);
    NotCancelled(s.queue);
    Q.WaitingHasWorker(s.queue, f);
    assert e.Submit? || e.CancelCaller? by {
      hide Inv;
    }
    hide R.Next;
    Q.RankNeverGrows(s.queue, qe, f);
    QuietQueueStep(s.queue, qe);
    hide Inv, Q.Next, Q.Rank, Q.WorkerPhase, Enabled;
  }

  /**
   * On an open client every step that carries on the work brings each undecided caller nearer
   * to its outcome, and nothing else, from the network or from other callers, takes it away.
   */
  lemma {:induction false} RankNeverGrows(s: System, e: Event, f: nat)
    requires Inv(s) && Enabled(s, e) && !Next(s, e).queue.closed
    requires f < |s.queue.callers| <= |Next(s, e).queue.callers|
    requires s.queue.callers[f].Waiting? && Next(s, e).queue.callers[f].Waiting?
    ensures Rank(Next(s, e), f) <= Rank(s, f)
    ensures Advances(s, e) ==> Rank(Next(s, e), f) < Rank(s, f)
  {
    if QueueEvent(s, e).None? {
      hide Inv;
      WaitOnlyRank(s, WaitEvent(s, e).value);
      hide R.Next, Q.Rank, WaitRank;
    } else {
      hide Inv, Enabled, Next, Rank, Advances;
      if Q.WorkerStep(QueueEvent(s, e).value) {
        WorkerStepRank(s, e, f);
      } else {
        QuietStepRank(s, e, f);
      }
    }
  }

  lemma EnabledQueueEvent(s: System, e: Event)
    requires Inv(s) && Enabled(s, e) && QueueEvent(s, e).Some?
    ensures Q.Enabled(s.queue, QueueEvent(s, e).value)
  {
    hide Q.Inv, RequestSafety.Inv;
  }

  lemma NotCancelled(q: Q.Queue)
    requires Q.Inv(q) && !q.closed
    ensures !q.drained && forall t: nat :: t < |q.tasks| ==> !q.tasks[t].cancelRequested
  {
    hide Q.Tiles;
  }

  lemma CallersStay(s: System, e: Event, f: nat)
    requires f < |s.queue.callers|
    ensures |s.queue.callers| <= |Next(s, e).queue.callers|
    ensures !s.queue.callers[f].Waiting? ==> Next(s, e).queue.callers[f] == s.queue.callers[f]
    ensures s.queue.closed ==> Next(s, e).queue.closed
  {
    hide Enabled, QueueEvent, Q.Next;
    if QueueEvent(s, e).Some? {
      Q.DecidedForGood(s.queue, QueueEvent(s, e).value, f);
      Q.ClosedStays(s.queue, QueueEvent(s, e).value);
    }
  }

  lemma {:induction false} CallersGrow(start: System, past: seq<Event>, more: seq<Event>)
    ensures |Run(start, past).queue.callers| <= |Run(start, past + more).queue.callers|
  {
    hide Next;
    if more == [] {
      assert past + more == past;
    } else {
      var init, e := more[..|more| - 1], more[|more| - 1];
      assert (past + more)[..|past + more| - 1] == past + init;
      assert Run(start, past + more) == Next(Run(start, past + init), e);
      hide Run;
      CallersGrow(start, past, init);
      if |Run(start, past + init).queue.callers| > 0 {
        CallersStay(Run(start, past + init), e, 0);
      }
    }
  }

  /** How many steps of the second part of the run carried on the work. */
  ghost function AdvancingSteps(start: System, past: seq<Event>, more: seq<Event>): nat
  {
    if more == [] then 0
    else
      var init, e := more[..|more| - 1], more[|more| - 1];
      var s := Run(start, past + init);
      AdvancingSteps(start, past, init) + if Advances(s, e) && Enabled(s, e) then 1 else 0
  }

  /**
   * On every run of an open client a caller can stay undecided only for as many steps that carry
   * on the work as its rank said, whatever the network and the other callers do in between.
   */
  lemma {:induction false} ServedWithinItsRank(start: System, past: seq<Event>, more: seq<Event>, f: nat)
    requires Initial(start) && f < |Run(start, past).queue.callers| <= |Run(start, past + more).queue.callers|
    requires Run(start, past + more).queue.callers[f].Waiting? && !Run(start, past + more).queue.closed
    ensures AdvancingSteps(start, past, more) + Rank(Run(start, past + more), f) <= Rank(Run(start, past), f)
  {
    hide Next, Rank, Enabled, Advances;
    if more == [] {
      assert past + more == past;
    } else {
      var init, e := more[..|more| - 1], more[|more| - 1];
      var before := Run(start, past + init);
      assert (past + more)[..|past + more| - 1] == past + init;
      assert Run(start, past + more) == Next(before, e);
      CallersGrow(start, past, init);
      CallersStay(before, e, f);
      ServedWithinItsRank(start, past, init, f);
      RunKeepsInv(start, past + init);
      hide Run, Initial, Inv;
      if Enabled(before, e) {
        RankNeverGrows(before, e, f);
      } else {
        NothingWhenDisabled(before, e);
      }
    }
  }

  lemma NothingWhenDisabled(s: System, e: Event)
    requires !Enabled(s, e)
    ensures Next(s, e) == s
  {}
}
