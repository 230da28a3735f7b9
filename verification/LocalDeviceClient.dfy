/**
 * The client object itself (transport.py): its fields, and its methods cut at their awaits.
 * Every step method does to the object what the transition of the same name does to the system
 * in Transport, and appends it to the object's trace: the object is always where the run of its
 * trace is, so that what is proved about all runs is read off the object.
 */
module LocalDeviceClient {
  import opened Bytes
  import opened Models
  import Q = CommandQueue
  import R = Requests
  import T = Transport
  import RequestSafety
  import DuplicateCache
  import Codecs
  import M25
  import Confirmation
  import Availability

  /** One more event of a run. */
  lemma Extends(start: T.System, trace: seq<T.Event>, e: T.Event)
    ensures T.Run(start, trace + [e]) == T.Next(T.Run(start, trace), e)
  {
    hide T.Next;
    assert (trace + [e])[..|trace|] == trace;
  }

  /** What every run leaves and the methods below rely on. */
  ghost predicate Settled(s: T.System)
  {
    && (s.queue.tasks != [] ==> s.client.connected || s.client.closed)
    && (s.queue.drained ==> s.queue.closed)
    && (forall t: nat :: t < |s.queue.tasks| && Q.Executing(s.queue.tasks[t].phase) ==> s.queue.outcomes != [])
    && (forall t: nat :: t < |s.queue.tasks| && s.queue.tasks[t].phase.Running? ==>
          RunsAWait(s.client, s.queue.tasks[t].phase.request))
  }

  predicate RunsAWait(c: R.Client, i: nat)
  {
    i < |c.requests| && c.requests[i].phase != R.Ended(None)
  }

  lemma RunIsSettled(start: T.System, trace: seq<T.Event>)
    requires T.Initial(start)
    ensures Settled(T.Run(start, trace))
  {
    T.RunKeepsInv(start, trace);
    hide T.Run, RequestSafety.Inv, T.OutcomesExplained;
    var s := T.Run(start, trace);
    forall t: nat | t < |s.queue.tasks| && s.queue.tasks[t].phase.Running?
      ensures RunsAWait(s.client, s.queue.tasks[t].phase.request)
    {
      assert T.RunsItsCommand(s, t);
    }
    forall t: nat | t < |s.queue.tasks| && Q.Executing(s.queue.tasks[t].phase) ensures s.queue.outcomes != [] {
      T.OutcomeOfWorker(s.queue, t);
    }
    hide Q.TasksInv, Q.PoppedInv, Q.QueuedInv, Q.DiscardedInv, Q.Tiles;
  }

  lemma WorkerCanExecute(start: T.System, trace: seq<T.Event>, t: nat)
    requires T.Initial(start) && T.PhaseOf(T.Run(start, trace), t).Popped?
    ensures var s := T.Run(start, trace); s.queue.outcomes != [] && (s.client.connected || s.client.closed)
  {
    RunIsSettled(start, trace);
    hide T.Run, T.Initial;
  }

  lemma WorkerCanResolve(start: T.System, trace: seq<T.Event>, t: nat)
    requires T.Initial(start) && t < |T.Run(start, trace).queue.tasks|
    ensures var q := T.Run(start, trace).queue; Q.Executing(q.tasks[t].phase) ==> q.outcomes != []
  {
    RunIsSettled(start, trace);
    hide T.Run, T.Initial;
  }

  lemma CanBeDrained(start: T.System, trace: seq<T.Event>)
    requires T.Initial(start)
    ensures T.Run(start, trace).queue.drained ==> T.Run(start, trace).queue.closed
  {
    RunIsSettled(start, trace);
    hide T.Run, T.Initial;
  }

  ghost predicate IsBacked(start: T.System, trace: seq<T.Event>, f: nat, state: DeviceState)
  {
    exists k: nat, i: nat, n: nat :: T.Backed(start, trace, f, state, k, i, n)
  }

  /** What a run says of the future of one of its callers. */
  lemma FutureOfACaller(start: T.System, trace: seq<T.Event>, f: nat)
    requires T.Initial(start) && f < |T.Run(start, trace).queue.callers|
    ensures var s := T.Run(start, trace);
      && (s.queue.callers[f].Done? && s.queue.callers[f].outcome.Success? ==>
            IsBacked(start, trace, f, s.queue.callers[f].outcome.state))
      && (s.queue.callers[f].Waiting? ==> !s.queue.drained && Q.Occurrences(Q.Places(s.queue), f) == 1)
      && (s.queue.callers[f].Waiting? && !s.queue.closed ==> T.GoesOn(s))
  {
    T.RunKeepsInv(start, trace);
    T.RunIsBothRuns(start, trace);
    hide T.Run, T.Initial, Q.Inv, RequestSafety.Inv, T.Joined, T.Backed, T.GoesOn, Q.Places, Q.Occurrences;
    var s := T.Run(start, trace);
    if s.queue.callers[f].Waiting? {
      Q.NoCallerIsLost(T.QueueTrace(start, trace), f);
      if s.queue.drained {
        Q.NothingWaitsWhenDrained(s.queue, f);
      }
      if !s.queue.closed {
        T.WorkCanGoOn(start, trace, f);
      }
    } else if s.queue.callers[f].Done? && s.queue.callers[f].outcome.Success? {
      T.CommandSuccessIsConfirmed(start, trace, f, s.queue.callers[f].outcome.state);
    }
  }

  lemma WaitsOfARun(start: T.System, trace: seq<T.Event>)
    requires T.Initial(start)
    ensures T.Run(start, trace).client.available <==>
      Availability.HeardSinceGivingUp(start.client, T.WaitTrace(start, trace))
    ensures Confirmation.StateIsHeard(T.Run(start, trace).client)
  {
    T.RunIsBothRuns(start, trace);
    hide T.Run, T.WaitTrace, Confirmation.StateIsHeard, Availability.HeardSinceGivingUp, R.Run;
    Availability.AvailableIff(start.client, T.WaitTrace(start, trace));
    Confirmation.ReportedFieldsAreTheLatest(start.client, T.WaitTrace(start, trace));
  }

  lemma ExtendsTwice(start: T.System, trace: seq<T.Event>, a: T.Event, b: T.Event)
    ensures T.Run(start, trace + [a, b]) == T.Next(T.Next(T.Run(start, trace), a), b)
  {
    hide T.Run, T.Next;
    Extends(start, trace, a);
    Extends(start, trace + [a], b);
    assert trace + [a] + [b] == trace + [a, b];
  }

  /** A step that is the queue's alone. */
  lemma QueueStep(s: T.System, e: T.Event)
    requires e.Submit? || e.CancelCaller? || e.Pop? || e.Clear? || e.Exit? || e.CloseDrain?
    requires e.Submit? ==> s.client.connected || s.client.closed
    requires Q.Enabled(s.queue, T.QueueEvent(s, e).value)
    ensures T.Next(s, e) == T.System(Q.Next(s.queue, T.QueueEvent(s, e).value), s.client)
  {
    hide Q.Next, Q.Enabled;
  }

  /** A step that is the waits' alone. */
  lemma WaitStep(s: T.System, e: T.Event)
    requires e.Start? || e.Receive? || e.Refresh? || (e.Wait? && RequestSafety.IsOwn(e.event))
    requires e.Wait? && e.event.Cancelled? ==> !T.Executed(s, e.event.request)
    requires R.Enabled(s.client, T.WaitEvent(s, e).value)
    ensures T.Next(s, e) == T.System(s.queue, R.Next(s.client, T.WaitEvent(s, e).value))
  {
    hide R.Next, R.Enabled, T.Executed;
  }

  lemma SubmitStep(s: T.System, command: Command)
    requires s.client.connected || s.client.closed
    ensures T.Next(s, T.Submit(command)) == T.System(Q.Submit(s.queue, command), s.client)
  {
    hide Q.Submit;
  }

  lemma PopStep(s: T.System, t: nat)
    requires t < |s.queue.tasks| && (s.queue.tasks[t].phase.Fresh? || s.queue.tasks[t].phase.AtTop?)
    ensures T.Next(s, T.Pop(t)) == T.System(Q.Pop(s.queue, t), s.client)
  {
    hide Q.Pop;
  }

  lemma ClearStep(s: T.System, t: nat)
    requires t < |s.queue.tasks| && s.queue.tasks[t].phase.Clearing?
    ensures T.Next(s, T.Clear(t)) == T.System(Q.Clear(s.queue, t), s.client)
  {
    hide Q.Clear;
  }

  lemma ExitStep(s: T.System, t: nat)
    requires t < |s.queue.tasks| && s.queue.tasks[t].phase.Exiting?
    ensures T.Next(s, T.Exit(t)) == T.System(Q.Exit(s.queue, t), s.client)
  {
    hide Q.Exit;
  }

  lemma TimeOutStep(s: T.System, i: nat, failAt: Option<nat>)
    requires i < |s.client.requests| && s.client.requests[i].phase.Waiting?
    ensures T.Next(s, T.Wait(R.TimedOut(i, failAt))) == T.System(s.queue, R.Timeout(s.client, i, failAt))
  {
    hide R.Timeout, T.Executed;
  }

  lemma ExecuteStep(s: T.System, t: nat, failAt: Option<nat>, at: real)
    requires t < |s.queue.tasks| && s.queue.tasks[t].phase.Popped? && s.queue.outcomes != []
    requires s.client.now <= at && (s.client.connected || s.client.closed)
    ensures var prepared := R.PrepareCommand(s.client.(now := at), s.queue.tasks[t].phase.entry.command, at);
      T.Next(s, T.Execute(t, failAt, at)) == T.System(
        if prepared.1.Err? then Q.Resolve(s.queue, t, Failure(prepared.1.error), false)
        else Q.Start(s.queue, t, |s.client.requests|),
        R.Begin(prepared, failAt))
  {
    hide R.PrepareCommand, R.Begin, Q.Resolve, Q.Start;
  }

  lemma RefreshStep(s: T.System, failAt: Option<nat>, at: real)
    requires s.client.now <= at && (s.client.connected || s.client.closed)
    ensures T.Next(s, T.Refresh(failAt, at))
         == T.System(s.queue, R.Begin(R.PrepareRefresh(s.client.(now := at), at), failAt))
  {
    hide R.PrepareRefresh, R.Begin;
  }

  lemma ReceiveStep(s: T.System, data: bytes, source: Endpoint, at: real)
    requires s.client.now <= at && (s.client.connected || s.client.closed)
    ensures T.Next(s, T.Receive(data, source, at)) == T.System(s.queue, R.Receive(s.client, data, source, at))
  {
    hide R.Receive;
  }

  lemma {:induction false} RemoveFirst(s: seq<nat>, i: nat, k: nat)
    requires k <= |s| && i !in s[..k] && (k < |s| ==> s[k] == i)
    ensures R.Remove(s, i) == if k < |s| then s[..k] + s[k + 1..] else s
  {
    if k > 0 {
      var rest := s[1..];
      assert s[..k] == [s[0]] + rest[..k - 1];
      RemoveFirst(rest, i, k - 1);
      if k < |s| {
        assert s[k + 1..] == rest[k..];
        assert [s[0]] + (rest[..k - 1] + rest[k..]) == s[..k] + s[k + 1..];
      } else {
        assert s == [s[0]] + rest;
      }
    }
  }

  class LocalDeviceClient {
    const model: DeviceModel
    const port: u16
    var host: string
    var identity: Identity
    var state: Option<DeviceState>
    var available: bool
    var lastStateAt: Option<real>
    var started: bool
    var closed: bool
    var pending: seq<nat>
    var queue: seq<Q.Entry>
    var workerTask: Option<nat>
    var activeWaiters: seq<nat>
    var outerSequence: u16
    var innerSequence: u16
    var recentDatagrams: DuplicateCache.Arrivals

    // What the event loop keeps for the client: futures of callers, tasks, waits and its clock.
    var callers: seq<Q.Future>
    var tasks: seq<Q.Task>
    var requests: seq<R.Request>
    var clock: real
    var contexts: nat

    // History, for the specification only.
    ghost var drained: bool
    ghost var submitted: seq<Command>
    ghost var popped: seq<Q.Entry>
    ghost var outcomes: seq<Option<Outcome>>
    ghost var discarded: seq<Q.Entry>
    ghost var heard: seq<DeviceState>
    ghost const start: T.System
    ghost var trace: seq<T.Event>

    ghost function QueueView(): Q.Queue
      reads this
    {
      Q.Queue(closed, drained, callers, queue, activeWaiters, workerTask, tasks, submitted, popped, outcomes, discarded)
    }

    ghost function WaitsView(): R.Client
      reads this
    {
      R.Client(model, port, host, identity, started, closed, clock, state, available, lastStateAt, outerSequence,
               innerSequence, requests, pending, recentDatagrams, contexts, heard)
    }

    ghost function View(): T.System
      reads this
    {
      T.System(QueueView(), WaitsView())
    }

    /** The object is where the run of its trace is; closing leaves nothing queued. */
    ghost predicate Valid()
      reads this
    {
      T.Initial(start) && View() == T.Run(start, trace) && (closed ==> drained)
    }

    constructor (host: string, identity: Identity, model: DeviceModel, port: u16)
      ensures Valid() && trace == [] && View() == T.Initially(model, identity, host, port)
    {
      start, trace := T.Initially(model, identity, host, port), [];
      this.model := model;
      this.port := port;
      this.host := host;
      this.identity := identity;
      state, available, lastStateAt := None, false, None;
      started, closed := false, false;
      pending, queue, workerTask, activeWaiters := [], [], None, [];
      outerSequence, innerSequence := 0, 0;
      recentDatagrams := [];
      callers, tasks, requests, clock, contexts := [], [], [], 0.0, 0;
      drained, submitted, popped, outcomes, discarded, heard := false, [], [], [], [], [];
    }

    /** The step is noted down. */
    ghost method Record(before: T.System, e: T.Event)
      requires T.Initial(start) && before == T.Run(start, trace) && View() == T.Next(before, e) && (closed ==> drained)
      modifies `trace
      ensures Valid() && trace == old(trace) + [e]
    {
      hide T.Next, T.Run, T.Initial;
      Extends(start, trace, e);
      trace := trace + [e];
    }

    /** start, when the shared endpoint can be acquired; a closed client raises. */
    method Start() returns (ok: bool)
      requires Valid()
      modifies `started, `trace
      ensures Valid() && trace == old(trace) + [T.Start] && View() == T.Next(old(View()), T.Start)
      ensures ok == !old(closed)
    {
      ghost var before := View();
      hide T.Run, T.Initial;
      ok := !closed;
      if ok {
        started := true;
      }
      Record(before, T.Start);
    }

    // -------------------------------------------------------------- the command queue

    method CreateWorker()
      modifies `tasks, `workerTask
      ensures QueueView() == Q.Spawn(old(QueueView()))
    {
      workerTask := Some(|tasks|);
      tasks := tasks + [Q.Task(Q.Fresh, false)];
    }

    method SetPhase(t: nat, phase: Q.Phase)
      requires t < |tasks|
      modifies `tasks
      ensures QueueView() == Q.AtPhase(old(QueueView()), t, phase)
    {
      tasks := tasks[t := tasks[t].(phase := phase)];
    }

    /** The queue's share of a command: coalesce with the last entry, or a new entry. */
    method Enter(command: Command)
      modifies `callers, `queue, `submitted
      ensures callers == old(callers) + [Q.Waiting] && submitted == old(submitted) + [command]
      ensures queue == Q.Entered(old(queue), command, |old(callers)|)
    {
      var future := |callers|;
      callers := callers + [Q.Waiting];
      submitted := submitted + [command];
      if command.IsCoalescible() && queue != [] && queue[|queue| - 1].command.IsCoalescible() {
        var last := |queue| - 1;
        queue := queue[last := Q.Entry(command, queue[last].waiters + [future])];
      } else {
        queue := queue + [Q.Entry(command, [future])];
      }
    }

    /** command, up to the wait for its future. */
    method SubmitCommand(command: Command) returns (future: Option<nat>)
      requires Valid() && (started || closed)
      modifies `callers, `queue, `submitted, `tasks, `workerTask, `trace
      ensures Valid() && trace == old(trace) + [T.Submit(command)]
      ensures View() == T.Next(old(View()), T.Submit(command))
      ensures future == if old(closed) then None else Some(old(|callers|))
    {
      ghost var before := View();
      hide T.Run, T.Initial, T.Next, Q.Submit;
      SubmitStep(before, command);
      future := Enqueue(command);
      Record(before, T.Submit(command));
    }

    /** The region of `command` under the queue lock. */
    method Enqueue(command: Command) returns (future: Option<nat>)
      modifies `callers, `queue, `submitted, `tasks, `workerTask
      ensures QueueView() == Q.Submit(old(QueueView()), command)
      ensures future == if closed then None else Some(old(|callers|))
    {
      hide Q.Entered;
      if closed {
        return None;
      }
      future := Some(|callers|);
      Enter(command);
      if workerTask == None || workerTask.value >= |tasks| || tasks[workerTask.value].phase.Gone? {
        CreateWorker();
      }
    }

    /** The caller that awaits this future is cancelled. */
    method CancelCaller(f: nat)
      requires Valid() && f < |callers| && callers[f].Waiting?
      modifies `callers, `trace
      ensures Valid() && trace == old(trace) + [T.CancelCaller(f)]
      ensures View() == T.Next(old(View()), T.CancelCaller(f))
    {
      ghost var before := View();
      hide T.Run, T.Initial;
      QueueStep(View(), T.CancelCaller(f));
      hide T.Next;
      callers := callers[f := Q.CallerCancelled];
      Record(before, T.CancelCaller(f));
    }

    /** The region of the worker under the queue lock. */
    method PopHead(t: nat)
      requires t < |tasks|
      modifies `queue, `activeWaiters, `popped, `outcomes, `tasks
      ensures QueueView() == Q.Pop(old(QueueView()), t)
    {
      if queue == [] {
        SetPhase(t, Q.Exiting);
      } else {
        var queued := queue[0];
        queue := queue[1..];
        activeWaiters := queued.waiters;
        popped, outcomes := popped + [queued], outcomes + [None];
        SetPhase(t, Q.Popped(queued));
      }
    }

    /** The top of the loop of _command_worker. */
    method TakeNext(t: nat)
      requires Valid() && t < |tasks| && (tasks[t].phase.Fresh? || tasks[t].phase.AtTop?)
      modifies `queue, `activeWaiters, `popped, `outcomes, `tasks, `trace
      ensures Valid() && trace == old(trace) + [T.Pop(t)]
      ensures View() == T.Next(old(View()), T.Pop(t))
    {
      ghost var before := View();
      hide T.Run, T.Initial, T.Next, Q.Pop;
      PopStep(before, t);
      PopHead(t);
      Record(before, T.Pop(t));
    }

    /** _set_result_all and _set_exception_all. */
    method SetAll(waiters: seq<nat>, outcome: Outcome)
      modifies `callers
      ensures callers == Q.SetAll(old(callers), waiters, outcome)
    {
      var k := 0;
      while k < |waiters|
        invariant 0 <= k <= |waiters| && |callers| == |old(callers)|
        invariant forall i :: 0 <= i < |callers| ==>
          callers[i] == if i in waiters[..k] && old(callers)[i].Waiting? then Q.Done(outcome) else old(callers)[i]
      {
        var f := waiters[k];
        if f < |callers| && callers[f].Waiting? {
          callers := callers[f := Q.Done(outcome)];
        }
        k := k + 1;
      }
    }

    method Resolve(t: nat, outcome: Outcome, raising: bool)
      requires t < |tasks| && Q.Executing(tasks[t].phase) && outcomes != []
      modifies `callers, `outcomes, `tasks
      ensures QueueView() == Q.Resolve(old(QueueView()), t, outcome, raising)
    {
      var waiters := tasks[t].phase.entry.waiters;
      SetAll(waiters, outcome);
      outcomes := outcomes[|outcomes| - 1 := Some(outcome)];
      SetPhase(t, Q.Clearing(waiters, raising));
    }

    /** The inner `finally` of the worker. */
    method ClearActive(t: nat)
      requires Valid() && t < |tasks| && tasks[t].phase.Clearing?
      modifies `activeWaiters, `tasks, `trace
      ensures Valid() && trace == old(trace) + [T.Clear(t)]
      ensures View() == T.Next(old(View()), T.Clear(t))
    {
      ghost var before := View();
      hide T.Run, T.Initial, T.Next;
      ClearStep(before, t);
      if activeWaiters == tasks[t].phase.waiters {
        activeWaiters := [];
      }
      SetPhase(t, if tasks[t].phase.raising then Q.Exiting else Q.AtTop);
      Record(before, T.Clear(t));
    }

    /** The outer `finally` of the worker. */
    method LeaveWorker(t: nat)
      requires Valid() && t < |tasks| && tasks[t].phase.Exiting?
      modifies `workerTask, `tasks, `trace
      ensures Valid() && trace == old(trace) + [T.Exit(t)]
      ensures View() == T.Next(old(View()), T.Exit(t))
    {
      ghost var before := View();
      hide T.Run, T.Initial, T.Next;
      ExitStep(before, t);
      SetPhase(t, Q.Gone);
      if workerTask == Some(t) {
        workerTask := None;
        if queue != [] && !closed {
          CreateWorker();
        }
      }
      Record(before, T.Exit(t));
    }

    // -------------------------------------------------------------- contexts and requests

    /** _next_context. */
    method NextContext() returns (context: Context)
      modifies `outerSequence, `innerSequence, `contexts
      ensures context == R.CurrentContext(old(WaitsView())) && WaitsView() == R.TakeContext(old(WaitsView()))
    {
      context := Context(identity, outerSequence, innerSequence, Some(model), 0x04);
      outerSequence := (outerSequence + 1) % 0x1_0000;
      innerSequence := (innerSequence + 1) % 0x1_0000;
      contexts := contexts + 1;
    }

    /** _execute_command, up to the registration of its wait. */
    method PrepareCommand(command: Command) returns (r: Result<R.Request>)
      modifies `outerSequence, `innerSequence, `contexts
      ensures (WaitsView(), r) == R.PrepareCommand(old(WaitsView()), command, clock)
    {
      hide Codecs.EncodeCommand, Codecs.EncodeQuery, M25.EncodeBacklightQuery, Codecs.ExpectedKind;
      if closed {
        return Err(ClientClosed);
      }
      var first := contexts;
      var commandContext := NextContext();
      var encoded := Codecs.EncodeCommand(model, commandContext, command);
      if encoded.Err? {
        return Err(encoded.error);
      }
      var queryContext := NextContext();
      var kind := Codecs.ExpectedKind(model, command);
      var query :=
        if kind.BacklightKind? then M25.EncodeBacklightQuery(queryContext) else Codecs.EncodeQuery(model, queryContext);
      if query.Err? {
        return Err(query.error);
      }
      r := Ok(R.Request(Some(command), kind, [encoded.value, query.value],
                        {commandContext.outerSequence, queryContext.outerSequence},
                        {commandContext.innerSequence, queryContext.innerSequence},
                        clock, 3, true, R.Awaited, R.Sleeping, 0, 0, 0, first));
    }

    /** refresh, up to the registration of its wait. */
    method PrepareRefresh() returns (r: Result<R.Request>)
      modifies `outerSequence, `innerSequence, `contexts
      ensures (WaitsView(), r) == R.PrepareRefresh(old(WaitsView()), clock)
    {
      hide Codecs.EncodeQuery, M25.EncodeBacklightQuery;
      if closed {
        return Err(ClientClosed);
      }
      var first := contexts;
      var context := NextContext();
      var query := Codecs.EncodeQuery(model, context);
      if query.Err? {
        return Err(query.error);
      }
      if !FamilyForModel(model).FamilyM25? {
        r := Ok(R.Request(None, StateKind, [query.value], {context.outerSequence}, {context.innerSequence}, clock, 2,
                          false, R.Awaited, R.Sleeping, 0, 0, 0, first));
        return;
      }
      var backlightContext := NextContext();
      var backlight := M25.EncodeBacklightQuery(backlightContext);
      if backlight.Err? {
        return Err(backlight.error);
      }
      r := Ok(R.Request(None, StateKind, [query.value, backlight.value],
                        {context.outerSequence, backlightContext.outerSequence},
                        {context.innerSequence, backlightContext.innerSequence}, clock, 2,
                        false, R.Awaited, R.Sleeping, 0, 0, 0, first));
    }

    /** self._pending.remove(pending), where a missing entry is ignored. */
    method RemovePending(i: nat)
      modifies `pending
      ensures pending == R.Remove(old(pending), i)
    {
      var k := 0;
      while k < |pending| && pending[k] != i
        invariant 0 <= k <= |pending| && pending == old(pending) && i !in pending[..k]
      {
        k := k + 1;
      }
      RemoveFirst(pending, i, k);
      if k < |pending| {
        pending := pending[..k] + pending[k + 1..];
      }
    }

    /** The `finally` of _send_for_state: leave the pending list, cancel an undecided future. */
    method FinishWait(i: nat, outcome: Option<Outcome>)
      requires i < |requests|
      modifies `requests, `pending
      ensures WaitsView() == R.End(old(WaitsView()), i, outcome)
    {
      RemovePending(i);
      var r := requests[i];
      requests := requests[i := r.(phase := R.Ended(outcome), reply := if r.reply.Awaited? then R.Dropped else r.reply)];
    }

    /**
     * The inner loop of _send_for_state from one datagram on, as far as the next await.  The
     * send of datagram `failAt` raises.
     */
    method SendDatagrams(i: nat, index: nat, failAt: Option<nat>)
      requires i < |requests|
      modifies `requests, `pending
      ensures WaitsView() == R.Transmit(old(WaitsView()), i, index, failAt)
    {
      hide R.Remove;
      var k := index;
      ghost var goal := R.SendFrom(requests[i], closed, started, index, failAt);
      while k < |requests[i].datagrams|
        invariant i < |requests| == |old(requests)| && pending == old(pending) && index <= k
        invariant requests == old(requests)[i := requests[i]]
        invariant goal == R.SendFrom(requests[i], closed, started, k, failAt)
        decreases |requests[i].datagrams| - k
      {
        if closed {
          FinishWait(i, Some(CLOSED));
          return;
        }
        if !started {
          FinishWait(i, Some(Failure(DeviceUnavailable)));
          return;
        }
        var r := requests[i].(sent := requests[i].sent + 1);
        requests := requests[i := r];
        if failAt == Some(k) {
          FinishWait(i, Some(Failure(DeviceUnavailable)));
          return;
        }
        if r.paced && k + 1 < |r.datagrams| {
          requests := requests[i := r.(phase := R.Sleeping, index := k + 1)];
          return;
        }
        k := k + 1;
      }
      requests := requests[i := requests[i].(phase := R.Waiting, index := k)];
    }

    /** Register the wait, before anything is sent, and send its first datagrams. */
    method SendForState(r: R.Request, failAt: Option<nat>)
      modifies `requests, `pending
      ensures WaitsView() == R.Begin((old(WaitsView()), Ok(r)), failAt)
    {
      hide R.Transmit;
      var i := |requests|;
      requests := requests + [r];
      pending := pending + [i];
      SendDatagrams(i, 0, failAt);
    }

    method ReadClock(at: real)
      modifies `clock
      ensures WaitsView() == old(WaitsView()).(now := at)
    {
      clock := at;
    }

    /** The waits' share of a refresh, up to its first await. */
    method BeginRefresh(failAt: Option<nat>, at: real)
      modifies `clock, `outerSequence, `innerSequence, `contexts, `requests, `pending
      ensures WaitsView() == R.Begin(R.PrepareRefresh(old(WaitsView()).(now := at), at), failAt)
    {
      hide R.PrepareRefresh, R.Transmit;
      ReadClock(at);
      var r := PrepareRefresh();
      if r.Ok? {
        SendForState(r.value, failAt);
      }
    }

    /** refresh, up to its first await. */
    method Refresh(failAt: Option<nat>, at: real)
      requires Valid() && clock <= at && (started || closed)
      modifies `clock, `outerSequence, `innerSequence, `contexts, `requests, `pending, `trace
      ensures Valid() && trace == old(trace) + [T.Refresh(failAt, at)]
      ensures View() == T.Next(old(View()), T.Refresh(failAt, at))
    {
      ghost var before := View();
      hide T.Run, T.Initial, T.Next, R.PrepareRefresh, R.Begin;
      RefreshStep(before, failAt, at);
      BeginRefresh(failAt, at);
      Record(before, T.Refresh(failAt, at));
    }

    /** The waits' share of an execution; `failed` is the error of a command that cannot be encoded. */
    method BeginCommand(command: Command, failAt: Option<nat>, at: real) returns (failed: Option<Error>)
      modifies `clock, `outerSequence, `innerSequence, `contexts, `requests, `pending
      ensures var prepared := R.PrepareCommand(old(WaitsView()).(now := at), command, at);
        && WaitsView() == R.Begin(prepared, failAt)
        && failed == if prepared.1.Err? then Some(prepared.1.error) else None
    {
      hide R.PrepareCommand, R.Transmit;
      ReadClock(at);
      var r := PrepareCommand(command);
      if r.Err? {
        failed := Some(r.error);
      } else {
        SendForState(r.value, failAt);
        failed := None;
      }
    }

    /** The worker executes the command that it has taken, up to the first await. */
    method ExecuteCommand(t: nat, failAt: Option<nat>, at: real)
      requires Valid() && t < |tasks| && tasks[t].phase.Popped? && clock <= at
      modifies `clock, `outerSequence, `innerSequence, `contexts, `requests, `pending, `callers, `outcomes, `tasks, `trace
      ensures Valid() && trace == old(trace) + [T.Execute(t, failAt, at)]
      ensures View() == T.Next(old(View()), T.Execute(t, failAt, at))
    {
      ghost var before := View();
      WorkerCanExecute(start, trace, t);
      hide T.Run, T.Initial, T.Next, R.PrepareCommand, R.Begin, Q.Resolve, Q.Start;
      ExecuteStep(before, t, failAt, at);
      Execute(t, failAt, at);
      Record(before, T.Execute(t, failAt, at));
    }

    method Execute(t: nat, failAt: Option<nat>, at: real)
      requires t < |tasks| && tasks[t].phase.Popped? && outcomes != []
      modifies `clock, `outerSequence, `innerSequence, `contexts, `requests, `pending, `callers, `outcomes, `tasks
      ensures var prepared := R.PrepareCommand(old(WaitsView()).(now := at), old(tasks[t].phase.entry.command), at);
        && WaitsView() == R.Begin(prepared, failAt)
        && QueueView() == if prepared.1.Err? then Q.Resolve(old(QueueView()), t, Failure(prepared.1.error), false)
                          else Q.Start(old(QueueView()), t, old(|requests|))
    {
      hide R.PrepareCommand, R.Begin, Q.Resolve, Q.Start;
      var i := |requests|;
      var failed := BeginCommand(tasks[t].phase.entry.command, failAt, at);
      Executed(t, failed, i);
    }

    /** What the worker does with its execution: it waits for the request, or reports the error. */
    method Executed(t: nat, failed: Option<Error>, i: nat)
      requires t < |tasks| && tasks[t].phase.Popped? && outcomes != []
      modifies `callers, `outcomes, `tasks
      ensures QueueView() == if failed.Some? then Q.Resolve(old(QueueView()), t, Failure(failed.value), false)
                             else Q.Start(old(QueueView()), t, i)
    {
      hide Q.Resolve;
      if failed.Some? {
        Resolve(t, Failure(failed.value), false);
      } else {
        SetPhase(t, Q.Running(tasks[t].phase.entry, i));
      }
    }

    predicate WaitIsOver(i: nat)
      reads this
    {
      i < |requests| ==> requests[i].phase.Ended?
    }

    /** The worker takes what its wait returned, and completes the callers with it. */
    method TakeOutcome(t: nat)
      requires Valid() && t < |tasks| && tasks[t].phase.Running? && WaitIsOver(tasks[t].phase.request)
      modifies `callers, `outcomes, `tasks, `trace
      ensures Valid() && trace == old(trace) + [T.TakeOutcome(t)]
      ensures View() == T.Next(old(View()), T.TakeOutcome(t))
    {
      RunIsSettled(start, trace);
      ghost var before := View();
      hide T.Run, T.Initial;
      hide Q.Resolve;
      Resolve(t, requests[tasks[t].phase.request].phase.outcome.value, false);
      Record(before, T.TakeOutcome(t));
    }

    /** The pause between two datagrams is over. */
    method ResumeSending(i: nat, failAt: Option<nat>)
      requires Valid() && i < |requests| && requests[i].phase.Sleeping?
      modifies `requests, `pending, `trace
      ensures Valid() && trace == old(trace) + [T.Wait(R.SleepDone(i, failAt))]
      ensures View() == T.Next(old(View()), T.Wait(R.SleepDone(i, failAt)))
    {
      ghost var before := View();
      hide T.Run, T.Initial;
      WaitStep(View(), T.Wait(R.SleepDone(i, failAt)));
      hide T.Next, T.Executed;
      hide R.Transmit;
      SendDatagrams(i, requests[i].index, failAt);
      Record(before, T.Wait(R.SleepDone(i, failAt)));
    }

    /** wait_for timed out: the next attempt, or the end of the request. */
    method TimeOut(i: nat, failAt: Option<nat>)
      requires Valid() && i < |requests| && requests[i].phase.Waiting?
      modifies `requests, `pending, `available, `trace
      ensures Valid() && trace == old(trace) + [T.Wait(R.TimedOut(i, failAt))]
      ensures View() == T.Next(old(View()), T.Wait(R.TimedOut(i, failAt)))
    {
      ghost var before := View();
      hide T.Run, T.Initial, T.Next, R.Timeout;
      TimeOutStep(before, i, failAt);
      NextAttempt(i, failAt);
      Record(before, T.Wait(R.TimedOut(i, failAt)));
    }

    method NextAttempt(i: nat, failAt: Option<nat>)
      requires i < |requests| && requests[i].phase.Waiting?
      modifies `requests, `pending, `available
      ensures WaitsView() == R.Timeout(old(WaitsView()), i, failAt)
    {
      hide R.SendFrom, R.Remove;
      var r := requests[i];
      if r.attempt + 1 < r.retries {
        requests := requests[i := r.(attempt := r.attempt + 1)];
        SendDatagrams(i, 0, failAt);
      } else {
        available := false;
        FinishWait(i, Some(Failure(RequestTimeout)));
      }
    }

    /** wait_for returns or raises what the future holds. */
    method Wake(i: nat)
      requires Valid() && i < |requests| && requests[i].phase.Waiting? && !requests[i].reply.Awaited?
      modifies `requests, `pending, `trace
      ensures Valid() && trace == old(trace) + [T.Wait(R.Woken(i))]
      ensures View() == T.Next(old(View()), T.Wait(R.Woken(i)))
    {
      ghost var before := View();
      hide T.Run, T.Initial;
      WaitStep(View(), T.Wait(R.Woken(i)));
      hide T.Next, T.Executed;
      hide R.End;
      match requests[i].reply {
        case Answered(s) => FinishWait(i, Some(Success(s)));
        case Failed(error) => FinishWait(i, Some(Failure(error)));
        case Awaited =>
        case Dropped =>
      }
      Record(before, T.Wait(R.Woken(i)));
    }

    /** The task that awaits the request is cancelled. */
    method CancelWait(i: nat)
      requires Valid() && i < |requests| && !requests[i].phase.Ended?
      requires !T.Executed(View(), i)
      modifies `requests, `pending, `trace
      ensures Valid() && trace == old(trace) + [T.Wait(R.Cancelled(i))]
      ensures View() == T.Next(old(View()), T.Wait(R.Cancelled(i)))
    {
      ghost var before := View();
      hide T.Run, T.Initial;
      WaitStep(View(), T.Wait(R.Cancelled(i)));
      hide T.Next, T.Executed;
      hide R.End;
      FinishWait(i, None);
      Record(before, T.Wait(R.Cancelled(i)));
    }

    // -------------------------------------------------------------- receiving

    /** _prune_duplicates. */
    method PruneDuplicates(now: real)
      modifies `recentDatagrams
      ensures recentDatagrams == DuplicateCache.Prune(old(recentDatagrams), now)
    {
      var items := recentDatagrams;
      recentDatagrams := [];
      var k := 0;
      while k < |items|
        invariant 0 <= k <= |items|
        invariant recentDatagrams == DuplicateCache.Prune(items[..k], now)
      {
        assert items[..k + 1][..k] == items[..k];
        if items[k].at >= now - DuplicateCache.WINDOW {
          recentDatagrams := recentDatagrams + [items[k]];
        }
        k := k + 1;
      }
      assert items[..k] == items;
    }

    /** Whether the datagram is new; then it is remembered, and the oldest entry may have to go. */
    method Remember(data: bytes, now: real) returns (novel: bool)
      modifies `recentDatagrams
      ensures (recentDatagrams, novel) == DuplicateCache.Arrive(old(recentDatagrams), data, now)
    {
      hide DuplicateCache.Prune;
      PruneDuplicates(now);
      if DuplicateCache.Has(recentDatagrams, data) {
        return false;
      }
      recentDatagrams := recentDatagrams + [DuplicateCache.Arrival(data, now)];
      if |recentDatagrams| > DuplicateCache.MAX_RECENT {
        recentDatagrams := recentDatagrams[1..];
      }
      novel := true;
    }

    /** _resolve_matching_pending. */
    method ResolveMatchingPending(packet: DecodedPacket, merged: DeviceState, receivedAt: real)
      modifies `requests
      ensures requests == R.ResolvePending(model, old(requests), pending, packet, merged, receivedAt)
    {
      hide Codecs.StateConfirms;
      var k := 0;
      ghost var before := requests;
      while k < |pending|
        invariant 0 <= k <= |pending| && |requests| == |before|
        invariant forall i :: 0 <= i < |before| ==>
          requests[i] == if i in pending[..k] && R.Matches(model, before[i], packet, merged, receivedAt)
                         then before[i].(reply := R.Answered(merged)) else before[i]
      {
        var i := pending[k];
        if i < |requests| && R.Matches(model, requests[i], packet, merged, receivedAt) {
          requests := requests[i := requests[i].(reply := R.Answered(merged))];
        }
        k := k + 1;
      }
      assert pending[..k] == pending;
    }

    /** A validated packet of the configured device. */
    method Accept(packet: DecodedPacket, now: real)
      modifies `identity, `host, `state, `available, `lastStateAt, `requests, `heard
      ensures WaitsView() == R.Accept(old(WaitsView()), packet, now)
    {
      hide R.ResolvePending, R.MergeState;
      identity := packet.identity;
      host := packet.source.host;
      if packet.state.Some? {
        var incoming := packet.state.value;
        var merged := if packet.family.FamilyM25? then R.MergeState(state, incoming) else incoming;
        AcceptState(packet, incoming, merged, now);
      }
    }

    method AcceptState(packet: DecodedPacket, incoming: DeviceState, merged: DeviceState, now: real)
      modifies `state, `available, `lastStateAt, `requests, `heard
      ensures state == Some(merged) && available && lastStateAt == Some(now) && heard == old(heard) + [incoming]
      ensures requests == R.ResolvePending(model, old(requests), pending, packet, merged, now)
    {
      hide R.ResolvePending;
      state, available, lastStateAt := Some(merged), true, Some(now);
      heard := heard + [incoming];
      ResolveMatchingPending(packet, merged, now);
    }

    /** The waits' share of a received datagram. */
    method TakeDatagram(data: bytes, source: Endpoint, now: real)
      modifies `clock, `recentDatagrams, `identity, `host, `state, `available, `lastStateAt, `requests, `heard
      ensures WaitsView() == R.Receive(old(WaitsView()), data, source, now)
    {
      hide R.Accept, Codecs.Decode, DuplicateCache.Arrive;
      if closed || source.port != port {
        return;
      }
      clock := now;
      var novel := Remember(data, now);
      if !novel {
        return;
      }
      var packet := Codecs.Decode(model, data, source);
      if packet == None || packet.value.identity.mac != identity.mac {
        return;
      }
      Accept(packet.value, now);
    }

    /** _datagram_received. */
    method DatagramReceived(data: bytes, source: Endpoint, now: real)
      requires Valid() && clock <= now && (started || closed)
      modifies `clock, `recentDatagrams, `identity, `host, `state, `available, `lastStateAt, `requests, `heard, `trace
      ensures Valid() && trace == old(trace) + [T.Receive(data, source, now)]
      ensures View() == T.Next(old(View()), T.Receive(data, source, now))
    {
      ghost var before := View();
      hide T.Run, T.Initial, T.Next, R.Receive;
      ReceiveStep(before, data, source, now);
      TakeDatagram(data, source, now);
      Record(before, T.Receive(data, source, now));
    }

    // -------------------------------------------------------------- closing

    /** _fail_pending. */
    method FailPending()
      modifies `requests, `pending
      ensures requests == R.FailAll(old(requests), old(pending)) && pending == []
    {
      var k := 0;
      ghost var before := requests;
      while k < |pending|
        invariant 0 <= k <= |pending| && |requests| == |before| && pending == old(pending)
        invariant forall i :: 0 <= i < |before| ==>
          requests[i] == if i in pending[..k] && before[i].reply.Awaited? then before[i].(reply := R.Failed(ClientClosed))
                         else before[i]
      {
        var i := pending[k];
        if i < |requests| && requests[i].reply.Awaited? {
          requests := requests[i := requests[i].(reply := R.Failed(ClientClosed))];
        }
        k := k + 1;
      }
      assert pending[..k] == pending;
      pending := [];
    }

    /** The client is closed to commands, datagrams and sends, and every wait is failed. */
    method BeginClosing()
      modifies `requests, `pending, `started, `closed
      ensures WaitsView() == R.Close(old(WaitsView())) && QueueView() == old(QueueView()).(closed := true)
    {
      hide R.FailAll;
      FailPending();
      closed, started := true, false;
    }

    /** Every entry of the queue is failed, then the active one, then the worker is cancelled. */
    method DrainQueue()
      modifies `callers, `queue, `tasks, `drained, `discarded
      ensures QueueView() == Q.CloseDrain(old(QueueView()))
    {
      hide Q.SetAll;
      var k := 0;
      while k < |queue|
        invariant 0 <= k <= |queue| && queue == old(queue) && tasks == old(tasks)
        invariant drained == old(drained) && discarded == old(discarded)
        invariant callers == Q.FailEntries(old(callers), queue[..k])
      {
        assert queue[..k + 1][..k] == queue[..k];
        SetAll(queue[k].waiters, CLOSED);
        k := k + 1;
      }
      assert queue[..k] == queue;
      SetAll(activeWaiters, CLOSED);
      drained, discarded, queue := true, discarded + queue, [];
      if workerTask.Some? && workerTask.value < |tasks| && !tasks[workerTask.value].phase.Gone? {
        tasks := tasks[workerTask.value := tasks[workerTask.value].(cancelRequested := true)];
      }
    }

    /** close, up to its first await; closing again does nothing. */
    method Close()
      requires Valid()
      modifies `requests, `pending, `started, `closed, `callers, `queue, `tasks, `drained, `discarded, `trace
      ensures Valid() && closed && trace == old(trace) + if old(closed) then [] else [T.CloseBegin, T.CloseDrain]
      ensures View() == if old(closed) then old(View()) else T.Next(T.Next(old(View()), T.CloseBegin), T.CloseDrain)
    {
      if closed {
        return;
      }
      CanBeDrained(start, trace);
      ExtendsTwice(start, trace, T.CloseBegin, T.CloseDrain);
      hide T.Run, T.Initial, T.Next;
      CloseAtOnce();
      trace := trace + [T.CloseBegin, T.CloseDrain];
    }

    method CloseAtOnce()
      requires !closed && !drained
      modifies `requests, `pending, `started, `closed, `callers, `queue, `tasks, `drained, `discarded
      ensures closed && drained && View() == T.Next(T.Next(old(View()), T.CloseBegin), T.CloseDrain)
    {
      CloseSteps(View());
      hide T.Next, Q.CloseDrain, R.Close;
      BeginClosing();
      DrainQueue();
      assert drained by {
        DrainIsNoted(old(QueueView()).(closed := true));
      }
    }

    /** The cancellation that close requested arrives where the worker is suspended. */
    method CancelWorker(t: nat)
      requires Valid() && Q.Alive(QueueView(), t) && tasks[t].cancelRequested
      modifies `callers, `outcomes, `tasks, `requests, `pending, `trace
      ensures Valid() && trace == old(trace) + [T.DeliverCancel(t)]
      ensures View() == T.Next(old(View()), T.DeliverCancel(t))
    {
      ghost var before := View();
      WorkerCanResolve(start, trace, t);
      hide T.Run, T.Initial, T.Next, Q.DeliverCancel, Interrupted;
      CancelStep(before, t);
      Interrupt(t);
      Record(before, T.DeliverCancel(t));
    }

    method Interrupt(t: nat)
      requires t < |tasks| && (Q.Executing(tasks[t].phase) ==> outcomes != [])
      modifies `callers, `outcomes, `tasks, `requests, `pending
      ensures WaitsView() == Interrupted(old(View()), t)
      ensures QueueView() == Q.DeliverCancel(old(QueueView()), t)
    {
      hide Q.DeliverCancel, Interrupted;
      InterruptWait(t);
      StopWorker(t);
    }

    /** The wait that the worker runs, if it does, is cancelled. */
    method InterruptWait(t: nat)
      requires t < |tasks|
      modifies `requests, `pending
      ensures WaitsView() == Interrupted(old(View()), t)
    {
      hide R.End;
      var phase := tasks[t].phase;
      if phase.Running? && phase.request < |requests| && !requests[phase.request].phase.Ended? {
        FinishWait(phase.request, None);
      }
    }

    /** Where the worker's own code resumes with the cancellation. */
    method StopWorker(t: nat)
      requires t < |tasks| && (Q.Executing(tasks[t].phase) ==> outcomes != [])
      modifies `callers, `outcomes, `tasks
      ensures QueueView() == Q.DeliverCancel(old(QueueView()), t)
    {
      hide Q.Resolve;
      var phase := tasks[t].phase;
      tasks := tasks[t := tasks[t].(cancelRequested := false)];
      match phase
      case Fresh => SetPhase(t, Q.Gone);
      case AtTop => SetPhase(t, Q.Exiting);
      case Popped(_) => Resolve(t, CLOSED, true);
      case Running(_, _) => Resolve(t, CLOSED, true);
      case Clearing(_, _) => SetPhase(t, Q.Exiting);
      case Exiting => SetPhase(t, Q.Gone);
      case Gone =>
    }

    // -------------------------------------------------------------- what callers and readers are told

    /**
     * What the caller of a command is told: a state only if a datagram of the device, received
     * after the wait was registered, shows the value of the command that represents the caller.
     * A caller who is told nothing yet is in exactly one place of an open client whose work can
     * go on.
     */
    method ResultOf(f: nat) returns (result: Q.Future)
      requires Valid() && f < |callers|
      ensures result == callers[f]
      ensures result.Done? && result.outcome.Success? ==> IsBacked(start, trace, f, result.outcome.state)
      ensures result.Waiting? ==> !closed && Q.Occurrences(Q.Places(QueueView()), f) == 1 && T.GoesOn(View())
    {
      FutureOfACaller(start, trace, f);
      hide T.Run, T.Initial, IsBacked, T.GoesOn, Q.Occurrences, Q.Places;
      result := callers[f];
    }

    /** The property `available`: a state was heard after the last request that timed out for good. */
    method Available() returns (r: bool)
      requires Valid()
      ensures r == available
      ensures r <==> Availability.HeardSinceGivingUp(start.client, T.WaitTrace(start, trace))
    {
      WaitsOfARun(start, trace);
      hide T.Run, T.Initial, T.WaitTrace, Availability.HeardSinceGivingUp, Confirmation.StateIsHeard;
      r := available;
    }

    /** The property `state`: the last state heard, for an M25 completed from the earlier ones. */
    method State() returns (r: Option<DeviceState>)
      requires Valid()
      ensures r == state && Confirmation.StateIsHeard(WaitsView())
    {
      WaitsOfARun(start, trace);
      hide T.Run, T.Initial, T.WaitTrace, Availability.HeardSinceGivingUp, Confirmation.StateIsHeard;
      r := state;
    }
  }

  lemma DrainIsNoted(q: Q.Queue)
    ensures Q.CloseDrain(q).drained
  {}

  lemma CloseSteps(s: T.System)
    requires !s.queue.closed && !s.client.closed && !s.queue.drained
    ensures T.Next(T.Next(s, T.CloseBegin), T.CloseDrain)
         == T.System(Q.CloseDrain(s.queue.(closed := true)), R.Close(s.client))
  {
    hide R.Close, Q.CloseDrain;
    var s1 := T.Next(s, T.CloseBegin);
    assert s1 == T.System(s.queue.(closed := true), R.Close(s.client));
    QueueStep(s1, T.CloseDrain);
    hide T.Next;
  }

  /** The wait that the worker runs, if it does, is cancelled with it. */
  function Interrupted(s: T.System, t: nat): R.Client
  {
    if T.WaitOf(s, t).Some? && !s.client.requests[T.WaitOf(s, t).value].phase.Ended?
    then R.End(s.client, T.WaitOf(s, t).value, None) else s.client
  }

  lemma CancelStep(s: T.System, t: nat)
    requires Q.Alive(s.queue, t) && s.queue.tasks[t].cancelRequested
    requires Q.Executing(s.queue.tasks[t].phase) ==> s.queue.outcomes != []
    ensures T.Next(s, T.DeliverCancel(t)) == T.System(Q.DeliverCancel(s.queue, t), Interrupted(s, t))
  {
    hide R.End, Q.DeliverCancel;
  }
}
