/**
 * The coalescing command queue of the client and the worker that serves it (transport.py),
 * as atomic steps: a step is a region under the queue lock or what runs between two awaits.
 *
 * Every accepted command gets a future; the future of the i-th accepted command is number i.
 * Besides the fields of the client the state keeps its history: all accepted commands, the
 * entries taken by workers with their outcomes, and the entries dropped by closing.
 */
module CommandQueue {
  import opened Bytes
  import opened Models

  datatype Future = Waiting | Done(outcome: Outcome) | CallerCancelled

  /** An unsent write and all callers that it represents. */
  datatype Entry = Entry(command: Command, waiters: seq<nat>)

  /** Where a worker task stands; `Running` waits for the request with that number. */
  datatype Phase =
    | Fresh | AtTop | Popped(entry: Entry) | Running(entry: Entry, request: nat)
    | Clearing(waiters: seq<nat>, raising: bool) | Exiting | Gone

  datatype Task = Task(phase: Phase, cancelRequested: bool)

  datatype Queue = Queue(
    closed: bool,
    drained: bool,
    callers: seq<Future>,
    queue: seq<Entry>,
    active: seq<nat>,
    workerTask: Option<nat>,
    tasks: seq<Task>,
    submitted: seq<Command>,
    popped: seq<Entry>,
    outcomes: seq<Option<Outcome>>,
    discarded: seq<Entry>)

  const EMPTY := Queue(false, false, [], [], [], None, [], [], [], [], [])

  // ---------------------------------------------------------------- steps

  /** Complete every future of the list that is not done. */
  function SetAll(callers: seq<Future>, waiters: seq<nat>, outcome: Outcome): (r: seq<Future>)
    ensures |r| == |callers|
    ensures forall i :: 0 <= i < |callers| ==>
      r[i] == if i in waiters && callers[i].Waiting? then Done(outcome) else callers[i]
  {
    seq(|callers|, i requires 0 <= i < |callers| =>
      if i in waiters && callers[i].Waiting? then Done(outcome) else callers[i])
  }

  function FailEntries(callers: seq<Future>, entries: seq<Entry>): (r: seq<Future>)
    ensures |r| == |callers|
  {
    if entries == [] then callers
    else SetAll(FailEntries(callers, entries[..|entries| - 1]), entries[|entries| - 1].waiters, CLOSED)
  }

  predicate Alive(q: Queue, t: nat)
  {
    t < |q.tasks| && !q.tasks[t].phase.Gone?
  }

  function AtPhase(q: Queue, t: nat, phase: Phase): Queue
    requires t < |q.tasks|
  {
    q.(tasks := q.tasks[t := q.tasks[t].(phase := phase)])
  }

  function Spawn(q: Queue): Queue
  {
    q.(workerTask := Some(|q.tasks|), tasks := q.tasks + [Task(Fresh, false)])
  }

  /** Only a trailing, not yet taken coalescible write is replaced by another coalescible one. */
  function Entered(queue: seq<Entry>, command: Command, future: nat): seq<Entry>
  {
    var last := |queue| - 1;
    if command.IsCoalescible() && queue != [] && queue[last].command.IsCoalescible()
    then queue[last := Entry(command, queue[last].waiters + [future])]
    else queue + [Entry(command, [future])]
  }

  /** The region of `command` under the queue lock; a closed client refuses the command. */
  function Submit(q: Queue, command: Command): Queue
  {
    if q.closed then q
    else
      var entered := q.(
        submitted := q.submitted + [command],
        callers := q.callers + [Waiting],
        queue := Entered(q.queue, command, |q.callers|));
      if q.workerTask.Some? && Alive(q, q.workerTask.value) then entered else Spawn(entered)
  }

  function CancelCaller(q: Queue, f: nat): Queue
    requires f < |q.callers| && q.callers[f].Waiting?
  {
    q.(callers := q.callers[f := CallerCancelled])
  }

  /** The top of the worker loop: take the head of the queue, or leave the loop. */
  function Pop(q: Queue, t: nat): Queue
    requires t < |q.tasks|
  {
    if q.queue == [] then AtPhase(q, t, Exiting)
    else
      AtPhase(q, t, Popped(q.queue[0])).(
        queue := q.queue[1..],
        active := q.queue[0].waiters,
        popped := q.popped + [q.queue[0]],
        outcomes := q.outcomes + [None])
  }

  /** The request of the taken command has been registered. */
  function Start(q: Queue, t: nat, request: nat): Queue
    requires t < |q.tasks| && q.tasks[t].phase.Popped?
  {
    AtPhase(q, t, Running(q.tasks[t].phase.entry, request))
  }

  predicate Executing(phase: Phase)
  {
    phase.Popped? || phase.Running?
  }

  /** The execution ended; all callers of the entry get its outcome. */
  function Resolve(q: Queue, t: nat, outcome: Outcome, raising: bool): Queue
    requires t < |q.tasks| && Executing(q.tasks[t].phase) && q.outcomes != []
  {
    var waiters := q.tasks[t].phase.entry.waiters;
    AtPhase(q, t, Clearing(waiters, raising)).(
      callers := SetAll(q.callers, waiters, outcome),
      outcomes := q.outcomes[|q.outcomes| - 1 := Some(outcome)])
  }

  function Clear(q: Queue, t: nat): Queue
    requires t < |q.tasks| && q.tasks[t].phase.Clearing?
  {
    var phase := q.tasks[t].phase;
    AtPhase(q, t, if phase.raising then Exiting else AtTop).(
      active := if q.active == phase.waiters then [] else q.active)
  }

  /** The worker's last region: a command appended meanwhile gets a new worker. */
  function Exit(q: Queue, t: nat): Queue
    requires t < |q.tasks|
  {
    var gone := AtPhase(q, t, Gone);
    if q.workerTask != Some(t) then gone
    else if q.queue != [] && !q.closed then Spawn(gone)
    else gone.(workerTask := None)
  }

  /** The first region of `close`. */
  function CloseBegin(q: Queue): Queue
  {
    q.(closed := true)
  }

  /** The region of `close` under the queue lock, and the cancellation that follows it. */
  function CloseDrain(q: Queue): Queue
  {
    var failed := SetAll(FailEntries(q.callers, q.queue), q.active, CLOSED);
    var drained := q.(drained := true, callers := failed, queue := [], discarded := q.discarded + q.queue);
    if q.workerTask.Some? && Alive(q, q.workerTask.value) then
      drained.(tasks := q.tasks[q.workerTask.value := q.tasks[q.workerTask.value].(cancelRequested := true)])
    else drained
  }

  /** The cancellation arrives where the worker is suspended. */
  function DeliverCancel(q: Queue, t: nat): Queue
    requires t < |q.tasks| && (Executing(q.tasks[t].phase) ==> q.outcomes != [])
  {
    var taken := q.(tasks := q.tasks[t := q.tasks[t].(cancelRequested := false)]);
    match q.tasks[t].phase
    case Fresh => AtPhase(taken, t, Gone)
    case AtTop => AtPhase(taken, t, Exiting)
    case Popped(_) => Resolve(taken, t, CLOSED, true)
    case Running(_, _) => Resolve(taken, t, CLOSED, true)
    case Clearing(_, _) => AtPhase(taken, t, Exiting)
    case Exiting => AtPhase(taken, t, Gone)
    case Gone => taken
  }

  datatype Event =
    | ESubmit(command: Command)
    | ECancelCaller(future: nat)
    | EPop(task: nat)
    | EStart(task: nat, request: nat)
    | EResolve(task: nat, outcome: Outcome)
    | EClear(task: nat)
    | EExit(task: nat)
    | ECloseBegin
    | ECloseDrain
    | EDeliverCancel(task: nat)

  predicate Enabled(q: Queue, e: Event)
  {
    match e
    case ESubmit(_) => true
    case ECancelCaller(f) => f < |q.callers| && q.callers[f].Waiting?
    case EPop(t) => t < |q.tasks| && (q.tasks[t].phase.Fresh? || q.tasks[t].phase.AtTop?)
    case EStart(t, _) => t < |q.tasks| && q.tasks[t].phase.Popped?
    case EResolve(t, _) => t < |q.tasks| && Executing(q.tasks[t].phase) && q.outcomes != []
    case EClear(t) => t < |q.tasks| && q.tasks[t].phase.Clearing?
    case EExit(t) => t < |q.tasks| && q.tasks[t].phase.Exiting?
    case ECloseBegin => !q.closed
    case ECloseDrain => q.closed && !q.drained
    case EDeliverCancel(t) => Alive(q, t) && q.tasks[t].cancelRequested && (Executing(q.tasks[t].phase) ==> q.outcomes != [])
  }

  function Next(q: Queue, e: Event): Queue
  {
    if !Enabled(q, e) then q
    else
      match e
      case ESubmit(command) => Submit(q, command)
      case ECancelCaller(f) => CancelCaller(q, f)
      case EPop(t) => Pop(q, t)
      case EStart(t, request) => Start(q, t, request)
      case EResolve(t, outcome) => Resolve(q, t, outcome, false)
      case EClear(t) => Clear(q, t)
      case EExit(t) => Exit(q, t)
      case ECloseBegin => CloseBegin(q)
      case ECloseDrain => CloseDrain(q)
      case EDeliverCancel(t) => DeliverCancel(q, t)
  }

  /** Any interleaving of steps, from a new client on. */
  function Run(events: seq<Event>): Queue
  {
    if events == [] then EMPTY else Next(Run(events[..|events| - 1]), events[|events| - 1])
  }

  // ---------------------------------------------------------------- the partition

  function Range(lo: nat, hi: nat): (r: seq<nat>)
    requires lo <= hi
    ensures |r| == hi - lo && forall i :: 0 <= i < hi - lo ==> r[i] == lo + i
  {
    seq(hi - lo, i requires 0 <= i => lo + i)
  }

  /**
   * The entries cut the accepted commands into consecutive runs: each entry carries the last
   * command of its run and the futures of all of it, and only coalescible commands share one.
   */
  ghost predicate Tiles(entries: seq<Entry>, submitted: seq<Command>)
  {
    if entries == [] then submitted == []
    else
      var last, n := entries[|entries| - 1], |submitted|;
      var size := |last.waiters|;
      && 1 <= size <= n
      && last.waiters == Range(n - size, n)
      && last.command == submitted[n - 1]
      && (size > 1 ==> forall j :: n - size <= j < n ==> submitted[j].IsCoalescible())
      && Tiles(entries[..|entries| - 1], submitted[..n - size])
  }

  function All(q: Queue): seq<Entry>
  {
    q.popped + q.discarded + q.queue
  }

  lemma TilesAppend(entries: seq<Entry>, submitted: seq<Command>, command: Command)
    requires Tiles(entries, submitted)
    ensures Tiles(entries + [Entry(command, [|submitted|])], submitted + [command])
  {
    var n := |submitted|;
    var more := entries + [Entry(command, [n])];
    assert more[..|more| - 1] == entries;
    assert (submitted + [command])[..n] == submitted;
    assert [n] == Range(n, n + 1);
  }

  lemma TilesCoalesce(entries: seq<Entry>, submitted: seq<Command>, command: Command)
    requires Tiles(entries, submitted) && entries != []
    requires command.IsCoalescible() && entries[|entries| - 1].command.IsCoalescible()
    ensures Tiles(entries[|entries| - 1 := Entry(command, entries[|entries| - 1].waiters + [|submitted|])],
                  submitted + [command])
  {
    var k, n := |entries| - 1, |submitted|;
    var last := entries[k];
    var size := |last.waiters|;
    var entry := Entry(command, last.waiters + [n]);
    var more := entries[k := entry];
    assert more[..k] == entries[..k];
    assert (submitted + [command])[..n - size] == submitted[..n - size];
    assert entry.waiters == Range(n - size, n + 1);
  }

  /** Every accepted command is in some entry. */
  lemma {:induction false} EntryOf(entries: seq<Entry>, submitted: seq<Command>, f: nat) returns (k: nat)
    requires Tiles(entries, submitted) && f < |submitted|
    ensures k < |entries| && f in entries[k].waiters
  {
    var last, n := entries[|entries| - 1], |submitted|;
    var size := |last.waiters|;
    if f >= n - size {
      k := |entries| - 1;
      assert last.waiters[f - (n - size)] == f;
    } else {
      k := EntryOf(entries[..|entries| - 1], submitted[..n - size], f);
    }
  }

  /** No accepted command is in two entries, and no entry names a future that does not exist. */
  lemma {:induction false} EntriesDisjoint(entries: seq<Entry>, submitted: seq<Command>, i: nat, j: nat, f: nat)
    requires Tiles(entries, submitted) && i < |entries| && j < |entries|
    requires f in entries[i].waiters && f in entries[j].waiters
    ensures i == j && f < |submitted|
  {
    var last, n := entries[|entries| - 1], |submitted|;
    var init, shorter := entries[..|entries| - 1], submitted[..n - |last.waiters|];
    if i < |init| && j < |init| {
      EntriesDisjoint(init, shorter, i, j, f);
    } else if i < |init| {
      EntriesDisjoint(init, shorter, i, i, f);
    } else if j < |init| {
      EntriesDisjoint(init, shorter, j, j, f);
    }
  }

  // ---------------------------------------------------------------- the invariant

  predicate Busy(q: Queue)
  {
    q.workerTask.Some? && q.workerTask.value < |q.tasks| && Executing(q.tasks[q.workerTask.value].phase)
  }

  /** What closing may leave in a future. */
  predicate ClosedOrCancelled(f: Future)
  {
    f == Done(CLOSED) || f == CallerCancelled
  }

  ghost predicate TasksInv(q: Queue)
    requires |q.outcomes| == |q.popped|
  {
    && (forall t :: 0 <= t < |q.tasks| && !q.tasks[t].phase.Gone? ==> q.workerTask == Some(t))
    && (q.workerTask.Some? ==> q.workerTask.value < |q.tasks|)
    && (!q.closed && q.queue != [] ==> q.workerTask.Some? && Alive(q, q.workerTask.value))
    && (!q.drained ==> forall t :: 0 <= t < |q.tasks| ==> !q.tasks[t].cancelRequested)
    && (Busy(q) ==>
          q.popped != [] && q.tasks[q.workerTask.value].phase.entry == q.popped[|q.popped| - 1]
          && q.outcomes[|q.popped| - 1] == None && q.active == q.popped[|q.popped| - 1].waiters)
    && (forall k :: 0 <= k < |q.popped| && q.outcomes[k] == None ==> k == |q.popped| - 1 && Busy(q))
  }

  /** A future of a taken entry: undecided like the entry, or decided as the entry was. */
  predicate PoppedFuture(closed: bool, drained: bool, f: Future, outcome: Option<Outcome>)
  {
    match outcome
    case None => (f.Waiting? && !drained) || f == CallerCancelled || (drained && f == Done(CLOSED))
    case Some(o) => f == Done(o) || f == CallerCancelled || (closed && f == Done(CLOSED))
  }

  predicate QueuedFuture(f: Future)
  {
    f.Waiting? || f == CallerCancelled
  }

  ghost predicate AllDecided(q: Queue, waiters: seq<nat>, outcome: Option<Outcome>)
  {
    forall w: nat :: w in waiters ==> w < |q.callers| && PoppedFuture(q.closed, q.drained, q.callers[w], outcome)
  }

  ghost predicate AllUndecided(q: Queue, waiters: seq<nat>)
  {
    forall w: nat :: w in waiters ==> w < |q.callers| && QueuedFuture(q.callers[w])
  }

  ghost predicate AllDropped(q: Queue, waiters: seq<nat>)
  {
    forall w: nat :: w in waiters ==> w < |q.callers| && ClosedOrCancelled(q.callers[w])
  }

  ghost predicate PoppedInv(q: Queue)
    requires |q.outcomes| == |q.popped|
  {
    forall k :: 0 <= k < |q.popped| ==> AllDecided(q, q.popped[k].waiters, q.outcomes[k])
  }

  ghost predicate QueuedInv(q: Queue)
  {
    forall k :: 0 <= k < |q.queue| ==> AllUndecided(q, q.queue[k].waiters)
  }

  ghost predicate DiscardedInv(q: Queue)
  {
    forall k :: 0 <= k < |q.discarded| ==> AllDropped(q, q.discarded[k].waiters)
  }

  predicate Sizes(q: Queue)
  {
    |q.callers| == |q.submitted| && |q.outcomes| == |q.popped|
  }

  ghost predicate Shape(q: Queue)
  {
    && Tiles(All(q), q.submitted)
    && (!q.drained ==> q.discarded == [])
    && (q.drained ==> q.closed && q.queue == [])
  }

  /** What is said about entries and futures, whatever the workers are doing. */
  ghost predicate FuturesInv(q: Queue)
    requires Sizes(q)
  {
    Shape(q) && PoppedInv(q) && QueuedInv(q) && DiscardedInv(q)
  }

  ghost predicate Inv(q: Queue)
  {
    Sizes(q) && FuturesInv(q) && TasksInv(q)
  }

  // ---------------------------------------------------------------- every step keeps it

  /** A future of one entry is a future of no other. */
  lemma OtherEntry(q: Queue, i: nat, j: nat, f: nat)
    requires Sizes(q) && Shape(q) && i < |All(q)| && j < |All(q)| && i != j
    requires f in All(q)[i].waiters
    ensures f < |q.callers| && f !in All(q)[j].waiters
  {
    EntriesDisjoint(All(q), q.submitted, i, i, f);
    if f in All(q)[j].waiters {
      EntriesDisjoint(All(q), q.submitted, i, j, f);
    }
  }

  /** A step that leaves the entries and the accepted commands alone leaves the partition alone. */
  lemma SameShape(q: Queue, q': Queue)
    requires Shape(q) && All(q') == All(q) && q'.submitted == q.submitted
    requires (!q'.drained ==> q'.discarded == []) && (q'.drained ==> q'.closed && q'.queue == [])
    ensures Shape(q')
  {}

  /** Steps of the workers alone. */
  lemma SameFutures(q: Queue, q': Queue)
    requires Sizes(q) && FuturesInv(q)
    requires q' == q.(tasks := q'.tasks, workerTask := q'.workerTask, active := q'.active)
    ensures Sizes(q') && FuturesInv(q')
  {
    hide Tiles;
    SameShape(q, q');
    hide Shape;
    forall k | 0 <= k < |q.popped| ensures AllDecided(q', q'.popped[k].waiters, q'.outcomes[k]) {
      assert AllDecided(q, q.popped[k].waiters, q.outcomes[k]);
    }
    forall k | 0 <= k < |q.queue| ensures AllUndecided(q', q'.queue[k].waiters) {
      assert AllUndecided(q, q.queue[k].waiters);
    }
    forall k | 0 <= k < |q.discarded| ensures AllDropped(q', q'.discarded[k].waiters) {
      assert AllDropped(q, q.discarded[k].waiters);
    }
  }

  lemma EnteredTiles(taken: seq<Entry>, queue: seq<Entry>, submitted: seq<Command>, command: Command)
    requires Tiles(taken + queue, submitted)
    ensures Tiles(taken + Entered(queue, command, |submitted|), submitted + [command])
  {
    var all, k := taken + queue, |taken + queue| - 1;
    if command.IsCoalescible() && queue != [] && queue[|queue| - 1].command.IsCoalescible() {
      TilesCoalesce(all, submitted, command);
      hide Tiles;
      assert taken + Entered(queue, command, |submitted|)
          == all[k := Entry(command, all[k].waiters + [|submitted|])];
    } else {
      TilesAppend(all, submitted, command);
      hide Tiles;
      assert taken + Entered(queue, command, |submitted|) == all + [Entry(command, [|submitted|])];
    }
  }

  lemma SubmitKeepsShape(q: Queue, command: Command)
    requires Sizes(q) && Shape(q)
    ensures Shape(Submit(q, command))
  {
    hide Tiles, Entered;
    EnteredTiles(q.popped + q.discarded, q.queue, q.submitted, command);
  }

  lemma SubmitKeepsTasks(q: Queue, command: Command)
    requires Inv(q)
    ensures Sizes(Submit(q, command)) && TasksInv(Submit(q, command))
  {
    assert !q.closed ==> !q.drained by {
      hide Tiles;
    }
    hide FuturesInv;
  }

  lemma SubmitKeepsQueued(q: Queue, command: Command)
    requires Sizes(q) && QueuedInv(q)
    ensures QueuedInv(Submit(q, command))
  {
    var q' := Submit(q, command);
    forall k | 0 <= k < |q'.queue| ensures AllUndecided(q', q'.queue[k].waiters) {
      if k < |q.queue| {
        assert AllUndecided(q, q.queue[k].waiters);
      }
    }
  }

  lemma SubmitKeepsOthers(q: Queue, command: Command)
    requires Sizes(q) && PoppedInv(q) && DiscardedInv(q)
    ensures Sizes(Submit(q, command))
    ensures PoppedInv(Submit(q, command)) && DiscardedInv(Submit(q, command))
  {
    var q' := Submit(q, command);
    forall k | 0 <= k < |q'.popped| ensures AllDecided(q', q'.popped[k].waiters, q'.outcomes[k]) {
      assert AllDecided(q, q.popped[k].waiters, q.outcomes[k]);
    }
    forall k | 0 <= k < |q'.discarded| ensures AllDropped(q', q'.discarded[k].waiters) {
      assert AllDropped(q, q.discarded[k].waiters);
    }
  }

  lemma SubmitKeepsInv(q: Queue, command: Command)
    requires Inv(q)
    ensures Inv(Submit(q, command))
  {
    hide Submit, Shape, PoppedInv, QueuedInv, DiscardedInv;
    SubmitKeepsTasks(q, command);
    hide TasksInv;
    SubmitKeepsShape(q, command);
    SubmitKeepsQueued(q, command);
    SubmitKeepsOthers(q, command);
  }

  lemma CancelCallerKeepsInv(q: Queue, f: nat)
    requires Inv(q) && f < |q.callers| && q.callers[f].Waiting?
    ensures Inv(CancelCaller(q, f))
  {
    hide Tiles;
    var q' := CancelCaller(q, f);
    SameShape(q, q');
    hide Shape;
    forall k | 0 <= k < |q.popped| ensures AllDecided(q', q'.popped[k].waiters, q'.outcomes[k]) {
      assert AllDecided(q, q.popped[k].waiters, q.outcomes[k]);
    }
    forall k | 0 <= k < |q.queue| ensures AllUndecided(q', q'.queue[k].waiters) {
      assert AllUndecided(q, q.queue[k].waiters);
    }
    forall k | 0 <= k < |q.discarded| ensures AllDropped(q', q'.discarded[k].waiters) {
      assert AllDropped(q, q.discarded[k].waiters);
    }
  }

  lemma PopKeepsFutures(q: Queue, t: nat)
    requires Sizes(q) && FuturesInv(q) && t < |q.tasks| && q.queue != []
    ensures Sizes(Pop(q, t)) && FuturesInv(Pop(q, t))
  {
    hide Tiles;
    var q' := Pop(q, t);
    assert q'.popped + [] + q'.queue == q.popped + [] + q.queue;
    SameShape(q, q');
    hide Shape;
    forall k | 0 <= k < |q'.popped| ensures AllDecided(q', q'.popped[k].waiters, q'.outcomes[k]) {
      if k < |q.popped| {
        assert AllDecided(q, q.popped[k].waiters, q.outcomes[k]);
      } else {
        assert AllUndecided(q, q.queue[0].waiters);
      }
    }
    forall k | 0 <= k < |q'.queue| ensures AllUndecided(q', q'.queue[k].waiters) {
      assert AllUndecided(q, q.queue[k + 1].waiters);
    }
  }

  lemma PopKeepsTasks(q: Queue, t: nat)
    requires Sizes(q) && TasksInv(q) && t < |q.tasks| && (q.tasks[t].phase.Fresh? || q.tasks[t].phase.AtTop?)
    requires q.queue != []
    ensures Sizes(Pop(q, t)) && TasksInv(Pop(q, t))
  {
    assert q.workerTask == Some(t);
  }

  lemma PopKeepsInv(q: Queue, t: nat)
    requires Inv(q) && t < |q.tasks| && (q.tasks[t].phase.Fresh? || q.tasks[t].phase.AtTop?)
    ensures Inv(Pop(q, t))
  {
    if q.queue == [] {
      SameFutures(q, Pop(q, t));
      hide FuturesInv;
      assert q.workerTask == Some(t);
    } else {
      PopKeepsFutures(q, t);
      PopKeepsTasks(q, t);
      hide Pop, FuturesInv, TasksInv;
    }
  }

  lemma StartKeepsInv(q: Queue, t: nat, request: nat)
    requires Inv(q) && t < |q.tasks| && q.tasks[t].phase.Popped?
    ensures Inv(Start(q, t, request))
  {
    SameFutures(q, Start(q, t, request));
    hide FuturesInv;
    assert q.workerTask == Some(t);
  }

  lemma ResolveKeepsTasks(q: Queue, t: nat, outcome: Outcome, raising: bool)
    requires Inv(q) && t < |q.tasks| && Executing(q.tasks[t].phase)
    ensures q.workerTask == Some(t) && Busy(q) && q.popped != [] && q.active == q.popped[|q.popped| - 1].waiters
    ensures q.tasks[t].phase.entry == q.popped[|q.popped| - 1]
    ensures Sizes(Resolve(q, t, outcome, raising)) && TasksInv(Resolve(q, t, outcome, raising))
  {
    hide FuturesInv;
    assert q.workerTask == Some(t);
  }

  lemma ResolveKeepsFutures(q: Queue, t: nat, outcome: Outcome, raising: bool)
    requires Inv(q) && t < |q.tasks| && Executing(q.tasks[t].phase)
    requires q.popped != [] && q.tasks[t].phase.entry == q.popped[|q.popped| - 1]
    ensures Sizes(Resolve(q, t, outcome, raising)) && FuturesInv(Resolve(q, t, outcome, raising))
  {
    hide Tiles;
    var q' := Resolve(q, t, outcome, raising);
    var last := |q.popped| - 1;
    SameShape(q, q');
    hide Shape, TasksInv;
    assert All(q)[last] == q.popped[last];
    forall k | 0 <= k < |q'.popped| ensures AllDecided(q', q'.popped[k].waiters, q'.outcomes[k]) {
      assert AllDecided(q, q.popped[k].waiters, q.outcomes[k]);
      forall w: nat | w in q.popped[k].waiters && k != last ensures w !in q.popped[last].waiters {
        assert All(q)[k] == q.popped[k];
        OtherEntry(q, k, last, w);
      }
    }
    forall k | 0 <= k < |q'.queue| ensures AllUndecided(q', q'.queue[k].waiters) {
      assert AllUndecided(q, q.queue[k].waiters);
      var i := |q.popped| + |q.discarded| + k;
      assert All(q)[i] == q.queue[k];
      forall w: nat | w in q.queue[k].waiters ensures w !in q.popped[last].waiters {
        OtherEntry(q, i, last, w);
      }
    }
    forall k | 0 <= k < |q.discarded| ensures AllDropped(q', q'.discarded[k].waiters) {
      assert AllDropped(q, q.discarded[k].waiters);
    }
  }

  lemma ResolveKeepsInv(q: Queue, t: nat, outcome: Outcome, raising: bool)
    requires Inv(q) && t < |q.tasks| && Executing(q.tasks[t].phase)
    ensures q.outcomes != [] && Inv(Resolve(q, t, outcome, raising))
  {
    ResolveKeepsTasks(q, t, outcome, raising);
    ResolveKeepsFutures(q, t, outcome, raising);
    hide Resolve, FuturesInv, TasksInv;
  }

  lemma ClearKeepsInv(q: Queue, t: nat)
    requires Inv(q) && t < |q.tasks| && q.tasks[t].phase.Clearing?
    ensures Inv(Clear(q, t))
  {
    SameFutures(q, Clear(q, t));
    hide FuturesInv;
    assert q.workerTask == Some(t);
  }

  lemma ExitKeepsInv(q: Queue, t: nat)
    requires Inv(q) && t < |q.tasks| && q.tasks[t].phase.Exiting?
    ensures Inv(Exit(q, t))
  {
    SameFutures(q, Exit(q, t));
    assert !q.closed ==> !q.drained by {
      hide Tiles;
    }
    hide FuturesInv;
    assert q.workerTask == Some(t);
  }

  lemma CloseBeginKeepsInv(q: Queue)
    requires Inv(q)
    ensures Inv(CloseBegin(q))
  {
    hide Tiles;
    var q' := CloseBegin(q);
    SameShape(q, q');
    hide Shape;
    forall k | 0 <= k < |q.popped| ensures AllDecided(q', q'.popped[k].waiters, q'.outcomes[k]) {
      assert AllDecided(q, q.popped[k].waiters, q.outcomes[k]);
    }
    forall k | 0 <= k < |q.queue| ensures AllUndecided(q', q'.queue[k].waiters) {
      assert AllUndecided(q, q.queue[k].waiters);
    }
    forall k | 0 <= k < |q.discarded| ensures AllDropped(q', q'.discarded[k].waiters) {
      assert AllDropped(q, q.discarded[k].waiters);
    }
  }

  lemma {:induction false} FailEntriesPoints(callers: seq<Future>, entries: seq<Entry>, f: nat)
    requires f < |callers|
    ensures FailEntries(callers, entries)[f]
         == if (exists k :: 0 <= k < |entries| && f in entries[k].waiters) && callers[f].Waiting? then Done(CLOSED)
            else callers[f]
  {
    if entries != [] {
      var init, last := entries[..|entries| - 1], entries[|entries| - 1];
      FailEntriesPoints(callers, init, f);
      assert entries == init + [last];
      if k :| 0 <= k < |entries| && f in entries[k].waiters && k < |init| {
        assert f in init[k].waiters;
      }
      if k :| 0 <= k < |init| && f in init[k].waiters {
        assert f in entries[k].waiters;
      }
    }
  }

  /** After the closing region a future is what it was, or it was undecided and is now failed. */
  lemma DrainedFuture(q: Queue, f: nat)
    requires Inv(q) && !q.drained && f < |q.callers|
    ensures CloseDrain(q).callers[f] == if q.callers[f].Waiting? then Done(CLOSED) else q.callers[f]
  {
    var k := EntryOf(All(q), q.submitted, f);
    hide Shape, Tiles;
    FailEntriesPoints(q.callers, q.queue, f);
    if q.callers[f].Waiting? {
      if k < |q.popped| {
        assert AllDecided(q, q.popped[k].waiters, q.outcomes[k]);
        assert q.outcomes[k] == None;
        assert f in q.active;
      } else {
        assert All(q)[k] == q.queue[k - |q.popped|];
        assert f in q.queue[k - |q.popped|].waiters;
      }
    }
  }

  lemma CloseDrainKeepsFutures(q: Queue)
    requires Inv(q) && q.closed && !q.drained
    requires forall f :: 0 <= f < |q.callers| ==>
      CloseDrain(q).callers[f] == if q.callers[f].Waiting? then Done(CLOSED) else q.callers[f]
    ensures Sizes(CloseDrain(q)) && FuturesInv(CloseDrain(q))
  {
    hide Tiles, FailEntries, SetAll, TasksInv;
    var q' := CloseDrain(q);
    assert q'.popped + q'.discarded + q'.queue == q.popped + q.discarded + q.queue;
    SameShape(q, q');
    hide Shape;
    forall k | 0 <= k < |q.popped| ensures AllDecided(q', q'.popped[k].waiters, q'.outcomes[k]) {
      assert AllDecided(q, q.popped[k].waiters, q.outcomes[k]);
    }
    forall k | 0 <= k < |q'.discarded| ensures AllDropped(q', q'.discarded[k].waiters) {
      assert q'.discarded[k] == q.queue[k];
      assert AllUndecided(q, q.queue[k].waiters);
    }
  }

  lemma CloseDrainKeepsInv(q: Queue)
    requires Inv(q) && q.closed && !q.drained
    ensures Inv(CloseDrain(q))
  {
    forall f | 0 <= f < |q.callers|
      ensures CloseDrain(q).callers[f] == if q.callers[f].Waiting? then Done(CLOSED) else q.callers[f]
    {
      DrainedFuture(q, f);
    }
    CloseDrainKeepsFutures(q);
    hide FuturesInv, FailEntries, SetAll;
  }

  lemma DeliverCancelKeepsInv(q: Queue, t: nat)
    requires Inv(q) && Alive(q, t) && q.tasks[t].cancelRequested
    ensures Executing(q.tasks[t].phase) ==> q.outcomes != []
    ensures Inv(DeliverCancel(q, t))
  {
    var taken := q.(tasks := q.tasks[t := q.tasks[t].(cancelRequested := false)]);
    SameFutures(q, taken);
    hide FuturesInv, Resolve;
    assert q.workerTask == Some(t);
    assert TasksInv(taken);
    if Executing(q.tasks[t].phase) {
      ResolveKeepsInv(taken, t, CLOSED, true);
    } else {
      SameFutures(q, DeliverCancel(q, t));
    }
  }

  lemma {:induction false} NextKeepsInv(q: Queue, e: Event)
    requires Inv(q)
    ensures Inv(Next(q, e))
  {
    hide Inv, Submit, CancelCaller, Pop, Start, Resolve, Clear, Exit, CloseBegin, CloseDrain, DeliverCancel;
    if Enabled(q, e) {
      match e
      case ESubmit(command) => SubmitKeepsInv(q, command);
      case ECancelCaller(f) => CancelCallerKeepsInv(q, f);
      case EPop(t) => PopKeepsInv(q, t);
      case EStart(t, request) => StartKeepsInv(q, t, request);
      case EResolve(t, outcome) => ResolveKeepsInv(q, t, outcome, false);
      case EClear(t) => ClearKeepsInv(q, t);
      case EExit(t) => ExitKeepsInv(q, t);
      case ECloseBegin => CloseBeginKeepsInv(q);
      case ECloseDrain => CloseDrainKeepsInv(q);
      case EDeliverCancel(t) => DeliverCancelKeepsInv(q, t);
    }
  }

  lemma {:induction false} RunKeepsInv(events: seq<Event>)
    ensures Inv(Run(events))
  {
    hide Next;
    if events == [] {
      assert Tiles([], []);
      assert All(EMPTY) == [];
    } else {
      RunKeepsInv(events[..|events| - 1]);
      NextKeepsInv(Run(events[..|events| - 1]), events[|events| - 1]);
    }
  }

  // ---------------------------------------------------------------- no caller is lost

  function Occurrences(entries: seq<Entry>, f: nat): nat
  {
    if entries == [] then 0
    else Occurrences(entries[..|entries| - 1], f) + multiset(entries[|entries| - 1].waiters)[f]
  }

  lemma {:induction false} NowhereIn(entries: seq<Entry>, f: nat)
    requires forall k :: 0 <= k < |entries| ==> f !in entries[k].waiters
    ensures Occurrences(entries, f) == 0
  {
    if entries != [] {
      NowhereIn(entries[..|entries| - 1], f);
    }
  }

  lemma {:induction false} OnceInRange(lo: nat, hi: nat, f: nat)
    requires lo <= f < hi
    ensures multiset(Range(lo, hi))[f] == 1
    decreases hi
  {
    var s := Range(lo, hi);
    var n := |s| - 1;
    assert s == s[..n] + [hi - 1];
    assert s[..n] == Range(lo, hi - 1);
    if f < hi - 1 {
      OnceInRange(lo, hi - 1, f);
    } else {
      assert f !in s[..n];
    }
  }

  /** The partition holds every accepted command exactly once. */
  lemma {:induction false} EveryFutureOnce(entries: seq<Entry>, submitted: seq<Command>, f: nat)
    requires Tiles(entries, submitted) && f < |submitted|
    ensures Occurrences(entries, f) == 1
  {
    var last, n := entries[|entries| - 1], |submitted|;
    var init, size := entries[..|entries| - 1], |last.waiters|;
    if f >= n - size {
      OnceInRange(n - size, n, f);
      forall k | 0 <= k < |init| ensures f !in init[k].waiters {
        if f in init[k].waiters {
          EntriesDisjoint(init, submitted[..n - size], k, k, f);
        }
      }
      NowhereIn(init, f);
    } else {
      EveryFutureOnce(init, submitted[..n - size], f);
      assert f !in last.waiters;
    }
  }

  lemma {:induction false} OccurrencesSplit(a: seq<Entry>, b: seq<Entry>, f: nat)
    ensures Occurrences(a + b, f) == Occurrences(a, f) + Occurrences(b, f)
  {
    if b == [] {
      assert a + b == a;
    } else {
      OccurrencesSplit(a, b[..|b| - 1], f);
      assert (a + b)[..|a + b| - 1] == a + b[..|b| - 1];
    }
  }

  /** The places where an undecided caller may wait: the entries of the queue and the one being executed. */
  function Places(q: Queue): seq<Entry>
  {
    (if Busy(q) then [Entry(q.tasks[q.workerTask.value].phase.entry.command, q.active)] else []) + q.queue
  }

  lemma {:induction false} PlacesAreTheRest(q: Queue, f: nat)
    requires Inv(q) && f < |q.callers| && q.callers[f].Waiting?
    ensures exists done: seq<Entry> :: All(q) == done + Places(q) && forall k :: 0 <= k < |done| ==> f !in done[k].waiters
  {
    hide Tiles;
    var n := |q.popped|;
    var busy := if Busy(q) then 1 else 0;
    var done := if Busy(q) then q.popped[..n - 1] + q.discarded else q.popped + q.discarded;
    if q.drained {
      NothingWaitsWhenDrained(q, f);
      assert false;
    }
    assert q.discarded == [];
    assert All(q) == done + Places(q);
    forall k | 0 <= k < |done| ensures f !in done[k].waiters {
      assert done[k] == q.popped[k];
      assert AllDecided(q, q.popped[k].waiters, q.outcomes[k]);
      assert q.outcomes[k] != None;
    }
  }

  /** After closing has drained the queue no accepted command is undecided. */
  lemma NothingWaitsWhenDrained(q: Queue, f: nat)
    requires Inv(q) && q.drained && f < |q.callers|
    ensures !q.callers[f].Waiting?
  {
    var k := EntryOf(All(q), q.submitted, f);
    hide Tiles;
    if k < |q.popped| {
      assert AllDecided(q, q.popped[k].waiters, q.outcomes[k]);
    } else {
      assert AllDropped(q, q.discarded[k - |q.popped|].waiters);
    }
  }

  /** On every run an undecided caller is in exactly one place, exactly once. */
  lemma {:induction false} NoCallerIsLost(events: seq<Event>, f: nat)
    requires f < |Run(events).callers| && Run(events).callers[f].Waiting?
    ensures Occurrences(Places(Run(events)), f) == 1
  {
    RunKeepsInv(events);
    hide Run;
    var q := Run(events);
    PlacesAreTheRest(q, f);
    var done: seq<Entry> :| All(q) == done + Places(q) && forall k :: 0 <= k < |done| ==> f !in done[k].waiters;
    EveryFutureOnce(All(q), q.submitted, f);
    hide *;
    OccurrencesSplit(done, Places(q), f);
    NowhereIn(done, f);
  }

  // ---------------------------------------------------------------- order and representation

  ghost predicate AllBefore(earlier: seq<nat>, later: seq<nat>)
  {
    forall v: nat, w: nat :: v in earlier && w in later ==> v < w
  }

  /** A consecutive run of accepted commands, of which only coalescible ones share a run. */
  ghost predicate IsRun(waiters: seq<nat>, submitted: seq<Command>)
  {
    && waiters != [] && Last(waiters) < |submitted| && |waiters| <= Last(waiters) + 1
    && waiters == Range(Last(waiters) + 1 - |waiters|, Last(waiters) + 1)
    && (|waiters| > 1 ==> forall w: nat :: w in waiters ==> w < |submitted| && submitted[w].IsCoalescible())
  }

  function Last(waiters: seq<nat>): (r: nat)
    ensures waiters != [] ==> r == waiters[|waiters| - 1] && r in waiters
  {
    if waiters == [] then 0 else waiters[|waiters| - 1]
  }

  /** Later entries hold later commands only, and an entry carries the last command of its run. */
  lemma {:induction false} TilesInOrder(entries: seq<Entry>, submitted: seq<Command>, k: nat)
    requires Tiles(entries, submitted) && k < |entries|
    ensures Last(entries[k].waiters) < |submitted| && |entries[k].waiters| <= Last(entries[k].waiters) + 1
    ensures IsRun(entries[k].waiters, submitted)
    ensures entries[k].command == submitted[Last(entries[k].waiters)]
    ensures forall j :: 0 <= j < k ==> AllBefore(entries[j].waiters, entries[k].waiters)
  {
    var last, n := entries[|entries| - 1], |submitted|;
    var init, shorter := entries[..|entries| - 1], submitted[..n - |last.waiters|];
    if k < |init| {
      TilesInOrder(init, shorter, k);
    } else {
      hide Tiles;
      forall j | 0 <= j < k ensures AllBefore(entries[j].waiters, last.waiters) {
        forall v: nat | v in init[j].waiters ensures v < |shorter| {
          EntriesDisjoint(init, shorter, j, j, v);
        }
      }
    }
  }

  /** The accepted command that the k-th taken entry executes. */
  function Represented(q: Queue, k: nat): nat
    requires k < |q.popped|
  {
    Last(q.popped[k].waiters)
  }

  /** The executed commands are accepted commands, in their order of acceptance. */
  lemma ExecutedInOrder(events: seq<Event>, j: nat, k: nat)
    requires j < k < |Run(events).popped|
    ensures Represented(Run(events), j) < Represented(Run(events), k) < |Run(events).submitted|
    ensures Run(events).popped[k].command == Run(events).submitted[Represented(Run(events), k)]
    ensures Run(events).popped[j].command == Run(events).submitted[Represented(Run(events), j)]
  {
    RunKeepsInv(events);
    hide Run, Tiles;
    var q := Run(events);
    assert All(q)[j] == q.popped[j] && All(q)[k] == q.popped[k];
    TilesInOrder(All(q), q.submitted, j);
    TilesInOrder(All(q), q.submitted, k);
    assert AllBefore(q.popped[j].waiters, q.popped[k].waiters);
  }

  /**
   * An accepted command that is not the one its entry carries was coalescible, and the very next
   * accepted command is coalescible and in the same entry, whether the entry has been taken, is
   * still queued or was discarded by closing.
   */
  lemma DroppedIsSuperseded(events: seq<Event>, i: nat, k: nat)
    requires k < |All(Run(events))| && i in All(Run(events))[k].waiters
    ensures i <= Last(All(Run(events))[k].waiters) < |Run(events).submitted|
    ensures i != Last(All(Run(events))[k].waiters) ==>
      && i + 1 in All(Run(events))[k].waiters
      && Run(events).submitted[i].IsCoalescible() && Run(events).submitted[i + 1].IsCoalescible()
  {
    RunKeepsInv(events);
    hide Run;
    var q := Run(events);
    assert Tiles(All(q), q.submitted);
    hide Inv, Tiles;
    TilesInOrder(All(q), q.submitted, k);
    hide All;
    var waiters := All(q)[k].waiters;
    var at :| 0 <= at < |waiters| && waiters[at] == i;
    if at + 1 < |waiters| {
      assert waiters[at + 1] == i + 1;
      assert i in waiters && i + 1 in waiters;
    }
  }

  /** Entry k carries the i-th accepted command. */
  predicate Carries(entries: seq<Entry>, submitted: seq<Command>, k: nat, i: nat)
  {
    && k < |entries| && i < |submitted| && entries[k].waiters != [] && Last(entries[k].waiters) == i
    && entries[k].command == submitted[i]
  }

  ghost predicate Carried(entries: seq<Entry>, submitted: seq<Command>, i: nat)
  {
    exists k: nat :: Carries(entries, submitted, k, i)
  }

  /** An entry took the i-th accepted command in, and then the next one, both of them coalescible. */
  ghost predicate Superseded(q: Queue, i: nat)
  {
    && i + 1 < |q.submitted| && q.submitted[i].IsCoalescible() && q.submitted[i + 1].IsCoalescible()
    && exists k: nat :: k < |All(q)| && i in All(q)[k].waiters && i + 1 in All(q)[k].waiters
  }

  /** No two of them. */
  predicate AtMostOne(a: bool, b: bool, c: bool)
  {
    !(a && b) && !(a && c) && !(b && c)
  }

  /**
   * What became of an accepted command, on every run: it was superseded by the next one in its
   * entry, or exactly one entry carries it, and that entry has been taken by the worker, is still
   * queued, or was discarded when the client closed.
   */
  lemma {:induction false} FateOfACommand(events: seq<Event>, i: nat)
    requires i < |Run(events).submitted|
    ensures var q := Run(events);
      var executed, discarded, queued :=
        Carried(q.popped, q.submitted, i), Carried(q.discarded, q.submitted, i), Carried(q.queue, q.submitted, i);
      && (Superseded(q, i) <==> !(executed || discarded || queued))
      && AtMostOne(executed, discarded, queued)
      && (discarded ==> q.closed)
  {
    RunKeepsInv(events);
    var q := Run(events);
    assert Tiles(All(q), q.submitted);
    assert q.discarded != [] ==> q.closed;
    var k := EntryOf(All(q), q.submitted, i);
    DroppedIsSuperseded(events, i, k);
    hide Run, Inv, Tiles;
    TilesInOrder(All(q), q.submitted, k);
    InOnePlace(q, i);
    if Last(All(q)[k].waiters) == i {
      assert Carries(All(q), q.submitted, k, i);
      CarriedIsSomewhere(q, k, i);
      NotSuperseded(q, k, i);
    } else {
      forall j: nat ensures !Carries(All(q), q.submitted, j, i) {
        if Carries(All(q), q.submitted, j, i) {
          EntriesDisjoint(All(q), q.submitted, j, k, i);
        }
      }
      assert Superseded(q, i);
      SomewhereIsCarried(q, i);
    }
  }

  lemma SomewhereIsCarried(q: Queue, i: nat)
    ensures forall j: nat :: Carries(q.popped, q.submitted, j, i) ==> Carries(All(q), q.submitted, j, i)
    ensures forall j: nat :: Carries(q.discarded, q.submitted, j, i) ==> Carries(All(q), q.submitted, |q.popped| + j, i)
    ensures forall j: nat :: Carries(q.queue, q.submitted, j, i) ==>
      Carries(All(q), q.submitted, |q.popped| + |q.discarded| + j, i)
  {}

  lemma InOnePlace(q: Queue, i: nat)
    requires Tiles(All(q), q.submitted)
    ensures AtMostOne(Carried(q.popped, q.submitted, i), Carried(q.discarded, q.submitted, i),
                      Carried(q.queue, q.submitted, i))
  {
    SomewhereIsCarried(q, i);
    hide Tiles, All;
    forall j: nat, l: nat | Carries(All(q), q.submitted, j, i) && Carries(All(q), q.submitted, l, i) ensures j == l {
      EntriesDisjoint(All(q), q.submitted, j, l, i);
    }
  }

  lemma CarriedIsSomewhere(q: Queue, k: nat, i: nat)
    requires Carries(All(q), q.submitted, k, i)
    ensures Carried(q.popped, q.submitted, i) || Carried(q.discarded, q.submitted, i) || Carried(q.queue, q.submitted, i)
  {
    var (n, d) := (|q.popped|, |q.discarded|);
    if k < n {
      assert Carries(q.popped, q.submitted, k, i);
    } else if k < n + d {
      assert Carries(q.discarded, q.submitted, k - n, i);
    } else {
      assert Carries(q.queue, q.submitted, k - n - d, i);
    }
  }

  lemma NotSuperseded(q: Queue, k: nat, i: nat)
    requires Tiles(All(q), q.submitted) && Carries(All(q), q.submitted, k, i)
    ensures !Superseded(q, i)
  {
    hide Tiles, All;
    if Superseded(q, i) {
      var j: nat :| j < |All(q)| && i in All(q)[j].waiters && i + 1 in All(q)[j].waiters;
      EntriesDisjoint(All(q), q.submitted, j, k, i);
      TilesInOrder(All(q), q.submitted, k);
    }
  }

  /** A command that is not coalescible is executed alone: nothing is merged across it. */
  lemma BoundaryStandsAlone(events: seq<Event>, i: nat, k: nat)
    requires k < |Run(events).popped| && i in Run(events).popped[k].waiters
    requires i < |Run(events).submitted| && !Run(events).submitted[i].IsCoalescible()
    ensures Run(events).popped[k] == Entry(Run(events).submitted[i], [i])
  {
    RunKeepsInv(events);
    hide Run, Tiles;
    var q := Run(events);
    assert All(q)[k] == q.popped[k];
    TilesInOrder(All(q), q.submitted, k);
  }

  /**
   * A caller that got an outcome other than "closed" got the outcome of the entry that
   * represents its command; conversely an entry with an outcome has decided all its callers.
   */
  lemma CallersGetTheirEntrysOutcome(events: seq<Event>, f: nat)
    requires f < |Run(events).callers| && Run(events).callers[f].Done?
    requires Run(events).callers[f].outcome != CLOSED
    ensures exists k :: 0 <= k < |Run(events).popped| == |Run(events).outcomes| && f in Run(events).popped[k].waiters
                        && Run(events).outcomes[k] == Some(Run(events).callers[f].outcome)
  {
    RunKeepsInv(events);
    hide Run;
    var q := Run(events);
    var k := EntryOf(All(q), q.submitted, f);
    hide Tiles, QueuedInv, DiscardedInv;
    if k >= |q.popped| {
      UntakenFuture(q, k, f);
    } else {
      assert AllDecided(q, q.popped[k].waiters, q.outcomes[k]);
    }
  }

  lemma UntakenFuture(q: Queue, k: nat, f: nat)
    requires Inv(q) && |q.popped| <= k < |All(q)| && f in All(q)[k].waiters
    ensures f < |q.callers| && (QueuedFuture(q.callers[f]) || ClosedOrCancelled(q.callers[f]))
  {
    hide Tiles;
    var i := k - |q.popped|;
    if i < |q.discarded| {
      assert AllDropped(q, q.discarded[i].waiters);
    } else {
      assert AllUndecided(q, q.queue[i - |q.discarded|].waiters);
    }
  }

  lemma OutcomeReachesAllCallers(events: seq<Event>, k: nat, f: nat)
    requires k < |Run(events).popped| == |Run(events).outcomes| && f in Run(events).popped[k].waiters
    requires Run(events).outcomes[k].Some?
    ensures f < |Run(events).callers|
    ensures Run(events).callers[f] == Done(Run(events).outcomes[k].value) || Run(events).callers[f] == CallerCancelled
         || (Run(events).closed && Run(events).callers[f] == Done(CLOSED))
  {
    RunKeepsInv(events);
    hide Run;
    var q := Run(events);
    assert AllDecided(q, q.popped[k].waiters, q.outcomes[k]);
  }

  // ---------------------------------------------------------------- the worker reaches every caller

  /** Position of the entry that holds the future. */
  ghost function IndexOf(entries: seq<Entry>, f: nat): nat
  {
    if entries == [] then 0
    else if f in entries[|entries| - 1].waiters then |entries| - 1
    else IndexOf(entries[..|entries| - 1], f)
  }

  lemma {:induction false} IndexOfIs(entries: seq<Entry>, submitted: seq<Command>, k: nat, f: nat)
    requires Tiles(entries, submitted) && k < |entries| && f in entries[k].waiters
    ensures IndexOf(entries, f) == k
  {
    var last := entries[|entries| - 1];
    var init, shorter := entries[..|entries| - 1], submitted[..|submitted| - |last.waiters|];
    if f in last.waiters {
      EntriesDisjoint(entries, submitted, k, |entries| - 1, f);
    } else {
      IndexOfIs(init, shorter, k, f);
    }
  }

  function WorkerPhase(q: Queue): Phase
  {
    if q.workerTask.Some? && q.workerTask.value < |q.tasks| then q.tasks[q.workerTask.value].phase else Gone
  }

  function PhaseRank(phase: Phase): nat
  {
    match phase
    case Popped(_) => 4
    case Running(_, _) => 3
    case Clearing(_, _) => 2
    case Exiting => 1
    case _ => 0
  }

  /** How many steps of a worker can still come before the caller is decided. */
  ghost function Rank(q: Queue, f: nat): nat
  {
    var k := IndexOf(All(q), f);
    if k < |q.popped| then (if WorkerPhase(q).Popped? then 2 else 1)
    else 5 * (k - |q.popped|) + PhaseRank(WorkerPhase(q)) + 3
  }

  predicate WorkerStep(e: Event)
  {
    e.EPop? || e.EStart? || e.EResolve? || e.EClear? || e.EExit?
  }

  /** While a caller of an open client is undecided, its worker is alive and has a step to make. */
  lemma AWorkerStepIsEnabled(events: seq<Event>, f: nat)
    requires f < |Run(events).callers| && Run(events).callers[f].Waiting? && !Run(events).closed
    ensures exists e :: WorkerStep(e) && Enabled(Run(events), e)
  {
    RunKeepsInv(events);
    hide Run;
    var q := Run(events);
    WaitingHasWorker(q, f);
    var t := q.workerTask.value;
    match q.tasks[t].phase
    case Fresh => assert Enabled(q, EPop(t)) && WorkerStep(EPop(t));
    case AtTop => assert Enabled(q, EPop(t)) && WorkerStep(EPop(t));
    case Popped(_) => assert Enabled(q, EStart(t, 0)) && WorkerStep(EStart(t, 0));
    case Running(_, _) => assert Enabled(q, EResolve(t, CLOSED)) && WorkerStep(EResolve(t, CLOSED));
    case Clearing(_, _) => assert Enabled(q, EClear(t)) && WorkerStep(EClear(t));
    case Exiting => assert Enabled(q, EExit(t)) && WorkerStep(EExit(t));
    case Gone => assert false;
  }

  lemma WaitingHasWorker(q: Queue, f: nat)
    requires Inv(q) && !q.closed && f < |q.callers| && q.callers[f].Waiting?
    ensures q.workerTask.Some? && Alive(q, q.workerTask.value) && q.discarded == []
    ensures IndexOf(All(q), f) < |All(q)| && f in All(q)[IndexOf(All(q), f)].waiters
    ensures IndexOf(All(q), f) < |q.popped| ==> Busy(q) && IndexOf(All(q), f) == |q.popped| - 1
  {
    var k := EntryOf(All(q), q.submitted, f);
    IndexOfIs(All(q), q.submitted, k, f);
    hide Tiles;
    if k < |q.popped| {
      assert AllDecided(q, q.popped[k].waiters, q.outcomes[k]);
    } else {
      assert q.queue != [];
    }
  }

  lemma IndexIsStable(q: Queue, q': Queue, f: nat, k: nat)
    requires Inv(q) && Inv(q') && k < |All(q)| && k < |All(q')|
    requires f in All(q)[k].waiters && f in All(q')[k].waiters
    ensures IndexOf(All(q), f) == IndexOf(All(q'), f) == k
  {
    IndexOfIs(All(q), q.submitted, k, f);
    IndexOfIs(All(q'), q'.submitted, k, f);
  }

  /** No step of an open client moves the entry of an accepted command. */
  lemma EntryStays(q: Queue, e: Event, k: nat, f: nat)
    requires Inv(q) && Enabled(q, e) && !e.EDeliverCancel? && !Next(q, e).closed
    requires k < |All(q)| && f in All(q)[k].waiters && q.discarded == []
    ensures k < |All(Next(q, e))| && f in All(Next(q, e))[k].waiters
  {
    hide Inv;
    if e.ESubmit? {
      hide Spawn;
      EntryStaysOnSubmit(q, e.command, k, f);
    } else {
      var q' := Next(q, e);
      hide SetAll, Enabled;
      assert e.EPop? && q.queue != [] ==> q'.popped + [] + q'.queue == q.popped + [] + q.queue;
      assert All(q') == All(q);
    }
  }

  lemma EntryStaysOnSubmit(q: Queue, command: Command, k: nat, f: nat)
    requires k < |All(q)| && f in All(q)[k].waiters && q.discarded == []
    ensures k < |All(Submit(q, command))| && f in All(Submit(q, command))[k].waiters
  {
    var q', n := Submit(q, command), |q.popped|;
    assert q'.popped == q.popped && q'.discarded == [];
    if k >= n {
      assert All(q)[k] == q.queue[k - n];
      assert f in q'.queue[k - n].waiters;
      assert All(q')[k] == q'.queue[k - n];
    } else {
      assert All(q')[k] == q.popped[k];
    }
  }

  /** What the steps of an open client do to the phase of its worker. */
  lemma WorkerAdvances(q: Queue, e: Event)
    requires Inv(q) && !Next(q, e).closed && WorkerPhase(q) != Gone && Enabled(q, e)
    ensures !e.EDeliverCancel?
    ensures |Next(q, e).popped| == |q.popped| + (if e.EPop? && q.queue != [] then 1 else 0)
    ensures !WorkerStep(e) ==> WorkerPhase(Next(q, e)) == WorkerPhase(q)
    ensures e.EPop? && q.queue != [] ==> PhaseRank(WorkerPhase(q)) == 0 && WorkerPhase(Next(q, e)).Popped?
    ensures e.EStart? ==> WorkerPhase(q).Popped? && WorkerPhase(Next(q, e)).Running?
    ensures e.EClear? ==> PhaseRank(WorkerPhase(Next(q, e))) < PhaseRank(WorkerPhase(q))
    ensures e.EExit? && q.queue != [] ==> PhaseRank(WorkerPhase(Next(q, e))) < PhaseRank(WorkerPhase(q))
  {
    assert !q.closed ==> !q.drained by {
      hide Tiles;
    }
    hide FuturesInv, Entered;
  }

  lemma ResolveAdvances(q: Queue, t: nat, outcome: Outcome)
    requires Inv(q) && !q.closed && Enabled(q, EResolve(t, outcome))
    ensures PhaseRank(WorkerPhase(Resolve(q, t, outcome, false))) < PhaseRank(WorkerPhase(q))
    ensures Resolve(q, t, outcome, false).popped == q.popped
    ensures q.workerTask == Some(t) && q.tasks[t].phase.entry.waiters == q.popped[|q.popped| - 1].waiters
  {
    hide FuturesInv;
    assert q.workerTask == Some(t);
  }

  lemma RankAfterResolve(q: Queue, t: nat, outcome: Outcome, f: nat, k: nat)
    requires Inv(q) && !q.closed && Enabled(q, EResolve(t, outcome)) && f < |q.callers|
    requires q.callers[f].Waiting? && Resolve(q, t, outcome, false).callers[f].Waiting?
    requires k < |q.popped| ==> k == |q.popped| - 1 && f in q.popped[k].waiters
    requires k == IndexOf(All(q), f) == IndexOf(All(Resolve(q, t, outcome, false)), f)
    ensures Rank(Resolve(q, t, outcome, false), f) < Rank(q, f)
  {
    hide IndexOf, All;
    ResolveAdvances(q, t, outcome);
    hide Inv, WorkerPhase;
  }

  lemma RankAfterOther(q: Queue, e: Event, f: nat, k: nat)
    requires Inv(q) && !Next(q, e).closed && WorkerPhase(q) != Gone && Enabled(q, e) && !e.EResolve?
    requires k < |q.popped| ==> Executing(WorkerPhase(q))
    requires k >= |q.popped| ==> q.queue != []
    requires k == IndexOf(All(q), f) == IndexOf(All(Next(q, e)), f)
    ensures Rank(Next(q, e), f) <= Rank(q, f)
    ensures WorkerStep(e) ==> Rank(Next(q, e), f) < Rank(q, f)
  {
    hide IndexOf, All;
    WorkerAdvances(q, e);
    PhaseOfStep(q, e);
    hide Next, WorkerPhase, Enabled, Inv;
  }

  lemma PhaseOfStep(q: Queue, e: Event)
    requires Inv(q) && Enabled(q, e)
    ensures e.EPop? || e.EClear? || e.EExit? ==> !Executing(WorkerPhase(q))
  {
    hide FuturesInv;
  }

  /**
   * Every step of the worker brings an undecided caller closer to its outcome, and no other
   * step takes it further away.
   */
  lemma RankNeverGrows(q: Queue, e: Event, f: nat)
    requires Inv(q) && !Next(q, e).closed && f < |q.callers| <= |Next(q, e).callers|
    requires q.callers[f].Waiting? && Next(q, e).callers[f].Waiting?
    ensures Rank(Next(q, e), f) <= Rank(q, f)
    ensures WorkerStep(e) && Enabled(q, e) ==> Rank(Next(q, e), f) < Rank(q, f)
  {
    hide Rank;
    if Enabled(q, e) {
      var k := IndexOf(All(q), f);
      NextKeepsInv(q, e);
      ClosedStays(q, e);
      WaitingHasWorker(q, f);
      assert WorkerPhase(q) != Gone;
      hide IndexOf, FuturesInv;
      assert !e.EDeliverCancel? by {
        if e.EDeliverCancel? {
          WorkerAdvances(q, e);
        }
      }
      EntryStays(q, e, k, f);
      IndexIsStable(q, Next(q, e), f, k);
      if e.EResolve? {
        RankAfterResolve(q, e.task, e.outcome, f, k);
      } else {
        RankAfterOther(q, e, f, k);
      }
    }
  }

  lemma ClosedStays(q: Queue, e: Event)
    ensures q.closed ==> Next(q, e).closed
  {}

  /** A future is completed at most once: a decided one never changes. */
  lemma DecidedForGood(q: Queue, e: Event, f: nat)
    requires f < |q.callers|
    ensures |q.callers| <= |Next(q, e).callers|
    ensures !q.callers[f].Waiting? ==> Next(q, e).callers[f] == q.callers[f]
  {
    hide SetAll;
    if e.ECloseDrain? {
      FailEntriesPoints(q.callers, q.queue, f);
    }
    hide FailEntries;
  }

  /** How many steps a worker made in the second part of the run. */
  ghost function WorkerSteps(past: seq<Event>, more: seq<Event>): nat
  {
    if more == [] then 0
    else
      var init, e := more[..|more| - 1], more[|more| - 1];
      WorkerSteps(past, init) + if WorkerStep(e) && Enabled(Run(past + init), e) then 1 else 0
  }

  /**
   * On every run of an open client a caller can stay undecided only for as many worker steps as
   * its rank said, whatever else happens in between.
   */
  lemma {:induction false} ServedWithinItsRank(past: seq<Event>, more: seq<Event>, f: nat)
    requires f < |Run(past).callers| <= |Run(past + more).callers|
    requires Run(past + more).callers[f].Waiting? && !Run(past + more).closed
    ensures WorkerSteps(past, more) + Rank(Run(past + more), f) <= Rank(Run(past), f)
  {
    hide Next, Rank, Enabled;
    if more == [] {
      assert past + more == past;
    } else {
      var init, e := more[..|more| - 1], more[|more| - 1];
      var before := Run(past + init);
      assert (past + more)[..|past + more| - 1] == past + init;
      assert Run(past + more) == Next(before, e);
      hide Run;
      CallersGrow(past, init);
      DecidedForGood(before, e, f);
      ClosedStays(before, e);
      ServedWithinItsRank(past, init, f);
      RunKeepsInv(past + init);
      RankNeverGrows(before, e, f);
    }
  }

  lemma {:induction false} CallersGrow(past: seq<Event>, more: seq<Event>)
    ensures |Run(past).callers| <= |Run(past + more).callers|
  {
    hide Next;
    if more == [] {
      assert past + more == past;
    } else {
      var init, e := more[..|more| - 1], more[|more| - 1];
      assert (past + more)[..|past + more| - 1] == past + init;
      assert Run(past + more) == Next(Run(past + init), e);
      hide Run;
      CallersGrow(past, init);
      if |Run(past + init).callers| > 0 {
        DecidedForGood(Run(past + init), e, |Run(past + init).callers| - 1);
      }
    }
  }

  // ---------------------------------------------------------------- after closing

  lemma NothingMovesWhenDrained(q: Queue, e: Event)
    requires Inv(q) && q.drained
    ensures Next(q, e).drained && Next(q, e).queue == [] && Next(q, e).callers == q.callers
    ensures Next(q, e).popped == q.popped && Next(q, e).submitted == q.submitted
    ensures |Next(q, e).tasks| == |q.tasks|
  {
    forall f: nat | f < |q.callers| ensures !q.callers[f].Waiting? {
      NothingWaitsWhenDrained(q, f);
    }
    hide Tiles, TasksInv, PoppedInv, QueuedInv, DiscardedInv;
  }

  /**
   * Once closing has drained the queue every caller is decided, and whatever still happens no
   * caller changes, no command is accepted or executed and no worker is started.
   */
  lemma {:induction false} ClosedForGood(past: seq<Event>, more: seq<Event>)
    requires Run(past).drained
    ensures forall f :: 0 <= f < |Run(past).callers| ==> !Run(past).callers[f].Waiting?
    ensures Run(past + more).callers == Run(past).callers && Run(past + more).popped == Run(past).popped
    ensures Run(past + more).submitted == Run(past).submitted && Run(past + more).queue == []
    ensures Run(past + more).drained && |Run(past + more).tasks| == |Run(past).tasks|
  {
    hide Next;
    RunKeepsInv(past);
    forall f: nat | f < |Run(past).callers| ensures !Run(past).callers[f].Waiting? {
      NothingWaitsWhenDrained(Run(past), f);
    }
    if more == [] {
      assert past + more == past;
    } else {
      var init, e := more[..|more| - 1], more[|more| - 1];
      assert (past + more)[..|past + more| - 1] == past + init;
      assert Run(past + more) == Next(Run(past + init), e);
      hide Run, Inv;
      ClosedForGood(past, init);
      RunKeepsInv(past + init);
      NothingMovesWhenDrained(Run(past + init), e);
    }
  }

  function WindDown(phase: Phase): nat
  {
    match phase
    case Popped(_) => 5
    case Running(_, _) => 4
    case Clearing(_, _) => 3
    case Fresh => 2
    case AtTop => 2
    case Exiting => 1
    case Gone => 0
  }

  /** After closing every step of the last worker, its cancellation included, takes it to its end. */
  lemma WorkerEndsAfterClosing(q: Queue, e: Event, t: nat)
    requires Inv(q) && q.drained && Alive(q, t) && Enabled(q, e)
    ensures |Next(q, e).tasks| == |q.tasks|
    ensures WorkerStep(e) || e.EDeliverCancel? ==> WindDown(Next(q, e).tasks[t].phase) < WindDown(q.tasks[t].phase)
    ensures WindDown(Next(q, e).tasks[t].phase) <= WindDown(q.tasks[t].phase)
  {
    LastWorker(q, t);
    hide Inv, SetAll, FailEntries, Entered;
  }

  lemma LastWorker(q: Queue, t: nat)
    requires Inv(q) && q.drained && Alive(q, t)
    ensures q.closed && q.queue == [] && q.workerTask == Some(t)
    ensures forall o: nat :: o < |q.tasks| && o != t ==> q.tasks[o].phase.Gone?
  {
    hide Tiles, PoppedInv, QueuedInv, DiscardedInv;
  }
}
