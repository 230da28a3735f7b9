/** When commands are coalesced: always, if both may be and nothing else was queued between them. */
module Coalescing {
  import opened Bytes
  import opened Models
  import opened CommandQueue

  /** The writes that replace one another while they are queued. */
  predicate Replaceable(operation: Operation)
  {
    operation == Percentage || operation == Speed
  }

  lemma StepKeepsCoalesced(q: Queue, e: Event)
    requires forall k :: 0 <= k < |q.queue| - 1 ==>
      !(Replaceable(q.queue[k].command.operation) && Replaceable(q.queue[k + 1].command.operation))
    ensures var queue := Next(q, e).queue;
      forall k :: 0 <= k < |queue| - 1 ==>
        !(Replaceable(queue[k].command.operation) && Replaceable(queue[k + 1].command.operation))
  {
    hide SetAll, FailEntries;
    if e.ESubmit? {
      SubmittedQueue(q, e.command);
    }
    hide Submit;
  }

  /** On no run are two percentage or speed writes queued one behind the other. */
  lemma {:induction false} NothingLeftToCoalesce(events: seq<Event>, k: nat)
    requires k + 1 < |Run(events).queue|
    ensures Run(events).queue[k].command.operation !in {Percentage, Speed}
         || Run(events).queue[k + 1].command.operation !in {Percentage, Speed}
  {
    QueueIsCoalesced(events);
    hide Run;
    assert 0 <= k < |Run(events).queue| - 1;
  }

  lemma {:induction false} QueueIsCoalesced(events: seq<Event>)
    ensures forall k :: 0 <= k < |Run(events).queue| - 1 ==>
      !(Replaceable(Run(events).queue[k].command.operation) && Replaceable(Run(events).queue[k + 1].command.operation))
  {
    hide Next;
    if events != [] {
      QueueIsCoalesced(events[..|events| - 1]);
      StepKeepsCoalesced(Run(events[..|events| - 1]), events[|events| - 1]);
    }
  }

  /** The queue after a command, and that it becomes the last caller. */
  lemma SubmittedQueue(q: Queue, command: Command)
    ensures var q' := Next(q, ESubmit(command));
      if q.closed then q' == q
      else
        && q'.callers == q.callers + [Waiting] && q'.submitted == q.submitted + [command] && q'.popped == q.popped
        && q'.discarded == q.discarded
        && if q.queue != [] && Replaceable(q.queue[|q.queue| - 1].command.operation) && Replaceable(command.operation)
           then q'.queue == q.queue[..|q.queue| - 1]
                            + [Entry(command, q.queue[|q.queue| - 1].waiters + [|q.callers|])]
           else q'.queue == q.queue + [Entry(command, [|q.callers|])]
  {}

  /**
   * A percentage or speed write that is submitted to an open client while another one is last in
   * the queue takes its place: the entry carries the new command, and both callers wait for it.
   */
  lemma {:induction false} QueuedWriteIsReplaced(events: seq<Event>, command: Command)
    requires !Run(events).closed && Run(events).queue != []
    requires command.operation in {Percentage, Speed}
    requires Run(events).queue[|Run(events).queue| - 1].command.operation in {Percentage, Speed}
    ensures var before, after := Run(events).queue, Run(events + [ESubmit(command)]).queue;
      && |after| == |before| && after[..|before| - 1] == before[..|before| - 1]
      && after[|before| - 1].command == command
      && after[|before| - 1].waiters == before[|before| - 1].waiters + [|Run(events).callers|]
  {
    hide Next;
    assert (events + [ESubmit(command)])[..|events|] == events;
    SubmittedQueue(Run(events), command);
  }

  /** Every other command is queued behind all that is there, alone. */
  lemma {:induction false} OtherwiseQueuedAlone(events: seq<Event>, command: Command)
    requires !Run(events).closed
    requires Run(events).queue == [] || command.operation !in {Percentage, Speed}
          || Run(events).queue[|Run(events).queue| - 1].command.operation !in {Percentage, Speed}
    ensures Run(events + [ESubmit(command)]).queue
         == Run(events).queue + [Entry(command, [|Run(events).callers|])]
  {
    hide Next;
    assert (events + [ESubmit(command)])[..|events|] == events;
    SubmittedQueue(Run(events), command);
  }

  /**
   * The callers of a write that is replaced before a worker takes it are told how its replacement
   * went: whatever happens after the replacement, once both are decided, and neither was
   * cancelled or closed, they have the same outcome.
   */
  lemma {:induction false} ReplacedShareTheOutcome(past: seq<Event>, command: Command, more: seq<Event>, f: nat)
    requires !Run(past).closed && Run(past).queue != [] && command.operation in {Percentage, Speed}
    requires Run(past).queue[|Run(past).queue| - 1].command.operation in {Percentage, Speed}
    requires f in Run(past).queue[|Run(past).queue| - 1].waiters
    ensures var events := past + [ESubmit(command)] + more;
      var g := |Run(past).callers|;
      f < g < |Run(events).callers|
      && (Run(events).callers[f].Done? && Run(events).callers[g].Done?
          && Run(events).callers[f].outcome != CLOSED && Run(events).callers[g].outcome != CLOSED ==>
            Run(events).callers[f] == Run(events).callers[g])
  {
    var joined := past + [ESubmit(command)];
    var events := joined + more;
    var g := |Run(past).callers|;
    QueuedWriteIsReplaced(past, command);
    var last := |Run(past).queue| - 1;
    assert g in Run(joined).queue[last].waiters;
    assert f in Run(joined).queue[last].waiters;
    SubmittedQueue(Run(past), command);
    assert joined[..|past|] == past;
    Together(joined, more, f, g);
    EarlierCaller(past, f);
    hide Run, Next, Carries, Superseded;
    var q := Run(events);
    if q.callers[f].Done? && q.callers[g].Done? && q.callers[f].outcome != CLOSED && q.callers[g].outcome != CLOSED {
      CallersGetTheirEntrysOutcome(events, f);
      CallersGetTheirEntrysOutcome(events, g);
      RunKeepsInv(events);
      var i :| 0 <= i < |q.popped| == |q.outcomes| && f in q.popped[i].waiters && q.outcomes[i] == Some(q.callers[f].outcome);
      var j :| 0 <= j < |q.popped| && g in q.popped[j].waiters && q.outcomes[j] == Some(q.callers[g].outcome);
      assert All(q)[i] == q.popped[i] && All(q)[j] == q.popped[j];
      var k: nat :| k < |All(q)| && f in All(q)[k].waiters && g in All(q)[k].waiters;
      EntriesDisjoint(All(q), q.submitted, i, k, f);
      EntriesDisjoint(All(q), q.submitted, j, k, g);
    }
  }

  lemma EarlierCaller(past: seq<Event>, f: nat)
    requires exists k :: 0 <= k < |Run(past).queue| && f in Run(past).queue[k].waiters
    ensures f < |Run(past).callers|
  {
    RunKeepsInv(past);
    hide Run;
    var q := Run(past);
    var k :| 0 <= k < |q.queue| && f in q.queue[k].waiters;
    var at := |q.popped| + |q.discarded| + k;
    assert All(q)[at] == q.queue[k];
    EntriesDisjoint(All(q), q.submitted, at, at, f);
  }

  /** Two callers share an entry. */
  ghost predicate Share(q: Queue, f: nat, g: nat)
  {
    exists k: nat :: k < |All(q)| && f in All(q)[k].waiters && g in All(q)[k].waiters
  }

  lemma EntriesStay(q: Queue, e: Event)
    requires Inv(q) && !e.ESubmit?
    ensures All(Next(q, e)) == All(q)
  {
    hide Tiles, TasksInv, PoppedInv, QueuedInv, DiscardedInv, SetAll, FailEntries, Submit;
  }

  lemma StepKeepsTogether(q: Queue, e: Event, f: nat, g: nat)
    requires Inv(q) && Share(q, f, g)
    ensures Share(Next(q, e), f, g)
  {
    var q' := Next(q, e);
    var k: nat :| k < |All(q)| && f in All(q)[k].waiters && g in All(q)[k].waiters;
    if e.ESubmit? {
      SubmittedQueue(q, e.command);
      hide Next, Inv;
      assert f in All(q')[k].waiters && g in All(q')[k].waiters;
    } else {
      EntriesStay(q, e);
      hide Next, Inv;
      assert f in All(q')[k].waiters && g in All(q')[k].waiters;
    }
  }

  lemma {:induction false} Together(past: seq<Event>, more: seq<Event>, f: nat, g: nat)
    requires g < |Run(past).callers|
    requires exists k :: 0 <= k < |Run(past).queue| && f in Run(past).queue[k].waiters && g in Run(past).queue[k].waiters
    ensures Share(Run(past + more), f, g) && g < |Run(past + more).callers|
  {
    hide Next;
    if more == [] {
      assert past + more == past;
      var q := Run(past);
      var k :| 0 <= k < |q.queue| && f in q.queue[k].waiters && g in q.queue[k].waiters;
      assert All(q)[|q.popped| + |q.discarded| + k] == q.queue[k];
    } else {
      var init, e := more[..|more| - 1], more[|more| - 1];
      assert (past + more)[..|past + more| - 1] == past + init;
      Together(past, init, f, g);
      RunKeepsInv(past + init);
      StepKeepsTogether(Run(past + init), e, f, g);
      DecidedForGood(Run(past + init), e, g);
    }
  }

  // ---------------------------------------------------------------- workers

  /**
   * A worker is started exactly by an open client: for a command when none is alive, and by the
   * client's own worker that leaves while something is queued.
   */
  lemma WorkersStartIff(q: Queue, e: Event)
    ensures |Next(q, e).tasks| > |q.tasks|
       <==> !q.closed
            && ((e.ESubmit? && !(q.workerTask.Some? && Alive(q, q.workerTask.value)))
                || (e.EExit? && Enabled(q, e) && q.workerTask == Some(e.task) && q.queue != []))
  {
    if !e.ESubmit? && !e.EExit? {
      OthersStartNone(q, e);
    }
    hide SetAll, FailEntries, Entered, Alive;
    hide Pop, Start, Resolve, Clear, CloseDrain, DeliverCancel;
  }

  lemma OthersStartNone(q: Queue, e: Event)
    requires !e.ESubmit? && !e.EExit?
    ensures |Next(q, e).tasks| == |q.tasks|
  {
    hide SetAll, FailEntries, Entered;
  }

  /** The callers that closing would fail besides the queued ones are those of the entry at the worker. */
  predicate ActiveAtWorker(q: Queue)
  {
    q.active != [] ==>
      && q.workerTask.Some? && q.workerTask.value < |q.tasks|
      && AtHand(q.tasks[q.workerTask.value].phase, q.active)
  }

  predicate AtHand(phase: Phase, waiters: seq<nat>)
  {
    || ((phase.Popped? || phase.Running?) && phase.entry.waiters == waiters)
    || (phase.Clearing? && phase.waiters == waiters)
  }

  lemma StepKeepsActive(q: Queue, e: Event)
    requires Inv(q) && ActiveAtWorker(q) && !Next(q, e).drained
    ensures ActiveAtWorker(Next(q, e))
  {
    if Enabled(q, e) {
      OnlyTheWorker(q, e);
    }
    hide SetAll, FailEntries, Entered, Inv;
  }

  lemma OnlyTheWorker(q: Queue, e: Event)
    requires Inv(q) && Enabled(q, e) && !q.drained
    ensures e.EPop? || e.EStart? || e.EResolve? || e.EClear? || e.EExit? ==> q.workerTask == Some(e.task)
    ensures !e.EDeliverCancel?
    ensures e.ESubmit? && !(q.workerTask.Some? && Alive(q, q.workerTask.value)) ==> !Busy(q)
  {}

  /** Until closing has drained the queue, the active callers are exactly the worker's, and none between two entries. */
  lemma {:induction false} ActiveIsAtWorker(events: seq<Event>)
    requires !Run(events).drained
    ensures ActiveAtWorker(Run(events))
  {
    if events != [] {
      var init := events[..|events| - 1];
      RunKeepsInv(init);
      DrainedStays(Run(init), events[|events| - 1]);
      ActiveIsAtWorker(init);
      StepKeepsActive(Run(init), events[|events| - 1]);
    }
  }

  lemma DrainedStays(q: Queue, e: Event)
    ensures q.drained ==> Next(q, e).drained
  {
    hide SetAll, FailEntries, Entered;
  }

  /** A cancelled caller is told so, and nobody else notices. */
  lemma CancelledCaller(q: Queue, f: nat)
    requires f < |q.callers| && q.callers[f].Waiting?
    ensures var after := Next(q, ECancelCaller(f));
      && after == q.(callers := after.callers) && |after.callers| == |q.callers|
      && forall g :: 0 <= g < |q.callers| ==>
        after.callers[g] == if g == f then CallerCancelled else q.callers[g]
  {}

  /** Closing asks the live worker to stop, whatever it is at; and a worker that has left is forgotten or replaced. */
  lemma ClosingCancelsTheWorker(events: seq<Event>, t: nat)
    requires Run(events).closed && !Run(events).drained && Alive(Run(events), t)
    ensures Run(events + [ECloseDrain]).tasks[t].cancelRequested
  {
    var more := events + [ECloseDrain];
    assert more[..|more| - 1] == events;
    assert Run(more) == Next(Run(events), ECloseDrain);
    RunKeepsInv(events);
    TheWorker(Run(events), t);
    hide SetAll, FailEntries, Run, Inv;
  }

  lemma TheWorker(q: Queue, t: nat)
    requires Inv(q) && Alive(q, t)
    ensures q.workerTask == Some(t)
  {}

  lemma LeavingWorker(q: Queue, t: nat)
    requires Enabled(q, EExit(t)) && q.workerTask == Some(t)
    ensures var after := Next(q, EExit(t));
      && t < |after.tasks| && after.tasks[t].phase.Gone?
      && (after.workerTask == None || (after.workerTask == Some(|q.tasks|) && |after.tasks| == |q.tasks| + 1))
  {}
}
