/** From the datagram that shows a command to the callers of the command. */
module Delivery {
  import opened Bytes
  import opened Models
  import opened Transport
  import Q = CommandQueue
  import R = Requests
  import RequestSafety
  import Confirmation
  import Answering
  import Endings

  /** The worker runs wait i, all of whose datagrams have been sent. */
  predicate Awaits(s: System, t: nat, i: nat)
  {
    t < |s.queue.tasks| && WaitOf(s, t) == Some(i) && s.client.requests[i].phase.Waiting?
  }

  /** A received datagram shows what wait i wants to see. */
  predicate Shows(s: System, data: bytes, source: Endpoint, at: real, i: nat)
  {
    && i < |s.client.requests| && Confirmation.ConfirmedBy(s.client, R.Received(data, source, at), i)
    && Answering.IsNew(s.client, R.Received(data, source, at))
  }

  lemma AfterReceive(s: System, data: bytes, source: Endpoint, at: real, i: nat)
    requires Inv(s) && Shows(s, data, source, at, i) && s.client.requests[i].phase.Waiting?
    ensures var s' := Next(s, Receive(data, source, at));
      && s'.queue == s.queue && i < |s'.client.requests| && s'.client.requests[i].phase.Waiting?
      && s'.client.requests[i].reply.Answered?
      && s'.client.state == Some(s'.client.requests[i].reply.state)
  {
    var e := R.Received(data, source, at);
    assert R.Enabled(s.client, e);
    Answering.ConfirmedIsAnswered(s.client, e, i);
    RequestSafety.CompletedAtMostOnce(s.client, e, i);
    Endings.ReceivingIsForeign(s.client, e, i);
    Confirmation.AnsweredOnlyWhenConfirmed(s.client, e, i);
    hide Q.Next, R.Next, Inv, RequestSafety.Advances, Answering.IsNew, Confirmation.ConfirmedBy;
  }

  lemma AfterWaking(s: System, i: nat)
    requires i < |s.client.requests| && s.client.requests[i].phase.Waiting? && s.client.requests[i].reply.Answered?
    ensures var s' := Next(s, Wait(R.Woken(i)));
      && s'.queue == s.queue && i < |s'.client.requests|
      && s'.client.requests[i].phase == R.Ended(Some(Success(s.client.requests[i].reply.state)))
  {
    Endings.WakesWithTheAnswer(s.client, i);
    hide R.Next, R.Enabled, Executed;
  }

  lemma AfterTaking(s: System, t: nat, i: nat, outcome: Outcome)
    requires Inv(s) && t < |s.queue.tasks| && WaitOf(s, t) == Some(i)
    requires s.client.requests[i].phase == R.Ended(Some(outcome))
    ensures var s' := Next(s, TakeOutcome(t));
      && |s'.queue.callers| == |s.queue.callers|
      && forall f: nat :: f < |s.queue.callers| ==>
        s'.queue.callers[f] == if f in s.queue.tasks[t].phase.entry.waiters && s.queue.callers[f].Waiting?
                               then Q.Done(outcome) else s.queue.callers[f]
  {
    OutcomeOfWorker(s.queue, t);
    hide Inv;
  }

  /**
   * While a worker waits for the command of an entry, any new datagram that shows the command
   * makes it succeed: the wait wakes up, and every caller of the entry that is still waiting is
   * given the state that the client has from that datagram.
   */
  lemma {:induction false} ShownCommandSucceeds(
    start: System, events: seq<Event>, t: nat, i: nat, data: bytes, source: Endpoint, at: real)
    requires Initial(start) && Awaits(Run(start, events), t, i) && Shows(Run(start, events), data, source, at, i)
    ensures var s := Run(start, events);
      var s1 := Run(start, events + [Receive(data, source, at)]);
      var s3 := Run(start, events + [Receive(data, source, at), Wait(R.Woken(i)), TakeOutcome(t)]);
      && s1.client.state.Some? && |s3.queue.callers| == |s.queue.callers|
      && forall f: nat :: f < |s.queue.callers| && f in s.queue.tasks[t].phase.entry.waiters && s.queue.callers[f].Waiting? ==>
        s3.queue.callers[f] == Q.Done(Success(s1.client.state.value))
  {
    RunKeepsInv(start, events);
    var s := Run(start, events);
    var a, b, c := Receive(data, source, at), Wait(R.Woken(i)), TakeOutcome(t);
    var s1 := Next(s, a);
    var s2 := Next(s1, b);
    ThreeMore(start, events, a, b, c);
    AfterReceive(s, data, source, at, i);
    AfterWaking(s1, i);
    NextKeepsInv(s, a);
    NextKeepsInv(s1, b);
    hide Next, Inv, Shows, Run;
    AfterTaking(s2, t, i, Success(s1.client.state.value));
  }

  lemma ThreeMore(start: System, events: seq<Event>, a: Event, b: Event, c: Event)
    ensures Run(start, events + [a]) == Next(Run(start, events), a)
    ensures Run(start, events + [a, b, c]) == Next(Next(Next(Run(start, events), a), b), c)
  {
    hide Next;
    var more := events + [a, b, c];
    assert (events + [a])[..|events|] == events;
    assert more[..|events| + 2] == events + [a, b] && (events + [a, b])[..|events| + 1] == events + [a];
  }

  /** A worker that is cancelled while it waits for its command ends the wait, and fails the entry's callers. */
  lemma CancelledWorkerEndsItsWait(s: System, t: nat, i: nat)
    requires Inv(s) && Enabled(s, DeliverCancel(t)) && WaitOf(s, t) == Some(i) && !s.client.requests[i].phase.Ended?
    ensures var s' := Next(s, DeliverCancel(t));
      && i < |s'.client.requests| && s'.client.requests[i].phase == R.Ended(None) && i !in s'.client.pending
      && |s'.queue.callers| == |s.queue.callers|
      && forall f: nat :: f < |s.queue.callers| ==>
        s'.queue.callers[f] == if f in s.queue.tasks[t].phase.entry.waiters && s.queue.callers[f].Waiting?
                               then Q.Done(Failure(ClientClosed)) else s.queue.callers[f]
  {}
}
