/** How a wait goes on and how it ends: which outcome it has, and after how many datagrams. */
module Endings {
  import opened Bytes
  import opened Models
  import opened Requests
  import opened RequestSafety
  import opened Confirmation
  import opened Answering
  import DuplicateCache
  import Codecs

  /** Attempts: three for a command, two for a refresh. */
  function Attempts(r: Request): nat
  {
    if r.command.Some? then 3 else 2
  }

  /** Sending is refused: the client is closed, it has no endpoint, or the socket fails. */
  predicate Refused(closed: bool, connected: bool, failAt: Option<nat>, outcome: Option<Outcome>)
  {
    || (closed && outcome == Some(Failure(ClientClosed)))
    || (!closed && (!connected || failAt.Some?) && outcome == Some(Failure(DeviceUnavailable)))
  }

  /** The sending loop ends the wait only when sending is refused. */
  lemma {:induction false} SendingEnds(r: Request, closed: bool, connected: bool, index: nat, failAt: Option<nat>)
    requires !r.phase.Ended?
    ensures var r' := SendFrom(r, closed, connected, index, failAt);
      r'.phase.Ended? ==> Refused(closed, connected, failAt, r'.phase.outcome)
    decreases |r.datagrams| - index
  {
    if index < |r.datagrams| && !closed && connected && failAt != Some(index)
       && !(r.paced && index + 1 < |r.datagrams|) {
      SendingEnds(r.(sent := r.sent + 1), closed, connected, index + 1, failAt);
    }
  }

  /** Unless it is refused, it sends all that is left, or the first of two datagrams and pauses. */
  lemma {:induction false} SendingGoesOn(r: Request, index: nat)
    requires index <= |r.datagrams| <= 2
    ensures SendFrom(r, false, true, index, None)
         == if r.paced && index == 0 && |r.datagrams| == 2 then r.(sent := r.sent + 1, phase := Sleeping, index := 1)
            else r.(sent := r.sent + |r.datagrams| - index, phase := Waiting, index := |r.datagrams|)
  {
    if index < |r.datagrams| {
      var r1 := r.(sent := r.sent + 1);
      assert SendFrom(r1, false, true, 2, None) == r1.(phase := Waiting, index := 2) || |r.datagrams| == 1;
      if index + 1 == |r.datagrams| {
        assert SendFrom(r1, false, true, index + 1, None) == r1.(phase := Waiting, index := index + 1);
      } else {
        var r2 := r1.(sent := r1.sent + 1);
        assert SendFrom(r2, false, true, 2, None) == r2.(phase := Waiting, index := 2);
        assert SendFrom(r1, false, true, 1, None) == if r.paced && 2 < |r.datagrams| then r1 else r2.(phase := Waiting, index := 2);
      }
    }
  }

  /** What ended the wait by a step of its own, and with what. */
  predicate EndedBy(c: Client, e: Event, r: Request, sent: nat, outcome: Option<Outcome>)
  {
    match e
    case Woken(_) =>
      (r.reply.Answered? && outcome == Some(Success(r.reply.state)))
      || (r.reply.Failed? && outcome == Some(Failure(r.reply.error)))
    case TimedOut(_, failAt) =>
      if r.attempt + 1 < Attempts(r) then Refused(c.closed, c.connected, failAt, outcome)
      else outcome == Some(Failure(RequestTimeout)) && sent == Attempts(r) * |r.datagrams|
    case SleepDone(_, failAt) => Refused(c.closed, c.connected, failAt, outcome)
    case Cancelled(_) => outcome == None
    case _ => false
  }

  /** Exactly these steps end a wait, each with its own outcome. */
  lemma {:induction false} HowAWaitEnds(c: Client, e: Event, i: nat)
    requires Inv(c) && i < |c.requests| && !c.requests[i].phase.Ended?
    ensures i < |Next(c, e).requests|
    ensures var r := Next(c, e).requests[i];
      r.phase.Ended? ==> OwnEvent(e, i) && EndedBy(c, e, c.requests[i], r.sent, r.phase.outcome)
  {
    CompletedAtMostOnce(c, e, i);
    TypedRequest(c, i);
    hide Next, Enabled, Advances, RequestOk;
    if !Enabled(c, e) {
      UnchangedWhenDisabled(c, e);
    } else if OwnEvent(e, i) {
      OwnStepIsLocal(c, e, i);
      OwnEnds(c, e, i);
    } else {
      ForeignStepAdvances(c, e, i);
    }
  }

  lemma OwnEnds(c: Client, e: Event, i: nat)
    requires i < |c.requests| && RequestOk(c, c.requests[i]) && OwnEvent(e, i) && Enabled(c, e)
    requires !c.requests[i].phase.Ended?
    ensures e.Woken? ==> c.requests[i].reply.Answered? || c.requests[i].reply.Failed?
    ensures var r := Own(c.requests[i], c.closed, c.connected, e);
      r.phase.Ended? ==> EndedBy(c, e, c.requests[i], r.sent, r.phase.outcome)
  {
    hide SendFrom, CarriesItsMessages, Sequenced;
    var r := c.requests[i];
    if e.SleepDone? {
      SendingEnds(r, c.closed, c.connected, r.index, e.failAt);
    } else if e.TimedOut? {
      SendingEnds(r.(attempt := r.attempt + 1), c.closed, c.connected, 0, e.failAt);
    }
  }

  /**
   * While sending is possible a wait goes on: a command sends one datagram and pauses, and the
   * second after the pause; a refresh sends all of its datagrams at once; a timeout before the
   * last attempt starts the next one.
   */
  predicate GoesOn(r: Request, e: Event, r': Request)
  {
    match e
    case SleepDone(_, _) => r'.phase.Waiting? && r'.sent + r.index == r.sent + |r.datagrams| && r'.attempt == r.attempt
    case TimedOut(_, _) =>
      r.attempt + 1 < Attempts(r) ==>
        && r'.attempt == r.attempt + 1
        && if r.command.Some? then r'.phase.Sleeping? && r'.index == 1 && r'.sent == r.sent + 1
           else r'.phase.Waiting? && r'.sent == r.sent + |r.datagrams|
    case _ => true
  }

  lemma {:induction false} HowAWaitGoesOn(c: Client, e: Event, i: nat)
    requires Inv(c) && i < |c.requests| && OwnEvent(e, i) && Enabled(c, e)
    requires !c.closed && c.connected && (e.SleepDone? || e.TimedOut?) && e.failAt == None
    requires e.SleepDone? ==> c.requests[i].index > 0
    ensures i < |Next(c, e).requests| && GoesOn(c.requests[i], e, Next(c, e).requests[i])
  {
    CompletedAtMostOnce(c, e, i);
    TypedRequest(c, i);
    hide Inv, CarriesItsMessages, Sequenced;
    OwnStepIsLocal(c, e, i);
    hide Next, Advances, SendFrom;
    var r := c.requests[i];
    if e.SleepDone? {
      SendingGoesOn(r, r.index);
    } else {
      SendingGoesOn(r.(attempt := r.attempt + 1), 0);
    }
  }

  /** A new wait has sent what it can: one datagram of a command, or all of a refresh. */
  lemma {:induction false} HowAWaitBegins(c: Client, e: Event)
    requires Inv(c) && Enabled(c, e) && !c.closed && c.connected && (e.BeginCommand? || e.BeginRefresh?)
    requires e.failAt == None && |Next(c, e).requests| > |c.requests|
    ensures |Next(c, e).requests| == |c.requests| + 1
    ensures var r := Next(c, e).requests[|c.requests|];
      && r.attempt == 0 && r.reply == Awaited && r.createdAt == e.at
      && r.command == (if e.BeginCommand? then Some(e.command) else None)
      && if e.BeginCommand? then r.phase.Sleeping? && r.index == r.sent == 1
         else r.phase.Waiting? && r.sent == |r.datagrams|
  {
    hide Inv, SendFrom, Remove, PrepareCommand, PrepareRefresh;
    var prepared := if e.BeginCommand? then PrepareCommand(c.(now := e.at), e.command, e.at)
                    else PrepareRefresh(c.(now := e.at), e.at);
    PreparedWait(c.(now := e.at), if e.BeginCommand? then e.command else Command(Power, 0), e.at);
    if prepared.1.Ok? {
      SendingGoesOn(prepared.1.value, 0);
    }
  }

  lemma PreparedWait(c: Client, command: Command, at: real)
    ensures var (c', r) := PrepareCommand(c, command, at);
      && c'.requests == c.requests && c'.closed == c.closed && c'.connected == c.connected
      && (r.Ok? ==> r.value.command == Some(command) && NewlyMade(r.value, at) && r.value.paced && |r.value.datagrams| == 2)
    ensures var (c', r) := PrepareRefresh(c, at);
      && c'.requests == c.requests && c'.closed == c.closed && c'.connected == c.connected
      && (r.Ok? ==> r.value.command == None && NewlyMade(r.value, at) && !r.value.paced && 1 <= |r.value.datagrams| <= 2)
  {
    hide Codecs.EncodeCommand, Codecs.EncodeQuery, ConfirmingQuery;
  }

  predicate NewlyMade(r: Request, at: real)
  {
    r.reply == Awaited && r.attempt == r.index == r.sent == 0 && r.createdAt == at
  }

  /**
   * On every run a wait that timed out for good has sent everything: six datagrams for a
   * command, two for a refresh, four for the refresh of an M25.
   */
  lemma {:induction false} TimedOutAfterAllAttempts(start: Client, events: seq<Event>, i: nat)
    requires Initial(start) && i < |Run(start, events).requests|
    requires Run(start, events).requests[i].phase == Ended(Some(Failure(RequestTimeout)))
    ensures var r := Run(start, events).requests[i];
      r.sent == if r.command.Some? then 6 else if FamilyForModel(start.model).FamilyM25? then 4 else 2
  {
    hide Next;
    if events != [] {
      var init, e := events[..|events| - 1], events[|events| - 1];
      var c := Run(start, init);
      RunFromInitial(start, init);
      MacNeverChanges(start, events);
      assert Run(start, events) == Next(c, e);
      if i >= |c.requests| {
        NewWaitsAreRefused(c, e, i);
      } else {
        CompletedAtMostOnce(c, e, i);
        if c.requests[i].phase.Ended? {
          TimedOutAfterAllAttempts(start, init, i);
        } else {
          MacNeverChanges(start, init);
          if c.requests[i].reply.Failed? {
            FailedByClosing(start, init, i);
          }
          HowAWaitEnds(c, e, i);
          LengthOfWait(c, i);
        }
      }
    }
  }

  lemma LengthOfWait(c: Client, i: nat)
    requires Inv(c) && i < |c.requests|
    ensures |c.requests[i].datagrams| == if c.requests[i].command.Some? || FamilyForModel(c.model).FamilyM25? then 2 else 1
  {
    TypedRequest(c, i);
  }

  /** A wait that ends with the step that made it was refused. */
  lemma {:induction false} NewWaitsAreRefused(c: Client, e: Event, i: nat)
    requires |c.requests| <= i < |Next(c, e).requests| && Next(c, e).requests[i].phase.Ended?
    ensures e.BeginCommand? || e.BeginRefresh?
    ensures Refused(c.closed, c.connected, e.failAt, Next(c, e).requests[i].phase.outcome)
  {
    if e.BeginCommand? || e.BeginRefresh? {
      hide SendFrom, Remove, PrepareCommand, PrepareRefresh;
      var prepared := if e.BeginCommand? then PrepareCommand(c.(now := e.at), e.command, e.at)
                      else PrepareRefresh(c.(now := e.at), e.at);
      PreparedWait(c.(now := e.at), if e.BeginCommand? then e.command else Command(Power, 0), e.at);
      PreparedSleeps(c.(now := e.at), if e.BeginCommand? then e.command else Command(Power, 0), e.at);
      if prepared.1.Ok? {
        SendingEnds(prepared.1.value, c.closed, c.connected, 0, e.failAt);
      }
    } else {
      hide SendFrom, Remove, Receive;
      if e.Received? {
        ReceiveKeepsCount(c, e.data, e.source, e.at);
      }
    }
  }

  lemma PreparedSleeps(c: Client, command: Command, at: real)
    ensures var r := PrepareCommand(c, command, at).1; r.Ok? ==> !r.value.phase.Ended?
    ensures var r := PrepareRefresh(c, at).1; r.Ok? ==> !r.value.phase.Ended?
  {
    hide Codecs.EncodeCommand, Codecs.EncodeQuery, ConfirmingQuery;
  }

  lemma ReceiveKeepsCount(c: Client, data: bytes, source: Endpoint, at: real)
    ensures |Receive(c, data, source, at).requests| == |c.requests|
  {
    hide DuplicateCache.Arrive, Codecs.Decode, MergeState, Matches;
  }

  /** The reply of a wait fails only with the error of closing. */
  lemma {:induction false} FailedByClosing(start: Client, events: seq<Event>, i: nat)
    requires Initial(start) && i < |Run(start, events).requests|
    requires Run(start, events).requests[i].reply.Failed?
    ensures Run(start, events).requests[i].reply.error == ClientClosed && Run(start, events).closed
  {
    hide Next;
    if events != [] {
      var init, e := events[..|events| - 1], events[|events| - 1];
      var c := Run(start, init);
      RunFromInitial(start, init);
      assert Run(start, events) == Next(c, e);
      if i < |c.requests| {
        CompletedAtMostOnce(c, e, i);
        if c.requests[i].reply.Failed? {
          FailedByClosing(start, init, i);
        }
        FailsOnlyByClosing(c, e, i);
      } else {
        NewIsNotFailed(c, e, i);
      }
    }
  }

  lemma {:induction false} FailsOnlyByClosing(c: Client, e: Event, i: nat)
    requires Inv(c) && i < |c.requests| && i < |Next(c, e).requests|
    ensures c.closed ==> Next(c, e).closed
    ensures Next(c, e).requests[i].reply.Failed? && !c.requests[i].reply.Failed? ==>
      e.Closed? && Next(c, e).closed && Next(c, e).requests[i].reply.error == ClientClosed
  {
    TypedRequest(c, i);
    StaysClosed(c, e);
    hide Next, Enabled, RequestOk;
    if !Enabled(c, e) {
      UnchangedWhenDisabled(c, e);
    } else if OwnEvent(e, i) {
      SettledRequest(c, i);
      OwnStepIsLocal(c, e, i);
      hide Inv;
      OwnNeverFails(c.requests[i], c.closed, c.connected, e);
    } else if IsOwn(e) {
      OwnIsKnown(c, e);
      TypedRequest(c, e.request);
      hide Inv;
      OtherWaitStays(c, e, i, e.request);
    } else {
      hide Inv;
      OthersFailOnlyByClosing(c, e, i);
    }
  }

  lemma SettledRequest(c: Client, i: nat)
    requires i < |c.requests| && RequestOk(c, c.requests[i])
    ensures Settled(c.requests[i])
  {}

  lemma OwnIsKnown(c: Client, e: Event)
    requires IsOwn(e) && Enabled(c, e)
    ensures e.request < |c.requests|
  {}

  lemma StaysClosed(c: Client, e: Event)
    ensures c.closed ==> Next(c, e).closed
  {
    hide SendFrom, Remove, PrepareCommand, PrepareRefresh, DuplicateCache.Arrive, Codecs.Decode, MergeState, ResolvePending;
    if e.BeginCommand? || e.BeginRefresh? {
      PreparedWait(c.(now := e.at), if e.BeginCommand? then e.command else Command(Power, 0), e.at);
    }
  }

  lemma OthersFailOnlyByClosing(c: Client, e: Event, i: nat)
    requires !IsOwn(e) && Enabled(c, e) && i < |c.requests| && i < |Next(c, e).requests|
    ensures Next(c, e).requests[i].reply.Failed? && !c.requests[i].reply.Failed? ==>
      e.Closed? && Next(c, e).closed && Next(c, e).requests[i].reply.error == ClientClosed
  {
    hide Begin, PrepareCommand, PrepareRefresh;
    if e.BeginCommand? {
      PrepareKeepsRequests(c.(now := e.at), e.command, e.at);
      BeginKeepsRequests(PrepareCommand(c.(now := e.at), e.command, e.at), e.failAt, i);
    } else if e.BeginRefresh? {
      PrepareKeepsRequests(c.(now := e.at), Command(Power, 0), e.at);
      BeginKeepsRequests(PrepareRefresh(c.(now := e.at), e.at), e.failAt, i);
    } else if e.Received? {
      hide DuplicateCache.Arrive, Codecs.Decode, MergeState, Matches;
    }
  }

  lemma OwnNeverFails(r: Request, closed: bool, connected: bool, e: Event)
    requires IsOwn(e) && (e.Woken? ==> r.reply.Answered? || r.reply.Failed?)
    ensures Own(r, closed, connected, e).reply.Failed? ==> r.reply.Failed?
  {
    hide SendFrom;
    if e.SleepDone? {
      SendFromReply(r, closed, connected, r.index, e.failAt);
    } else if e.TimedOut? {
      SendFromReply(r.(attempt := r.attempt + 1), closed, connected, 0, e.failAt);
    }
  }

  lemma NewIsNotFailed(c: Client, e: Event, i: nat)
    requires |c.requests| <= i < |Next(c, e).requests|
    ensures !Next(c, e).requests[i].reply.Failed?
  {
    hide SendFrom, Remove, PrepareCommand, PrepareRefresh, Receive;
    if e.BeginCommand? || e.BeginRefresh? {
      var prepared := if e.BeginCommand? then PrepareCommand(c.(now := e.at), e.command, e.at)
                      else PrepareRefresh(c.(now := e.at), e.at);
      PreparedWait(c.(now := e.at), if e.BeginCommand? then e.command else Command(Power, 0), e.at);
      if prepared.1.Ok? {
        SendFromReply(prepared.1.value, prepared.0.closed, prepared.0.connected, 0, e.failAt);
      }
    } else if e.Received? {
      ReceiveKeepsCount(c, e.data, e.source, e.at);
    }
  }

  // ---------------------------------------------------------------- what is shown in time is returned

  /** The wait is answered, and waits for its task to wake up, or has returned the answer. */
  predicate Answers(r: Request)
  {
    r.reply.Answered? && (r.phase.Waiting? || r.phase == Ended(Some(Success(r.reply.state))))
  }

  lemma {:induction false} StepKeepsAnswer(c: Client, e: Event, i: nat)
    requires Inv(c) && i < |c.requests| && Answers(c.requests[i])
    requires !(OwnEvent(e, i) && (e.TimedOut? || e.Cancelled?))
    ensures i < |Next(c, e).requests| && Answers(Next(c, e).requests[i])
  {
    CompletedAtMostOnce(c, e, i);
    if !Enabled(c, e) {
      UnchangedWhenDisabled(c, e);
    } else if OwnEvent(e, i) {
      TypedRequest(c, i);
      SettledRequest(c, i);
      OwnStepIsLocal(c, e, i);
      hide Next, Inv, SendFrom;
    } else {
      ForeignStepAdvances(c, e, i);
      hide Next, Inv;
    }
  }

  /** An answered wait wakes up and returns what was shown. */
  lemma WakesWithTheAnswer(c: Client, i: nat)
    requires i < |c.requests| && c.requests[i].phase.Waiting? && c.requests[i].reply.Answered?
    ensures Enabled(c, Woken(i)) && i < |Next(c, Woken(i)).requests|
    ensures Next(c, Woken(i)).requests[i].phase == Ended(Some(Success(c.requests[i].reply.state)))
  {}

  /**
   * On every run: if a step shows a waiting request its value, and it is neither cancelled nor
   * timed out afterwards, it has returned what was shown, or waits for nothing but its task.
   */
  lemma {:induction false} ShownInTime(start: Client, events: seq<Event>, n: nat, i: nat)
    requires Initial(start) && ShownAt(start, events, n, i) && Run(start, events[..n]).requests[i].phase.Waiting?
    requires forall m :: n < m < |events| ==> !(OwnEvent(events[m], i) && (events[m].TimedOut? || events[m].Cancelled?))
    ensures i < |Run(start, events).requests| && Answers(Run(start, events).requests[i])
  {
    hide Next, ConfirmedBy, IsNew;
    var init, e := events[..|events| - 1], events[|events| - 1];
    var c := Run(start, init);
    assert events == init + [e];
    RunFromInitial(start, init);
    if n == |init| {
      assert events[..n] == init;
      ConfirmedIsReceived(c, e, i);
      ConfirmedIsAnswered(c, e, i);
      ReceivingIsForeign(c, e, i);
    } else {
      ShownStays(start, init, e, n, i);
      assert init[..n] == events[..n];
      assert forall m :: 0 <= m < |init| ==> init[m] == events[m];
      ShownInTime(start, init, n, i);
      StepKeepsAnswer(c, e, i);
    }
  }

  lemma {:induction false} ReceivingIsForeign(c: Client, e: Event, i: nat)
    requires Inv(c) && i < |c.requests| && e.Received? && i < |Next(c, e).requests|
    ensures Next(c, e).requests[i].phase == c.requests[i].phase
  {
    if Enabled(c, e) {
      ForeignStepAdvances(c, e, i);
    }
    hide Next;
  }

  /** On every run a closed client has no endpoint and no pending wait. */
  lemma {:induction false} ClosedIsDisconnected(start: Client, events: seq<Event>)
    requires Initial(start)
    ensures Run(start, events).closed ==> !Run(start, events).connected && Run(start, events).pending == []
  {
    if events != [] {
      var init, e := events[..|events| - 1], events[|events| - 1];
      ClosedIsDisconnected(start, init);
      StaysDisconnected(Run(start, init), e);
    }
  }

  lemma StaysDisconnected(c: Client, e: Event)
    requires c.closed ==> !c.connected && c.pending == []
    ensures Next(c, e).closed ==> !Next(c, e).connected && Next(c, e).pending == []
  {
    hide Codecs.Decode, SendFrom, FailAll, Codecs.EncodeCommand, Codecs.EncodeQuery;
  }
}
