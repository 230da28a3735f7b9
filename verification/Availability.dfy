/**
 * What `available` means.  The documentation says that at least one validated state has arrived
 * since the start; the code takes the flag back when a request times out for good.
 */
module Availability {
  import opened Bytes
  import opened Models
  import opened Framing
  import opened Requests
  import opened RequestSafety
  import opened Confirmation
  import opened Confirmability
  import DuplicateCache
  import Codecs
  import A5A0

  // ---------------------------------------------------------------- steps of a run

  /** The step delivers a validated state of the configured device that is no duplicate. */
  predicate Hears(c: Client, e: Event)
  {
    && e.Received? && Enabled(c, e) && !c.closed && e.source.port == c.port
    && DuplicateCache.Arrive(c.recent, e.data, e.at).1
    && var packet := Codecs.Decode(c.model, e.data, e.source);
    && packet.Some? && packet.value.identity.mac == c.identity.mac && packet.value.state.Some?
  }

  /** Exactly such steps add to what was heard. */
  lemma HeardGrowsWhenHearing(c: Client, e: Event)
    ensures Hears(c, e) <==> |c.heard| < |Next(c, e).heard|
    ensures |Next(c, e).heard| <= |c.heard| + 1
  {
    if e.Received? {
      hide ResolvePending, DuplicateCache.Arrive, Codecs.Decode, MergeState;
    } else {
      QuietStep(c, e);
      hide Next;
    }
  }

  predicate HearsAt(start: Client, events: seq<Event>, n: nat)
  {
    n < |events| && Hears(Run(start, events[..n]), events[n])
  }

  predicate GivesUpAt(start: Client, events: seq<Event>, n: nat)
  {
    n < |events| && GivesUp(Run(start, events[..n]), events[n])
  }

  /** Step n heard a state, and no request has timed out for good since. */
  ghost predicate HeardLast(start: Client, events: seq<Event>, n: nat)
  {
    HearsAt(start, events, n) && forall m: nat :: n < m ==> !GivesUpAt(start, events, m)
  }

  ghost predicate HeardSinceGivingUp(start: Client, events: seq<Event>)
  {
    exists n: nat :: HeardLast(start, events, n)
  }

  /** Step m timed out for good, and no state has been heard since. */
  ghost predicate GaveUpLast(start: Client, events: seq<Event>, m: nat)
  {
    GivesUpAt(start, events, m) && forall n: nat :: m < n ==> !HearsAt(start, events, n)
  }

  ghost predicate GaveUpSinceHearing(start: Client, events: seq<Event>)
  {
    exists m: nat :: GaveUpLast(start, events, m)
  }

  // ---------------------------------------------------------------- on every run

  lemma RunOneMore(start: Client, events: seq<Event>, e: Event)
    ensures Run(start, events + [e]) == Next(Run(start, events), e)
  {
    assert (events + [e])[..|events|] == events;
  }

  lemma StepsStay(start: Client, events: seq<Event>, e: Event, n: nat)
    requires n < |events|
    ensures HearsAt(start, events + [e], n) == HearsAt(start, events, n)
    ensures GivesUpAt(start, events + [e], n) == GivesUpAt(start, events, n)
  {
    hide Run, Hears, GivesUp;
    assert (events + [e])[..n] == events[..n];
  }

  lemma LastStep(start: Client, events: seq<Event>, e: Event)
    ensures HearsAt(start, events + [e], |events|) == Hears(Run(start, events), e)
    ensures GivesUpAt(start, events + [e], |events|) == GivesUp(Run(start, events), e)
  {
    hide Run, Hears, GivesUp;
    assert (events + [e])[..|events|] == events;
  }

  /** One more step: what was heard since giving up, in terms of the step. */
  lemma HeardSinceStep(start: Client, events: seq<Event>, e: Event)
    ensures HeardSinceGivingUp(start, events + [e])
       <==> Hears(Run(start, events), e)
            || (!GivesUp(Run(start, events), e) && HeardSinceGivingUp(start, events))
  {
    var more := events + [e];
    LastStep(start, events, e);
    forall n: nat | n < |events|
      ensures HearsAt(start, more, n) == HearsAt(start, events, n)
      ensures GivesUpAt(start, more, n) == GivesUpAt(start, events, n)
    {
      StepsStay(start, events, e, n);
    }
    assert forall n: nat :: |more| <= n ==> !HearsAt(start, more, n) && !GivesUpAt(start, more, n);
    assert forall n: nat :: |events| <= n ==> !HearsAt(start, events, n) && !GivesUpAt(start, events, n);
    hide HearsAt, GivesUpAt, Run;
    if Hears(Run(start, events), e) {
      assert HeardLast(start, more, |events|);
    } else if !GivesUp(Run(start, events), e) {
      forall n: nat ensures HeardLast(start, more, n) == HeardLast(start, events, n) {}
    }
  }

  /** Available exactly when a state was heard after the last request that timed out for good. */
  lemma {:induction false} AvailableIff(start: Client, events: seq<Event>)
    requires Initial(start)
    ensures Run(start, events).available <==> HeardSinceGivingUp(start, events)
  {
    if events != [] {
      var init, e := events[..|events| - 1], events[|events| - 1];
      assert events == init + [e];
      AvailableIff(start, init);
      RunOneMore(start, init, e);
      HeardSinceStep(start, init, e);
      AvailabilityStep(Run(start, init), e);
      HeardGrowsWhenHearing(Run(start, init), e);
      GivingUpIsNotHearing(Run(start, init), e);
    } else {
      assert forall n: nat :: !HeardLast(start, events, n);
    }
  }

  lemma GivingUpIsNotHearing(c: Client, e: Event)
    ensures !(Hears(c, e) && GivesUp(c, e))
  {}

  /** A state has been heard exactly when some step of the run heard one. */
  lemma {:induction false} HeardIff(start: Client, events: seq<Event>)
    requires Initial(start)
    ensures Run(start, events).heard != [] <==> exists n: nat :: HearsAt(start, events, n)
  {
    if events != [] {
      var init, e := events[..|events| - 1], events[|events| - 1];
      assert events == init + [e];
      HeardIff(start, init);
      RunOneMore(start, init, e);
      LastStep(start, init, e);
      HeardGrowsWhenHearing(Run(start, init), e);
      AvailabilityStep(Run(start, init), e);
      forall n: nat | n < |init| ensures HearsAt(start, events, n) == HearsAt(start, init, n) {
        StepsStay(start, init, e, n);
      }
      assert forall n: nat :: HearsAt(start, events, n) ==> n < |events|;
      assert forall n: nat :: HearsAt(start, init, n) ==> n < |init|;
      hide Run, Hears, HearsAt;
      if n: nat :| HearsAt(start, init, n) {
        assert HearsAt(start, events, n);
      }
    }
  }

  /** The last step that heard a state, if any did. */
  lemma {:induction false} LastHearing(start: Client, events: seq<Event>, limit: nat) returns (n: nat)
    requires limit <= |events| && exists k: nat :: k < limit && HearsAt(start, events, k)
    ensures n < limit && HearsAt(start, events, n)
    ensures forall k: nat :: n < k < limit ==> !HearsAt(start, events, k)
  {
    hide HearsAt;
    n := limit - 1;
    if !HearsAt(start, events, n) {
      n := LastHearing(start, events, limit - 1);
    }
  }

  /**
   * The documented meaning, "at least one validated state has arrived since the start", holds
   * of a run exactly when none has, or no request has timed out for good since the last one.
   */
  lemma {:induction false} AvailableMeansHeardIff(start: Client, events: seq<Event>)
    requires Initial(start)
    ensures (Run(start, events).available <==> Run(start, events).heard != [])
       <==> (Run(start, events).heard == [] || !GaveUpSinceHearing(start, events))
  {
    AvailableIff(start, events);
    HeardIff(start, events);
    assert forall n: nat :: HearsAt(start, events, n) ==> n < |events|;
    assert forall m: nat :: GivesUpAt(start, events, m) ==> m < |events|;
    NotBoth(start, events);
    hide Run, HearsAt, GivesUpAt;
    if Run(start, events).heard != [] {
      var last := LastHearing(start, events, |events|);
      if HeardSinceGivingUp(start, events) {
        var n: nat :| HeardLast(start, events, n);
        if m: nat :| GaveUpLast(start, events, m) {
          assert false;
        }
      } else {
        assert !HeardLast(start, events, last);
        var m: nat :| last < m && GivesUpAt(start, events, m);
        assert GaveUpLast(start, events, m);
      }
    } else {
      assert forall n: nat :: HeardLast(start, events, n) ==> HearsAt(start, events, n);
    }
  }

  lemma NotBoth(start: Client, events: seq<Event>)
    ensures forall n: nat :: !(HearsAt(start, events, n) && GivesUpAt(start, events, n))
  {
    hide Run, Hears, GivesUp;
    forall n: nat ensures !(HearsAt(start, events, n) && GivesUpAt(start, events, n)) {
      if n < |events| {
        GivingUpIsNotHearing(Run(start, events[..n]), events[n]);
      }
    }
  }

  // ---------------------------------------------------------------- a run on which it fails

  /** A broadcast of the device that shows it switched on. */
  function StateBroadcast(identity: Identity): bytes
  {
    RecordIsCurrent(Command(Power, 0x35));
    Broadcast(identity, A5A0Record(Command(Power, 0x35)))
  }

  /** A state arrives; then one refresh gets no answer to either of its attempts. */
  function UnansweredRefresh(c: Client): seq<Event>
  {
    [Start, Received(StateBroadcast(c.identity), Endpoint(c.host, c.port), 0.0),
     BeginRefresh(None, 0.0), TimedOut(0, None), TimedOut(0, None)]
  }

  lemma BroadcastIsHeard(c: Client)
    requires Initial(c) && FamilyForModel(c.model).FamilyA5A0? && c.identity.wireType == 2
    ensures var c1 := Next(Next(c, Start), UnansweredRefresh(c)[1]);
      && c1.heard != [] && c1.identity == c.identity && c1.connected && !c1.closed && c1.now == 0.0
      && c1.model == c.model && c1.requests == [] && c1.pending == []
  {
    hide BuildOuterFrame, ParseOuterFrame, A5A0.DecodeState, A5A0Record;
    var record := A5A0Record(Command(Power, 0x35));
    RecordIsCurrent(Command(Power, 0x35));
    BroadcastParses(c.identity, record);
    assert DuplicateCache.Prune([], 0.0) == [];
  }

  lemma RefreshIsSent(c: Client)
    requires FamilyForModel(c.model).FamilyA5A0? && c.identity.wireType == 2
    requires c.connected && !c.closed && c.now == 0.0 && c.requests == [] && c.pending == []
    ensures var c1 := Next(c, BeginRefresh(None, 0.0));
      && c1.heard == c.heard && c1.connected && !c1.closed && |c1.requests| == 1
      && c1.requests[0].phase.Waiting? && c1.requests[0].attempt == 0 && c1.requests[0].retries == 2
      && |c1.requests[0].datagrams| == 1 && !c1.requests[0].paced
  {
    hide BuildOuterFrame;
    ParseOfBuild(c.identity, 0x04, c.outerSequence, A5A0.QUERY);
    var prepared := PrepareRefresh(c, 0.0);
    assert prepared.1.Ok? && |prepared.1.value.datagrams| == 1;
    OneDatagram(prepared.1.value);
    hide SendFrom;
  }

  lemma OneDatagram(r: Request)
    requires |r.datagrams| == 1
    ensures SendFrom(r, false, true, 0, None) == r.(sent := r.sent + 1, phase := Waiting, index := 1)
  {
    assert SendFrom(r.(sent := r.sent + 1), false, true, 1, None) == r.(sent := r.sent + 1, phase := Waiting, index := 1);
  }

  lemma RefreshTimesOut(c: Client)
    requires c.connected && !c.closed && |c.requests| == 1
    requires c.requests[0].phase.Waiting? && c.requests[0].attempt == 0 && c.requests[0].retries == 2
    requires |c.requests[0].datagrams| == 1 && !c.requests[0].paced
    ensures var c1 := Next(Next(c, TimedOut(0, None)), TimedOut(0, None));
      c1.heard == c.heard && !c1.available
  {
    OneDatagram(c.requests[0].(attempt := 1));
    hide SendFrom, Remove;
  }

  /** On this run of an A5A0 purifier a validated state has arrived since the start and `available` is false. */
  lemma HeardButUnavailable(start: Client)
    requires Initial(start) && FamilyForModel(start.model).FamilyA5A0? && start.identity.wireType == 2
    ensures var c := Run(start, UnansweredRefresh(start)); c.heard != [] && !c.available
  {
    var events := UnansweredRefresh(start);
    BroadcastIsHeard(start);
    hide Next, Initial, StateBroadcast;
    var c0 := Run(start, []);
    var c1 := Next(c0, events[0]);
    var c2 := Next(c1, events[1]);
    var c3 := Next(c2, events[2]);
    RefreshIsSent(c2);
    RefreshTimesOut(c3);
    assert events[..5] == events && events[..4][..3] == events[..3] && events[..3][..2] == events[..2];
    assert events[..2][..1] == events[..1] && events[..1][..0] == [];
    assert Run(start, events[..1]) == c1;
    assert Run(start, events[..2]) == c2;
    assert Run(start, events[..3]) == c3;
    assert Run(start, events[..4]) == Next(c3, events[3]);
  }
}
