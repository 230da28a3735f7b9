/**
 * The converse of confirmation: a datagram that shows the commanded value is never passed over,
 * and a wait that is answered in time returns what was shown.
 */
module Answering {
  import opened Bytes
  import opened Models
  import opened Requests
  import opened RequestSafety
  import opened Confirmation
  import DuplicateCache
  import Codecs

  /** No copy of the datagram arrived within the last three seconds, as far as the client remembers. */
  predicate IsNew(c: Client, e: Event)
    requires e.Received?
  {
    forall k :: 0 <= k < |c.recent| && c.recent[k].data == e.data ==> c.recent[k].at < e.at - 3.0
  }

  lemma NewIsProcessed(c: Client, e: Event)
    requires e.Received?
    ensures DuplicateCache.Arrive(c.recent, e.data, e.at).1 <==> IsNew(c, e)
  {
    DuplicateCache.PruneKeeps(c.recent, e.at);
    hide DuplicateCache.Prune;
    var kept := DuplicateCache.Prune(c.recent, e.at);
    DuplicateCache.HasIffMember(kept, e.data);
    if !IsNew(c, e) {
      var k :| 0 <= k < |c.recent| && c.recent[k].data == e.data && c.recent[k].at >= e.at - 3.0;
      assert c.recent[k] in kept;
    }
  }

  /** The state of the packet confirms, so the merged state does. */
  lemma MergedStateConfirms(c: Client, r: Request, packet: DecodedPacket, merged: DeviceState)
    requires packet.family == FamilyForModel(c.model) && packet.state.Some? && packet.kind == r.kind
    requires packet.kind.BacklightKind? ==> packet.state.value.backlight.Some?
    requires merged == if packet.family.FamilyM25? then MergeState(c.state, packet.state.value) else packet.state.value
    requires Typed(c.model, r) && r.command.Some?
    requires Codecs.StateConfirms(c.model, packet.state.value, r.command.value)
    ensures Codecs.StateConfirms(c.model, merged, r.command.value)
  {
  }

  lemma {:induction false} AcceptAnswers(c: Client, packet: DecodedPacket, at: real, i: nat)
    requires i < |c.requests| && i in c.pending && packet.state.Some?
    requires var merged := if packet.family.FamilyM25? then MergeState(c.state, packet.state.value) else packet.state.value;
      Matches(c.model, c.requests[i], packet, merged, at)
    ensures Accept(c, packet, at).requests[i].reply.Answered?
  {
    hide Matches, MergeState;
  }

  /** A new datagram that confirms a wait answers it. */
  lemma {:induction false} ConfirmedIsAnswered(c: Client, e: Event, i: nat)
    requires Inv(c) && i < |c.requests| && ConfirmedBy(c, e, i) && IsNew(c, e)
    ensures i < |Next(c, e).requests| && Next(c, e).requests[i].reply.Answered?
  {
    TypedRequest(c, i);
    NewIsProcessed(c, e);
    ReceiveStep(c, e);
    Codecs.DecodedPackets(c.model, e.data, e.source);
    DecodedHasNoInner(c.model, e.data, e.source);
    hide Inv, RequestOk, Next, Typed, Enabled, IsNew, DuplicateCache.Arrive, Codecs.Decode, Codecs.StateConfirms, MergeState;
    var packet := Codecs.Decode(c.model, e.data, e.source).value;
    var merged := if packet.family.FamilyM25? then MergeState(c.state, packet.state.value) else packet.state.value;
    var c1 := c.(recent := DuplicateCache.Arrive(c.recent, e.data, e.at).0, now := e.at);
    if c.requests[i].command.Some? {
      MergedStateConfirms(c, c.requests[i], packet, merged);
    }
    AcceptAnswers(c1, packet, e.at, i);
    hide Accept;
  }

  /** A wait is answered by a step if and only if the step delivers a new datagram that confirms it. */
  lemma {:induction false} AnsweredIff(c: Client, e: Event, i: nat)
    requires Inv(c) && i < |c.requests|
    ensures i < |Next(c, e).requests|
    ensures Next(c, e).requests[i].reply.Answered? && !c.requests[i].reply.Answered?
       <==> ConfirmedBy(c, e, i) && IsNew(c, e)
  {
    CompletedAtMostOnce(c, e, i);
    hide Inv, Next, Advances;
    if ConfirmedBy(c, e, i) && IsNew(c, e) {
      ConfirmedIsAnswered(c, e, i);
    }
    if Next(c, e).requests[i].reply.Answered? && !c.requests[i].reply.Answered? {
      AnsweredOnlyWhenConfirmed(c, e, i);
      hide ConfirmedBy;
      OnlyNewAnswers(c, e, i);
    }
  }

  lemma {:induction false} OnlyNewAnswers(c: Client, e: Event, i: nat)
    requires i < |c.requests| && e.Received? && i < |Next(c, e).requests|
    requires Next(c, e).requests[i].reply.Answered? && !c.requests[i].reply.Answered?
    ensures IsNew(c, e)
  {
    NewIsProcessed(c, e);
    hide IsNew, DuplicateCache.Arrive, Codecs.Decode, Accept;
  }

  /** Step n of the run delivers a new datagram that confirms wait i. */
  ghost predicate ShownAt(start: Client, events: seq<Event>, n: nat, i: nat)
  {
    && n < |events|
    && var before := Run(start, events[..n]);
    && i < |before.requests| && ConfirmedBy(before, events[n], i) && IsNew(before, events[n])
  }

  lemma {:induction false} ShownStays(start: Client, events: seq<Event>, e: Event, n: nat, i: nat)
    requires n < |events|
    ensures ShownAt(start, events + [e], n, i) == ShownAt(start, events, n, i)
  {
    hide Run, ConfirmedBy, IsNew;
    assert (events + [e])[..n] == events[..n];
  }

  /** On every run exactly those waits are answered that some step showed the value of. */
  lemma {:induction false} AnsweredIffShown(start: Client, events: seq<Event>, i: nat)
    requires Initial(start) && i < |Run(start, events).requests|
    ensures Run(start, events).requests[i].reply.Answered? <==> exists n: nat :: ShownAt(start, events, n, i)
  {
    hide Next, ConfirmedBy, IsNew;
    if events != [] {
      var init, e := events[..|events| - 1], events[|events| - 1];
      var c := Run(start, init);
      assert events == init + [e] && events[..|init|] == init;
      assert Run(start, events) == Next(c, e);
      RunFromInitial(start, init);
      forall n: nat | n < |init| ensures ShownAt(start, events, n, i) == ShownAt(start, init, n, i) {
        ShownStays(start, init, e, n, i);
      }
      if i >= |c.requests| {
        NothingIsAnsweredAtOnce(c, e, i);
        forall n: nat ensures !ShownAt(start, events, n, i) {
          if ShownAt(start, events, n, i) {
            RequestsOnlyGrow(start, init, n);
          }
        }
      } else {
        AnsweredIff(c, e, i);
        CompletedAtMostOnce(c, e, i);
        AnsweredIffShown(start, init, i);
        ConfirmedIsReceived(c, e, i);
        hide Run, Inv;
        assert ShownAt(start, events, |init|, i) <==> e.Received? && ConfirmedBy(c, e, i) && IsNew(c, e);
        if n: nat :| ShownAt(start, init, n, i) {
          assert ShownAt(start, events, n, i);
        }
      }
    }
  }

  lemma ConfirmedIsReceived(c: Client, e: Event, i: nat)
    requires i < |c.requests|
    ensures ConfirmedBy(c, e, i) ==> e.Received?
  {}

  lemma {:induction false} RequestsOnlyGrow(start: Client, events: seq<Event>, n: nat)
    requires Initial(start) && n <= |events|
    ensures |Run(start, events[..n]).requests| <= |Run(start, events).requests|
    decreases |events|
  {
    hide Next;
    if n == |events| {
      assert events[..n] == events;
    } else {
      var init, e := events[..|events| - 1], events[|events| - 1];
      assert init[..n] == events[..n];
      RequestsOnlyGrow(start, init, n);
      RunFromInitial(start, init);
      if |Run(start, init).requests| > 0 {
        CompletedAtMostOnce(Run(start, init), e, |Run(start, init).requests| - 1);
      }
    }
  }

  // ---------------------------------------------------------------- the learned header

  /** The step delivers a new packet of the configured device, with or without a state. */
  predicate Heeds(c: Client, e: Event)
  {
    && e.Received? && Enabled(c, e) && !c.closed && e.source.port == c.port && IsNew(c, e)
    && var packet := Codecs.Decode(c.model, e.data, e.source);
    && packet.Some? && packet.value.identity.mac == c.identity.mac
  }

  /** The header and the address are taken from exactly such packets. */
  lemma LearnsIff(c: Client, e: Event)
    ensures if Heeds(c, e)
            then Next(c, e).identity == Codecs.Decode(c.model, e.data, e.source).value.identity
                 && Next(c, e).host == e.source.host
            else Next(c, e).identity == c.identity && Next(c, e).host == c.host
  {
    if e.Received? {
      NewIsProcessed(c, e);
      if Codecs.Decode(c.model, e.data, e.source).Some? {
        Codecs.DecodedPackets(c.model, e.data, e.source);
      }
      hide IsNew, ResolvePending, DuplicateCache.Arrive, Codecs.Decode, MergeState;
    } else {
      QuietStep(c, e);
      hide Next, GivesUp;
    }
  }

  /** The header of the packet that the step delivers, and where it came from. */
  function HeaderIn(model: DeviceModel, e: Event): (Identity, string)
  {
    if e.Received? && Codecs.Decode(model, e.data, e.source).Some?
    then (Codecs.Decode(model, e.data, e.source).value.identity, e.source.host)
    else (Identity([0, 0, 0, 0, 0, 0], 0, 0, 0), "")
  }

  /** The header fields and the address of the last packet of the device, or those configured. */
  ghost function LastHeader(start: Client, events: seq<Event>): (Identity, string)
  {
    if events == [] then (start.identity, start.host)
    else
      var init, e := events[..|events| - 1], events[|events| - 1];
      if Heeds(Run(start, init), e) then HeaderIn(start.model, e) else LastHeader(start, init)
  }

  /** On every run the client addresses the device as its last packet said. */
  lemma {:induction false} HeaderIsTheLast(start: Client, events: seq<Event>)
    ensures (Run(start, events).identity, Run(start, events).host) == LastHeader(start, events)
  {
    hide Next, Heeds;
    if events != [] {
      var init, e := events[..|events| - 1], events[|events| - 1];
      HeaderIsTheLast(start, init);
      MacNeverChanges(start, init);
      LearnsIff(Run(start, init), e);
      HeedsReceived(Run(start, init), e);
    }
  }

  lemma HeedsReceived(c: Client, e: Event)
    ensures Heeds(c, e) ==> e.Received? && Codecs.Decode(c.model, e.data, e.source).Some?
  {}
}
