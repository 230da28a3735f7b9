/**
 * The shared endpoint on any run at all: double subscriptions and releases without a subscription
 * included, what is counted, who gets datagrams, and when a socket is open.
 */
module EndpointRuns {
  import opened Bytes
  import opened SharedEndpoint

  function StateOf(events: seq<Event>): State
  {
    RunOf(events).state
  }

  function Before(events: seq<Event>): seq<Event>
    requires events != []
  {
    events[..|events| - 1]
  }

  /** The last event gave endpoint e to its caller. */
  predicate Gets(events: seq<Event>, e: nat)
    requires events != []
  {
    var last := events[|events| - 1];
    last.Acquire? && Acquired(StateOf(Before(events)), last.key, last.callback, last.first, last.second).1 == Some(e)
  }

  predicate Returns(events: seq<Event>, e: nat)
    requires events != []
  {
    var last := events[|events| - 1];
    last.Release? && last.endpoint == e && e < |StateOf(Before(events)).made|
  }

  /** How often endpoint e was given out, and how often it was given back. */
  function Given(events: seq<Event>, e: nat): nat
  {
    if events == [] then 0 else Given(Before(events), e) + if Gets(events, e) then 1 else 0
  }

  function GivenBack(events: seq<Event>, e: nat): nat
  {
    if events == [] then 0 else GivenBack(Before(events), e) + if Returns(events, e) then 1 else 0
  }

  /** The latest event about e and this callback gave e to it. */
  ghost predicate Subscribed(events: seq<Event>, e: nat, callback: Callback)
  {
    exists i :: IsSubscription(events, e, callback, i)
  }

  predicate IsSubscription(events: seq<Event>, e: nat, callback: Callback, i: nat)
  {
    && i < |events| && events[i].callback == callback && Gets(events[..i + 1], e)
    && forall j :: i < j < |events| ==> !(Returns(events[..j + 1], e) && events[j].callback == callback)
  }

  predicate IsCurrent(s: State, e: nat)
    requires e < |s.made|
  {
    s.made[e].key in s.current && s.current[s.made[e].key] == e
  }

  /** What is known of one endpoint on any run. */
  ghost predicate Kept(events: seq<Event>, e: nat)
    requires e < |StateOf(events).made|
  {
    var it := StateOf(events).made[e];
    && (it.open <==> it.references > 0) && (it.open <==> IsCurrent(StateOf(events), e))
    && (it.open ==> it.references == Given(events, e) - GivenBack(events, e))
    && (forall c :: c in it.callbacks <==> Subscribed(events, e, c))
  }

  /** Who is the current endpoint of a key is an open endpoint of that key. */
  predicate CurrentsOpen(s: State)
  {
    forall key :: key in s.current ==>
      s.current[key] < |s.made| && s.made[s.current[key]].open && s.made[s.current[key]].key == key
  }

  ghost predicate AllKept(events: seq<Event>)
  {
    CurrentsOpen(StateOf(events)) && forall e :: 0 <= e < |StateOf(events).made| ==> Kept(events, e)
  }

  /** An acquire gets an endpoint exactly if its key has an open one, or a socket can be bound for it. */
  lemma AcquiresIff(events: seq<Event>, key: Key, callback: Callback, first: bool, second: bool)
    ensures var s := StateOf(events); var (t, r) := Acquired(s, key, callback, first, second);
      && (r.Some? <==> (exists e: nat :: e < |s.made| && s.made[e].open && s.made[e].key == key)
                       || first || (key.port != 0 && second))
      && (r.None? ==> t == s)
      && (r.Some? ==> r.value < |t.made| && t.made[r.value].key == key && t.made[r.value].open
                      && callback in t.made[r.value].callbacks)
      && (r.Some? && r.value >= |s.made| ==>
            r.value == |s.made| && forall e :: 0 <= e < |s.made| && s.made[e].open ==> s.made[e].key != key)
      && (forall e :: 0 <= e < |s.made| && r != Some(e) ==> e < |t.made| && t.made[e] == s.made[e])
  {
    RunKeeps(events);
    hide RunOf, Given, GivenBack, Subscribed, StateOf;
    var s := StateOf(events);
    forall e | 0 <= e < |s.made| && s.made[e].open ensures IsCurrent(s, e) {
      assert Kept(events, e);
    }
    if key in s.current {
      assert s.made[s.current[key]].open && s.made[s.current[key]].key == key;
    }
  }

  /** A release touches no other endpoint. */
  lemma ReleasesOnlyIts(s: State, e: nat, callback: Callback, other: nat)
    requires e < |s.made| && other < |s.made| && other != e
    ensures other < |Released(s, e, callback).made| && Released(s, e, callback).made[other] == s.made[other]
  {}

  lemma LastStep(events: seq<Event>)
    requires events != []
    ensures StateOf(events) == Next(RunOf(Before(events)), events[|events| - 1]).state
  {
    hide Next;
  }

  ghost predicate StepSubscribes(events: seq<Event>, e: nat, callback: Callback)
    requires events != []
  {
    if events[|events| - 1].callback == callback && Gets(events, e) then true
    else if events[|events| - 1].callback == callback && Returns(events, e) then false
    else Subscribed(Before(events), e, callback)
  }

  lemma SubscriptionBefore(events: seq<Event>, e: nat, callback: Callback, i: nat)
    requires events != [] && i < |events| - 1
    requires !(Returns(events, e) && events[|events| - 1].callback == callback)
    ensures IsSubscription(Before(events), e, callback, i) <==> IsSubscription(events, e, callback, i)
  {
    hide Gets, Returns;
    var before := Before(events);
    assert before[..i + 1] == events[..i + 1];
    assert events[..|events|] == events;
    forall j | i < j < |before| ensures before[..j + 1] == events[..j + 1] && before[j] == events[j] {}
    if IsSubscription(before, e, callback, i) {
      forall j | i < j < |events| ensures !(Returns(events[..j + 1], e) && events[j].callback == callback) {
        if j < |before| {
          assert before[..j + 1] == events[..j + 1];
        }
      }
    }
  }

  /** The latest event about e and a callback, from the one before. */
  lemma SubscribedStep(events: seq<Event>, e: nat, callback: Callback)
    requires events != []
    ensures Subscribed(events, e, callback) <==> StepSubscribes(events, e, callback)
  {
    GetsOrReturns(events, e);
    hide Gets, Returns;
    var n, last := |events| - 1, events[|events| - 1];
    assert events[..n + 1] == events;
    if last.callback == callback && Gets(events, e) {
      assert IsSubscription(events, e, callback, n);
    } else if last.callback == callback && Returns(events, e) {
      forall i | IsSubscription(events, e, callback, i) ensures false {}
    } else {
      if Subscribed(events, e, callback) {
        var i: nat :| IsSubscription(events, e, callback, i);
        SubscriptionBefore(events, e, callback, i);
      }
      if Subscribed(Before(events), e, callback) {
        var i: nat :| IsSubscription(Before(events), e, callback, i);
        SubscriptionBefore(events, e, callback, i);
      }
    }
  }

  lemma GetsOrReturns(events: seq<Event>, e: nat)
    requires events != []
    ensures !(Gets(events, e) && Returns(events, e))
  {}

  ghost predicate Unheard(events: seq<Event>, e: nat)
  {
    Given(events, e) == 0 && GivenBack(events, e) == 0 && forall c :: !Subscribed(events, e, c)
  }

  /** An endpoint that does not exist yet was not given out. */
  lemma {:induction false} NotYetMade(events: seq<Event>, e: nat)
    requires e >= |StateOf(events).made|
    ensures Unheard(events, e)
  {
    if events == [] {
      assert forall c :: !Subscribed([], e, c);
    } else {
      LastStep(events);
      MadeGrows(events);
      NotYetMade(Before(events), e);
      GotIsMade(events, e);
      forall c ensures !Subscribed(events, e, c) {
        SubscribedStep(events, e, c);
      }
    }
  }

  lemma MadeGrows(events: seq<Event>)
    requires events != []
    ensures |StateOf(Before(events)).made| <= |StateOf(events).made| <= |StateOf(Before(events)).made| + 1
  {}

  lemma GotIsMade(events: seq<Event>, e: nat)
    requires events != []
    ensures Gets(events, e) ==> e < |StateOf(events).made|
    ensures Returns(events, e) ==> e < |StateOf(events).made|
  {}

  /** How one endpoint changes in a step. */
  ghost predicate Changed(events: seq<Event>, e: nat)
    requires events != [] && e < |StateOf(events).made|
  {
    var s, t, last := StateOf(Before(events)), StateOf(events), events[|events| - 1];
    if e == |s.made| then
      Gets(events, e) && t.made[e].open && t.made[e].references == 1 && t.made[e].callbacks == {last.callback}
      && IsCurrent(t, e)
    else
      var was, it := s.made[e], t.made[e];
      && e < |s.made| && it.key == was.key
      && (if Gets(events, e) then
            IsCurrent(s, e) && it == was.(references := was.references + 1, callbacks := was.callbacks + {last.callback})
            && IsCurrent(t, e)
          else if Returns(events, e) then
            && it.callbacks == was.callbacks - {last.callback}
            && it.references == (if was.references == 0 then 0 else was.references - 1)
            && it.open == (was.open && it.references > 0)
            && (IsCurrent(t, e) <==> IsCurrent(s, e) && it.references > 0)
          else it == was && (IsCurrent(t, e) <==> IsCurrent(s, e)))
  }

  lemma AcquireChanges(events: seq<Event>, e: nat)
    requires events != [] && events[|events| - 1].Acquire? && CurrentsOpen(StateOf(Before(events)))
    requires e < |StateOf(events).made|
    ensures Changed(events, e)
  {
    LastStep(events);
    hide RunOf;
  }

  lemma ReleaseChanges(events: seq<Event>, e: nat)
    requires events != [] && events[|events| - 1].Release? && CurrentsOpen(StateOf(Before(events)))
    requires e < |StateOf(events).made|
    ensures Changed(events, e)
  {
    LastStep(events);
    hide RunOf;
  }

  lemma StepChanges(events: seq<Event>, e: nat)
    requires events != [] && CurrentsOpen(StateOf(Before(events))) && e < |StateOf(events).made|
    ensures Changed(events, e)
  {
    hide Changed, StateOf, CurrentsOpen;
    match events[|events| - 1]
    case Acquire(_, _, _, _) => AcquireChanges(events, e);
    case Release(_, _) => ReleaseChanges(events, e);
  }

  lemma StepKeeps(events: seq<Event>, e: nat)
    requires events != [] && AllKept(Before(events)) && e < |StateOf(events).made|
    ensures Kept(events, e)
  {
    StepChanges(events, e);
    MadeGrows(events);
    GetsOrReturns(events, e);
    hide Gets, Returns, StateOf, Subscribed, IsCurrent;
    if e < |StateOf(Before(events)).made| {
      assert Kept(Before(events), e);
    } else {
      NotYetMade(Before(events), e);
    }
    forall c ensures c in StateOf(events).made[e].callbacks <==> Subscribed(events, e, c) {
      SubscribedStep(events, e, c);
    }
  }

  lemma StepKeepsCurrents(events: seq<Event>)
    requires events != [] && CurrentsOpen(StateOf(Before(events)))
    ensures CurrentsOpen(StateOf(events))
  {
    LastStep(events);
    hide RunOf;
  }

  /** On every run: counts, callbacks, open sockets and the dictionary agree. */
  lemma {:induction false} RunKeeps(events: seq<Event>)
    ensures AllKept(events)
  {
    if events != [] {
      RunKeeps(Before(events));
      StepKeepsCurrents(events);
      hide Kept, StateOf, CurrentsOpen;
      forall e | 0 <= e < |StateOf(events).made| ensures Kept(events, e) {
        StepKeeps(events, e);
      }
    }
  }
}
