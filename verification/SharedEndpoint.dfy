/**
 * The reference-counted UDP endpoint that all consumers of one event loop share (udp.py).
 * Acquiring and releasing hold the loop's lock, so each is one step.
 */
module SharedEndpoint {
  import opened Bytes

  /** Local address: bind host and requested port. */
  datatype Key = Key(host: string, port: u16)

  type Callback = nat

  // ---------------------------------------------------------------- specification

  datatype Endpoint = Endpoint(key: Key, callbacks: set<Callback>, references: nat, open: bool)

  /** All endpoints ever made, open or not, and the dictionary of the current ones. */
  datatype State = State(made: seq<Endpoint>, current: map<Key, nat>)

  const EMPTY := State([], map[])

  /** Whether an acquire gets a socket: the requested port, or any port in its place. */
  predicate Binds(key: Key, first: bool, second: bool)
  {
    first || (key.port != 0 && second)
  }

  function Subscribe(e: Endpoint, callback: Callback): Endpoint
  {
    e.(callbacks := e.callbacks + {callback}, references := e.references + 1)
  }

  /** async_acquire_udp_endpoint: the state afterwards and the endpoint, or None for an OSError. */
  function Acquired(s: State, key: Key, callback: Callback, first: bool, second: bool): (State, Option<nat>)
  {
    if key in s.current && s.current[key] < |s.made| then
      var e := s.current[key];
      (s.(made := s.made[e := Subscribe(s.made[e], callback)]), Some(e))
    else if !Binds(key, first, second) then (s, None)
    else
      var e := |s.made|;
      (State(s.made + [Subscribe(Endpoint(key, {}, 0, true), callback)], s.current[key := e]), Some(e))
  }

  /** async_release_udp_endpoint. */
  function Released(s: State, e: nat, callback: Callback): State
    requires e < |s.made|
  {
    var was := s.made[e];
    var left := was.(callbacks := was.callbacks - {callback}, references := if was.references == 0 then 0 else was.references - 1);
    if left.references > 0 then s.(made := s.made[e := left])
    else
      State(s.made[e := left.(open := false)],
            if was.key in s.current && s.current[was.key] == e then s.current - {was.key} else s.current)
  }

  // ---------------------------------------------------------------- runs

  datatype Event =
    | Acquire(key: Key, callback: Callback, first: bool, second: bool)
    | Release(endpoint: nat, callback: Callback)

  /** A state with the subscriptions that were acquired and not yet released. */
  datatype Run = Run(state: State, live: set<(nat, Callback)>)

  predicate Sound(s: State)
  {
    forall key :: key in s.current ==> s.current[key] < |s.made|
  }

  function Next(r: Run, e: Event): Run
  {
    match e
    case Acquire(key, callback, first, second) =>
      var (state, endpoint) := Acquired(r.state, key, callback, first, second);
      Run(state, if endpoint.Some? then r.live + {(endpoint.value, callback)} else r.live)
    case Release(endpoint, callback) =>
      if endpoint >= |r.state.made| then r
      else Run(Released(r.state, endpoint, callback), r.live - {(endpoint, callback)})
  }

  /** No callback subscribes twice to one endpoint, and only live subscriptions are released. */
  predicate Balanced(r: Run, e: Event)
  {
    match e
    case Acquire(key, callback, _, _) =>
      !(key in r.state.current && (r.state.current[key], callback) in r.live)
    case Release(endpoint, callback) => (endpoint, callback) in r.live
  }

  function CallbacksOf(live: set<(nat, Callback)>, e: nat): set<Callback>
  {
    set p | p in live && p.0 == e :: p.1
  }

  /** What one endpoint is worth: its count is exact, and it is open exactly while it is used. */
  ghost predicate Exact(r: Run, e: nat)
    requires e < |r.state.made|
  {
    var it := r.state.made[e];
    && it.callbacks == CallbacksOf(r.live, e)
    && it.references == |it.callbacks|
    && (it.open <==> it.references > 0)
    && (it.open <==> it.key in r.state.current && r.state.current[it.key] == e)
  }

  ghost predicate Inv(r: Run)
  {
    && Sound(r.state)
    && (forall p :: p in r.live ==> p.0 < |r.state.made|)
    && (forall e :: 0 <= e < |r.state.made| ==> Exact(r, e))
    && (forall key :: key in r.state.current ==>
          r.state.made[r.state.current[key]].key == key && r.state.made[r.state.current[key]].open)
  }

  /** A new subscription of an endpoint, that is new itself or the current one of its key. */
  lemma SubscribedIsExact(r: Run, r': Run, e: nat, callback: Callback)
    requires e < |r.state.made| && Exact(r, e) && r.state.made[e].open && callback !in CallbacksOf(r.live, e)
    requires r'.live == r.live + {(e, callback)}
    requires r'.state == r.state.(made := r.state.made[e := Subscribe(r.state.made[e], callback)])
    ensures Exact(r', e)
  {
    CallbacksAfterAcquire(r.live, r'.live, callback, e);
  }

  lemma AcquireExistingKeepsInv(r: Run, key: Key, callback: Callback)
    requires Inv(r) && key in r.state.current && (r.state.current[key], callback) !in r.live
    ensures Inv(Next(r, Acquire(key, callback, true, true)))
  {
    var r', at := Next(r, Acquire(key, callback, true, true)), r.state.current[key];
    assert callback !in CallbacksOf(r.live, at);
    assert Exact(r, at);
    hide CallbacksOf;
    forall e | 0 <= e < |r'.state.made| ensures Exact(r', e) {
      assert Exact(r, e);
      if e == at {
        SubscribedIsExact(r, r', e, callback);
      } else {
        CallbacksAfterAcquire(r.live, r'.live, callback, e);
      }
    }
  }

  lemma ExactStays(r: Run, r': Run, e: nat)
    requires e < |r.state.made| <= |r'.state.made| && Exact(r, e) && r'.state.made[e] == r.state.made[e]
    requires CallbacksOf(r'.live, e) == CallbacksOf(r.live, e)
    requires var key := r.state.made[e].key; key in r.state.current ==>
      key in r'.state.current && r'.state.current[key] == r.state.current[key]
    requires var key := r.state.made[e].key; key !in r.state.current && key in r'.state.current ==>
      r'.state.current[key] != e
    ensures Exact(r', e)
  {}

  /** The run after a subscription to a key that had no endpoint. */
  function WithNew(r: Run, key: Key, callback: Callback): Run
  {
    var at := |r.state.made|;
    Run(State(r.state.made + [Subscribe(Endpoint(key, {}, 0, true), callback)], r.state.current[key := at]),
        r.live + {(at, callback)})
  }

  lemma NewIsExact(r: Run, key: Key, callback: Callback)
    requires Inv(r)
    ensures Exact(WithNew(r, key, callback), |r.state.made|)
  {
    var at := |r.state.made|;
    assert CallbacksOf(r.live, at) == {};
    hide Inv;
    CallbacksAfterAcquire(r.live, r.live + {(at, callback)}, callback, at);
  }

  lemma OldStaysExact(r: Run, key: Key, callback: Callback, e: nat)
    requires Inv(r) && key !in r.state.current && e < |r.state.made|
    ensures Exact(WithNew(r, key, callback), e)
  {
    assert Exact(r, e);
    hide Inv;
    CallbacksAfterAcquire(r.live, r.live + {(|r.state.made|, callback)}, callback, e);
    ExactStays(r, WithNew(r, key, callback), e);
  }

  lemma AcquireNewKeepsInv(r: Run, key: Key, callback: Callback)
    requires Inv(r) && key !in r.state.current
    ensures Inv(Next(r, Acquire(key, callback, true, true)))
  {
    var r' := WithNew(r, key, callback);
    assert Next(r, Acquire(key, callback, true, true)) == r';
    hide Exact, CallbacksOf, Next;
    forall e | 0 <= e < |r'.state.made| ensures Exact(r', e) {
      if e < |r.state.made| {
        OldStaysExact(r, key, callback, e);
      } else {
        NewIsExact(r, key, callback);
      }
    }
  }

  lemma AcquireKeepsInv(r: Run, key: Key, callback: Callback, first: bool, second: bool)
    requires Inv(r) && Balanced(r, Acquire(key, callback, first, second))
    ensures Inv(Next(r, Acquire(key, callback, first, second)))
  {
    if key in r.state.current {
      AcquireExistingKeepsInv(r, key, callback);
    } else if Binds(key, first, second) {
      AcquireNewKeepsInv(r, key, callback);
    }
    hide Inv;
  }

  lemma CallbacksAfterAcquire(live: set<(nat, Callback)>, live': set<(nat, Callback)>, callback: Callback, e: nat)
    requires live' == live || exists k :: live' == live + {(k, callback)}
    ensures live' == live ==> CallbacksOf(live', e) == CallbacksOf(live, e)
    ensures forall k :: live' == live + {(k, callback)} ==>
      CallbacksOf(live', e) == CallbacksOf(live, e) + if k == e then {callback} else {}
  {
    forall k | live' == live + {(k, callback)}
      ensures CallbacksOf(live', e) == CallbacksOf(live, e) + if k == e then {callback} else {}
    {
      var more := CallbacksOf(live, e) + if k == e then {callback} else {};
      forall c ensures c in CallbacksOf(live', e) <==> c in more {
        if c in more {
          assert (e, c) in live';
        }
      }
    }
  }

  lemma CallbacksAfterRelease(live: set<(nat, Callback)>, k: nat, callback: Callback, e: nat)
    ensures CallbacksOf(live - {(k, callback)}, e) == CallbacksOf(live, e) - if k == e then {callback} else {}
  {
    var less := CallbacksOf(live, e) - if k == e then {callback} else {};
    forall c ensures c in CallbacksOf(live - {(k, callback)}, e) <==> c in less {
      if c in less {
        assert (e, c) in live - {(k, callback)};
      }
    }
  }

  lemma ReleaseKeepsInv(r: Run, endpoint: nat, callback: Callback)
    requires Inv(r) && Balanced(r, Release(endpoint, callback))
    ensures endpoint < |r.state.made| && Inv(Next(r, Release(endpoint, callback)))
  {
    var r' := Next(r, Release(endpoint, callback));
    assert Exact(r, endpoint) && callback in CallbacksOf(r.live, endpoint);
    forall e | 0 <= e < |r'.state.made| ensures Exact(r', e) {
      CallbacksAfterRelease(r.live, endpoint, callback, e);
      assert Exact(r, e);
    }
  }

  function RunOf(events: seq<Event>): Run
  {
    if events == [] then Run(EMPTY, {}) else Next(RunOf(events[..|events| - 1]), events[|events| - 1])
  }

  predicate BalancedRun(events: seq<Event>)
  {
    events != [] ==>
      BalancedRun(events[..|events| - 1]) && Balanced(RunOf(events[..|events| - 1]), events[|events| - 1])
  }

  lemma {:induction false} RunKeepsInv(events: seq<Event>)
    requires BalancedRun(events)
    ensures Inv(RunOf(events))
  {
    hide Next, Inv;
    if events == [] {
      EmptyInv();
    } else {
      var init, e := events[..|events| - 1], events[|events| - 1];
      RunKeepsInv(init);
      match e
      case Acquire(key, callback, first, second) => AcquireKeepsInv(RunOf(init), key, callback, first, second);
      case Release(endpoint, callback) => ReleaseKeepsInv(RunOf(init), endpoint, callback);
    }
  }

  lemma EmptyInv()
    ensures Inv(Run(EMPTY, {}))
  {}

  /**
   * On every balanced run, whatever fails to bind: an endpoint's count is the number of its live
   * subscribers and of its callbacks, and it is open exactly while it has one.
   */
  lemma CountIsExact(events: seq<Event>, e: nat)
    requires BalancedRun(events) && e < |RunOf(events).state.made|
    ensures RunOf(events).state.made[e].callbacks == CallbacksOf(RunOf(events).live, e)
    ensures RunOf(events).state.made[e].references == |CallbacksOf(RunOf(events).live, e)|
    ensures RunOf(events).state.made[e].open <==> CallbacksOf(RunOf(events).live, e) != {}
  {
    RunKeepsInv(events);
    hide RunOf;
    assert Exact(RunOf(events), e);
  }

  /** No key ever has two open sockets. */
  lemma OneSocketPerKey(events: seq<Event>, d: nat, e: nat)
    requires BalancedRun(events) && d < |RunOf(events).state.made| && e < |RunOf(events).state.made|
    requires RunOf(events).state.made[d].key == RunOf(events).state.made[e].key
    requires RunOf(events).state.made[d].open && RunOf(events).state.made[e].open
    ensures d == e
  {
    RunKeepsInv(events);
    hide RunOf;
    assert Exact(RunOf(events), d) && Exact(RunOf(events), e);
  }

  /** A step closes a socket exactly when it releases the socket's last subscriber. */
  lemma ClosesWithTheLast(events: seq<Event>, event: Event, e: nat)
    requires BalancedRun(events + [event]) && e < |RunOf(events).state.made| && RunOf(events).state.made[e].open
    ensures e < |RunOf(events + [event]).state.made|
    ensures !RunOf(events + [event]).state.made[e].open
       <==> event.Release? && event.endpoint == e && CallbacksOf(RunOf(events).live, e) == {event.callback}
  {
    var more := events + [event];
    assert more[..|more| - 1] == events;
    assert RunOf(more) == Next(RunOf(events), event);
    RunKeepsInv(events);
    RunKeepsInv(more);
    hide RunOf;
    var r, r' := RunOf(events), RunOf(more);
    assert Exact(r, e) && e < |r'.state.made|;
    assert Exact(r', e);
    if event.Release? {
      CallbacksAfterRelease(r.live, event.endpoint, event.callback, e);
      if event.endpoint == e {
        assert event.callback in CallbacksOf(r.live, e);
        assert CallbacksOf(r.live, e) - {event.callback} == {} <==> CallbacksOf(r.live, e) == {event.callback};
      }
    } else {
      CallbacksAfterAcquire(r.live, r'.live, event.callback, e);
    }
  }

  // ---------------------------------------------------------------- the objects

  class Transport {
    var open: bool
    /** The endpoint that it was opened for. */
    ghost const number: nat

    constructor (ghost number: nat)
      ensures open && this.number == number
    {
      open := true;
      this.number := number;
    }

    method Close()
      modifies this
      ensures !open
    {
      open := false;
    }
  }

  class SharedUdpEndpoint {
    const key: Key
    const transport: Transport
    /** How many endpoints the loop had before this one. */
    ghost const number: nat
    var callbacks: set<Callback>
    var references: nat

    constructor (key: Key, transport: Transport, ghost number: nat)
      ensures this.key == key && this.transport == transport && this.number == number
      ensures callbacks == {} && references == 0
    {
      this.key := key;
      this.number := number;
      this.transport := transport;
      callbacks, references := {}, 0;
    }

    ghost function View(): Endpoint
      reads this, transport
    {
      Endpoint(key, callbacks, references, transport.open)
    }

    /** _dispatch: every subscriber gets the datagram once, whichever of them raise. */
    method Dispatch() returns (called: seq<Callback>)
      ensures multiset(called) == multiset(callbacks)
    {
      called := [];
      var todo := callbacks;
      while todo != {}
        invariant todo <= callbacks && multiset(called) + multiset(todo) == multiset(callbacks)
        decreases |todo|
      {
        var callback :| callback in todo;
        called := called + [callback];
        todo := todo - {callback};
      }
    }
  }

  /** The endpoints of one event loop; `made` remembers every endpoint it ever had. */
  class Endpoints {
    var current: map<Key, SharedUdpEndpoint>
    ghost var made: seq<SharedUdpEndpoint>

    ghost predicate Valid()
      reads this, made, set e | e in made :: e.transport
    {
      && (forall i :: 0 <= i < |made| ==> made[i].number == i && made[i].transport.number == i)
      && (forall key :: key in current ==> Known(current[key]))
    }

    ghost predicate Known(e: SharedUdpEndpoint)
      reads this
    {
      e.number < |made| && made[e.number] == e
    }

    ghost function Made(): (r: seq<Endpoint>)
      reads this, made, set e | e in made :: e.transport
      ensures |r| == |made| && forall i :: 0 <= i < |made| ==> r[i] == made[i].View()
    {
      seq(|made|, i requires 0 <= i < |made| reads this, made, set e | e in made :: e.transport => made[i].View())
    }

    ghost function Current(): (r: map<Key, nat>)
      reads this
      ensures forall key :: key in r <==> key in current
      ensures forall key :: key in current ==> r[key] == current[key].number
    {
      map key | key in current :: current[key].number
    }

    ghost function View(): State
      requires Valid()
      reads this, made, set e | e in made :: e.transport
    {
      State(Made(), Current())
    }

    constructor ()
      ensures Valid() && View() == EMPTY
    {
      current, made := map[], [];
    }

    /** A new endpoint becomes the current one of its key. */
    method Install(endpoint: SharedUdpEndpoint)
      requires Valid() && endpoint.key !in current
      requires endpoint.number == |made| && endpoint.transport.number == |made|
      modifies `current, `made
      ensures Valid() && Known(endpoint) && made == old(made) + [endpoint]
      ensures Made() == old(Made()) + [endpoint.View()]
      ensures Current() == old(Current())[endpoint.key := endpoint.number]
    {
      hide Made, Current;
      ghost var madeBefore, currentBefore := Made(), Current();
      current := current[endpoint.key := endpoint];
      made := made + [endpoint];
      assert Made() == madeBefore + [endpoint.View()];
      assert Current() == currentBefore[endpoint.key := endpoint.number];
    }

    /** One more subscriber of a known endpoint. */
    method Register(endpoint: SharedUdpEndpoint, callback: Callback)
      requires Valid() && Known(endpoint)
      modifies endpoint
      ensures Valid()
      ensures View() == old(View()).(
        made := old(View()).made[endpoint.number := Subscribe(old(View()).made[endpoint.number], callback)])
    {
      hide Made, Current;
      ghost var madeBefore, currentBefore := Made(), Current();
      endpoint.references := endpoint.references + 1;
      endpoint.callbacks := endpoint.callbacks + {callback};
      assert Current() == currentBefore;
      assert Made() == madeBefore[endpoint.number := Subscribe(madeBefore[endpoint.number], callback)];
    }

    /** async_acquire_udp_endpoint, as long as it holds the lock; null stands for the OSError. */
    method Acquire(key: Key, callback: Callback, first: bool, second: bool) returns (endpoint: SharedUdpEndpoint?)
      requires Valid()
      modifies this, made
      ensures Valid() && (endpoint != null ==> Known(endpoint))
      ensures View() == Acquired(old(View()), key, callback, first, second).0
      ensures Acquired(old(View()), key, callback, first, second).1
           == if endpoint == null then None else Some(endpoint.number)
    {
      hide Made, Current;
      if key in current {
        endpoint := current[key];
        Register(endpoint, callback);
        return;
      }
      if !first && (key.port == 0 || !second) {
        return null;
      }
      var transport := new Transport(|made|);
      endpoint := new SharedUdpEndpoint(key, transport, |made|);
      Install(endpoint);
      Register(endpoint, callback);
    }

    /** The endpoint is given up: its socket is closed and the dictionary forgets it. */
    method Drop(endpoint: SharedUdpEndpoint)
      requires Valid() && Known(endpoint)
      modifies this, endpoint.transport
      ensures Valid() && made == old(made)
      ensures Made() == old(Made())[endpoint.number := old(Made())[endpoint.number].(open := false)]
      ensures var was := old(Current());
        Current() == if endpoint.key in was && was[endpoint.key] == endpoint.number then was - {endpoint.key} else was
    {
      hide Made, Current;
      ghost var madeBefore, currentBefore := Made(), Current();
      if endpoint.key in current && current[endpoint.key] == endpoint {
        current := current - {endpoint.key};
      }
      endpoint.transport.Close();
      assert Made() == madeBefore[endpoint.number := madeBefore[endpoint.number].(open := false)];
    }

    /** A subscriber less, as far as there was one. */
    method Unregister(endpoint: SharedUdpEndpoint, callback: Callback)
      requires Valid() && Known(endpoint)
      modifies endpoint
      ensures Valid() && Current() == old(Current())
      ensures var was := old(Made())[endpoint.number];
        Made() == old(Made())[endpoint.number := was.(
          callbacks := was.callbacks - {callback}, references := if was.references == 0 then 0 else was.references - 1)]
    {
      hide Made, Current;
      ghost var madeBefore, currentBefore := Made(), Current();
      ghost var was := madeBefore[endpoint.number];
      endpoint.callbacks := endpoint.callbacks - {callback};
      endpoint.references := if endpoint.references == 0 then 0 else endpoint.references - 1;
      assert Current() == currentBefore;
      assert Made() == madeBefore[endpoint.number := was.(
        callbacks := was.callbacks - {callback}, references := if was.references == 0 then 0 else was.references - 1)];
    }

    /** async_release_udp_endpoint, as long as it holds the lock. */
    method Release(endpoint: SharedUdpEndpoint, callback: Callback)
      requires Valid() && Known(endpoint)
      modifies this, endpoint, endpoint.transport
      ensures Valid() && made == old(made)
      ensures View() == Released(old(View()), endpoint.number, callback)
    {
      hide Made, Current;
      Unregister(endpoint, callback);
      if endpoint.references == 0 {
        Drop(endpoint);
      }
    }
  }
}
