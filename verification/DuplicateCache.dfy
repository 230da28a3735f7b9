/**
 * The bounded cache of recent datagrams (transport.py): an insertion-ordered dictionary from
 * datagram to arrival time, against the unbounded history that it stands for.
 */
module DuplicateCache {
  import opened Bytes

  const WINDOW: real := 3.0
  const MAX_RECENT := 512

  datatype Arrival = Arrival(data: bytes, at: real)

  type Arrivals = seq<Arrival>

  predicate Has(cache: Arrivals, data: bytes)
  {
    exists i :: 0 <= i < |cache| && cache[i].data == data
  }

  /** _prune_duplicates: drop what arrived before the window. */
  function Prune(cache: Arrivals, now: real): (kept: Arrivals)
    ensures |kept| <= |cache|
  {
    if cache == [] then []
    else
      var last := cache[|cache| - 1];
      Prune(cache[..|cache| - 1], now) + (if last.at < now - WINDOW then [] else [last])
  }

  /** The cache after an arrival, and whether the datagram is processed. */
  function Arrive(cache: Arrivals, data: bytes, now: real): (Arrivals, bool)
  {
    var kept := Prune(cache, now);
    if Has(kept, data) then (kept, false)
    else
      var added := kept + [Arrival(data, now)];
      (if |added| > MAX_RECENT then added[1..] else added, true)
  }

  // ---------------------------------------------------------------- with its history

  /** The cache, everything ever processed, and what was dropped for want of space. */
  datatype History = History(cache: Arrivals, processed: Arrivals, evicted: Arrivals, clock: real)

  const EMPTY := History([], [], [], 0.0)

  function Next(h: History, data: bytes, now: real): History
  {
    var kept := Prune(h.cache, now);
    var (cache, processed) := Arrive(h.cache, data, now);
    if !processed then h.(cache := cache, clock := now)
    else
      History(cache, h.processed + [Arrival(data, now)],
              if |kept| >= MAX_RECENT then h.evicted + [kept[0]] else h.evicted, now)
  }

  predicate InTimeOrder(cache: Arrivals)
  {
    forall i, j :: 0 <= i < j < |cache| ==> cache[i].at <= cache[j].at
  }

  predicate DistinctKeys(cache: Arrivals)
  {
    forall i, j :: 0 <= i < j < |cache| ==> cache[i].data != cache[j].data
  }

  ghost predicate Inv(h: History)
  {
    |h.cache| <= 512 && InTimeOrder(h.cache) && DistinctKeys(h.cache) && Covered(h)
  }

  lemma {:induction false} PruneMember(cache: Arrivals, now: real, e: Arrival)
    ensures e in Prune(cache, now) <==> e in cache && e.at >= now - 3.0
  {
    if cache != [] {
      var init, last := cache[..|cache| - 1], cache[|cache| - 1];
      PruneMember(init, now, e);
      assert cache == init + [last];
      assert e in cache <==> e in init || e == last;
    }
  }

  lemma {:induction false} PruneOrder(cache: Arrivals, now: real)
    requires InTimeOrder(cache) && DistinctKeys(cache)
    ensures InTimeOrder(Prune(cache, now)) && DistinctKeys(Prune(cache, now))
  {
    if cache != [] {
      var init, last := cache[..|cache| - 1], cache[|cache| - 1];
      PruneOrder(init, now);
      var kept := Prune(init, now);
      forall i | 0 <= i < |kept|
        ensures kept[i].at <= last.at && kept[i].data != last.data
      {
        PruneMember(init, now, kept[i]);
        assert kept[i] in init;
      }
    }
  }

  lemma PruneKeeps(cache: Arrivals, now: real)
    ensures forall e :: e in Prune(cache, now) <==> e in cache && e.at >= now - 3.0
  {
    forall e
      ensures e in Prune(cache, now) <==> e in cache && e.at >= now - 3.0
    {
      PruneMember(cache, now, e);
    }
  }

  lemma HasIffMember(cache: Arrivals, data: bytes)
    ensures Has(cache, data) <==> exists e :: e in cache && e.data == data
  {
    if Has(cache, data) {
      var i :| 0 <= i < |cache| && cache[i].data == data;
      assert cache[i] in cache;
    }
  }

  lemma PrunedKeepsInv(h: History, now: real)
    requires Inv(h) && h.clock <= now
    ensures Inv(h.(cache := Prune(h.cache, now), clock := now))
  {
    PruneOrder(h.cache, now);
    PruneKeeps(h.cache, now);
    hide Prune;
    var kept := Prune(h.cache, now);
    forall e | e in h.processed
      ensures e in kept || e in h.evicted || e.at < now - 3.0
    {}
  }

  /** One arrival, with a clock that does not run backwards, keeps everything in order. */
  lemma NextKeepsInv(h: History, data: bytes, now: real)
    requires Inv(h) && h.clock <= now
    ensures Inv(Next(h, data, now))
  {
    PrunedKeepsInv(h, now);
    hide Prune;
    var kept := Prune(h.cache, now);
    var g := h.(cache := kept, clock := now);
    if Has(kept, data) {
      assert Next(h, data, now) == g;
    } else {
      AddKeepsInv(g, Arrival(data, now));
      assert Next(h, data, now) == Add(g, Arrival(data, now));
    }
  }

  function Add(h: History, e: Arrival): History
  {
    var added := h.cache + [e];
    if |added| > 512 then
      History(added[1..], h.processed + [e], h.evicted + [added[0]], h.clock)
    else History(added, h.processed + [e], h.evicted, h.clock)
  }

  lemma {:induction false} AddKeepsInv(h: History, e: Arrival)
    requires Inv(h) && e.at == h.clock && !Has(h.cache, e.data)
    ensures Inv(Add(h, e))
  {
    AddedInOrder(h.cache, e);
    hide InTimeOrder, DistinctKeys, Has;
    var added := h.cache + [e];
    var g := h.(cache := added, processed := h.processed + [e]);
    assert Covered(g) by {
      forall k | k in g.processed
        ensures k in g.cache || k in g.evicted || k.at < g.clock - 3.0
      {
        assert k in h.processed || k == e;
      }
    }
    if |added| > 512 {
      EvictKeepsCover(g);
      TailInOrder(added);
    }
  }

  /** Everything processed within the window is in the cache or was evicted by size. */
  ghost predicate Covered(h: History)
  {
    && (forall e :: e in h.cache ==> e in h.processed)
    && (forall e :: e in h.processed ==> e.at <= h.clock)
    && (forall e :: e in h.processed ==> e in h.cache || e in h.evicted || e.at < h.clock - 3.0)
  }

  lemma EvictKeepsCover(h: History)
    requires h.cache != [] && Covered(h)
    ensures Covered(h.(cache := h.cache[1..], evicted := h.evicted + [h.cache[0]]))
  {
    var g := h.(cache := h.cache[1..], evicted := h.evicted + [h.cache[0]]);
    forall e | e in g.processed
      ensures e in g.cache || e in g.evicted || e.at < g.clock - 3.0
    {
      if e in h.cache {
        assert h.cache == [h.cache[0]] + g.cache;
      }
    }
  }

  lemma TailInOrder(cache: Arrivals)
    requires cache != [] && InTimeOrder(cache) && DistinctKeys(cache)
    ensures InTimeOrder(cache[1..]) && DistinctKeys(cache[1..])
  {}

  lemma AddedInOrder(kept: Arrivals, e: Arrival)
    requires InTimeOrder(kept) && DistinctKeys(kept) && !Has(kept, e.data)
    requires forall k :: k in kept ==> k.at <= e.at
    ensures InTimeOrder(kept + [e]) && DistinctKeys(kept + [e])
  {
    var added := kept + [e];
    forall i, j | 0 <= i < j < |added|
      ensures added[i].at <= added[j].at && added[i].data != added[j].data
    {
      if j == |kept| {
        assert kept[i] in kept;
      }
    }
  }

  // ---------------------------------------------------------------- runs

  /** A run of the cache over arrivals in time order. */
  function Run(arrivals: Arrivals): History
  {
    if arrivals == [] then EMPTY
    else
      var last := arrivals[|arrivals| - 1];
      Next(Run(arrivals[..|arrivals| - 1]), last.data, last.at)
  }

  predicate ClockRuns(arrivals: Arrivals)
  {
    InTimeOrder(arrivals) && forall i :: 0 <= i < |arrivals| ==> 0.0 <= arrivals[i].at
  }

  lemma {:induction false} RunKeepsInv(arrivals: Arrivals)
    requires ClockRuns(arrivals)
    ensures Inv(Run(arrivals))
    ensures Run(arrivals).clock == if arrivals == [] then 0.0 else arrivals[|arrivals| - 1].at
  {
    if arrivals != [] {
      RunKeepsInv(arrivals[..|arrivals| - 1]);
      NextKeepsInv(Run(arrivals[..|arrivals| - 1]), arrivals[|arrivals| - 1].data, arrivals[|arrivals| - 1].at);
    }
  }

  /** An identical datagram was processed no more than a window ago. */
  ghost predicate SeenInWindow(entries: Arrivals, data: bytes, now: real)
  {
    exists e :: e in entries && e.data == data && e.at >= now - 3.0
  }

  /** The next datagram of a run is processed. */
  predicate Processes(arrivals: Arrivals, data: bytes, now: real)
  {
    Arrive(Run(arrivals).cache, data, now).1
  }

  /** A suppressed datagram always has a processed identical copy at most 3.0 s old. */
  lemma SuppressionIsSound(arrivals: Arrivals, data: bytes, now: real)
    requires ClockRuns(arrivals + [Arrival(data, now)])
    requires !Processes(arrivals, data, now)
    ensures SeenInWindow(Run(arrivals).processed, data, now)
  {
    hide Prune;
    ClockPrefix(arrivals, Arrival(data, now));
    RunKeepsInv(arrivals);
    PruneKeeps(Run(arrivals).cache, now);
    HasIffMember(Prune(Run(arrivals).cache, now), data);
  }

  /**
   * A datagram is processed exactly when the unbounded history has no copy within the window,
   * as long as no copy of it that is still within the window was evicted by size.
   */
  lemma CacheRefinesHistory(arrivals: Arrivals, data: bytes, now: real)
    requires ClockRuns(arrivals + [Arrival(data, now)])
    requires !SeenInWindow(Run(arrivals).evicted, data, now)
    ensures Processes(arrivals, data, now) <==> !SeenInWindow(Run(arrivals).processed, data, now)
  {
    hide Prune;
    ClockPrefix(arrivals, Arrival(data, now));
    RunKeepsInv(arrivals);
    var h := Run(arrivals);
    PruneKeeps(h.cache, now);
    HasIffMember(Prune(h.cache, now), data);
    if SeenInWindow(h.processed, data, now) {
      var e :| e in h.processed && e.data == data && e.at >= now - 3.0;
      assert h.clock <= now;
      assert e !in h.evicted;
      assert e in Prune(h.cache, now);
    }
  }

  lemma ClockPrefix(arrivals: Arrivals, last: Arrival)
    requires ClockRuns(arrivals + [last])
    ensures ClockRuns(arrivals)
    ensures (if arrivals == [] then 0.0 else arrivals[|arrivals| - 1].at) <= last.at
  {
    var all := arrivals + [last];
    assert forall i :: 0 <= i < |arrivals| ==> all[i] == arrivals[i];
    assert all[|arrivals|] == last;
    assert InTimeOrder(all);
  }

  /** An eviction means that 512 different datagrams were processed within the last window. */
  lemma EvictionNeedsAFlood(arrivals: Arrivals, data: bytes, now: real)
    requires ClockRuns(arrivals + [Arrival(data, now)])
    requires |Next(Run(arrivals), data, now).evicted| > |Run(arrivals).evicted|
    ensures var kept := Prune(Run(arrivals).cache, now);
      |kept| == 512 && DistinctKeys(kept)
      && forall e :: e in kept ==> e in Run(arrivals).processed && e.at >= now - 3.0
  {
    hide Prune;
    ClockPrefix(arrivals, Arrival(data, now));
    RunKeepsInv(arrivals);
    PruneKeeps(Run(arrivals).cache, now);
    PruneOrder(Run(arrivals).cache, now);
  }
}
