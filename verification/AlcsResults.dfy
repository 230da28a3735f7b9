/** What holds of every run of set_power: when it writes, what it returns, and how it fails. */
module AlcsResults {
  import opened Bytes
  import opened Logs
  import opened AlcsPower
  import opened AlcsParts

  /** Entry i is the answer to a request of its own step, in the session that was opened before. */
  predicate AnswerInSession(log: Log, i: nat, j: nat, q: nat)
  {
    && j < i < |log| && q < i
    && log[j].Opened? && Genuine(log[i]) && log[i].session == Some(log[j].sid)
    && log[q].Sent? && log[q].step == log[i].step && log[q].mid == log[i].mid && log[q].token == log[i].token
  }

  predicate ShowsWith(p: Setup, log: Log, i: nat, v: bool, j: nat, q: nat)
  {
    && AnswerInSession(log, i, j, q) && log[i].step == ReadStep
    && PowerRead(p, log[j].key, log[i].id, log[i].raw) == Some(v)
  }

  /** Entry i is a session-checked read that shows this power state. */
  ghost predicate Shows(p: Setup, log: Log, i: nat, v: bool)
  {
    exists j: nat, q: nat :: ShowsWith(p, log, i, v, j, q)
  }

  lemma ReadShows(p: Setup, log: Log, q: nat, j: nat, sid: nat, key: bytes, v: bool)
    requires EndsWithRead(p, log, q, sid, key, v) && j + 1 < |log| && log[j] == Opened(sid, key)
    ensures Shows(p, log, |log| - 1, v)
  {
    hide Genuine, PowerRead;
    assert ShowsWith(p, log, |log| - 1, v, j, q);
  }

  lemma {:induction false} ShowsStays(p: Setup, log: Log, more: Log, i: nat, v: bool)
    requires Shows(p, log, i, v)
    ensures Shows(p, log + more, i, v)
  {
    hide PowerRead, Genuine;
    var j: nat, q: nat :| ShowsWith(p, log, i, v, j, q);
    assert (log + more)[i] == log[i] && (log + more)[j] == log[j] && (log + more)[q] == log[q];
    assert ShowsWith(p, log + more, i, v, j, q);
  }

  /** Some entry before w is a session-checked read of this power state. */
  ghost predicate ShownBefore(p: Setup, log: Log, w: nat, v: bool)
  {
    exists i: nat :: i < w && Shows(p, log, i, v)
  }

  /** Some session-checked read of this power state comes after every write datagram. */
  ghost predicate ShownAfterWrites(p: Setup, log: Log, v: bool)
  {
    exists i: nat :: Shows(p, log, i, v) && forall w :: 0 <= w < |log| && IsWrite(log[w]) ==> w < i
  }

  /** Entry w is the write request for this value in the session that was opened before. */
  ghost predicate WritesValue(p: Setup, log: Log, w: nat, v: bool, roll: Roll)
    requires w < |log|
  {
    exists j :: 0 <= j < w && log[j].Opened? && log[j].sid <= 0xFFFF_FFFF && log[w].Sent?
             && PropertyRequest(p, log[j].sid, log[j].key, Some(v), roll) == Some(log[w].datagram)
  }

  /** What the parts before the write step leave: one opened session, and a read of the power. */
  predicate OpenedAndRead(p: Setup, log: Log, j: nat, sid: nat, key: bytes)
  {
    && j < |log| && log[j] == Opened(sid, key) && sid <= 0xFFFF_FFFF
    && (forall i :: 0 <= i < |log| ==> !IsWrite(log[i]) && !log[i].Begun? && (log[i].Opened? ==> i == j))
  }

  lemma {:induction false} KeyOf(log: Log, j: nat)
    requires j < |log| && log[j].Opened? && forall i :: 0 <= i < j ==> !log[i].Opened?
    ensures SessionKey(log) == log[j].key
  {
    if j > 0 {
      KeyOf(log[1..], j - 1);
    }
  }

  lemma OpenedThenRead(
    p: Setup, script: seq<NetEvent>, sid: nat, key: bytes, a: Trace<(nat, bytes)>, b: Trace<bool>)
    requires Ends(p, key, script, a.rest, a.log, None) && sid <= 0xFFFF_FFFF
    requires a.log != [] && Harmless(a.log[..|a.log| - 1]) && a.log[|a.log| - 1] == Opened(sid, key)
    requires Ends(p, key, a.rest, b.rest, b.log, FailureIn(b.result)) && Harmless(b.log)
    requires b.result.Ok? ==> EndsWithRead(p, b.log, 0, sid, key, b.result.value)
    ensures OpenedAndRead(p, a.log + b.log, |a.log| - 1, sid, key)
    ensures Ends(p, key, script, b.rest, a.log + b.log, FailureIn(b.result))
    ensures b.result.Ok? ==> Shows(p, a.log + b.log, |a.log + b.log| - 1, b.result.value)
  {
    hide *;
    BeginningLog(p, a.log, b.log, sid, key);
    EndsThen(p, key, script, a.rest, b.rest, a.log, b.log, FailureIn(b.result));
    if b.result.Ok? {
      ReadEndsLater(p, a.log, b.log, 0, sid, key, b.result.value);
      ReadShows(p, a.log + b.log, |a.log|, |a.log| - 1, sid, key, b.result.value);
    }
  }

  /** A successful authentication opens its session with its last entry. */
  lemma AuthEnds(p: Setup, roll: Roll, script: seq<NetEvent>, sid: nat, key: bytes)
    requires AuthRun(p, roll, script).result == Ok((sid, key))
    ensures sid <= 0xFFFF_FFFF
    ensures var a := AuthRun(p, roll, script);
      && a.log != [] && Harmless(a.log[..|a.log| - 1]) && a.log[|a.log| - 1] == Opened(sid, key)
      && Ends(p, key, script, a.rest, a.log, None)
  {
    SidFits(p, roll, script);
    AuthLeaves(p, roll, script, key);
    hide AuthRun, Harmless, Consumes, EscapedWith;
  }

  /** The first two parts of a transaction whose authentication succeeded. */
  lemma Beginning(p: Setup, first: Roll, second: Roll, script: seq<NetEvent>, sid: nat, key: bytes)
    requires AuthRun(p, first, script).result == Ok((sid, key))
    ensures sid <= 0xFFFF_FFFF
    ensures var a := AuthRun(p, first, script); var b := ReadRun(p, sid, key, second, a.rest);
      && a.log != [] && OpenedAndRead(p, a.log + b.log, |a.log| - 1, sid, key)
      && Ends(p, key, script, b.rest, a.log + b.log, FailureIn(b.result))
      && (b.result.Ok? ==> Shows(p, a.log + b.log, |a.log + b.log| - 1, b.result.value))
  {
    hide *;
    AuthEnds(p, first, script, sid, key);
    var a := AuthRun(p, first, script);
    ReadLeaves(p, sid, key, second, a.rest);
    OpenedThenRead(p, script, sid, key, a, ReadRun(p, sid, key, second, a.rest));
  }

  lemma BeginningLog(p: Setup, a: Log, b: Log, sid: nat, key: bytes)
    requires a != [] && Harmless(a[..|a| - 1]) && a[|a| - 1] == Opened(sid, key) && Harmless(b) && sid <= 0xFFFF_FFFF
    ensures OpenedAndRead(p, a + b, |a| - 1, sid, key)
  {
    hide IsWrite;
    var log, init := a + b, a[..|a| - 1];
    forall i | 0 <= i < |log| ensures !IsWrite(log[i]) && !log[i].Begun? && (log[i].Opened? ==> i == |a| - 1) {
      if i < |init| {
        assert log[i] == init[i];
      } else if i >= |a| {
        assert log[i] == b[i - |a|];
      } else {
        OpenedIsNoWrite(log[i]);
      }
    }
  }

  lemma OpenedIsNoWrite(e: Entry)
    ensures e.Opened? || e.Begun? ==> !IsWrite(e)
  {}

  /** What holds of every log: one write at most, of the requested value, after a read of the other one. */
  ghost predicate WritesSafely(p: Setup, log: Log, desired: bool, roll: Roll)
  {
    && Count(log, IsWrite) <= 1 && (Begun !in log ==> Count(log, IsWrite) == 0)
    && (forall w :: 0 <= w < |log| && (IsWrite(log[w]) || log[w].Begun?) ==> ShownBefore(p, log, w, !desired))
    && (forall w :: 0 <= w < |log| && IsWrite(log[w]) ==> WritesValue(p, log, w, desired, roll))
  }

  lemma QuietLog(p: Setup, log: Log, desired: bool, roll: Roll)
    requires forall i :: 0 <= i < |log| ==> !IsWrite(log[i]) && !log[i].Begun?
    ensures WritesSafely(p, log, desired, roll) && Begun !in log
  {
    hide IsWrite;
    CountFirst(log, IsWrite);
  }

  lemma WrittenLog(
    p: Setup, before: Log, after: Log, j: nat, sid: nat, key: bytes, desired: bool, roll: Roll)
    requires before != [] && OpenedAndRead(p, before, j, sid, key) && Shows(p, before, |before| - 1, !desired)
    requires WritesFirst(after)
    requires after != [] && IsWrite(after[0]) ==>
      after[0].Sent? && PropertyRequest(p, sid, key, Some(desired), roll) == Some(after[0].datagram)
    ensures var log := before + ([Begun] + after); WritesSafely(p, log, desired, roll) && Begun in log
  {
    hide Shows, IsWrite, PropertyRequest;
    var log := before + ([Begun] + after);
    CountConcat(before, [Begun] + after, IsWrite);
    CountConcat([Begun], after, IsWrite);
    CountFirst(before, IsWrite);
    CountFirst([Begun], IsWrite);
    CountFirst(after, IsWrite);
    OpenedIsNoWrite(Begun);
    ShowsStays(p, before, [Begun] + after, |before| - 1, !desired);
    assert log[|before|] == Begun;
    forall w | 0 <= w < |log| && (IsWrite(log[w]) || log[w].Begun?) ensures ShownBefore(p, log, w, !desired) {
      assert w >= |before|;
    }
    forall w | 0 <= w < |log| && IsWrite(log[w]) ensures WritesValue(p, log, w, desired, roll) {
      assert log[j] == before[j] && log[w] == after[0];
    }
  }

  /** A confirmed write: the last entry is a session-checked read of the value, after any write. */
  lemma ConfirmedLog(
    p: Setup, before: Log, after: Log, j: nat, sid: nat, key: bytes, desired: bool, q: nat)
    requires OpenedAndRead(p, before, j, sid, key)
    requires 0 < q && EndsWithRead(p, after, q, sid, key, desired)
    requires WritesFirst(after)
    ensures ShownAfterWrites(p, before + ([Begun] + after), desired)
  {
    hide IsWrite, Shows, EndsWithRead;
    var log := before + ([Begun] + after);
    ReadEndsLater(p, [Begun], after, q, sid, key, desired);
    ReadEndsLater(p, before, [Begun] + after, q + 1, sid, key, desired);
    ReadShows(p, log, |before| + (q + 1), j, sid, key, desired);
    OpenedIsNoWrite(Begun);
    forall w | 0 <= w < |log| && IsWrite(log[w]) ensures w < |log| - 1 {
      if w > |before| {
        assert log[w] == after[w - |before| - 1];
      }
    }
  }

  /** A read that finds the desired value: nothing was written. */
  lemma FoundLog(p: Setup, log: Log, j: nat, sid: nat, key: bytes, desired: bool)
    requires log != [] && OpenedAndRead(p, log, j, sid, key) && Shows(p, log, |log| - 1, desired)
    ensures ShownAfterWrites(p, log, desired)
  {
    hide Shows, IsWrite;
  }

  /**
   * On any script set_power sends at most one write datagram; it is the write request of the
   * requested value in the opened session, and it, like the start of the write step, comes only
   * after a session-checked read that showed the other value.
   */
  lemma SetPowerWritesSafely(p: Setup, desired: bool, rolls: seq<Roll>, script: seq<NetEvent>)
    requires |rolls| == 4
    ensures WritesSafely(p, SetPowerRun(p, desired, rolls, script).log, desired, rolls[2])
  {
    hide WritesSafely, EscapedWith, Consumes, Ends, Shows, IsWrite, PropertyRequest, EndsWithRead, AuthRun, ReadRun, WriteRun;
    var a := AuthRun(p, rolls[0], script);
    if a.result.Raised? {
      AuthLeaves(p, rolls[0], script, []);
      QuietLog(p, a.log, desired, rolls[2]);
    } else {
      var (sid, key) := a.result.value;
      Beginning(p, rolls[0], rolls[1], script, sid, key);
      var b := ReadRun(p, sid, key, rolls[1], a.rest);
      if b.result.Raised? || b.result.value == desired {
        QuietLog(p, a.log + b.log, desired, rolls[2]);
      } else {
        var q := WriteLeaves(p, sid, key, desired, rolls[2], rolls[3], b.rest);
        var c := WriteRun(p, sid, key, desired, rolls[2], rolls[3], b.rest);
        hide OpenedAndRead, WritesFirst;
        WrittenLog(p, a.log + b.log, c.log, |a.log| - 1, sid, key, desired, rolls[2]);
      }
    }
  }

  /** A normal return is the requested value, and a session-checked read after any write showed it. */
  lemma SetPowerReturnsWhatItRead(p: Setup, desired: bool, rolls: seq<Roll>, script: seq<NetEvent>)
    requires |rolls| == 4 && SetPowerRun(p, desired, rolls, script).result.Returned?
    ensures SetPowerRun(p, desired, rolls, script).result.value == desired
    ensures ShownAfterWrites(p, SetPowerRun(p, desired, rolls, script).log, desired)
  {
    hide ShownAfterWrites, Ends, Shows, IsWrite, PropertyRequest, EndsWithRead, AuthRun, ReadRun, WriteRun;
    hide OpenedAndRead, WritesFirst;
    var a := AuthRun(p, rolls[0], script);
    var (sid, key) := a.result.value;
    Beginning(p, rolls[0], rolls[1], script, sid, key);
    var b := ReadRun(p, sid, key, rolls[1], a.rest);
    if b.result.value == desired {
      FoundLog(p, a.log + b.log, |a.log| - 1, sid, key, desired);
    } else {
      var q := WriteLeaves(p, sid, key, desired, rolls[2], rolls[3], b.rest);
      var c := WriteRun(p, sid, key, desired, rolls[2], rolls[3], b.rest);
      ConfirmedLog(p, a.log + b.log, c.log, |a.log| - 1, sid, key, desired, q);
    }
  }

  // ---------------------------------------------------------------- how failures are classified

  /** A cancellation was met in what the run used of its script. */
  predicate WasMet(script: seq<NetEvent>, rest: seq<NetEvent>)
    requires |rest| <= |script|
  {
    Cancel in script[..|script| - |rest|]
  }

  lemma EscapedIs(p: Setup, log: Log, key: bytes)
    requires SessionKey(log) == key || forall i :: 0 <= i < |log| ==> log[i].Accepted? ==> log[i].step.AuthStep?
    ensures Escaped(p, log) <==> EscapedWith(p, key, log)
  {
    hide TextEscapes, OddProof, SessionKey;
    if i :| 0 <= i < |log| && Escaping(p, key, log[i]) {
      assert Escaping(p, SessionKey(log), log[i]);
    }
    if i :| 0 <= i < |log| && Escaping(p, SessionKey(log), log[i]) {
      assert Escaping(p, key, log[i]);
    }
  }

  lemma KeyOfWhole(p: Setup, before: Log, more: Log, j: nat, sid: nat, key: bytes)
    requires OpenedAndRead(p, before, j, sid, key)
    ensures SessionKey(before + more) == key
  {
    hide IsWrite;
    var log := before + more;
    assert forall i :: 0 <= i <= j ==> log[i] == before[i];
    KeyOf(log, j);
  }

  lemma BegunEscapesNothing(p: Setup, key: bytes, script: seq<NetEvent>)
    ensures Ends(p, key, script, script, [Begun], None)
  {
    ConsumesNothing(script);
  }

  /** How the run ends, told from its script and log alone. */
  predicate ClassifiedBy(p: Setup, script: seq<NetEvent>, t: PowerTrace)
  {
    && |t.rest| <= |script| && t.rest == script[|script| - |t.rest|..]
    && (t.result == WasCancelled <==> WasMet(script, t.rest))
    && (t.result == WasUncaught <==> Escaped(p, t.log))
    && (t.result == OutcomeUnknown <==>
          Begun in t.log && !t.result.Returned? && !WasMet(script, t.rest) && !Escaped(p, t.log))
    && (t.result == AlcsError <==>
          Begun !in t.log && !t.result.Returned? && !WasMet(script, t.rest) && !Escaped(p, t.log))
  }

  lemma EndsClassified(
    p: Setup, script: seq<NetEvent>, log: Log, rest: seq<NetEvent>, key: bytes, r: Res<bool>, attempted: bool)
    requires Ends(p, key, script, rest, log, FailureIn(r)) && (Escaped(p, log) <==> EscapedWith(p, key, log))
    requires attempted <==> Begun in log
    ensures ClassifiedBy(p, script, PowerTrace(Classified(r, attempted), log, rest))
  {
    hide Escaped, EscapedWith;
  }

  /**
   * set_power tells how it failed: cancelled exactly when a cancellation was met, an exception
   * that nobody catches exactly when an accepted reply escapes the parser, str or the comparison
   * of proofs, and otherwise outcome-unknown exactly when the write step had begun.
   */
  lemma SetPowerClassifies(p: Setup, desired: bool, rolls: seq<Roll>, script: seq<NetEvent>)
    requires |rolls| == 4
    ensures ClassifiedBy(p, script, SetPowerRun(p, desired, rolls, script))
  {
    hide ClassifiedBy, Escaped, EscapedWith, Consumes, Shows, IsWrite, PropertyRequest, EndsWithRead, AuthRun, ReadRun, WriteRun;
    var a := AuthRun(p, rolls[0], script);
    if a.result.Raised? {
      FailedAuth(p, rolls[0], script);
    } else {
      var (sid, key) := a.result.value;
      Beginning(p, rolls[0], rolls[1], script, sid, key);
      var b := ReadRun(p, sid, key, rolls[1], a.rest);
      hide Ends;
      if b.result.Raised? || b.result.value == desired {
        ClassifiedBeforeWrite(p, script, a.log + b.log, |a.log| - 1, sid, key, b);
      } else {
        var q := WriteLeaves(p, sid, key, desired, rolls[2], rolls[3], b.rest);
        ClassifiedAfterWrite(p, script, a.log + b.log, |a.log| - 1, sid, key, b,
                             WriteRun(p, sid, key, desired, rolls[2], rolls[3], b.rest));
      }
    }
  }

  lemma FailedAuth(p: Setup, roll: Roll, script: seq<NetEvent>)
    requires AuthRun(p, roll, script).result.Raised?
    ensures var a := AuthRun(p, roll, script);
      ClassifiedBy(p, script, PowerTrace(Classified(Raised(a.result.failure), false), a.log, a.rest))
  {
    hide ClassifiedBy, Escaped, EscapedWith, Consumes, AuthRun;
    var a := AuthRun(p, roll, script);
    AuthLeaves(p, roll, script, SessionKey(a.log));
    EscapedIs(p, a.log, SessionKey(a.log));
    EndsClassified(p, script, a.log, a.rest, SessionKey(a.log), Raised(a.result.failure), false);
  }

  lemma ClassifiedBeforeWrite(
    p: Setup, script: seq<NetEvent>, log: Log, j: nat, sid: nat, key: bytes, b: Trace<bool>)
    requires OpenedAndRead(p, log, j, sid, key) && Ends(p, key, script, b.rest, log, FailureIn(b.result))
    ensures ClassifiedBy(p, script, PowerTrace(Classified(b.result, false), log, b.rest))
  {
    assert Begun !in log;
    KeyOfWhole(p, log, [], j, sid, key);
    assert log + [] == log;
    hide *;
    EscapedIs(p, log, key);
    EndsClassified(p, script, log, b.rest, key, b.result, false);
  }

  lemma ClassifiedAfterWrite(
    p: Setup, script: seq<NetEvent>, before: Log, j: nat, sid: nat, key: bytes, b: Trace<bool>, c: Trace<bool>)
    requires OpenedAndRead(p, before, j, sid, key) && Ends(p, key, script, b.rest, before, None)
    requires Ends(p, key, b.rest, c.rest, c.log, FailureIn(c.result))
    ensures ClassifiedBy(p, script, PowerTrace(Classified(c.result, true), before + ([Begun] + c.log), c.rest))
  {
    var log := before + ([Begun] + c.log);
    KeyOfWhole(p, before, [Begun] + c.log, j, sid, key);
    assert log[|before|] == Begun;
    hide *;
    BegunEscapesNothing(p, key, b.rest);
    EndsThen(p, key, b.rest, b.rest, c.rest, [Begun], c.log, FailureIn(c.result));
    EndsThen(p, key, script, b.rest, c.rest, before, [Begun] + c.log, FailureIn(c.result));
    EscapedIs(p, log, key);
    EndsClassified(p, script, log, c.rest, key, c.result, true);
  }
}
