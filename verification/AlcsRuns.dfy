/** Whole runs of set_power, told from the script and the texts: who was heard, what opened the session, when it returns. */
module AlcsRuns {
  import opened Bytes
  import opened AlcsPower
  import opened AlcsParts
  import opened AlcsResults
  import opened AlcsChecks
  import Coap
  import AlcsCipher

  /** Every accepted entry is a datagram of the device, met in the script, that responds to its own request. */
  ghost predicate HeardFrom(p: Setup, script: seq<NetEvent>, log: Log)
  {
    forall i :: 0 <= i < |log| && log[i].Accepted? ==> HeardEntry(p, script, log[i])
  }

  ghost predicate HeardEntry(p: Setup, script: seq<NetEvent>, e: Entry)
  {
    e.Accepted? && Datagram(e.raw, p.peer) in script && Responds(e.raw, e.mid, e.token, e.session, PayloadOf(e.raw))
  }

  lemma HeardThen(p: Setup, script: seq<NetEvent>, rest: seq<NetEvent>, a: Log, b: Log)
    requires HeardFrom(p, script, a) && HeardFrom(p, rest, b)
    requires |rest| <= |script| && rest == script[|script| - |rest|..]
    ensures HeardFrom(p, script, a + b)
  {
    hide Responds;
    var log := a + b;
    forall i | 0 <= i < |log| && log[i].Accepted? ensures HeardEntry(p, script, log[i]) {
      if i >= |a| {
        assert HeardEntry(p, rest, b[i - |a|]);
        var k :| 0 <= k < |rest| && rest[k] == Datagram(log[i].raw, p.peer);
        assert script[|script| - |rest| + k] == rest[k];
      }
    }
  }

  /** At most the last entry is a reply, and it is the one that the part returns. */
  predicate ReplyIsLast(log: Log, step: Step, roll: Roll, session: Option<nat>, r: Res<bytes>)
  {
    && (forall i :: 0 <= i < |log| && log[i].Accepted? ==>
          && i == |log| - 1 && log[i] == Accepted(step, roll.mid, roll.token, roll.id, session, log[i].raw)
          && r == Ok(PayloadOf(log[i].raw)))
    && (r.Ok? ==> log != [] && log[|log| - 1].Accepted?)
  }

  lemma FirstHeard(p: Setup, session: Option<nat>, roll: Roll, script: seq<NetEvent>) returns (k: nat)
    ensures k <= |script| && forall i :: 0 <= i < k ==> PassedOver(p, session, roll, script[i])
    ensures k < |script| ==> !PassedOver(p, session, roll, script[k])
  {
    hide PassedOver;
    k := 0;
    while k < |script| && PassedOver(p, session, roll, script[k])
      invariant k <= |script| && forall i :: 0 <= i < k ==> PassedOver(p, session, roll, script[i])
    {
      k := k + 1;
    }
  }

  lemma ReceivingHears(p: Setup, step: Step, session: Option<nat>, roll: Roll, script: seq<NetEvent>)
    ensures var t := Receiving(p, step, session, roll, script);
      HeardFrom(p, script, t.log) && ReplyIsLast(t.log, step, roll, session, t.result)
  {
    hide HeardFrom, ReplyIsLast, PassedOver, TakesResponse, Receiving;
    var k := FirstHeard(p, session, roll, script);
    ReceivingIs(p, step, session, roll, script, k);
    var t := Receiving(p, step, session, roll, script);
    if k < |script| && script[k].Datagram? {
      TakenIsHeard(p, step, session, roll, script, k, t);
    } else {
      NothingHeard(p, script, step, roll, session, t.result.failure);
    }
  }

  lemma TakenIsHeard(
    p: Setup, step: Step, session: Option<nat>, roll: Roll, script: seq<NetEvent>, k: nat, t: Trace<bytes>)
    requires k < |script| && script[k].Datagram? && TakesResponse(p, step, session, roll, script, k, t)
    ensures HeardFrom(p, script, t.log) && ReplyIsLast(t.log, step, roll, session, t.result)
  {
    hide Responds, IsConfirmable, Acknowledges, Sending, PayloadOf;
    assert Datagram(script[k].data, p.peer) == script[k];
  }

  lemma ExchangeHears(
    p: Setup, step: Step, path: bytes, body: bytes, session: Option<nat>, roll: Roll, script: seq<NetEvent>)
    requires session.Some? ==> session.value <= 0xFFFF_FFFF
    ensures var t := ExchangeRun(p, step, path, body, session, roll, script);
      HeardFrom(p, script, t.log) && ReplyIsLast(t.log, step, roll, session, t.result)
  {
    hide Coap.Request, SessionOptions, Sending, Receiving, Consumes, ReplyIsLast, HeardFrom;
    NothingHeard(p, script, step, roll, session, Expected);
    var request := Coap.Request(roll.mid, roll.token, path, body, SessionOptions(session));
    if request.Some? {
      var sent := Sent(step, roll.mid, roll.token, request.value);
      SendingTakes(script);
      var rest := Sending(script).1;
      if Sending(script).0 == None {
        ReceivingHears(p, step, session, roll, rest);
        var t := Receiving(p, step, session, roll, rest);
        SentFirst(p, script, rest, sent, t.log, step, roll, session, t.result);
      } else {
        OnlySent(p, script, sent, step, roll, session, Sending(script).0.value);
      }
    }
  }

  lemma SendingTakes(script: seq<NetEvent>)
    ensures var rest := Sending(script).1; |rest| <= |script| && rest == script[|script| - |rest|..]
  {}

  lemma NothingHeard(
    p: Setup, script: seq<NetEvent>, step: Step, roll: Roll, session: Option<nat>, failure: Failure)
    ensures HeardFrom(p, script, []) && ReplyIsLast([], step, roll, session, Raised(failure))
  {}

  lemma OnlySent(
    p: Setup, script: seq<NetEvent>, sent: Entry, step: Step, roll: Roll, session: Option<nat>, failure: Failure)
    requires sent.Sent?
    ensures HeardFrom(p, script, [sent]) && ReplyIsLast([sent], step, roll, session, Raised(failure))
  {}

  lemma SentFirst(
    p: Setup, script: seq<NetEvent>, rest: seq<NetEvent>, sent: Entry, log: Log, step: Step, roll: Roll,
    session: Option<nat>, r: Res<bytes>)
    requires sent.Sent? && HeardFrom(p, rest, log) && ReplyIsLast(log, step, roll, session, r)
    requires |rest| <= |script| && rest == script[|script| - |rest|..]
    ensures HeardFrom(p, script, [sent] + log) && ReplyIsLast([sent] + log, step, roll, session, r)
  {
    hide HeardFrom, PayloadOf, ReplyIsLast;
    OnlySent(p, script, sent, step, roll, session, Expected);
    HeardThen(p, script, rest, [sent], log);
    StillLast(sent, log, step, roll, session, r);
  }

  lemma StillLast(sent: Entry, log: Log, step: Step, roll: Roll, session: Option<nat>, r: Res<bytes>)
    requires sent.Sent? && ReplyIsLast(log, step, roll, session, r)
    ensures ReplyIsLast([sent] + log, step, roll, session, r)
  {
    hide PayloadOf;
    var more := [sent] + log;
    assert forall i :: 1 <= i < |more| ==> more[i] == log[i - 1];
  }

  // ---------------------------------------------------------------- the session

  /** Entry i is a reply to this authentication that proves the device and opens this session. */
  predicate ProvedBy(p: Setup, roll: Roll, log: Log, i: nat, sid: nat, key: bytes)
  {
    && i < |log| && log[i].Accepted? && log[i] == Accepted(AuthStep, roll.mid, roll.token, roll.id, None, log[i].raw)
    && SessionReply(p, roll.nonce, roll.id, PayloadOf(log[i].raw), sid, key)
  }

  /** A session is opened behind its proof, and every proof opens its session. */
  ghost predicate OpenedByProof(p: Setup, roll: Roll, log: Log)
  {
    && (forall j: nat :: j < |log| && log[j].Opened? ==>
          j > 0 && ProvedBy(p, roll, log, j - 1, log[j].sid, log[j].key))
    && (forall i: nat, sid: nat, key: bytes :: ProvedBy(p, roll, log, i, sid, key) ==>
          i + 1 < |log| && log[i + 1] == Opened(sid, key))
  }

  lemma {:induction false} AuthHears(p: Setup, roll: Roll, script: seq<NetEvent>)
    ensures var t := AuthRun(p, roll, script); HeardFrom(p, script, t.log) && OpenedByProof(p, roll, t.log)
  {
    hide SessionReply, SessionIn, PayloadOf, Responds, ExchangeRun, HeardFrom;
    var body := p.authBody(roll.nonce, roll.id);
    var t := ExchangeRun(p, AuthStep, p.authPath, body, None, roll, script);
    ExchangeHears(p, AuthStep, p.authPath, body, None, roll, script);
    ExchangeIsPlain(p, AuthStep, p.authPath, body, None, roll, script);
    if t.result.Ok? {
      var session := SessionIn(p, roll.nonce, roll.id, t.result.value);
      forall sid: nat, key: bytes
        ensures session == Ok((sid, key)) <==> SessionReply(p, roll.nonce, roll.id, t.result.value, sid, key)
      {
        SessionIff(p, roll.nonce, roll.id, t.result.value, sid, key);
      }
      if session.Ok? {
        var entry := Opened(session.value.0, session.value.1);
        NothingAccepted(p, script, entry);
        HeardThen(p, script, script, t.log, [entry]);
      }
    }
  }

  lemma NothingAccepted(p: Setup, script: seq<NetEvent>, e: Entry)
    requires !e.Accepted?
    ensures HeardFrom(p, script, [e])
  {}

  lemma ExchangeIsPlain(
    p: Setup, step: Step, path: bytes, body: bytes, session: Option<nat>, roll: Roll, script: seq<NetEvent>)
    requires session.Some? ==> session.value <= 0xFFFF_FFFF
    ensures var t := ExchangeRun(p, step, path, body, session, roll, script);
      forall i :: 0 <= i < |t.log| ==> !t.log[i].Opened? && !t.log[i].Begun?
  {
    ExchangeLeaves(p, step, path, body, session, roll, script);
    hide ExchangeRun, Coap.Request;
    var t := ExchangeRun(p, step, path, body, session, roll, script);
    ExchangeIsHarmless(
      t.log, step, roll, session, Coap.Request(roll.mid, roll.token, path, body, SessionOptions(session)), t.result);
    hide ExchangeLog;
  }

  // ---------------------------------------------------------------- property requests and reads

  /** All replies of the log are to property requests, and none opens a session. */
  predicate InSession(log: Log)
  {
    forall i :: 0 <= i < |log| ==> !log[i].Opened? && (log[i].Accepted? ==> log[i].step != AuthStep)
  }

  lemma PropertyHears(p: Setup, sid: nat, key: bytes, write: Option<bool>, roll: Roll, script: seq<NetEvent>)
    requires sid <= 0xFFFF_FFFF
    ensures var t := PropertyRun(p, sid, key, write, roll, script);
      && HeardFrom(p, script, t.log) && InSession(t.log)
      && (forall i :: 0 <= i < |t.log| && t.log[i].Accepted? ==>
            i == |t.log| - 1 && t.log[i].step == (if write.Some? then WriteStep else ReadStep) && t.log[i].id == roll.id
            && t.log[i].session == Some(sid)
            && t.result == PropertyIn(p, key, roll.id, PayloadOf(t.log[i].raw)))
  {
    hide AlcsCipher.Encrypt, PropertyIn, PayloadOf, HeardFrom, SessionOptions;
    var body := AlcsCipher.Encrypt(p.enc, p.propertyBody(write, roll.id), key);
    NothingHeard(p, script, ReadStep, roll, None, Expected);
    if body.Some? {
      var step, path := if write.Some? then WriteStep else ReadStep, if write.Some? then p.setPath else p.getPath;
      ExchangeHears(p, step, path, body.value, Some(sid), roll, script);
      ExchangeIsPlain(p, step, path, body.value, Some(sid), roll, script);
      hide ExchangeRun;
    }
  }

  /** A read succeeds with what its reply shows, and only then ends with a reply that shows it. */
  lemma {:induction false} ReadIff(p: Setup, sid: nat, key: bytes, roll: Roll, script: seq<NetEvent>, on: bool)
    requires sid <= 0xFFFF_FFFF
    ensures var t := ReadRun(p, sid, key, roll, script);
      t.result == Ok(on) <==>
        t.log != [] && t.log[|t.log| - 1].Accepted? && PowerRead(p, key, t.log[|t.log| - 1].id, t.log[|t.log| - 1].raw) == Some(on)
  {
    PropertyHears(p, sid, key, None, roll, script);
    ReadOfProperty(p, sid, key, roll, script);
    ReadLeaves(p, sid, key, roll, script);
    hide PropertyRun, PropertyIn, PayloadOf, ReadRun, HeardFrom, Ends, Harmless, Genuine, InSession;
  }

  lemma ReadHears(p: Setup, sid: nat, key: bytes, roll: Roll, script: seq<NetEvent>)
    requires sid <= 0xFFFF_FFFF
    ensures var t := ReadRun(p, sid, key, roll, script); HeardFrom(p, script, t.log) && InSession(t.log)
  {
    PropertyHears(p, sid, key, None, roll, script);
    ReadOfProperty(p, sid, key, roll, script);
    hide PropertyRun, PropertyIn, PayloadOf, ReadRun, HeardFrom, InSession;
  }

  lemma PropertyTakes(p: Setup, sid: nat, key: bytes, write: Option<bool>, roll: Roll, script: seq<NetEvent>)
    requires sid <= 0xFFFF_FFFF
    ensures var rest := PropertyRun(p, sid, key, write, roll, script).rest;
      |rest| <= |script| && rest == script[|script| - |rest|..]
  {
    PropertyLeaves(p, sid, key, write, roll, script);
    hide PropertyRun, PropertyIn, PropertyRequest, EscapedWith, Genuine, Answers;
  }

  lemma InSessionThen(a: Log, b: Log)
    requires InSession(a) && InSession(b)
    ensures InSession(a + b)
  {}

  lemma WriteIsHeard(p: Setup, sid: nat, key: bytes, desired: bool, roll: Roll, script: seq<NetEvent>)
    requires sid <= 0xFFFF_FFFF
    ensures var t := PropertyRun(p, sid, key, Some(desired), roll, script); HeardFrom(p, script, t.log) && InSession(t.log)
  {
    PropertyHears(p, sid, key, Some(desired), roll, script);
    hide *;
  }

  lemma WriteHears(p: Setup, sid: nat, key: bytes, desired: bool, third: Roll, fourth: Roll, script: seq<NetEvent>)
    requires sid <= 0xFFFF_FFFF
    ensures var t := WriteRun(p, sid, key, desired, third, fourth, script); HeardFrom(p, script, t.log) && InSession(t.log)
  {
    hide PropertyRun, HeardFrom, ReadRun, InSession;
    WriteIsHeard(p, sid, key, desired, third, script);
    PropertyTakes(p, sid, key, Some(desired), third, script);
    var t := PropertyRun(p, sid, key, Some(desired), third, script);
    if t.result.Ok? {
      var u := ReadRun(p, sid, key, fourth, t.rest);
      ReadHears(p, sid, key, fourth, t.rest);
      HeardThen(p, script, t.rest, t.log, u.log);
      InSessionThen(t.log, u.log);
    }
  }

  // ---------------------------------------------------------------- set_power

  lemma OpenedThenSession(p: Setup, roll: Roll, a: Log, b: Log)
    requires OpenedByProof(p, roll, a) && InSession(b)
    ensures OpenedByProof(p, roll, a + b)
  {
    hide SessionReply, PayloadOf;
    var log := a + b;
    forall j: nat | j < |log| && log[j].Opened? ensures j > 0 && ProvedBy(p, roll, log, j - 1, log[j].sid, log[j].key) {
      assert ProvedBy(p, roll, a, j - 1, log[j].sid, log[j].key);
    }
    forall i: nat, sid: nat, key: bytes | ProvedBy(p, roll, log, i, sid, key)
      ensures i + 1 < |log| && log[i + 1] == Opened(sid, key)
    {
      assert ProvedBy(p, roll, a, i, sid, key);
    }
  }

  /**
   * On any script: every reply that set_power goes by is a datagram of the device that responds
   * to its own request; and a session is opened right behind an authentication reply that proves
   * the device, by its text, and behind every such reply.
   */
  lemma {:induction false} SetPowerTrustsOnlyTheDevice(p: Setup, desired: bool, rolls: seq<Roll>, script: seq<NetEvent>)
    requires |rolls| == 4
    ensures HeardFrom(p, script, SetPowerRun(p, desired, rolls, script).log)
    ensures OpenedByProof(p, rolls[0], SetPowerRun(p, desired, rolls, script).log)
  {
    hide HeardFrom, OpenedByProof, InSession, AuthRun, ReadRun, WriteRun, ProvedBy, OpenedAndRead, Ends, Shows;
    var a := AuthRun(p, rolls[0], script);
    AuthHears(p, rolls[0], script);
    AuthConsumes(p, rolls[0], script);
    if a.result.Ok? {
      SidFits(p, rolls[0], script);
      var (sid, key) := a.result.value;
      var b := ReadRun(p, sid, key, rolls[1], a.rest);
      ReadHears(p, sid, key, rolls[1], a.rest);
      Beginning(p, rolls[0], rolls[1], script, sid, key);
      EndsTakes(p, key, script, b.rest, a.log + b.log, FailureIn(b.result));
      HeardThen(p, script, a.rest, a.log, b.log);
      OpenedThenSession(p, rolls[0], a.log, b.log);
      if b.result == Ok(!desired) {
        var c := WriteRun(p, sid, key, desired, rolls[2], rolls[3], b.rest);
        WriteHears(p, sid, key, desired, rolls[2], rolls[3], b.rest);
        BegunHears(p, b.rest, c.log);
        HeardThen(p, script, b.rest, a.log + b.log, [Begun] + c.log);
        OpenedThenSession(p, rolls[0], a.log + b.log, [Begun] + c.log);
      }
    }
  }

  lemma BegunHears(p: Setup, script: seq<NetEvent>, log: Log)
    requires HeardFrom(p, script, log) && InSession(log)
    ensures HeardFrom(p, script, [Begun] + log) && InSession([Begun] + log)
  {
    hide HeardEntry;
    var more := [Begun] + log;
    assert forall i :: 1 <= i < |more| ==> more[i] == log[i - 1];
  }

  lemma AuthConsumes(p: Setup, roll: Roll, script: seq<NetEvent>)
    ensures var rest := AuthRun(p, roll, script).rest; |rest| <= |script| && rest == script[|script| - |rest|..]
  {
    AuthLeaves(p, roll, script, []);
    hide AuthRun, EscapedWith, Harmless;
  }

  lemma EndsTakes(p: Setup, key: bytes, script: seq<NetEvent>, rest: seq<NetEvent>, log: Log, failure: Option<Failure>)
    requires Ends(p, key, script, rest, log, failure)
    ensures |rest| <= |script| && rest == script[|script| - |rest|..]
  {
    hide EscapedWith;
  }

  // ---------------------------------------------------------------- when it returns

  /** The last entry is the reply to a read in the opened session that shows this power. */
  ghost predicate EndsShowing(p: Setup, log: Log, on: bool)
  {
    log != [] && exists j: nat :: ShownInSession(p, log, j, on)
  }

  ghost predicate ShownInSession(p: Setup, log: Log, j: nat, on: bool)
    requires log != []
  {
    var last := log[|log| - 1];
    && j < |log| && log[j].Opened? && last.Accepted? && last.step == ReadStep && last.session == Some(log[j].sid)
    && PowerReply(p, log[j].key, last.id, PayloadOf(last.raw), on)
  }

  /** The last entry is the reply to a read in this session that shows this power. */
  predicate EndsWithReply(p: Setup, sid: nat, key: bytes, log: Log, on: bool)
  {
    && log != []
    && var last := log[|log| - 1];
    && last.Accepted? && last.step == ReadStep && last.session == Some(sid) && PowerRead(p, key, last.id, last.raw) == Some(on)
  }

  lemma ReplyIsLastOfAll(p: Setup, sid: nat, key: bytes, a: Log, b: Log, on: bool)
    requires b != []
    ensures EndsWithReply(p, sid, key, a + b, on) <==> EndsWithReply(p, sid, key, b, on)
  {
    hide PowerRead;
    assert (a + b)[|a + b| - 1] == b[|b| - 1];
  }

  lemma ShownIs(p: Setup, before: Log, log: Log, j: nat, sid: nat, key: bytes, on: bool)
    requires log != [] && j < |before| && before[j] == Opened(sid, key)
    requires forall i :: 0 <= i < |before + log| && (before + log)[i].Opened? ==> i == j
    ensures EndsShowing(p, before + log, on)
       <==> EndsWithReply(p, sid, key, log, on)
  {
    hide PowerRead, PowerReply, PayloadOf;
    var last := log[|log| - 1];
    assert (before + log)[|before + log| - 1] == last && (before + log)[j] == before[j];
    if last.Accepted? {
      PowerIff(p, key, last.id, last.raw, on);
    }
    if EndsWithReply(p, sid, key, log, on) {
      assert ShownInSession(p, before + log, j, on);
    }
  }

  lemma OneSession(a: Log, b: Log, j: nat)
    requires (forall i :: 0 <= i < |a| && a[i].Opened? ==> i == j) && InSession(b)
    ensures forall i :: 0 <= i < |a + b| && (a + b)[i].Opened? ==> i == j
  {}

  lemma NotShowing(p: Setup, log: Log, on: bool)
    requires log == [] || !log[|log| - 1].Accepted? || log[|log| - 1].step != ReadStep
          || forall i :: 0 <= i < |log| ==> !log[i].Opened?
    ensures !EndsShowing(p, log, on)
  {
    hide PowerReply;
  }

  lemma {:induction false} WriteIff(p: Setup, sid: nat, key: bytes, desired: bool, third: Roll, fourth: Roll, script: seq<NetEvent>)
    requires sid <= 0xFFFF_FFFF
    ensures var t := WriteRun(p, sid, key, desired, third, fourth, script);
      (t.result.Ok? ==> t.result.value == desired) && (t.result.Ok? <==> EndsWithReply(p, sid, key, t.log, desired))
  {
    WriteEndsOtherwise(p, sid, key, desired, third, script);
    hide EndsWithReply, ReadRun, PropertyRun;
    var t := PropertyRun(p, sid, key, Some(desired), third, script);
    if t.result.Ok? {
      var u := ReadRun(p, sid, key, fourth, t.rest);
      ReadStepIff(p, sid, key, fourth, t.rest, desired);
      if u.log != [] {
        ReplyIsLastOfAll(p, sid, key, t.log, u.log, desired);
      } else {
        assert t.log + u.log == t.log;
        NoReplyAtAll(p, sid, key, desired);
      }
    }
  }

  lemma NoReplyAtAll(p: Setup, sid: nat, key: bytes, on: bool)
    ensures !EndsWithReply(p, sid, key, [], on)
  {}

  lemma WriteEndsOtherwise(p: Setup, sid: nat, key: bytes, desired: bool, roll: Roll, script: seq<NetEvent>)
    requires sid <= 0xFFFF_FFFF
    ensures !EndsWithReply(p, sid, key, PropertyRun(p, sid, key, Some(desired), roll, script).log, desired)
  {
    PropertyHears(p, sid, key, Some(desired), roll, script);
    hide PropertyRun, PropertyIn, PayloadOf, HeardFrom, InSession, PowerRead;
  }

  lemma {:induction false} ReadStepIff(p: Setup, sid: nat, key: bytes, roll: Roll, script: seq<NetEvent>, on: bool)
    requires sid <= 0xFFFF_FFFF
    ensures var t := ReadRun(p, sid, key, roll, script); t.result == Ok(on) <==> EndsWithReply(p, sid, key, t.log, on)
  {
    PropertyHears(p, sid, key, None, roll, script);
    ReadOfProperty(p, sid, key, roll, script);
    ReadIff(p, sid, key, roll, script, on);
    hide PropertyRun, PropertyIn, PayloadOf, ReadRun, HeardFrom, InSession, PowerRead;
  }

  /**
   * On any script set_power returns if and only if the last thing that happened is a reply to a
   * read in its session that shows the requested power; and what it returns is the request.
   */
  lemma {:induction false} SetPowerReturnsIff(p: Setup, desired: bool, rolls: seq<Roll>, script: seq<NetEvent>)
    requires |rolls| == 4
    ensures var t := SetPowerRun(p, desired, rolls, script);
      && (t.result.Returned? <==> EndsShowing(p, t.log, desired))
      && (t.result.Returned? ==> t.result.value == desired)
  {
    hide EndsShowing, InSession, AuthRun, ReadRun, WriteRun, OpenedAndRead, Ends, Shows, PowerRead;
    var a := AuthRun(p, rolls[0], script);
    if a.result.Raised? {
      AuthOpensNothing(p, rolls[0], script);
      NotShowing(p, a.log, desired);
    } else {
      SidFits(p, rolls[0], script);
      var (sid, key) := a.result.value;
      var b := ReadRun(p, sid, key, rolls[1], a.rest);
      AfterOpening(p, desired, rolls, script, sid, key);
    }
  }

  lemma BegunIsNoReply(p: Setup, sid: nat, key: bytes, on: bool)
    ensures !EndsWithReply(p, sid, key, [Begun], on)
  {}

  lemma AuthOpensNothing(p: Setup, roll: Roll, script: seq<NetEvent>)
    requires AuthRun(p, roll, script).result.Raised?
    ensures var log := AuthRun(p, roll, script).log; forall i :: 0 <= i < |log| ==> !log[i].Opened?
  {
    AuthLeaves(p, roll, script, []);
    hide AuthRun, EscapedWith, Consumes;
  }

  lemma AuthOpensOne(p: Setup, roll: Roll, script: seq<NetEvent>, sid: nat, key: bytes)
    requires AuthRun(p, roll, script).result == Ok((sid, key))
    ensures var log := AuthRun(p, roll, script).log;
      && log != [] && log[|log| - 1] == Opened(sid, key) && forall i :: 0 <= i < |log| && log[i].Opened? ==> i == |log| - 1
  {
    AuthLeaves(p, roll, script, []);
    hide AuthRun, EscapedWith, Consumes;
    var log := AuthRun(p, roll, script).log;
    assert forall i :: 0 <= i < |log| - 1 ==> log[i] == log[..|log| - 1][i];
  }

  lemma {:induction false} AfterOpening(p: Setup, desired: bool, rolls: seq<Roll>, script: seq<NetEvent>, sid: nat, key: bytes)
    requires |rolls| == 4 && AuthRun(p, rolls[0], script).result == Ok((sid, key)) && sid <= 0xFFFF_FFFF
    ensures var t := SetPowerRun(p, desired, rolls, script);
      && (t.result.Returned? <==> EndsShowing(p, t.log, desired))
      && (t.result.Returned? ==> t.result.value == desired)
  {
    hide EndsShowing, InSession, AuthRun, ReadRun, WriteRun, HeardFrom, EndsWithReply;
    var a := AuthRun(p, rolls[0], script);
    var b := ReadRun(p, sid, key, rolls[1], a.rest);
    var j := |a.log| - 1;
    AuthOpensOne(p, rolls[0], script, sid, key);
    ReadHears(p, sid, key, rolls[1], a.rest);
    ReadStepIff(p, sid, key, rolls[1], a.rest, desired);
    OneSession(a.log, b.log, j);
    if b.result == Ok(!desired) {
      var c := WriteRun(p, sid, key, desired, rolls[2], rolls[3], b.rest);
      WriteHears(p, sid, key, desired, rolls[2], rolls[3], b.rest);
      WriteIff(p, sid, key, desired, rolls[2], rolls[3], b.rest);
      BegunHears(p, b.rest, c.log);
      OneSession(a.log + b.log, [Begun] + c.log, j);
      ShownIs(p, a.log + b.log, [Begun] + c.log, j, sid, key, desired);
      if c.log != [] {
        ReplyIsLastOfAll(p, sid, key, [Begun], c.log, desired);
      } else {
        NoReplyAtAll(p, sid, key, desired);
        BegunIsNoReply(p, sid, key, desired);
        assert [Begun] + c.log == [Begun];
      }
    } else if b.log != [] {
      ShownIs(p, a.log, b.log, j, sid, key, desired);
    } else {
      assert a.log + b.log == a.log;
      NoReplyAtAll(p, sid, key, desired);
      NotShowing(p, a.log, desired);
    }
  }

  lemma ReadLastOnly(p: Setup, sid: nat, key: bytes, roll: Roll, script: seq<NetEvent>)
    requires sid <= 0xFFFF_FFFF
    ensures var log := ReadRun(p, sid, key, roll, script).log;
      forall i :: 0 <= i < |log| && log[i].Accepted? ==>
        i == |log| - 1 && log[i].step == ReadStep && log[i].session == Some(sid)
  {
    PropertyHears(p, sid, key, None, roll, script);
    ReadOfProperty(p, sid, key, roll, script);
    hide PropertyRun, PropertyIn, PayloadOf, ReadRun, HeardFrom, InSession;
  }

  // ---------------------------------------------------------------- what follows what

  /** The log begins with this request, if there is one. */
  predicate StartsWith(log: Log, step: Step, roll: Roll, request: Option<bytes>)
  {
    request.Some? ==> log != [] && log[0] == Sent(step, roll.mid, roll.token, request.value)
  }

  lemma ExchangeStarts(
    p: Setup, step: Step, path: bytes, body: bytes, session: Option<nat>, roll: Roll, script: seq<NetEvent>)
    requires session.Some? ==> session.value <= 0xFFFF_FFFF
    ensures StartsWith(ExchangeRun(p, step, path, body, session, roll, script).log, step, roll,
                       Coap.Request(roll.mid, roll.token, path, body, SessionOptions(session)))
  {
    hide Coap.Request, Receiving, Sending, SessionOptions;
  }

  lemma PropertyStarts(p: Setup, sid: nat, key: bytes, write: Option<bool>, roll: Roll, script: seq<NetEvent>)
    requires sid <= 0xFFFF_FFFF
    ensures StartsWith(PropertyRun(p, sid, key, write, roll, script).log, if write.Some? then WriteStep else ReadStep, roll,
                       PropertyRequest(p, sid, key, write, roll))
  {
    hide AlcsCipher.Encrypt, PropertyIn, SessionOptions, Coap.Request;
    var body := AlcsCipher.Encrypt(p.enc, p.propertyBody(write, roll.id), key);
    if body.Some? {
      ExchangeStarts(p, if write.Some? then WriteStep else ReadStep, if write.Some? then p.setPath else p.getPath, body.value,
                     Some(sid), roll, script);
    }
    hide ExchangeRun;
  }

  lemma ReadStarts(p: Setup, sid: nat, key: bytes, roll: Roll, script: seq<NetEvent>)
    requires sid <= 0xFFFF_FFFF
    ensures StartsWith(ReadRun(p, sid, key, roll, script).log, ReadStep, roll, PropertyRequest(p, sid, key, None, roll))
  {
    PropertyStarts(p, sid, key, None, roll, script);
    ReadOfProperty(p, sid, key, roll, script);
    hide PropertyRun, ReadRun, PropertyRequest;
  }

  /** The reply to the write has data, so the fresh read is asked for right behind it. */
  ghost predicate ThenReads(p: Setup, sid: nat, key: bytes, roll: Roll, log: Log)
    requires sid <= 0xFFFF_FFFF
  {
    forall i: nat, data: Json :: WriteReply(p, key, log, i, data) ==>
      StartsWith(log[i + 1..], ReadStep, roll, PropertyRequest(p, sid, key, None, roll))
  }

  ghost predicate WriteReply(p: Setup, key: bytes, log: Log, i: nat, data: Json)
  {
    i < |log| && log[i].Accepted? && log[i].step == WriteStep && DataReply(p, key, log[i].id, PayloadOf(log[i].raw), data)
  }

  lemma {:induction false} WriteStarts(
    p: Setup, sid: nat, key: bytes, desired: bool, third: Roll, fourth: Roll, script: seq<NetEvent>)
    requires sid <= 0xFFFF_FFFF
    ensures var log := WriteRun(p, sid, key, desired, third, fourth, script).log;
      && StartsWith(log, WriteStep, third, PropertyRequest(p, sid, key, Some(desired), third))
      && ThenReads(p, sid, key, fourth, log)
  {
    hide PropertyRun, ReadRun, PropertyRequest, DataReply, PayloadOf, HeardFrom, InSession, PropertyIn;
    var t := PropertyRun(p, sid, key, Some(desired), third, script);
    PropertyStarts(p, sid, key, Some(desired), third, script);
    PropertyHears(p, sid, key, Some(desired), third, script);
    var log := WriteRun(p, sid, key, desired, third, fourth, script).log;
    if t.result.Ok? {
      var u := ReadRun(p, sid, key, fourth, t.rest);
      ReadStarts(p, sid, key, fourth, t.rest);
      ReadLastOnly(p, sid, key, fourth, t.rest);
      assert log == t.log + u.log;
      forall i: nat, data: Json | WriteReply(p, key, log, i, data)
        ensures StartsWith(log[i + 1..], ReadStep, fourth, PropertyRequest(p, sid, key, None, fourth))
      {
        EntryOf([], t.log, u.log, i);
        assert [] + t.log + u.log == log;
        assert i == |t.log| - 1;
        assert log[i + 1..] == u.log;
      }
    } else {
      forall i: nat, data: Json | WriteReply(p, key, log, i, data) ensures false {
        DataIff(p, key, log[i].id, PayloadOf(log[i].raw), data);
      }
    }
  }

  /** Behind the opened session the power is read. */
  ghost predicate ReadsAfterOpening(p: Setup, roll: Roll, log: Log)
  {
    forall j: nat :: j < |log| && log[j].Opened? ==>
      log[j].sid <= 0xFFFF_FFFF
      && StartsWith(log[j + 1..], ReadStep, roll, PropertyRequest(p, log[j].sid, log[j].key, None, roll))
  }

  /** Behind a first read that shows the other power the write step begins, with the write request. */
  ghost predicate WritesAfterReading(p: Setup, desired: bool, roll: Roll, log: Log)
  {
    forall j: nat, i: nat :: j < i < |log| && log[j].Opened? && FirstReadShowsOther(p, log, j, i, desired) ==>
      && i + 1 < |log| && log[i + 1] == Begun && log[j].sid <= 0xFFFF_FFFF
      && StartsWith(log[i + 2..], WriteStep, roll, PropertyRequest(p, log[j].sid, log[j].key, Some(desired), roll))
  }

  ghost predicate FirstReadShowsOther(p: Setup, log: Log, j: nat, i: nat, desired: bool)
    requires j < i < |log| && log[j].Opened?
  {
    && log[i].Accepted? && log[i].step == ReadStep && (forall k :: j < k < i ==> !log[k].Accepted?)
    && PowerReply(p, log[j].key, log[i].id, PayloadOf(log[i].raw), !desired)
  }

  /** Behind a write that was answered with data the power is read afresh. */
  ghost predicate ReadsAfterWriting(p: Setup, roll: Roll, log: Log)
  {
    forall j: nat, i: nat, data: Json :: j < i && j < |log| && log[j].Opened? && WriteReply(p, log[j].key, log, i, data) ==>
      log[j].sid <= 0xFFFF_FFFF
      && StartsWith(log[i + 1..], ReadStep, roll, PropertyRequest(p, log[j].sid, log[j].key, None, roll))
  }

  lemma {:induction false} SetPowerAuthenticates(p: Setup, desired: bool, rolls: seq<Roll>, script: seq<NetEvent>)
    requires |rolls| == 4
    ensures StartsWith(SetPowerRun(p, desired, rolls, script).log, AuthStep, rolls[0],
                       Coap.Request(rolls[0].mid, rolls[0].token, p.authPath, p.authBody(rolls[0].nonce, rolls[0].id),
                                    SessionOptions(None)))
  {
    hide ExchangeRun, ReadRun, WriteRun, SessionIn, Coap.Request, SessionOptions;
    ExchangeStarts(p, AuthStep, p.authPath, p.authBody(rolls[0].nonce, rolls[0].id), None, rolls[0], script);
  }

  /** Behind an opened session the first read, behind a read of the other power the write step, and then a fresh read. */
  lemma {:induction false} SetPowerGoesOn(p: Setup, desired: bool, rolls: seq<Roll>, script: seq<NetEvent>)
    requires |rolls| == 4
    ensures var log := SetPowerRun(p, desired, rolls, script).log;
      && ReadsAfterOpening(p, rolls[1], log) && WritesAfterReading(p, desired, rolls[2], log)
      && ReadsAfterWriting(p, rolls[3], log)
  {
    hide ReadsAfterOpening, WritesAfterReading, ReadsAfterWriting, AuthRun, ReadRun, WriteRun;
    var a := AuthRun(p, rolls[0], script);
    if a.result.Raised? {
      AuthOpensNothing(p, rolls[0], script);
      NothingOpened(p, desired, rolls, a.log);
    } else {
      SidFits(p, rolls[0], script);
      RunInParts(p, desired, rolls, script, a.result.value.0, a.result.value.1);
    }
  }

  lemma {:induction false} RunInParts(p: Setup, desired: bool, rolls: seq<Roll>, script: seq<NetEvent>, sid: nat, key: bytes)
    requires |rolls| == 4 && AuthRun(p, rolls[0], script).result == Ok((sid, key)) && sid <= 0xFFFF_FFFF
    ensures var log := SetPowerRun(p, desired, rolls, script).log;
      && ReadsAfterOpening(p, rolls[1], log) && WritesAfterReading(p, desired, rolls[2], log)
      && ReadsAfterWriting(p, rolls[3], log)
  {
    hide ReadsAfterOpening, WritesAfterReading, ReadsAfterWriting, AuthRun, ReadRun, WriteRun, Parts;
    var a := AuthRun(p, rolls[0], script);
    var b := ReadRun(p, sid, key, rolls[1], a.rest);
    if b.result == Ok(!desired) {
      var c := WriteRun(p, sid, key, desired, rolls[2], rolls[3], b.rest);
      WritingParts(p, desired, rolls, script, sid, key);
      Transcript(p, desired, rolls, a.log, b.log, [Begun] + c.log, sid, key);
    } else {
      QuietParts(p, desired, rolls, script, sid, key);
      assert a.log + b.log + [] == a.log + b.log;
      Transcript(p, desired, rolls, a.log, b.log, [], sid, key);
    }
  }

  lemma {:induction false} QuietParts(p: Setup, desired: bool, rolls: seq<Roll>, script: seq<NetEvent>, sid: nat, key: bytes)
    requires |rolls| == 4 && AuthRun(p, rolls[0], script).result == Ok((sid, key)) && sid <= 0xFFFF_FFFF
    requires ReadRun(p, sid, key, rolls[1], AuthRun(p, rolls[0], script).rest).result != Ok(!desired)
    ensures var a := AuthRun(p, rolls[0], script);
      Parts(p, desired, rolls, a.log, ReadRun(p, sid, key, rolls[1], a.rest).log, [], sid, key)
  {
    hide AuthRun, ReadRun, HeardFrom, EndsWithReply, StartsWith, ThenReads;
    var a := AuthRun(p, rolls[0], script);
    AuthOpensOne(p, rolls[0], script, sid, key);
    ReadHears(p, sid, key, rolls[1], a.rest);
    ReadLastOnly(p, sid, key, rolls[1], a.rest);
    ReadStarts(p, sid, key, rolls[1], a.rest);
    ReadStepIff(p, sid, key, rolls[1], a.rest, !desired);
  }

  lemma {:induction false} WritingParts(p: Setup, desired: bool, rolls: seq<Roll>, script: seq<NetEvent>, sid: nat, key: bytes)
    requires |rolls| == 4 && AuthRun(p, rolls[0], script).result == Ok((sid, key)) && sid <= 0xFFFF_FFFF
    requires ReadRun(p, sid, key, rolls[1], AuthRun(p, rolls[0], script).rest).result == Ok(!desired)
    ensures var a := AuthRun(p, rolls[0], script); var b := ReadRun(p, sid, key, rolls[1], a.rest);
      Parts(p, desired, rolls, a.log, b.log, [Begun] + WriteRun(p, sid, key, desired, rolls[2], rolls[3], b.rest).log, sid, key)
  {
    hide AuthRun, ReadRun, WriteRun, HeardFrom, EndsWithReply, StartsWith, ThenReads, InSession;
    var a := AuthRun(p, rolls[0], script);
    var b := ReadRun(p, sid, key, rolls[1], a.rest);
    var c := WriteRun(p, sid, key, desired, rolls[2], rolls[3], b.rest);
    AuthOpensOne(p, rolls[0], script, sid, key);
    ReadHears(p, sid, key, rolls[1], a.rest);
    ReadLastOnly(p, sid, key, rolls[1], a.rest);
    ReadStarts(p, sid, key, rolls[1], a.rest);
    ReadStepIff(p, sid, key, rolls[1], a.rest, !desired);
    WriteHears(p, sid, key, desired, rolls[2], rolls[3], b.rest);
    WriteStarts(p, sid, key, desired, rolls[2], rolls[3], b.rest);
    BegunHears(p, b.rest, c.log);
    assert ([Begun] + c.log)[1..] == c.log;
  }

  /** Authentication, first read, and, if that showed the other power, the write step. */
  ghost predicate Parts(p: Setup, desired: bool, rolls: seq<Roll>, a: Log, b: Log, tail: Log, sid: nat, key: bytes)
    requires |rolls| == 4
  {
    && sid <= 0xFFFF_FFFF && a != [] && a[|a| - 1] == Opened(sid, key)
    && (forall i :: 0 <= i < |a| && a[i].Opened? ==> i == |a| - 1)
    && InSession(b) && InSession(tail)
    && (forall i :: 0 <= i < |b| && b[i].Accepted? ==> i == |b| - 1 && b[i].step == ReadStep && b[i].session == Some(sid))
    && StartsWith(b, ReadStep, rolls[1], PropertyRequest(p, sid, key, None, rolls[1]))
    && (tail != [] <==> EndsWithReply(p, sid, key, b, !desired))
    && (tail != [] ==>
          && tail[0] == Begun && StartsWith(tail[1..], WriteStep, rolls[2], PropertyRequest(p, sid, key, Some(desired), rolls[2]))
          && ThenReads(p, sid, key, rolls[3], tail[1..]))
  }

  lemma PartsRead(p: Setup, desired: bool, rolls: seq<Roll>, a: Log, b: Log, tail: Log, sid: nat, key: bytes)
    requires |rolls| == 4 && Parts(p, desired, rolls, a, b, tail, sid, key)
    ensures ReadsAfterOpening(p, rolls[1], a + b + tail)
  {
    hide PropertyRequest, EndsWithReply, ThenReads;
    var log := a + b + tail;
    forall j: nat | j < |log| && log[j].Opened?
      ensures log[j].sid <= 0xFFFF_FFFF
      ensures StartsWith(log[j + 1..], ReadStep, rolls[1], PropertyRequest(p, log[j].sid, log[j].key, None, rolls[1]))
    {
      OpenedAt(a, b, tail, j);
      assert log[j + 1..] == b + tail;
    }
  }

  lemma PartsWrite(p: Setup, desired: bool, rolls: seq<Roll>, a: Log, b: Log, tail: Log, sid: nat, key: bytes)
    requires |rolls| == 4 && Parts(p, desired, rolls, a, b, tail, sid, key)
    ensures WritesAfterReading(p, desired, rolls[2], a + b + tail)
  {
    hide PropertyRequest, ThenReads, PowerRead, PowerReply, PayloadOf;
    var log := a + b + tail;
    forall j: nat, i: nat | j < i < |log| && log[j].Opened? && FirstReadShowsOther(p, log, j, i, desired)
      ensures i + 1 < |log| && log[i + 1] == Begun && log[j].sid <= 0xFFFF_FFFF
      ensures StartsWith(log[i + 2..], WriteStep, rolls[2], PropertyRequest(p, log[j].sid, log[j].key, Some(desired), rolls[2]))
    {
      OpenedAt(a, b, tail, j);
      EntryOf(a, b, tail, i);
      EntryOf(a, b, tail, |a| + |b| - 1);
      PowerIff(p, key, log[i].id, log[i].raw, !desired);
      LastIsFirst(p, desired, rolls, a, b, tail, sid, key, i);
      assert log[i + 2..] == tail[1..];
    }
  }

  /** The first reply behind the opened session is the last entry of the first read. */
  lemma LastIsFirst(p: Setup, desired: bool, rolls: seq<Roll>, a: Log, b: Log, tail: Log, sid: nat, key: bytes, i: nat)
    requires |rolls| == 4 && Parts(p, desired, rolls, a, b, tail, sid, key)
    requires |a| - 1 < i < |a + b + tail| && FirstReadShowsOther(p, a + b + tail, |a| - 1, i, desired)
    requires (a + b + tail)[|a| - 1] == a[|a| - 1]
    ensures i == |a| + |b| - 1 && tail != [] && (a + b + tail)[i + 1] == tail[0]
  {
    hide PropertyRequest, ThenReads, PowerRead, PowerReply, PayloadOf, StartsWith;
    var log := a + b + tail;
    EntryOf(a, b, tail, i);
    PowerIff(p, key, log[i].id, log[i].raw, !desired);
    if i >= |a| + |b| {
      EntryOf(a, b, tail, |a| + |b| - 1);
      assert false;
    }
    EntryOf(a, b, tail, i + 1);
  }

  lemma EntryOf(a: Log, b: Log, tail: Log, i: nat)
    ensures i < |a + b + tail| ==>
      (a + b + tail)[i] == if i < |a| then a[i] else if i < |a| + |b| then b[i - |a|] else tail[i - |a| - |b|]
  {}

  lemma OpenedAt(a: Log, b: Log, tail: Log, j: nat)
    requires InSession(b) && InSession(tail) && j < |a + b + tail| && (a + b + tail)[j].Opened?
    requires forall i :: 0 <= i < |a| && a[i].Opened? ==> i == |a| - 1
    ensures j == |a| - 1 && (a + b + tail)[j] == a[j]
  {
    EntryOf(a, b, tail, j);
  }

  lemma PartsReadAgain(p: Setup, desired: bool, rolls: seq<Roll>, a: Log, b: Log, tail: Log, sid: nat, key: bytes)
    requires |rolls| == 4 && Parts(p, desired, rolls, a, b, tail, sid, key)
    ensures ReadsAfterWriting(p, rolls[3], a + b + tail)
  {
    hide PropertyRequest, EndsWithReply, PayloadOf, DataReply;
    var log := a + b + tail;
    forall j: nat, i: nat, data: Json | j < i && j < |log| && log[j].Opened? && WriteReply(p, log[j].key, log, i, data)
      ensures log[j].sid <= 0xFFFF_FFFF
      ensures StartsWith(log[i + 1..], ReadStep, rolls[3], PropertyRequest(p, log[j].sid, log[j].key, None, rolls[3]))
    {
      OpenedAt(a, b, tail, j);
      EntryOf(a, b, tail, i);
      var n := |a| + |b|;
      assert i > n;
      assert WriteReply(p, key, tail[1..], i - n - 1, data);
      assert log[i + 1..] == tail[1..][i - n..];
    }
  }

  lemma Transcript(p: Setup, desired: bool, rolls: seq<Roll>, a: Log, b: Log, tail: Log, sid: nat, key: bytes)
    requires |rolls| == 4 && Parts(p, desired, rolls, a, b, tail, sid, key)
    ensures ReadsAfterOpening(p, rolls[1], a + b + tail) && WritesAfterReading(p, desired, rolls[2], a + b + tail)
    ensures ReadsAfterWriting(p, rolls[3], a + b + tail)
  {
    hide *;
    PartsRead(p, desired, rolls, a, b, tail, sid, key);
    PartsWrite(p, desired, rolls, a, b, tail, sid, key);
    PartsReadAgain(p, desired, rolls, a, b, tail, sid, key);
  }

  lemma NothingOpened(p: Setup, desired: bool, rolls: seq<Roll>, log: Log)
    requires |rolls| == 4 && forall i :: 0 <= i < |log| ==> !log[i].Opened?
    ensures ReadsAfterOpening(p, rolls[1], log) && WritesAfterReading(p, desired, rolls[2], log)
    ensures ReadsAfterWriting(p, rolls[3], log)
  {}
}
