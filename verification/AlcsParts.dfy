/** What each part of a power transaction leaves: in its log, of its script, and how it ends. */
module AlcsParts {
  import opened Bytes
  import opened Logs
  import opened AlcsPower
  import Coap
  import AlcsCipher

  /** What was met of the script; the part ended by a cancellation if and only if one was met. */
  predicate Consumes(script: seq<NetEvent>, rest: seq<NetEvent>, cancelled: bool)
  {
    && |rest| <= |script| && rest == script[|script| - |rest|..]
    && (cancelled <==> Cancel in script[..|script| - |rest|])
  }

  lemma ConsumesThen(script: seq<NetEvent>, between: seq<NetEvent>, rest: seq<NetEvent>, cancelled: bool)
    requires Consumes(script, between, false) && Consumes(between, rest, cancelled)
    ensures Consumes(script, rest, cancelled)
  {
    var n, m := |script| - |between|, |between| - |rest|;
    assert script[..n + m] == script[..n] + between[..m];
    assert script[n + m..] == between[m..];
  }

  lemma ConsumesNothing(script: seq<NetEvent>)
    ensures Consumes(script, script, false)
  {}

  lemma ConsumesOne(script: seq<NetEvent>)
    requires script != []
    ensures Consumes(script, script[1..], script[0].Cancel?)
  {
    assert script[..1] == [script[0]];
  }

  lemma SendingConsumes(script: seq<NetEvent>)
    ensures Consumes(script, Sending(script).1, Sending(script).0 == Some(Cancelled))
    ensures Sending(script).0 != Some(Uncaught)
  {
    if script == [] {
      ConsumesNothing(script);
    } else {
      ConsumesOne(script);
    }
  }

  predicate Answers(e: Entry, step: Step, roll: Roll, session: Option<nat>)
  {
    e.Accepted? && e == Accepted(step, roll.mid, roll.token, roll.id, session, e.raw)
  }

  /** Acknowledgements, and after them the accepted reply if there is one. */
  predicate ReplyLog(log: Log, step: Step, roll: Roll, session: Option<nat>, r: Res<bytes>)
  {
    && (forall i :: 0 <= i < |log| ==> log[i].Acknowledged? || (r.Ok? && i == |log| - 1))
    && (r.Ok? ==>
          && log != []
          && var last := log[|log| - 1];
             Answers(last, step, roll, session) && Genuine(last) && PayloadOf(last.raw) == r.value)
  }

  /** What passed the filter is a genuine answer, with or without its acknowledgement. */
  lemma AcceptedReply(step: Step, session: Option<nat>, roll: Roll, data: bytes, acknowledged: Entry)
    requires Coap.Decode(data).Some? && Passes(Coap.Decode(data).value, roll.mid, roll.token, session)
    requires acknowledged.Acknowledged?
    ensures var e, r := Accepted(step, roll.mid, roll.token, roll.id, session, data), Ok(Coap.Decode(data).value.payload);
      ReplyLog([e], step, roll, session, r) && ReplyLog([acknowledged, e], step, roll, session, r)
    ensures forall f :: ReplyLog([acknowledged], step, roll, session, Raised(f)) && ReplyLog([], step, roll, session, Raised(f))
  {
    hide Coap.Decode, Passes;
  }

  lemma {:induction false} ReceivingLeaves(p: Setup, step: Step, session: Option<nat>, roll: Roll, script: seq<NetEvent>)
    ensures var t := Receiving(p, step, session, roll, script);
      && Consumes(script, t.rest, t.result == Raised(Cancelled)) && t.result != Raised(Uncaught)
      && ReplyLog(t.log, step, roll, session, t.result)
  {
    hide Coap.Decode, Passes, Sending, Consumes, ReplyLog;
    NoReply(step, roll, session, Some(Expected));
    NoReply(step, roll, session, Some(Cancelled));
    if script == [] {
      ConsumesNothing(script);
    } else {
      ConsumesOne(script);
      if script[0].Datagram? {
        var data := script[0].data;
        var d := Coap.Decode(data);
        if script[0].source != p.peer || d == None || !Passes(d.value, roll.mid, roll.token, session) {
          var t := Receiving(p, step, session, roll, script[1..]);
          ReceivingLeaves(p, step, session, roll, script[1..]);
          ConsumesThen(script, script[1..], t.rest, t.result == Raised(Cancelled));
        } else {
          AcceptedReply(step, session, roll, data, Acknowledged([0x60, 0x00] + ToBytes2(d.value.mid)));
          SendingConsumes(script[1..]);
          if d.value.kind == 0 {
            ConsumesThen(script, script[1..], Sending(script[1..]).1, Sending(script[1..]).0 == Some(Cancelled));
          }
        }
      }
    }
  }

  /** The request first; then a reply log. */
  predicate ExchangeLog(log: Log, step: Step, roll: Roll, session: Option<nat>, request: Option<bytes>, r: Res<bytes>)
  {
    if log == [] then !r.Ok?
    else
      && log[0].Sent? && request == Some(log[0].datagram)
      && log[0] == Sent(step, roll.mid, roll.token, log[0].datagram) && ReplyLog(log[1..], step, roll, session, r)
  }

  lemma ExchangeLeaves(
    p: Setup, step: Step, path: bytes, body: bytes, session: Option<nat>, roll: Roll, script: seq<NetEvent>)
    requires session.Some? ==> session.value <= 0xFFFF_FFFF
    ensures var t := ExchangeRun(p, step, path, body, session, roll, script);
      && Consumes(script, t.rest, t.result == Raised(Cancelled)) && t.result != Raised(Uncaught)
      && ExchangeLog(t.log, step, roll, session, Coap.Request(roll.mid, roll.token, path, body, SessionOptions(session)),
                     t.result)
  {
    hide Coap.Request, SessionOptions, Sending, ReplyLog, Receiving, Consumes;
    var request := Coap.Request(roll.mid, roll.token, path, body, SessionOptions(session));
    ConsumesNothing(script);
    SendingConsumes(script);
    var rest := Sending(script).1;
    NoReply(step, roll, session, Sending(script).0);
    if request.Some? && Sending(script).0 == None {
      var t := Receiving(p, step, session, roll, rest);
      ReceivingLeaves(p, step, session, roll, rest);
      ConsumesThen(script, rest, t.rest, t.result == Raised(Cancelled));
      assert ([Sent(step, roll.mid, roll.token, request.value)] + t.log)[1..] == t.log;
    } else if request.Some? {
      assert [Sent(step, roll.mid, roll.token, request.value)][1..] == [];
    }
  }

  lemma NoReply(step: Step, roll: Roll, session: Option<nat>, failure: Option<Failure>)
    ensures failure.Some? ==> ReplyLog([], step, roll, session, Raised(failure.value))
  {}

  // ---------------------------------------------------------------- escapes

  predicate EscapedWith(p: Setup, key: bytes, log: Log)
  {
    exists i :: 0 <= i < |log| && Escaping(p, key, log[i])
  }

  lemma EscapedConcat(p: Setup, key: bytes, a: Log, b: Log)
    ensures EscapedWith(p, key, a + b) <==> EscapedWith(p, key, a) || EscapedWith(p, key, b)
  {
    hide Escaping;
    var log := a + b;
    if i :| 0 <= i < |a| && Escaping(p, key, a[i]) {
      assert log[i] == a[i];
    }
    if i :| 0 <= i < |b| && Escaping(p, key, b[i]) {
      assert log[|a| + i] == b[i];
    }
  }

  /** Only an accepted reply can make the client raise what nobody catches. */
  lemma ExchangeEscapes(
    p: Setup, key: bytes, log: Log, step: Step, roll: Roll, session: Option<nat>, request: Option<bytes>, r: Res<bytes>)
    requires ExchangeLog(log, step, roll, session, request, r)
    ensures EscapedWith(p, key, log) <==> r.Ok? && Escaping(p, key, log[|log| - 1])
  {
    hide Genuine, PayloadOf, TextEscapes, OddProof;
    if log != [] {
      var tail := log[1..];
      assert forall i :: 1 <= i < |log| ==> log[i] == tail[i - 1];
    }
  }

  lemma SessionEscapes(p: Setup, nonce: string, id: nat, payload: bytes)
    ensures SessionIn(p, nonce, id, payload) == Raised(Uncaught) <==> TextEscapes(p, payload) || OddProof(p, id, payload)
    ensures SessionIn(p, nonce, id, payload) != Raised(Cancelled)
  {}

  lemma PropertyEscapes(p: Setup, key: bytes, id: nat, payload: bytes)
    ensures PropertyIn(p, key, id, payload) == Raised(Uncaught)
       <==> var clear := AlcsCipher.Decrypt(p.dec, payload, key); clear.Some? && TextEscapes(p, clear.value)
    ensures PropertyIn(p, key, id, payload) != Raised(Cancelled)
  {
    hide AlcsCipher.Decrypt;
  }

  // ---------------------------------------------------------------- authentication and properties

  predicate IsWrite(e: Entry)
  {
    e.Sent? && e.step.WriteStep?
  }

  /** A part of the log without writes, sessions or the start of the write step. */
  predicate Harmless(log: Log)
  {
    forall i :: 0 <= i < |log| ==> !IsWrite(log[i]) && !log[i].Begun? && !log[i].Opened?
  }

  /** Authentication writes nothing, and opens a session with its last entry only if it succeeds. */
  lemma AuthLeaves(p: Setup, roll: Roll, script: seq<NetEvent>, key: bytes)
    ensures var t := AuthRun(p, roll, script);
      && Consumes(script, t.rest, t.result == Raised(Cancelled))
      && (t.result == Raised(Uncaught) <==> EscapedWith(p, key, t.log))
      && (t.result.Raised? ==> Harmless(t.log))
      && (t.result.Ok? ==>
            && t.log != [] && Harmless(t.log[..|t.log| - 1])
            && t.log[|t.log| - 1] == Opened(t.result.value.0, t.result.value.1))
  {
    hide Coap.Request, Genuine, TextEscapes, OddProof, Consumes, SessionIn, PayloadOf;
    var body := p.authBody(roll.nonce, roll.id);
    var t := ExchangeRun(p, AuthStep, p.authPath, body, None, roll, script);
    ExchangeLeaves(p, AuthStep, p.authPath, body, None, roll, script);
    hide ExchangeRun;
    var request := Coap.Request(roll.mid, roll.token, p.authPath, body, SessionOptions(None));
    ExchangeEscapes(p, key, t.log, AuthStep, roll, None, request, t.result);
    ExchangeIsHarmless(t.log, AuthStep, roll, None, request, t.result);
    if t.result.Ok? {
      SessionEscapes(p, roll.nonce, roll.id, t.result.value);
      LastOfExchange(t.log, AuthStep, roll, None, request, t.result);
      var session := SessionIn(p, roll.nonce, roll.id, t.result.value);
      if session.Ok? {
        var end := [Opened(session.value.0, session.value.1)];
        EscapedConcat(p, key, t.log, end);
        assert (t.log + end)[..|t.log|] == t.log;
      }
    }
  }

  lemma ExchangeIsHarmless(
    log: Log, step: Step, roll: Roll, session: Option<nat>, request: Option<bytes>, r: Res<bytes>)
    requires ExchangeLog(log, step, roll, session, request, r)
    ensures forall i :: 0 <= i < |log| ==> !log[i].Begun? && !log[i].Opened? && (IsWrite(log[i]) ==> i == 0 && step.WriteStep?)
  {
    hide Genuine, PayloadOf;
    if log != [] {
      var tail := log[1..];
      assert forall i :: 1 <= i < |log| ==> log[i] == tail[i - 1];
    }
  }

  lemma LastOfExchange(
    log: Log, step: Step, roll: Roll, session: Option<nat>, request: Option<bytes>, r: Res<bytes>)
    requires ExchangeLog(log, step, roll, session, request, r) && r.Ok?
    ensures |log| >= 2 && log[0].Sent? && log[0].step == step && log[0].mid == roll.mid && log[0].token == roll.token
    ensures Answers(log[|log| - 1], step, roll, session) && Genuine(log[|log| - 1])
    ensures PayloadOf(log[|log| - 1].raw) == r.value
  {
    hide Genuine, PayloadOf;
    assert log[1..][|log| - 2] == log[|log| - 1];
  }

  /** A property request: what it sends, and what a success rests on. */
  lemma PropertyLeaves(p: Setup, sid: nat, key: bytes, write: Option<bool>, roll: Roll, script: seq<NetEvent>)
    requires sid <= 0xFFFF_FFFF
    ensures var t := PropertyRun(p, sid, key, write, roll, script);
      && Consumes(script, t.rest, t.result == Raised(Cancelled))
      && (t.result == Raised(Uncaught) <==> EscapedWith(p, key, t.log))
      && (forall i :: 0 <= i < |t.log| ==>
            !t.log[i].Begun? && !t.log[i].Opened? && (IsWrite(t.log[i]) ==> i == 0 && write.Some?))
      && (t.log != [] ==> t.log[0].Sent? && PropertyRequest(p, sid, key, write, roll) == Some(t.log[0].datagram))
      && (t.result.Ok? ==>
            && |t.log| >= 2 && t.log[0].mid == roll.mid && t.log[0].token == roll.token
            && t.log[0].step == (if write.Some? then WriteStep else ReadStep)
            && var last := t.log[|t.log| - 1];
               Genuine(last) && Answers(last, t.log[0].step, roll, Some(sid))
               && PropertyIn(p, key, roll.id, PayloadOf(last.raw)) == t.result)
  {
    hide Coap.Request, Genuine, TextEscapes, OddProof, Consumes, PropertyIn, AlcsCipher.Encrypt, AlcsCipher.Decrypt;
    hide SessionOptions, PayloadOf;
    var body := AlcsCipher.Encrypt(p.enc, p.propertyBody(write, roll.id), key);
    ConsumesNothing(script);
    if body.Some? {
      var step, path := if write.Some? then WriteStep else ReadStep, if write.Some? then p.setPath else p.getPath;
      var t := ExchangeRun(p, step, path, body.value, Some(sid), roll, script);
      ExchangeLeaves(p, step, path, body.value, Some(sid), roll, script);
      hide ExchangeRun;
      var request := Coap.Request(roll.mid, roll.token, path, body.value, SessionOptions(Some(sid)));
      ExchangeEscapes(p, key, t.log, step, roll, Some(sid), request, t.result);
      ExchangeIsHarmless(t.log, step, roll, Some(sid), request, t.result);
      if t.result.Ok? {
        LastOfExchange(t.log, step, roll, Some(sid), request, t.result);
        PropertyEscapes(p, key, roll.id, t.result.value);
      }
      hide ReplyLog;
    }
  }

  // ---------------------------------------------------------------- reads and the write

  function PowerRead(p: Setup, key: bytes, id: nat, raw: bytes): Option<bool>
  {
    var data := PropertyIn(p, key, id, PayloadOf(raw));
    if data.Ok? then Power(data.value) else None
  }

  /** The log ends with a read of this power in this session, requested by entry q. */
  predicate EndsWithRead(p: Setup, log: Log, q: nat, sid: nat, key: bytes, v: bool)
  {
    && q + 1 < |log|
    && var last := log[|log| - 1];
    && Genuine(last) && last.session == Some(sid) && last.step == ReadStep
    && log[q].Sent? && log[q].step == ReadStep && log[q].mid == last.mid && log[q].token == last.token
    && PowerRead(p, key, last.id, last.raw) == Some(v)
  }

  lemma ReadEndsLater(p: Setup, before: Log, log: Log, q: nat, sid: nat, key: bytes, v: bool)
    requires EndsWithRead(p, log, q, sid, key, v)
    ensures EndsWithRead(p, before + log, |before| + q, sid, key, v) && |log| >= 2
  {
    hide Genuine, PowerRead;
    assert (before + log)[|before| + q] == log[q];
  }

  /** A part of the log whose first entry alone may be a write. */
  predicate WritesFirst(log: Log)
  {
    forall i :: 0 <= i < |log| ==> !log[i].Begun? && !log[i].Opened? && (IsWrite(log[i]) ==> i == 0)
  }

  lemma WriteThenRead(a: Log, b: Log)
    requires WritesFirst(a) && Harmless(b) && a != []
    ensures WritesFirst(a + b) && (a + b)[0] == a[0]
  {
    hide IsWrite;
  }

  /** How a part of the run ends. */
  predicate Ends(p: Setup, key: bytes, script: seq<NetEvent>, rest: seq<NetEvent>, log: Log, failure: Option<Failure>)
  {
    Consumes(script, rest, failure == Some(Cancelled)) && (failure == Some(Uncaught) <==> EscapedWith(p, key, log))
  }

  function FailureIn<T>(r: Res<T>): Option<Failure>
  {
    match r case Ok(_) => None case Raised(f) => Some(f)
  }

  lemma EndsThen(
    p: Setup, key: bytes, script: seq<NetEvent>, between: seq<NetEvent>, rest: seq<NetEvent>, a: Log, b: Log,
    failure: Option<Failure>)
    requires Ends(p, key, script, between, a, None) && Ends(p, key, between, rest, b, failure)
    ensures Ends(p, key, script, rest, a + b, failure)
  {
    hide EscapedWith, Consumes;
    ConsumesThen(script, between, rest, failure == Some(Cancelled));
    EscapedConcat(p, key, a, b);
  }

  lemma ReadLeaves(p: Setup, sid: nat, key: bytes, roll: Roll, script: seq<NetEvent>)
    requires sid <= 0xFFFF_FFFF
    ensures var t := ReadRun(p, sid, key, roll, script);
      && Ends(p, key, script, t.rest, t.log, FailureIn(t.result)) && Harmless(t.log)
      && (t.result.Ok? ==> EndsWithRead(p, t.log, 0, sid, key, t.result.value))
  {
    PropertyLeaves(p, sid, key, None, roll, script);
    ReadOfProperty(p, sid, key, roll, script);
    hide PropertyRun, PropertyRequest, Genuine, PropertyIn, PayloadOf, EscapedWith, Consumes, ReadRun;
  }

  /** A read is a property request whose data is looked at. */
  lemma ReadOfProperty(p: Setup, sid: nat, key: bytes, roll: Roll, script: seq<NetEvent>)
    requires sid <= 0xFFFF_FFFF
    ensures var t, u := PropertyRun(p, sid, key, None, roll, script), ReadRun(p, sid, key, roll, script);
      && u.log == t.log && u.rest == t.rest && (t.result.Raised? ==> FailureIn(u.result) == FailureIn(t.result))
      && (t.result.Ok? ==>
            u.result == if Power(t.result.value).Some? then Ok(Power(t.result.value).value) else Raised(Expected))
  {
    hide PropertyRun;
  }

  /** What a successful write leaves, followed by a read. */
  lemma WrittenThenRead(
    p: Setup, sid: nat, key: bytes, desired: bool, script: seq<NetEvent>, t: Trace<Json>, u: Trace<bool>, r: Res<bool>)
    requires Ends(p, key, script, t.rest, t.log, None) && WritesFirst(t.log) && t.log != []
    requires Ends(p, key, t.rest, u.rest, u.log, FailureIn(u.result)) && Harmless(u.log)
    requires u.result.Ok? ==> EndsWithRead(p, u.log, 0, sid, key, u.result.value)
    requires r == if u.result.Ok? && u.result.value != desired then Raised(Expected) else u.result
    ensures Ends(p, key, script, u.rest, t.log + u.log, FailureIn(r))
    ensures WritesFirst(t.log + u.log) && (t.log + u.log)[0] == t.log[0]
    ensures r.Ok? ==> r.value == desired && EndsWithRead(p, t.log + u.log, |t.log|, sid, key, desired)
  {
    WriteThenRead(t.log, u.log);
    hide WritesFirst, Harmless, Ends, EndsWithRead;
    EndsThen(p, key, script, t.rest, u.rest, t.log, u.log, FailureIn(u.result));
    ReadNeverEscapes(p, key, script, u.rest, t.log + u.log);
    if u.result.Ok? {
      ReadEndsLater(p, t.log, u.log, 0, sid, key, u.result.value);
    }
  }

  /** The write step: at most its first entry is a write, and a success ends with a later read of the value. */
  lemma WriteLeaves(
    p: Setup, sid: nat, key: bytes, desired: bool, third: Roll, fourth: Roll, script: seq<NetEvent>) returns (q: nat)
    requires sid <= 0xFFFF_FFFF
    ensures var t := WriteRun(p, sid, key, desired, third, fourth, script);
      && Ends(p, key, script, t.rest, t.log, FailureIn(t.result)) && WritesFirst(t.log)
      && (t.log != [] && IsWrite(t.log[0]) ==>
            t.log[0].Sent? && PropertyRequest(p, sid, key, Some(desired), third) == Some(t.log[0].datagram))
      && (t.result.Ok? ==> t.result.value == desired && 0 < q && EndsWithRead(p, t.log, q, sid, key, desired))
  {
    var t := PropertyRun(p, sid, key, Some(desired), third, script);
    PropertyStep(p, sid, key, desired, third, script);
    q := |t.log|;
    hide PropertyRun, PropertyRequest, EndsWithRead, Ends, IsWrite, WritesFirst, Harmless;
    if t.result.Ok? {
      var u := ReadRun(p, sid, key, fourth, t.rest);
      ReadLeaves(p, sid, key, fourth, t.rest);
      hide ReadRun;
      WrittenThenRead(p, sid, key, desired, script, t, u,
                      if u.result.Ok? && u.result.value != desired then Raised(Expected) else u.result);
    }
  }

  lemma PropertyStep(p: Setup, sid: nat, key: bytes, desired: bool, roll: Roll, script: seq<NetEvent>)
    requires sid <= 0xFFFF_FFFF
    ensures var t := PropertyRun(p, sid, key, Some(desired), roll, script);
      && Ends(p, key, script, t.rest, t.log, FailureIn(t.result)) && WritesFirst(t.log)
      && (t.log != [] ==> t.log[0].Sent? && PropertyRequest(p, sid, key, Some(desired), roll) == Some(t.log[0].datagram))
      && (t.result.Ok? ==> t.log != [])
  {
    PropertyLeaves(p, sid, key, Some(desired), roll, script);
    hide PropertyRun, PropertyRequest, PropertyIn, Genuine, PayloadOf, Consumes, EscapedWith;
  }

  /** A read of the wrong value fails like any other: nothing was cancelled or escaped. */
  lemma ReadNeverEscapes(p: Setup, key: bytes, script: seq<NetEvent>, rest: seq<NetEvent>, log: Log)
    ensures Ends(p, key, script, rest, log, None) ==> Ends(p, key, script, rest, log, Some(Expected))
  {}
}
