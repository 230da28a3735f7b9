/**
 * One power transaction of the ALCS client (protocols/alcs_experimental.py) against a network
 * that may lose, delay, duplicate or forge datagrams, fail any send, or cancel the caller at any
 * await: the script says what each await meets.  Every step leaves an entry in a log.
 *
 * Parsed JSON is a datatype; the JSON parser and printer, Python's str and int on text, the
 * HMAC and the block cipher are functions about which nothing is assumed.
 *
 * The run of a transaction is a function of its script; the methods, which work step by step as
 * the source does, compute it; AlcsParts and AlcsResults hold the lemmas about it.
 */
module AlcsPower {
  import opened Bytes
  import opened Logs
  import Coap
  import AlcsCipher
  import Models

  datatype Json =
    | Null | Bool(b: bool) | Int(n: int) | Float(r: real) | Text(s: string) | List
    | Object(fields: map<string, Json>)

  /** Escapes: the parser raises what no caller catches, such as a RecursionError. */
  datatype Parsed = Malformed | Escapes | Value(json: Json)

  datatype Setup = Setup(
    peer: Models.Endpoint,
    authPath: bytes, getPath: bytes, setPath: bytes,
    authBody: (string, nat) -> bytes,
    propertyBody: (Option<bool>, nat) -> bytes,
    parse: bytes -> Parsed,
    str: Json -> Option<string>,
    decimal: nat -> string,
    digits: string -> Option<nat>,
    proof: string -> string,
    sessionKey: (string, string) -> bytes,
    enc: AlcsCipher.BlockFunction,
    dec: AlcsCipher.BlockFunction)

  /** The random choices of one exchange. */
  datatype Roll = Roll(mid: u16, token: bytes, id: nat, nonce: string)

  /** What an await meets; a script that has run out lets sends pass and receives time out. */
  datatype NetEvent = Pass | Datagram(data: bytes, source: Models.Endpoint) | Fail | Cancel

  datatype Step = AuthStep | ReadStep | WriteStep

  datatype Entry =
    | Sent(step: Step, mid: u16, token: bytes, datagram: bytes)
    | Acknowledged(datagram: bytes)
    | Accepted(step: Step, mid: u16, token: bytes, id: nat, session: Option<nat>, raw: bytes)
    | Opened(sid: nat, key: bytes)
    | Begun

  type Log = seq<Entry>

  /** Expected: OSError, TimeoutError, ValueError or AlcsError; Uncaught: anything else. */
  datatype Failure = Expected | Cancelled | Uncaught

  datatype Res<+T> = Ok(value: T) | Raised(failure: Failure)

  /** An exchange or a larger part of a transaction: how it ends, what it logs, what it leaves of the script. */
  datatype Trace<+T> = Trace(result: Res<T>, log: Log, rest: seq<NetEvent>)

  // ---------------------------------------------------------------- what is accepted

  function ValuesOf(d: Coap.Decoded, n: int): seq<bytes>
  {
    if n in d.options then d.options[n] else []
  }

  /** Critical options that the client does not know, or a block transfer. */
  predicate Unsupported(d: Coap.Decoded)
  {
    23 in d.options || exists n :: n in d.options && n % 2 == 1 && n !in {11, 71}
  }

  predicate SessionMatches(d: Coap.Decoded, session: nat)
  {
    |ValuesOf(d, 71)| == 1 && 1 <= |ValuesOf(d, 71)[0]| <= 4 && FromBytes(ValuesOf(d, 71)[0]) == session
  }

  predicate FormatMatches(d: Coap.Decoded, session: Option<nat>)
  {
    var formats := ValuesOf(d, 12);
    |formats| <= 1
    && (|formats| == 1 ==>
          |formats[0]| <= 2 && FromBytes(formats[0]) in (if session.None? then {0, 50} else {42}))
  }

  /** The filter of the receiving loop. */
  predicate Passes(d: Coap.Decoded, mid: u16, token: bytes, session: Option<nat>)
  {
    && !(d.kind == 2 && d.code == 0 && d.mid == mid && d.token == [])
    && d.token == token && d.code == 69 && d.kind in {0, 1, 2}
    && (d.kind == 2 ==> d.mid == mid)
    && (session.Some? ==> SessionMatches(d, session.value))
    && FormatMatches(d, session)
    && !Unsupported(d)
  }

  function PayloadOf(raw: bytes): bytes
  {
    var d := Coap.Decode(raw);
    if d == None then [] else d.value.payload
  }

  /** An accepted datagram: it decodes, carries the token of its request and its session. */
  predicate Genuine(e: Entry)
  {
    e.Accepted? && Coap.Decode(e.raw).Some? && Passes(Coap.Decode(e.raw).value, e.mid, e.token, e.session)
  }

  function Field(json: Json, name: string): Json
  {
    if json.Object? && name in json.fields then json.fields[name] else Null
  }

  /** The checks that both kinds of reply share: id, code and data; str of a deeply nested id escapes. */
  function ReplyData(p: Setup, json: Json, id: nat): Res<Json>
  {
    if !json.Object? then Raised(Expected)
    else
      var shown := p.str(Field(json, "id"));
      if shown == None then Raised(Uncaught)
      else if shown.value != p.decimal(id) then Raised(Expected)
      else if Field(json, "code") !in {Int(200), Float(200.0)} || !Field(json, "data").Object? then Raised(Expected)
      else Ok(Field(json, "data"))
  }

  /** _power. */
  function Power(data: Json): Option<bool>
  {
    var direct := Field(data, "PowerSwitch");
    var value := if direct.Object? then Field(direct, "value") else direct;
    if value == Int(0) then Some(false) else if value == Int(1) then Some(true) else None
  }

  /** The property data in an accepted payload, under a session key. */
  function PropertyIn(p: Setup, key: bytes, id: nat, payload: bytes): Res<Json>
  {
    var clear := AlcsCipher.Decrypt(p.dec, payload, key);
    if clear == None then Raised(Expected)
    else
      match p.parse(clear.value)
      case Malformed => Raised(Expected)
      case Escapes => Raised(Uncaught)
      case Value(json) => ReplyData(p, json, id)
  }

  predicate Ascii(s: string)
  {
    forall i :: 0 <= i < |s| ==> s[i] as int < 128
  }

  /** re.fullmatch("[A-Za-z0-9]{15}", s). */
  predicate IsNonce(s: string)
  {
    |s| == 15 && forall i :: 0 <= i < |s| ==> 'A' <= s[i] <= 'Z' || 'a' <= s[i] <= 'z' || '0' <= s[i] <= '9'
  }

  /** The session that an authentication reply opens; comparing a proof that is not ASCII raises TypeError. */
  function SessionIn(p: Setup, nonce: string, id: nat, payload: bytes): Res<(nat, bytes)>
  {
    match p.parse(payload)
    case Malformed => Raised(Expected)
    case Escapes => Raised(Uncaught)
    case Value(json) =>
      var data := ReplyData(p, json, id);
      if data.Raised? then Raised(data.failure)
      else
        var server, sign := Field(data.value, "randomKey"), Field(data.value, "sign");
        var opt, sid := Field(data.value, "opt"), Field(data.value, "sessionId");
        if !server.Text? || !IsNonce(server.s) || !sign.Text? then Raised(Expected)
        else if !Ascii(sign.s) then Raised(Uncaught)
        else if sign.s != p.proof(server.s) then Raised(Expected)
        else if opt !in {Int(0), Int(1)} && "opt" in data.value.fields then Raised(Expected)
        else
          var number := if sid.Int? && sid.n >= 0 then Some(sid.n) else if sid.Text? then p.digits(sid.s) else None;
          if number == None || !(1 <= number.value <= 0xFFFF_FFFF) then Raised(Expected)
          else Ok((number.value, p.sessionKey(nonce, server.s)))
  }

  // ---------------------------------------------------------------- what no caller catches

  /** The text is parsed, or its id is shown, with an exception that no caller catches. */
  predicate TextEscapes(p: Setup, text: bytes)
  {
    var parsed := p.parse(text);
    parsed.Escapes? || (parsed.Value? && parsed.json.Object? && p.str(Field(parsed.json, "id")).None?)
  }

  /** An otherwise valid authentication reply whose proof is not ASCII. */
  predicate OddProof(p: Setup, id: nat, text: bytes)
  {
    var parsed := p.parse(text);
    && parsed.Value? && parsed.json.Object?
    && p.str(Field(parsed.json, "id")) == Some(p.decimal(id))
    && Field(parsed.json, "code") in {Int(200), Float(200.0)}
    && var data := Field(parsed.json, "data");
    && data.Object?
    && Field(data, "randomKey").Text? && IsNonce(Field(data, "randomKey").s)
    && Field(data, "sign").Text? && !Ascii(Field(data, "sign").s)
  }

  /** The payload of an accepted reply makes the client raise what no caller catches. */
  predicate Escaping(p: Setup, key: bytes, e: Entry)
  {
    e.Accepted? &&
    if e.step.AuthStep? then TextEscapes(p, PayloadOf(e.raw)) || OddProof(p, e.id, PayloadOf(e.raw))
    else
      var clear := AlcsCipher.Decrypt(p.dec, PayloadOf(e.raw), key);
      clear.Some? && TextEscapes(p, clear.value)
  }

  /** The key of the session that the log opens. */
  function SessionKey(log: Log): bytes
  {
    if log == [] then [] else if log[0].Opened? then log[0].key else SessionKey(log[1..])
  }

  predicate Escaped(p: Setup, log: Log)
  {
    exists i :: 0 <= i < |log| && Escaping(p, SessionKey(log), log[i])
  }

  // ---------------------------------------------------------------- one exchange

  /** session.to_bytes(4, "big"). */
  function SessionOption(session: nat): bytes
    requires session <= 0xFFFF_FFFF
  {
    var high := session / 0x100;
    var higher := high / 0x100;
    [higher / 0x100, higher % 0x100, high % 0x100, session % 0x100]
  }

  /** The session number of a request is the number that its reply has to repeat. */
  lemma SessionReadsBack(session: nat)
    requires session <= 0xFFFF_FFFF
    ensures FromBytes(SessionOption(session)) == session
  {
    FourOctets(SessionOption(session));
    hide FromBytes;
  }

  lemma FourOctets(s: bytes)
    requires |s| == 4
    ensures FromBytes(s) == 0x100 * (0x100 * (0x100 * (s[0] as int) + s[1]) + s[2]) + s[3]
  {
    FromBytes2(s[..2]);
    assert s[..3][..2] == s[..2];
    assert FromBytes(s[..3]) == 0x100 * FromBytes(s[..2]) + s[2];
  }

  function SessionOptions(session: Option<nat>): Coap.Options
    requires session.Some? ==> session.value <= 0xFFFF_FFFF
  {
    if session == None then [Coap.CoapOption(12, [0x32])]
    else [Coap.CoapOption(12, [0x2A]), Coap.CoapOption(71, SessionOption(session.value))]
  }

  /** How a send ends. */
  function Sending(script: seq<NetEvent>): (Option<Failure>, seq<NetEvent>)
  {
    if script == [] then (None, [])
    else
      match script[0]
      case Fail => (Some(Expected), script[1..])
      case Cancel => (Some(Cancelled), script[1..])
      case _ => (None, script[1..])
  }

  /** The receiving loop: whatever does not pass the filter is passed over. */
  function Receiving(p: Setup, step: Step, session: Option<nat>, roll: Roll, script: seq<NetEvent>): Trace<bytes>
  {
    if script == [] then Trace(Raised(Expected), [], [])
    else
      match script[0]
      case Pass => Trace(Raised(Expected), [], script[1..])
      case Fail => Trace(Raised(Expected), [], script[1..])
      case Cancel => Trace(Raised(Cancelled), [], script[1..])
      case Datagram(data, source) =>
        var d := Coap.Decode(data);
        if source != p.peer || d == None || !Passes(d.value, roll.mid, roll.token, session) then
          Receiving(p, step, session, roll, script[1..])
        else
          var accepted := Accepted(step, roll.mid, roll.token, roll.id, session, data);
          if d.value.kind != 0 then Trace(Ok(d.value.payload), [accepted], script[1..])
          else
            var acknowledged := Acknowledged([0x60, 0x00] + ToBytes2(d.value.mid));
            var (failure, rest) := Sending(script[1..]);
            if failure.Some? then Trace(Raised(failure.value), [acknowledged], rest)
            else Trace(Ok(d.value.payload), [acknowledged, accepted], rest)
  }

  /** _exchange. */
  function ExchangeRun(
    p: Setup, step: Step, path: bytes, body: bytes, session: Option<nat>, roll: Roll, script: seq<NetEvent>
  ): Trace<bytes>
    requires session.Some? ==> session.value <= 0xFFFF_FFFF
  {
    var datagram := Coap.Request(roll.mid, roll.token, path, body, SessionOptions(session));
    if datagram == None then Trace(Raised(Expected), [], script)
    else
      var sent := Sent(step, roll.mid, roll.token, datagram.value);
      var (failure, rest) := Sending(script);
      if failure.Some? then Trace(Raised(failure.value), [sent], rest)
      else
        var t := Receiving(p, step, session, roll, rest);
        t.(log := [sent] + t.log)
  }

  /** _auth. */
  function AuthRun(p: Setup, roll: Roll, script: seq<NetEvent>): Trace<(nat, bytes)>
  {
    var t := ExchangeRun(p, AuthStep, p.authPath, p.authBody(roll.nonce, roll.id), None, roll, script);
    if t.result.Raised? then Trace(Raised(t.result.failure), t.log, t.rest)
    else
      var session := SessionIn(p, roll.nonce, roll.id, t.result.value);
      Trace(session, if session.Ok? then t.log + [Opened(session.value.0, session.value.1)] else t.log, t.rest)
  }

  /** The request that reads the property, or writes the given value. */
  function PropertyRequest(p: Setup, sid: nat, key: bytes, write: Option<bool>, roll: Roll): Option<bytes>
    requires sid <= 0xFFFF_FFFF
  {
    var body := AlcsCipher.Encrypt(p.enc, p.propertyBody(write, roll.id), key);
    if body == None then None
    else Coap.Request(roll.mid, roll.token, if write.Some? then p.setPath else p.getPath, body.value,
                      SessionOptions(Some(sid)))
  }

  /** _property: a read, or a write of the given value. */
  function PropertyRun(p: Setup, sid: nat, key: bytes, write: Option<bool>, roll: Roll, script: seq<NetEvent>): Trace<Json>
    requires sid <= 0xFFFF_FFFF
  {
    var body := AlcsCipher.Encrypt(p.enc, p.propertyBody(write, roll.id), key);
    if body == None then Trace(Raised(Expected), [], script)
    else
      var t := ExchangeRun(p, if write.Some? then WriteStep else ReadStep, if write.Some? then p.setPath else p.getPath,
                           body.value, Some(sid), roll, script);
      if t.result.Raised? then Trace(Raised(t.result.failure), t.log, t.rest)
      else Trace(PropertyIn(p, key, roll.id, t.result.value), t.log, t.rest)
  }

  /** A read of the power state. */
  function ReadRun(p: Setup, sid: nat, key: bytes, roll: Roll, script: seq<NetEvent>): Trace<bool>
    requires sid <= 0xFFFF_FFFF
  {
    var t := PropertyRun(p, sid, key, None, roll, script);
    if t.result.Raised? then Trace(Raised(t.result.failure), t.log, t.rest)
    else
      var power := Power(t.result.value);
      Trace(if power == None then Raised(Expected) else Ok(power.value), t.log, t.rest)
  }

  /** The write, and the fresh read that must show the written value. */
  function WriteRun(p: Setup, sid: nat, key: bytes, desired: bool, third: Roll, fourth: Roll, script: seq<NetEvent>): Trace<bool>
    requires sid <= 0xFFFF_FFFF
  {
    var t := PropertyRun(p, sid, key, Some(desired), third, script);
    if t.result.Raised? then Trace(Raised(t.result.failure), t.log, t.rest)
    else
      var u := ReadRun(p, sid, key, fourth, t.rest);
      Trace(if u.result.Ok? && u.result.value != desired then Raised(Expected) else u.result, t.log + u.log, u.rest)
  }

  /** The result of set_power. */
  datatype PowerResult = Returned(value: bool) | OutcomeUnknown | AlcsError | WasCancelled | WasUncaught

  datatype PowerTrace = PowerTrace(result: PowerResult, log: Log, rest: seq<NetEvent>)

  function Classified(r: Res<bool>, attempted: bool): PowerResult
  {
    match r
    case Ok(value) => Returned(value)
    case Raised(Cancelled) => WasCancelled
    case Raised(Uncaught) => WasUncaught
    case Raised(Expected) => if attempted then OutcomeUnknown else AlcsError
  }

  /** set_power. */
  function SetPowerRun(p: Setup, desired: bool, rolls: seq<Roll>, script: seq<NetEvent>): PowerTrace
    requires |rolls| == 4
  {
    var a := AuthRun(p, rolls[0], script);
    if a.result.Raised? then PowerTrace(Classified(Raised(a.result.failure), false), a.log, a.rest)
    else
      SidFits(p, rolls[0], script);
      var (sid, key) := a.result.value;
      var b := ReadRun(p, sid, key, rolls[1], a.rest);
      if b.result.Raised? || b.result.value == desired then
        PowerTrace(Classified(b.result, false), a.log + b.log, b.rest)
      else
        var c := WriteRun(p, sid, key, desired, rolls[2], rolls[3], b.rest);
        PowerTrace(Classified(c.result, true), a.log + b.log + ([Begun] + c.log), c.rest)
  }

  lemma SidFits(p: Setup, roll: Roll, script: seq<NetEvent>)
    requires AuthRun(p, roll, script).result.Ok?
    ensures 1 <= AuthRun(p, roll, script).result.value.0 <= 0xFFFF_FFFF
  {
    hide ExchangeRun;
  }

  // ---------------------------------------------------------------- the methods

  method Send(script: seq<NetEvent>) returns (failure: Option<Failure>, rest: seq<NetEvent>)
    ensures (failure, rest) == Sending(script)
  {
    if script == [] {
      return None, [];
    }
    failure := if script[0].Fail? then Some(Expected) else if script[0].Cancel? then Some(Cancelled) else None;
    rest := script[1..];
  }

  /** _exchange, with its loop. */
  method Exchange(
    p: Setup, step: Step, path: bytes, body: bytes, session: Option<nat>, roll: Roll, script: seq<NetEvent>
  ) returns (r: Res<bytes>, log: Log, rest: seq<NetEvent>)
    requires session.Some? ==> session.value <= 0xFFFF_FFFF
    ensures Trace(r, log, rest) == ExchangeRun(p, step, path, body, session, roll, script)
  {
    hide Coap.Decode, Coap.Request, Passes, Sending, SessionOptions;
    log, rest := [], script;
    var datagram := Coap.Encode(roll.mid, roll.token, path, body, SessionOptions(session));
    if datagram == None {
      return Raised(Expected), log, rest;
    }
    log := [Sent(step, roll.mid, roll.token, datagram.value)];
    var failure;
    failure, rest := Send(rest);
    if failure.Some? {
      return Raised(failure.value), log, rest;
    }
    ghost var goal := Receiving(p, step, session, roll, rest);
    ghost var sent := log;
    while rest != []
      invariant log == sent && goal == Receiving(p, step, session, roll, rest)
      decreases |rest|
    {
      var met := rest[0];
      rest := rest[1..];
      match met
      case Pass => return Raised(Expected), log, rest;
      case Fail => return Raised(Expected), log, rest;
      case Cancel => return Raised(Cancelled), log, rest;
      case Datagram(data, source) =>
        var d := Coap.DecodeDatagram(data);
        if source == p.peer && d.Some? && Passes(d.value, roll.mid, roll.token, session) {
          if d.value.kind == 0 {
            log := log + [Acknowledged([0x60, 0x00] + ToBytes2(d.value.mid))];
            failure, rest := Send(rest);
            if failure.Some? {
              return Raised(failure.value), log, rest;
            }
          }
          log := log + [Accepted(step, roll.mid, roll.token, roll.id, session, data)];
          return Ok(d.value.payload), log, rest;
        }
    }
    r := Raised(Expected);
  }

  method Auth(p: Setup, roll: Roll, script: seq<NetEvent>)
    returns (r: Res<(nat, bytes)>, log: Log, rest: seq<NetEvent>)
    ensures Trace(r, log, rest) == AuthRun(p, roll, script)
  {
    hide ExchangeRun, SessionIn;
    var payload;
    payload, log, rest := Exchange(p, AuthStep, p.authPath, p.authBody(roll.nonce, roll.id), None, roll, script);
    if payload.Raised? {
      return Raised(payload.failure), log, rest;
    }
    r := SessionIn(p, roll.nonce, roll.id, payload.value);
    if r.Ok? {
      log := log + [Opened(r.value.0, r.value.1)];
    }
  }

  method Property(p: Setup, sid: nat, key: bytes, write: Option<bool>, roll: Roll, script: seq<NetEvent>)
    returns (r: Res<Json>, log: Log, rest: seq<NetEvent>)
    requires sid <= 0xFFFF_FFFF
    ensures Trace(r, log, rest) == PropertyRun(p, sid, key, write, roll, script)
  {
    hide ExchangeRun, PropertyIn, AlcsCipher.Encrypt;
    var body := AlcsCipher.Encrypt(p.enc, p.propertyBody(write, roll.id), key);
    if body == None {
      return Raised(Expected), [], script;
    }
    var payload;
    payload, log, rest := Exchange(
      p, if write.Some? then WriteStep else ReadStep, if write.Some? then p.setPath else p.getPath, body.value,
      Some(sid), roll, script);
    if payload.Raised? {
      return Raised(payload.failure), log, rest;
    }
    r := PropertyIn(p, key, roll.id, payload.value);
  }

  method ReadPower(p: Setup, sid: nat, key: bytes, roll: Roll, script: seq<NetEvent>)
    returns (r: Res<bool>, log: Log, rest: seq<NetEvent>)
    requires sid <= 0xFFFF_FFFF
    ensures Trace(r, log, rest) == ReadRun(p, sid, key, roll, script)
  {
    hide PropertyRun;
    var data;
    data, log, rest := Property(p, sid, key, None, roll, script);
    if data.Raised? {
      return Raised(data.failure), log, rest;
    }
    var power := Power(data.value);
    r := if power == None then Raised(Expected) else Ok(power.value);
  }

  /** The write, and the fresh read that has to show the written value. */
  method WriteAndRead(
    p: Setup, sid: nat, key: bytes, desired: bool, third: Roll, fourth: Roll, script: seq<NetEvent>
  ) returns (r: Res<bool>, log: Log, rest: seq<NetEvent>)
    requires sid <= 0xFFFF_FFFF
    ensures Trace(r, log, rest) == WriteRun(p, sid, key, desired, third, fourth, script)
  {
    hide PropertyRun, ReadRun;
    var answer;
    answer, log, rest := Property(p, sid, key, Some(desired), third, script);
    if answer.Raised? {
      return Raised(answer.failure), log, rest;
    }
    var more;
    r, more, rest := ReadPower(p, sid, key, fourth, rest);
    log := log + more;
    if r.Ok? && r.value != desired {
      r := Raised(Expected);
    }
  }

  /** set_power, with the `attempted` flag that decides how its failures are classified. */
  method SetPower(p: Setup, desired: bool, rolls: seq<Roll>, script: seq<NetEvent>)
    returns (r: PowerResult, log: Log, rest: seq<NetEvent>)
    requires |rolls| == 4
    ensures PowerTrace(r, log, rest) == SetPowerRun(p, desired, rolls, script)
  {
    hide AuthRun, ReadRun, WriteRun;
    var attempted := false;
    var session;
    session, log, rest := Auth(p, rolls[0], script);
    if session.Raised? {
      return Classified(Raised(session.failure), attempted), log, rest;
    }
    SidFits(p, rolls[0], script);
    var (sid, key) := session.value;
    var current, more;
    current, more, rest := ReadPower(p, sid, key, rolls[1], rest);
    log := log + more;
    if current.Raised? || current.value == desired {
      return Classified(current, attempted), log, rest;
    }
    attempted := true;
    var actual;
    actual, more, rest := WriteAndRead(p, sid, key, desired, rolls[2], rolls[3], rest);
    log := log + ([Begun] + more);
    r := Classified(actual, attempted);
  }
}
