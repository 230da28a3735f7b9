/**
 * What the checks of the power transaction come to, told from the datagrams and texts themselves:
 * which datagrams are accepted, which replies open a session or show the power, what the
 * requests say, and when set_power returns.
 */
module AlcsChecks {
  import opened Bytes
  import opened AlcsPower
  import opened AlcsParts
  import opened AlcsResults
  import AlcsCipher
  import Coap
  import CoapFormat

  // ---------------------------------------------------------------- the filter of the receiving loop

  /** The options numbered n, in the order in which they stand in the message. */
  function Numbered(m: Coap.Message, n: int): seq<bytes>
  {
    Coap.Values(m.options, n)
  }

  /**
   * A response to the request with this message id and token: a content response of any type,
   * in its own session, of the right format, and without an option that is critical and unknown.
   */
  predicate IsResponse(m: Coap.Message, mid: u16, token: bytes, session: Option<nat>)
  {
    && m.token == token && m.code == 69 && m.kind != 3 && (m.kind == 2 ==> m.mid == mid)
    && (session.Some? ==>
          |Numbered(m, 71)| == 1 && 1 <= |Numbered(m, 71)[0]| <= 4 && FromBytes(Numbered(m, 71)[0]) == session.value)
    && |Numbered(m, 12)| <= 1
    && (|Numbered(m, 12)| == 1 ==>
          |Numbered(m, 12)[0]| <= 2
          && FromBytes(Numbered(m, 12)[0]) in (if session.Some? then {42} else {0, 50}))
    && (forall i :: 0 <= i < |m.options| && m.options[i].number % 2 == 1 ==> m.options[i].number in {11, 71})
  }

  /** The datagram has the format of such a response, and the payload is its payload. */
  ghost predicate Responds(data: bytes, mid: u16, token: bytes, session: Option<nat>, payload: bytes)
  {
    |data| <= 16384 && exists m: Coap.Message ::
      CoapFormat.MessageOctets(data, m) && IsResponse(m, mid, token, session) && m.payload == payload
  }

  lemma PassesIsResponse(m: Coap.Message, mid: u16, token: bytes, session: Option<nat>)
    requires m.kind <= 3
    ensures Passes(Coap.Decoded(m.kind, m.code, m.mid, m.token, Coap.Gather(m.options), m.payload), mid, token, session)
       <==> IsResponse(m, mid, token, session)
  {
    Coap.GatherListsValues(m.options, 71);
    Coap.GatherListsValues(m.options, 12);
    var d := Coap.Decoded(m.kind, m.code, m.mid, m.token, Coap.Gather(m.options), m.payload);
    forall n: int ensures n in d.options <==> exists i :: 0 <= i < |m.options| && m.options[i].number == n {
      Coap.GatherListsValues(m.options, n);
      Coap.ValuesAreMembers(m.options, n);
    }
    hide Coap.Gather, Coap.Values;
    SupportedIff(m, d);
    hide Unsupported;
  }

  lemma SupportedIff(m: Coap.Message, d: Coap.Decoded)
    requires forall n: int :: n in d.options <==> exists i :: 0 <= i < |m.options| && m.options[i].number == n
    ensures Unsupported(d)
       <==> !(forall i :: 0 <= i < |m.options| && m.options[i].number % 2 == 1 ==> m.options[i].number in {11, 71})
  {
    if i :| 0 <= i < |m.options| && m.options[i].number % 2 == 1 && m.options[i].number !in {11, 71} {
      assert m.options[i].number in d.options;
    }
  }

  /** The filter accepts exactly the responses. */
  lemma {:induction false} AcceptedIff(data: bytes, mid: u16, token: bytes, session: Option<nat>, payload: bytes)
    ensures Responds(data, mid, token, session, payload)
       <==> Coap.Decode(data).Some? && Passes(Coap.Decode(data).value, mid, token, session)
            && Coap.Decode(data).value.payload == payload
  {
    hide Coap.Parse, Coap.Gather, Passes, IsResponse, CoapFormat.MessageOctets;
    if Coap.Parse(data).Some? {
      var m := Coap.Parse(data).value;
      CoapFormat.ParsedIff(data, m);
      ParsedKind(data);
      PassesIsResponse(m, mid, token, session);
    }
    if Responds(data, mid, token, session, payload) {
      var m: Coap.Message :|
        CoapFormat.MessageOctets(data, m) && IsResponse(m, mid, token, session) && m.payload == payload;
      CoapFormat.ParsedIff(data, m);
    }
  }

  lemma ParsedKind(data: bytes)
    requires Coap.Parse(data).Some?
    ensures Coap.Parse(data).value.kind <= 3
  {
    hide Coap.ParseOptions;
  }

  /** What the receiving loop passes over: anything that is not a response from the device. */
  ghost predicate PassedOver(p: Setup, session: Option<nat>, roll: Roll, met: NetEvent)
  {
    met.Datagram? && (met.source != p.peer || forall payload :: !Responds(met.data, roll.mid, roll.token, session, payload))
  }

  /** The empty message that acknowledges a confirmable response: version 1, type 2, code 0, its message id. */
  predicate Acknowledges(ack: bytes, data: bytes)
  {
    |ack| == 4 && |data| >= 4 && ack[0] == 0x60 && ack[1] == 0 && ack[2..4] == data[2..4]
  }

  predicate IsConfirmable(data: bytes)
  {
    data != [] && data[0] / 16 % 4 == 0
  }

  /** What an exchange returns and logs when it meets the response at place k of the script. */
  ghost predicate TakesResponse(
    p: Setup, step: Step, session: Option<nat>, roll: Roll, script: seq<NetEvent>, k: nat, t: Trace<bytes>)
    requires k < |script| && script[k].Datagram?
  {
    var data := script[k].data;
    var accepted := Accepted(step, roll.mid, roll.token, roll.id, session, data);
    && script[k].source == p.peer && Responds(data, roll.mid, roll.token, session, PayloadOf(data))
    && if !IsConfirmable(data) then t.result == Ok(PayloadOf(data)) && t.log == [accepted] && t.rest == script[k + 1..]
       else
         && t.log != [] && t.log[0].Acknowledged? && Acknowledges(t.log[0].datagram, data)
         && var sent := Sending(script[k + 1..]);
         && t.rest == sent.1
         && if sent.0.Some? then t.result == Raised(sent.0.value) && t.log == [t.log[0]]
            else t.result == Ok(PayloadOf(data)) && t.log == [t.log[0], accepted]
  }

  /**
   * What one exchange receives, told from the script: everything is passed over up to the first
   * response of the device, or the first failure, timeout or cancellation; a confirmable response
   * is acknowledged first.
   */
  lemma {:induction false} ReceivingIs(p: Setup, step: Step, session: Option<nat>, roll: Roll, script: seq<NetEvent>, k: nat)
    requires k <= |script| && forall i :: 0 <= i < k ==> PassedOver(p, session, roll, script[i])
    requires k < |script| ==> !PassedOver(p, session, roll, script[k])
    ensures var t := Receiving(p, step, session, roll, script);
      if k == |script| || script[k].Pass? || script[k].Fail? then t.result == Raised(Expected) && t.log == []
      else if script[k].Cancel? then t.result == Raised(Cancelled) && t.log == []
      else TakesResponse(p, step, session, roll, script, k, t)
    decreases k
  {
    hide Coap.Decode, Passes, Sending, Responds, IsConfirmable, Acknowledges;
    if k == 0 {
      if script != [] && script[0].Datagram? {
        FirstDatagram(p, session, roll, script[0]);
        ResponseOctets(script[0].data);
      }
    } else {
      PassedOverIs(p, session, roll, script[0]);
      ReceivingIs(p, step, session, roll, script[1..], k - 1);
      if k < |script| {
        assert script[1..][k..] == script[k + 1..];
        assert script[1..][k - 1] == script[k];
      }
    }
  }

  lemma FirstDatagram(p: Setup, session: Option<nat>, roll: Roll, met: NetEvent)
    requires met.Datagram? && !PassedOver(p, session, roll, met)
    ensures met.source == p.peer && Coap.Decode(met.data).Some?
    ensures Passes(Coap.Decode(met.data).value, roll.mid, roll.token, session)
    ensures Responds(met.data, roll.mid, roll.token, session, PayloadOf(met.data))
  {
    hide Coap.Decode, Passes, Responds;
    var payload :| Responds(met.data, roll.mid, roll.token, session, payload);
    AcceptedIff(met.data, roll.mid, roll.token, session, payload);
  }

  lemma PassedOverIs(p: Setup, session: Option<nat>, roll: Roll, met: NetEvent)
    requires PassedOver(p, session, roll, met)
    ensures met.source != p.peer || Coap.Decode(met.data) == None
         || !Passes(Coap.Decode(met.data).value, roll.mid, roll.token, session)
  {
    hide Coap.Decode, Passes, Responds;
    if met.source == p.peer && Coap.Decode(met.data).Some? {
      AcceptedIff(met.data, roll.mid, roll.token, session, Coap.Decode(met.data).value.payload);
    }
  }

  lemma ResponseOctets(data: bytes)
    requires Coap.Decode(data).Some?
    ensures IsConfirmable(data) <==> Coap.Decode(data).value.kind == 0
    ensures Acknowledges([0x60, 0x00] + ToBytes2(Coap.Decode(data).value.mid), data)
  {
    hide Coap.ParseOptions, Coap.Gather;
    var mid := Coap.Decode(data).value.mid;
    assert ToBytes2(mid) == [data[2], data[3]] == data[2..4];
  }

  // ---------------------------------------------------------------- what the replies say

  /** An authentication reply that proves that the device knows the token, and opens this session. */
  predicate SessionReply(p: Setup, nonce: string, id: nat, text: bytes, sid: nat, key: bytes)
  {
    var parsed := p.parse(text);
    && parsed.Value? && parsed.json.Object? && p.str(Field(parsed.json, "id")) == Some(p.decimal(id))
    && Field(parsed.json, "code") in {Int(200), Float(200.0)}
    && var data := Field(parsed.json, "data");
    && data.Object? && Field(data, "randomKey").Text?
    && var server := Field(data, "randomKey").s;
    && |server| == 15 && (forall i :: 0 <= i < 15 ==> 'A' <= server[i] <= 'Z' || 'a' <= server[i] <= 'z' || '0' <= server[i] <= '9')
    && Field(data, "sign") == Text(p.proof(server)) && (forall c :: c in p.proof(server) ==> c < 128 as char)
    && ("opt" in data.fields ==> data.fields["opt"] in {Int(0), Int(1)})
    && 1 <= sid <= 0xFFFF_FFFF
    && (Field(data, "sessionId") == Int(sid)
        || (Field(data, "sessionId").Text? && p.digits(Field(data, "sessionId").s) == Some(sid)))
    && key == p.sessionKey(nonce, server)
  }

  /** Exactly such a reply opens a session. */
  lemma SessionIff(p: Setup, nonce: string, id: nat, text: bytes, sid: nat, key: bytes)
    ensures SessionIn(p, nonce, id, text) == Ok((sid, key)) <==> SessionReply(p, nonce, id, text, sid, key)
  {
    forall s: string ensures Ascii(s) <==> forall c :: c in s ==> c < 128 as char {
      AsciiIff(s);
    }
    hide Ascii;
  }

  lemma AsciiIff(s: string)
    ensures Ascii(s) <==> forall c :: c in s ==> c < 128 as char
  {
    if forall c :: c in s ==> c < 128 as char {
      forall i | 0 <= i < |s| ensures s[i] as int < 128 {
        assert s[i] in s;
      }
    }
  }

  /** A reply to a property request under the session key, with its data. */
  predicate DataReply(p: Setup, key: bytes, id: nat, payload: bytes, data: Json)
  {
    var clear := AlcsCipher.Decrypt(p.dec, payload, key);
    && clear.Some?
    && var parsed := p.parse(clear.value);
    && parsed.Value? && parsed.json.Object? && p.str(Field(parsed.json, "id")) == Some(p.decimal(id))
    && Field(parsed.json, "code") in {Int(200), Float(200.0)} && Field(parsed.json, "data") == data && data.Object?
  }

  /** It shows the power: 0 is off and 1 is on, as a number or as the value of an object. */
  ghost predicate PowerReply(p: Setup, key: bytes, id: nat, payload: bytes, on: bool)
  {
    exists data: Json :: DataReply(p, key, id, payload, data) && PowerIn(data, on)
  }

  predicate PowerIn(data: Json, on: bool)
  {
    var shown := Field(data, "PowerSwitch");
    (if shown.Object? then Field(shown, "value") else shown) == Int(if on then 1 else 0)
  }

  lemma DataIff(p: Setup, key: bytes, id: nat, payload: bytes, data: Json)
    ensures PropertyIn(p, key, id, payload) == Ok(data) <==> DataReply(p, key, id, payload, data)
  {
    hide AlcsCipher.Decrypt;
  }

  /** Exactly such a reply is a read of the power. */
  lemma {:induction false} PowerIff(p: Setup, key: bytes, id: nat, raw: bytes, on: bool)
    ensures PowerRead(p, key, id, raw) == Some(on) <==> PowerReply(p, key, id, PayloadOf(raw), on)
  {
    hide PropertyIn, DataReply, PayloadOf;
    var r := PropertyIn(p, key, id, PayloadOf(raw));
    if r.Ok? {
      DataIff(p, key, id, PayloadOf(raw), r.value);
      assert DataReply(p, key, id, PayloadOf(raw), r.value);
      assert Power(r.value) == Some(on) <==> PowerIn(r.value, on);
    }
    if PowerReply(p, key, id, PayloadOf(raw), on) {
      var data :| DataReply(p, key, id, PayloadOf(raw), data) && PowerIn(data, on);
      DataIff(p, key, id, PayloadOf(raw), data);
    }
  }

  // ---------------------------------------------------------------- what the requests say

  /** The options of a request: its path, the format of its body, and the session if there is one. */
  predicate Asks(d: Coap.Decoded, roll: Roll, path: bytes, session: Option<nat>)
  {
    && d.kind == 0 && d.code == 1 && d.mid == roll.mid && d.token == roll.token
    && ValuesOf(d, 11) == Coap.PathParts(path)
    && ValuesOf(d, 12) == [[if session.Some? then 0x2A else 0x32]]
    && (if session.Some? then |ValuesOf(d, 71)| == 1 && |ValuesOf(d, 71)[0]| == 4
                              && FromBytes(ValuesOf(d, 71)[0]) == session.value
        else ValuesOf(d, 71) == [])
  }

  lemma RequestAsks(roll: Roll, path: bytes, body: bytes, session: Option<nat>)
    requires session.Some? ==> session.value <= 0xFFFF_FFFF
    requires Coap.Request(roll.mid, roll.token, path, body, SessionOptions(session)).Some?
    ensures var d := Coap.Request(roll.mid, roll.token, path, body, SessionOptions(session)).value;
      |d| <= 16384 ==> Coap.Decode(d).Some? && Asks(Coap.Decode(d).value, roll, path, session)
                       && Coap.Decode(d).value.payload == body
  {
    assert session.Some? ==> |SessionOption(session.value)| == 4;
    hide Coap.Request, Coap.Decode, SessionOption, SessionOptions, Coap.PathParts, ValuesOf;
    RequestCarries(roll, path, body, session, 11);
    RequestCarries(roll, path, body, session, 12);
    RequestCarries(roll, path, body, session, 71);
    if session.Some? {
      SessionReadsBack(session.value);
    }
  }

  lemma RequestCarries(roll: Roll, path: bytes, body: bytes, session: Option<nat>, n: int)
    requires n in {11, 12, 71} && (session.Some? ==> session.value <= 0xFFFF_FFFF)
    requires Coap.Request(roll.mid, roll.token, path, body, SessionOptions(session)).Some?
    ensures var d := Coap.Request(roll.mid, roll.token, path, body, SessionOptions(session)).value;
      |d| <= 16384 ==>
        && Coap.Decode(d).Some? && Coap.Decode(d).value.kind == 0 && Coap.Decode(d).value.code == 1
        && Coap.Decode(d).value.mid == roll.mid && Coap.Decode(d).value.token == roll.token
        && Coap.Decode(d).value.payload == body
        && ValuesOf(Coap.Decode(d).value, n)
           == if n == 11 then Coap.PathParts(path)
              else if n == 12 then [[if session.Some? then 0x2A else 0x32]]
              else if session.Some? then [SessionOption(session.value)] else []
  {
    hide Coap.Request, Coap.Decode, SessionOption, Coap.PathParts, Coap.Values;
    assert Coap.MAX_DATAGRAM == 16384 && Coap.URI_PATH == 11;
    Coap.RequestReadsBack(roll.mid, roll.token, path, body, SessionOptions(session), n);
    OptionValues(session, n);
  }

  lemma OptionValues(session: Option<nat>, n: int)
    requires session.Some? ==> session.value <= 0xFFFF_FFFF
    ensures Coap.Values(SessionOptions(session), n)
         == if n == 12 then [[if session.Some? then 0x2A else 0x32]]
            else if n == 71 && session.Some? then [SessionOption(session.value)] else []
  {
    hide SessionOption, Coap.Values;
    if session.Some? {
      var format, number := Coap.CoapOption(12, [0x2A]), Coap.CoapOption(71, SessionOption(session.value));
      assert SessionOptions(session) == [format] + [number];
      Coap.ValuesConcat([format], [number], n);
      OneOption(format, n);
      OneOption(number, n);
    } else {
      OneOption(Coap.CoapOption(12, [0x32]), n);
    }
  }

  lemma OneOption(option: Coap.CoapOption, n: int)
    ensures Coap.Values([option], n) == if option.number == n then [option.value] else []
  {
    assert [option][..0] == [];
  }

  /**
   * A property request, read by its receiver: the set path and the written value, or the get path;
   * the session it belongs to; and, under the session key, the text for that request's id.
   */
  lemma PropertyRequestAsks(p: Setup, sid: nat, key: bytes, write: Option<bool>, roll: Roll)
    requires sid <= 0xFFFF_FFFF && |key| >= 16 && AlcsCipher.Inverse(p.enc, p.dec, key[..16])
    requires PropertyRequest(p, sid, key, write, roll).Some?
    ensures var d := PropertyRequest(p, sid, key, write, roll).value;
      |d| <= 16384 ==>
        && Coap.Decode(d).Some?
        && Asks(Coap.Decode(d).value, roll, if write == None then p.getPath else p.setPath, Some(sid))
        && AlcsCipher.Decrypt(p.dec, Coap.Decode(d).value.payload, key) == Some(p.propertyBody(write, roll.id))
  {
    hide Coap.Request, Coap.Decode, AlcsCipher.Encrypt, AlcsCipher.Decrypt, Asks, SessionOptions;
    var text := p.propertyBody(write, roll.id);
    NothingToEncrypt(p, key);
    AlcsCipher.DecryptOfEncrypt(p.enc, p.dec, text, key);
    RequestAsks(roll, if write.Some? then p.setPath else p.getPath, AlcsCipher.Encrypt(p.enc, text, key).value, Some(sid));
  }

  lemma NothingToEncrypt(p: Setup, key: bytes)
    ensures AlcsCipher.Encrypt(p.enc, [], key).None?
  {}
}
