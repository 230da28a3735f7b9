/**
 * Runs of set_power that end with an exception that no caller classifies: one concrete input for
 * each way to provoke it, and one where the write had been sent.
 */
module AlcsEscapes {
  import opened Bytes
  import opened Logs
  import opened AlcsPower
  import opened AlcsParts
  import AlcsCipher
  import Coap
  import Models

  // ---------------------------------------------------------------- replies that pass the filter

  function ReplyOptions(session: Option<nat>): Coap.Options
    requires session.Some? ==> session.value <= 0xFFFF_FFFF
  {
    if session == None then [] else [Coap.CoapOption(71, SessionOption(session.value))]
  }

  function ReplyMessage(roll: Roll, session: Option<nat>, payload: bytes): Coap.Message
    requires session.Some? ==> session.value <= 0xFFFF_FFFF
  {
    Coap.Message(2, 69, roll.mid, roll.token, ReplyOptions(session), payload)
  }

  /** A piggybacked response to the request with this message id and token. */
  function Reply(roll: Roll, session: Option<nat>, payload: bytes): (data: bytes)
    requires |roll.token| == 8 && 1 <= |payload| <= 1000
    requires session.Some? ==> session.value <= 0xFFFF_FFFF
    ensures Coap.Print(ReplyMessage(roll, session, payload)) == Some(data) && |data| <= 1024
  {
    PrintedReply(roll, session, payload);
    Coap.Print(ReplyMessage(roll, session, payload)).value
  }

  lemma PrintedReply(roll: Roll, session: Option<nat>, payload: bytes)
    requires |roll.token| == 8 && 1 <= |payload| <= 1000
    requires session.Some? ==> session.value <= 0xFFFF_FFFF
    ensures var d := Coap.Print(ReplyMessage(roll, session, payload)); d.Some? && |d.value| <= 1024
  {
    var options := ReplyOptions(session);
    if session.Some? {
      assert options[1..] == [];
      assert Coap.PrintOptions(71, []) == Some([]);
    }
  }

  /** Such a reply is accepted, and its payload handed on. */
  lemma ReplyIsAccepted(p: Setup, step: Step, session: Option<nat>, roll: Roll, payload: bytes, more: seq<NetEvent>)
    requires |roll.token| == 8 && 1 <= |payload| <= 1000
    requires session.Some? ==> session.value <= 0xFFFF_FFFF
    ensures var data := Reply(roll, session, payload);
      && PayloadOf(data) == payload
      && Receiving(p, step, session, roll, [Datagram(data, p.peer)] + more)
         == Trace(Ok(payload), [Accepted(step, roll.mid, roll.token, roll.id, session, data)], more)
  {
    hide Coap.Print, Coap.Parse;
    var data, m := Reply(roll, session, payload), ReplyMessage(roll, session, payload);
    Coap.ParseOfPrint(m);
    GatheredReply(session);
    if session.Some? {
      SessionReadsBack(session.value);
    }
    assert Passes(Coap.Decode(data).value, roll.mid, roll.token, session);
    assert ([Datagram(data, p.peer)] + more)[1..] == more;
  }

  lemma GatheredReply(session: Option<nat>)
    requires session.Some? ==> session.value <= 0xFFFF_FFFF
    ensures Coap.Gather(ReplyOptions(session)) == if session == None then map[] else map[71 := [SessionOption(session.value)]]
  {
    if session.Some? {
      var options := ReplyOptions(session);
      assert options[..0] == [];
      assert Coap.Gather(options[..0]) == map[];
      assert [] + [SessionOption(session.value)] == [SessionOption(session.value)];
    }
  }

  /** A request and its immediate answer. */
  function Dialogue(p: Setup, roll: Roll, session: Option<nat>, payload: bytes): seq<NetEvent>
    requires |roll.token| == 8 && 1 <= |payload| <= 1000
    requires session.Some? ==> session.value <= 0xFFFF_FFFF
  {
    [Pass, Datagram(Reply(roll, session, payload), p.peer)]
  }

  lemma ExchangeSucceeds(
    p: Setup, step: Step, path: bytes, body: bytes, session: Option<nat>, roll: Roll, payload: bytes, more: seq<NetEvent>)
    requires |roll.token| == 8 && 1 <= |payload| <= 1000
    requires session.Some? ==> session.value <= 0xFFFF_FFFF
    requires Coap.Request(roll.mid, roll.token, path, body, SessionOptions(session)).Some?
    ensures ExchangeRun(p, step, path, body, session, roll, Dialogue(p, roll, session, payload) + more)
         == Trace(Ok(payload),
                  [Sent(step, roll.mid, roll.token,
                        Coap.Request(roll.mid, roll.token, path, body, SessionOptions(session)).value),
                   Accepted(step, roll.mid, roll.token, roll.id, session, Reply(roll, session, payload))], more)
  {
    hide Coap.Request, Reply, Receiving, SessionOptions;
    var script := Dialogue(p, roll, session, payload) + more;
    assert script[1..] == [Datagram(Reply(roll, session, payload), p.peer)] + more;
    ReplyIsAccepted(p, step, session, roll, payload, more);
  }

  // ---------------------------------------------------------------- a concrete device

  const PATH: bytes := [0x2F, 0x61]
  const KEY: bytes := [0, 0, 0, 0, 0, 0, 0, 0, 0, 0, 0, 0, 0, 0, 0, 0]
  const NONCE := "ABCDEFGHIJKLMNO"
  const SESSION := Object(map["id" := Text(""), "code" := Int(200), "data" := Object(
    map["randomKey" := Text(NONCE), "sign" := Text(""), "sessionId" := Int(1)])])
  const POWER_OFF := Object(map["id" := Text(""), "code" := Int(200), "data" := Object(map["PowerSwitch" := Int(0)])])
  const ODD_PROOF := Object(map["id" := Text(""), "code" := Int(200), "data" := Object(
    map["randomKey" := Text(NONCE), "sign" := Text("\U{E9}")])])
  const ODD_ID := Object(map["id" := List])

  /** The texts of the device, by their first byte; all others are nested too deeply to parse. */
  function Texts(text: bytes): Parsed
  {
    if text == [1] then Value(SESSION)
    else if text == [2] then Value(POWER_OFF)
    else if text == [3] then Value(ODD_PROOF)
    else if text == [4] then Value(ODD_ID)
    else Escapes
  }

  function Shown(json: Json): Option<string>
  {
    if json.List? then None else Some("")
  }

  function Same(key: bytes, block: AlcsCipher.Block): AlcsCipher.Block { block }

  function Witness(): Setup
  {
    Setup(Models.Endpoint("device", 5683), PATH, PATH, PATH, (nonce: string, id: nat) => [1],
          (write: Option<bool>, id: nat) => [1], Texts, Shown, (n: nat) => "", (s: string) => None,
          (s: string) => "", (nonce: string, server: string) => KEY, Same, Same)
  }

  const ROLL := Roll(0, [0, 0, 0, 0, 0, 0, 0, 0], 0, "")

  lemma RequestsArePrinted(body: bytes)
    ensures Coap.Request(0, ROLL.token, PATH, body, SessionOptions(None)).Some?
    ensures Coap.Request(0, ROLL.token, PATH, body, SessionOptions(Some(1))).Some?
  {
    Coap.RequestExistsIff(0, ROLL.token, PATH, body, SessionOptions(None));
    Coap.RequestExistsIff(0, ROLL.token, PATH, body, SessionOptions(Some(1)));
    hide Coap.Request;
    SortedOptions();
  }

  lemma SortedOptions()
    ensures Coap.Encodable(0, Coap.RequestOptions(PATH, SessionOptions(None)))
    ensures Coap.Encodable(0, Coap.RequestOptions(PATH, SessionOptions(Some(1))))
  {
    var segment := Coap.CoapOption(11, [0x61]);
    PathOfOneSegment();
    var none := [segment, Coap.CoapOption(12, [0x32])];
    var some := [segment, Coap.CoapOption(12, [0x2A]), Coap.CoapOption(71, SessionOption(1))];
    assert Coap.PathOptions(Coap.PathParts(PATH)) == [segment];
    assert [segment] + SessionOptions(None) == none && [segment] + SessionOptions(Some(1)) == some;
    AlreadySorted(none);
    AlreadySorted(some);
    hide Coap.PathOptions, Coap.PathParts, Coap.StableSort, Coap.Sorted, SessionOption, SessionOptions;
    EncodableOptions(none);
    EncodableOptions(some);
  }

  /** Two or three short options in order are encodable. */
  lemma EncodableOptions(options: Coap.Options)
    requires 2 <= |options| <= 3 && options[0].number == 11 && options[1].number == 12
    requires |options| == 3 ==> options[2].number == 71
    requires forall i :: 0 <= i < |options| ==> |options[i].value| <= 4
    ensures Coap.Encodable(0, options)
  {
    var rest := options[1..];
    assert Coap.Encodable(71, []);
    assert |options| == 3 ==> rest[1..][1..] == [];
    assert Coap.Encodable(12, rest[1..]);
    assert Coap.Encodable(11, rest);
  }

  lemma {:induction false} AlreadySorted(options: Coap.Options)
    requires Coap.Sorted(options)
    ensures Coap.StableSort(options) == options
  {
    if options != [] {
      AlreadySorted(options[..|options| - 1]);
      assert options == options[..|options| - 1] + [options[|options| - 1]];
    }
  }

  lemma LastPart(path: bytes)
    requires path != [] && path[|path| - 1] != Coap.SLASH
    ensures var init := Coap.Split(path[..|path| - 1]);
      Coap.Split(path) == init[..|init| - 1] + [init[|init| - 1] + [path[|path| - 1]]]
  {}

  lemma PathOfOneSegment()
    ensures Coap.PathParts(PATH) == [[0x61]]
  {
    var nothing: bytes := [];
    var letter: bytes := [0x61];
    var none: seq<bytes> := [];
    var first: seq<bytes> := [nothing];
    var two: seq<bytes> := [nothing, nothing];
    var parts: seq<bytes> := [nothing, letter];
    assert PATH[..1][..0] == nothing && Coap.Split(nothing) == first;
    assert Coap.Split(PATH[..1]) == first + first == two;
    LastPart(PATH);
    assert two[1] + [PATH[1]] == letter;
    assert two[..1] + [letter] == parts;
    assert Coap.Split(PATH) == parts;
    assert parts[..1] == first && first[..0] == none;
    assert Coap.NonEmpty(first) == Coap.NonEmpty(first[..0]) + none;
    assert Coap.NonEmpty(parts) == Coap.NonEmpty(parts[..1]) + [letter];
  }

  // ---------------------------------------------------------------- the runs

  const ROLLS := [ROLL, ROLL, ROLL, ROLL]

  /** An authentication reply with this text. */
  lemma AuthReplied(p: Setup, roll: Roll, text: bytes, more: seq<NetEvent>)
    requires |roll.token| == 8 && 1 <= |text| <= 1000
    requires Coap.Request(roll.mid, roll.token, p.authPath, p.authBody(roll.nonce, roll.id), SessionOptions(None)).Some?
    ensures var a := AuthRun(p, roll, Dialogue(p, roll, None, text) + more);
      && a.result == SessionIn(p, roll.nonce, roll.id, text) && a.rest == more && Begun !in a.log
  {
    ExchangeSucceeds(p, AuthStep, p.authPath, p.authBody(roll.nonce, roll.id), None, roll, text, more);
    hide ExchangeRun, Coap.Request, Reply, Dialogue, SessionOptions, SessionIn;
  }

  lemma NonceIsOne()
    ensures IsNonce(NONCE)
  {}

  lemma AuthTexts()
    ensures SessionIn(Witness(), "", 0, [1]) == Ok((1, KEY))
    ensures forall text :: text in {[3], [4], [5]} ==> SessionIn(Witness(), "", 0, text) == Raised(Uncaught)
  {
    hide IsNonce;
    NonceIsOne();
    GoodText();
    OddText();
    hide *;
  }

  lemma GoodText()
    ensures SessionIn(Witness(), "", 0, [1]) == Ok((1, KEY))
  {
    hide IsNonce;
    NonceIsOne();
  }

  lemma OddText()
    ensures forall text :: text in {[3], [4], [5]} ==> SessionIn(Witness(), "", 0, text) == Raised(Uncaught)
  {
    hide IsNonce;
    NonceIsOne();
    var sign := "\U{E9}";
    assert sign[0] as int == 0xE9;
    assert !Ascii(sign);
    assert Field(ODD_PROOF, "data") == Object(map["randomKey" := Text(NONCE), "sign" := Text(sign)]);
  }

  /** set_power goes the way of its authentication. */
  lemma FailedWithAuth(p: Setup, desired: bool, rolls: seq<Roll>, script: seq<NetEvent>)
    requires |rolls| == 4 && AuthRun(p, rolls[0], script).result == Raised(Uncaught)
    ensures SetPowerRun(p, desired, rolls, script).result == WasUncaught
    ensures SetPowerRun(p, desired, rolls, script).log == AuthRun(p, rolls[0], script).log
  {
    hide AuthRun;
  }

  /**
   * Before the write: the JSON parser gives up on a deeply nested text, str gives up on a deeply
   * nested id, and comparing a proof that is not ASCII raises TypeError.
   */
  lemma AuthenticationCanEscape(text: bytes)
    requires text in {[3], [4], [5]}
    ensures var t := SetPowerRun(Witness(), true, ROLLS, Dialogue(Witness(), ROLL, None, text));
      t.result == WasUncaught && Begun !in t.log
  {
    AuthTexts();
    RequestsArePrinted([1]);
    var script := Dialogue(Witness(), ROLL, None, text);
    assert script + [] == script;
    AuthReplied(Witness(), ROLL, text, []);
    hide SessionIn, Dialogue, SetPowerRun, AuthRun;
    FailedWithAuth(Witness(), true, ROLLS, script);
  }

  /** What a decrypted text gives. */
  function TextIn(p: Setup, id: nat, text: bytes): Res<Json>
  {
    match p.parse(text)
    case Malformed => Raised(Expected)
    case Escapes => Raised(Uncaught)
    case Value(json) => ReplyData(p, json, id)
  }

  /** The device's encrypted answer with this text. */
  function Cipher(p: Setup, key: bytes, text: bytes): bytes
  {
    var c := AlcsCipher.Encrypt(p.enc, text, key);
    if c == None then [] else c.value
  }

  /** A property request, answered with this text under the session key. */
  lemma PropertyReplied(
    p: Setup, sid: nat, key: bytes, write: Option<bool>, roll: Roll, text: bytes, more: seq<NetEvent>)
    requires sid <= 0xFFFF_FFFF && |roll.token| == 8 && 1 <= |text| < 16 && |key| == 16
    requires AlcsCipher.Inverse(p.enc, p.dec, key) && PropertyRequest(p, sid, key, write, roll).Some?
    ensures |Cipher(p, key, text)| == 16
    ensures var t := PropertyRun(p, sid, key, write, roll, Dialogue(p, roll, Some(sid), Cipher(p, key, text)) + more);
      && t.result == TextIn(p, roll.id, text) && t.rest == more
      && (write.Some? ==> Begun !in t.log && exists i :: 0 <= i < |t.log| && IsWrite(t.log[i]))
  {
    hide AlcsCipher.Encrypt, AlcsCipher.Decrypt, AlcsCipher.Inverse, Coap.Request, ExchangeRun, Reply, Dialogue, SessionOptions;
    assert key[..16] == key;
    AlcsCipher.DecryptOfEncrypt(p.enc, p.dec, text, key);
    AlcsCipher.CiphertextLength(p.enc, text, key);
    var cipher := Cipher(p, key, text);
    var body := AlcsCipher.Encrypt(p.enc, p.propertyBody(write, roll.id), key).value;
    var step, path := if write.Some? then WriteStep else ReadStep, if write.Some? then p.setPath else p.getPath;
    ExchangeSucceeds(p, step, path, body, Some(sid), roll, cipher, more);
    var t := ExchangeRun(p, step, path, body, Some(sid), roll, Dialogue(p, roll, Some(sid), cipher) + more);
    assert write.Some? ==> IsWrite(t.log[0]);
  }

  const ENCRYPTED := Some(1)

  /** Authenticate, read the other power, write, and answer the write with this text. */
  function WriteScript(p: Setup, key: bytes, text: bytes): seq<NetEvent>
    requires |Cipher(p, key, [2])| == 16 == |Cipher(p, key, text)|
  {
    Dialogue(p, ROLL, None, [1])
    + (Dialogue(p, ROLL, ENCRYPTED, Cipher(p, key, [2])) + Dialogue(p, ROLL, ENCRYPTED, Cipher(p, key, text)))
  }

  lemma WitnessRequests()
    ensures AlcsCipher.Inverse(Witness().enc, Witness().dec, KEY)
    ensures forall write :: PropertyRequest(Witness(), 1, KEY, write, ROLL).Some?
  {
    assert KEY[..16] == KEY;
    var body := AlcsCipher.Encrypt(Same, [1], KEY);
    assert body.Some?;
    RequestsArePrinted(body.value);
    hide AlcsCipher.Encrypt, Coap.Request, SessionOptions;
  }

  /** The write step after a read of the other power ends as its answer does. */
  lemma EndsWithWrite(p: Setup, desired: bool, rolls: seq<Roll>, script: seq<NetEvent>, sid: nat, key: bytes)
    requires |rolls| == 4 && AuthRun(p, rolls[0], script).result == Ok((sid, key)) && sid <= 0xFFFF_FFFF
    requires ReadRun(p, sid, key, rolls[1], AuthRun(p, rolls[0], script).rest).result == Ok(!desired)
    requires var rest := ReadRun(p, sid, key, rolls[1], AuthRun(p, rolls[0], script).rest).rest;
      var t := PropertyRun(p, sid, key, Some(desired), rolls[2], rest);
      t.result == Raised(Uncaught) && exists i :: 0 <= i < |t.log| && IsWrite(t.log[i])
    ensures var t := SetPowerRun(p, desired, rolls, script);
      t.result == WasUncaught && Begun in t.log && exists i :: 0 <= i < |t.log| && IsWrite(t.log[i])
  {
    hide AuthRun, ReadRun, PropertyRun;
    var a := AuthRun(p, rolls[0], script);
    var b := ReadRun(p, sid, key, rolls[1], a.rest);
    var c := PropertyRun(p, sid, key, Some(desired), rolls[2], b.rest);
    var i :| 0 <= i < |c.log| && IsWrite(c.log[i]);
    var log := a.log + b.log + ([Begun] + c.log);
    assert log[|a.log| + |b.log| + 1 + i] == c.log[i] && log[|a.log| + |b.log|] == Begun;
  }

  lemma ReadReplied(p: Setup, key: bytes, text: bytes, v: bool, more: seq<NetEvent>)
    requires |key| == 16 && AlcsCipher.Inverse(p.enc, p.dec, key) && PropertyRequest(p, 1, key, None, ROLL).Some?
    requires 1 <= |text| < 16 && TextIn(p, ROLL.id, text).Ok? && Power(TextIn(p, ROLL.id, text).value) == Some(v)
    ensures |Cipher(p, key, text)| == 16
    ensures var b := ReadRun(p, 1, key, ROLL, Dialogue(p, ROLL, ENCRYPTED, Cipher(p, key, text)) + more);
      b.result == Ok(v) && b.rest == more
  {
    PropertyReplied(p, 1, key, None, ROLL, text, more);
    hide PropertyRun, Dialogue, Cipher, TextIn, PropertyRequest, AlcsCipher.Inverse;
  }

  /** With any device: when the answer to the write escapes, so does set_power. */
  lemma WriteEscapes(p: Setup, key: bytes, text: bytes, desired: bool)
    requires |key| == 16 && AlcsCipher.Inverse(p.enc, p.dec, key) && 1 <= |text| < 16
    requires Coap.Request(ROLL.mid, ROLL.token, p.authPath, p.authBody(ROLL.nonce, ROLL.id), SessionOptions(None)).Some?
    requires forall write :: PropertyRequest(p, 1, key, write, ROLL).Some?
    requires SessionIn(p, ROLL.nonce, ROLL.id, [1]) == Ok((1, key))
    requires TextIn(p, ROLL.id, [2]).Ok? && Power(TextIn(p, ROLL.id, [2]).value) == Some(!desired)
    requires TextIn(p, ROLL.id, text) == Raised(Uncaught)
    ensures |Cipher(p, key, [2])| == 16 == |Cipher(p, key, text)|
    ensures var t := SetPowerRun(p, desired, ROLLS, WriteScript(p, key, text));
      t.result == WasUncaught && Begun in t.log && exists i :: 0 <= i < |t.log| && IsWrite(t.log[i])
  {
    hide AuthRun, ReadRun, PropertyRun, Dialogue, Cipher, SessionIn, SetPowerRun, PropertyRequest, AlcsCipher.Inverse;
    hide Coap.Request, TextIn, SessionOptions, IsWrite, Power;
    PropertyReplied(p, 1, key, Some(desired), ROLL, text, []);
    ReadReplied(p, key, [2], !desired, []);
    var second, third := Dialogue(p, ROLL, ENCRYPTED, Cipher(p, key, [2])), Dialogue(p, ROLL, ENCRYPTED, Cipher(p, key, text));
    AuthReplied(p, ROLL, [1], second + third);
    ReadReplied(p, key, [2], !desired, third);
    assert third + [] == third;
    EndsWithWrite(p, desired, ROLLS, WriteScript(p, key, text), 1, key);
  }

  lemma WitnessTexts()
    ensures TextIn(Witness(), ROLL.id, [2]).Ok? && Power(TextIn(Witness(), ROLL.id, [2]).value) == Some(false)
    ensures TextIn(Witness(), ROLL.id, [5]) == Raised(Uncaught)
    ensures SessionIn(Witness(), ROLL.nonce, ROLL.id, [1]) == Ok((1, KEY))
    ensures Witness().authPath == PATH && Witness().authBody(ROLL.nonce, ROLL.id) == [1]
  {
    AuthTexts();
    hide SessionIn;
    assert TextIn(Witness(), 0, [2]) == Ok(Object(map["PowerSwitch" := Int(0)]));
  }

  /**
   * After the write: the write datagram was sent, and its answer makes the JSON parser give up.
   * The caller is told neither that the outcome is unknown nor that the write was not sent.
   */
  lemma TheWriteCanEscape()
    ensures |Cipher(Witness(), KEY, [2])| == 16 == |Cipher(Witness(), KEY, [5])|
    ensures var t := SetPowerRun(Witness(), true, ROLLS, WriteScript(Witness(), KEY, [5]));
      t.result == WasUncaught && Begun in t.log && exists i :: 0 <= i < |t.log| && IsWrite(t.log[i])
  {
    assert |KEY| == 16 && ROLL.mid == 0;
    hide *;
    WitnessTexts();
    RequestsArePrinted([1]);
    WitnessRequests();
    WriteEscapes(Witness(), KEY, [5], true);
  }
}
