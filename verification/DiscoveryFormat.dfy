/** Which datagrams the discovery reader takes for responses, and what the discovery requests are, octet by octet. */
module DiscoveryFormat {
  import opened Bytes
  import opened Coap
  import opened CoapFormat
  import opened CoapDiscovery

  /** Seen on its own: JSON or no content format, a whole body, and no critical option that is not known. */
  predicate MayStay(option: CoapOption)
  {
    && (option.number == 12 ==> |option.value| <= 2 && FromBytes(option.value) in {0, 50})
    && (option.number == 23 ==> |option.value| <= 3 && FromBytes(option.value) < 8)
    && (option.number % 2 == 1 ==> option.number in {1, 3, 5, 7, 11, 15, 17, 23})
  }

  predicate TwiceIn(options: Options, number: int)
  {
    exists i, j :: 0 <= i < j < |options| && options[i].number == number && options[j].number == number
  }

  /** A confirmable or non-confirmable success with an eight-octet token, a payload, and only such options. */
  predicate IsDiscoveryReply(m: Message)
  {
    && m.kind in {0, 1} && |m.token| == 8 && 0x40 <= m.code <= 0x5F && m.payload != []
    && (forall i :: 0 <= i < |m.options| ==> MayStay(m.options[i]))
    && !TwiceIn(m.options, 12) && !TwiceIn(m.options, 23)
  }

  lemma AllowedMeansMayStay(option: CoapOption)
    ensures OptionAllowed(option) <==> MayStay(option)
  {
    hide FromBytes;
  }

  lemma {:induction false} CountedTwice(options: Options, number: int)
    ensures |Values(options, number)| > 1 <==> TwiceIn(options, number)
    ensures |Values(options, number)| > 0 <==> exists i :: 0 <= i < |options| && options[i].number == number
  {
    if options != [] {
      var before, last := options[..|options| - 1], options[|options| - 1];
      CountedTwice(before, number);
      assert forall i :: 0 <= i < |before| ==> before[i] == options[i];
      if TwiceIn(before, number) {
        var i, j :| 0 <= i < j < |before| && before[i].number == number && before[j].number == number;
        assert options[i].number == number && options[j].number == number;
      }
      if last.number == number && |Values(before, number)| > 0 {
        var i :| 0 <= i < |before| && before[i].number == number;
        assert options[i].number == number && options[|before|].number == number;
      }
    }
  }

  lemma AllowedMeansReply(m: Message)
    ensures ResponseMessage(m) <==> IsDiscoveryReply(m)
  {
    hide MayStay, OptionAllowed, Values, TwiceIn;
    CountedTwice(m.options, 12);
    CountedTwice(m.options, 23);
    forall i | 0 <= i < |m.options| ensures OptionAllowed(m.options[i]) <==> MayStay(m.options[i]) {
      AllowedMeansMayStay(m.options[i]);
    }
  }

  lemma TakenHasTheFormat(data: bytes, r: CoapResponse) returns (m: Message)
    requires DecodeResponse(data) == Some(r)
    ensures Print(m) == Some(data) && ResponseMessage(m) && 4 <= |data| <= 32768
    ensures r == CoapResponse(m.token, m.mid, m.kind == 0, m.payload)
  {
    hide ParseOptions, ResponseOptions, OptionsAllowed, PrintOptions;
    ResponseLoopIsAFilter(data[12..], 0, {});
    ReadOptionsPrintBack(data[12..], 0);
    var (options, rest) := ParseOptions(data[12..], 0).value;
    m := Message(data[0] / 16 % 4, data[1], data[2] as int * 256 + data[3] as int, data[4..12], options, rest[1..]);
    assert rest == PrintPayload(m.payload);
    assert ToBytes2(m.mid) == data[2..4];
    assert data[..2] == [0x40 + m.kind * 16 + 8, m.code];
    assert data == data[..2] + data[2..4] + m.token + data[12..];
    var o := PrintOptions(0, m.options).value;
    var head := data[..2] + data[2..4] + m.token;
    assert head + (o + rest) == head + o + rest;
  }

  lemma FormatIsTaken(data: bytes, m: Message)
    requires Print(m) == Some(data) && ResponseMessage(m) && |data| <= 32768
    ensures DecodeResponse(data) == Some(CoapResponse(m.token, m.mid, m.kind == 0, m.payload))
  {
    hide ParseOptions, ResponseOptions, OptionsAllowed, PrintOptions;
    var o := PrintOptions(0, m.options).value;
    PrintedOptionsReadBack(0, m.options, PrintPayload(m.payload));
    assert data[12..] == o + PrintPayload(m.payload);
    assert data[4..12] == m.token;
    assert data[0] == 0x40 + m.kind * 16 + 8 && data[1] == m.code;
    assert data[2..4] == ToBytes2(m.mid);
    ResponseLoopIsAFilter(data[12..], 0, {});
    assert PrintPayload(m.payload)[1..] == m.payload;
  }

  /** A response is taken exactly from a datagram that has the format of such a message, up to 32768 octets. */
  lemma TakenIff(data: bytes, r: CoapResponse)
    ensures DecodeResponse(data) == Some(r)
       <==> |data| <= 32768
            && exists m: Message :: MessageOctets(data, m) && IsDiscoveryReply(m)
                                    && r == CoapResponse(m.token, m.mid, m.kind == 0, m.payload)
  {
    hide DecodeResponse, MessageOctets, IsDiscoveryReply, Print, ResponseMessage;
    if DecodeResponse(data) == Some(r) {
      var m := TakenHasTheFormat(data, r);
      FormatIsPrint(data, m);
      AllowedMeansReply(m);
    }
    if m: Message :| |data| <= 32768 && MessageOctets(data, m) && IsDiscoveryReply(m)
                     && r == CoapResponse(m.token, m.mid, m.kind == 0, m.payload) {
      FormatIsPrint(data, m);
      AllowedMeansReply(m);
      FormatIsTaken(data, m);
    }
  }

  // ---------------------------------------------------------------- requests

  /** The octets are the ASCII text. */
  predicate Spells(octets: bytes, text: string)
  {
    |octets| == |text| && forall k :: 0 <= k < |text| ==> octets[k] == text[k] as int
  }

  /** The segments of "/sys/device/info/get" and "/dev/core/service/dev". */
  function PathTexts(mechanism: Mechanism): seq<string>
  {
    match mechanism
    case DeviceInfo => ["sys", "device", "info", "get"]
    case Alcs => ["dev", "core", "service", "dev"]
  }

  predicate AllSpell(segments: seq<bytes>, texts: seq<string>)
  {
    |segments| == |texts| && forall i :: 0 <= i < |texts| ==> Spells(segments[i], texts[i])
  }

  lemma SegmentsSpellThePath(mechanism: Mechanism)
    ensures AllSpell(Segments(mechanism), PathTexts(mechanism))
  {}

  /** A request: a non-confirmable GET of the mechanism's path, its segments in order, in JSON. */
  lemma RequestHasTheFormat(mechanism: Mechanism, token: bytes, mid: u16, payload: bytes, data: bytes)
    requires |token| == 8 && Print(DiscoveryMessage(mechanism, token, mid, payload)) == Some(data)
    ensures exists segments: seq<bytes>, options: Options ::
      && MessageOctets(data, Message(1, 1, mid, token, options, payload))
      && |options| == |segments| + 1 && options[|segments|] == CoapOption(12, [50])
      && (forall i :: 0 <= i < |segments| ==> options[i] == CoapOption(11, segments[i]))
      && AllSpell(segments, PathTexts(mechanism))
  {
    hide Print, MessageOctets;
    FormatIsPrint(data, DiscoveryMessage(mechanism, token, mid, payload));
    SegmentsSpellThePath(mechanism);
    var segments := Segments(mechanism);
    hide Segments, AllSpell;
    var options := PathOptions(segments) + [CoapOption(12, [0x32])];
  }
}
