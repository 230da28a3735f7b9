/** The read-only discovery envelopes (protocols/coap_discovery.py), a second CoAP reader. */
module CoapDiscovery {
  import opened Bytes
  import opened Coap

  const MAX_RESPONSE := 32768

  datatype CoapResponse = CoapResponse(token: bytes, messageId: u16, confirmable: bool, payload: bytes)

  /** The options that a discovery response may carry, seen on their own. */
  predicate OptionAllowed(option: CoapOption)
  {
    var v := option.value;
    if option.number == 12 then |v| <= 2 && FromBytes(v) in {0, 50}
    else if option.number == 23 then |v| <= 3 && FromBytes(v) / 8 == 0
    else option.number % 2 == 1 ==> option.number in {1, 3, 5, 7, 11, 15, 17}
  }

  /** The option loop of decode_response: what follows the options, if all of them may stay. */
  function ResponseOptions(s: bytes, number: int, seen: set<int>): Option<bytes>
    decreases |s|
  {
    if s == [] || s[0] == MARKER then Some(s)
    else
      var one := ParseOption(s, number);
      if one == None then None
      else
        var option := one.value.0;
        if option.number in {12, 23} && option.number in seen then None
        else if !OptionAllowed(option) then None
        else
          ResponseOptions(one.value.1, option.number,
                          if option.number in {12, 23} then seen + {option.number} else seen)
  }

  function DecodeResponse(data: bytes): Option<CoapResponse>
  {
    if !(4 <= |data| <= MAX_RESPONSE) || data[0] / 64 != 1 then None
    else
      var kind := data[0] / 16 % 4;
      if data[0] % 16 != 8 || kind !in {0, 1} || data[1] / 32 != 2 then None
      else if |data| <= 12 then None
      else
        var rest := ResponseOptions(data[12..], 0, {});
        if rest == None || |rest.value| <= 1 then None
        else Some(CoapResponse(data[4..12], data[2] as int * 256 + data[3] as int, kind == 0, rest.value[1..]))
  }

  /** decode_response, with its loop. */
  method DecodeResponseDatagram(data: bytes) returns (r: Option<CoapResponse>)
    ensures r == DecodeResponse(data)
  {
    hide ParseOption;
    if !(4 <= |data| <= MAX_RESPONSE) || data[0] / 64 != 1 {
      return None;
    }
    var tokenLength := data[0] % 16;
    var messageType := data[0] / 16 % 4;
    if tokenLength != 8 || messageType !in {0, 1} || data[1] / 32 != 2 {
      return None;
    }
    var offset := 4 + tokenLength;
    if offset >= |data| {
      return None;
    }
    var number := 0;
    var seen: set<int> := {};
    while offset < |data| && data[offset] != MARKER
      invariant 12 <= offset <= |data|
      invariant ResponseOptions(data[12..], 0, {}) == ResponseOptions(data[offset..], number, seen)
      decreases |data| - offset
    {
      var one := OptionAt(data, offset, number);
      if one == None {
        return None;
      }
      var option := one.value.0;
      offset, number := one.value.1, option.number;
      if number in {12, 23} {
        if number in seen {
          return None;
        }
        seen := seen + {number};
      }
      if !OptionAllowed(option) {
        return None;
      }
    }
    if offset + 1 >= |data| {
      return None;
    }
    FromBytes2(data[2..4]);
    assert data[offset..][1..] == data[offset + 1..];
    r := Some(CoapResponse(data[4..12], FromBytes(data[2..4]), messageType == 0, data[offset + 1..]));
  }

  // ---------------------------------------------------------------- the two readers

  predicate OptionsAllowed(options: Options, seen: set<int>)
  {
    && (forall i :: 0 <= i < |options| ==> OptionAllowed(options[i]))
    && (forall k :: k in {12, 23} ==> |Values(options, k)| + (if k in seen then 1 else 0) <= 1)
  }

  lemma {:induction false} ResponseLoopIsAFilter(s: bytes, number: int, seen: set<int>)
    requires seen <= {12, 23}
    ensures ResponseOptions(s, number, seen).Some?
       <==> ParseOptions(s, number).Some? && OptionsAllowed(ParseOptions(s, number).value.0, seen)
    ensures ResponseOptions(s, number, seen).Some? ==>
      ResponseOptions(s, number, seen).value == ParseOptions(s, number).value.1
    decreases |s|
  {
    hide ParseOption, OptionAllowed;
    if s != [] && s[0] != MARKER && ParseOption(s, number).Some? {
      var (option, rest) := ParseOption(s, number).value;
      var seen' := if option.number in {12, 23} then seen + {option.number} else seen;
      ResponseLoopIsAFilter(rest, option.number, seen');
      if ParseOptions(rest, option.number).Some? {
        AllowedStep(option, ParseOptions(rest, option.number).value.0, seen);
      }
    }
  }

  lemma AllowedStep(option: CoapOption, rest: Options, seen: set<int>)
    requires seen <= {12, 23}
    ensures OptionsAllowed([option] + rest, seen)
       <==> OptionAllowed(option) && !(option.number in {12, 23} && option.number in seen)
            && OptionsAllowed(rest, if option.number in {12, 23} then seen + {option.number} else seen)
  {
    hide OptionAllowed;
    var all := [option] + rest;
    forall k: int
      ensures |Values(all, k)| == (if k == option.number then 1 else 0) + |Values(rest, k)|
    {
      ValuesConcat([option], rest, k);
      assert [option][..0] == [];
    }
    assert forall i :: 0 <= i < |rest| ==> all[i + 1] == rest[i];
    assert all[0] == option;
    if OptionAllowed(option) && (forall i :: 0 <= i < |rest| ==> OptionAllowed(rest[i])) {
      forall i | 0 <= i < |all|
        ensures OptionAllowed(all[i])
      {
        assert i > 0 ==> all[i] == rest[i - 1];
      }
    }
    if forall i :: 0 <= i < |all| ==> OptionAllowed(all[i]) {
      forall i | 0 <= i < |rest|
        ensures OptionAllowed(rest[i])
      {
        assert all[i + 1] == rest[i];
      }
    }
  }

  /**
   * Within the smaller of the two size limits the discovery reader accepts exactly the
   * messages of the general reader that are successful CON or NON responses with an
   * eight-byte token, a payload and only allowed options, and reads the same token,
   * message id and payload from them.
   */
  lemma ReadersAgree(data: bytes)
    requires |data| <= 16384
    ensures DecodeResponse(data).Some?
       <==> Parse(data).Some? && ResponseMessage(Parse(data).value)
    ensures DecodeResponse(data).Some? ==>
      DecodeResponse(data).value == var m := Parse(data).value; CoapResponse(m.token, m.mid, m.kind == 0, m.payload)
  {
    hide ParseOptions, ResponseOptions, OptionsAllowed;
    if 12 <= |data| && data[0] % 16 == 8 {
      ResponseLoopIsAFilter(data[12..], 0, {});
      EmptyRest();
      if Parse(data).Some? {
        var rest := ParseOptions(data[12..], 0).value.1;
        assert Parse(data).value.payload == if rest == [] then [] else rest[1..];
      }
    }
  }

  lemma EmptyRest()
    ensures ParseOptions([], 0) == Some(([], []))
  {}

  predicate ResponseMessage(m: Message)
  {
    m.kind in {0, 1} && |m.token| == 8 && m.code / 32 == 2 && m.payload != [] && OptionsAllowed(m.options, {})
  }

  // ---------------------------------------------------------------- the requests

  datatype Mechanism = DeviceInfo | Alcs

  /** "/sys/device/info/get" and "/dev/core/service/dev", split at the slashes. */
  function Segments(mechanism: Mechanism): (segments: seq<bytes>)
    ensures forall i :: 0 <= i < |segments| ==> 1 <= |segments[i]| < 13
  {
    match mechanism
    case DeviceInfo =>
      [[0x73, 0x79, 0x73], [0x64, 0x65, 0x76, 0x69, 0x63, 0x65], [0x69, 0x6E, 0x66, 0x6F], [0x67, 0x65, 0x74]]
    case Alcs =>
      [[0x64, 0x65, 0x76], [0x63, 0x6F, 0x72, 0x65], [0x73, 0x65, 0x72, 0x76, 0x69, 0x63, 0x65], [0x64, 0x65, 0x76]]
  }

  /** The message that encode_discovery_request means: a NON GET with path and content format. */
  function DiscoveryMessage(mechanism: Mechanism, token: bytes, mid: u16, payload: bytes): Message
  {
    Message(1, 1, mid, token, PathOptions(Segments(mechanism)) + [CoapOption(12, [0x32])], payload)
  }

  /** The segment loop of encode_discovery_request. */
  method PrintSegments(head: bytes, parts: seq<bytes>, ghost last: Options) returns (packet: bytes)
    requires parts != [] && forall i :: 0 <= i < |parts| ==> |parts[i]| < 13
    ensures Continued(head, PrintOptions(0, PathOptions(parts) + last)) == Continued(packet, PrintOptions(11, last))
  {
    hide PrintOption;
    packet := head;
    var previous := 0;
    ghost var options := PathOptions(parts) + last;
    assert options[0..] == options;
    for i := 0 to |parts|
      invariant previous == 0 || previous == 11
      invariant i > 0 ==> previous == 11
      invariant Continued(head, PrintOptions(0, options)) == Continued(packet, PrintOptions(previous, options[i..]))
    {
      var value := parts[i];
      SegmentPrints(previous, value);
      assert options[i..][0] == CoapOption(11, value) && options[i..][1..] == options[i + 1..];
      ghost var one: bytes := [(11 - previous) * 16 + |value|] + value;
      ContinueTwice(packet, one, PrintOptions(11, options[i + 1..]));
      ghost var before: bytes := packet;
      packet := packet + [(11 - previous) * 16 + |value|];
      packet := packet + value;
      assert packet == before + one;
      previous := 11;
    }
    assert options[|parts|..] == last;
  }

  /**
   * encode_discovery_request, which relies on every segment and delta fitting one nibble.
   * `payload` is the JSON text of the request, which is never empty.
   */
  method EncodeDiscoveryRequest(mechanism: Mechanism, token: bytes, messageId: int, payload: bytes)
    returns (r: Option<bytes>)
    requires payload != []
    ensures r == if |token| != 8 || !(0 <= messageId <= 0xFFFF) then None
                 else Print(DiscoveryMessage(mechanism, token, messageId, payload))
  {
    hide PrintOptions, Segments;
    if |token| != 8 || !(0 <= messageId <= 0xFFFF) {
      return None;
    }
    var head: bytes := [0x58, 0x01] + ToBytes2(messageId) + token;
    ghost var format := [CoapOption(12, [0x32])];
    SomeSegments(mechanism);
    var packet := PrintSegments(head, Segments(mechanism), format);
    FormatOptionPrints(format);
    ghost var printed: bytes := packet + [0x11, 0x32];
    packet := packet + [0x11, 0x32];
    packet := packet + [MARKER];
    packet := packet + payload;
    assert packet == printed + PrintPayload(payload);
    r := Some(packet);
  }

  lemma SomeSegments(mechanism: Mechanism)
    ensures Segments(mechanism) != []
  {}

  /** A short segment and its delta share one header byte. */
  lemma SegmentPrints(previous: int, value: bytes)
    requires previous == 0 || previous == 11
    requires |value| < 13
    ensures 0 <= (11 - previous) * 16 + |value| < 256
    ensures PrintOption(previous, CoapOption(11, value)) == Some([(11 - previous) * 16 + |value|] + value)
  {
    assert [(11 - previous) * 16 + |value|] + [] + [] + value == [(11 - previous) * 16 + |value|] + value;
  }

  lemma FormatOptionPrints(last: Options)
    requires last == [CoapOption(12, [0x32])]
    ensures PrintOptions(11, last) == Some([0x11, 0x32])
  {
    assert last[1..] == [];
    assert PrintOption(11, last[0]) == Some([0x11] + [] + [] + [0x32]);
    assert [0x11] + [] + [] + [0x32] + [] == [0x11, 0x32];
  }

  /** A discovery request is read by the general reader as just that message. */
  lemma DiscoveryRequestReadsBack(mechanism: Mechanism, token: bytes, mid: u16, payload: bytes)
    requires |token| == 8 && Print(DiscoveryMessage(mechanism, token, mid, payload)).Some?
    requires |Print(DiscoveryMessage(mechanism, token, mid, payload)).value| <= 16384
    ensures Parse(Print(DiscoveryMessage(mechanism, token, mid, payload)).value)
         == Some(DiscoveryMessage(mechanism, token, mid, payload))
  {
    hide Parse, Print;
    ParseOfPrint(DiscoveryMessage(mechanism, token, mid, payload));
  }

  /** encode_ack: an empty acknowledgement carrying the response's message id. */
  function EncodeAck(response: CoapResponse): bytes
  {
    [0x60, 0x00] + ToBytes2(response.messageId)
  }

  /** The acknowledgement is an empty ACK message to every reader, for any response. */
  lemma AckReadsBack(response: CoapResponse)
    ensures Parse(EncodeAck(response)) == Some(Message(2, 0, response.messageId, [], [], []))
    ensures DecodeResponse(EncodeAck(response)).None?
  {
    hide Parse;
    var m := Message(2, 0, response.messageId, [], [], []);
    assert [0x60, 0x00] + ToBytes2(response.messageId) + [] + [] + [] == EncodeAck(response);
    ParseOfPrint(m);
  }
}
