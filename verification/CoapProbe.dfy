/** The CoAP reader and GET writer of the diagnostics tool (tools/352_plus_probe.py). */
module CoapProbe {
  import opened Bytes
  import opened Coap

  const OPTION_LIMIT := 64

  datatype ProbeMessage = ProbeMessage(
    kind: nat, code: byte, mid: u16, token: bytes, options: map<int, bytes>, payload: bytes)

  predicate Single(n: int)
  {
    n in {4, 12, 23, 28}
  }

  function Numbers(options: Options): set<int>
  {
    if options == [] then {}
    else Numbers(options[..|options| - 1]) + {options[|options| - 1].number}
  }

  /** The dictionary of the tool: a repeated option keeps its last value. */
  function LastValues(options: Options): (m: map<int, bytes>)
    ensures m.Keys == Numbers(options)
  {
    if options == [] then map[]
    else LastValues(options[..|options| - 1])[options[|options| - 1].number := options[|options| - 1].value]
  }

  /** No option of the loop is refused: neither a repeated single option nor one past the limit. */
  predicate Accepted(options: Options)
  {
    options == []
    || (var init, n := options[..|options| - 1], options[|options| - 1].number;
        Accepted(init) && !(n in Numbers(init) && Single(n)) && |Numbers(init)| < OPTION_LIMIT)
  }

  function Decode(data: bytes): Option<ProbeMessage>
  {
    if |data| < 4 || data[0] / 64 != 1 || data[0] % 16 > 8 then None
    else
      var length := data[0] % 16;
      if |data| < 4 + length then None
      else
        var parsed := ParseOptions(data[4 + length..], 0);
        if parsed == None || !Accepted(parsed.value.0) || |parsed.value.1| == 1 then None
        else
          var (options, rest) := parsed.value;
          Some(ProbeMessage(data[0] / 16 % 4, data[1], data[2] as int * 256 + data[3] as int, data[4..4 + length],
                            LastValues(options), if rest == [] then [] else rest[1..]))
  }

  lemma {:induction false} AcceptedPrefix(a: Options, b: Options)
    requires Accepted(a + b)
    ensures Accepted(a)
    decreases |b|
  {
    if b == [] {
      assert a + b == a;
    } else {
      assert (a + b)[..|a + b| - 1] == a + b[..|b| - 1];
      AcceptedPrefix(a, b[..|b| - 1]);
    }
  }

  /** The option loop of the tool. */
  method OptionLoop(data: bytes, start: nat)
    returns (opts: map<int, bytes>, end: Option<nat>, ghost seen: Options)
    requires start <= |data|
    ensures var whole := ParseOptions(data[start..], 0);
      end.None? <==> whole.None? || !Accepted(whole.value.0)
    ensures end.Some? ==> start <= end.value <= |data|
    ensures end.Some? ==> ParseOptions(data[start..], 0) == Some((seen, data[end.value..]))
    ensures end.Some? ==> opts == LastValues(seen)
  {
    hide ParseOption;
    var offset, number := start, 0;
    opts, seen := map[], [];
    ghost var whole := ParseOptions(data[start..], 0);
    ContinueParseNothing(whole);
    while offset < |data| && data[offset] != MARKER
      invariant start <= offset <= |data|
      invariant opts == LastValues(seen) && Accepted(seen)
      invariant whole == ContinuedParse(seen, ParseOptions(data[offset..], number))
      decreases |data| - offset
    {
      var one := OptionAt(data, offset, number);
      if one == None {
        return opts, None, seen;
      }
      var option := one.value.0;
      offset, number := one.value.1, option.number;
      ContinueParseTwice(seen, [option], ParseOptions(data[offset..], number));
      ghost var next := seen + [option];
      assert next[..|seen|] == seen;
      if (number in opts && Single(number)) || |opts| >= OPTION_LIMIT {
        assert |opts| == |opts.Keys|;
        assert !Accepted(next);
        if whole.Some? && Accepted(whole.value.0) {
          AcceptedPrefix(next, ParseOptions(data[offset..], number).value.0);
        }
        return opts, None, seen;
      }
      assert |opts| == |opts.Keys|;
      opts := opts[number := option.value];
      seen := next;
    }
    assert seen + [] == seen;
    end := Some(offset);
  }

  method DecodeDatagram(data: bytes) returns (r: Option<ProbeMessage>)
    ensures r == Decode(data)
  {
    hide ParseOptions, LastValues, Accepted;
    if |data| < 4 || data[0] / 64 != 1 || data[0] % 16 > 8 {
      return None;
    }
    var length := data[0] % 16;
    if |data| < 4 + length {
      return None;
    }
    FromBytes2(data[2..4]);
    var opts, end, seen := OptionLoop(data, 4 + length);
    if end == None {
      return None;
    }
    var offset := end.value;
    if offset < |data| && offset + 1 == |data| {
      return None;
    }
    assert offset < |data| ==> data[offset..][1..] == data[offset + 1..];
    r := Some(ProbeMessage(data[0] / 16 % 4, data[1], FromBytes(data[2..4]), data[4..4 + length], opts,
                           if offset < |data| then data[offset + 1..] else []));
  }

  // ---------------------------------------------------------------- against the general reader

  lemma {:induction false} NumbersAreValues(options: Options, n: int)
    ensures n in Numbers(options) <==> Values(options, n) != []
    ensures n in Numbers(options) ==>
      LastValues(options)[n] == Values(options, n)[|Values(options, n)| - 1]
  {
    if options != [] {
      NumbersAreValues(options[..|options| - 1], n);
    }
  }

  ghost predicate SinglesOnce(options: Options)
  {
    forall k :: Single(k) ==> |Values(options, k)| <= 1
  }

  lemma SinglesStep(init: Options, last: CoapOption)
    ensures SinglesOnce(init + [last])
       <==> SinglesOnce(init) && !(Single(last.number) && last.number in Numbers(init))
  {
    var all := init + [last];
    assert all[..|init|] == init;
    NumbersAreValues(init, last.number);
    forall k | k != last.number
      ensures Values(all, k) == Values(init, k)
    {}
    assert Values(all, last.number) == Values(init, last.number) + [last.value];
    if SinglesOnce(all) {
      forall k | Single(k)
        ensures |Values(init, k)| <= 1
      {
        assert |Values(all, k)| <= 1;
      }
    }
    if SinglesOnce(init) && !(Single(last.number) && last.number in Numbers(init)) {
      forall k | Single(k)
        ensures |Values(all, k)| <= 1
      {
        assert |Values(init, k)| <= 1;
      }
    }
  }

  /** The two refusals of the loop in closed form: only the numbers before the last option count. */
  lemma {:induction false} AcceptedIff(options: Options)
    ensures Accepted(options)
       <==> SinglesOnce(options) && (options == [] || |Numbers(options[..|options| - 1])| < 64)
  {
    if options != [] {
      var init, last := options[..|options| - 1], options[|options| - 1];
      AcceptedIff(init);
      SinglesStep(init, last);
      assert options == init + [last];
      if init != [] {
        var shorter := Numbers(init[..|init| - 1]);
        assert shorter <= Numbers(init);
        SubsetSize(shorter, Numbers(init));
      }
    }
  }

  lemma SubsetSize(a: set<int>, b: set<int>)
    requires a <= b
    ensures |a| <= |b|
  {
    assert b == a + (b - a);
    assert a !! (b - a);
  }

  /**
   * The tool reads a datagram within the general reader's size limit exactly when the general
   * reader does, no single option is repeated and fewer than 64 numbers precede the last
   * option; it then sees the same message with the last value of every option.
   */
  lemma ReadersAgree(data: bytes)
    requires |data| <= 16384
    ensures Decode(data).Some?
       <==> Parse(data).Some? && Accepted(Parse(data).value.options)
    ensures Decode(data).Some? ==>
      var m, p := Parse(data).value, Decode(data).value;
      p == ProbeMessage(m.kind, m.code, m.mid, m.token, LastValues(m.options), m.payload)
  {
    hide ParseOptions, Accepted, LastValues;
  }

  // ---------------------------------------------------------------- the GET writer

  /** uint: the shortest big-endian form, empty for zero. */
  function Uint(value: nat): bytes
  {
    if value == 0 then [] else Uint(value / 256) + [value % 256]
  }

  lemma {:induction false} UintReadsBack(value: nat)
    ensures FromBytes(Uint(value)) == value
  {
    if value != 0 {
      UintReadsBack(value / 256);
      var s := Uint(value);
      assert s[..|s| - 1] == Uint(value / 256);
    }
  }

  /** No longer than it has to be. */
  lemma {:induction false} UintIsShort(value: nat, limit: nat)
    ensures |Uint(value)| <= limit <==> value < Power256(limit)
  {
    if value != 0 && limit != 0 {
      UintIsShort(value / 256, limit - 1);
      assert value / 256 < Power256(limit - 1) <==> value < 256 * Power256(limit - 1);
    }
  }

  function Power256(n: nat): (r: nat)
    ensures r > 0
  {
    if n == 0 then 1 else 256 * Power256(n - 1)
  }

  function StripLeft(path: bytes): bytes
  {
    if path != [] && path[0] == SLASH then StripLeft(path[1..]) else path
  }

  function StripRight(path: bytes): bytes
  {
    if path != [] && path[|path| - 1] == SLASH then StripRight(path[..|path| - 1]) else path
  }

  function Optional(number: int, value: Option<nat>): Options
  {
    if value == None then [] else [CoapOption(number, Uint(value.value))]
  }

  function GetOptions(path: bytes, hasBody: bool, contentFormat: Option<nat>, accept: Option<nat>, block: Option<nat>): Options
  {
    StableSort(PathOptions(Split(StripRight(StripLeft(path))))
               + Optional(12, if hasBody then contentFormat else None)
               + Optional(17, accept) + Optional(23, block))
  }

  /** encode_get; `payload` is the JSON text of the body, empty when there is none. */
  function EncodeGet(
    path: bytes, token: bytes, mid: u16, payload: bytes, confirmable: bool,
    contentFormat: Option<nat>, accept: Option<nat>, block: Option<nat>
  ): Option<bytes>
  {
    if path == [] || path[0] != SLASH || |token| != 8 then None
    else Print(Message(if confirmable then 0 else 1, 1, mid, token,
                       GetOptions(path, payload != [], contentFormat, accept, block), payload))
  }

  lemma GetValues(
    path: bytes, hasBody: bool, contentFormat: Option<nat>, accept: Option<nat>, block: Option<nat>, n: int)
    requires n in {12, 17, 23}
    ensures Values(GetOptions(path, hasBody, contentFormat, accept, block), n)
         == (if n == 12 && hasBody && contentFormat.Some? then [Uint(contentFormat.value)]
             else if n == 17 && accept.Some? then [Uint(accept.value)]
             else if n == 23 && block.Some? then [Uint(block.value)]
             else [])
  {
    hide StableSort, Uint, Values, Optional, PathOptions, Split, StripLeft, StripRight;
    var a := PathOptions(Split(StripRight(StripLeft(path))));
    var b := Optional(12, if hasBody then contentFormat else None);
    var c, d := Optional(17, accept), Optional(23, block);
    StableSortIsStable(a + b + c + d, n);
    ValuesConcat(a + b + c, d, n);
    ValuesConcat(a + b, c, n);
    ValuesConcat(a, b, n);
    PathValues(Split(StripRight(StripLeft(path))), n);
    OptionalValues(12, if hasBody then contentFormat else None, n);
    OptionalValues(17, accept, n);
    OptionalValues(23, block, n);
  }

  lemma OptionalValues(number: int, value: Option<nat>, n: int)
    ensures Values(Optional(number, value), n) == if value.Some? && n == number then [Uint(value.value)] else []
  {
    if value.Some? {
      assert Optional(number, value)[..0] == [];
    }
  }

  /**
   * A continuation request carries exactly the block option it was given: whoever parses the
   * datagram finds one Block2 option whose number is that value, under the request's token, in the
   * three octets that RFC 7959 allows (section 2.1) if and only if the value fits them.
   */
  lemma BlockRequestReadsBack(
    path: bytes, token: bytes, mid: u16, payload: bytes, confirmable: bool,
    contentFormat: Option<nat>, accept: Option<nat>, block: nat)
    requires EncodeGet(path, token, mid, payload, confirmable, contentFormat, accept, Some(block)).Some?
    requires |EncodeGet(path, token, mid, payload, confirmable, contentFormat, accept, Some(block)).value| <= 16384
    ensures var m := Parse(EncodeGet(path, token, mid, payload, confirmable, contentFormat, accept, Some(block)).value);
      m.Some? && m.value.token == token && m.value.mid == mid && m.value.payload == payload
      && |Values(m.value.options, 23)| == 1 && FromBytes(Values(m.value.options, 23)[0]) == block
      && (|Values(m.value.options, 23)[0]| <= 3 <==> block < 0x100_0000)
  {
    hide Parse, Print, GetOptions, Uint;
    var options := GetOptions(path, payload != [], contentFormat, accept, Some(block));
    ParseOfPrint(Message(if confirmable then 0 else 1, 1, mid, token, options, payload));
    GetValues(path, payload != [], contentFormat, accept, Some(block), 23);
    UintReadsBack(block);
    UintIsShort(block, 3);
  }
}
