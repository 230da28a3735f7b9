/**
 * The CoAP printer and parser of the ALCS client (protocols/alcs_experimental.py): the message
 * format of section 3 of RFC 7252 with the option encoding of its section 3.1.
 */
module Coap {
  import opened Bytes

  const MAX_DATAGRAM := 16384
  const MAX_EXTENDED := 65804
  const MARKER: byte := 0xFF
  const URI_PATH := 11

  datatype CoapOption = CoapOption(number: int, value: bytes)

  type Options = seq<CoapOption>

  /** A message with its options in the order in which they stand on the wire. */
  datatype Message = Message(kind: nat, code: byte, mid: u16, token: bytes, options: Options, payload: bytes)

  /** What the parser hands out: the options gathered by number. */
  datatype Decoded = Decoded(
    kind: nat, code: byte, mid: u16, token: bytes, options: map<int, seq<bytes>>, payload: bytes)

  // ---------------------------------------------------------------- one option

  /** _extended: the nibble of a delta or length, and the bytes that extend it. */
  function Extended(value: int): (r: Option<(byte, bytes)>)
    ensures r.Some? <==> 0 <= value <= MAX_EXTENDED
    ensures r.Some? ==> r.value.0 <= 14
  {
    if value < 0 then None
    else if value < 13 then Some((value, []))
    else if value < 269 then Some((13, [value - 13]))
    else if value <= MAX_EXTENDED then Some((14, ToBytes2(value - 269)))
    else None
  }

  /** _option_value, on what is left of the datagram. */
  function OptionValue(nibble: nat, s: bytes): (r: Option<(nat, bytes)>)
    ensures r.Some? ==> |r.value.1| <= |s|
  {
    if nibble < 13 then Some((nibble, s))
    else if nibble == 13 then
      if |s| < 1 then None else Some((13 + s[0] as int, s[1..]))
    else if nibble == 14 then
      if |s| < 2 then None else Some((269 + FromBytes(s[..2]), s[2..]))
    else None
  }

  function PrintOption(previous: int, option: CoapOption): Option<bytes>
  {
    var delta := Extended(option.number - previous);
    var length := Extended(|option.value|);
    if delta == None || length == None then None
    else
      var header: byte := delta.value.0 * 16 + length.value.0;
      Some([header] + delta.value.1 + length.value.1 + option.value)
  }

  function PrintOptions(previous: int, options: Options): Option<bytes>
    decreases |options|
  {
    if options == [] then Some([])
    else
      var first := PrintOption(previous, options[0]);
      var rest := PrintOptions(options[0].number, options[1..]);
      if first == None || rest == None then None else Some(first.value + rest.value)
  }

  /** The option loop of the parser: the options, and what follows them. */
  function ParseOptions(s: bytes, number: int): (r: Option<(Options, bytes)>)
    ensures r.Some? ==> |r.value.1| <= |s| && (r.value.1 == [] || r.value.1[0] == MARKER)
    decreases |s|
  {
    if s == [] || s[0] == MARKER then Some(([], s))
    else
      var one := ParseOption(s, number);
      if one == None then None
      else
        var rest := ParseOptions(one.value.1, one.value.0.number);
        if rest == None then None else Some(([one.value.0] + rest.value.0, rest.value.1))
  }

  function ParseOption(s: bytes, number: int): (r: Option<(CoapOption, bytes)>)
    requires s != []
    ensures r.Some? ==> |r.value.1| < |s| && r.value.0.number >= number
  {
    var delta := OptionValue(s[0] / 16, s[1..]);
    if delta == None then None
    else
      var length := OptionValue(s[0] % 16, delta.value.1);
      if length == None || |length.value.1| < length.value.0 then None
      else
        var (n, t) := length.value;
        Some((CoapOption(number + delta.value.0, t[..n]), t[n..]))
  }

  // ---------------------------------------------------------------- one message

  function PrintPayload(payload: bytes): bytes
  {
    if payload == [] then [] else [MARKER] + payload
  }

  predicate HeaderFits(m: Message)
  {
    m.kind <= 3 && |m.token| <= 8
  }

  /** The printer for any message type and code; `encode` below is its confirmable GET. */
  function Print(m: Message): Option<bytes>
  {
    if !HeaderFits(m) || PrintOptions(0, m.options) == None then None
    else
      Some([0x40 + m.kind * 16 + |m.token|, m.code] + ToBytes2(m.mid) + m.token
           + PrintOptions(0, m.options).value + PrintPayload(m.payload))
  }

  function Parse(data: bytes): Option<Message>
  {
    if |data| < 4 || |data| > MAX_DATAGRAM || data[0] / 64 != 1 then None
    else
      var length := data[0] % 16;
      if length > 8 || |data| < 4 + length then None
      else
        var parsed := ParseOptions(data[4 + length..], 0);
        if parsed == None || |parsed.value.1| == 1 then None
        else
          var (options, rest) := parsed.value;
          Some(Message(data[0] / 16 % 4, data[1], data[2] as int * 256 + data[3] as int, data[4..4 + length],
                       options, if rest == [] then [] else rest[1..]))
  }

  // ---------------------------------------------------------------- parse undoes print

  lemma ExtendedReadsBack(value: int, rest: bytes)
    requires Extended(value).Some?
    ensures OptionValue(Extended(value).value.0, Extended(value).value.1 + rest) == Some((value, rest))
  {
    var (nibble, ext) := Extended(value).value;
    if nibble == 14 {
      assert (ext + rest)[..2] == ext;
      ToBytes2RoundTrip(value - 269);
    }
    assert (ext + rest)[|ext|..] == rest;
  }

  lemma PrintedOptionReadsBack(previous: int, option: CoapOption, rest: bytes)
    requires PrintOption(previous, option).Some?
    ensures var s := PrintOption(previous, option).value + rest;
      s != [] && s[0] != MARKER && ParseOption(s, previous) == Some((option, rest))
  {
    hide OptionValue, Extended;
    var delta, length := Extended(option.number - previous).value, Extended(|option.value|).value;
    var s := PrintOption(previous, option).value + rest;
    assert s[0] / 16 == delta.0 && s[0] % 16 == length.0;
    assert s[1..] == delta.1 + (length.1 + (option.value + rest));
    ExtendedReadsBack(option.number - previous, length.1 + (option.value + rest));
    ExtendedReadsBack(|option.value|, option.value + rest);
    assert (option.value + rest)[..|option.value|] == option.value;
    assert (option.value + rest)[|option.value|..] == rest;
  }

  lemma {:induction false} PrintedOptionsReadBack(previous: int, options: Options, rest: bytes)
    requires PrintOptions(previous, options).Some?
    requires rest == [] || rest[0] == MARKER
    ensures ParseOptions(PrintOptions(previous, options).value + rest, previous) == Some((options, rest))
    decreases |options|
  {
    hide PrintOption, ParseOption;
    if options == [] {
      assert [] + rest == rest;
    } else {
      var first := PrintOption(previous, options[0]).value;
      var tail := PrintOptions(options[0].number, options[1..]).value;
      PrintedOptionsReadBack(options[0].number, options[1..], rest);
      PrintedOptionReadsBack(previous, options[0], tail + rest);
      assert PrintOptions(previous, options).value + rest == first + (tail + rest);
      assert [options[0]] + options[1..] == options;
    }
  }

  /** Every message that can be printed within the datagram limit is read back exactly. */
  lemma ParseOfPrint(m: Message)
    requires Print(m).Some?
    ensures Parse(Print(m).value) == if |Print(m).value| <= 16384 then Some(m) else None
  {
    hide PrintOptions, ParseOptions;
    var d := Print(m).value;
    var n := |m.token|;
    var tail := PrintOptions(0, m.options).value + PrintPayload(m.payload);
    assert d[0] / 64 == 1 && d[0] % 16 == n && d[0] / 16 % 4 == m.kind;
    assert d[4..4 + n] == m.token;
    assert d[4 + n..] == tail;
    PrintedOptionsReadBack(0, m.options, PrintPayload(m.payload));
    assert m.payload != [] ==> PrintPayload(m.payload)[1..] == m.payload;
  }

  // ---------------------------------------------------------------- print undoes parse

  lemma ReadValueIsExtended(nibble: nat, s: bytes)
    requires OptionValue(nibble, s).Some?
    ensures var (value, rest) := OptionValue(nibble, s).value;
      Extended(value).Some? && Extended(value).value.0 == nibble && s == Extended(value).value.1 + rest
  {
    var (value, rest) := OptionValue(nibble, s).value;
    if nibble == 14 {
      FromBytes2RoundTrip(s[..2]);
      assert s == s[..2] + s[2..];
    }
  }

  lemma ReadOptionPrintsBack(s: bytes, number: int)
    requires s != [] && ParseOption(s, number).Some?
    ensures var (option, rest) := ParseOption(s, number).value;
      PrintOption(number, option).Some? && s == PrintOption(number, option).value + rest
  {
    hide OptionValue, Extended;
    var (option, rest) := ParseOption(s, number).value;
    var delta := OptionValue(s[0] / 16, s[1..]).value;
    var length := OptionValue(s[0] % 16, delta.1).value;
    ReadValueIsExtended(s[0] / 16, s[1..]);
    ReadValueIsExtended(s[0] % 16, delta.1);
    assert length.1 == option.value + rest;
    assert s == [s[0]] + s[1..];
  }

  lemma {:induction false} ReadOptionsPrintBack(s: bytes, number: int)
    requires ParseOptions(s, number).Some?
    ensures var (options, rest) := ParseOptions(s, number).value;
      PrintOptions(number, options).Some? && s == PrintOptions(number, options).value + rest
    decreases |s|
  {
    hide PrintOption, ParseOption;
    var (options, rest) := ParseOptions(s, number).value;
    if s == [] || s[0] == MARKER {
      assert s == [] + s;
    } else {
      var one := ParseOption(s, number).value;
      ReadOptionPrintsBack(s, number);
      ReadOptionsPrintBack(one.1, one.0.number);
      assert options[1..] == ParseOptions(one.1, one.0.number).value.0;
    }
  }

  /** Every accepted datagram is the print of what was read from it, byte for byte. */
  lemma PrintOfParse(data: bytes)
    requires Parse(data).Some?
    ensures Print(Parse(data).value) == Some(data)
  {
    hide PrintOptions, ParseOptions;
    var m := Parse(data).value;
    var n := |m.token|;
    var (options, rest) := ParseOptions(data[4 + n..], 0).value;
    ReadOptionsPrintBack(data[4 + n..], 0);
    assert rest == PrintPayload(m.payload);
    assert ToBytes2(m.mid) == data[2..4];
    assert data[0] == 0x40 + m.kind * 16 + n;
    assert data[..2] == [data[0], m.code];
    assert data == data[..2] + data[2..4] + m.token + data[4 + n..];
    var o := PrintOptions(0, m.options).value;
    var head := data[..2] + data[2..4] + m.token;
    assert head + (o + rest) == head + o + rest;
  }

  // ---------------------------------------------------------------- which messages exist

  predicate Ascending(previous: int, options: Options)
  {
    && (options != [] ==> previous <= options[0].number)
    && forall i, j :: 0 <= i < j < |options| ==> options[i].number <= options[j].number
  }

  /** Every delta and every length fits the widest encoding. */
  predicate Encodable(previous: int, options: Options)
    decreases |options|
  {
    options == []
    || (0 <= options[0].number - previous <= MAX_EXTENDED && |options[0].value| <= MAX_EXTENDED
        && Encodable(options[0].number, options[1..]))
  }

  lemma {:induction false} PrintableIff(previous: int, options: Options)
    ensures PrintOptions(previous, options).Some? <==> Encodable(previous, options)
    decreases |options|
  {
    if options != [] {
      PrintableIff(options[0].number, options[1..]);
    }
  }

  lemma {:induction false} ParsedOptionsAscend(s: bytes, number: int)
    requires ParseOptions(s, number).Some?
    ensures Ascending(number, ParseOptions(s, number).value.0)
    decreases |s|
  {
    hide ParseOption;
    if s != [] && s[0] != MARKER {
      var one := ParseOption(s, number).value;
      ParsedOptionsAscend(one.1, one.0.number);
    }
  }

  // ---------------------------------------------------------------- gathering by number

  /** The values of one option number, in order. */
  function Values(options: Options, n: int): seq<bytes>
  {
    if options == [] then []
    else
      var last := options[|options| - 1];
      Values(options[..|options| - 1], n) + (if last.number == n then [last.value] else [])
  }

  /** opts.setdefault(number, []).append(value), over all options. */
  function Gather(options: Options): map<int, seq<bytes>>
  {
    if options == [] then map[]
    else Append(Gather(options[..|options| - 1]), options[|options| - 1])
  }

  function Append(opts: map<int, seq<bytes>>, option: CoapOption): map<int, seq<bytes>>
  {
    opts[option.number := (if option.number in opts then opts[option.number] else []) + [option.value]]
  }

  /** The dictionary lists, for every number on the wire, exactly its values in wire order. */
  lemma {:induction false} GatherListsValues(options: Options, n: int)
    ensures n in Gather(options) <==> Values(options, n) != []
    ensures n in Gather(options) ==> Gather(options)[n] == Values(options, n)
  {
    if options != [] {
      GatherListsValues(options[..|options| - 1], n);
    }
  }

  lemma {:induction false} ValuesAreMembers(options: Options, n: int)
    ensures Values(options, n) != [] <==> exists i :: 0 <= i < |options| && options[i].number == n
  {
    if options != [] {
      var init := options[..|options| - 1];
      ValuesAreMembers(init, n);
      if Values(init, n) != [] {
        var i :| 0 <= i < |init| && init[i].number == n;
        assert options[i].number == n;
      }
      if i :| 0 <= i < |options| && options[i].number == n && i < |init| {
        assert init[i].number == n;
      }
    }
  }

  /** In ascending order the dictionary determines the wire order, so nothing is lost by it. */
  lemma {:induction false} GatherDeterminesOptions(a: Options, b: Options)
    requires Ascending(0, a) && Ascending(0, b)
    requires Gather(a) == Gather(b)
    ensures a == b
    decreases |a|
  {
    forall n
      ensures Values(a, n) == Values(b, n)
    {
      GatherListsValues(a, n);
      GatherListsValues(b, n);
    }
    ValuesDetermineOptions(a, b);
  }

  lemma {:induction false} ValuesDetermineOptions(a: Options, b: Options)
    requires Ascending(0, a) && Ascending(0, b)
    requires forall n :: Values(a, n) == Values(b, n)
    ensures a == b
    decreases |a|
  {
    if a == [] {
      if b != [] {
        ValuesAreMembers(b, b[0].number);
        ValuesAreMembers(a, b[0].number);
      }
    } else {
      LastNumbersAgree(a, b);
      var x, y := a[|a| - 1], b[|b| - 1];
      var a', b' := a[..|a| - 1], b[..|b| - 1];
      forall n
        ensures Values(a', n) == Values(b', n)
      {
        assert Values(a, n) == Values(b, n);
        SameButLast(a, b, n);
      }
      assert Values(a, x.number)[|Values(a, x.number)| - 1] == x.value;
      assert Values(b, x.number)[|Values(b, x.number)| - 1] == y.value;
      ValuesDetermineOptions(a', b');
      assert a == a' + [x] && b == b' + [y];
    }
  }

  lemma {:induction false} SameButLast(a: Options, b: Options, n: int)
    requires a != [] && b != [] && a[|a| - 1].number == b[|b| - 1].number
    requires Values(a, n) == Values(b, n)
    ensures Values(a[..|a| - 1], n) == Values(b[..|b| - 1], n)
  {
    ValuesOfLast(a, n);
    ValuesOfLast(b, n);
    var x, y := a[|a| - 1], b[|b| - 1];
    var va, vb := Values(a[..|a| - 1], n), Values(b[..|b| - 1], n);
    hide Values;
    if n == x.number {
      SameInit(va, x.value, vb, y.value);
    }
  }

  lemma ValuesOfLast(a: Options, n: int)
    requires a != []
    ensures var last := a[|a| - 1];
      Values(a, n) == if last.number == n then Values(a[..|a| - 1], n) + [last.value] else Values(a[..|a| - 1], n)
  {}

  lemma SameInit<T>(u: seq<T>, x: T, v: seq<T>, y: T)
    requires u + [x] == v + [y]
    ensures u == v && x == y
  {
    assert (u + [x])[|u|] == x && (v + [y])[|v|] == y;
    assert u == (u + [x])[..|u|] && v == (v + [y])[..|v|];
  }

  lemma {:induction false} LastNumbersAgree(a: Options, b: Options)
    requires Ascending(0, a) && Ascending(0, b) && a != []
    requires forall n :: Values(a, n) == Values(b, n)
    ensures b != [] && a[|a| - 1].number == b[|b| - 1].number
  {
    var n := a[|a| - 1].number;
    ValuesAreMembers(a, n);
    ValuesAreMembers(b, n);
    var m := b[|b| - 1].number;
    ValuesAreMembers(b, m);
    assert Values(a, m) == Values(b, m);
    ValuesAreMembers(a, m);
  }

  function Decode(data: bytes): Option<Decoded>
  {
    var m := Parse(data);
    if m == None then None
    else Some(Decoded(m.value.kind, m.value.code, m.value.mid, m.value.token,
                      Gather(m.value.options), m.value.payload))
  }

  /**
   * Two datagrams with the same decoding are the same datagram: every delta, length and
   * marker has one encoding, and the dictionary keeps the order that matters.
   */
  lemma DecodeIsInjective(a: bytes, b: bytes)
    requires Decode(a).Some? && Decode(a) == Decode(b)
    ensures a == b
  {
    hide ParseOptions, PrintOptions;
    var x, y := Parse(a).value, Parse(b).value;
    ParsedOptionsAscend(a[4 + |x.token|..], 0);
    ParsedOptionsAscend(b[4 + |y.token|..], 0);
    GatherDeterminesOptions(x.options, y.options);
    PrintOfParse(a);
    PrintOfParse(b);
  }

  // ---------------------------------------------------------------- the request

  const SLASH: byte := 0x2F

  /** path.split("/") without the empty parts. */
  function PathParts(path: bytes): seq<bytes>
  {
    NonEmpty(Split(path))
  }

  function Split(path: bytes): (parts: seq<bytes>)
    ensures parts != []
  {
    if path == [] then [[]]
    else
      var init := Split(path[..|path| - 1]);
      var last := path[|path| - 1];
      if last == SLASH then init + [[]]
      else init[..|init| - 1] + [init[|init| - 1] + [last]]
  }

  function NonEmpty(parts: seq<bytes>): seq<bytes>
  {
    if parts == [] then []
    else NonEmpty(parts[..|parts| - 1]) + (if parts[|parts| - 1] == [] then [] else [parts[|parts| - 1]])
  }

  function PathOptions(parts: seq<bytes>): (options: Options)
    ensures |options| == |parts|
    ensures forall i :: 0 <= i < |parts| ==> options[i] == CoapOption(URI_PATH, parts[i])
  {
    seq(|parts|, i requires 0 <= i < |parts| => CoapOption(URI_PATH, parts[i]))
  }

  /** list.sort(key=number): a stable sort. */
  function StableSort(options: Options): (sorted: Options)
    ensures |sorted| == |options|
  {
    if options == [] then []
    else Insert(StableSort(options[..|options| - 1]), options[|options| - 1])
  }

  function Insert(sorted: Options, option: CoapOption): (result: Options)
    ensures |result| == |sorted| + 1
  {
    if sorted == [] || sorted[|sorted| - 1].number <= option.number then sorted + [option]
    else Insert(sorted[..|sorted| - 1], option) + [sorted[|sorted| - 1]]
  }

  predicate Sorted(options: Options)
  {
    forall i, j :: 0 <= i < j < |options| ==> options[i].number <= options[j].number
  }

  lemma {:induction false} InsertSorts(sorted: Options, option: CoapOption)
    requires Sorted(sorted)
    ensures Sorted(Insert(sorted, option))
    ensures forall i :: 0 <= i <= |sorted| ==>
      Insert(sorted, option)[i].number <=
        if sorted == [] || sorted[|sorted| - 1].number <= option.number then option.number
        else sorted[|sorted| - 1].number
  {
    if sorted != [] && sorted[|sorted| - 1].number > option.number {
      InsertSorts(sorted[..|sorted| - 1], option);
    }
  }

  lemma {:induction false} InsertKeepsValues(sorted: Options, option: CoapOption, n: int)
    requires Sorted(sorted)
    ensures Values(Insert(sorted, option), n)
         == Values(sorted, n) + if option.number == n then [option.value] else []
  {
    var k := |sorted|;
    if k == 0 || sorted[k - 1].number <= option.number {
      assert (sorted + [option])[..k] == sorted;
    } else {
      var init, last := sorted[..k - 1], sorted[k - 1];
      InsertKeepsValues(init, option, n);
      var shorter := Insert(init, option);
      assert (shorter + [last])[..|shorter|] == shorter;
    }
  }

  /** Sorted by number, and for every number the values keep their order: sorted stably. */
  lemma {:induction false} StableSortIsStable(options: Options, n: int)
    ensures Sorted(StableSort(options))
    ensures Values(StableSort(options), n) == Values(options, n)
  {
    if options != [] {
      var init, last := options[..|options| - 1], options[|options| - 1];
      StableSortIsStable(init, n);
      InsertSorts(StableSort(init), last);
      InsertKeepsValues(StableSort(init), last, n);
    }
  }

  function RequestOptions(path: bytes, options: Options): Options
  {
    StableSort(PathOptions(PathParts(path)) + options)
  }

  /** encode, as a function of its arguments; `path` stands for its UTF-8 bytes. */
  function Request(mid: int, token: bytes, path: bytes, body: bytes, options: Options): Option<bytes>
  {
    if !(0 <= mid <= 0xFFFF) || |token| != 8 || path == [] || path[0] != SLASH then None
    else Print(Message(0, 1, mid, token, RequestOptions(path, options), body))
  }

  /** One pass of the printing loop. */
  method OptionBytes(previous: int, option: CoapOption) returns (r: Option<bytes>)
    ensures r == PrintOption(previous, option)
  {
    var delta := Extended(option.number - previous);
    if delta == None {
      return None;
    }
    var length := Extended(|option.value|);
    if length == None {
      return None;
    }
    r := Some([delta.value.0 * 16 + length.value.0] + delta.value.1 + length.value.1 + option.value);
  }

  method PrintLoop(head: bytes, parts: Options) returns (r: Option<bytes>)
    ensures r == Continued(head, PrintOptions(0, parts))
  {
    hide PrintOption;
    var out := head;
    var previous := 0;
    assert parts[0..] == parts;
    for i := 0 to |parts|
      invariant Continued(head, PrintOptions(0, parts)) == Continued(out, PrintOptions(previous, parts[i..]))
    {
      assert parts[i..][0] == parts[i] && parts[i..][1..] == parts[i + 1..];
      var one := OptionBytes(previous, parts[i]);
      if one == None {
        return None;
      }
      ContinueTwice(out, one.value, PrintOptions(parts[i].number, parts[i + 1..]));
      out := out + one.value;
      previous := parts[i].number;
    }
    assert out + [] == out;
    r := Some(out);
  }

  /** encode, with its loop over the sorted parts. */
  method Encode(mid: int, token: bytes, path: bytes, body: bytes, options: Options) returns (r: Option<bytes>)
    ensures r == Request(mid, token, path, body, options)
  {
    hide PrintOptions, RequestOptions;
    if !(0 <= mid <= 0xFFFF) || |token| != 8 || path == [] || path[0] != SLASH {
      return None;
    }
    var parts := RequestOptions(path, options);
    var head := [0x48, 0x01] + ToBytes2(mid) + token;
    var out := PrintLoop(head, parts);
    if out == None {
      return None;
    }
    r := Some(out.value + if body != [] then [MARKER] + body else []);
  }

  function Continued(printed: bytes, rest: Option<bytes>): Option<bytes>
  {
    if rest == None then None else Some(printed + rest.value)
  }

  lemma ContinueTwice(a: bytes, b: bytes, rest: Option<bytes>)
    ensures Continued(a, Continued(b, rest)) == Continued(a + b, rest)
  {
    if rest.Some? {
      assert a + (b + rest.value) == a + b + rest.value;
    }
  }

  function ContinuedParse(options: Options, rest: Option<(Options, bytes)>): Option<(Options, bytes)>
  {
    if rest == None then None else Some((options + rest.value.0, rest.value.1))
  }

  lemma ContinueParseNothing(rest: Option<(Options, bytes)>)
    ensures ContinuedParse([], rest) == rest
  {
    if rest.Some? {
      assert [] + rest.value.0 == rest.value.0;
    }
  }

  lemma ContinueParseTwice(a: Options, b: Options, rest: Option<(Options, bytes)>)
    ensures ContinuedParse(a, ContinuedParse(b, rest)) == ContinuedParse(a + b, rest)
  {
    if rest.Some? {
      assert a + (b + rest.value.0) == a + b + rest.value.0;
    }
  }

  /** _option_value with the position it takes and returns. */
  method OptionValueAt(nibble: nat, data: bytes, pos: nat) returns (r: Option<(nat, nat)>)
    requires pos <= |data|
    ensures r.None? <==> OptionValue(nibble, data[pos..]).None?
    ensures r.Some? ==> pos <= r.value.1 <= |data|
    ensures r.Some? ==> OptionValue(nibble, data[pos..]) == Some((r.value.0, data[r.value.1..]))
  {
    if nibble < 13 {
      return Some((nibble, pos));
    }
    var size := if nibble == 13 then 1 else if nibble == 14 then 2 else 0;
    if size == 0 || pos + size > |data| {
      return None;
    }
    FromBytes1(data[pos..pos + 1]);
    assert data[pos..][..size] == data[pos..pos + size];
    assert data[pos..][size..] == data[pos + size..];
    r := Some((FromBytes(data[pos..pos + size]) + (if size == 1 then 13 else 269), pos + size));
  }

  /** One pass of the option loop: header, delta, length, value. */
  method OptionAt(data: bytes, start: nat, number: int) returns (r: Option<(CoapOption, nat)>)
    requires start < |data|
    ensures r.None? <==> ParseOption(data[start..], number).None?
    ensures r.Some? ==> start < r.value.1 <= |data|
    ensures r.Some? ==> ParseOption(data[start..], number) == Some((r.value.0, data[r.value.1..]))
  {
    hide OptionValue;
    var header := data[start];
    var pos := start + 1;
    assert data[start..][1..] == data[pos..];
    var delta := OptionValueAt(header / 16, data, pos);
    if delta == None {
      return None;
    }
    pos := delta.value.1;
    var size := OptionValueAt(header % 16, data, pos);
    if size == None {
      return None;
    }
    pos := size.value.1;
    if pos + size.value.0 > |data| {
      return None;
    }
    assert data[pos..][..size.value.0] == data[pos..pos + size.value.0];
    assert data[pos..][size.value.0..] == data[pos + size.value.0..];
    r := Some((CoapOption(number + delta.value.0, data[pos..pos + size.value.0]), pos + size.value.0));
  }

  /** The option loop, over positions, with the dictionary it fills. */
  method OptionLoop(data: bytes, start: nat) returns (opts: map<int, seq<bytes>>, end: Option<nat>, ghost seen: Options)
    requires start <= |data|
    ensures end.None? <==> ParseOptions(data[start..], 0).None?
    ensures end.Some? ==> start <= end.value <= |data|
    ensures end.Some? ==> ParseOptions(data[start..], 0) == Some((seen, data[end.value..]))
    ensures end.Some? ==> opts == Gather(seen)
  {
    hide ParseOption;
    var pos, number := start, 0;
    opts, seen := map[], [];
    ghost var whole := ParseOptions(data[start..], 0);
    ContinueParseNothing(whole);
    while pos < |data| && data[pos] != MARKER
      invariant start <= pos <= |data|
      invariant opts == Gather(seen)
      invariant whole == ContinuedParse(seen, ParseOptions(data[pos..], number))
      decreases |data| - pos
    {
      var one := OptionAt(data, pos, number);
      if one == None {
        return opts, None, seen;
      }
      var option := one.value.0;
      opts := Append(opts, option);
      pos, number := one.value.1, option.number;
      assert (seen + [option])[..|seen|] == seen;
      ContinueParseTwice(seen, [option], ParseOptions(data[pos..], number));
      seen := seen + [option];
    }
    assert seen + [] == seen;
    end := Some(pos);
  }

  /** decode. */
  method DecodeDatagram(data: bytes) returns (r: Option<Decoded>)
    ensures r == Decode(data)
  {
    hide ParseOptions, Gather;
    if |data| < 4 || |data| > MAX_DATAGRAM || data[0] / 64 != 1 {
      return None;
    }
    var length := data[0] % 16;
    if length > 8 || |data| < 4 + length {
      return None;
    }
    FromBytes2(data[2..4]);
    var kind, code, mid := data[0] / 16 % 4, data[1], FromBytes(data[2..4]);
    var token := data[4..4 + length];
    var opts, end, seen := OptionLoop(data, 4 + length);
    if end == None {
      return None;
    }
    var pos := end.value;
    if pos < |data| && pos + 1 == |data| {
      return None;
    }
    assert pos < |data| ==> data[pos..][1..] == data[pos + 1..];
    r := Some(Decoded(kind, code, mid, token, opts, if pos < |data| then data[pos + 1..] else []));
  }

  // ---------------------------------------------------------------- both directions

  /**
   * A request is printed exactly for a valid message id, an eight-byte token, an absolute path
   * and options whose sorted deltas and lengths can be encoded.
   */
  lemma RequestExistsIff(mid: int, token: bytes, path: bytes, body: bytes, options: Options)
    ensures Request(mid, token, path, body, options).Some?
       <==> 0 <= mid <= 0xFFFF && |token| == 8 && path != [] && path[0] == SLASH
            && Encodable(0, RequestOptions(path, options))
  {
    PrintableIff(0, RequestOptions(path, options));
  }

  /**
   * Any request within the datagram limit is decoded to its own message id, token and body,
   * and for every option number to the values that were given for it, in the order given,
   * the path segments first.
   */
  lemma {:induction false} RequestReadsBack(mid: int, token: bytes, path: bytes, body: bytes, options: Options, n: int)
    requires Request(mid, token, path, body, options).Some?
    ensures Decode(Request(mid, token, path, body, options).value).Some?
       <==> |Request(mid, token, path, body, options).value| <= 16384
    ensures |Request(mid, token, path, body, options).value| <= 16384 ==>
      var d := Decode(Request(mid, token, path, body, options).value).value;
      && d.kind == 0 && d.code == 1 && d.mid == mid && d.token == token && d.payload == body
      && var given := (if n == URI_PATH then PathParts(path) else []) + Values(options, n);
         if n in d.options then d.options[n] == given else given == []
  {
    hide Parse, Print, RequestOptions;
    var sorted := RequestOptions(path, options);
    ParseOfPrint(Message(0, 1, mid, token, sorted, body));
    GatherListsValues(sorted, n);
    RequestValues(path, options, n);
  }

  lemma RequestValues(path: bytes, options: Options, n: int)
    ensures Values(RequestOptions(path, options), n)
         == (if n == URI_PATH then PathParts(path) else []) + Values(options, n)
  {
    StableSortIsStable(PathOptions(PathParts(path)) + options, n);
    ValuesConcat(PathOptions(PathParts(path)), options, n);
    PathValues(PathParts(path), n);
  }

  lemma {:induction false} ValuesConcat(a: Options, b: Options, n: int)
    ensures Values(a + b, n) == Values(a, n) + Values(b, n)
  {
    if b == [] {
      assert a + b == a;
    } else {
      ValuesConcat(a, b[..|b| - 1], n);
      assert (a + b)[..|a + b| - 1] == a + b[..|b| - 1];
    }
  }

  lemma {:induction false} PathValues(parts: seq<bytes>, n: int)
    ensures Values(PathOptions(parts), n) == if n == URI_PATH then parts else []
  {
    if parts != [] {
      PathValues(parts[..|parts| - 1], n);
      assert PathOptions(parts)[..|parts| - 1] == PathOptions(parts[..|parts| - 1]);
    }
  }
}
