/** What the diagnostics tool reads and writes, octet by octet. */
module ProbeFormat {
  import opened Bytes
  import opened Coap
  import opened CoapFormat
  import opened CoapProbe

  // ---------------------------------------------------------------- reading

  predicate Twice(options: Options, number: int)
  {
    exists i, j :: 0 <= i < j < |options| && options[i].number == number && options[j].number == number
  }

  function NumbersIn(options: Options): set<int>
  {
    set i | 0 <= i < |options| :: options[i].number
  }

  /** Entity tag, content format, Block2 and Size2 stand once at most, and fewer than 64 numbers before the last option. */
  predicate Readable(options: Options)
  {
    && !Twice(options, 4) && !Twice(options, 12) && !Twice(options, 23) && !Twice(options, 28)
    && (options != [] ==> |NumbersIn(options[..|options| - 1])| < 64)
  }

  /** The dictionary holds the last value of every number. */
  predicate Keeps(options: Options, kept: map<int, bytes>)
  {
    && kept.Keys == NumbersIn(options)
    && forall i :: 0 <= i < |options| ==> IsLast(options, i) ==> kept[options[i].number] == options[i].value
  }

  predicate IsLast(options: Options, i: nat)
    requires i < |options|
  {
    forall j :: i < j < |options| ==> options[j].number != options[i].number
  }

  lemma {:induction false} NumbersAreIn(options: Options)
    ensures Numbers(options) == NumbersIn(options)
  {
    if options != [] {
      var init := options[..|options| - 1];
      NumbersAreIn(init);
      assert forall i :: 0 <= i < |init| ==> init[i] == options[i];
      assert NumbersIn(options) == NumbersIn(init) + {options[|init|].number};
    }
  }

  lemma {:induction false} CountsTwice(options: Options, number: int)
    ensures |Values(options, number)| > 1 <==> Twice(options, number)
    ensures |Values(options, number)| > 0 <==> number in NumbersIn(options)
  {
    if options != [] {
      var init, last := options[..|options| - 1], options[|options| - 1];
      CountsTwice(init, number);
      assert forall i :: 0 <= i < |init| ==> init[i] == options[i];
      assert NumbersIn(options) == NumbersIn(init) + {last.number};
      if Twice(init, number) {
        var i, j :| 0 <= i < j < |init| && init[i].number == number && init[j].number == number;
        assert options[i].number == number && options[j].number == number;
      }
      if last.number == number && number in NumbersIn(init) {
        var i :| 0 <= i < |init| && init[i].number == number;
        assert options[i].number == number && options[|init|].number == number;
      }
    }
  }

  lemma AcceptedMeansReadable(options: Options)
    ensures Accepted(options) <==> Readable(options)
  {
    hide Accepted, Values, Twice, NumbersIn, Numbers;
    AcceptedIff(options);
    CountsTwice(options, 4);
    CountsTwice(options, 12);
    CountsTwice(options, 23);
    CountsTwice(options, 28);
    if options != [] {
      NumbersAreIn(options[..|options| - 1]);
    }
  }

  lemma {:induction false} LastValuesAreKept(options: Options)
    ensures Keeps(options, LastValues(options))
  {
    NumbersAreIn(options);
    if options != [] {
      var init, last := options[..|options| - 1], options[|options| - 1];
      LastValuesAreKept(init);
      NumbersAreIn(init);
      forall i | 0 <= i < |options| && IsLast(options, i)
        ensures LastValues(options)[options[i].number] == options[i].value
      {
        if i < |init| {
          assert init[i] == options[i];
          forall j | i < j < |init| ensures init[j].number != init[i].number {
            assert init[j] == options[j];
          }
          assert IsLast(init, i);
        }
      }
    }
  }

  lemma {:induction false} SomeLast(options: Options, number: int) returns (i: nat)
    requires number in NumbersIn(options)
    ensures i < |options| && options[i].number == number && IsLast(options, i)
  {
    i := |options| - 1;
    if options[i].number != number {
      var init := options[..i];
      assert forall j :: 0 <= j < |init| ==> init[j] == options[j];
      var k :| 0 <= k < |options| && options[k].number == number;
      assert init[k].number == number;
      i := SomeLast(init, number);
    }
  }

  lemma KeptOnce(options: Options, a: map<int, bytes>, b: map<int, bytes>)
    requires Keeps(options, a) && Keeps(options, b)
    ensures a == b
  {
    forall n | n in a ensures a[n] == b[n] {
      var i := SomeLast(options, n);
    }
  }

  lemma ReadHasTheFormat(data: bytes, p: ProbeMessage) returns (m: Message)
    requires CoapProbe.Decode(data) == Some(p)
    ensures Print(m) == Some(data) && Accepted(m.options)
    ensures p == ProbeMessage(m.kind, m.code, m.mid, m.token, LastValues(m.options), m.payload)
  {
    hide ParseOptions, PrintOptions, Accepted, LastValues;
    var n := data[0] % 16;
    ReadOptionsPrintBack(data[4 + n..], 0);
    var (options, rest) := ParseOptions(data[4 + n..], 0).value;
    m := Message(data[0] / 16 % 4, data[1], data[2] as int * 256 + data[3] as int, data[4..4 + n], options,
                 if rest == [] then [] else rest[1..]);
    HeadOf(data, n);
    PayloadIsRest(rest);
    hide PrintPayload, ToBytes2, Print;
    PrintsTo(m, PrintOptions(0, m.options).value, data);
  }

  lemma PayloadIsRest(rest: bytes)
    requires |rest| != 1 && (rest != [] ==> rest[0] == MARKER)
    ensures PrintPayload(if rest == [] then [] else rest[1..]) == rest
  {}

  lemma PrintsTo(m: Message, o: bytes, data: bytes)
    requires HeaderFits(m) && PrintOptions(0, m.options) == Some(o)
    requires data == [0x40 + m.kind * 16 + |m.token|, m.code] + ToBytes2(m.mid) + m.token + (o + PrintPayload(m.payload))
    ensures Print(m) == Some(data)
  {
    hide PrintOptions, PrintPayload, ToBytes2;
    var head := [0x40 + m.kind * 16 + |m.token|, m.code] + ToBytes2(m.mid) + m.token;
    assert head + (o + PrintPayload(m.payload)) == head + o + PrintPayload(m.payload);
  }

  lemma HeadOf(data: bytes, n: nat)
    requires |data| >= 4 + n && data[0] / 64 == 1 && n == data[0] % 16
    ensures data == [0x40 + data[0] / 16 % 4 * 16 + n, data[1]] + ToBytes2(data[2] as int * 256 + data[3] as int)
                    + data[4..4 + n] + data[4 + n..]
  {
    assert ToBytes2(data[2] as int * 256 + data[3] as int) == data[2..4];
    assert data[..2] == [data[0], data[1]];
  }

  lemma FormatIsRead(data: bytes, m: Message)
    requires Print(m) == Some(data) && Accepted(m.options)
    ensures CoapProbe.Decode(data) == Some(ProbeMessage(m.kind, m.code, m.mid, m.token, LastValues(m.options), m.payload))
  {
    hide ParseOptions, PrintOptions, Accepted, LastValues;
    var n := |m.token|;
    var o := PrintOptions(0, m.options).value;
    PrintedOptionsReadBack(0, m.options, PrintPayload(m.payload));
    assert data[4 + n..] == o + PrintPayload(m.payload);
    assert data[4..4 + n] == m.token;
    assert data[0] == 0x40 + m.kind * 16 + n && data[1] == m.code;
    assert data[2..4] == ToBytes2(m.mid);
    assert m.payload != [] ==> PrintPayload(m.payload)[1..] == m.payload;
  }

  /** A datagram of any size is read exactly if it has the format and its options are readable. */
  lemma ReadIff(data: bytes, p: ProbeMessage)
    ensures CoapProbe.Decode(data) == Some(p)
       <==> exists m: Message :: MessageOctets(data, m) && Readable(m.options) && Keeps(m.options, p.options)
                                 && p == ProbeMessage(m.kind, m.code, m.mid, m.token, p.options, m.payload)
  {
    hide CoapProbe.Decode, MessageOctets, Readable, Keeps, Print, Accepted;
    if CoapProbe.Decode(data) == Some(p) {
      var m := ReadHasTheFormat(data, p);
      FormatIsPrint(data, m);
      AcceptedMeansReadable(m.options);
      LastValuesAreKept(m.options);
    }
    if m: Message :| MessageOctets(data, m) && Readable(m.options) && Keeps(m.options, p.options)
                     && p == ProbeMessage(m.kind, m.code, m.mid, m.token, p.options, m.payload) {
      FormatIsPrint(data, m);
      AcceptedMeansReadable(m.options);
      LastValuesAreKept(m.options);
      KeptOnce(m.options, p.options, LastValues(m.options));
      FormatIsRead(data, m);
    }
  }

  // ---------------------------------------------------------------- writing

  /** The shortest big-endian form of a number. */
  predicate Shortest(octets: bytes, value: nat)
  {
    FromBytes(octets) == value && (octets != [] ==> octets[0] != 0)
  }

  /** One option with this number if there is a value for it. */
  predicate Holds(options: Options, number: int, value: Option<nat>)
  {
    if value.None? then options == []
    else |options| == 1 && options[0].number == number && Shortest(options[0].value, value.value)
  }

  function Slashes(n: nat): bytes
  {
    seq(n, _ => 0x2F)
  }

  /** The segments with a slash between each two. */
  function Path(segments: seq<bytes>): bytes
    requires segments != []
  {
    if |segments| == 1 then segments[0] else Path(segments[..|segments| - 1]) + [0x2F] + segments[|segments| - 1]
  }

  /** The path is made of these segments, with any slashes around them. */
  ghost predicate Consists(path: bytes, segments: seq<bytes>)
  {
    && segments != []
    && (forall i :: 0 <= i < |segments| ==> 0x2F !in segments[i])
    && (exists before: nat, after: nat :: path == Slashes(before) + Path(segments) + Slashes(after))
    && (Path(segments) != [] ==> Path(segments)[0] != 0x2F && Path(segments)[|Path(segments)| - 1] != 0x2F)
  }

  function UriPath(segments: seq<bytes>): Options
  {
    seq(|segments|, i requires 0 <= i < |segments| => CoapOption(11, segments[i]))
  }

  lemma {:induction false} UintIsShortest(value: nat)
    ensures Shortest(Uint(value), value)
  {
    UintReadsBack(value);
    if value >= 256 {
      UintIsShortest(value / 256);
      UintNotEmpty(value / 256);
    } else if value > 0 {
      assert Uint(value / 256) == [];
    }
  }

  lemma UintNotEmpty(value: nat)
    requires value > 0
    ensures Uint(value) != []
  {}

  lemma {:induction false} SplitJoins(path: bytes)
    ensures Path(Split(path)) == path
    ensures forall i :: 0 <= i < |Split(path)| ==> 0x2F !in Split(path)[i]
  {
    if path != [] {
      var init, last := Split(path[..|path| - 1]), path[|path| - 1];
      SplitJoins(path[..|path| - 1]);
      assert path == path[..|path| - 1] + [last];
      var parts := Split(path);
      assert parts[..|parts| - 1] == if last == SLASH then init else init[..|init| - 1];
    }
  }

  lemma {:induction false} StripsLeft(path: bytes) returns (n: nat)
    ensures path == Slashes(n) + StripLeft(path) && (StripLeft(path) != [] ==> StripLeft(path)[0] != 0x2F)
  {
    n := 0;
    if path != [] && path[0] == SLASH {
      var m := StripsLeft(path[1..]);
      n := m + 1;
      assert Slashes(n) == [0x2F] + Slashes(m);
      assert path == [0x2F] + path[1..];
    }
  }

  lemma {:induction false} StripsRight(path: bytes) returns (n: nat)
    ensures path == StripRight(path) + Slashes(n)
    ensures StripRight(path) != [] ==> StripRight(path)[|StripRight(path)| - 1] != 0x2F
  {
    n := 0;
    if path != [] && path[|path| - 1] == SLASH {
      var m := StripsRight(path[..|path| - 1]);
      n := m + 1;
      assert Slashes(n) == Slashes(m) + [0x2F];
      assert path == path[..|path| - 1] + [0x2F];
    }
  }

  lemma SegmentsOfThePath(path: bytes)
    ensures Consists(path, Split(StripRight(StripLeft(path))))
  {
    hide StripLeft, StripRight, Split, Path;
    var left := StripLeft(path);
    var middle := StripRight(left);
    var before := StripsLeft(path);
    var after := StripsRight(left);
    SplitJoins(middle);
    assert path == Slashes(before) + middle + Slashes(after);
    assert middle != [] ==> left[0] == middle[0];
  }

  /** What is in order already stays as it is. */
  lemma {:induction false} SortedStays(options: Options)
    requires Sorted(options)
    ensures StableSort(options) == options
  {
    if options != [] {
      SortedStays(options[..|options| - 1]);
      assert options == options[..|options| - 1] + [options[|options| - 1]];
    }
  }

  lemma OptionalHolds(number: int, value: Option<nat>)
    ensures Holds(Optional(number, value), number, value)
    ensures forall i :: 0 <= i < |Optional(number, value)| ==> Optional(number, value)[i].number == number
  {
    if value.Some? {
      UintIsShortest(value.value);
    }
  }

  /** The options are written in the order in which they are made, since that is already ascending. */
  lemma GetOptionsAre(path: bytes, hasBody: bool, contentFormat: Option<nat>, accept: Option<nat>, block: Option<nat>)
    ensures GetOptions(path, hasBody, contentFormat, accept, block)
         == UriPath(Split(StripRight(StripLeft(path)))) + Optional(12, if hasBody then contentFormat else None)
            + Optional(17, accept) + Optional(23, block)
  {
    hide StableSort, Split, StripLeft, StripRight, Optional, Shortest, Holds;
    var parts := Split(StripRight(StripLeft(path)));
    assert PathOptions(parts) == UriPath(parts);
    OptionalHolds(12, if hasBody then contentFormat else None);
    OptionalHolds(17, accept);
    OptionalHolds(23, block);
    SortedStays(PathOptions(parts) + Optional(12, if hasBody then contentFormat else None)
                + Optional(17, accept) + Optional(23, block));
  }

  /**
   * A GET: its type, its path segment by segment, the content format only with a body, the accepted
   * format and the block, in this order, and then the body.
   */
  lemma GetHasTheFormat(
    path: bytes, token: bytes, mid: u16, payload: bytes, confirmable: bool,
    contentFormat: Option<nat>, accept: Option<nat>, block: Option<nat>, data: bytes)
    requires EncodeGet(path, token, mid, payload, confirmable, contentFormat, accept, block) == Some(data)
    ensures path != [] && path[0] == 0x2F && |token| == 8
    ensures exists segments: seq<bytes>, a: Options, b: Options, c: Options ::
      && Consists(path, segments)
      && Holds(a, 12, if payload == [] then None else contentFormat) && Holds(b, 17, accept) && Holds(c, 23, block)
      && MessageOctets(data, Message(if confirmable then 0 else 1, 1, mid, token, UriPath(segments) + a + b + c, payload))
  {
    hide Print, MessageOctets, GetOptions, Split, StripLeft, StripRight, Optional, Holds, Consists, UriPath;
    var segments := Split(StripRight(StripLeft(path)));
    var format := if payload == [] then None else contentFormat;
    GetOptionsAre(path, payload != [], contentFormat, accept, block);
    SegmentsOfThePath(path);
    OptionalHolds(12, format);
    OptionalHolds(17, accept);
    OptionalHolds(23, block);
    FormatIsPrint(data, Message(if confirmable then 0 else 1, 1, mid, token,
                                UriPath(segments) + Optional(12, format) + Optional(17, accept) + Optional(23, block), payload));
  }

  predicate AllFit(options: Options)
  {
    forall i :: 0 <= i < |options| ==> |options[i].value| <= 65804
  }

  lemma {:induction false} SmallNumbersFit(previous: int, options: Options)
    requires Sorted(options) && 0 <= previous && forall i :: 0 <= i < |options| ==> previous <= options[i].number <= 100
    ensures Encodable(previous, options) <==> AllFit(options)
    decreases |options|
  {
    if options != [] {
      var rest := options[1..];
      assert forall i :: 0 <= i < |rest| ==> rest[i] == options[i + 1];
      SmallNumbersFit(options[0].number, rest);
      assert forall i :: 1 <= i < |options| ==> options[i] == rest[i - 1];
    }
  }

  /** A GET is refused only for a path without a leading slash, a token that is not eight octets, or a value too long to encode. */
  lemma GetExistsIff(
    path: bytes, token: bytes, mid: u16, payload: bytes, confirmable: bool,
    contentFormat: Option<nat>, accept: Option<nat>, block: Option<nat>)
    ensures EncodeGet(path, token, mid, payload, confirmable, contentFormat, accept, block).Some?
       <==> path != [] && path[0] == 0x2F && |token| == 8
            && AllFit(UriPath(Split(StripRight(StripLeft(path)))) + Optional(12, if payload != [] then contentFormat else None)
                      + Optional(17, accept) + Optional(23, block))
  {
    hide Split, StripLeft, StripRight, Optional, GetOptions, PrintOptions;
    GetOptionsAre(path, payload != [], contentFormat, accept, block);
    var options := GetOptions(path, payload != [], contentFormat, accept, block);
    PrintableIff(0, options);
    OptionalHolds(12, if payload != [] then contentFormat else None);
    OptionalHolds(17, accept);
    OptionalHolds(23, block);
    SmallNumbersFit(0, options);
    hide Encodable, AllFit;
  }
}