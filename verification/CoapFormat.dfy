/** The message format of RFC 7252 in its own terms, section by section, and that the printer keeps to it. */
module CoapFormat {
  import opened Bytes
  import opened Coap

  /** Section 3.1: what a delta or length nibble means with the octets that extend it; 15 is reserved. */
  predicate Denotes(nibble: nat, extension: bytes, value: nat)
  {
    || (nibble <= 12 && extension == [] && value == nibble)
    || (nibble == 13 && |extension| == 1 && value == extension[0] as int + 13)
    || (nibble == 14 && |extension| == 2 && value == 256 * (extension[0] as int) + extension[1] + 269)
  }

  function ExtensionLength(nibble: nat): nat
  {
    if nibble == 13 then 1 else if nibble == 14 then 2 else 0
  }

  /** Figure 8: delta and length nibbles, the extended delta, the extended length, and the value. */
  predicate OptionOctets(s: bytes, delta: nat, value: bytes)
  {
    && s != []
    && var d, l := ExtensionLength(s[0] / 16), ExtensionLength(s[0] % 16);
    && |s| == 1 + d + l + |value| && s[1 + d + l..] == value
    && Denotes(s[0] / 16, s[1..1 + d], delta) && Denotes(s[0] % 16, s[1 + d..1 + d + l], |value|)
  }

  function NumberBefore(previous: int, options: Options, i: nat): int
    requires i <= |options|
  {
    if i == 0 then previous else options[i - 1].number
  }

  /** The options one after the other, each with its number less that of the one before. */
  predicate OptionsOctets(parts: seq<bytes>, previous: int, options: Options)
  {
    && |parts| == |options|
    && forall i :: 0 <= i < |options| ==>
      NumberBefore(previous, options, i) <= options[i].number
      && OptionOctets(parts[i], options[i].number - NumberBefore(previous, options, i), options[i].value)
  }

  function Flat(parts: seq<bytes>): bytes
  {
    if parts == [] then [] else parts[0] + Flat(parts[1..])
  }

  /** Section 3: version 1, type, token length, code, message id, token, options, and a marked payload if there is one. */
  ghost predicate MessageOctets(d: bytes, m: Message)
  {
    && |m.token| <= 8 && m.kind <= 3 && |d| >= 4 + |m.token|
    && d[0] == 0x40 + 0x10 * m.kind + |m.token| && d[1] == m.code && 256 * (d[2] as int) + d[3] == m.mid
    && d[4..4 + |m.token|] == m.token
    && exists parts: seq<bytes> :: OptionsThenPayload(d, parts, m)
  }

  predicate OptionsThenPayload(d: bytes, parts: seq<bytes>, m: Message)
    requires |d| >= 4 + |m.token|
  {
    OptionsOctets(parts, 0, m.options) && d[4 + |m.token|..] == Flat(parts) + if m.payload == [] then [] else [0xFF] + m.payload
  }

  lemma ExtendedIsDenoted(value: int)
    requires Extended(value).Some?
    ensures value >= 0 && Denotes(Extended(value).value.0, Extended(value).value.1, value)
    ensures |Extended(value).value.1| == ExtensionLength(Extended(value).value.0)
  {}

  lemma PrintedOption(previous: int, option: CoapOption)
    requires PrintOption(previous, option).Some?
    ensures previous <= option.number
    ensures OptionOctets(PrintOption(previous, option).value, option.number - previous, option.value)
  {
    ExtendedIsDenoted(option.number - previous);
    ExtendedIsDenoted(|option.value|);
    hide Extended;
    var (dn, dx) := Extended(option.number - previous).value;
    var (ln, lx) := Extended(|option.value|).value;
    var s := PrintOption(previous, option).value;
    assert s[0] / 16 == dn && s[0] % 16 == ln;
    hide Denotes;
    assert s[1..1 + |dx|] == dx && s[1 + |dx|..1 + |dx| + |lx|] == lx && s[1 + |dx| + |lx|..] == option.value;
  }

  lemma {:induction false} PrintedOptions(previous: int, options: Options) returns (parts: seq<bytes>)
    requires PrintOptions(previous, options).Some?
    ensures OptionsOctets(parts, previous, options) && PrintOptions(previous, options).value == Flat(parts)
    decreases |options|
  {
    hide OptionsOctets, OptionOctets, PrintOption;
    parts := [];
    if options == [] {
      NoOptions(previous);
    } else {
      var rest := PrintedOptions(options[0].number, options[1..]);
      PrintedOption(previous, options[0]);
      var first := PrintOption(previous, options[0]).value;
      parts := [first] + rest;
      Prepended(first, rest, previous, options);
    }
  }

  lemma NoOptions(previous: int)
    ensures OptionsOctets([], previous, [])
  {}

  lemma Prepended(first: bytes, rest: seq<bytes>, previous: int, options: Options)
    requires options != [] && OptionsOctets(rest, options[0].number, options[1..])
    requires previous <= options[0].number && OptionOctets(first, options[0].number - previous, options[0].value)
    ensures OptionsOctets([first] + rest, previous, options) && Flat([first] + rest) == first + Flat(rest)
  {
    hide OptionOctets;
    var parts := [first] + rest;
    assert parts[1..] == rest;
    forall i | 0 <= i < |options|
      ensures NumberBefore(previous, options, i) <= options[i].number
      ensures OptionOctets(parts[i], options[i].number - NumberBefore(previous, options, i), options[i].value)
    {
      if i > 0 {
        assert options[1..][i - 1] == options[i] && parts[i] == rest[i - 1];
        assert NumberBefore(options[0].number, options[1..], i - 1) == NumberBefore(previous, options, i);
      }
    }
  }

  /** Whatever is printed has the format of the standard, and so has whatever is accepted. */
  lemma PrintedMessage(m: Message)
    requires Print(m).Some?
    ensures MessageOctets(Print(m).value, m)
  {
    var d := Print(m).value;
    var parts := PrintedOptions(0, m.options);
    hide OptionsOctets, PrintOptions;
    assert d[4 + |m.token|..] == Flat(parts) + PrintPayload(m.payload);
    assert OptionsThenPayload(d, parts, m);
    assert d[4..4 + |m.token|] == m.token;
  }

  lemma AcceptedMessage(data: bytes)
    requires Parse(data).Some?
    ensures MessageOctets(data, Parse(data).value) && |data| <= 16384
  {
    hide Parse, Print;
    AcceptedSize(data);
    PrintOfParse(data);
    PrintedMessage(Parse(data).value);
  }

  lemma AcceptedSize(data: bytes)
    requires Parse(data).Some?
    ensures |data| <= 16384
  {
    hide ParseOptions;
  }

  // ---------------------------------------------------------------- what has the format is printed

  lemma DenotedIsExtended(nibble: nat, extension: bytes, value: nat)
    requires Denotes(nibble, extension, value)
    ensures Extended(value) == Some((nibble, extension)) && |extension| == ExtensionLength(nibble)
  {
    if nibble == 13 {
      assert extension == [value - 13];
    } else if nibble == 14 {
      assert extension == ToBytes2(value - 269);
    }
  }

  lemma OctetsArePrinted(s: bytes, previous: int, option: CoapOption)
    requires previous <= option.number && OptionOctets(s, option.number - previous, option.value)
    ensures PrintOption(previous, option) == Some(s)
  {
    var d, l := ExtensionLength(s[0] / 16), ExtensionLength(s[0] % 16);
    DenotedIsExtended(s[0] / 16, s[1..1 + d], option.number - previous);
    DenotedIsExtended(s[0] % 16, s[1 + d..1 + d + l], |option.value|);
    hide Extended, Denotes;
    assert s == [s[0]] + s[1..1 + d] + s[1 + d..1 + d + l] + s[1 + d + l..];
  }

  lemma {:induction false} OptionsArePrinted(parts: seq<bytes>, previous: int, options: Options)
    requires OptionsOctets(parts, previous, options)
    ensures PrintOptions(previous, options) == Some(Flat(parts))
    decreases |options|
  {
    if options != [] {
      OctetsArePrinted(parts[0], previous, options[0]);
      hide PrintOption, OptionOctets;
      forall i | 0 <= i < |options[1..]|
        ensures NumberBefore(options[0].number, options[1..], i) <= options[1..][i].number
        ensures OptionOctets(parts[1..][i], options[1..][i].number - NumberBefore(options[0].number, options[1..], i),
                             options[1..][i].value)
      {
        assert NumberBefore(options[0].number, options[1..], i) == NumberBefore(previous, options, i + 1);
      }
      OptionsArePrinted(parts[1..], options[0].number, options[1..]);
    }
  }

  /**
   * The printer is the format: octets have the format of a message if and only if they are what
   * is printed for it, so with the round trips the parser accepts, up to 16384 octets, exactly
   * the well-formed datagrams.
   */
  lemma {:induction false} FormatIsPrint(d: bytes, m: Message)
    ensures MessageOctets(d, m) <==> Print(m) == Some(d)
  {
    if Print(m) == Some(d) {
      PrintedMessage(m);
    }
    if MessageOctets(d, m) {
      FormattedIsPrinted(d, m);
    }
  }

  lemma FormattedIsPrinted(d: bytes, m: Message)
    requires MessageOctets(d, m)
    ensures Print(m) == Some(d)
  {
    var parts: seq<bytes> :| OptionsThenPayload(d, parts, m);
    var n := |m.token|;
    OptionsArePrinted(parts, 0, m.options);
    HeadOctets(d, m);
    assert HeaderFits(m) && |d| >= 4 + n && d[4 + n..] == Flat(parts) + PrintPayload(m.payload);
    hide OptionsOctets, PrintOptions, Flat, MessageOctets, OptionsThenPayload, ToBytes2, PrintPayload;
    Rejoined(d, 4 + n, Flat(parts), PrintPayload(m.payload));
  }

  lemma Rejoined(d: bytes, n: nat, a: bytes, b: bytes)
    requires n <= |d| && d[n..] == a + b
    ensures d == d[..n] + a + b
  {}

  lemma HeadOctets(d: bytes, m: Message)
    requires MessageOctets(d, m)
    ensures d[..4 + |m.token|] == [0x40 + 0x10 * m.kind + |m.token|, m.code] + ToBytes2(m.mid) + m.token
  {
    var n := |m.token|;
    assert d[..4 + n] == [d[0], d[1]] + [d[2], d[3]] + d[4..4 + n];
  }

  lemma {:induction false} ParsedIff(d: bytes, m: Message)
    ensures Parse(d) == Some(m) <==> MessageOctets(d, m) && |d| <= 16384
  {
    hide Parse, Print, MessageOctets;
    FormatIsPrint(d, m);
    if Parse(d) == Some(m) {
      PrintOfParse(d);
      AcceptedSize(d);
    }
    if Print(m) == Some(d) {
      ParseOfPrint(m);
      assert MAX_DATAGRAM == 16384;
    }
  }

  // ---------------------------------------------------------------- paths

  /** A path of non-empty segments, none of which holds a slash. */
  function Joined(segments: seq<bytes>): bytes
  {
    if segments == [] then [] else Joined(segments[..|segments| - 1]) + [0x2F] + segments[|segments| - 1]
  }

  predicate IsSegment(s: bytes)
  {
    s != [] && forall i :: 0 <= i < |s| ==> s[i] != 0x2F
  }

  lemma {:induction false} SplitOfSegment(path: bytes, segment: bytes)
    requires forall i :: 0 <= i < |segment| ==> segment[i] != 0x2F
    ensures Split(path + [0x2F] + segment) == Split(path) + [segment]
  {
    var whole := path + [0x2F] + segment;
    var n := |whole| - 1;
    if segment == [] {
      assert whole[..n] == path && whole[n] == SLASH;
    } else {
      var shorter := segment[..|segment| - 1];
      assert whole[..n] == path + [0x2F] + shorter;
      SplitOfSegment(path, shorter);
      assert shorter + [segment[|segment| - 1]] == segment;
    }
  }

  lemma NonEmptyOneMore(parts: seq<bytes>, part: bytes)
    ensures NonEmpty(parts + [part]) == NonEmpty(parts) + if part == [] then [] else [part]
  {
    assert (parts + [part])[..|parts|] == parts;
  }

  /** The segments of a path are what the path was made of. */
  lemma {:induction false} SegmentsReadBack(segments: seq<bytes>)
    requires forall i :: 0 <= i < |segments| ==> IsSegment(segments[i])
    ensures PathParts(Joined(segments)) == segments
  {
    if segments == [] {
      assert Split([]) == [[]];
      assert NonEmpty([]) == [];
      NonEmptyOneMore([], []);
      assert [] + [[]] == Split([]);
    } else {
      var init, last := segments[..|segments| - 1], segments[|segments| - 1];
      SegmentsReadBack(init);
      SplitOfSegment(Joined(init), last);
      NonEmptyOneMore(Split(Joined(init)), last);
      assert init + [last] == segments;
    }
  }
}
