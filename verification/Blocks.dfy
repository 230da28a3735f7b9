/**
 * Bounded Block2 assembly of the diagnostics tool (tools/352_plus_probe.py): the block option
 * of section 2.2 of RFC 7959, used as in its section 2.4 to fetch a body piece by piece.
 */
module Blocks {
  import opened Bytes

  const MAX_BYTES := 32768
  const MAX_BLOCKS := 128

  const ETAG := 4
  const CONTENT_FORMAT := 12
  const BLOCK2 := 23

  datatype Packet = Packet(code: byte, options: map<int, bytes>, payload: bytes)

  datatype Signature = Signature(code: byte, etag: Option<bytes>, format: Option<nat>)

  datatype Failure =
    | InvalidContentFormat | RepresentationChanged | MissingBlockOption | BodyLimit
    | InvalidBlockOption | BertNotSupported | NoncontiguousBlock | BodyOrBlockLimit

  /** What `add` returns: None, "duplicate", the next block option, or a ValueError. */
  datatype Outcome = Complete | Duplicate | Next(option: nat) | Failed(reason: Failure)

  datatype State = State(parts: bytes, count: nat, signature: Option<Signature>, last: Option<(nat, bytes)>)

  const EMPTY := State([], 0, None, None)

  // ---------------------------------------------------------------- the option value

  /** 1 << (exponent + 4), on the three-bit exponents. */
  function BlockSize(exponent: nat): nat
    requires exponent < 8
  {
    match exponent
    case 0 => 16
    case 1 => 32
    case 2 => 64
    case 3 => 128
    case 4 => 256
    case 5 => 512
    case 6 => 1024
    case _ => 2048
  }

  function Exponent(option: nat): nat { option % 8 }

  function Size(option: nat): nat { BlockSize(option % 8) }

  predicate More(option: nat) { option / 8 % 2 == 1 }

  function Number(option: nat): nat { option / 16 }

  /** The first body offset that a block option names. */
  function Offset(option: nat): nat
  {
    Number(option) * Size(option)
  }

  // ---------------------------------------------------------------- one packet

  function Lookup(options: map<int, bytes>, n: int): Option<bytes>
  {
    if n in options then Some(options[n]) else None
  }

  function Merged(known: Option<Signature>, incoming: Signature): Option<Signature>
  {
    match known
    case None => Some(incoming)
    case Some(o) =>
      if (incoming.code, incoming.etag) != (o.code, o.etag) then None
      else if o.format.Some? && incoming.format.Some? && o.format != incoming.format then None
      else Some(incoming.(format := if incoming.format.Some? then incoming.format else o.format))
  }

  /** `add` as a function of the assembly and the packet. */
  function Added(s: State, packet: Packet): (State, Outcome)
  {
    var format := Lookup(packet.options, CONTENT_FORMAT);
    if format.Some? && |format.value| > 2 then (s, Failed(InvalidContentFormat))
    else
      var signature := Signature(packet.code, Lookup(packet.options, ETAG),
                                 if format.Some? then Some(FromBytes(format.value)) else None);
      var merged := Merged(s.signature, signature);
      if merged == None then (s, Failed(RepresentationChanged))
      else AddedBlock(s.(signature := merged), Lookup(packet.options, BLOCK2), packet.payload)
  }

  function AddedBlock(s: State, raw: Option<bytes>, payload: bytes): (State, Outcome)
  {
    match raw
    case None =>
      if s.count > 0 then (s, Failed(MissingBlockOption))
      else if |payload| > MAX_BYTES then (s, Failed(BodyLimit))
      else (s.(parts := s.parts + payload, count := 1), Complete)
    case Some(octets) =>
      if |octets| > 3 then (s, Failed(InvalidBlockOption))
      else if Exponent(FromBytes(octets)) == 7 then (s, Failed(BertNotSupported))
      else AddedValue(s, FromBytes(octets), payload)
  }

  function AddedValue(s: State, value: nat, payload: bytes): (State, Outcome)
  {
    if s.last == Some((value, payload)) then (s, Duplicate)
    else if Offset(value) != |s.parts| || |payload| > Size(value) || (More(value) && |payload| != Size(value)) then
      (s, Failed(NoncontiguousBlock))
    else if |s.parts| + |payload| > MAX_BYTES || s.count >= MAX_BLOCKS then (s, Failed(BodyOrBlockLimit))
    else
      var parts := s.parts + payload;
      (s.(parts := parts, count := s.count + 1, last := Some((value, payload))),
       if More(value) then Next(|parts| / Size(value) * 16 + Exponent(value)) else Complete)
  }

  class Assembly {
    var parts: bytes
    var count: nat
    var signature: Option<Signature>
    var last: Option<(nat, bytes)>

    ghost function View(): State
      reads this
    {
      State(parts, count, signature, last)
    }

    constructor ()
      ensures View() == EMPTY
    {
      parts, count, signature, last := [], 0, None, None;
    }

    method Add(packet: Packet) returns (r: Outcome)
      modifies this
      ensures View() == Added(old(View()), packet).0
      ensures r == Added(old(View()), packet).1
    {
      hide AddedBlock;
      var contentFormat := Lookup(packet.options, CONTENT_FORMAT);
      var format: Option<nat> := None;
      if contentFormat.Some? {
        if |contentFormat.value| > 2 {
          return Failed(InvalidContentFormat);
        }
        format := Some(FromBytes(contentFormat.value));
      }
      var sig := Signature(packet.code, Lookup(packet.options, ETAG), format);
      if signature.Some? {
        var known := signature.value;
        if (sig.code, sig.etag) != (known.code, known.etag) {
          return Failed(RepresentationChanged);
        }
        if known.format.Some? && sig.format.Some? && known.format != sig.format {
          return Failed(RepresentationChanged);
        }
        sig := sig.(format := if sig.format.Some? then sig.format else known.format);
      }
      signature := Some(sig);
      r := AddBlock(Lookup(packet.options, BLOCK2), packet.payload);
    }

    /** The rest of `add`, once the representation is known to be the same. */
    method AddBlock(raw: Option<bytes>, payload: bytes) returns (r: Outcome)
      modifies this
      ensures View() == AddedBlock(old(View()), raw, payload).0
      ensures r == AddedBlock(old(View()), raw, payload).1
    {
      hide FromBytes;
      if raw == None {
        if count > 0 {
          return Failed(MissingBlockOption);
        }
        if |payload| > MAX_BYTES {
          return Failed(BodyLimit);
        }
        parts := parts + payload;
        count := 1;
        return Complete;
      }
      if |raw.value| > 3 {
        return Failed(InvalidBlockOption);
      }
      var value := FromBytes(raw.value);
      var exponent := value % 8;
      if exponent == 7 {
        return Failed(BertNotSupported);
      }
      var size := BlockSize(exponent);
      var number, more := value / 16, value / 8 % 2 == 1;
      if last == Some((value, payload)) {
        return Duplicate;
      }
      if number * size != |parts| || |payload| > size || (more && |payload| != size) {
        return Failed(NoncontiguousBlock);
      }
      if |parts| + |payload| > MAX_BYTES || count >= MAX_BLOCKS {
        return Failed(BodyOrBlockLimit);
      }
      parts := parts + payload;
      count := count + 1;
      last := Some((value, payload));
      r := if more then Next(|parts| / size * 16 + exponent) else Complete;
    }
  }

  // ---------------------------------------------------------------- honest servers

  /** The packet is the block of `body` that its own block option names, or the whole body. */
  predicate TrueBlock(body: bytes, packet: Packet)
  {
    match Lookup(packet.options, BLOCK2)
    case None => packet.payload == body
    case Some(raw) =>
      |raw| <= 3 && Exponent(FromBytes(raw)) != 7 && TrueValue(body, FromBytes(raw), packet.payload)
  }

  predicate TrueValue(body: bytes, value: nat, payload: bytes)
  {
    var start := Offset(value);
    var end := if start + Size(value) < |body| then start + Size(value) else |body|;
    && (start < |body| || (start == 0 && body == []))
    && payload == body[start..end]
    && (More(value) <==> end < |body|)
  }

  /** The packet belongs to the representation: same code and entity tag, no other format. */
  predicate SameRepresentation(of: Signature, packet: Packet)
  {
    && packet.code == of.code
    && Lookup(packet.options, ETAG) == of.etag
    && (CONTENT_FORMAT in packet.options ==>
          |packet.options[CONTENT_FORMAT]| <= 2 && of.format == Some(FromBytes(packet.options[CONTENT_FORMAT])))
  }

  /** What holds of the assembly while every packet is a true block of `body`. */
  predicate Assembling(body: bytes, of: Signature, s: State)
  {
    && s.parts <= body && |s.parts| <= 32768 && s.count <= 128
    && (s.count == 0 ==> s.parts == [] && s.last == None)
    && (s.signature.Some? ==>
          s.signature.value.code == of.code && s.signature.value.etag == of.etag
          && (s.signature.value.format == None || s.signature.value.format == of.format))
  }

  /** What a true block may make of an assembly. */
  predicate Progress(body: bytes, s: State, s': State, r: Outcome)
  {
    match r
    case Complete => s'.parts == body && s'.count <= 128
    case Duplicate => s'.parts == s.parts && s'.count == s.count
    case Failed(_) => s'.parts == s.parts && s'.count == s.count
    case Next(option) =>
      && Offset(option) == |s'.parts|
      && |s.parts| < |s'.parts| < |body|
      && s'.count == s.count + 1
      && option < 0x100_0000
  }

  /** A block option from its number and exponent, without the more bit. */
  lemma OptionParts(number: nat, exponent: nat)
    requires exponent < 8
    ensures var option := number * 16 + exponent;
      Number(option) == number && Exponent(option) == exponent && !More(option)
  {}

  /** The next option names the first missing byte in blocks of the size just received. */
  lemma {:induction false} NextNamesTheGap(value: nat, parts: nat)
    requires Exponent(value) != 7 && parts == Offset(value) + Size(value) && parts <= 32768
    ensures var option := parts / Size(value) * 16 + Exponent(value);
      Offset(option) == parts && Exponent(option) == Exponent(value) && !More(option) && option < 0x100_0000
  {
    var n := Number(value);
    hide More, Number;
    OptionParts(parts / Size(value), Exponent(value));
    match Exponent(value)
    case 0 => assert parts == (n + 1) * 16 && parts / 16 == n + 1;
    case 1 => assert parts == (n + 1) * 32 && parts / 32 == n + 1;
    case 2 => assert parts == (n + 1) * 64 && parts / 64 == n + 1;
    case 3 => assert parts == (n + 1) * 128 && parts / 128 == n + 1;
    case 4 => assert parts == (n + 1) * 256 && parts / 256 == n + 1;
    case 5 => assert parts == (n + 1) * 512 && parts / 512 == n + 1;
    case 6 => assert parts == (n + 1) * 1024 && parts / 1024 == n + 1;
  }

  lemma PositiveSize(value: nat)
    ensures Size(value) >= 16
  {}

  lemma {:induction false} TrueValueStep(body: bytes, s: State, value: nat, payload: bytes)
    requires s.parts <= body && |s.parts| <= 32768 && s.count <= 128
    requires Exponent(value) != 7 && TrueValue(body, value, payload)
    ensures var (s', r) := AddedValue(s, value, payload);
      && Progress(body, s, s', r)
      && s'.parts <= body && |s'.parts| <= 32768 && s'.count <= 128
      && s'.signature == s.signature && (s'.count == 0 ==> s' == s)
      && (r == Duplicate <==> s.last == Some((value, payload)))
      && (r == Failed(NoncontiguousBlock) <==> r != Duplicate && Offset(value) != |s.parts|)
      && (r == Failed(BodyOrBlockLimit) <==>
            r != Duplicate && Offset(value) == |s.parts|
            && (|s.parts| + |payload| > 32768 || s.count >= 128))
      && (r.Failed? ==> r.reason.NoncontiguousBlock? || r.reason.BodyOrBlockLimit?)
  {
    hide Offset, Size, Exponent, More;
    var (s', r) := AddedValue(s, value, payload);
    var start := Offset(value);
    PositiveSize(value);
    if start == |s.parts| && s' != s {
      assert s.parts == body[..start];
      assert body[..start] + body[start..start + |payload|] == body[..start + |payload|];
      if More(value) {
        NextNamesTheGap(value, |s'.parts|);
      }
    }
  }

  /**
   * One true block of the body, in any block size and in any state of the assembly: the
   * bytes stay a prefix of the body; Complete means they are the body; a returned option
   * names the next missing offset; duplicates change nothing; and a block is refused
   * exactly when it does not continue the prefix or a limit is reached.
   */
  lemma {:induction false} TrueBlockStep(body: bytes, of: Signature, s: State, packet: Packet)
    requires Assembling(body, of, s) && TrueBlock(body, packet) && SameRepresentation(of, packet)
    ensures var (s', r) := Added(s, packet);
      Assembling(body, of, s') && Progress(body, s, s', r)
    ensures var r := Added(s, packet).1;
      r.Failed? ==>
        match Lookup(packet.options, BLOCK2)
        case None => s.count > 0 || |body| > 32768
        case Some(raw) =>
          Offset(FromBytes(raw)) != |s.parts| || |s.parts| + |packet.payload| > 32768 || s.count == 128
  {
    hide AddedValue, TrueValue, Progress, Offset;
    var raw := Lookup(packet.options, BLOCK2);
    var format := Lookup(packet.options, CONTENT_FORMAT);
    var signature := Signature(packet.code, Lookup(packet.options, ETAG),
                               if format.Some? then Some(FromBytes(format.value)) else None);
    var merged := Merged(s.signature, signature);
    assert merged.Some?;
    var t := s.(signature := merged);
    if raw.Some? {
      TrueValueStep(body, t, FromBytes(raw.value), packet.payload);
      ProgressIgnoresSignature(body, s, t, AddedValue(t, FromBytes(raw.value), packet.payload));
    } else {
      WholeBodyStep(body, s, t, packet.payload);
    }
  }

  lemma ProgressIgnoresSignature(body: bytes, s: State, t: State, step: (State, Outcome))
    requires s.parts == t.parts && s.count == t.count
    ensures Progress(body, s, step.0, step.1) <==> Progress(body, t, step.0, step.1)
  {}

  lemma WholeBodyStep(body: bytes, s: State, t: State, payload: bytes)
    requires payload == body && s.parts == t.parts && s.count == t.count && s.count <= 128
    requires t.count == 0 ==> t.parts == []
    ensures var (s', r) := AddedBlock(t, None, payload);
      Progress(body, s, s', r) && (s' == t || (s'.parts == body && |body| <= 32768 && s'.count == 1))
  {
    assert [] + payload == payload;
  }

  // ---------------------------------------------------------------- whole transfers

  /** The assembly after a sequence of packets. */
  function Run(packets: seq<Packet>): State
  {
    if packets == [] then EMPTY
    else Added(Run(packets[..|packets| - 1]), packets[|packets| - 1]).0
  }

  /** The outcome of the last packet of a non-empty sequence. */
  function LastOutcome(packets: seq<Packet>): Outcome
    requires packets != []
  {
    Added(Run(packets[..|packets| - 1]), packets[|packets| - 1]).1
  }

  predicate AllTrue(body: bytes, of: Signature, packets: seq<Packet>)
  {
    forall i :: 0 <= i < |packets| ==> TrueBlock(body, packets[i]) && SameRepresentation(of, packets[i])
  }

  /**
   * For any sequence of true blocks of one body, of mixed block sizes, repeated, out of
   * order or after the end: at every point the bytes are a prefix of the body within both
   * limits, completion is only ever reported with the whole body, and a continuation
   * option names the exact next missing offset.
   */
  lemma {:induction false} TransferIsFaithful(body: bytes, of: Signature, packets: seq<Packet>)
    requires AllTrue(body, of, packets)
    ensures Assembling(body, of, Run(packets))
    ensures packets != [] ==>
      Progress(body, Run(packets[..|packets| - 1]), Run(packets), LastOutcome(packets))
  {
    if packets != [] {
      var before, packet := packets[..|packets| - 1], packets[|packets| - 1];
      assert AllTrue(body, of, before);
      TransferIsFaithful(body, of, before);
      TrueBlockStep(body, of, Run(before), packet);
    }
  }

  /** The server answers a continuation request with the block that was asked for. */
  lemma AnsweredRequestAdvances(body: bytes, of: Signature, s: State, packet: Packet, raw: bytes)
    requires Assembling(body, of, s) && TrueBlock(body, packet) && SameRepresentation(of, packet)
    requires Lookup(packet.options, BLOCK2) == Some(raw) && Offset(FromBytes(raw)) == |s.parts| < |body|
    requires |body| <= 32768 && s.count < 128
    requires s.last != Some((FromBytes(raw), packet.payload))
    ensures var (s', r) := Added(s, packet);
      (r == Complete && s'.parts == body) || (r.Next? && |s'.parts| > |s.parts|)
  {
    TrueBlockStep(body, of, s, packet);
    var (s', r) := Added(s, packet);
    hide Added;
    if r == Duplicate {
      DuplicateOnlyIfLast(s, packet);
    }
  }

  lemma DuplicateOnlyIfLast(s: State, packet: Packet)
    requires Added(s, packet).1 == Duplicate
    ensures Lookup(packet.options, BLOCK2).Some?
    ensures s.last == Some((FromBytes(Lookup(packet.options, BLOCK2).value), packet.payload))
  {}

  // ---------------------------------------------------------------- a transfer from its first packet to its last

  /** The last block lies before the end of what has been assembled. */
  predicate LastIsBehind(s: State)
  {
    s.last.Some? ==> Offset(s.last.value.0) < |s.parts|
  }

  /** The packet carries the block at that offset, in blocks of at least that size. */
  predicate BlockAt(packet: Packet, offset: nat, least: nat)
  {
    var raw := Lookup(packet.options, BLOCK2);
    raw.Some? && Offset(FromBytes(raw.value)) == offset && Size(FromBytes(raw.value)) >= least
  }

  /**
   * A transfer of a body: the first packet is the whole body or a first block of it, and each
   * further packet is the block that the option returned for the packet before it asks for, in
   * whatever size the server chooses, but in blocks of at least `least` bytes.
   */
  predicate Transfer(body: bytes, of: Signature, least: nat, packets: seq<Packet>)
  {
    && packets != []
    && var init, packet := packets[..|packets| - 1], packets[|packets| - 1];
    && TrueBlock(body, packet) && SameRepresentation(of, packet)
    && if init == [] then BLOCK2 !in packet.options || BlockAt(packet, 0, least)
       else
         && Transfer(body, of, least, init) && LastOutcome(init).Next?
         && BlockAt(packet, Offset(LastOutcome(init).option), least)
  }

  lemma AcceptedIsLast(s: State, packet: Packet)
    ensures var (s', r) := Added(s, packet);
      var raw := Lookup(packet.options, BLOCK2);
      r.Next? ==>
        && raw.Some? && s'.last == Some((FromBytes(raw.value), packet.payload))
        && |s'.parts| == |s.parts| + |packet.payload| && |packet.payload| == Size(FromBytes(raw.value))
  {}

  lemma NothingAssembled(body: bytes, of: Signature)
    ensures Assembling(body, of, EMPTY) && LastIsBehind(EMPTY)
  {}

  /** The block that was asked for is taken, and the assembly grows by its whole size. */
  lemma {:induction false} TransferStep(body: bytes, of: Signature, least: nat, s: State, packet: Packet)
    requires Assembling(body, of, s) && TrueBlock(body, packet) && SameRepresentation(of, packet)
    requires BlockAt(packet, |s.parts|, least) && LastIsBehind(s)
    requires |body| <= 32768 && s.count < 128
    ensures var (s', r) := Added(s, packet);
      (r == Complete && s'.parts == body)
      || (r.Next? && s'.count == s.count + 1 && |s.parts| + least <= |s'.parts| < |body| && LastIsBehind(s'))
  {
    TrueBlockStep(body, of, s, packet);
    AcceptedIsLast(s, packet);
    var (s', r) := Added(s, packet);
    hide Added, Offset, Size, More, Assembling;
    PositiveSize(FromBytes(Lookup(packet.options, BLOCK2).value));
    if r == Duplicate {
      DuplicateOnlyIfLast(s, packet);
    }
    if r.Failed? {
      TrueEndsInside(body, packet);
    }
  }

  lemma TrueEndsInside(body: bytes, packet: Packet)
    requires TrueBlock(body, packet) && Lookup(packet.options, BLOCK2).Some?
    ensures Offset(FromBytes(Lookup(packet.options, BLOCK2).value)) + |packet.payload| <= |body|
  {
    hide Offset, Size, More;
  }

  lemma WholeBodyCompletes(body: bytes, of: Signature, packet: Packet)
    requires TrueBlock(body, packet) && SameRepresentation(of, packet) && BLOCK2 !in packet.options && |body| <= 32768
    ensures Added(EMPTY, packet).1 == Complete && Added(EMPTY, packet).0.parts == body
  {}

  /** So many blocks of that size are in so many bytes. */
  predicate Filled(n: nat, least: nat, bytes: nat)
  {
    n * least <= bytes
  }

  /** After n packets: complete with the whole body, or the next request names the first missing byte. */
  predicate Advanced(body: bytes, of: Signature, least: nat, n: nat, s: State, r: Outcome)
  {
    || (r == Complete && s.parts == body)
    || (r.Next? && s.count == n && Filled(n, least, |s.parts|) && |s.parts| < |body| && Offset(r.option) == |s.parts|
        && Assembling(body, of, s) && LastIsBehind(s))
  }

  lemma FirstAdvances(body: bytes, of: Signature, least: nat, packet: Packet)
    requires TrueBlock(body, packet) && SameRepresentation(of, packet)
    requires BLOCK2 !in packet.options || BlockAt(packet, 0, least)
    requires |body| <= 32768
    ensures Advanced(body, of, least, 1, Added(EMPTY, packet).0, Added(EMPTY, packet).1)
  {
    NothingAssembled(body, of);
    if BLOCK2 !in packet.options {
      WholeBodyCompletes(body, of, packet);
    } else {
      TransferStep(body, of, least, EMPTY, packet);
      TrueBlockStep(body, of, EMPTY, packet);
      hide Added, Assembling, LastIsBehind, Offset, Size;
    }
  }

  lemma NextAdvances(body: bytes, of: Signature, least: nat, n: nat, s: State, r: Outcome, packet: Packet)
    requires Advanced(body, of, least, n, s, r) && r.Next? && BlockAt(packet, Offset(r.option), least)
    requires TrueBlock(body, packet) && SameRepresentation(of, packet)
    requires |body| <= 32768 && |body| <= 128 * least
    ensures Advanced(body, of, least, n + 1, Added(s, packet).0, Added(s, packet).1)
  {
    CountsUp(n, least, |s.parts|, |body|);
    TransferStep(body, of, least, s, packet);
    TrueBlockStep(body, of, s, packet);
    OneMoreFilled(n, least, |s.parts|, |Added(s, packet).0.parts|);
    hide Added, Assembling, LastIsBehind, Offset, Size, TrueBlock, SameRepresentation, Filled;
  }

  lemma Counted(body: bytes, of: Signature, least: nat, n: nat, s: State, r: Outcome)
    requires Advanced(body, of, least, n, s, r) && r.Next?
    ensures n * least < |body|
  {
    hide Assembling;
  }

  lemma CountsUp(count: nat, least: nat, parts: nat, size: nat)
    requires Filled(count, least, parts) && parts < size <= 128 * least
    ensures count < 128
  {}

  lemma OneMoreFilled(n: nat, least: nat, before: nat, after: nat)
    requires Filled(n, least, before)
    ensures before + least <= after ==> Filled(n + 1, least, after)
  {
    assert (n + 1) * least == n * least + least;
  }

  /**
   * A body within the byte limit, and within the block limit in blocks of the least size, is
   * transferred completely: every packet either completes the body or leads to the request of
   * the next block, and there are no more packets than blocks of the least size in the body.
   */
  lemma {:induction false} TransferCompletes(body: bytes, of: Signature, least: nat, packets: seq<Packet>)
    requires Transfer(body, of, least, packets)
    requires |body| <= 32768 && |body| <= 128 * least
    ensures Advanced(body, of, least, |packets|, Run(packets), LastOutcome(packets))
    ensures |packets| == 1 || (|packets| - 1) * least < |body|
  {
    hide Added, Advanced, BlockAt, Offset, TrueBlock, SameRepresentation;
    var init, packet := packets[..|packets| - 1], packets[|packets| - 1];
    if init == [] {
      FirstAdvances(body, of, least, packet);
    } else {
      TransferCompletes(body, of, least, init);
      Counted(body, of, least, |init|, Run(init), LastOutcome(init));
      NextAdvances(body, of, least, |init|, Run(init), LastOutcome(init), packet);
    }
  }
}
