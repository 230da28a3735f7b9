/**
 * The verdict on every packet of a block-wise transfer, honest or not, in the terms of RFC 7959:
 * a block option of value 16 * NUM + 8 * M + SZX names 2^(SZX + 4) octets.
 */
module BlockRules {
  import opened Bytes
  import opened Blocks

  function TwoTo(n: nat): nat
  {
    if n == 0 then 1 else 2 * TwoTo(n - 1)
  }

  lemma SizeIsPower(exponent: nat)
    requires exponent < 8
    ensures BlockSize(exponent) == TwoTo(exponent + 4)
  {
    assert TwoTo(4) == 16 && TwoTo(5) == 32 && TwoTo(6) == 64 && TwoTo(7) == 128;
    assert TwoTo(8) == 256 && TwoTo(9) == 512 && TwoTo(10) == 1024 && TwoTo(11) == 2048;
  }

  /** NUM, M and SZX of a block option. */
  predicate Announces(raw: bytes, num: nat, more: bool, szx: nat)
  {
    |raw| <= 3 && szx < 8 && FromBytes(raw) == 16 * num + (if more then 8 else 0) + szx
  }

  predicate BadFormat(packet: Packet)
  {
    12 in packet.options && |packet.options[12]| > 2
  }

  function Format(packet: Packet): Option<nat>
  {
    if 12 in packet.options then Some(FromBytes(packet.options[12])) else None
  }

  function Tag(packet: Packet): Option<bytes>
  {
    if 4 in packet.options then Some(packet.options[4]) else None
  }

  /** The packet has another code or entity tag than those before it, or both name a format and not the same. */
  predicate Changes(s: State, packet: Packet)
  {
    match s.signature
    case None => false
    case Some(known) =>
      || packet.code != known.code || Tag(packet) != known.etag
      || (known.format.Some? && Format(packet).Some? && known.format != Format(packet))
  }

  /** What the assembly knows of the representation after a packet of it. */
  function Known(s: State, packet: Packet): Signature
  {
    var format :=
      if Format(packet).Some? then Format(packet) else if s.signature.Some? then s.signature.value.format else None;
    Signature(packet.code, Tag(packet), format)
  }

  /** A packet of another representation, or with a malformed format, changes nothing. */
  lemma OtherRepresentations(s: State, packet: Packet)
    ensures Added(s, packet).1 == Failed(InvalidContentFormat) <==> BadFormat(packet)
    ensures Added(s, packet).1 == Failed(RepresentationChanged) <==> !BadFormat(packet) && Changes(s, packet)
    ensures BadFormat(packet) || Changes(s, packet) ==> Added(s, packet).0 == s
    ensures !BadFormat(packet) && !Changes(s, packet) ==> Added(s, packet).0.signature == Some(Known(s, packet))
  {
    hide FromBytes, BlockSize;
  }

  /** The step on the body once the representation is accepted. */
  lemma SameRepresentationStep(s: State, packet: Packet)
    requires !BadFormat(packet) && !Changes(s, packet)
    ensures Added(s, packet)
         == AddedBlock(s.(signature := Some(Known(s, packet))), if 23 in packet.options then Some(packet.options[23]) else None,
                       packet.payload)
  {
    hide FromBytes, AddedBlock;
  }

  /** A whole body in one packet. */
  lemma WholeBody(s: State, packet: Packet)
    requires !BadFormat(packet) && !Changes(s, packet) && 23 !in packet.options
    ensures Added(s, packet)
         == if s.count > 0 then (s.(signature := Some(Known(s, packet))), Failed(MissingBlockOption))
            else if |packet.payload| > 32768 then (s.(signature := Some(Known(s, packet))), Failed(BodyLimit))
            else (State(s.parts + packet.payload, 1, Some(Known(s, packet)), s.last), Complete)
  {
    SameRepresentationStep(s, packet);
    hide Added, Known, Changes;
  }

  /** A block option of more than three octets is no block option. */
  lemma LongOption(s: State, packet: Packet)
    requires !BadFormat(packet) && !Changes(s, packet) && 23 in packet.options
    ensures Added(s, packet).1 == Failed(InvalidBlockOption) <==> |packet.options[23]| > 3
    ensures |packet.options[23]| > 3 ==> Added(s, packet).0 == s.(signature := Some(Known(s, packet)))
  {
    SameRepresentationStep(s, packet);
    hide Added, Known, Changes, FromBytes;
  }

  /** The block begins where the body so far ends, and is full unless it is the last. */
  predicate Continues(s: State, num: nat, more: bool, szx: nat, payload: bytes)
  {
    num * TwoTo(szx + 4) == |s.parts| && |payload| <= TwoTo(szx + 4) && (more ==> |payload| == TwoTo(szx + 4))
  }

  predicate Repeats(s: State, raw: bytes, payload: bytes)
  {
    s.last == Some((FromBytes(raw), payload))
  }

  predicate WithinLimits(s: State, payload: bytes)
  {
    |s.parts| + |payload| <= 32768 && s.count < 128
  }

  /** The request for what follows: the next NUM in the same size, without the more bit. */
  predicate AsksFor(option: nat, parts: bytes, szx: nat)
  {
    option % 16 == szx && (option / 16) * TwoTo(szx + 4) == |parts|
  }

  /** The verdict on a block, for every kind of verdict both ways, and what it leaves. */
  ghost predicate Verdict(s: State, t: State, r: Outcome, raw: bytes, num: nat, more: bool, szx: nat, payload: bytes)
  {
    && (r == Failed(BertNotSupported) <==> szx == 7)
    && (r == Duplicate <==> szx < 7 && Repeats(s, raw, payload))
    && (r == Failed(NoncontiguousBlock) <==>
          szx < 7 && !Repeats(s, raw, payload) && !Continues(s, num, more, szx, payload))
    && (r == Failed(BodyOrBlockLimit) <==>
          szx < 7 && !Repeats(s, raw, payload) && Continues(s, num, more, szx, payload) && !WithinLimits(s, payload))
    && (r == Complete || r.Next? <==>
          szx < 7 && !Repeats(s, raw, payload) && Continues(s, num, more, szx, payload) && WithinLimits(s, payload))
    && (r == Complete ==> !more) && (r.Next? ==> more && AsksFor(r.option, t.parts, szx))
    && (if r == Complete || r.Next? then
          t.parts == s.parts + payload && t.count == s.count + 1 && t.last == Some((FromBytes(raw), payload))
        else t.parts == s.parts && t.count == s.count && t.last == s.last)
  }

  lemma BlockVerdict(s: State, packet: Packet, num: nat, more: bool, szx: nat)
    requires !BadFormat(packet) && !Changes(s, packet)
    requires 23 in packet.options && Announces(packet.options[23], num, more, szx)
    ensures Verdict(s, Added(s, packet).0, Added(s, packet).1, packet.options[23], num, more, szx, packet.payload)
  {
    SameRepresentationStep(s, packet);
    hide Added, AddedBlock, Known, Changes, BadFormat, Verdict;
    ValueVerdict(s.(signature := Some(Known(s, packet))), packet.options[23], num, more, szx, packet.payload);
    SignatureIsNoMatter(s, Some(Known(s, packet)), packet.options[23], num, more, szx, packet.payload);
  }

  lemma SignatureIsNoMatter(
    s: State, signature: Option<Signature>, raw: bytes, num: nat, more: bool, szx: nat, payload: bytes)
    ensures forall t, r :: Verdict(s.(signature := signature), t, r, raw, num, more, szx, payload)
                      ==> Verdict(s, t, r, raw, num, more, szx, payload)
  {
    hide TwoTo, FromBytes;
  }

  lemma ValueVerdict(s: State, raw: bytes, num: nat, more: bool, szx: nat, payload: bytes)
    requires Announces(raw, num, more, szx)
    ensures var (t, r) := AddedBlock(s, Some(raw), payload); Verdict(s, t, r, raw, num, more, szx, payload)
  {
    var value := FromBytes(raw);
    hide FromBytes;
    OptionFields(value, num, more, szx);
    if szx < 7 {
      SizeSays(value, num, szx);
      if Continues(s, num, more, szx, payload) && |payload| == TwoTo(szx + 4) && |s.parts| + |payload| <= 32768 {
        PositiveSize(value);
        NextSays(s, value, num, more, szx, payload);
      }
    }
    hide TwoTo, AsksFor, Number, Size, More, Offset;
  }

  lemma OptionFields(value: nat, num: nat, more: bool, szx: nat)
    requires szx < 8 && value == 16 * num + (if more then 8 else 0) + szx
    ensures Exponent(value) == szx && Number(value) == num && (More(value) <==> more) && value % 8 == szx
  {}

  lemma SizeSays(value: nat, num: nat, szx: nat)
    requires szx < 8 && value % 8 == szx && Number(value) == num
    ensures Size(value) == TwoTo(szx + 4) && Offset(value) == num * TwoTo(szx + 4)
  {
    SizeIsPower(szx);
    hide BlockSize, TwoTo, Number;
  }

  lemma NextSays(s: State, value: nat, num: nat, more: bool, szx: nat, payload: bytes)
    requires szx < 7 && value == 16 * num + (if more then 8 else 0) + szx && Size(value) >= 16
    requires num * TwoTo(szx + 4) == |s.parts| && |payload| == TwoTo(szx + 4) && |s.parts| + |payload| <= 32768
    ensures AsksFor(|s.parts + payload| / Size(value) * 16 + Exponent(value), s.parts + payload, szx)
  {
    OptionFields(value, num, more, szx);
    SizeSays(value, num, szx);
    var n := |s.parts + payload| / Size(value);
    hide BlockSize, TwoTo, More;
    NextNamesTheGap(value, |s.parts + payload|);
    OptionFields(n * 16 + szx, n, false, szx);
    SizeSays(n * 16 + szx, n, szx);
    Sixteenths(n, szx);
    hide Size;
  }

  lemma Sixteenths(n: nat, szx: nat)
    requires szx < 16
    ensures (n * 16 + szx) % 16 == szx && (n * 16 + szx) / 16 == n
  {}

  // ---------------------------------------------------------------- any server

  predicate Taken(r: Outcome)
  {
    r == Complete || r.Next?
  }

  /** The payloads of the packets that were taken, one after another. */
  function TakenPayloads(packets: seq<Packet>): bytes
  {
    if packets == [] then []
    else
      var before, packet := packets[..|packets| - 1], packets[|packets| - 1];
      TakenPayloads(before) + if Taken(LastOutcome(packets)) then packet.payload else []
  }

  /** Whatever a server sends, the body stays within the limits and is made of what was taken, in order. */
  lemma {:induction false} AssembledFromWhatWasTaken(packets: seq<Packet>)
    ensures var s := Run(packets);
      s.parts == TakenPayloads(packets) && |s.parts| <= 32768 && s.count <= 128 && (s.count == 0 ==> s.parts == [])
  {
    if packets != [] {
      var before, packet := packets[..|packets| - 1], packets[|packets| - 1];
      AssembledFromWhatWasTaken(before);
      StepTakes(Run(before), packet);
    }
  }

  lemma StepTakes(s: State, packet: Packet)
    requires |s.parts| <= 32768 && s.count <= 128 && (s.count == 0 ==> s.parts == [])
    ensures var (t, r) := Added(s, packet);
      && t.parts == s.parts + (if Taken(r) then packet.payload else [])
      && |t.parts| <= 32768 && t.count <= 128 && (t.count == 0 ==> t.parts == [])
  {
    hide FromBytes, BlockSize, Merged;
    assert s.parts + [] == s.parts;
  }

  /** All packets that are not refused as another representation have the code and the tag of the first of them. */
  lemma {:induction false} OneRepresentation(packets: seq<Packet>, i: nat)
    requires i < |packets|
    requires LastOutcome(packets[..i + 1]) !in {Failed(InvalidContentFormat), Failed(RepresentationChanged)}
    ensures var known := Run(packets).signature;
      && known.Some? && packets[i].code == known.value.code && Tag(packets[i]) == known.value.etag
      && (Format(packets[i]).Some? ==> Format(packets[i]) == known.value.format)
    decreases |packets|
  {
    var before, packet := packets[..|packets| - 1], packets[|packets| - 1];
    OtherRepresentations(Run(before), packet);
    hide Added, FromBytes, BadFormat;
    if i < |before| {
      assert before[..i + 1] == packets[..i + 1];
      OneRepresentation(before, i);
    } else {
      assert packets[..i + 1] == packets;
    }
  }
}
