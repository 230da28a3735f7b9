/**
 * Schedule cleanup from the outside: its datagrams octet by octet, the replies that it believes,
 * and how a whole cleanup ends, told by what the network does to it.
 */
module ScheduleRuns {
  import opened Bytes
  import opened Models
  import opened Framing
  import opened Crc16
  import opened Schedule

  // ---------------------------------------------------------------- on the wire

  /** The prefix and the checksum around a frame. */
  function Framed(body: bytes): bytes
  {
    [0xF0, 0x72] + body + ToBytes2(Crc(body))
  }

  function Concat(slots: Slots): bytes
  {
    slots.a + slots.b + slots.c + slots.d
  }

  lemma SealedIsFramed(frame: bytes, body: bytes)
    requires frame == [0xF0, 0x72] + body
    ensures Seal(frame) == Framed(body)
  {
    assert frame[2..] == body;
  }

  /** A query, and a write whose sum covers the slots' own header. */
  lemma DatagramsOnTheWire(device: Device, sequence: u16, slots: Slots)
    ensures var w := device.identity.wireType;
      QueryDatagram(device, sequence)
        == WrapInner(device, sequence, Framed([0x00, 0x0C, w, 0x04, 0x0C] + ToBytes2(sequence) + [0x01, 0x04, 0x04]))
    ensures var w := device.identity.wireType;
      WriteDatagram(device, sequence, slots)
        == WrapInner(device, sequence, Framed(
             [0x00, 0x2D, w, 0x04, 0x0B] + ToBytes2(sequence) + [0x22, 0x04, 0x20] + Concat(slots)
             + [(0x24 + Total(Concat(slots))) % 0x100]))
  {
    hide Crc, WrapInner, Sum, Total;
    var w := device.identity.wireType;
    var query := [0x00, 0x0C, w, 0x04, 0x0C] + ToBytes2(sequence) + [0x01, 0x04, 0x04];
    assert QueryBody(w, sequence) == [0xF0, 0x72] + query;
    SealedIsFramed(QueryBody(w, sequence), query);
    var write := [0x00, 0x2D, w, 0x04, 0x0B] + ToBytes2(sequence) + [0x22, 0x04, 0x20] + Concat(slots)
      + [(0x24 + Total(Concat(slots))) % 0x100];
    SumWithHeader(Concat(slots));
    assert WriteBody(w, sequence, slots) == [0xF0, 0x72] + write;
    SealedIsFramed(WriteBody(w, sequence, slots), write);
  }

  function Total(data: bytes): nat
  {
    if data == [] then 0 else data[0] + Total(data[1..])
  }

  lemma {:induction false} SumWithHeader(data: bytes)
    ensures Sum([0x04, 0x20] + data) == 0x24 + Total(data)
  {
    SumIsTotal([0x04, 0x20] + data);
    var tail := ([0x04, 0x20] + data)[1..];
    assert tail == [0x20] + data && tail[1..] == data;
  }

  lemma {:induction false} SumIsTotal(data: bytes)
    ensures Sum(data) == Total(data)
  {
    if data != [] {
      var last := data[|data| - 1];
      SumIsTotal(data[..|data| - 1]);
      TotalOneMore(data[..|data| - 1], last);
      assert data == data[..|data| - 1] + [last];
    }
  }

  lemma {:induction false} TotalOneMore(data: bytes, b: byte)
    ensures Total(data + [b]) == Total(data) + b
  {
    if data == [] {
      assert Total([b]) == b + Total([]);
      assert data + [b] == [b];
    } else {
      assert (data + [b])[1..] == data[1..] + [b];
      TotalOneMore(data[1..], b);
    }
  }

  /** Four slots that are switched off and hold no time, whose sum with their header is 0x1014. */
  function AllOff(): bytes
  {
    var off: bytes := [0x00, 0xFF, 0xFF, 0xFF, 0xFF, 0x00, 0x00, 0x00];
    off + off + off + off
  }

  /** The only write that the cleanup sends. */
  lemma ClearingOnTheWire(device: Device, sequence: u16)
    ensures WriteDatagram(device, sequence, EMPTY_SLOTS)
         == WrapInner(device, sequence, Framed(
              [0x00, 0x2D, device.identity.wireType, 0x04, 0x0B] + ToBytes2(sequence) + [0x22, 0x04, 0x20] + AllOff() + [0x14]))
  {
    hide WrapInner, Framed, WriteDatagram;
    DatagramsOnTheWire(device, sequence, EMPTY_SLOTS);
    assert Concat(EMPTY_SLOTS) == AllOff();
    TotalOfAll(EMPTY_SLOT);
    TotalOfOff();
  }

  lemma {:induction false} TotalConcat(a: bytes, b: bytes)
    ensures Total(a + b) == Total(a) + Total(b)
  {
    if a == [] {
      assert a + b == b;
    } else {
      assert (a + b)[1..] == a[1..] + b;
      TotalConcat(a[1..], b);
    }
  }

  lemma TotalOfAll(s: Slot)
    ensures Total(s + s + s + s) == 4 * Total(s)
  {
    TotalConcat(s + s + s, s);
    TotalConcat(s + s, s);
    TotalConcat(s, s);
  }

  lemma TotalOfOff()
    ensures Total(EMPTY_SLOT) == 0x3FC
  {
    var e := EMPTY_SLOT;
    assert e[1..][1..] == e[2..] && e[2..][1..] == e[3..] && e[3..][1..] == e[4..] && e[4..][1..] == e[5..];
    assert e[5..][1..] == e[6..] && e[6..][1..] == e[7..] && e[7..][1..] == [];
    assert Total(e[7..]) == 0;
    assert Total(e[6..]) == 0;
    assert Total(e[5..]) == 0;
    assert Total(e[4..]) == 0xFF;
    assert Total(e[3..]) == 0x1FE;
    assert Total(e[2..]) == 0x2FD;
    assert Total(e[1..]) == 0x3FC;
  }

  /** The envelope is that of the device, with operation 0x04 and the same sequence, and a one in front. */
  lemma WrappedForTheDevice(device: Device, sequence: u16, inner: bytes)
    requires |inner| <= 47
    ensures BuildOuterFrame(device.identity, 0x04, sequence, [0x01] + inner) == Ok(WrapInner(device, sequence, inner))
  {
    ParseOfBuild(device.identity, 0x04, sequence, [0x01] + inner);
  }

  // ---------------------------------------------------------------- replies

  /** The free parts of a reply. */
  datatype Form = Form(outer: byte, sequence: u16, operation: byte, three: bytes, extra: bytes, trailing: bytes)

  function Frame(wireType: byte, form: Form, slots: Slots): bytes
    requires |form.extra| <= 201
  {
    Framed(ToBytes2(44 + |form.extra|) + [wireType, form.operation, 0x0C] + form.three + [0x04, 0x20] + Concat(slots)
           + form.extra)
  }

  /** A device's own datagram: a two, the frame of the four slots, and whatever follows it. */
  predicate IsReply(device: Device, data: bytes, slots: Slots, form: Form)
  {
    && form.operation in {0x84, 0x03} && |form.three| == 3 && 1 <= |form.extra| && |form.extra| + |form.trailing| <= 201
    && Ok(data) == BuildOuterFrame(device.identity, form.outer, form.sequence,
                                   [0x02] + Frame(device.identity.wireType, form, slots) + form.trailing)
  }

  /** The datagram comes from the device's port and is its reply with these slots. */
  ghost predicate Tells(device: Device, e: NetEvent, slots: Slots)
  {
    e.Arrive? && e.source == Endpoint(device.host, 11530) && exists form :: IsReply(device, e.data, slots, form)
  }

  lemma FrameIsSealed(device: Device, form: Form, slots: Slots)
    requires |form.three| == 3 && 1 <= |form.extra| <= 201
    ensures Seal(ReplyBody(device, form.operation, form.three, slots, form.extra))
         == Frame(device.identity.wireType, form, slots)
  {
    hide Crc;
    var body := ToBytes2(44 + |form.extra|) + [device.identity.wireType, form.operation, 0x0C] + form.three + [0x04, 0x20]
      + Concat(slots) + form.extra;
    assert ReplyBody(device, form.operation, form.three, slots, form.extra) == [0xF0, 0x72] + body;
    SealedIsFramed(ReplyBody(device, form.operation, form.three, slots, form.extra), body);
  }

  lemma ReplyIsDecoded(device: Device, data: bytes, slots: Slots, form: Form)
    requires IsReply(device, data, slots, form)
    ensures DecodeReply(data, Endpoint(device.host, 11530), device) == Some(slots)
  {
    hide DecodeReply, BuildOuterFrame, Frame, ReplyBody, Seal;
    FrameIsSealed(device, form, slots);
    ReplyReadsBack(device, form.operation, form.sequence, form.three, slots, form.extra, form.trailing, form.outer);
  }

  /** The free parts of a datagram that is believed. */
  function FormOf(data: bytes): Form
  {
    var f := ParseOuterFrame(data);
    if f == None || |f.value.payload| < 48 then Form(0, 0, 0, [], [], [])
    else
      var payload := f.value.payload;
      var length := FromBytes(payload[3..5]) + 2;
      if length < 47 || length > |payload| - 1 then Form(0, 0, 0, [], [], [])
      else
        var inner := payload[1..][..length];
        Form(f.value.operation, f.value.sequence, inner[5], inner[7..10], inner[44..length - 2], payload[1 + length..])
  }

  /** A frame is put together again from its parts. */
  lemma FrameFromParts(inner: bytes, wireType: byte, form: Form, slots: Slots)
    requires 47 <= |inner| <= 247 && inner[..2] == PREFIX && FromBytes(inner[2..4]) + 2 == |inner|
    requires FrameOfSchedule(inner, wireType)
    requires form.operation == inner[5] && form.three == inner[7..10] && form.extra == inner[44..|inner| - 2]
    requires slots == Slots(inner[12..20], inner[20..28], inner[28..36], inner[36..44])
    ensures inner == Frame(wireType, form, slots)
  {
    hide Crc, FromBytes;
    FromBytes2RoundTrip(inner[2..4]);
    FromBytes2RoundTrip(inner[|inner| - 2..]);
    var body := ToBytes2(44 + |form.extra|) + [wireType, form.operation, 0x0C] + form.three + [0x04, 0x20]
      + Concat(slots) + form.extra;
    assert Concat(slots) == inner[12..44];
    assert body == inner[2..|inner| - 2];
    assert inner == inner[..2] + inner[2..|inner| - 2] + inner[|inner| - 2..];
  }

  lemma DecodedIsReply(device: Device, data: bytes, source: Endpoint, slots: Slots)
    requires DecodeReply(data, source, device) == Some(slots)
    ensures source == Endpoint(device.host, 11530) && IsReply(device, data, slots, FormOf(data))
  {
    hide Crc, FromBytes, BuildOuterFrame, ParseOuterFrame, Frame, FrameOfSchedule;
    BuildOfParse(data);
    var payload := ParseOuterFrame(data).value.payload;
    var length := FromBytes(payload[3..5]) + 2;
    var inner := payload[1..][..length];
    assert inner[..2] == payload[1..3] && inner[2..4] == payload[3..5];
    var form := FormOf(data);
    FrameFromParts(inner, device.identity.wireType, form, slots);
    assert payload == [0x02] + inner + form.trailing;
    FrameOfParts(inner, device.identity.wireType);
  }

  lemma FrameOfParts(inner: bytes, wireType: byte)
    requires |inner| >= 47 && FrameOfSchedule(inner, wireType)
    ensures inner[5] in {0x84, 0x03}
  {}

  /** The slots that are read are exactly those that the device itself tells, in its own datagram from its own port. */
  lemma ReadIffTold(device: Device, data: bytes, source: Endpoint, slots: Slots)
    ensures DecodeReply(data, source, device) == Some(slots) <==> Tells(device, Arrive(data, source), slots)
  {
    hide DecodeReply, IsReply;
    if DecodeReply(data, source, device) == Some(slots) {
      DecodedIsReply(device, data, source, slots);
    }
    if Tells(device, Arrive(data, source), slots) {
      var form :| IsReply(device, data, slots, form);
      ReplyIsDecoded(device, data, slots, form);
    }
  }

  // ---------------------------------------------------------------- slots

  /** A slot holds no schedule: six zeros, or four 0xFF after the first octet. */
  predicate Free(s: Slot)
  {
    || (s[0] == 0 && s[1] == 0 && s[2] == 0 && s[3] == 0 && s[4] == 0 && s[5] == 0)
    || (s[1] == 0xFF && s[2] == 0xFF && s[3] == 0xFF && s[4] == 0xFF)
  }

  function At(slots: Slots, k: nat): Slot
    requires k < 4
  {
    if k == 0 then slots.a else if k == 1 then slots.b else if k == 2 then slots.c else slots.d
  }

  function Occupied(slots: Slots): set<nat>
  {
    set k: nat | k < 4 && !Free(At(slots, k))
  }

  function OccupiedBelow(slots: Slots, n: nat): set<nat>
    requires n <= 4
  {
    set k: nat | k < n && !Free(At(slots, k))
  }

  lemma OneMoreSlot(slots: Slots, n: nat)
    requires n < 4
    ensures |OccupiedBelow(slots, n + 1)| == |OccupiedBelow(slots, n)| + if SlotIsEmpty(At(slots, n)) then 0 else 1
  {
    EmptyIsFree(At(slots, n));
    hide SlotIsEmpty, Free, At;
    var less, more := OccupiedBelow(slots, n), OccupiedBelow(slots, n + 1);
    if Free(At(slots, n)) {
      assert more == less;
    } else {
      assert more == less + {n};
    }
  }

  lemma EmptyIsFree(s: Slot)
    ensures SlotIsEmpty(s) <==> Free(s)
  {
    if Free(s) && s[1] == 0xFF {
      assert s[1..5] == [0xFF, 0xFF, 0xFF, 0xFF];
    }
    if s[1..5] == [0xFF, 0xFF, 0xFF, 0xFF] {
      assert forall k :: 1 <= k < 5 ==> s[k] == s[1..5][k - 1];
    }
  }

  lemma NoneIsEmpty(s: set<nat>)
    ensures |s| == 0 <==> s == {}
  {}

  lemma ConfiguredIsOccupied(slots: Slots)
    ensures Configured(slots) == |Occupied(slots)|
    ensures AllEmpty(slots) <==> Occupied(slots) == {}
  {
    OneMoreSlot(slots, 0);
    OneMoreSlot(slots, 1);
    OneMoreSlot(slots, 2);
    OneMoreSlot(slots, 3);
    hide SlotIsEmpty, Free;
    assert OccupiedBelow(slots, 0) == {};
    assert OccupiedBelow(slots, 4) == Occupied(slots);
    NoneIsEmpty(Occupied(slots));
  }

  // ---------------------------------------------------------------- one query

  /** A reply that the query is waiting for. */
  ghost predicate Wanted(device: Device, requireEmpty: bool, e: NetEvent, slots: Slots)
  {
    Tells(device, e, slots) && (requireEmpty ==> Occupied(slots) == {})
  }

  ghost predicate IsWanted(device: Device, requireEmpty: bool, e: NetEvent)
  {
    exists slots :: Wanted(device, requireEmpty, e, slots)
  }

  /** What an attempt does not end with. */
  ghost predicate Passed(device: Device, requireEmpty: bool, part: seq<NetEvent>)
  {
    && (forall i :: 0 <= i < |part| ==> !part[i].Elapsed? && !part[i].Cancel?)
    && (forall i :: 0 <= i < |part| ==> !IsWanted(device, requireEmpty, part[i]))
  }

  /** An attempt begins with a send that does not fail. */
  predicate IsSent(part: seq<NetEvent>)
  {
    part != [] && !part[0].Fail? && !part[0].Crash?
  }

  /** What a query meets: attempts that run out of time, then one that ends with this event. */
  datatype Course = Course(lost: seq<seq<NetEvent>>, passed: seq<NetEvent>, last: NetEvent)

  function Events(c: Course): seq<NetEvent>
    decreases |c.lost|
  {
    if c.lost == [] then c.passed + [c.last] else c.lost[0] + [Elapsed] + Events(c.(lost := c.lost[1..]))
  }

  ghost predicate IsCourse(device: Device, requireEmpty: bool, c: Course, attempts: nat)
  {
    && |c.lost| < attempts && Passed(device, requireEmpty, c.passed)
    && (forall i :: 0 <= i < |c.lost| ==> Passed(device, requireEmpty, c.lost[i]) && IsSent(c.lost[i] + [Elapsed]))
  }

  /** How such a query ends, if it has that many attempts. */
  ghost predicate EndsWith(device: Device, requireEmpty: bool, c: Course, a: Answer, attempts: nat)
  {
    IsCourse(device, requireEmpty, c, attempts) &&
    match a
    case Answered(slots) => Wanted(device, requireEmpty, c.last, slots) && IsSent(c.passed + [c.last])
    case Interrupted => c.last == Cancel && IsSent(c.passed + [Cancel])
    case SocketError => c.last == Fail && c.passed == []
    case Crashed => c.last == Crash && c.passed == []
    case Unanswered => c.last == Elapsed && |c.lost| + 1 == attempts && IsSent(c.passed + [Elapsed])
  }

  lemma WantedIsRead(device: Device, requireEmpty: bool, e: NetEvent, slots: Slots)
    requires e.Arrive?
    ensures Wanted(device, requireEmpty, e, slots)
       <==> DecodeReply(e.data, e.source, device) == Some(slots) && (requireEmpty ==> AllEmpty(slots))
  {
    hide DecodeReply, Tells, Occupied, AllEmpty;
    ReadIffTold(device, e.data, e.source, slots);
    ConfiguredIsOccupied(slots);
  }

  lemma NotWanted(device: Device, requireEmpty: bool, e: NetEvent)
    requires e.Arrive? && !IsWanted(device, requireEmpty, e)
    ensures DecodeReply(e.data, e.source, device).Some? ==>
      requireEmpty && !AllEmpty(DecodeReply(e.data, e.source, device).value)
  {
    hide DecodeReply, Wanted, AllEmpty;
    var r := DecodeReply(e.data, e.source, device);
    if r.Some? {
      WantedIsRead(device, requireEmpty, e, r.value);
    }
  }

  lemma Queues(device: Device, e: NetEvent, rest: seq<NetEvent>)
    requires e.Arrive?
    ensures var r := DecodeReply(e.data, e.source, device);
      ReceiveRun(device, [], [e] + rest) == if r.Some? then Heard(Got(r.value), [], rest) else ReceiveRun(device, [], rest)
  {
    hide DecodeReply;
    var r := DecodeReply(e.data, e.source, device);
    assert ([e] + rest)[1..] == rest;
    if r.Some? {
      assert [r.value][1..] == [];
      assert ReceiveRun(device, [r.value], rest) == Heard(Got(r.value), [], rest);
    }
  }

  lemma Reads(device: Device, rest: seq<NetEvent>)
    requires rest != [] && rest[0].Elapsed?
    ensures ReceiveRun(device, [], rest) == Heard(TimedOut, [], rest[1..])
  {}

  /** An event that an attempt passes over changes nothing. */
  lemma PassesOver(device: Device, requireEmpty: bool, e: NetEvent, rest: seq<NetEvent>)
    requires !e.Elapsed? && !e.Cancel? && !IsWanted(device, requireEmpty, e)
    ensures AwaitRun(device, [], requireEmpty, [e] + rest) == AwaitRun(device, [], requireEmpty, rest)
  {
    hide DecodeReply, AllEmpty, IsWanted;
    var script := [e] + rest;
    assert script[1..] == rest;
    if e.Arrive? {
      NotWanted(device, requireEmpty, e);
      Queues(device, e, rest);
    }
    if rest != [] && rest[0].Elapsed? {
      Reads(device, rest);
    }
  }

  lemma {:induction false} PassesOverAll(
    device: Device, requireEmpty: bool, part: seq<NetEvent>, rest: seq<NetEvent>)
    requires Passed(device, requireEmpty, part)
    ensures AwaitRun(device, [], requireEmpty, part + rest) == AwaitRun(device, [], requireEmpty, rest)
  {
    hide AwaitRun, IsWanted;
    if part == [] {
      assert part + rest == rest;
    } else {
      assert part + rest == [part[0]] + (part[1..] + rest);
      PassesOver(device, requireEmpty, part[0], part[1..] + rest);
      PassesOverAll(device, requireEmpty, part[1..], rest);
    }
  }

  /** What an attempt ends with. */
  lemma AttemptEnds(device: Device, requireEmpty: bool, part: seq<NetEvent>, e: NetEvent, rest: seq<NetEvent>)
    requires Passed(device, requireEmpty, part)
    ensures var h := AwaitRun(device, [], requireEmpty, part + [e] + rest);
      && (e.Elapsed? ==> h == Heard(TimedOut, [], rest)) && (e.Cancel? ==> h == Heard(Cancelled, [], rest))
      && (forall slots :: Wanted(device, requireEmpty, e, slots) ==> h == Heard(Got(slots), [], rest))
  {
    assert part + [e] + rest == part + ([e] + rest);
    PassesOverAll(device, requireEmpty, part, [e] + rest);
    hide DecodeReply, AllEmpty, IsWanted, Wanted, Passed;
    var script := [e] + rest;
    assert script[1..] == rest;
    forall slots | Wanted(device, requireEmpty, e, slots)
      ensures AwaitRun(device, [], requireEmpty, script) == Heard(Got(slots), [], rest)
    {
      WantedArrives(device, requireEmpty, e, slots);
      WantedIsRead(device, requireEmpty, e, slots);
      Queues(device, e, rest);
    }
  }

  lemma WantedArrives(device: Device, requireEmpty: bool, e: NetEvent, slots: Slots)
    requires Wanted(device, requireEmpty, e, slots)
    ensures e.Arrive?
  {}

  /** How a query ends, from what happens to it: one datagram per attempt. */
  lemma {:induction false} QueryEnds(
    device: Device, requireEmpty: bool, c: Course, a: Answer, rest: seq<NetEvent>, attempts: nat)
    requires EndsWith(device, requireEmpty, c, a, attempts)
    ensures QueryRun(device, requireEmpty, Events(c) + rest, attempts) == (a, rest)
    ensures QueriesSent(device, requireEmpty, Events(c) + rest, attempts) == |c.lost| + 1
    decreases |c.lost|
  {
    hide AwaitRun, Passed, Wanted;
    if c.lost == [] {
      var script := Events(c) + rest;
      AttemptEnds(device, requireEmpty, c.passed, c.last, rest);
      assert script == c.passed + [c.last] + rest;
      assert script[0] == (c.passed + [c.last])[0];
      assert script[1..] == rest || c.passed != [];
    } else {
      var less := c.(lost := c.lost[1..]);
      var script := Events(c) + rest;
      AttemptEnds(device, requireEmpty, c.lost[0], Elapsed, Events(less) + rest);
      assert script == c.lost[0] + [Elapsed] + (Events(less) + rest);
      assert script[0] == (c.lost[0] + [Elapsed])[0];
      QueryEnds(device, requireEmpty, less, a, rest, attempts - 1);
    }
  }

  // ---------------------------------------------------------------- and back

  /** Where an attempt ends, if the script does not run out before. */
  lemma {:induction false} AttemptOf(device: Device, requireEmpty: bool, script: seq<NetEvent>) returns (k: nat)
    ensures k <= |script| && Passed(device, requireEmpty, script[..k])
    ensures k < |script| ==> script[k].Elapsed? || script[k].Cancel? || IsWanted(device, requireEmpty, script[k])
  {
    hide IsWanted;
    if script == [] || script[0].Elapsed? || script[0].Cancel? || IsWanted(device, requireEmpty, script[0]) {
      k := 0;
    } else {
      var after := AttemptOf(device, requireEmpty, script[1..]);
      k := after + 1;
      assert script[..k] == [script[0]] + script[1..][..after];
    }
  }

  lemma {:induction false} RunsOut(device: Device, requireEmpty: bool, attempts: nat)
    ensures QueryRun(device, requireEmpty, [], attempts) == (Unanswered, [])
  {
    if attempts > 0 {
      RunsOut(device, requireEmpty, attempts - 1);
    }
  }

  /** A query that ends before its script does met one of the courses. */
  lemma {:induction false} CourseOf(device: Device, requireEmpty: bool, script: seq<NetEvent>, attempts: nat)
    returns (c: Course)
    requires !QueryRun(device, requireEmpty, script, attempts).0.Unanswered?
    ensures var (a, rest) := QueryRun(device, requireEmpty, script, attempts);
      EndsWith(device, requireEmpty, c, a, attempts) && script == Events(c) + rest
    decreases attempts
  {
    hide AwaitRun, Passed, Wanted, Tells;
    if script != [] && (script[0].Fail? || script[0].Crash?) {
      c := Course([], [], script[0]);
      assert Passed(device, requireEmpty, []) by { NothingPassed(device, requireEmpty); }
    } else {
      var k := AttemptOf(device, requireEmpty, script);
      if k == |script| {
        assert script[..k] == script && script + [] == script;
        PassesOverAll(device, requireEmpty, script, []);
        NothingHeard(device, requireEmpty);
        RunsOut(device, requireEmpty, attempts - 1);
        assert false;
      } else {
        var e, rest := script[k], script[k + 1..];
        assert script == script[..k] + [e] + rest;
        assert (script[..k] + [e])[0] == script[0];
        AttemptEnds(device, requireEmpty, script[..k], e, rest);
        if e.Elapsed? {
          var after := CourseOf(device, requireEmpty, rest, attempts - 1);
          c := after.(lost := [script[..k]] + after.lost);
          assert c.lost[1..] == after.lost;
        } else {
          c := Course([], script[..k], e);
        }
      }
    }
  }

  lemma NothingPassed(device: Device, requireEmpty: bool)
    ensures Passed(device, requireEmpty, [])
  {}

  lemma NothingHeard(device: Device, requireEmpty: bool)
    ensures AwaitRun(device, [], requireEmpty, []) == Heard(TimedOut, [], [])
  {}

  // ---------------------------------------------------------------- the whole cleanup

  /** What the parts of a cleanup meet: the read, the pause after the write and its end, and the two reads after it. */
  datatype Story = Story(read: Course, pause: seq<NetEvent>, over: NetEvent, second: Course, third: Course)

  /** The read succeeds, with these slots. */
  ghost predicate ReadDone(device: Device, t: Story, slots: Slots)
  {
    EndsWith(device, false, t.read, Answered(slots), 3)
  }

  /** The write is sent and the pause after it passes. */
  ghost predicate WriteDone(t: Story)
  {
    && (forall i :: 0 <= i < |t.pause| ==> t.pause[i].Arrive?)
    && !t.over.Arrive? && !t.over.Cancel? && IsSent(t.pause + [t.over])
  }

  ghost predicate Confirmed(device: Device, c: Course)
  {
    exists slots :: EndsWith(device, true, c, Answered(slots), 3)
  }

  lemma {:induction false} PauseEnds(pause: seq<NetEvent>, over: NetEvent, rest: seq<NetEvent>)
    requires !over.Arrive? && forall i :: 0 <= i < |pause| ==> pause[i].Arrive?
    ensures SleepRun(pause + [over] + rest) == (over.Cancel?, rest)
  {
    var script := pause + [over] + rest;
    if pause == [] {
      assert script[1..] == rest;
    } else {
      assert script[1..] == pause[1..] + [over] + rest;
      PauseEnds(pause[1..], over, rest);
    }
  }

  /** The part of a cleanup before the confirming reads. */
  lemma WriteEnds(device: Device, t: Story, slots: Slots, rest: seq<NetEvent>)
    requires ReadDone(device, t, slots) && WriteDone(t)
    ensures ReadAndWriteRun(device, Events(t.read) + t.pause + [t.over] + rest) == (None, slots, rest)
  {
    hide QueryRun, QueriesSent, EndsWith, Events;
    var script := t.pause + [t.over] + rest;
    assert Events(t.read) + t.pause + [t.over] + rest == Events(t.read) + script;
    QueryEnds(device, false, t.read, Answered(slots), script, 3);
    PauseEnds(t.pause, t.over, rest);
    assert script[0] == (t.pause + [t.over])[0];
  }

  /** How the caller hears of a query that did not succeed. */
  function Reported(a: Answer, rest: seq<NetEvent>): CleanupResult
  {
    if rest != [] && rest[0].Cancel? then WasCancelled
    else
      match a
      case Interrupted => WasCancelled
      case Crashed => WasUncaught
      case _ => CleanupError
  }

  /** The ways in which a cleanup stops early: in the read, at the write, in the pause, or in one of the last reads. */
  ghost predicate StopsWith(device: Device, script: seq<NetEvent>, t: Story, slots: Slots, a: Answer, rest: seq<NetEvent>)
  {
    && !a.Answered?
    && (|| (EndsWith(device, false, t.read, a, 3) && script == Events(t.read) + rest)
        || (ReadDone(device, t, slots) && a in {SocketError, Crashed}
            && script == Events(t.read) + [if a == Crashed then Crash else Fail] + rest)
        || (ReadDone(device, t, slots) && a == Interrupted && WriteDone(t.(over := Elapsed))
            && script == Events(t.read) + t.pause + [Cancel] + rest)
        || (ReadDone(device, t, slots) && WriteDone(t) && EndsWith(device, true, t.second, a, 3)
            && script == Events(t.read) + t.pause + [t.over] + Events(t.second) + rest)
        || (ReadDone(device, t, slots) && WriteDone(t) && Confirmed(device, t.second) && EndsWith(device, true, t.third, a, 3)
            && script == Events(t.read) + t.pause + [t.over] + Events(t.second) + Events(t.third) + rest))
  }

  /** Each way of stopping early is reported as what it is. */
  lemma CleanupFails(
    device: Device, script: seq<NetEvent>, t: Story, slots: Slots, a: Answer, rest: seq<NetEvent>)
    requires device.identity.wireType in {2, 3, 4} && StopsWith(device, script, t, slots, a, rest)
    ensures ClearRun(device, Opened, script) == Reported(a, rest)
  {
    hide QueryRun, QueriesSent, EndsWith, Events, Configured, SleepRun, WriteDone;
    if EndsWith(device, false, t.read, a, 3) && script == Events(t.read) + rest {
      QueryEnds(device, false, t.read, a, rest, 3);
    } else if a in {SocketError, Crashed} && script == Events(t.read) + [if a == Crashed then Crash else Fail] + rest {
      var after := [if a == Crashed then Crash else Fail] + rest;
      assert script == Events(t.read) + after && after[1..] == rest;
      QueryEnds(device, false, t.read, Answered(slots), after, 3);
    } else if a == Interrupted && WriteDone(t.(over := Elapsed)) && script == Events(t.read) + t.pause + [Cancel] + rest {
      PauseCancelled(device, t, slots, rest);
    } else if EndsWith(device, true, t.second, a, 3)
      && script == Events(t.read) + t.pause + [t.over] + Events(t.second) + rest {
      assert script == Events(t.read) + t.pause + [t.over] + (Events(t.second) + rest);
      WriteEnds(device, t, slots, Events(t.second) + rest);
      QueryEnds(device, true, t.second, a, rest, 3);
    } else {
      var after := Events(t.third) + rest;
      assert script == Events(t.read) + t.pause + [t.over] + (Events(t.second) + after);
      WriteEnds(device, t, slots, Events(t.second) + after);
      var s :| EndsWith(device, true, t.second, Answered(s), 3);
      QueryEnds(device, true, t.second, Answered(s), after, 3);
      QueryEnds(device, true, t.third, a, rest, 3);
    }
  }

  lemma PauseCancelled(device: Device, t: Story, slots: Slots, rest: seq<NetEvent>)
    requires ReadDone(device, t, slots) && WriteDone(t.(over := Elapsed))
    ensures ReadAndWriteRun(device, Events(t.read) + t.pause + [Cancel] + rest) == (Some(WasCancelled), slots, rest)
  {
    hide QueryRun, QueriesSent, EndsWith, Events;
    var script := t.pause + [Cancel] + rest;
    assert Events(t.read) + t.pause + [Cancel] + rest == Events(t.read) + script;
    QueryEnds(device, false, t.read, Answered(slots), script, 3);
    PauseEnds(t.pause, Cancel, rest);
    assert t.pause != [] ==> script[0] == t.pause[0];
  }

  /** A cleanup in which all four steps succeed, and whose caller is not cancelled at the end. */
  ghost predicate Succeeds(device: Device, script: seq<NetEvent>, t: Story, slots: Slots, rest: seq<NetEvent>)
  {
    && ReadDone(device, t, slots) && WriteDone(t) && Confirmed(device, t.second) && Confirmed(device, t.third)
    && script == Events(t.read) + t.pause + [t.over] + Events(t.second) + Events(t.third) + rest
    && !(rest != [] && rest[0].Cancel?)
  }

  lemma CleanupSucceeds(device: Device, script: seq<NetEvent>, t: Story, slots: Slots, rest: seq<NetEvent>)
    requires device.identity.wireType in {2, 3, 4} && Succeeds(device, script, t, slots, rest)
    ensures ClearRun(device, Opened, script) == Cleared(|Occupied(slots)|)
  {
    hide QueryRun, QueriesSent, EndsWith, Events, Configured, WriteDone, ReadAndWriteRun, Occupied;
    var after := Events(t.third) + rest;
    assert script == Events(t.read) + t.pause + [t.over] + (Events(t.second) + after);
    WriteEnds(device, t, slots, Events(t.second) + after);
    var s2 :| EndsWith(device, true, t.second, Answered(s2), 3);
    var s3 :| EndsWith(device, true, t.third, Answered(s3), 3);
    QueryEnds(device, true, t.second, Answered(s2), after, 3);
    QueryEnds(device, true, t.third, Answered(s3), rest, 3);
    ConfiguredIsOccupied(slots);
  }

  /** Where the pause ends. */
  lemma {:induction false} PauseOf(script: seq<NetEvent>) returns (k: nat)
    ensures k <= |script| && (forall i :: 0 <= i < k ==> script[i].Arrive?) && (k < |script| ==> !script[k].Arrive?)
    ensures SleepRun(script) == if k == |script| then (false, []) else (script[k].Cancel?, script[k + 1..])
  {
    if script == [] || !script[0].Arrive? {
      k := 0;
    } else {
      var after := PauseOf(script[1..]);
      k := after + 1;
    }
  }

  /** A cleanup reports success only when all four steps succeeded. */
  lemma SuccessWasAStory(device: Device, script: seq<NetEvent>, n: nat)
    returns (t: Story, slots: Slots, rest: seq<NetEvent>)
    requires ClearRun(device, Opened, script) == Cleared(n)
    ensures Succeeds(device, script, t, slots, rest) && n == |Occupied(slots)|
  {
    hide QueryRun, QueriesSent, EndsWith, Events, Configured, WriteDone, SleepRun, Occupied;
    var (first, after) := QueryRun(device, false, script, QUERY_ATTEMPTS);
    var read := CourseOf(device, false, script, 3);
    slots := first.slots;
    var k := PauseOf(after);
    RunsOut(device, true, 3);
    var pause, over, settled := after[..k], after[k], after[k + 1..];
    assert after == pause + [over] + settled;
    var (second, rest2) := QueryRun(device, true, settled, QUERY_ATTEMPTS);
    var c2 := CourseOf(device, true, settled, 3);
    var c3 := CourseOf(device, true, rest2, 3);
    var (third, rest3) := QueryRun(device, true, rest2, QUERY_ATTEMPTS);
    rest := rest3;
    assert Confirmed(device, c2) by { assert EndsWith(device, true, c2, Answered(second.slots), 3); }
    assert Confirmed(device, c3) by { assert EndsWith(device, true, c3, Answered(third.slots), 3); }
    t := Story(read, pause, over, c2, c3);
    PauseIsDone(t);
    ConfiguredIsOccupied(slots);
    assert script == Events(read) + pause + [over] + Events(c2) + Events(c3) + rest;
  }

  lemma PauseIsDone(t: Story)
    requires forall i :: 0 <= i < |t.pause| ==> t.pause[i].Arrive?
    requires !t.over.Arrive? && !t.over.Cancel? && IsSent(t.pause + [t.over])
    ensures WriteDone(t)
  {}

  /**
   * A cleanup succeeds exactly if the device's own reply ends the read within three attempts, the
   * write is sent, and after the pause two more reads each end with the device's own reply of four
   * free slots; the count is that of the slots occupied in the first reply.
   */
  lemma ClearedIff(device: Device, opening: Opening, script: seq<NetEvent>, n: nat)
    ensures ClearRun(device, opening, script) == Cleared(n)
       <==> device.identity.wireType in {2, 3, 4} && opening == Opened
            && exists t, slots, rest :: Succeeds(device, script, t, slots, rest) && n == |Occupied(slots)|
  {
    hide TransactionRun, Succeeds, Occupied;
    if ClearRun(device, opening, script) == Cleared(n) {
      var t, slots, rest := SuccessWasAStory(device, script, n);
    }
    if device.identity.wireType in {2, 3, 4} && opening == Opened
      && exists t, slots, rest :: Succeeds(device, script, t, slots, rest) && n == |Occupied(slots)| {
      var t, slots, rest :| Succeeds(device, script, t, slots, rest) && n == |Occupied(slots)|;
      CleanupSucceeds(device, script, t, slots, rest);
    }
  }
}
