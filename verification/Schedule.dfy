/**
 * Cleanup of the purifier's four schedule slots (schedule.py): the schedule frames, the queue of
 * validated replies, and the read, write, read, read protocol against a network that may lose,
 * delay, duplicate or forge datagrams, fail any send, or cancel the caller at any await.
 */
module Schedule {
  import opened Bytes
  import opened Models
  import opened Framing
  import opened Crc16
  import opened CrcNumbers
  import opened Logs

  datatype Device = Device(host: string, identity: Identity)

  type Slot = s: bytes | |s| == 8 witness [0, 0, 0, 0, 0, 0, 0, 0]

  datatype Slots = Slots(a: Slot, b: Slot, c: Slot, d: Slot)

  const UDP_PORT: u16 := 11530
  const EMPTY_SLOT: Slot := [0x00, 0xFF, 0xFF, 0xFF, 0xFF, 0x00, 0x00, 0x00]
  const EMPTY_SLOTS := Slots(EMPTY_SLOT, EMPTY_SLOT, EMPTY_SLOT, EMPTY_SLOT)

  predicate Supported(device: Device)
  {
    device.identity.wireType in {2, 3, 4}
  }

  // ---------------------------------------------------------------- frames

  function Join(s: Slots): (data: bytes)
    ensures |data| == 32
  {
    s.a + s.b + s.c + s.d
  }

  function Sum(data: bytes): nat
  {
    if data == [] then 0 else Sum(data[..|data| - 1]) + data[|data| - 1]
  }

  /** The frame of a schedule query, up to its checksum. */
  function QueryBody(wireType: byte, sequence: u16): bytes
  {
    PREFIX + [0x00, 0x0C, wireType, 0x04, 0x0C] + ToBytes2(sequence) + [0x01, 0x04, 0x04]
  }

  /** The frame of a schedule write, up to its checksum. */
  function WriteBody(wireType: byte, sequence: u16, slots: Slots): bytes
  {
    var body := [0x04, 0x20] + Join(slots);
    PREFIX + [0x00, 0x2D, wireType, 0x04, 0x0B] + ToBytes2(sequence) + [34] + body + [Sum(body) % 256]
  }

  /** _wrap_inner. */
  function WrapInner(device: Device, sequence: u16, inner: bytes): (r: bytes)
    requires |inner| <= 47
    ensures ParseOuterFrame(r) == Some(OuterFrame(device.identity, 0x04, sequence, [0x01] + inner))
  {
    ParseOfBuild(device.identity, 0x04, sequence, [0x01] + inner);
    BuildOuterFrame(device.identity, 0x04, sequence, [0x01] + inner).value
  }

  function QueryDatagram(device: Device, sequence: u16): bytes
  {
    WrapInner(device, sequence, Seal(QueryBody(device.identity.wireType, sequence)))
  }

  function WriteDatagram(device: Device, sequence: u16, slots: Slots): bytes
  {
    WrapInner(device, sequence, Seal(WriteBody(device.identity.wireType, sequence, slots)))
  }

  /** inner[at:at + len(data)] = data, as the frames are filled: from the front. */
  method Fill(inner: array<byte>, at: nat, data: bytes)
    requires at + |data| <= inner.Length
    modifies inner
    ensures inner[..at + |data|] == old(inner[..at]) + data
  {
    var k := 0;
    while k < |data|
      invariant 0 <= k <= |data|
      invariant inner[..at + k] == old(inner[..at]) + data[..k]
    {
      inner[at + k] := data[k];
      assert inner[..at + (k + 1)] == inner[..at + k] + [data[k]];
      assert data[..k + 1] == data[..k] + [data[k]];
      k := k + 1;
    }
    assert data[..k] == data;
  }

  method EncodeScheduleQuery(device: Device, sequence: u16) returns (r: bytes)
    ensures r == QueryDatagram(device, sequence)
  {
    hide Crc, WrapInner;
    var inner := new byte[14];
    Fill(inner, 0, [0xF0, 0x72, 0x00, 0x0C]);
    Fill(inner, 4, [device.identity.wireType, 0x04, 0x0C]);
    Fill(inner, 7, ToBytes2(sequence));
    Fill(inner, 9, [0x01, 0x04, 0x04]);
    ghost var body := QueryBody(device.identity.wireType, sequence);
    assert inner[..12] == body && inner[2..12] == inner[..12][2..];
    var crc := Crc16Genibus(inner[2..12]);
    Fill(inner, 12, ToBytes2(crc));
    assert inner[..] == inner[..14] == Seal(body);
    r := WrapInner(device, sequence, inner[..]);
  }

  method SumOf(data: bytes) returns (sum: nat)
    ensures sum == Sum(data)
  {
    sum := 0;
    var k := 0;
    while k < |data|
      invariant 0 <= k <= |data| && sum == Sum(data[..k])
    {
      assert data[..k + 1][..k] == data[..k];
      sum := sum + data[k];
      k := k + 1;
    }
    assert data[..k] == data;
  }

  method EncodeScheduleWrite(device: Device, sequence: u16, slots: Slots) returns (r: bytes)
    ensures r == WriteDatagram(device, sequence, slots)
  {
    hide Crc, WrapInner, Sum;
    var body := [0x04, 0x20] + Join(slots);
    var inner := new byte[47];
    Fill(inner, 0, [0xF0, 0x72, 0x00, 0x2D]);
    Fill(inner, 4, [device.identity.wireType, 0x04, 0x0B]);
    Fill(inner, 7, ToBytes2(sequence));
    Fill(inner, 9, [34]);
    Fill(inner, 10, body);
    var sum := SumOf(body);
    Fill(inner, 44, [sum % 256]);
    ghost var frame := WriteBody(device.identity.wireType, sequence, slots);
    assert inner[..45] == frame && inner[2..45] == inner[..45][2..];
    var crc := Crc16Genibus(inner[2..45]);
    Fill(inner, 45, ToBytes2(crc));
    assert inner[..] == inner[..47] == Seal(frame);
    r := WrapInner(device, sequence, inner[..]);
  }

  // ---------------------------------------------------------------- replies

  predicate FrameOfSchedule(frame: bytes, wireType: byte)
    requires |frame| >= 47
  {
    && frame[4] == wireType && frame[5] in {0x84, 0x03} && frame[6] == 0x0C && frame[10..12] == [0x04, 0x20]
    && Crc(frame[2..|frame| - 2]) == FromBytes(frame[|frame| - 2..])
  }

  /** _decode_schedule_response. */
  function DecodeReply(data: bytes, source: Endpoint, device: Device): Option<Slots>
  {
    var outer := ParseOuterFrame(data);
    if source != Endpoint(device.host, UDP_PORT) || outer == None || outer.value.identity != device.identity then None
    else
      var payload := outer.value.payload;
      if |payload| < 48 || payload[0] != 0x02 || payload[1..3] != PREFIX then None
      else
        var length := FromBytes(payload[3..5]) + 2;
        if length < 47 || length > |payload| - 1 then None
        else
          var inner := payload[1..][..length];
          if !FrameOfSchedule(inner, device.identity.wireType) then None
          else Some(Slots(inner[12..20], inner[20..28], inner[28..36], inner[36..44]))
  }

  /** _slot_is_empty: both empty representations. */
  predicate SlotIsEmpty(s: Slot)
  {
    (forall i :: 0 <= i < 6 ==> s[i] == 0) || s[1..5] == [0xFF, 0xFF, 0xFF, 0xFF]
  }

  predicate AllEmpty(s: Slots)
  {
    SlotIsEmpty(s.a) && SlotIsEmpty(s.b) && SlotIsEmpty(s.c) && SlotIsEmpty(s.d)
  }

  function Configured(s: Slots): nat
  {
    (if SlotIsEmpty(s.a) then 0 else 1) + (if SlotIsEmpty(s.b) then 0 else 1)
    + (if SlotIsEmpty(s.c) then 0 else 1) + (if SlotIsEmpty(s.d) then 0 else 1)
  }

  lemma WhatIsWrittenIsEmpty()
    ensures AllEmpty(EMPTY_SLOTS) && Configured(EMPTY_SLOTS) == 0
  {
    assert EMPTY_SLOT[1..5] == [0xFF, 0xFF, 0xFF, 0xFF];
  }

  /** The frame of a device's reply with these slots, up to its checksum. */
  function ReplyBody(device: Device, operation: byte, three: bytes, slots: Slots, extra: bytes): (r: bytes)
    requires |three| == 3 && 1 <= |extra| <= 201
    ensures |r| == 44 + |extra|
  {
    PREFIX + ToBytes2(44 + |extra|) + [device.identity.wireType, operation, 0x0C] + three + [0x04, 0x20]
    + Join(slots) + extra
  }

  /** The slots that a device puts into a reply are the slots that are read from it. */
  lemma ReplyReadsBack(
    device: Device, operation: byte, sequence: u16, three: bytes, slots: Slots, extra: bytes, trailing: bytes, outer: byte)
    requires operation in {0x84, 0x03} && |three| == 3 && 1 <= |extra| && |extra| + |trailing| <= 201
    ensures var reply := BuildOuterFrame(device.identity, outer, sequence,
                                         [0x02] + Seal(ReplyBody(device, operation, three, slots, extra)) + trailing);
      reply.Ok? && DecodeReply(reply.value, Endpoint(device.host, 11530), device) == Some(slots)
  {
    hide DecodeReply, ReplyFrameOf, Seal, ReplyBody, BuildOuterFrame, ParseOuterFrame;
    var frame := Seal(ReplyBody(device, operation, three, slots, extra));
    ReplyFrame(device, operation, three, slots, extra);
    var payload := [0x02] + frame + trailing;
    ParseOfBuild(device.identity, outer, sequence, payload);
    PayloadReadsBack(
      BuildOuterFrame(device.identity, outer, sequence, payload).value, device, outer, sequence, frame, trailing, slots);
  }

  /** A frame of a schedule with these slots, and its length field. */
  predicate ReplyFrameOf(frame: bytes, wireType: byte, slots: Slots)
  {
    && |frame| >= 47 && frame[..2] == PREFIX && FromBytes(frame[2..4]) + 2 == |frame| && FrameOfSchedule(frame, wireType)
    && frame[12..20] == slots.a && frame[20..28] == slots.b && frame[28..36] == slots.c && frame[36..44] == slots.d
  }

  lemma ReplyFrame(device: Device, operation: byte, three: bytes, slots: Slots, extra: bytes)
    requires operation in {0x84, 0x03} && |three| == 3 && 1 <= |extra| <= 201
    ensures |Seal(ReplyBody(device, operation, three, slots, extra))| == 46 + |extra|
    ensures ReplyFrameOf(Seal(ReplyBody(device, operation, three, slots, extra)), device.identity.wireType, slots)
  {
    hide Crc, FromBytes;
    var body := ReplyBody(device, operation, three, slots, extra);
    var frame := Seal(body);
    assert frame[..2] == PREFIX;
    assert frame[2..4] == ToBytes2(44 + |extra|);
    ToBytes2RoundTrip(44 + |extra|);
    SealedReply(body);
    assert frame[10..12] == [0x04, 0x20];
    assert frame[12..20] == slots.a && frame[20..28] == slots.b && frame[28..36] == slots.c && frame[36..44] == slots.d;
  }

  lemma PayloadReadsBack(
    data: bytes, device: Device, operation: byte, sequence: u16, frame: bytes, trailing: bytes, slots: Slots)
    requires ReplyFrameOf(frame, device.identity.wireType, slots)
    requires ParseOuterFrame(data) == Some(OuterFrame(device.identity, operation, sequence, [0x02] + frame + trailing))
    ensures DecodeReply(data, Endpoint(device.host, 11530), device) == Some(slots)
  {
    hide Crc, FromBytes, ParseOuterFrame, FrameOfSchedule;
    var payload := [0x02] + frame + trailing;
    assert payload[1..3] == frame[..2] && payload[3..5] == frame[2..4];
    assert payload[1..][..|frame|] == frame;
  }

  lemma SealedReply(body: bytes)
    requires |body| >= 2
    ensures var frame := Seal(body); Crc(frame[2..|frame| - 2]) == FromBytes(frame[|frame| - 2..])
  {
    hide Crc, FromBytes;
    var frame := Seal(body);
    assert frame[2..|frame| - 2] == body[2..];
    assert frame[|frame| - 2..] == ToBytes2(Crc(body[2..]));
    ToBytes2RoundTrip(Crc(body[2..]));
  }

  /** A schedule write is read back from the wire with its sequences and its slots, under a valid checksum. */
  lemma WriteReadsBack(device: Device, sequence: u16, slots: Slots)
    ensures var f := ParseOuterFrame(WriteDatagram(device, sequence, slots));
      && f.Some? && f.value.identity == device.identity && f.value.sequence == sequence && |f.value.payload| == 48
      && IsWriteFrame(f.value.payload[1..], device.identity.wireType, sequence, slots)
  {
    hide Crc, FromBytes, ParseOuterFrame;
    var body := WriteBody(device.identity.wireType, sequence, slots);
    var frame := Seal(body);
    assert body[..2] == PREFIX;
    assert body[2..4] == [0x00, 0x2D];
    FromBytes2([0x00, 0x2D]);
    SealedFramePasses(body);
    assert frame[7..9] == ToBytes2(sequence);
    ToBytes2RoundTrip(sequence);
    assert frame[12..20] == slots.a && frame[20..28] == slots.b && frame[28..36] == slots.c && frame[36..44] == slots.d;
    assert ([0x01] + frame)[1..] == frame;
  }

  predicate IsWriteFrame(frame: bytes, wireType: byte, sequence: u16, slots: Slots)
  {
    && |frame| == 47 && RequestCrcValid(frame) && frame[4] == wireType && frame[6] == 0x0B
    && FromBytes(frame[7..9]) == sequence
    && frame[12..20] == slots.a && frame[20..28] == slots.b && frame[28..36] == slots.c && frame[36..44] == slots.d
  }

  /** The client's own datagrams, echoed back, are not taken for replies. */
  lemma EchoIsNoReply(device: Device, sequence: u16, slots: Slots, source: Endpoint)
    ensures DecodeReply(QueryDatagram(device, sequence), source, device) == None
    ensures DecodeReply(WriteDatagram(device, sequence, slots), source, device) == None
  {
    hide Crc, ParseOuterFrame;
  }

  // ---------------------------------------------------------------- what happens on the network

  /**
   * What an await meets, or a send: datagrams arrive, time is up, a send raises OSError (Fail)
   * or something else (Crash), or the caller is cancelled.  When the script has run out, sends
   * succeed and waits time out.
   */
  datatype NetEvent = Arrive(data: bytes, source: Endpoint) | Elapsed | Fail | Crash | Cancel

  /** The log: drains, send attempts, validated arrivals, and replies handed to the protocol. */
  datatype Entry =
    | Drained
    | Sent(write: bool, sequence: u16, datagram: bytes)
    | Arrived(data: bytes, source: Endpoint, slots: Slots)
    | Taken(at: nat)

  type Log = seq<Entry>

  /** How the acquisition of the UDP endpoint ends: with the endpoint, OSError, a cancellation, or another error. */
  datatype Opening = Opened | OpenFailed | OpenCancelled | OpenCrashed

  predicate IsWrite(e: Entry)
  {
    e.Sent? && e.write
  }

  predicate IsSend(e: Entry)
  {
    e.Sent?
  }

  /** How many datagrams were sent, and how many of them were writes. */
  function Sends(log: Log): nat { Count(log, IsSend) }

  function Writes(log: Log): nat { Count(log, IsWrite) }

  lemma OneMore(log: Log, e: Entry)
    ensures Sends(log + [e]) == Sends(log) + (if e.Sent? then 1 else 0)
    ensures Writes(log + [e]) == Writes(log) + if IsWrite(e) then 1 else 0
  {
    CountOneMore(log, e, IsSend);
    CountOneMore(log, e, IsWrite);
  }

  /** The sequence of the datagram number `k` of a run that starts at this clock. */
  function SequenceOf(start: u16, k: nat): u16
  {
    (start + k) % 0x1_0000
  }

  lemma FirstSequence(clock: u16)
    ensures Sends([]) == 0 && Writes([]) == 0 && SequenceOf(clock, 0) == clock
  {}

  lemma NextSequence(start: u16, k: nat)
    ensures (SequenceOf(start, k) + 1) % 0x1_0000 == SequenceOf(start, k + 1)
  {}

  /** The datagrams carry the numbers after `start`, one after another. */
  ghost predicate Numbered(log: Log, start: u16)
  {
    forall i :: 0 <= i < |log| && log[i].Sent? ==> log[i].sequence == (start + Sends(log[..i + 1])) % 0x1_0000
  }

  lemma OneMoreNumbered(log: Log, e: Entry, start: u16)
    requires Numbered(log, start)
    requires e.Sent? ==> e.sequence == SequenceOf(start, Sends(log) + 1)
    ensures Numbered(log + [e], start)
  {
    OneMore(log, e);
    assert e.Sent? ==> e.sequence == (start + Sends(log + [e])) % 0x1_0000;
    hide Sends, SequenceOf;
    var more := log + [e];
    forall i | 0 <= i < |more| && more[i].Sent?
      ensures more[i].sequence == (start + Sends(more[..i + 1])) % 0x1_0000
    {
      if i < |log| {
        assert more[..i + 1] == log[..i + 1];
      } else {
        assert more[..i + 1] == more;
      }
    }
  }

  /** What may happen between two points of a log without any send. */
  predicate Quiet(before: Log, after: Log)
  {
    before <= after && Sends(after) == Sends(before) && Writes(after) == Writes(before)
  }

  datatype Wait = Got(slots: Slots) | TimedOut | Cancelled

  // ---------------------------------------------------------------- the run as a function of its script

  /** A wait, the queue that it leaves, and what is left of the script. */
  datatype Heard = Heard(wait: Wait, queue: seq<Slots>, rest: seq<NetEvent>)

  function Queued(device: Device, queue: seq<Slots>, data: bytes, source: Endpoint): seq<Slots>
  {
    match DecodeReply(data, source, device) case None => queue case Some(slots) => queue + [slots]
  }

  function ReceiveRun(device: Device, queue: seq<Slots>, script: seq<NetEvent>): (h: Heard)
    ensures h.wait.Got? ==> 2 * |h.rest| + |h.queue| < 2 * |script| + |queue|
    decreases |script|
  {
    if queue != [] then Heard(Got(queue[0]), queue[1..], script)
    else if script == [] then Heard(TimedOut, [], [])
    else
      match script[0]
      case Elapsed => Heard(TimedOut, [], script[1..])
      case Cancel => Heard(Cancelled, [], script[1..])
      case Arrive(data, source) => ReceiveRun(device, Queued(device, [], data, source), script[1..])
      case _ => ReceiveRun(device, [], script[1..])
  }

  /** Replies with a slot that is not empty are passed over when empty slots are required. */
  function AwaitRun(device: Device, queue: seq<Slots>, requireEmpty: bool, script: seq<NetEvent>): Heard
    decreases 2 * |script| + |queue|
  {
    if script != [] && script[0].Elapsed? then Heard(TimedOut, queue, script[1..])
    else
      var h := ReceiveRun(device, queue, script);
      if h.wait.Got? && requireEmpty && !AllEmpty(h.wait.slots) then AwaitRun(device, h.queue, requireEmpty, h.rest)
      else h
  }

  /** The pause after the write: replies only gather in the queue, which the next query empties. */
  function SleepRun(script: seq<NetEvent>): (bool, seq<NetEvent>)
    decreases |script|
  {
    if script == [] then (false, [])
    else if script[0].Arrive? then SleepRun(script[1..])
    else (script[0].Cancel?, script[1..])
  }

  /** How a query ends: with slots, with a ScheduleCleanupError, an OSError, a cancellation, or a crash. */
  datatype Answer = Answered(slots: Slots) | Unanswered | SocketError | Interrupted | Crashed

  /** Up to that many attempts, each with an empty queue. */
  function QueryRun(device: Device, requireEmpty: bool, script: seq<NetEvent>, attempts: nat): (Answer, seq<NetEvent>)
    decreases attempts
  {
    if attempts == 0 then (Unanswered, script)
    else if script != [] && script[0].Fail? then (SocketError, script[1..])
    else if script != [] && script[0].Crash? then (Crashed, script[1..])
    else
      var h := AwaitRun(device, [], requireEmpty, script);
      match h.wait
      case Got(slots) => (Answered(slots), h.rest)
      case Cancelled => (Interrupted, h.rest)
      case TimedOut => QueryRun(device, requireEmpty, h.rest, attempts - 1)
  }

  /** How many queries that takes. */
  function QueriesSent(device: Device, requireEmpty: bool, script: seq<NetEvent>, attempts: nat): nat
    decreases attempts
  {
    if attempts == 0 then 0
    else if script != [] && (script[0].Fail? || script[0].Crash?) then 1
    else
      var h := AwaitRun(device, [], requireEmpty, script);
      if h.wait.TimedOut? then 1 + QueriesSent(device, requireEmpty, h.rest, attempts - 1) else 1
  }

  /** The read, the write, and the pause after it. */
  function ReadAndWriteRun(device: Device, script: seq<NetEvent>): (Option<CleanupResult>, Slots, seq<NetEvent>)
  {
    var (first, rest) := QueryRun(device, false, script, QUERY_ATTEMPTS);
    if !first.Answered? then (Some(Failed(first)), EMPTY_SLOTS, rest)
    else if rest != [] && rest[0].Fail? then (Some(CleanupError), first.slots, rest[1..])
    else if rest != [] && rest[0].Crash? then (Some(WasUncaught), first.slots, rest[1..])
    else
      var (cancelled, settled) := SleepRun(rest);
      (if cancelled then Some(WasCancelled) else None, first.slots, settled)
  }

  /** The two reads after it. */
  function ConfirmRun(device: Device, script: seq<NetEvent>): (Option<CleanupResult>, seq<NetEvent>)
  {
    var (second, rest) := QueryRun(device, true, script, QUERY_ATTEMPTS);
    if !second.Answered? then (Some(Failed(second)), rest)
    else
      var (third, rest3) := QueryRun(device, true, rest, QUERY_ATTEMPTS);
      (if third.Answered? then None else Some(Failed(third)), rest3)
  }

  /** What is done between the acquisition of the endpoint and its release. */
  function TransactionRun(device: Device, script: seq<NetEvent>): (CleanupResult, seq<NetEvent>)
  {
    var (failed, previous, settled) := ReadAndWriteRun(device, script);
    if failed.Some? then (failed.value, settled)
    else
      var (unconfirmed, rest) := ConfirmRun(device, settled);
      (if unconfirmed.Some? then unconfirmed.value else Cleared(Configured(previous)), rest)
  }

  /** async_clear_local_schedules. */
  function ClearRun(device: Device, opening: Opening, script: seq<NetEvent>): CleanupResult
  {
    if !Supported(device) then CleanupError
    else
      match opening
      case OpenFailed => CleanupError
      case OpenCancelled => WasCancelled
      case OpenCrashed => WasUncaught
      case Opened =>
        var (r, rest) := TransactionRun(device, script);
        if rest != [] && rest[0].Cancel? then WasCancelled else r
  }

  /** _ScheduleReceiver: the validated replies that have not been taken yet. */
  class ScheduleReceiver {
    const device: Device
    var queue: seq<Slots>
    /** What has happened at the endpoint so far. */
    var log: Log
    var places: seq<nat>
    ghost var since: nat
    ghost const start: u16

    /** Every queued reply is a validated arrival after the last drain. */
    ghost predicate Valid()
      reads this
    {
      && |places| == |queue| && since <= |log| && Numbered(log, start)
      && (forall i :: 0 <= i < |log| ==> Proper(device, log[i]))
      && (forall k :: 0 <= k < |queue| ==>
            since <= places[k] < |log| && IsArrival(device, log[places[k]]) && log[places[k]].slots == queue[k])
    }

    constructor (device: Device, clock: u16)
      ensures Valid() && this.device == device && start == clock && queue == [] && log == []
    {
      this.device, start := device, clock;
      queue, log, places, since := [], [], [], 0;
    }

    method DatagramReceived(data: bytes, source: Endpoint)
      requires Valid()
      modifies this
      ensures Valid() && since == old(since) && Quiet(old(log), log)
      ensures queue == Queued(device, old(queue), data, source)
    {
      hide DecodeReply, WriteDatagram, QueryDatagram;
      var slots := DecodeReply(data, source, device);
      if slots.Some? {
        var e := Arrived(data, source, slots.value);
        OneMore(log, e);
        OneMoreNumbered(log, e, start);
        queue := queue + [slots.value];
        places := places + [|log|];
        log := log + [e];
      }
    }

    method Drain()
      requires Valid()
      modifies this
      ensures Valid() && queue == [] && log == old(log) + [Drained] && since == |log|
    {
      while queue != []
        invariant Valid() && log == old(log)
      {
        queue, places := queue[1..], places[1..];
      }
      OneMoreNumbered(log, Drained, start);
      log := log + [Drained];
      since := |log|;
    }

    /** sendto: the attempt is what counts. */
    method Send(write: bool, sequence: u16, datagram: bytes)
      requires Valid() && Proper(device, Sent(write, sequence, datagram))
      requires sequence == SequenceOf(start, Sends(log) + 1)
      modifies this
      ensures Valid() && since == old(since) && queue == old(queue)
      ensures log == old(log) + [Sent(write, sequence, datagram)]
    {
      OneMoreNumbered(log, Sent(write, sequence, datagram), start);
      log := log + [Sent(write, sequence, datagram)];
    }

    /** Wait for one validated reply. */
    method Receive(script: seq<NetEvent>) returns (r: Wait, rest: seq<NetEvent>)
      requires Valid()
      modifies this
      ensures Valid() && since == old(since) && Quiet(old(log), log)
      ensures 2 * |rest| + |queue| <= 2 * |script| + |old(queue)|
      ensures r.Got? ==> 2 * |rest| + |queue| < 2 * |script| + |old(queue)|
      ensures r.Got? ==> log != [] && TakenReply(device, log, since, r.slots)
      ensures Heard(r, queue, rest) == ReceiveRun(device, old(queue), script)
    {
      hide DecodeReply, WriteDatagram, QueryDatagram, Queued;
      rest := script;
      while queue == []
        invariant Valid() && since == old(since) && Quiet(old(log), log)
        invariant ReceiveRun(device, queue, rest) == ReceiveRun(device, old(queue), script)
        invariant 2 * |rest| + |queue| <= 2 * |script| + |old(queue)|
        decreases |rest|, |queue| == 0
      {
        if rest == [] || rest[0].Elapsed? || rest[0].Cancel? {
          r := if rest != [] && rest[0].Cancel? then Cancelled else TimedOut;
          return r, if rest == [] then [] else rest[1..];
        }
        if rest[0].Arrive? {
          DatagramReceived(rest[0].data, rest[0].source);
        }
        rest := rest[1..];
      }
      r := Got(queue[0]);
      OneMore(log, Taken(places[0]));
      OneMoreNumbered(log, Taken(places[0]), start);
      log := log + [Taken(places[0])];
      queue, places := queue[1..], places[1..];
    }

    /** Replies that arrive during the pause. */
    method Sleep(script: seq<NetEvent>) returns (cancelled: bool, rest: seq<NetEvent>)
      requires Valid()
      modifies this
      ensures Valid() && since == old(since) && Quiet(old(log), log)
      ensures (cancelled, rest) == SleepRun(script)
    {
      hide DecodeReply, WriteDatagram, QueryDatagram, Queued;
      rest := script;
      while rest != [] && rest[0].Arrive?
        invariant Valid() && since == old(since) && Quiet(old(log), log)
        invariant SleepRun(rest) == SleepRun(script)
        decreases |rest|
      {
        DatagramReceived(rest[0].data, rest[0].source);
        rest := rest[1..];
      }
      cancelled := rest != [] && rest[0].Cancel?;
      if rest != [] {
        rest := rest[1..];
      }
    }
  }

  /** What is sent is a query, or the write that empties all slots. */
  predicate Proper(device: Device, e: Entry)
  {
    e.Sent? ==>
      e.datagram == if e.write then WriteDatagram(device, e.sequence, EMPTY_SLOTS) else QueryDatagram(device, e.sequence)
  }

  predicate IsArrival(device: Device, e: Entry)
  {
    e.Arrived? && DecodeReply(e.data, e.source, device) == Some(e.slots)
  }

  /** The last entry hands out these slots, of a validated reply that arrived after `since`. */
  predicate TakenReply(device: Device, log: Log, since: nat, slots: Slots)
    requires log != []
  {
    var last := log[|log| - 1];
    last.Taken? && since <= last.at < |log| - 1 && IsArrival(device, log[last.at]) && log[last.at].slots == slots
  }

  // ---------------------------------------------------------------- one query

  const QUERY_ATTEMPTS := 3

  /**
   * Entry `at` is a validated reply with these slots that arrived after entry `query`, a query
   * that was sent after entry `query - 1` had drained the queue and entry `from` had been made.
   */
  predicate ReadOf(device: Device, log: Log, from: nat, query: nat, at: nat, slots: Slots)
  {
    && from < query < at < |log|
    && log[query - 1] == Drained && log[query].Sent? && !log[query].write
    && IsArrival(device, log[at]) && log[at].slots == slots
  }

  /** What a query may add to a log. */
  ghost predicate Queried(before: Log, after: Log, sends: nat)
  {
    before <= after && Sends(after) <= Sends(before) + sends && Writes(after) == Writes(before)
  }

  /** A send of the script: whether it fails, and how. */
  method NextSend(script: seq<NetEvent>) returns (failure: Option<Answer>, rest: seq<NetEvent>)
    ensures if script != [] && script[0].Fail? then failure == Some(SocketError) && rest == script[1..]
            else if script != [] && script[0].Crash? then failure == Some(Crashed) && rest == script[1..]
            else failure == None && rest == script
  {
    if script != [] && script[0].Fail? {
      return Some(SocketError), script[1..];
    }
    if script != [] && script[0].Crash? {
      return Some(Crashed), script[1..];
    }
    return None, script;
  }

  /** The waiting loop of one attempt: replies that are not wanted are passed over. */
  method AwaitReply(receiver: ScheduleReceiver, requireEmpty: bool, script: seq<NetEvent>)
    returns (r: Wait, rest: seq<NetEvent>)
    requires receiver.Valid()
    modifies receiver
    ensures receiver.Valid() && receiver.since == old(receiver.since) && Quiet(old(receiver.log), receiver.log)
    ensures r.Got? ==> receiver.log != [] && TakenReply(receiver.device, receiver.log, receiver.since, r.slots)
                       && (requireEmpty ==> AllEmpty(r.slots))
    ensures Heard(r, receiver.queue, rest) == AwaitRun(receiver.device, old(receiver.queue), requireEmpty, script)
  {
    hide IsArrival, ReceiveRun, AllEmpty;
    rest := script;
    while true
      invariant receiver.Valid() && receiver.since == old(receiver.since) && Quiet(old(receiver.log), receiver.log)
      invariant AwaitRun(receiver.device, receiver.queue, requireEmpty, rest)
             == AwaitRun(receiver.device, old(receiver.queue), requireEmpty, script)
      decreases 2 * |rest| + |receiver.queue|
    {
      if rest != [] && rest[0].Elapsed? {
        return TimedOut, rest[1..];
      }
      r, rest := receiver.Receive(rest);
      if !r.Got? || !requireEmpty || AllEmpty(r.slots) {
        return;
      }
    }
  }

  /** Drain the queue and send one query. */
  method SendQuery(receiver: ScheduleReceiver, sequence: u16, script: seq<NetEvent>)
    returns (failure: Option<Answer>, rest: seq<NetEvent>)
    requires receiver.Valid() && sequence == SequenceOf(receiver.start, Sends(receiver.log) + 1)
    modifies receiver
    ensures receiver.Valid() && receiver.since == |receiver.log| - 1 && receiver.queue == []
    ensures receiver.log == old(receiver.log) + [Drained, Sent(false, sequence, QueryDatagram(receiver.device, sequence))]
    ensures Queried(old(receiver.log), receiver.log, 1) && Sends(receiver.log) == Sends(old(receiver.log)) + 1
    ensures if script != [] && script[0].Fail? then failure == Some(SocketError) && rest == script[1..]
            else if script != [] && script[0].Crash? then failure == Some(Crashed) && rest == script[1..]
            else failure == None && rest == script
  {
    hide DecodeReply, QueryDatagram;
    receiver.Drain();
    var datagram := EncodeScheduleQuery(receiver.device, sequence);
    failure, rest := NextSend(script);
    OneMore(old(receiver.log), Drained);
    OneMore(receiver.log, Sent(false, sequence, datagram));
    receiver.Send(false, sequence, datagram);
  }

  /** _async_query_schedules. */
  method QuerySchedules(receiver: ScheduleReceiver, counter: u16, requireEmpty: bool, script: seq<NetEvent>)
    returns (r: Answer, sequence: u16, rest: seq<NetEvent>, ghost query: nat, ghost at: nat)
    requires receiver.Valid() && counter == SequenceOf(receiver.start, Sends(receiver.log))
    modifies receiver
    ensures receiver.Valid() && Queried(old(receiver.log), receiver.log, 3)
    ensures sequence == SequenceOf(receiver.start, Sends(receiver.log))
    ensures r.Answered? ==> ReadOf(receiver.device, receiver.log, |old(receiver.log)|, query, at, r.slots)
                            && receiver.log[|receiver.log| - 1] == Taken(at) && (requireEmpty ==> AllEmpty(r.slots))
    ensures (r, rest) == QueryRun(receiver.device, requireEmpty, script, QUERY_ATTEMPTS)
    ensures Sends(receiver.log) - Sends(old(receiver.log))
         == QueriesSent(receiver.device, requireEmpty, script, QUERY_ATTEMPTS)
  {
    hide DecodeReply, AllEmpty, QueryDatagram, AwaitRun, SequenceOf, Sends, Writes;
    query, at := 0, 0;
    sequence, rest := counter, script;
    var attempt := 0;
    while attempt < QUERY_ATTEMPTS
      invariant 0 <= attempt <= QUERY_ATTEMPTS
      invariant receiver.Valid() && Queried(old(receiver.log), receiver.log, attempt)
      invariant sequence == SequenceOf(receiver.start, Sends(receiver.log))
      invariant QueryRun(receiver.device, requireEmpty, rest, QUERY_ATTEMPTS - attempt)
             == QueryRun(receiver.device, requireEmpty, script, QUERY_ATTEMPTS)
      invariant QueriesSent(receiver.device, requireEmpty, rest, QUERY_ATTEMPTS - attempt)
              + Sends(receiver.log) - Sends(old(receiver.log))
             == QueriesSent(receiver.device, requireEmpty, script, QUERY_ATTEMPTS)
    {
      NextSequence(receiver.start, Sends(receiver.log));
      sequence := (sequence + 1) % 0x1_0000;
      var failure;
      failure, rest := SendQuery(receiver, sequence, rest);
      query := |receiver.log| - 1;
      if failure.Some? {
        r := failure.value;
        return;
      }
      var wait;
      wait, rest := AwaitReply(receiver, requireEmpty, rest);
      if wait.Cancelled? {
        r := Interrupted;
        return;
      }
      if wait.Got? {
        at := receiver.log[|receiver.log| - 1].at;
        r := Answered(wait.slots);
        return;
      }
      attempt := attempt + 1;
    }
    r := Unanswered;
  }

  // ---------------------------------------------------------------- the cleanup

  datatype CleanupResult = Cleared(removed: nat) | CleanupError | WasCancelled | WasUncaught

  /** The result of a cleanup whose query or send did not succeed. */
  function Failed(a: Answer): CleanupResult
  {
    match a
    case Interrupted => WasCancelled
    case Crashed => WasUncaught
    case _ => CleanupError
  }

  /** A validated reply was taken before entry w was made. */
  ghost predicate ReadBefore(device: Device, log: Log, w: nat)
  {
    exists query: nat, at: nat, slots ::
      at < w && at < |log| && log[at].Arrived? && ReadOf(device, log, 0, query, at, slots)
  }

  /**
   * What stands behind a success: a read before the write, the write, and two reads of four
   * empty slots after it, the second one drained, requested and answered after the first.
   */
  predicate Cleanup(
    device: Device, log: Log, removed: nat, at: nat, w: nat, second: nat, secondAt: nat, third: nat, thirdAt: nat)
  {
    && at < w < second < secondAt < third < thirdAt < |log|
    && IsArrival(device, log[at]) && removed == Configured(log[at].slots)
    && IsWrite(log[w])
    && IsArrival(device, log[secondAt]) && ReadOf(device, log, w + 1, second, secondAt, log[secondAt].slots)
    && AllEmpty(log[secondAt].slots)
    && IsArrival(device, log[thirdAt]) && ReadOf(device, log, secondAt + 1, third, thirdAt, log[thirdAt].slots)
    && AllEmpty(log[thirdAt].slots)
  }

  lemma ReadStays(device: Device, log: Log, more: Log, from: nat, query: nat, at: nat, slots: Slots)
    requires ReadOf(device, log, from, query, at, slots) && log <= more
    ensures ReadOf(device, more, from, query, at, slots)
  {
    hide IsArrival;
  }

  /** The log went on after a read, with the write as its next entry and no other write. */
  predicate OneWrite(device: Device, log: Log, read: Log, query: nat, at: nat, slots: Slots)
  {
    && read <= log && |read| < |log| && Writes(read) == 0 && Writes(log) == 1 && IsWrite(log[|read|])
    && ReadOf(device, read, 0, query, at, slots)
  }

  lemma OnlyWrite(log: Log, read: Log, w: nat)
    requires read <= log && |read| < |log| && Writes(read) == 0 && Writes(log) == 1 && IsWrite(log[|read|])
    requires w < |log| && IsWrite(log[w])
    ensures w == |read|
  {
    var written := log[..|read| + 1];
    assert written == read + [log[|read|]];
    OneMore(read, log[|read|]);
    hide IsWrite;
    if w < |read| {
      NoneAdded([], read, IsWrite, w);
    } else if w > |read| {
      NoneAdded(written, log, IsWrite, w);
    }
  }

  lemma OneWriteAfterRead(device: Device, log: Log, read: Log, query: nat, at: nat, slots: Slots)
    requires OneWrite(device, log, read, query, at, slots)
    ensures forall w :: 0 <= w < |log| && IsWrite(log[w]) ==> ReadBefore(device, log, w)
  {
    ReadStays(device, read, log, 0, query, at, slots);
    assert ReadBefore(device, log, |read|);
    hide ReadBefore, IsWrite, ReadOf;
    forall w | 0 <= w < |log| && IsWrite(log[w]) ensures ReadBefore(device, log, w) {
      OnlyWrite(log, read, w);
    }
  }

  /** The two reads after the write. */
  method ConfirmEmpty(receiver: ScheduleReceiver, counter: u16, script: seq<NetEvent>)
    returns (r: Option<CleanupResult>, rest: seq<NetEvent>, ghost q: nat, ghost at: nat, ghost q2: nat, ghost at2: nat)
    requires receiver.Valid() && counter == SequenceOf(receiver.start, Sends(receiver.log))
    modifies receiver
    ensures receiver.Valid() && Queried(old(receiver.log), receiver.log, 6) && (r.Some? ==> !r.value.Cleared?)
    ensures (r, rest) == ConfirmRun(receiver.device, script)
    ensures r.None? ==> at < q2 && EmptyRead(receiver.device, receiver.log, |old(receiver.log)|, q, at)
                        && EmptyRead(receiver.device, receiver.log, at + 1, q2, at2)
  {
    hide ReadOf, AllEmpty, IsArrival, SequenceOf, Sends, Writes, QueryRun, Numbered, DecodeReply, Proper;
    q2, at2 := 0, 0;
    var answer, sequence;
    answer, sequence, rest, q, at := QuerySchedules(receiver, counter, true, script);
    if !answer.Answered? {
      return Some(Failed(answer)), rest, q, at, q2, at2;
    }
    ghost var log1 := receiver.log;
    ReadIsEmpty(receiver.device, log1, |old(receiver.log)|, q, at, answer.slots);
    var again;
    again, sequence, rest, q2, at2 := QuerySchedules(receiver, sequence, true, rest);
    if !again.Answered? {
      return Some(Failed(again)), rest, q, at, q2, at2;
    }
    ReadIsEmpty(receiver.device, receiver.log, |log1|, q2, at2, again.slots);
    EmptyReadStays(receiver.device, log1, receiver.log, |old(receiver.log)|, q, at);
    EmptyReadLater(receiver.device, receiver.log, |log1|, at + 1, q2, at2);
    r := None;
  }

  predicate EmptyRead(device: Device, log: Log, from: nat, query: nat, at: nat)
  {
    at < |log| && IsArrival(device, log[at]) && ReadOf(device, log, from, query, at, log[at].slots)
    && AllEmpty(log[at].slots)
  }

  lemma ReadIsEmpty(device: Device, log: Log, from: nat, query: nat, at: nat, slots: Slots)
    requires ReadOf(device, log, from, query, at, slots) && AllEmpty(slots)
    ensures EmptyRead(device, log, from, query, at)
  {
    hide IsArrival, AllEmpty;
  }

  lemma EmptyReadStays(device: Device, log: Log, more: Log, from: nat, query: nat, at: nat)
    requires EmptyRead(device, log, from, query, at) && log <= more
    ensures EmptyRead(device, more, from, query, at)
  {
    hide IsArrival, AllEmpty;
  }

  lemma EmptyReadLater(device: Device, log: Log, from: nat, earlier: nat, query: nat, at: nat)
    requires EmptyRead(device, log, from, query, at) && earlier <= from
    ensures EmptyRead(device, log, earlier, query, at) && earlier < query
  {
    hide IsArrival, AllEmpty;
  }

  /** The read, the write, and the time that the device is given for it. */
  method ReadAndWrite(receiver: ScheduleReceiver, clock: u16, script: seq<NetEvent>)
    returns (r: Option<CleanupResult>, previous: Slots, sequence: u16, rest: seq<NetEvent>,
             ghost read: Log, ghost q: nat, ghost at: nat)
    requires receiver.Valid() && receiver.log == [] && receiver.start == clock
    modifies receiver
    ensures receiver.Valid() && Sends(receiver.log) <= 4
    ensures sequence == SequenceOf(clock, Sends(receiver.log))
    ensures (r, previous, rest) == ReadAndWriteRun(receiver.device, script)
    ensures r.Some? ==> !r.value.Cleared?
    ensures (r.Some? && Writes(receiver.log) == 0) || OneWrite(receiver.device, receiver.log, read, q, at, previous)
  {
    hide ReadOf, AllEmpty, DecodeReply, WriteDatagram, QueryDatagram, IsArrival;
    hide SequenceOf, Sends, Writes, QueryRun, SleepRun, Numbered;
    previous := EMPTY_SLOTS;
    FirstSequence(clock);
    var answer;
    answer, sequence, rest, q, at := QuerySchedules(receiver, clock, false, script);
    read := receiver.log;
    if !answer.Answered? {
      r := Some(Failed(answer));
      return;
    }
    previous := answer.slots;
    NextSequence(clock, Sends(read));
    sequence := (sequence + 1) % 0x1_0000;
    var datagram := EncodeScheduleWrite(receiver.device, sequence, EMPTY_SLOTS);
    OneMore(read, Sent(true, sequence, datagram));
    receiver.Send(true, sequence, datagram);
    var failure;
    failure, rest := NextSend(rest);
    if failure.Some? {
      r := Some(Failed(failure.value));
      return;
    }
    var cancelled;
    cancelled, rest := receiver.Sleep(rest);
    r := if cancelled then Some(WasCancelled) else None;
  }

  /** Everything between the acquisition of the endpoint and its release. */
  method Transaction(receiver: ScheduleReceiver, clock: u16, script: seq<NetEvent>)
    returns (r: CleanupResult, rest: seq<NetEvent>)
    requires receiver.Valid() && receiver.log == [] && receiver.start == clock
    modifies receiver
    ensures receiver.Valid() && Sends(receiver.log) <= 10 && Writes(receiver.log) <= 1
    ensures (r, rest) == TransactionRun(receiver.device, script)
    ensures forall w :: 0 <= w < |receiver.log| && IsWrite(receiver.log[w]) ==>
      ReadBefore(receiver.device, receiver.log, w)
    ensures r.Cleared? ==> exists at: nat, w: nat, second: nat, secondAt: nat, third: nat, thirdAt: nat ::
      Cleanup(receiver.device, receiver.log, r.removed, at, w, second, secondAt, third, thirdAt)
  {
    hide ReadOf, EmptyRead, ReadBefore, IsWrite, Cleanup;
    hide SequenceOf, Sends, Writes, ReadAndWriteRun, ConfirmRun, Configured, Numbered;
    var failed, previous, sequence;
    ghost var read, q, at, q2, at2, q3, at3;
    failed, previous, sequence, rest, read, q, at := ReadAndWrite(receiver, clock, script);
    ghost var settled := receiver.log;
    if failed.Some? {
      if Writes(settled) == 0 {
        NoWrites(receiver.device, settled);
      } else {
        OneWriteAfterRead(receiver.device, settled, read, q, at, previous);
      }
      return failed.value, rest;
    }
    failed, rest, q2, at2, q3, at3 := ConfirmEmpty(receiver, sequence, rest);
    OneWriteAfterRead(receiver.device, receiver.log, read, q, at, previous);
    if failed.Some? {
      return failed.value, rest;
    }
    CleanupDone(receiver.device, receiver.log, read, |settled|, q, at, previous, q2, at2, q3, at3);
    r := Cleared(Configured(previous));
  }

  lemma NoWrites(device: Device, log: Log)
    requires Writes(log) == 0
    ensures forall w :: 0 <= w < |log| ==> !IsWrite(log[w])
  {
    hide IsWrite;
    forall w | 0 <= w < |log| ensures !IsWrite(log[w]) {
      NoneAdded([], log, IsWrite, w);
    }
  }

  lemma CleanupDone(
    device: Device, log: Log, read: Log, settled: nat, q: nat, at: nat, slots: Slots, q2: nat, at2: nat, q3: nat, at3: nat)
    requires read <= log && |read| < settled && |read| < |log| && IsWrite(log[|read|])
    requires ReadOf(device, read, 0, q, at, slots)
    requires EmptyRead(device, log, settled, q2, at2) && at2 < q3 && EmptyRead(device, log, at2 + 1, q3, at3)
    ensures Cleanup(device, log, Configured(slots), at, |read|, q2, at2, q3, at3)
  {
    hide DecodeReply, AllEmpty, Configured;
    ReadStays(device, read, log, 0, q, at, slots);
  }

  /**
   * async_clear_local_schedules, on any script: at most ten datagrams and one write of them,
   * the write only after a validated reply; success only with two later validated reads of four
   * empty slots, each with its own drain and query, and the count that of the read before.
   */
  method ClearLocalSchedules(device: Device, clock: u16, opening: Opening, script: seq<NetEvent>)
    returns (r: CleanupResult, log: Log)
    ensures Sends(log) <= 10 && Writes(log) <= 1 && Numbered(log, clock)
    ensures r == ClearRun(device, opening, script) && (log != [] ==> opening.Opened? && Supported(device))
    ensures forall i :: 0 <= i < |log| ==> Proper(device, log[i])
    ensures forall w :: 0 <= w < |log| && IsWrite(log[w]) ==> ReadBefore(device, log, w)
    ensures r.Cleared? ==> exists at: nat, w: nat, second: nat, secondAt: nat, third: nat, thirdAt: nat ::
      Cleanup(device, log, r.removed, at, w, second, secondAt, third, thirdAt)
  {
    log := [];
    if !Supported(device) {
      return CleanupError, log;
    }
    if !opening.Opened? {
      return if opening.OpenFailed? then CleanupError else if opening.OpenCancelled? then WasCancelled else WasUncaught, log;
    }
    var receiver := new ScheduleReceiver(device, clock);
    var rest;
    r, rest := Transaction(receiver, clock, script);
    log := receiver.log;
    if rest != [] && rest[0].Cancel? {
      r := WasCancelled;
    }
  }
}
