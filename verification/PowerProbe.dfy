/**
 * The power round trip of the local probe (tools/352_local_probe.py): read, toggle, restore,
 * against a network that may lose, delay, duplicate or forge datagrams, and with any call into
 * the operating system failing or interrupted.
 */
module PowerProbe {
  import opened Bytes
  import opened Models
  import opened Framing
  import A5A0
  import opened Logs

  const LEGACY_PORT: u16 := 11530
  const QUERY: bytes := [0x01, 0xA5, 0xA0, 0x11, 0x11, 0x00, 0x00]

  /** The device under test, as the probe has learned it: its identity has wire type 2. */
  datatype Device = Device(target: string, identity: Identity)

  // ---------------------------------------------------------------- frames

  function LegacyFrame(identity: Identity, payload: bytes, sequence: u16): bytes
    requires |payload| <= 248
  {
    [0xA1, 0x04] + identity.mac + [|payload| + 7, 0] + ToBytes2(sequence) + [identity.company, 2]
    + ToBytes2(identity.auth) + payload
  }

  function SumOf(data: bytes): nat
  {
    if data == [] then 0 else SumOf(data[..|data| - 1]) + data[|data| - 1]
  }

  function PowerPayload(desired: bool): bytes
  {
    var inner := [0xA5, 0xA0, 0x5E, if desired then 0x35 else 0x11, 0];
    [0x01] + inner + [SumOf(inner) % 256]
  }

  function WriteDatagram(identity: Identity, desired: bool, sequence: u16): bytes
  {
    LegacyFrame(identity, PowerPayload(desired), sequence)
  }

  /** The probe's frames are those of the client: the same envelope, the same query, the same command. */
  lemma SameFramesAsTheClient(identity: Identity, desired: bool, sequence: u16, inner: u16, model: Option<DeviceModel>)
    requires identity.wireType == 2
    ensures var context := Context(identity, sequence, inner, model, 0x04);
      && A5A0.EncodeQuery(context) == Result.Ok(LegacyFrame(identity, QUERY, sequence))
      && A5A0.EncodeCommand(context, Command(Power, if desired then 0x35 else 0x11))
         == Result.Ok(WriteDatagram(identity, desired, sequence))
  {
    var value: byte := if desired then 0x35 else 0x11;
    SumOfFive(0xA5, 0xA0, 0x5E, value, 0);
    hide SumOf;
    assert PowerPayload(desired) == A5A0.ControlPayload(0x5E, value);
    SameEnvelope(identity, QUERY, sequence);
    SameEnvelope(identity, PowerPayload(desired), sequence);
  }

  lemma SameEnvelope(identity: Identity, payload: bytes, sequence: u16)
    requires identity.wireType == 2 && |payload| <= 248
    ensures BuildOuterFrame(identity, 0x04, sequence, payload) == Result.Ok(LegacyFrame(identity, payload, sequence))
  {}

  lemma SumOfFive(a: byte, b: byte, c: byte, d: byte, e: byte)
    ensures SumOf([a, b, c, d, e]) == a as int + b as int + c as int + d as int + e as int
  {
    var s: bytes := [a, b, c, d, e];
    assert s[..4][..3] == s[..3] && s[..3][..2] == s[..2] && s[..2][..1] == s[..1] && s[..1][..0] == [];
    assert SumOf(s[..1]) == a as int;
    assert SumOf(s[..2]) == a as int + b as int;
    assert SumOf(s[..3]) == a as int + b as int + c as int;
    assert SumOf(s[..4]) == a as int + b as int + c as int + d as int;
  }

  /** power_state. */
  function PowerState(data: bytes, peer: Endpoint, device: Device, sequences: set<u16>): Option<bool>
  {
    if peer != Endpoint(device.target, LEGACY_PORT) || |data| !in {49, 81} || data[0] != 0xA1
       || data[1] !in {4, 6} || data[2..8] != device.identity.mac || data[8] as int + 9 != |data| || data[9] != 0
       || FromBytes(data[10..12]) !in sequences
       || data[12..16] != [device.identity.company, 2] + ToBytes2(device.identity.auth)
       || data[16..19] != [0x02, 0x5A, 0xA1]
    then None
    else
      var payload := data[16..];
      if |payload| == 65 && payload[33..35] != [0x5A, 0xA1] then None
      else
        var record := if |payload| == 65 then payload[..1] + payload[33..] else payload;
        if record[9] == 0 then Some(true) else if record[9] == 0x11 then Some(false) else None
  }

  /**
   * The probe reads a power state from a datagram exactly when the client's codec decodes it to
   * a state of that power, of this device, under one of the given sequences.
   */
  lemma PowerStateAgrees(data: bytes, peer: Endpoint, device: Device, sequences: set<u16>, v: bool)
    requires device.identity.wireType == 2
    ensures PowerState(data, peer, device, sequences) == Some(v)
       <==> var p := A5A0.Decode(data, peer);
            && peer == Endpoint(device.target, 11530)
            && p.Some? && p.value.identity == device.identity && p.value.sequence in sequences
            && p.value.outerOperation in {4, 6} && p.value.state.Some?
            && p.value.state.value.power == Some(if v then On else Off)
  {
    hide FromBytes;
    if |data| in {49, 81} {
      HeaderMatches(data, device.identity);
      assert data[16..][..3] == data[16..19];
      assert A5A0.STATE_PREFIX <= data[16..] <==> data[16..19] == [0x02, 0x5A, 0xA1];
      assert A5A0.RECORD_PREFIX == [0x5A, 0xA1];
    }
    hide ToBytes2, A5A0.SafeVolume;
  }

  lemma HeaderMatches(data: bytes, identity: Identity)
    requires |data| >= 16 && identity.wireType == 2
    ensures data[12..16] == [identity.company, 2] + ToBytes2(identity.auth)
       <==> data[12] == identity.company && data[13] == 2 && FromBytes(data[14..16]) == identity.auth
  {
    FromBytes2RoundTrip(data[14..16]);
    ToBytes2RoundTrip(identity.auth);
    assert data[12..16] == [data[12], data[13]] + data[14..16];
    var expected := [identity.company, 2] + ToBytes2(identity.auth);
    assert expected[2..] == ToBytes2(identity.auth) && data[12..16][2..] == data[14..16];
    assert expected[0] == identity.company && expected[1] == 2;
    assert data[12..16][0] == data[12] && data[12..16][1] == data[13];
  }

  // ---------------------------------------------------------------- fresh sequences

  /** Random draws; every value is drawn again and again. */
  type Draws = nat -> u16

  ghost predicate Fair(random: Draws)
  {
    forall v: u16, n: nat :: DrawnAfter(random, v, n)
  }

  ghost predicate DrawnAfter(random: Draws, v: u16, n: nat)
  {
    exists k: nat :: n <= k && random(k) == v
  }

  lemma {:induction false} FewerThanAll(used: set<u16>, n: nat)
    requires n <= 0x1_0000 && forall v: u16 :: v < n ==> v in used
    ensures |used| >= n
  {
    if n > 0 {
      var last: u16 := n - 1;
      FewerThanAll(used - {last}, n - 1);
    }
  }

  lemma SomeIsUnused(used: set<u16>) returns (v: u16)
    requires |used| < 0x1_0000
    ensures v !in used
  {
    if forall v: u16 :: v in used {
      FewerThanAll(used, 0x1_0000);
    }
    v :| v !in used;
  }

  /** A draw from the n-th on is unused: the loop below goes on forever when none is. */
  ghost predicate SomeDrawIsFree(used: set<u16>, random: Draws, n: nat)
  {
    exists k: nat :: n <= k && random(k) !in used
  }

  /** Fair draws meet an unused number as long as there is one. */
  lemma FairDrawsFindFree(used: set<u16>, random: Draws, n: nat)
    requires Fair(random) && |used| < 0x1_0000
    ensures SomeDrawIsFree(used, random, n)
  {
    var free := SomeIsUnused(used);
    assert DrawnAfter(random, free, n);
  }

  /** next_sequence: draw until the number is unused, which takes the first unused draw. */
  method NextSequence(used: set<u16>, random: Draws, n: nat) returns (sequence: u16, used': set<u16>, n': nat)
    requires SomeDrawIsFree(used, random, n)
    ensures n < n' && sequence == random(n' - 1) && forall k :: n <= k < n' - 1 ==> random(k) in used
    ensures sequence !in used && used' == used + {sequence} && |used'| == |used| + 1
  {
    ghost var free: nat :| n <= free && random(free) !in used;
    n' := n;
    while random(n') in used
      invariant n <= n' <= free && forall k :: n <= k < n' ==> random(k) in used
      decreases free - n'
    {
      n' := n' + 1;
    }
    sequence := random(n');
    used' := used + {sequence};
    n' := n' + 1;
  }

  // ---------------------------------------------------------------- what a run meets and leaves

  /** A call into the operating system returns, raises OSError, or is interrupted from the keyboard. */
  datatype Call = Fine | OsError | Interrupt

  /** One pass of the reading loop: what the clock and the socket do in it. */
  datatype Round = Round(
    expired: bool, due: bool, sending: Call, waiting: Call, ready: bool, receiving: Call, data: bytes, peer: Endpoint)

  /** One write with its reading loop. */
  datatype WriteScript = WriteScript(sending: Call, rounds: seq<Round>)

  /** Send attempts with their sequences, and states that answered one of them. */
  datatype Entry =
    | Query(sequence: u16, datagram: bytes)
    | Write(desired: bool, sequence: u16, datagram: bytes)
    | Reading(value: bool, sequence: u16, data: bytes, peer: Endpoint)

  type Log = seq<Entry>

  predicate IsRequest(e: Entry)
  {
    e.Query? || e.Write?
  }

  /** Every request has a sequence that was not used before and that no other request has. */
  ghost predicate FreshRequests(used: set<u16>, log: Log, used': set<u16>)
  {
    && used <= used'
    && (forall i :: 0 <= i < |log| && IsRequest(log[i]) ==> log[i].sequence !in used && log[i].sequence in used')
    && (forall i, j :: 0 <= i < j < |log| && IsRequest(log[i]) && IsRequest(log[j]) ==>
          log[i].sequence != log[j].sequence)
  }

  /** Entry i is a state of the device with this power, in answer to the request at q. */
  predicate Answered(device: Device, log: Log, i: nat, q: nat)
  {
    && q < i < |log| && log[i].Reading? && IsRequest(log[q]) && log[q].sequence == log[i].sequence
    && PowerState(log[i].data, log[i].peer, device, {log[q].sequence}) == Some(log[i].value)
  }

  ghost predicate Answers(device: Device, log: Log, i: nat)
  {
    exists q: nat :: Answered(device, log, i, q)
  }

  lemma ReadingsStay(device: Device, a: Log, b: Log, i: nat)
    requires i < |a| && Answers(device, a, i)
    ensures Answers(device, a + b, i)
  {
    hide PowerState;
    var q: nat :| Answered(device, a, i, q);
    assert Answered(device, a + b, i, q);
  }

  lemma FreshConcat(used: set<u16>, a: Log, used1: set<u16>, b: Log, used2: set<u16>)
    requires FreshRequests(used, a, used1) && FreshRequests(used1, b, used2)
    ensures FreshRequests(used, a + b, used2)
  {
    var log := a + b;
    forall i, j | 0 <= i < j < |log| && IsRequest(log[i]) && IsRequest(log[j])
      ensures log[i].sequence != log[j].sequence
    {
      if i < |a| <= j {
        assert a[i].sequence in used1;
      }
    }
  }

  datatype Failure = OsFailure | Interrupted

  datatype Res<+T> = Ok(value: T) | Raised(failure: Failure)

  function FailureOf(call: Call): Failure
    requires !call.Fine?
  {
    if call.OsError? then OsFailure else Interrupted
  }

  // ---------------------------------------------------------------- reading

  /** What a reading loop leaves: its queries, and readings that answer them or the command. */
  ghost predicate ReadingLog(device: Device, before: Log, log: Log)
  {
    && (forall i :: 0 <= i < |log| ==> !log[i].Write?)
    && (forall i :: 0 <= i < |log| && log[i].Query? ==> IsQueryOf(device, log[i]))
    && (forall i :: 0 <= i < |log| && log[i].Reading? ==> Answers(device, before + log, |before| + i))
  }

  function QueryOf(device: Device, sequence: u16): Entry
  {
    Query(sequence, LegacyFrame(device.identity, QUERY, sequence))
  }

  predicate IsQueryOf(device: Device, e: Entry)
  {
    e.Query? && e.datagram == LegacyFrame(device.identity, QUERY, e.sequence)
  }

  ghost predicate RequestedIn(log: Log, sequence: u16)
  {
    exists q: nat :: q < |log| && IsRequest(log[q]) && log[q].sequence == sequence
  }

  ghost predicate AllRequested(log: Log, sequences: set<u16>)
  {
    forall s :: s in sequences ==> RequestedIn(log, s)
  }

  /** The state in a datagram answers exactly the request whose sequence it repeats. */
  lemma StateAnswersItsSequence(data: bytes, peer: Endpoint, device: Device, accepted: set<u16>)
    requires PowerState(data, peer, device, accepted).Some?
    ensures |data| >= 49 && FromBytes(data[10..12]) in accepted
    ensures PowerState(data, peer, device, {FromBytes(data[10..12])}) == PowerState(data, peer, device, accepted)
  {
    hide FromBytes;
  }

  lemma NothingYet(device: Device, used: set<u16>, before: Log)
    ensures FreshRequests(used, [], used) && ReadingLog(device, before, [])
  {}

  lemma AddQuery(device: Device, before: Log, log: Log, accepted: set<u16>, used: set<u16>, used1: set<u16>, s: u16)
    requires ReadingLog(device, before, log) && AllRequested(before + log, accepted)
    requires FreshRequests(used, log, used1) && s !in used1
    ensures var more := log + [QueryOf(device, s)];
      ReadingLog(device, before, more) && AllRequested(before + more, accepted + {s}) && FreshRequests(used, more, used1 + {s})
  {
    hide LegacyFrame;
    var query := QueryOf(device, s);
    var more := log + [query];
    assert before + more == (before + log) + [query];
    forall i | 0 <= i < |more| && more[i].Reading? ensures Answers(device, before + more, |before| + i) {
      ReadingsStay(device, before + log, [query], |before| + i);
    }
    forall t | t in accepted + {s} ensures RequestedIn(before + more, t) {
      if t in accepted {
        assert RequestedIn(before + log, t);
        var q: nat :| q < |before + log| && IsRequest((before + log)[q]) && (before + log)[q].sequence == t;
        assert (before + more)[q] == (before + log)[q];
      } else {
        assert (before + more)[|before + log|] == query;
      }
    }
  }

  lemma AddReading(
    device: Device, before: Log, log: Log, accepted: set<u16>, used: set<u16>, used1: set<u16>,
    v: bool, data: bytes, peer: Endpoint)
    requires ReadingLog(device, before, log) && AllRequested(before + log, accepted) && FreshRequests(used, log, used1)
    requires PowerState(data, peer, device, accepted) == Some(v)
    ensures |data| >= 49 && FromBytes(data[10..12]) in accepted
    ensures var more := log + [Reading(v, FromBytes(data[10..12]), data, peer)];
      ReadingLog(device, before, more) && AllRequested(before + more, accepted) && FreshRequests(used, more, used1)
  {
    StateAnswersItsSequence(data, peer, device, accepted);
    hide PowerState;
    var s := FromBytes(data[10..12]);
    var more, e := log + [Reading(v, s, data, peer)], Reading(v, s, data, peer);
    assert before + more == (before + log) + [e];
    assert RequestedIn(before + log, s);
    var q: nat :| q < |before + log| && IsRequest((before + log)[q]) && (before + log)[q].sequence == s;
    assert Answered(device, before + more, |before| + |log|, q);
    forall i | 0 <= i < |more| && more[i].Reading? ensures Answers(device, before + more, |before| + i) {
      if i < |log| {
        ReadingsStay(device, before + log, [e], |before| + i);
      }
    }
    forall t | t in accepted ensures RequestedIn(before + more, t) {
      assert RequestedIn(before + log, t);
      var p: nat :| p < |before + log| && IsRequest((before + log)[p]) && (before + log)[p].sequence == t;
      assert (before + more)[p] == (before + log)[p];
    }
  }

  // ---------------------------------------------------------------- how a reading loop ends

  predicate IsDue(round: Round)
  {
    round.due
  }

  /** The queries that the first k rounds send. */
  function Dues(rounds: seq<Round>, k: nat): nat
    requires k <= |rounds|
  {
    if k == 0 then 0
    else
      var before := Dues(rounds, k - 1);
      if before < 3 && rounds[k - 1].due then before + 1 else before
  }

  /** A query is sent whenever one is due, three at most. */
  lemma {:induction false} ThreeQueriesAtMost(rounds: seq<Round>, k: nat)
    requires k <= |rounds|
    ensures Dues(rounds, k) == if Count(rounds[..k], IsDue) < 3 then Count(rounds[..k], IsDue) else 3
  {
    if k > 0 {
      ThreeQueriesAtMost(rounds, k - 1);
      CountOneMore(rounds[..k - 1], rounds[k - 1], IsDue);
      assert rounds[..k] == rounds[..k - 1] + [rounds[k - 1]];
    }
  }

  predicate FailsAs(call: Call, failure: Failure)
  {
    match failure case OsFailure => call == OsError case Interrupted => call == Interrupt
  }

  /** The calls that a round makes up to the wait and, when a datagram is there, the reception. */
  predicate Asks(rounds: seq<Round>, k: nat)
    requires k < |rounds|
  {
    rounds[k].due && Dues(rounds, k) < 3
  }

  /** The round takes place and none of its calls fails. */
  predicate Goes(rounds: seq<Round>, k: nat)
    requires k < |rounds|
  {
    var round := rounds[k];
    && !round.expired && (Asks(rounds, k) ==> round.sending.Fine?) && round.waiting.Fine?
    && (round.ready ==> round.receiving.Fine?)
  }

  /** The round takes place and its first call that fails does so in this way. */
  predicate Breaks(rounds: seq<Round>, k: nat, failure: Failure)
    requires k < |rounds|
  {
    var round := rounds[k];
    && !round.expired
    && if Asks(rounds, k) && !round.sending.Fine? then FailsAs(round.sending, failure)
       else if !round.waiting.Fine? then FailsAs(round.waiting, failure)
       else round.ready && FailsAs(round.receiving, failure)
  }

  /** The sequences of a log's requests, in the order in which they were sent. */
  function Sequences(log: Log): seq<u16>
  {
    if log == [] then []
    else Sequences(log[..|log| - 1]) + if IsRequest(log[|log| - 1]) then [log[|log| - 1].sequence] else []
  }

  /** Round k receives a state of the device with this power, under a sequence sent by then. */
  ghost predicate Shows(
    device: Device, rounds: seq<Round>, sequences: seq<u16>, commands: nat, k: nat, j: nat, v: bool)
    requires k < |rounds|
  {
    && Goes(rounds, k) && rounds[k].ready && j < |sequences| && j < commands + Dues(rounds, k + 1)
    && PowerState(rounds[k].data, rounds[k].peer, device, {sequences[j]}) == Some(v)
  }

  /** ... and it is a power that ends the loop. */
  ghost predicate Ends(
    device: Device, rounds: seq<Round>, sequences: seq<u16>, commands: nat, expected: Option<bool>, k: nat, v: bool)
    requires k < |rounds|
  {
    (expected == None || expected == Some(v)) && exists j: nat :: Shows(device, rounds, sequences, commands, k, j, v)
  }

  /** The first k rounds neither fail nor end the loop. */
  ghost predicate Reaches(
    device: Device, rounds: seq<Round>, sequences: seq<u16>, commands: nat, expected: Option<bool>, k: nat)
  {
    && k <= |rounds|
    && (forall i :: 0 <= i < k ==> Goes(rounds, i))
    && (forall i, v :: 0 <= i < k ==> !Ends(device, rounds, sequences, commands, expected, i, v))
  }

  /** The loop ends with this power. */
  ghost predicate Read(
    device: Device, rounds: seq<Round>, sequences: seq<u16>, commands: nat, expected: Option<bool>, v: bool)
  {
    exists k: nat :: k < |rounds| && Reaches(device, rounds, sequences, commands, expected, k)
                     && Ends(device, rounds, sequences, commands, expected, k, v)
  }

  /** The loop fails in this way. */
  ghost predicate Broken(
    device: Device, rounds: seq<Round>, sequences: seq<u16>, commands: nat, expected: Option<bool>, failure: Failure)
  {
    exists k: nat :: k < |rounds| && Reaches(device, rounds, sequences, commands, expected, k) && Breaks(rounds, k, failure)
  }

  /** The result of a reading loop is what its script says, both ways. */
  ghost predicate ReadResult(
    device: Device, rounds: seq<Round>, sequences: seq<u16>, commands: nat, expected: Option<bool>, r: Res<Option<bool>>)
  {
    && (forall f :: r == Raised(f) <==> Broken(device, rounds, sequences, commands, expected, f))
    && (forall v :: (r == Res.Ok(Some(v)) && (expected == None || expected == Some(v)))
               <==> Read(device, rounds, sequences, commands, expected, v))
  }

  lemma MoreSequences(log: Log, e: Entry)
    ensures Sequences(log + [e]) == Sequences(log) + if IsRequest(e) then [e.sequence] else []
  {
    assert (log + [e])[..|log|] == log;
  }

  /** Sequences that are sent later change nothing for the rounds before. */
  lemma ReachesStays(
    device: Device, rounds: seq<Round>, a: seq<u16>, b: seq<u16>, commands: nat, expected: Option<bool>, k: nat)
    requires Reaches(device, rounds, a, commands, expected, k)
    requires a <= b && |a| == commands + Dues(rounds, k)
    ensures Reaches(device, rounds, b, commands, expected, k)
  {
    hide PowerState, Goes;
    forall i, v | 0 <= i < k ensures !Ends(device, rounds, b, commands, expected, i, v) {
      DuesGrow(rounds, i + 1, k);
      if Ends(device, rounds, b, commands, expected, i, v) {
        EndsBefore(device, rounds, a, b, commands, expected, i, v);
      }
    }
  }

  lemma EndsBefore(
    device: Device, rounds: seq<Round>, a: seq<u16>, b: seq<u16>, commands: nat, expected: Option<bool>, i: nat, v: bool)
    requires i < |rounds| && a <= b && |a| >= commands + Dues(rounds, i + 1)
    requires Ends(device, rounds, b, commands, expected, i, v)
    ensures Ends(device, rounds, a, commands, expected, i, v)
  {
    hide PowerState, Goes;
    var j: nat :| Shows(device, rounds, b, commands, i, j, v);
    assert Shows(device, rounds, a, commands, i, j, v);
  }

  lemma {:induction false} DuesGrow(rounds: seq<Round>, i: nat, k: nat)
    requires i <= k <= |rounds|
    ensures Dues(rounds, i) <= Dues(rounds, k)
  {
    if i < k {
      DuesGrow(rounds, i, k - 1);
    }
  }

  /** A round that goes on, and whose datagram shows no power that ends the loop. */
  lemma ReachesNext(
    device: Device, rounds: seq<Round>, sequences: seq<u16>, commands: nat, expected: Option<bool>, k: nat,
    accepted: set<u16>)
    requires k < |rounds| && Reaches(device, rounds, sequences, commands, expected, k) && Goes(rounds, k)
    requires forall j :: 0 <= j < |sequences| ==> sequences[j] in accepted
    requires rounds[k].ready ==>
      var value := PowerState(rounds[k].data, rounds[k].peer, device, accepted);
      value.Some? ==> expected.Some? && value != expected
    ensures Reaches(device, rounds, sequences, commands, expected, k + 1)
  {
    forall v ensures !Ends(device, rounds, sequences, commands, expected, k, v) {
      if Ends(device, rounds, sequences, commands, expected, k, v) {
        var j: nat :| Shows(device, rounds, sequences, commands, k, j, v);
        AlsoAccepted(rounds[k].data, rounds[k].peer, device, sequences[j], accepted);
      }
    }
    hide PowerState, Goes, Ends;
  }

  lemma AlsoAccepted(data: bytes, peer: Endpoint, device: Device, s: u16, accepted: set<u16>)
    requires s in accepted && PowerState(data, peer, device, {s}).Some?
    ensures PowerState(data, peer, device, accepted) == PowerState(data, peer, device, {s})
  {
    hide FromBytes;
  }

  /** A power that ends the loop, received under the sequences sent so far. */
  lemma EndsHere(
    device: Device, rounds: seq<Round>, sequences: seq<u16>, commands: nat, expected: Option<bool>, k: nat,
    accepted: set<u16>, v: bool)
    requires k < |rounds| && Goes(rounds, k) && rounds[k].ready
    requires |sequences| <= commands + Dues(rounds, k + 1) && forall s :: s in accepted ==> s in sequences
    requires PowerState(rounds[k].data, rounds[k].peer, device, accepted) == Some(v)
    requires expected == None || expected == Some(v)
    ensures Ends(device, rounds, sequences, commands, expected, k, v)
  {
    var data := rounds[k].data;
    StateAnswersItsSequence(data, rounds[k].peer, device, accepted);
    hide PowerState, Goes;
    var j: nat :| j < |sequences| && sequences[j] == FromBytes(data[10..12]);
    assert Shows(device, rounds, sequences, commands, k, j, v);
  }

  /** In one round only one power can be shown. */
  lemma OnePower(
    device: Device, rounds: seq<Round>, sequences: seq<u16>, commands: nat, expected: Option<bool>, k: nat, v: bool, u: bool)
    requires k < |rounds|
    requires Ends(device, rounds, sequences, commands, expected, k, v)
    requires Ends(device, rounds, sequences, commands, expected, k, u)
    ensures u == v
  {
    var i: nat :| Shows(device, rounds, sequences, commands, k, i, v);
    var j: nat :| Shows(device, rounds, sequences, commands, k, j, u);
    var data, peer := rounds[k].data, rounds[k].peer;
    AlsoAccepted(data, peer, device, sequences[i], {sequences[i], sequences[j]});
    AlsoAccepted(data, peer, device, sequences[j], {sequences[i], sequences[j]});
  }

  /** What the script says about the round in which the loop stops is the only thing that it says. */
  lemma StopsOnce(
    device: Device, rounds: seq<Round>, sequences: seq<u16>, commands: nat, expected: Option<bool>, k: nat,
    r: Res<Option<bool>>)
    requires Reaches(device, rounds, sequences, commands, expected, k)
    requires match r
      case Raised(f) => k < |rounds| && Breaks(rounds, k, f)
      case Ok(v) =>
        if v.Some? && (expected == None || expected == v) then
          k < |rounds| && Ends(device, rounds, sequences, commands, expected, k, v.value)
        else k == |rounds| || rounds[k].expired
    ensures ReadResult(device, rounds, sequences, commands, expected, r)
  {
    hide Reaches, Ends, Asks;
    forall f ensures r == Raised(f) <==> Broken(device, rounds, sequences, commands, expected, f) {
      if Broken(device, rounds, sequences, commands, expected, f) {
        var i: nat :| i < |rounds| && Reaches(device, rounds, sequences, commands, expected, i) && Breaks(rounds, i, f);
        SameRound(device, rounds, sequences, commands, expected, k, i);
        if i == k {
          EndsGoes(device, rounds, sequences, commands, expected, k);
        }
      }
    }
    forall v ensures (r == Res.Ok(Some(v)) && (expected == None || expected == Some(v)))
      <==> Read(device, rounds, sequences, commands, expected, v)
    {
      if Read(device, rounds, sequences, commands, expected, v) {
        var i: nat :| i < |rounds| && Reaches(device, rounds, sequences, commands, expected, i)
          && Ends(device, rounds, sequences, commands, expected, i, v);
        SameRound(device, rounds, sequences, commands, expected, k, i);
        EndsGoes(device, rounds, sequences, commands, expected, i);
        if i == k && r.Ok? && r.value.Some? && (expected == None || expected == r.value) {
          OnePower(device, rounds, sequences, commands, expected, k, v, r.value.value);
        }
        EndsWanted(device, rounds, sequences, commands, expected, i, v);
      }
    }
  }

  lemma EndsGoes(
    device: Device, rounds: seq<Round>, sequences: seq<u16>, commands: nat, expected: Option<bool>, k: nat)
    requires k < |rounds|
    ensures forall v :: Ends(device, rounds, sequences, commands, expected, k, v) ==> Goes(rounds, k)
  {
    hide PowerState, Goes;
  }

  lemma EndsWanted(
    device: Device, rounds: seq<Round>, sequences: seq<u16>, commands: nat, expected: Option<bool>, k: nat, v: bool)
    requires k < |rounds| && Ends(device, rounds, sequences, commands, expected, k, v)
    ensures expected == None || expected == Some(v)
  {
    hide PowerState, Goes;
  }

  /** A later round is not reached through a round that stops, nor an earlier one. */
  lemma SameRound(
    device: Device, rounds: seq<Round>, sequences: seq<u16>, commands: nat, expected: Option<bool>, k: nat, i: nat)
    requires Reaches(device, rounds, sequences, commands, expected, k)
    requires Reaches(device, rounds, sequences, commands, expected, i)
    ensures i < k ==> Goes(rounds, i) && forall v :: !Ends(device, rounds, sequences, commands, expected, i, v)
    ensures k < i ==> Goes(rounds, k) && forall v :: !Ends(device, rounds, sequences, commands, expected, k, v)
  {
    hide PowerState, Goes, Ends;
  }

  /** What a reading loop has done when it reaches round k, or has sent its query in it. */
  ghost predicate Going(
    device: Device, before: Log, rounds: seq<Round>, expected: Option<bool>, used: set<u16>, log: Log, k: nat,
    accepted: set<u16>, used': set<u16>)
  {
    && FreshRequests(used, log, used') && ReadingLog(device, before, log) && AllRequested(before + log, accepted)
    && (forall s :: s in accepted <==> s in Sequences(before + log))
    && Reaches(device, rounds, Sequences(before + log), |before|, expected, k)
  }

  lemma GoingAtFirst(
    device: Device, before: Log, rounds: seq<Round>, expected: Option<bool>, used: set<u16>, accepted: set<u16>)
    requires before == [] || (|before| == 1 && IsRequest(before[0]))
    requires accepted == if before == [] then {} else {before[0].sequence}
    ensures Going(device, before, rounds, expected, used, [], 0, accepted, used)
    ensures |Sequences(before + [])| == |before|
  {
    hide PowerState, Sequences, Reaches;
    assert before + [] == before;
    NothingYet(device, used, before);
    FirstSequences(before);
    NothingReached(device, rounds, Sequences(before), |before|, expected);
  }

  lemma GoingWithQuery(
    device: Device, before: Log, rounds: seq<Round>, expected: Option<bool>, used: set<u16>, log: Log, k: nat,
    accepted: set<u16>, used': set<u16>, s: u16)
    requires Going(device, before, rounds, expected, used, log, k, accepted, used') && s !in used'
    requires k <= |rounds| && |Sequences(before + log)| == |before| + Dues(rounds, k)
    ensures Going(device, before, rounds, expected, used, log + [QueryOf(device, s)], k, accepted + {s}, used' + {s})
    ensures |Sequences(before + (log + [QueryOf(device, s)]))| == |before| + Dues(rounds, k) + 1
  {
    hide PowerState, ReadingLog, FreshRequests, AllRequested, Reaches, Sequences, LegacyFrame;
    AddQuery(device, before, log, accepted, used, used', s);
    NextQuery(before, log, QueryOf(device, s));
    ReachesStays(
      device, rounds, Sequences(before + log), Sequences(before + (log + [QueryOf(device, s)])), |before|, expected, k);
  }

  lemma GoingWithReading(
    device: Device, before: Log, rounds: seq<Round>, expected: Option<bool>, used: set<u16>, log: Log, k: nat,
    accepted: set<u16>, used': set<u16>, v: bool)
    requires Going(device, before, rounds, expected, used, log, k, accepted, used') && k < |rounds|
    requires PowerState(rounds[k].data, rounds[k].peer, device, accepted) == Some(v)
    ensures |rounds[k].data| >= 49 && FromBytes(rounds[k].data[10..12]) < 0x1_0000
    ensures var more := log + [Reading(v, FromBytes(rounds[k].data[10..12]), rounds[k].data, rounds[k].peer)];
      && Going(device, before, rounds, expected, used, more, k, accepted, used')
      && Sequences(before + more) == Sequences(before + log)
  {
    hide PowerState, ReadingLog, FreshRequests, AllRequested, Reaches, Sequences;
    AddReading(device, before, log, accepted, used, used', v, rounds[k].data, rounds[k].peer);
    NoQuery(before, log, Reading(v, FromBytes(rounds[k].data[10..12]), rounds[k].data, rounds[k].peer));
  }

  lemma GoesOn(
    device: Device, before: Log, rounds: seq<Round>, expected: Option<bool>, used: set<u16>, log: Log, k: nat,
    accepted: set<u16>, used': set<u16>)
    requires Going(device, before, rounds, expected, used, log, k, accepted, used') && k < |rounds| && Goes(rounds, k)
    requires rounds[k].ready ==>
      var value := PowerState(rounds[k].data, rounds[k].peer, device, accepted);
      value.Some? ==> expected.Some? && value != expected
    ensures Going(device, before, rounds, expected, used, log, k + 1, accepted, used')
  {
    hide PowerState, ReadingLog, FreshRequests, AllRequested, Reaches, Sequences, Goes;
    ReachesNext(device, rounds, Sequences(before + log), |before|, expected, k, accepted);
  }

  /** Where the loop stops. */
  ghost predicate StopsAt(
    device: Device, rounds: seq<Round>, expected: Option<bool>, k: nat, accepted: set<u16>, r: Res<Option<bool>>)
  {
    match r
    case Raised(f) => k < |rounds| && Breaks(rounds, k, f)
    case Ok(v) =>
      if v.Some? && (expected == None || expected == v) then
        k < |rounds| && Goes(rounds, k) && rounds[k].ready
        && PowerState(rounds[k].data, rounds[k].peer, device, accepted) == v
      else k == |rounds| || (k < |rounds| && rounds[k].expired)
  }

  lemma Stops(
    device: Device, before: Log, rounds: seq<Round>, expected: Option<bool>, used: set<u16>, log: Log, k: nat,
    accepted: set<u16>, used': set<u16>, r: Res<Option<bool>>)
    requires Going(device, before, rounds, expected, used, log, k, accepted, used')
    requires StopsAt(device, rounds, expected, k, accepted, r)
    requires k < |rounds| ==> |Sequences(before + log)| <= |before| + Dues(rounds, k + 1) || r.Raised? || rounds[k].expired
    ensures FreshRequests(used, log, used') && ReadingLog(device, before, log)
    ensures ReadResult(device, rounds, Sequences(before + log), |before|, expected, r)
  {
    hide PowerState, ReadingLog, FreshRequests, AllRequested, Reaches, Sequences, Goes, Breaks, Dues, Ends, ReadResult;
    if r.Ok? && r.value.Some? && (expected == None || expected == r.value) {
      GoingNotExpired(rounds, k);
      EndsHere(device, rounds, Sequences(before + log), |before|, expected, k, accepted, r.value.value);
    }
    StopsOnce(device, rounds, Sequences(before + log), |before|, expected, k, r);
  }

  lemma GoingNotExpired(rounds: seq<Round>, k: nat)
    requires k < |rounds| && Goes(rounds, k)
    ensures !rounds[k].expired
  {
    hide Asks;
  }

  /**
   * read_power.  `before` is the write whose state is awaited, or nothing; its sequence is
   * accepted besides those of the loop's own queries.
   */
  method ReadPower(
    device: Device, used: set<u16>, expected: Option<bool>, ghost before: Log, command: Option<u16>,
    rounds: seq<Round>, random: Draws, n: nat
  ) returns (r: Res<Option<bool>>, used': set<u16>, log: Log, n': nat)
    requires Fair(random) && |used| + 3 <= 0x1_0000
    requires if command == None then before == [] else |before| == 1 && IsRequest(before[0]) && before[0].sequence == command.value
    ensures FreshRequests(used, log, used') && |used'| <= |used| + 3
    ensures ReadingLog(device, before, log)
    ensures r.Ok? && r.value.Some? && (expected == None || r.value == expected) ==>
      log != [] && log[|log| - 1].Reading? && log[|log| - 1].value == r.value.value
    ensures ReadResult(device, rounds, Sequences(before + log), |before|, expected, r)
  {
    hide PowerState, ReadingLog, FreshRequests, SomeDrawIsFree, Going, ReadResult, Sequences, LegacyFrame, FromBytes;
    var accepted := if command == None then {} else {command.value};
    GoingAtFirst(device, before, rounds, expected, used, accepted);
    var queries, observed, k := 0, None, 0;
    used', log, n' := used, [], n;
    while k < |rounds| && !rounds[k].expired
      invariant 0 <= k <= |rounds| && 0 <= queries <= 3 && |used'| == |used| + queries
      invariant Going(device, before, rounds, expected, used, log, k, accepted, used')
      invariant queries == Dues(rounds, k) && |Sequences(before + log)| == |before| + queries
      invariant observed.Some? ==> expected.Some? && observed != expected
    {
      var round := rounds[k];
      if queries < 3 && round.due {
        var sequence;
        ghost var used0 := used';
        FairDrawsFindFree(used', random, n');
        sequence, used', n' := NextSequence(used', random, n');
        GoingWithQuery(device, before, rounds, expected, used, log, k, accepted, used0, sequence);
        accepted := accepted + {sequence};
        log := log + [Query(sequence, LegacyFrame(device.identity, QUERY, sequence))];
        queries := queries + 1;
        if !round.sending.Fine? {
          r := Raised(FailureOf(round.sending));
          Stops(device, before, rounds, expected, used, log, k, accepted, used', r);
          return;
        }
      }
      if !round.waiting.Fine? {
        r := Raised(FailureOf(round.waiting));
        Stops(device, before, rounds, expected, used, log, k, accepted, used', r);
        return;
      }
      if round.ready {
        if !round.receiving.Fine? {
          r := Raised(FailureOf(round.receiving));
          Stops(device, before, rounds, expected, used, log, k, accepted, used', r);
          return;
        }
        var value := PowerState(round.data, round.peer, device, accepted);
        if value.Some? {
          GoingWithReading(device, before, rounds, expected, used, log, k, accepted, used', value.value);
          observed := value;
          log := log + [Reading(value.value, FromBytes(round.data[10..12]), round.data, round.peer)];
          if expected == None || observed == expected {
            r := Res.Ok(observed);
            Stops(device, before, rounds, expected, used, log, k, accepted, used', r);
            return;
          }
        }
      }
      GoesOn(device, before, rounds, expected, used, log, k, accepted, used');
      k := k + 1;
    }
    r := Res.Ok(observed);
    Stops(device, before, rounds, expected, used, log, k, accepted, used', r);
  }

  lemma FirstSequences(before: Log)
    requires before == [] || (|before| == 1 && IsRequest(before[0]))
    ensures Sequences(before) == if before == [] then [] else [before[0].sequence]
    ensures AllRequested(before, if before == [] then {} else {before[0].sequence})
  {
    if before != [] {
      assert before == [] + [before[0]];
      MoreSequences([], before[0]);
      assert RequestedIn(before, before[0].sequence);
    }
  }

  lemma NextQuery(before: Log, log: Log, e: Entry)
    requires e.Query?
    ensures Sequences(before + (log + [e])) == Sequences(before + log) + [e.sequence]
  {
    assert before + (log + [e]) == (before + log) + [e];
    MoreSequences(before + log, e);
  }

  lemma NoQuery(before: Log, log: Log, e: Entry)
    requires e.Reading?
    ensures Sequences(before + (log + [e])) == Sequences(before + log)
  {
    assert before + (log + [e]) == (before + log) + [e];
    MoreSequences(before + log, e);
  }

  lemma NothingReached(
    device: Device, rounds: seq<Round>, sequences: seq<u16>, commands: nat, expected: Option<bool>)
    ensures Reaches(device, rounds, sequences, commands, expected, 0)
  {}

  // ---------------------------------------------------------------- writing

  /** Entry i confirms the write at w: it shows the written power, in answer to that write or a later request. */
  predicate ConfirmedBy(device: Device, log: Log, w: nat, i: nat, q: nat)
  {
    && w <= q && Answered(device, log, i, q) && w < |log| && log[w].Write? && log[i].value == log[w].desired
  }

  ghost predicate Confirmed(device: Device, log: Log, w: nat, i: nat)
  {
    exists q: nat :: ConfirmedBy(device, log, w, i, q)
  }

  lemma ConfirmedLater(device: Device, a: Log, b: Log, c: Log, w: nat, i: nat)
    requires Confirmed(device, b, w, i)
    ensures Confirmed(device, a + b + c, |a| + w, |a| + i)
  {
    hide PowerState;
    var q: nat :| ConfirmedBy(device, b, w, i, q);
    var log := a + b + c;
    assert log[|a| + w] == b[w] && log[|a| + i] == b[i] && log[|a| + q] == b[q];
    assert ConfirmedBy(device, log, |a| + w, |a| + i, |a| + q);
  }

  /** The write is sent, and its reading loop ends with the written power. */
  ghost predicate WriteShown(device: Device, script: WriteScript, log: Log, desired: bool)
  {
    script.sending.Fine? && Read(device, script.rounds, Sequences(log), 1, Some(desired), desired)
  }

  /** The write fails in this way, when it is sent or in its reading loop. */
  ghost predicate WriteBroken(device: Device, script: WriteScript, log: Log, desired: bool, failure: Failure)
  {
    if script.sending.Fine? then Broken(device, script.rounds, Sequences(log), 1, Some(desired), failure)
    else FailsAs(script.sending, failure)
  }

  ghost predicate WriteResult(device: Device, script: WriteScript, log: Log, desired: bool, r: Res<bool>)
  {
    && (r == Res.Ok(true) <==> WriteShown(device, script, log, desired))
    && (forall f :: r == Raised(f) <==> WriteBroken(device, script, log, desired, f))
  }

  lemma WriteResultOf(device: Device, script: WriteScript, log: Log, desired: bool, read: Res<Option<bool>>)
    requires script.sending.Fine? && ReadResult(device, script.rounds, Sequences(log), 1, Some(desired), read)
    ensures WriteResult(device, script, log, desired,
                        if read.Raised? then Raised(read.failure) else Res.Ok(read.value == Some(desired)))
  {
    hide Read, Broken, Sequences;
  }

  /** A loop that ended with the power and one that failed are not the same. */
  lemma WriteEndsOnce(device: Device, script: WriteScript, log: Log, desired: bool, r: Res<bool>)
    requires WriteResult(device, script, log, desired, r)
    ensures WriteShown(device, script, log, desired) ==> forall f :: !WriteBroken(device, script, log, desired, f)
    ensures WriteBroken(device, script, log, desired, Interrupted) <==> r == Raised(Interrupted)
  {
    hide WriteShown, WriteBroken;
  }

  predicate IsWriteOf(device: Device, e: Entry, desired: bool)
  {
    e.Write? && e.desired == desired && e.datagram == WriteDatagram(device.identity, desired, e.sequence)
  }

  /** set_power: one write, and the reading loop that must confirm it. */
  method SetPower(device: Device, used: set<u16>, desired: bool, script: WriteScript, random: Draws, n: nat)
    returns (r: Res<bool>, used': set<u16>, log: Log, n': nat)
    requires Fair(random) && |used| + 4 <= 0x1_0000
    ensures FreshRequests(used, log, used') && |used'| <= |used| + 4
    ensures log != [] && IsWriteOf(device, log[0], desired) && forall i :: 0 < i < |log| ==> !log[i].Write?
    ensures r.Ok? && r.value ==> Confirmed(device, log, 0, |log| - 1)
    ensures WriteResult(device, script, log, desired, r)
  {
    hide PowerState, LegacyFrame, SumOf, ReadResult, WriteResult;
    var sequence, used1;
    FairDrawsFindFree(used, random, n);
    sequence, used1, n' := NextSequence(used, random, n);
    var write := Write(desired, sequence, LegacyFrame(device.identity, PowerPayload(desired), sequence));
    log := [write];
    used' := used1;
    if !script.sending.Fine? {
      r := Raised(FailureOf(script.sending));
      NotSent(device, script, log, desired);
      return;
    }
    var read, readLog;
    read, used', readLog, n' := ReadPower(device, used1, Some(desired), [write], Some(sequence), script.rounds, random, n');
    FreshConcat(used, [write], used1, readLog, used');
    log := [write] + readLog;
    WriteResultOf(device, script, log, desired, read);
    if read.Raised? {
      r := Raised(read.failure);
      return;
    }
    if read.value == Some(desired) {
      LastConfirms(device, [write], readLog);
    }
    r := Res.Ok(read.value == Some(desired));
  }

  lemma NotSent(device: Device, script: WriteScript, log: Log, desired: bool)
    requires !script.sending.Fine?
    ensures WriteResult(device, script, log, desired, Raised(FailureOf(script.sending)))
  {
    hide Read, Broken, Sequences;
  }

  lemma LastConfirms(device: Device, before: Log, log: Log)
    requires |before| == 1 && before[0].Write? && log != [] && ReadingLog(device, before, log)
    requires log[|log| - 1].Reading? && log[|log| - 1].value == before[0].desired
    ensures Confirmed(device, before + log, 0, |log|)
  {
    hide PowerState;
    assert Answers(device, before + log, 1 + (|log| - 1));
    var q: nat :| Answered(device, before + log, 1 + (|log| - 1), q);
    assert ConfirmedBy(device, before + log, 0, |log|, q);
  }

  /** The writes of a log all carry this power, and there are between one and `most` of them. */
  ghost predicate OnlyWrites(device: Device, log: Log, desired: bool, most: nat)
  {
    && (forall i :: 0 <= i < |log| && log[i].Write? ==> IsWriteOf(device, log[i], desired))
    && log != [] && log[0].Write? && Writes(log) <= most
  }

  predicate IsWrite(e: Entry)
  {
    e.Write?
  }

  function Writes(log: Log): nat { Count(log, IsWrite) }

  /** The restore loop: two attempts at most, ended by a confirmation or an interrupt. */
  method Restore(device: Device, used: set<u16>, original: bool, scripts: seq<WriteScript>, random: Draws, n: nat)
    returns (confirmed: bool, interrupted: bool, used': set<u16>, log: Log, ghost w: nat, ghost i: nat, ghost a: Log, ghost b: Log)
    requires Fair(random) && |used| + 8 <= 0x1_0000 && |scripts| == 2
    ensures FreshRequests(used, log, used')
    ensures OnlyWrites(device, log, original, 2)
    ensures confirmed ==> Confirmed(device, log, w, i)
    ensures log == a + b && Restored(device, scripts[0], scripts[1], original, a, b, confirmed, interrupted)
  {
    hide PowerState, FreshRequests, Confirmed, WriteResult, Restored, OnlyWrites, IsWriteOf;
    confirmed, interrupted, used', log, w, i := false, false, used, [], 0, 0;
    a, b := [], [];
    ghost var tried: Res<bool> := Res.Ok(false);
    var n', attempt := n, 0;
    assert FreshRequests(used, [], used) by {
      NothingYet(device, used, []);
    }
    while attempt < 2
      invariant 0 <= attempt <= 2 && |used'| <= |used| + 4 * attempt && !confirmed && !interrupted
      invariant FreshRequests(used, log, used')
      invariant attempt == 0 ==> log == []
      invariant attempt < 2 ==> b == []
      invariant attempt > 0 ==> OnlyWrites(device, log, original, attempt)
      invariant attempt == 1 ==> a == log && WriteResult(device, scripts[0], a, original, tried)
      invariant attempt == 1 ==> tried != Res.Ok(true) && tried != Raised(Interrupted)
      invariant attempt == 2 ==>
        log == a + b && Restored(device, scripts[0], scripts[1], original, a, b, confirmed, interrupted)
    {
      ghost var before, used0 := log, used';
      var restore, restoreLog;
      restore, used', restoreLog, n' := SetPower(device, used', original, scripts[attempt], random, n');
      FreshConcat(used, before, used0, restoreLog, used');
      MoreWrites(device, before, restoreLog, original, attempt);
      log := log + restoreLog;
      if attempt == 0 {
        a := restoreLog;
        assert log == a && a + b == a;
        tried := restore;
        FirstRestore(device, scripts[0], scripts[1], original, a, restore);
      } else {
        b := restoreLog;
        SecondRestore(device, scripts[0], scripts[1], original, a, b, tried, restore);
      }
      if restore.Ok? && restore.value {
        ConfirmedLater(device, before, restoreLog, [], 0, |restoreLog| - 1);
        assert before + restoreLog + [] == log;
        confirmed, w, i := true, |before|, |before| + (|restoreLog| - 1);
        return;
      }
      if restore.Raised? && restore.failure.Interrupted? {
        interrupted := true;
        return;
      }
      attempt := attempt + 1;
    }
  }

  /** What the restore comes to: the second attempt follows unless the first one confirmed or was interrupted. */
  ghost predicate Restored(
    device: Device, first: WriteScript, second: WriteScript, original: bool, a: Log, b: Log, confirmed: bool,
    interrupted: bool)
  {
    && (b == [] <==> WriteShown(device, first, a, original) || WriteBroken(device, first, a, original, Interrupted))
    && (confirmed <==> WriteShown(device, first, a, original) || (b != [] && WriteShown(device, second, b, original)))
    && (interrupted <==> WriteBroken(device, first, a, original, Interrupted)
                         || (b != [] && WriteBroken(device, second, b, original, Interrupted)))
    && !(confirmed && interrupted)
  }

  lemma FirstRestore(device: Device, first: WriteScript, second: WriteScript, original: bool, a: Log, r: Res<bool>)
    requires WriteResult(device, first, a, original, r)
    ensures r == Res.Ok(true) || r == Raised(Interrupted) ==>
      Restored(device, first, second, original, a, [], r == Res.Ok(true), r == Raised(Interrupted))
  {
    WriteEndsOnce(device, first, a, original, r);
    hide WriteShown, WriteBroken;
  }

  lemma SecondRestore(
    device: Device, first: WriteScript, second: WriteScript, original: bool, a: Log, b: Log, tried: Res<bool>, r: Res<bool>)
    requires WriteResult(device, first, a, original, tried) && tried != Res.Ok(true) && tried != Raised(Interrupted)
    requires b != [] && WriteResult(device, second, b, original, r)
    ensures Restored(device, first, second, original, a, b, r == Res.Ok(true), r == Raised(Interrupted))
  {
    WriteEndsOnce(device, first, a, original, tried);
    WriteEndsOnce(device, second, b, original, r);
    hide WriteShown, WriteBroken;
  }

  lemma MoreWrites(device: Device, before: Log, log: Log, desired: bool, attempt: nat)
    requires attempt == 0 ==> before == []
    requires attempt > 0 ==> OnlyWrites(device, before, desired, attempt)
    requires log != [] && IsWriteOf(device, log[0], desired) && forall i :: 0 < i < |log| ==> !log[i].Write?
    ensures OnlyWrites(device, before + log, desired, attempt + 1)
    ensures attempt < 2 ==> OnlyWrites(device, before + log, desired, 2)
  {
    hide IsWriteOf;
    CountConcat(before, log, IsWrite);
    CountFirst(log, IsWrite);
    assert IsWriteOf(device, log[0], desired) ==> log[0].Write? by {
      WriteIsWrite(device, log[0], desired);
    }
  }

  lemma WriteIsWrite(device: Device, e: Entry, desired: bool)
    ensures IsWriteOf(device, e, desired) ==> e.Write? && e.desired == desired
  {}

  // ---------------------------------------------------------------- the round trip

  datatype TestScript = TestScript(
    initial: seq<Round>, toggle: WriteScript, pause: Call, first: WriteScript, second: WriteScript)

  datatype Status =
    | InitialReadFailed | NoConfirmedInitialState | RestoreNotConfirmed | InterruptedRestored | Passed
    | ToggleNotConfirmedRestored

  /** The outcome of test_power; `original` is the power that was read before anything was written. */
  datatype TestResult = TestResult(status: Status, original: Option<bool>)

  /** No two requests of the run share a sequence, and none has one of the discovery. */
  ghost predicate NeverReused(discovery: set<u16>, log: Log)
  {
    && (forall i :: 0 <= i < |log| && IsRequest(log[i]) ==> log[i].sequence !in discovery)
    && (forall i, j :: 0 <= i < j < |log| && IsRequest(log[i]) && IsRequest(log[j]) ==>
          log[i].sequence != log[j].sequence)
  }

  /** A write of the toggled power, and then only writes of the original one, at least one of them. */
  ghost predicate RestoreTried(device: Device, log: Log, original: bool, t: nat, w: nat)
  {
    && t < w < |log| && IsWriteOf(device, log[t], !original) && IsWriteOf(device, log[w], original)
    && (forall i :: 0 <= i < |log| && i != t && log[i].Write? ==> w <= i && IsWriteOf(device, log[i], original))
  }

  /** The toggle at t was confirmed at i, before the restore at w, which was confirmed at j. */
  ghost predicate RoundTrip(device: Device, log: Log, original: bool, t: nat, i: nat, w: nat, j: nat)
  {
    && t < i < w < j < |log| && IsWriteOf(device, log[t], !original) && IsWriteOf(device, log[w], original)
    && Confirmed(device, log, t, i) && Confirmed(device, log, w, j)
  }

  /** The power before the test, read before anything was written. */
  ghost predicate ReadFirst(device: Device, log: Log, original: bool, i: nat)
  {
    && i < |log| && Answers(device, log, i) && log[i].Reading? && log[i].value == original
    && forall k :: 0 <= k < i ==> !log[k].Write?
  }

  lemma TestLog(
    device: Device, first: Log, toggle: Log, restore: Log, original: bool, toggled: bool, restored: bool, w: nat, j: nat)
    requires first != [] && ReadingLog(device, [], first)
    requires first[|first| - 1].Reading? && first[|first| - 1].value == original
    requires toggle != [] && IsWriteOf(device, toggle[0], !original) && forall i :: 0 < i < |toggle| ==> !toggle[i].Write?
    requires OnlyWrites(device, restore, original, 2)
    requires toggled ==> Confirmed(device, toggle, 0, |toggle| - 1)
    requires restored ==> Confirmed(device, restore, w, j)
    ensures var log := first + toggle + restore;
      && Writes(log) <= 3
      && RestoreTried(device, log, original, |first|, |first| + |toggle|)
      && ReadFirst(device, log, original, |first| - 1)
      && (toggled && restored ==>
            RoundTrip(device, log, original, |first|, |first| + (|toggle| - 1), |first| + |toggle| + w, |first| + |toggle| + j))
  {
    TestLogWrites(device, first, toggle, restore, original);
    TestLogReads(device, first, toggle, restore, original);
    if toggled && restored {
      TestLogTrip(device, first, toggle, restore, original, w, j);
    }
  }

  lemma TestLogWrites(device: Device, first: Log, toggle: Log, restore: Log, original: bool)
    requires ReadingLog(device, [], first)
    requires toggle != [] && IsWriteOf(device, toggle[0], !original) && forall i :: 0 < i < |toggle| ==> !toggle[i].Write?
    requires OnlyWrites(device, restore, original, 2)
    ensures var log := first + toggle + restore;
      Writes(log) <= 3 && RestoreTried(device, log, original, |first|, |first| + |toggle|)
  {
    hide PowerState, WriteDatagram;
    var log := first + toggle + restore;
    CountConcat(first + toggle, restore, IsWrite);
    CountConcat(first, toggle, IsWrite);
    CountFirst(first, IsWrite);
    CountFirst(toggle, IsWrite);
    assert log[|first|] == toggle[0] && log[|first| + |toggle|] == restore[0];
    forall i | 0 <= i < |log| && i != |first| && log[i].Write?
      ensures |first| + |toggle| <= i && IsWriteOf(device, log[i], original)
    {
      if i >= |first| + |toggle| {
        assert log[i] == restore[i - (|first| + |toggle|)];
      }
    }
  }

  lemma TestLogReads(device: Device, first: Log, toggle: Log, restore: Log, original: bool)
    requires first != [] && ReadingLog(device, [], first)
    requires first[|first| - 1].Reading? && first[|first| - 1].value == original
    ensures ReadFirst(device, first + toggle + restore, original, |first| - 1)
  {
    hide PowerState, Answers;
    assert [] + first == first;
    ReadingsStay(device, first, toggle + restore, |first| - 1);
    assert first + (toggle + restore) == first + toggle + restore;
  }

  lemma TestLogTrip(device: Device, first: Log, toggle: Log, restore: Log, original: bool, w: nat, j: nat)
    requires toggle != [] && IsWriteOf(device, toggle[0], !original)
    requires OnlyWrites(device, restore, original, 2)
    requires Confirmed(device, toggle, 0, |toggle| - 1) && Confirmed(device, restore, w, j)
    ensures RoundTrip(device, first + toggle + restore, original, |first|, |first| + (|toggle| - 1),
                      |first| + |toggle| + w, |first| + |toggle| + j)
  {
    hide PowerState, WriteDatagram;
    ConfirmedLater(device, first, toggle, restore, 0, |toggle| - 1);
    ConfirmedLater(device, first + toggle, restore, [], w, j);
    assert first + toggle + restore + [] == first + toggle + restore;
    ConfirmedBounds(device, toggle, 0, |toggle| - 1);
    ConfirmedBounds(device, restore, w, j);
    var log := first + toggle + restore;
    assert log[|first|] == toggle[0] && log[|first| + |toggle| + w] == restore[w];
    hide Confirmed;
  }

  lemma ConfirmedBounds(device: Device, log: Log, w: nat, i: nat)
    requires Confirmed(device, log, w, i)
    ensures w < i < |log| && log[w].Write?
  {
    hide PowerState;
  }

  lemma NeverReusedFrom(discovery: set<u16>, log: Log, used: set<u16>)
    requires FreshRequests(discovery, log, used)
    ensures NeverReused(discovery, log)
  {}

  /**
   * test_power, on any script: nothing is written unless the initial read showed a power; once
   * the toggle was attempted a restore was attempted, and every write after the toggle carries
   * the original power; there are at most three writes; and the run passes only if both the
   * toggle and the restore were confirmed.
   */
  method TestPower(device: Device, discovery: set<u16>, script: TestScript, random: Draws)
    returns (r: TestResult, log: Log)
    requires Fair(random) && |discovery| + 15 <= 0x1_0000
    ensures NeverReused(discovery, log) && Writes(log) <= 3
    ensures r.original.None? <==> Writes(log) == 0
    ensures r.original.Some? ==> exists i: nat :: ReadFirst(device, log, r.original.value, i)
    ensures r.original.Some? ==> exists t: nat, w: nat :: RestoreTried(device, log, r.original.value, t, w)
    ensures r.status.Passed? ==> r.original.Some?
    ensures r.status.Passed? ==>
      exists t: nat, i: nat, w: nat, j: nat :: RoundTrip(device, log, r.original.value, t, i, w, j)
    ensures exists first, toggle, a, b ::
      log == first + toggle + a + b && Explained(device, script, r, first, toggle, a, b)
  {
    hide Explained, ReadResult, WriteResult, Restored;
    hide PowerState, FreshRequests, NeverReused, RestoreTried, RoundTrip, ReadFirst, Confirmed, OnlyWrites, IsWriteOf;
    var initial, used, firstLog, n := ReadPower(device, discovery, None, [], None, script.initial, random, 0);
    NoWritesYet(device, firstLog);
    NeverReusedFrom(discovery, firstLog, used);
    if initial.Raised? || initial.value.None? {
      r := TestResult(if initial.Raised? then InitialReadFailed else NoConfirmedInitialState, None);
      NotStarted(device, script, firstLog, initial);
      assert firstLog == firstLog + [] + [] + [];
      return r, firstLog;
    }
    var original := initial.value.value;
    var interrupted, toggled := false, false;
    ghost var used0 := used;
    var toggle, toggleLog;
    toggle, used, toggleLog, n := SetPower(device, used, !original, script.toggle, random, n);
    FreshConcat(discovery, firstLog, used0, toggleLog, used);
    if toggle.Ok? {
      toggled := toggle.value;
      interrupted := toggled && script.pause.Interrupt?;
    } else {
      interrupted := toggle.failure.Interrupted?;
    }
    var restored, broken, used1, restoreLog, w, j, a, b :=
      Restore(device, used, original, [script.first, script.second], random, n);
    FreshConcat(discovery, firstLog + toggleLog, used, restoreLog, used1);
    interrupted := interrupted || broken;
    log := firstLog + toggleLog + restoreLog;
    NeverReusedFrom(discovery, log, used1);
    TestLog(device, firstLog, toggleLog, restoreLog, original, toggled, restored, w, j);
    TriedMeansWritten(device, log, original, |firstLog|, |firstLog| + |toggleLog|);
    var status :=
      if !restored then RestoreNotConfirmed
      else if interrupted then InterruptedRestored
      else if toggled then Passed
      else ToggleNotConfirmedRestored;
    r := TestResult(status, Some(original));
    assert log == firstLog + toggleLog + a + b;
    TestEnds(device, script, r, firstLog, toggleLog, a, b, initial, toggle, restored, broken);
  }

  /**
   * Each status of a test whose log has these parts, both ways: what was read, whether the toggle
   * and one of the restores were shown, and whether the toggle or the pause after it was interrupted.
   */
  ghost predicate Explained(
    device: Device, script: TestScript, r: TestResult, first: Log, toggle: Log, a: Log, b: Log)
  {
    match r.original
    case None =>
      && toggle + a + b == [] && (forall v :: !Read(device, script.initial, Sequences(first), 0, None, v))
      && r.status == if exists f :: Broken(device, script.initial, Sequences(first), 0, None, f)
                     then InitialReadFailed else NoConfirmedInitialState
    case Some(original) =>
      var toggled := WriteShown(device, script.toggle, toggle, !original);
      var restored :=
        WriteShown(device, script.first, a, original) || (b != [] && WriteShown(device, script.second, b, original));
      var interrupted :=
        WriteBroken(device, script.toggle, toggle, !original, Interrupted) || (toggled && script.pause.Interrupt?);
      && Read(device, script.initial, Sequences(first), 0, None, original)
      && (b == [] <==> WriteShown(device, script.first, a, original)
                       || WriteBroken(device, script.first, a, original, Interrupted))
      && (r.status == RestoreNotConfirmed <==> !restored)
      && (r.status == InterruptedRestored <==> restored && interrupted)
      && (r.status == Passed <==> restored && toggled && !interrupted)
      && (r.status == ToggleNotConfirmedRestored <==> restored && !toggled && !interrupted)
  }

  lemma NotStarted(device: Device, script: TestScript, first: Log, read: Res<Option<bool>>)
    requires ReadResult(device, script.initial, Sequences([] + first), 0, None, read)
    requires read.Raised? || read.value.None?
    ensures Explained(device, script,
                      TestResult(if read.Raised? then InitialReadFailed else NoConfirmedInitialState, None), first, [], [], [])
  {
    hide Read, Broken, Sequences;
    assert [] + first == first;
  }

  lemma TestEnds(
    device: Device, script: TestScript, r: TestResult, first: Log, toggle: Log, a: Log, b: Log,
    initial: Res<Option<bool>>, toggled: Res<bool>, restored: bool, broken: bool)
    requires r.original.Some? && initial == Res.Ok(r.original)
    requires ReadResult(device, script.initial, Sequences([] + first), 0, None, initial)
    requires WriteResult(device, script.toggle, toggle, !r.original.value, toggled)
    requires Restored(device, script.first, script.second, r.original.value, a, b, restored, broken)
    requires r.status ==
      if !restored then RestoreNotConfirmed
      else if toggled == Raised(Interrupted) || (toggled == Res.Ok(true) && script.pause.Interrupt?) || broken
      then InterruptedRestored
      else if toggled == Res.Ok(true) then Passed
      else ToggleNotConfirmedRestored
    ensures Explained(device, script, r, first, toggle, a, b)
  {
    assert [] + first == first;
    hide Read, Broken, Sequences, WriteShown;
    hide WriteBroken;
  }

  lemma NoWritesYet(device: Device, log: Log)
    requires ReadingLog(device, [], log)
    ensures Writes(log) == 0
  {
    CountFirst(log, IsWrite);
  }

  lemma TriedMeansWritten(device: Device, log: Log, original: bool, t: nat, w: nat)
    requires RestoreTried(device, log, original, t, w)
    ensures Writes(log) > 0
  {
    hide PowerState, WriteDatagram;
    CountConcat(log[..t], log[t..], IsWrite);
    assert log == log[..t] + log[t..];
    CountConcat([log[t]], log[t + 1..], IsWrite);
    assert log[t..] == [log[t]] + log[t + 1..];
    CountFirst([log[t]], IsWrite);
  }

  /**
   * Because sequences are never reused, the state that confirms a write answers that write or a
   * later request, and no frame that answers an earlier request, or the discovery, can be it.
   */
  lemma EarlierAnswersCannotConfirm(device: Device, discovery: set<u16>, log: Log, w: nat, i: nat, p: nat)
    requires NeverReused(discovery, log) && Confirmed(device, log, w, i) && p < w && IsRequest(log[p])
    ensures |log[i].data| >= 12
    ensures FromBytes(log[i].data[10..12]) != log[p].sequence && FromBytes(log[i].data[10..12]) !in discovery
    ensures PowerState(log[i].data, log[i].peer, device, discovery + {log[p].sequence}) == None
  {
    var q: nat :| ConfirmedBy(device, log, w, i, q);
    hide NeverReused, ToBytes2;
    assert log[q].sequence != log[p].sequence && log[q].sequence !in discovery by {
      SequencesDiffer(discovery, log, p, q);
    }
    assert FromBytes(log[i].data[10..12]) == log[q].sequence;
    hide FromBytes;
  }

  lemma SequencesDiffer(discovery: set<u16>, log: Log, p: nat, q: nat)
    requires NeverReused(discovery, log) && p < q < |log| && IsRequest(log[p]) && IsRequest(log[q])
    ensures log[q].sequence != log[p].sequence && log[q].sequence !in discovery
  {}
}
