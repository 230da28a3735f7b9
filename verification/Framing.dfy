/** The outer UDP envelope and the two checks of the F072 inner frame (protocols/base.py). */
module Framing {
  import opened Bytes
  import opened Models
  import opened Crc16

  const OUTER_MARKER: byte := 0xA1
  const OUTER_HEADER_LENGTH := 16
  const MAX_PAYLOAD := 0xF8

  datatype OuterFrame = OuterFrame(identity: Identity, operation: byte, sequence: u16, payload: bytes)

  /** build_outer_frame: the operation is any integer, as the caller may pass one. */
  function BuildOuterFrame(identity: Identity, operation: int, sequence: u16, payload: bytes): Result<bytes>
  {
    if |payload| > MAX_PAYLOAD then Err(InvalidValue)
    else if !(0 <= operation <= 0xFF) then Err(InvalidValue)
    else Ok([OUTER_MARKER, operation] + identity.mac + [|payload| + 7, 0] + ToBytes2(sequence)
            + [identity.company, identity.wireType] + ToBytes2(identity.auth) + payload)
  }

  /** The envelope as every codec asks for it. */
  function Wrap(context: Context, payload: bytes): Result<bytes>
  {
    BuildOuterFrame(context.identity, context.outerOperation, context.outerSequence, payload)
  }

  function ParseOuterFrame(data: bytes): Option<OuterFrame>
  {
    if |data| < OUTER_HEADER_LENGTH then None
    else if data[0] != OUTER_MARKER || data[9] != 0 then None
    else if data[8] < 7 then None
    else if |data| != OUTER_HEADER_LENGTH + (data[8] - 7) then None
    else
      FromBytes2(data[14..16]);
      FromBytes2(data[10..12]);
      Some(OuterFrame(
        Identity(data[2..8], data[12], data[13], FromBytes(data[14..16])),
        data[1], FromBytes(data[10..12]), data[16..]))
  }

  // ---------------------------------------------------------------- a bijection

  /** Every envelope that can be built is read back exactly. */
  lemma ParseOfBuild(identity: Identity, operation: int, sequence: u16, payload: bytes)
    ensures BuildOuterFrame(identity, operation, sequence, payload).Ok?
       <==> |payload| <= 248 && 0 <= operation <= 0xFF
    ensures BuildOuterFrame(identity, operation, sequence, payload).Ok? ==>
      ParseOuterFrame(BuildOuterFrame(identity, operation, sequence, payload).value)
        == Some(OuterFrame(identity, operation, sequence, payload))
  {
    var built := BuildOuterFrame(identity, operation, sequence, payload);
    if built.Ok? {
      var d := built.value;
      assert d[2..8] == identity.mac;
      assert d[10..12] == ToBytes2(sequence);
      assert d[14..16] == ToBytes2(identity.auth);
      assert d[16..] == payload;
      ToBytes2RoundTrip(sequence);
      ToBytes2RoundTrip(identity.auth);
    }
  }

  /** What stands where in an envelope. */
  lemma EnvelopeLayout(identity: Identity, operation: int, sequence: u16, payload: bytes)
    requires BuildOuterFrame(identity, operation, sequence, payload).Ok?
    ensures var d := BuildOuterFrame(identity, operation, sequence, payload).value;
      && |d| == 16 + |payload| && |payload| <= 248 && d[0] == 0xA1 && d[1] == operation && d[2..8] == identity.mac
      && d[8] == |payload| + 7 && d[9] == 0 && 256 * (d[10] as int) + d[11] == sequence
      && d[12] == identity.company && d[13] == identity.wireType && 256 * (d[14] as int) + d[15] == identity.auth
      && d[16..] == payload
  {}

  /** Every accepted datagram is the envelope of what was read from it, byte for byte. */
  lemma BuildOfParse(data: bytes)
    requires ParseOuterFrame(data).Some?
    ensures |ParseOuterFrame(data).value.payload| <= 248
    ensures var f := ParseOuterFrame(data).value;
      BuildOuterFrame(f.identity, f.operation, f.sequence, f.payload) == Ok(data)
  {
    var f := ParseOuterFrame(data).value;
    FromBytes2RoundTrip(data[10..12]);
    FromBytes2RoundTrip(data[14..16]);
    var d := BuildOuterFrame(f.identity, f.operation, f.sequence, f.payload).value;
    assert d[..16] == data[..16];
    assert d == d[..16] + f.payload;
    assert data == data[..16] + data[16..];
  }

  // ---------------------------------------------------------------- F072 inner frames

  const PREFIX: bytes := [0xF0, 0x72]

  predicate RequestCrcValid(frame: bytes)
  {
    |frame| >= 15 && frame[..2] == PREFIX
    && FromBytes(frame[2..4]) == |frame| - 2
    && Crc(frame[2..|frame| - 2]) == FromBytes(frame[|frame| - 2..])
  }

  predicate ResponseCrcValid(frame: bytes)
  {
    |frame| >= 9 && frame[..2] == PREFIX
    && Crc(frame[2..|frame| - 2]) == FromBytes(frame[|frame| - 2..])
  }

  lemma ResponseIsSealed(frame: bytes)
    requires ResponseCrcValid(frame)
    ensures Sealed(frame[2..])
  {
    hide Crc, FromBytes;
    var m := frame[2..];
    assert m[..|m| - 2] == frame[2..|frame| - 2];
    assert m[|m| - 2..] == frame[|frame| - 2..];
  }

  /**
   * Any change confined to sixteen adjacent bits of a frame that passes the response check
   * is detected, wherever the sixteen bits lie: in the prefix, in the body, across the
   * border between body and checksum, or in the checksum.
   */
  lemma ResponseCheckDetectsBursts(f: bytes, g: bytes, from: nat)
    requires ResponseCrcValid(f) && WithinBurst(f, g, from) && f != g
    ensures !ResponseCrcValid(g)
  {
    hide Crc, FromBytes, ByteBits, Sealed;
    if ResponseCrcValid(g) {
      ResponseIsSealed(f);
      ResponseIsSealed(g);
      var a, b := f[2..], g[2..];
      var start := if from < 16 then 0 else from - 16;
      forall i | 0 <= i < 8 * |a| && !(start <= i < start + 16)
        ensures BitAt(a, i) == BitAt(b, i)
      {
        assert (i + 16) / 8 == i / 8 + 2 && (i + 16) % 8 == i % 8;
        assert BitAt(f, i + 16) == BitAt(g, i + 16);
      }
      assert WithinBurst(a, b, start);
      assert f == PREFIX + a && g == PREFIX + b;
      BurstDetected(a, b, start);
    }
  }

  /** In particular two adjacent corrupted bytes never pass. */
  lemma ResponseCheckDetectsTwoBytes(f: bytes, g: bytes, p: nat)
    requires ResponseCrcValid(f) && |f| == |g| && f != g
    requires forall i :: 0 <= i < |f| && i != p && i != p + 1 ==> f[i] == g[i]
    ensures !ResponseCrcValid(g)
  {
    AdjacentBytesAreABurst(f, g, p);
    ResponseCheckDetectsBursts(f, g, 8 * p);
  }

  /** Appending the checksum of everything after the prefix makes a frame that both checks accept. */
  function Seal(frame: bytes): bytes
    requires |frame| >= 2
  {
    frame + ToBytes2(Crc(frame[2..]))
  }

  lemma SealedFramePasses(frame: bytes)
    requires |frame| >= 7 && frame[..2] == PREFIX
    ensures ResponseCrcValid(Seal(frame))
    ensures |frame| >= 13 && FromBytes(frame[2..4]) == |frame| ==> RequestCrcValid(Seal(frame))
  {
    hide Crc, FromBytes;
    var s := Seal(frame);
    assert s[..2] == frame[..2];
    assert s[2..4] == frame[2..4];
    assert s[2..|s| - 2] == frame[2..];
    assert s[|s| - 2..] == ToBytes2(Crc(frame[2..]));
    ToBytes2RoundTrip(Crc(frame[2..]));
  }

  /** The prefix, a body and the body's checksum. */
  predicate IsFramed(frame: bytes, body: bytes)
  {
    frame == [0xF0, 0x72] + body + ToBytes2(Crc(body))
  }

  /** A response passes its check exactly if it is a body of five octets or more in such a frame. */
  lemma ResponseCheckIff(frame: bytes)
    ensures ResponseCrcValid(frame) <==> |frame| >= 9 && IsFramed(frame, frame[2..|frame| - 2])
  {
    hide Crc, FromBytes;
    if |frame| >= 9 {
      var body := frame[2..|frame| - 2];
      FromBytes2RoundTrip(frame[|frame| - 2..]);
      ToBytes2RoundTrip(Crc(body));
      assert frame == frame[..2] + body + frame[|frame| - 2..];
      if IsFramed(frame, body) {
        assert frame[..2] == [0xF0, 0x72] && frame[|frame| - 2..] == ToBytes2(Crc(body));
      }
    }
  }

  /** A request, besides, has eleven octets or more in its body, which begins with the length of body and checksum. */
  lemma RequestCheckIff(frame: bytes)
    ensures RequestCrcValid(frame)
       <==> |frame| >= 15 && IsFramed(frame, frame[2..|frame| - 2]) && 256 * (frame[2] as int) + frame[3] == |frame| - 2
  {
    ResponseCheckIff(frame);
    hide Crc, IsFramed;
    if |frame| >= 15 {
      FromBytes2(frame[2..4]);
    }
  }
}
