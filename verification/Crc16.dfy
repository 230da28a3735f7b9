/**
 * CRC-16/GENIBUS: polynomial 0x1021, register preset to 0xFFFF, result inverted.
 *
 * The 16-bit register is the sequence of its bits, most significant first, so that
 * exclusive-or is pointwise.  One step of the inner loop is linear over exclusive-or
 * and injective; what is proved here about errors in messages of any length is
 * lifted from those two facts.
 */
module Crc16 {
  import opened Bytes

  type Bits = seq<bool>

  type Reg = r: Bits | |r| == 16
    witness [false, false, false, false, false, false, false, false, false, false, false, false, false, false, false, false]

  const ZERO: Reg :=
    [false, false, false, false, false, false, false, false, false, false, false, false, false, false, false, false]

  const ALL_ONES: Reg :=
    [true, true, true, true, true, true, true, true, true, true, true, true, true, true, true, true]

  /** 0x1021: the bits 12, 5 and 0. */
  const POLYNOMIAL: Reg :=
    [false, false, false, true, false, false, false, false, false, false, true, false, false, false, false, true]

  function Xor(a: Reg, b: Reg): (c: Reg)
    ensures forall i :: 0 <= i < 16 ==> c[i] == (a[i] != b[i])
  {
    seq(16, i requires 0 <= i < 16 => a[i] != b[i])
  }

  /** (r << 1) & 0xFFFF. */
  function ShiftLeft(r: Reg): Reg
  {
    r[1..] + [false]
  }

  /** The bits of `bits` from position `k` on, at the top of a register. */
  function Aligned(bits: Bits, k: nat): (r: Reg)
    ensures forall i :: 0 <= i < 16 ==> r[i] == (i + k < |bits| && bits[i + k])
  {
    seq(16, i requires 0 <= i => i + k < |bits| && bits[i + k])
  }

  // ---------------------------------------------------------------- numbers

  /** The unsigned number written by a bit string, most significant bit first. */
  function Value(bits: Bits): nat
  {
    if bits == [] then 0
    else 2 * Value(bits[..|bits| - 1]) + if bits[|bits| - 1] then 1 else 0
  }

  /** The low `width` bits of a number. */
  function BitsOf(n: nat, width: nat): (bits: Bits)
    ensures |bits| == width
  {
    if width == 0 then [] else BitsOf(n / 2, width - 1) + [n % 2 == 1]
  }

  function Pow2(n: nat): nat
  {
    if n == 0 then 1 else 2 * Pow2(n - 1)
  }

  lemma {:induction false} ValueOfBits(n: nat, width: nat)
    requires n < Pow2(width)
    ensures Value(BitsOf(n, width)) == n
  {
    if width > 0 {
      ValueOfBits(n / 2, width - 1);
      assert BitsOf(n, width)[..width - 1] == BitsOf(n / 2, width - 1);
    }
  }

  lemma {:induction false} BitsOfValue(bits: Bits)
    ensures Value(bits) < Pow2(|bits|)
    ensures BitsOf(Value(bits), |bits|) == bits
  {
    if bits != [] {
      BitsOfValue(bits[..|bits| - 1]);
      assert bits == bits[..|bits| - 1] + [bits[|bits| - 1]];
    }
  }

  lemma Powers()
    ensures Pow2(8) == 256 && Pow2(16) == 0x1_0000
  {
    assert Pow2(4) == 16;
    assert Pow2(8) == 256;
    assert Pow2(12) == 4096;
  }

  lemma {:induction false} SplitBits(hi: nat, lo: nat, k: nat)
    requires lo < Pow2(k)
    ensures BitsOf(hi * Pow2(k) + lo, 8 + k) == BitsOf(hi, 8) + BitsOf(lo, k)
  {
    if k == 0 {
      assert hi * Pow2(k) + lo == hi;
      assert BitsOf(hi, 8) + BitsOf(lo, k) == BitsOf(hi, 8);
    } else {
      var p := Pow2(k - 1);
      var q := hi * p;
      assert hi * Pow2(k) == 2 * q;
      assert (2 * q + lo) / 2 == q + lo / 2;
      assert (2 * q + lo) % 2 == lo % 2;
      SplitBits(hi, lo / 2, k - 1);
      assert BitsOf(hi, 8) + BitsOf(lo / 2, k - 1) + [lo % 2 == 1] == BitsOf(hi, 8) + BitsOf(lo, k);
    }
  }

  /** Two bytes, high byte first, hold the sixteen bits of their big-endian value. */
  lemma WordBits(hi: byte, lo: byte)
    ensures BitsOf(256 * (hi as int) + lo, 16) == BitsOf(hi, 8) + BitsOf(lo, 8)
  {
    Powers();
    SplitBits(hi, lo, 8);
  }

  // ---------------------------------------------------------------- the checksum

  /** One pass of the inner loop. */
  function Step(r: Reg): Reg
  {
    if r[0] then Xor(ShiftLeft(r), POLYNOMIAL) else ShiftLeft(r)
  }

  function Steps(r: Reg, n: nat): Reg
  {
    if n == 0 then r else Step(Steps(r, n - 1))
  }

  function ByteBits(b: byte): (bits: Bits)
    ensures |bits| == 8
  {
    BitsOf(b, 8)
  }

  /** The register after the first `n` bytes of the message. */
  function FeedBytes(r: Reg, data: bytes, n: nat): Reg
    requires n <= |data|
  {
    if n == 0 then r
    else Steps(Xor(FeedBytes(r, data, n - 1), Aligned(ByteBits(data[n - 1]), 0)), 8)
  }

  /** The checksum as a function of the whole message. */
  function Crc(data: bytes): u16
  {
    var r := Xor(FeedBytes(ALL_ONES, data, |data|), ALL_ONES);
    BitsOfValue(r);
    Powers();
    Value(r)
  }

  // ---------------------------------------------------------------- one step

  lemma StepLinear(a: Reg, b: Reg)
    ensures Step(Xor(a, b)) == Xor(Step(a), Step(b))
  {}

  lemma StepInjective(a: Reg, b: Reg)
    requires Step(a) == Step(b)
    ensures a == b
  {
    assert Step(a)[15] == a[0] && Step(b)[15] == b[0];
    forall i | 0 <= i < 16
      ensures a[i] == b[i]
    {
      if i > 0 {
        assert ShiftLeft(a)[i - 1] == a[i] && ShiftLeft(b)[i - 1] == b[i];
        assert Step(a)[i - 1] == Step(b)[i - 1];
      }
    }
  }

  // ---------------------------------------------------------------- bit by bit

  /** A single bit in the top position. */
  function TopBit(bit: bool): (r: Reg)
    ensures r[0] == bit && forall i :: 1 <= i < 16 ==> !r[i]
  {
    ZERO[0 := bit]
  }

  /** The register after one message bit. */
  function FeedBit(r: Reg, bit: bool): Reg
  {
    Step(Xor(r, TopBit(bit)))
  }

  /** The message bits in the order in which the register takes them. */
  function BitAt(data: bytes, j: nat): bool
    requires j < 8 * |data|
  {
    ByteBits(data[j / 8])[j % 8]
  }

  /** The register after the first `n` bits of the message. */
  function FeedBits(r: Reg, data: bytes, n: nat): Reg
    requires n <= 8 * |data|
  {
    if n == 0 then r else FeedBit(FeedBits(r, data, n - 1), BitAt(data, n - 1))
  }

  /** Whatever waits below the top bit is shifted up untouched. */
  lemma FeedAheadOfRest(r: Reg, bits: Bits, k: nat)
    requires k < |bits| <= 16
    ensures Step(Xor(r, Aligned(bits, k))) == Xor(FeedBit(r, bits[k]), Aligned(bits, k + 1))
  {
    var top, rest := TopBit(bits[k]), Aligned(bits, k)[0 := false];
    assert Xor(r, Aligned(bits, k)) == Xor(Xor(r, top), rest);
    StepLinear(Xor(r, top), rest);
    assert Step(rest) == Aligned(bits, k + 1);
  }

  lemma {:induction false} ByteIsEightBits(r: Reg, data: bytes, m: nat, k: nat)
    requires m < |data| && k <= 8
    ensures Steps(Xor(FeedBits(r, data, 8 * m), Aligned(ByteBits(data[m]), 0)), k)
         == Xor(FeedBits(r, data, 8 * m + k), Aligned(ByteBits(data[m]), k))
  {
    hide Step, FeedBit, BitsOf, ByteBits, TopBit;
    if k > 0 {
      ByteIsEightBits(r, data, m, k - 1);
      assert BitAt(data, 8 * m + k - 1) == ByteBits(data[m])[k - 1] by {
        assert (8 * m + k - 1) / 8 == m && (8 * m + k - 1) % 8 == k - 1;
      }
      FeedAheadOfRest(FeedBits(r, data, 8 * m + k - 1), ByteBits(data[m]), k - 1);
    }
  }

  /** The byte-wise loops of the source compute the bit-serial register. */
  lemma {:induction false} FeedIsBitSerial(r: Reg, data: bytes, n: nat)
    requires n <= |data|
    ensures FeedBytes(r, data, n) == FeedBits(r, data, 8 * n)
  {
    hide Step, FeedBit, BitsOf, ByteBits;
    if n > 0 {
      FeedIsBitSerial(r, data, n - 1);
      ByteIsEightBits(r, data, n - 1, 8);
      var reg := FeedBits(r, data, 8 * n);
      assert Xor(reg, Aligned(ByteBits(data[n - 1]), 8)) == reg;
    }
  }

  lemma {:induction false} FeedBytesPrefix(r: Reg, data: bytes, m: nat, n: nat)
    requires n <= m <= |data|
    ensures FeedBytes(r, data[..m], n) == FeedBytes(r, data, n)
  {
    if n > 0 {
      FeedBytesPrefix(r, data, m, n - 1);
    }
  }

  // ---------------------------------------------------------------- two messages at once

  /** The difference of the two registers, driven by the differences of the bits alone. */
  function Difference(a: bytes, b: bytes, n: nat): Reg
    requires |a| == |b| && n <= 8 * |a|
  {
    if n == 0 then ZERO
    else FeedBit(Difference(a, b, n - 1), BitAt(a, n - 1) != BitAt(b, n - 1))
  }

  lemma {:induction false} DifferenceOfRegisters(r: Reg, a: bytes, b: bytes, n: nat)
    requires |a| == |b| && n <= 8 * |a|
    ensures Difference(a, b, n) == Xor(FeedBits(r, a, n), FeedBits(r, b, n))
  {
    hide BitAt, Step;
    if n > 0 {
      DifferenceOfRegisters(r, a, b, n - 1);
      var x, y := BitAt(a, n - 1), BitAt(b, n - 1);
      var fa, fb := FeedBits(r, a, n - 1), FeedBits(r, b, n - 1);
      assert Xor(Xor(fa, fb), TopBit(x != y)) == Xor(Xor(fa, TopBit(x)), Xor(fb, TopBit(y)));
      StepLinear(Xor(fa, TopBit(x)), Xor(fb, TopBit(y)));
    }
  }

  /** Equal so far: no difference. */
  lemma {:induction false} NoDifferenceYet(a: bytes, b: bytes, n: nat)
    requires |a| == |b| && n <= 8 * |a|
    requires forall i :: 0 <= i < n ==> BitAt(a, i) == BitAt(b, i)
    ensures Difference(a, b, n) == ZERO
  {
    hide BitAt;
    if n > 0 {
      NoDifferenceYet(a, b, n - 1);
      assert Xor(ZERO, TopBit(false)) == ZERO;
      assert Step(ZERO) == ZERO;
    }
  }

  /** A one in the register moves up by one place, or the polynomial leaves one at the bottom. */
  lemma OneStays(d: Reg, s: nat, bit: bool) returns (t: nat)
    requires 1 <= s < 16 && d[s]
    ensures s - 1 <= t < 16 && FeedBit(d, bit)[t]
  {
    var x := Xor(d, TopBit(bit));
    t := if x[0] then 15 else s - 1;
    assert ShiftLeft(x)[s - 1];
  }

  /**
   * For sixteen bits after the first difference, a one stays in the low part of the
   * difference register: no choice of the following bits can reach it in time.
   */
  lemma {:induction false} DifferenceSurvives(a: bytes, b: bytes, first: nat, n: nat) returns (t: nat)
    requires |a| == |b| && first < n <= 8 * |a| && n <= first + 16
    requires forall i :: 0 <= i < first ==> BitAt(a, i) == BitAt(b, i)
    requires BitAt(a, first) != BitAt(b, first)
    ensures 16 - (n - first) <= t < 16 && Difference(a, b, n)[t]
    decreases n
  {
    hide FeedBit;
    if n == first + 1 {
      NoDifferenceYet(a, b, first);
      FirstOne();
      t := 15;
    } else {
      var s := DifferenceSurvives(a, b, first, n - 1);
      t := OneStays(Difference(a, b, n - 1), s, BitAt(a, n - 1) != BitAt(b, n - 1));
    }
  }

  lemma FirstOne()
    ensures FeedBit(ZERO, true)[15]
  {
    assert Xor(ZERO, TopBit(true))[0];
  }

  lemma NonzeroStays(d: Reg)
    requires d != ZERO
    ensures FeedBit(d, false) != ZERO
  {
    assert Xor(d, TopBit(false)) == d;
    assert Step(ZERO) == ZERO;
    if Step(d) == Step(ZERO) {
      StepInjective(d, ZERO);
    }
  }

  lemma {:induction false} DifferencePersists(a: bytes, b: bytes, from: nat, n: nat)
    requires |a| == |b| && from <= n <= 8 * |a|
    requires Difference(a, b, from) != ZERO
    requires forall i :: from <= i < n ==> BitAt(a, i) == BitAt(b, i)
    ensures Difference(a, b, n) != ZERO
    decreases n
  {
    hide FeedBit;
    if from < n {
      DifferencePersists(a, b, from, n - 1);
      NonzeroStays(Difference(a, b, n - 1));
    }
  }

  /** The messages agree at every bit outside sixteen adjacent positions. */
  ghost predicate WithinBurst(a: bytes, b: bytes, from: nat)
  {
    |a| == |b|
    && forall i :: 0 <= i < 8 * |a| && !(from <= i < from + 16) ==> BitAt(a, i) == BitAt(b, i)
  }

  /** A message followed by its checksum. */
  predicate Sealed(m: bytes)
    requires |m| >= 2
  {
    Crc(m[..|m| - 2]) == FromBytes(m[|m| - 2..])
  }

  lemma CrcOfPrefix(m: bytes, k: nat)
    requires k <= |m|
    ensures Crc(m[..k]) == Value(Xor(FeedBits(ALL_ONES, m, 8 * k), ALL_ONES))
  {
    hide FeedBits, Steps, Step;
    FeedBytesPrefix(ALL_ONES, m, k, k);
    FeedIsBitSerial(ALL_ONES, m, k);
  }

  lemma ValueDeterminesWord(r: Reg, hi: byte, lo: byte)
    requires Value(r) == 256 * (hi as int) + lo
    ensures ByteBits(hi) + ByteBits(lo) == r
  {
    hide BitsOf, Value;
    BitsOfValue(r);
    WordBits(hi, lo);
  }

  /** The register that the source compares with the trailer, bit for bit. */
  lemma {:induction false} SealedTrailerBits(m: bytes)
    requires |m| >= 2 && Sealed(m)
    ensures ByteBits(m[|m| - 2]) + ByteBits(m[|m| - 1])
         == Xor(FeedBits(ALL_ONES, m, 8 * (|m| - 2)), ALL_ONES)
  {
    hide FeedBits, Crc, ByteBits, Value;
    var k := |m| - 2;
    CrcOfPrefix(m, k);
    FromBytes2(m[k..]);
    ValueDeterminesWord(Xor(FeedBits(ALL_ONES, m, 8 * k), ALL_ONES), m[k], m[k + 1]);
  }

  /** The trailer of a sealed message holds the inverted register. */
  lemma {:induction false} SealedTrailer(m: bytes, t: nat)
    requires |m| >= 2 && Sealed(m) && t < 16
    ensures BitAt(m, 8 * (|m| - 2) + t) == !FeedBits(ALL_ONES, m, 8 * (|m| - 2))[t]
  {
    hide Sealed, FeedBits, ByteBits;
    SealedTrailerBits(m);
    var k := |m| - 2;
    if t < 8 {
      assert (8 * k + t) / 8 == k && (8 * k + t) % 8 == t;
    } else {
      assert (8 * k + t) / 8 == k + 1 && (8 * k + t) % 8 == t - 8;
    }
  }

  /** Feeding a register its own bits empties it from the top. */
  lemma OwnBitsCancel(d: Reg, k: nat)
    requires k < 16
    ensures FeedBit(Aligned(d, k), d[k]) == Aligned(d, k + 1)
  {
    var x := Xor(Aligned(d, k), TopBit(d[k]));
    assert !x[0];
    assert ShiftLeft(x) == Aligned(d, k + 1);
  }

  /** Over the trailers of two sealed messages the difference register empties. */
  lemma {:induction false} SealedDifference(a: bytes, b: bytes, t: nat)
    requires |a| == |b| >= 2 && Sealed(a) && Sealed(b) && t <= 16
    ensures Difference(a, b, 8 * (|a| - 2) + t) == Aligned(Difference(a, b, 8 * (|a| - 2)), t)
  {
    hide BitAt, Sealed, FeedBit;
    var n := 8 * (|a| - 2);
    var d := Difference(a, b, n);
    if t == 0 {
      assert Aligned(d, 0) == d;
    } else {
      SealedDifference(a, b, t - 1);
      SealedTrailer(a, t - 1);
      SealedTrailer(b, t - 1);
      DifferenceOfRegisters(ALL_ONES, a, b, n);
      OwnBitsCancel(d, t - 1);
    }
  }

  lemma {:induction false} SealedDifferenceIsZero(a: bytes, b: bytes)
    requires |a| == |b| >= 2 && Sealed(a) && Sealed(b)
    ensures Difference(a, b, 8 * |a|) == ZERO
  {
    hide Sealed, Difference;
    SealedDifference(a, b, 16);
    assert Aligned(Difference(a, b, 8 * |a| - 16), 16) == ZERO;
  }

  lemma FirstDifference(a: bytes, b: bytes, n: nat) returns (first: nat)
    requires |a| == |b| && n <= 8 * |a|
    requires exists i :: 0 <= i < n && BitAt(a, i) != BitAt(b, i)
    ensures first < n && BitAt(a, first) != BitAt(b, first)
    ensures forall i :: 0 <= i < first ==> BitAt(a, i) == BitAt(b, i)
  {
    first := 0;
    while BitAt(a, first) == BitAt(b, first)
      invariant first < n
      invariant forall i :: 0 <= i < first ==> BitAt(a, i) == BitAt(b, i)
      decreases n - first
    {
      first := first + 1;
      if first == n {
        assert false;
      }
    }
  }

  lemma ByteBitsInjective(x: byte, y: byte)
    requires ByteBits(x) == ByteBits(y)
    ensures x == y
  {
    Powers();
    ValueOfBits(x, 8);
    ValueOfBits(y, 8);
  }

  /** Different bytes differ in some bit. */
  lemma DifferentBits(a: bytes, b: bytes)
    requires |a| == |b| && a != b
    ensures exists i :: 0 <= i < 8 * |a| && BitAt(a, i) != BitAt(b, i)
  {
    var p :| 0 <= p < |a| && a[p] != b[p];
    if ByteBits(a[p]) == ByteBits(b[p]) {
      ByteBitsInjective(a[p], b[p]);
    }
    var k :| 0 <= k < 8 && ByteBits(a[p])[k] != ByteBits(b[p])[k];
    assert (8 * p + k) / 8 == p && (8 * p + k) % 8 == k;
    assert BitAt(a, 8 * p + k) != BitAt(b, 8 * p + k);
  }

  /**
   * Any error burst of at most sixteen bits is detected, in a message of any length and
   * at any bit offset, including across the border between the data and the checksum.
   */
  lemma BurstDetected(a: bytes, b: bytes, from: nat)
    requires |a| == |b| >= 2 && Sealed(a) && Sealed(b)
    requires WithinBurst(a, b, from)
    ensures a == b
  {
    hide Step, FeedBit, BitAt, Sealed, Crc;
    if a != b {
      var n := 8 * |a|;
      DifferentBits(a, b);
      var first := FirstDifference(a, b, n);
      assert from <= first;
      var end := if first + 16 <= n then first + 16 else n;
      var t := DifferenceSurvives(a, b, first, end);
      SealedDifferenceIsZero(a, b);
      DifferencePersists(a, b, end, n);
    }
  }

  /** Differing in two adjacent bytes is one way of differing in sixteen adjacent bits. */
  lemma AdjacentBytesAreABurst(a: bytes, b: bytes, p: nat)
    requires |a| == |b|
    requires forall i :: 0 <= i < |a| && i != p && i != p + 1 ==> a[i] == b[i]
    ensures WithinBurst(a, b, 8 * p)
  {
    forall i | 0 <= i < 8 * |a| && !(8 * p <= i < 8 * p + 16)
      ensures BitAt(a, i) == BitAt(b, i)
    {
      assert i / 8 != p && i / 8 != p + 1;
    }
  }
}
