/**
 * The checksum in the numbers that the source computes with (crc16_genibus, protocols/base.py),
 * and its constant residue.  The register of Crc16 is the source's number bit for bit.
 */
module CrcNumbers {
  import opened Bytes
  import opened Crc16

  /** a ^ b on numbers. */
  function BitXor(a: nat, b: nat): nat
  {
    if a == 0 && b == 0 then 0 else 2 * BitXor(a / 2, b / 2) + (a + b) % 2
  }

  /** One pass of the inner loop. */
  function ShiftStep(crc: nat): nat
  {
    if crc / 0x8000 % 2 == 1 then BitXor(2 * crc, 0x1021) % 0x1_0000 else 2 * crc % 0x1_0000
  }

  function ShiftSteps(crc: nat, n: nat): nat
  {
    if n == 0 then crc else ShiftStep(ShiftSteps(crc, n - 1))
  }

  /** The source's `crc` after the whole message. */
  function Remainder(data: bytes): nat
  {
    if data == [] then 0xFFFF
    else ShiftSteps(BitXor(Remainder(data[..|data| - 1]), 0x100 * (data[|data| - 1] as int)), 8)
  }

  /** crc16_genibus, loop for loop. */
  method Crc16Genibus(data: bytes) returns (result: u16)
    ensures result == Crc(data)
  {
    hide BitXor, Crc, ShiftStep;
    var crc: nat := 0xFFFF;
    for i := 0 to |data|
      invariant crc == Remainder(data[..i])
    {
      assert data[..i + 1][..i] == data[..i];
      crc := BitXor(crc, 0x100 * (data[i] as int));
      ghost var start := crc;
      for k := 0 to 8
        invariant crc == ShiftSteps(start, k)
      {
        crc := NextShift(crc);
      }
    }
    assert data[..|data|] == data;
    CrcIsRemainder(data);
    result := BitXor(crc, 0xFFFF);
  }

  /** The body of the inner loop. */
  method NextShift(crc: nat) returns (r: nat)
    ensures r == ShiftStep(crc)
  {
    hide BitXor;
    r := if crc / 0x8000 % 2 == 1 then BitXor(2 * crc, 0x1021) % 0x1_0000 else 2 * crc % 0x1_0000;
  }

  // ---------------------------------------------------------------- registers as numbers

  lemma ValueSnoc(bits: Bits)
    requires bits != []
    ensures Value(bits) == 2 * Value(bits[..|bits| - 1]) + if bits[|bits| - 1] then 1 else 0
  {}

  lemma BitXorSnoc(a: nat, b: nat, x: nat, y: nat)
    requires x < 2 && y < 2
    ensures BitXor(2 * a + x, 2 * b + y) == 2 * BitXor(a, b) + (x + y) % 2
  {
    assert (2 * a + x) / 2 == a && (2 * b + y) / 2 == b;
    assert (2 * a + x + (2 * b + y)) % 2 == (x + y) % 2;
  }

  lemma {:induction false} BitXorOfValues(a: Bits, b: Bits, c: Bits)
    requires |a| == |b| == |c| && forall i :: 0 <= i < |a| ==> c[i] == (a[i] != b[i])
    ensures Value(c) == BitXor(Value(a), Value(b))
  {
    if a != [] {
      var n := |a| - 1;
      BitXorOfValues(a[..n], b[..n], c[..n]);
      ValueSnoc(a);
      ValueSnoc(b);
      ValueSnoc(c);
      BitXorSnoc(Value(a[..n]), Value(b[..n]), if a[n] then 1 else 0, if b[n] then 1 else 0);
    }
  }

  lemma {:induction false} ValueOfConcat(a: Bits, b: Bits)
    ensures Value(a + b) == Value(a) * Pow2(|b|) + Value(b)
  {
    if b == [] {
      assert a + b == a;
    } else {
      var n := |b| - 1;
      ValueOfConcat(a, b[..n]);
      assert (a + b)[..|a + b| - 1] == a + b[..n];
      assert Value(a) * Pow2(|b|) == 2 * (Value(a) * Pow2(n));
    }
  }

  lemma OneBit(bits: Bits)
    requires |bits| == 1
    ensures Value(bits) == if bits[0] then 1 else 0
  {
    assert bits[..0] == [];
  }

  /** The top bit, and what the shift makes of the number. */
  lemma {:induction false} TopOfValue(r: Reg)
    ensures Value(r) < 0x1_0000 && (r[0] <==> Value(r) >= 0x8000) && (r[0] <==> Value(r) / 0x8000 % 2 == 1)
    ensures Value(ShiftLeft(r)) == 2 * Value(r) - if r[0] then 0x1_0000 else 0
  {
    hide Value, BitsOf;
    Powers();
    assert Pow2(16) == 2 * Pow2(15);
    BitsOfValue(r[1..]);
    ValueOfConcat(r[..1], r[1..]);
    ValueOfConcat(r[1..], [false]);
    assert r[..1] + r[1..] == r;
    OneBit(r[..1]);
    OneBit([false]);
    assert Pow2(1) == 2 * Pow2(0);
  }

  lemma Nibble(s: Bits)
    requires |s| == 4
    ensures Value(s) == (if s[0] then 8 else 0) + (if s[1] then 4 else 0) + (if s[2] then 2 else 0) + if s[3] then 1 else 0
  {
    hide Value;
    assert s[..3][..2] == s[..2] && s[..2][..1] == s[..1];
    ValueSnoc(s);
    ValueSnoc(s[..3]);
    ValueSnoc(s[..2]);
    OneBit(s[..1]);
  }

  lemma Word(r: Reg)
    ensures Value(r) == 0x1000 * Value(r[..4]) + 0x100 * Value(r[4..8]) + 0x10 * Value(r[8..12]) + Value(r[12..])
  {
    hide Value;
    Powers();
    assert Pow2(4) == 16 && Pow2(12) == 4096;
    assert r == r[..4] + r[4..] && r[4..] == r[4..8] + r[8..] && r[8..] == r[8..12] + r[12..];
    ValueOfConcat(r[..4], r[4..]);
    ValueOfConcat(r[4..8], r[8..]);
    ValueOfConcat(r[8..12], r[12..]);
  }

  lemma Nibbles(r: Reg, a: nat, b: nat, c: nat, d: nat)
    requires Value(r[..4]) == a && Value(r[4..8]) == b && Value(r[8..12]) == c && Value(r[12..]) == d
    ensures Value(r) == 0x1000 * a + 0x100 * b + 0x10 * c + d
  {
    hide Value;
    Word(r);
  }

  lemma Constants()
    ensures Value(POLYNOMIAL) == 0x1021 && Value(ALL_ONES) == 0xFFFF
  {
    hide Value;
    var p, q := POLYNOMIAL, ALL_ONES;
    Nibble(p[..4]);
    Nibble(p[4..8]);
    Nibble(p[8..12]);
    Nibble(p[12..]);
    Nibble(q[..4]);
    Nibble(q[4..8]);
    Nibble(q[8..12]);
    Nibble(q[12..]);
    Nibbles(p, 1, 0, 2, 1);
    Nibbles(q, 15, 15, 15, 15);
  }

  lemma XorIsBitXor(a: Reg, b: Reg)
    ensures Value(Xor(a, b)) == BitXor(Value(a), Value(b))
  {
    BitXorOfValues(a, b, Xor(a, b));
  }

  /** With the bit that the shift moves out still in front: exclusive-or leaves it alone. */
  lemma MaskedXor(r: Reg)
    requires r[0]
    ensures BitXor(2 * Value(r), 0x1021) % 0x1_0000 == BitXor(Value(ShiftLeft(r)), 0x1021)
  {
    hide Value, BitXor, BitsOf;
    var wide, poly := r + [false], [false] + POLYNOMIAL;
    var x := Xor(ShiftLeft(r), POLYNOMIAL);
    var sum := [true] + x;
    Powers();
    Constants();
    assert Pow2(1) == 2 * Pow2(0);
    OneBit([false]);
    OneBit([true]);
    ValueOfConcat(r, [false]);
    ValueOfConcat([false], POLYNOMIAL);
    ValueOfConcat([true], x);
    BitsOfValue(x);
    BitXorOfValues(wide, poly, sum);
    XorIsBitXor(ShiftLeft(r), POLYNOMIAL);
  }

  /** One step of the register is the source's `((crc << 1) ^ 0x1021) & 0xFFFF`, or the shift alone. */
  lemma StepIsSource(r: Reg)
    ensures Value(Step(r)) == if Value(r) >= 0x8000 then BitXor(2 * Value(r), 0x1021) % 0x1_0000
                              else 2 * Value(r) % 0x1_0000
    ensures Value(Step(r)) == ShiftStep(Value(r))
  {
    hide Value, BitXor;
    TopOfValue(r);
    if r[0] {
      XorIsBitXor(ShiftLeft(r), POLYNOMIAL);
      Constants();
      MaskedXor(r);
    }
  }

  lemma {:induction false} StepsAreSource(r: Reg, n: nat)
    ensures Value(Steps(r, n)) == ShiftSteps(Value(r), n)
  {
    hide Step, ShiftStep, Value;
    if n > 0 {
      StepsAreSource(r, n - 1);
      StepIsSource(Steps(r, n - 1));
    }
  }

  lemma {:induction false} Zeros(width: nat)
    ensures forall i :: 0 <= i < width ==> !BitsOf(0, width)[i]
  {
    if width > 0 {
      Zeros(width - 1);
    }
  }

  lemma AlignedByte(b: byte)
    ensures Value(Aligned(ByteBits(b), 0)) == 0x100 * (b as int)
  {
    hide BitsOf, Value;
    Powers();
    ValueOfBits(b, 8);
    ValueOfBits(0, 8);
    Zeros(8);
    ValueOfConcat(ByteBits(b), BitsOf(0, 8));
    assert Aligned(ByteBits(b), 0) == ByteBits(b) + BitsOf(0, 8);
  }

  /** The register is the source's number after every byte. */
  lemma {:induction false} RegisterIsRemainder(data: bytes, n: nat)
    requires n <= |data|
    ensures Value(FeedBytes(ALL_ONES, data, n)) == Remainder(data[..n])
  {
    hide Step, Steps, Value, BitXor, ShiftSteps, ByteBits;
    if n == 0 {
      Constants();
    } else {
      RegisterIsRemainder(data, n - 1);
      assert data[..n][..n - 1] == data[..n - 1];
      var r := FeedBytes(ALL_ONES, data, n - 1);
      var x := Aligned(ByteBits(data[n - 1]), 0);
      XorIsBitXor(r, x);
      AlignedByte(data[n - 1]);
      StepsAreSource(Xor(r, x), 8);
    }
  }

  /** The checksum in the source's numbers: preset 0xFFFF, polynomial 0x1021, inverted at the end. */
  lemma CrcIsRemainder(data: bytes)
    ensures Crc(data) == BitXor(Remainder(data), 0xFFFF)
  {
    hide FeedBytes, Value, BitXor, Remainder;
    RegisterIsRemainder(data, |data|);
    assert data[..|data|] == data;
    Constants();
    XorIsBitXor(FeedBytes(ALL_ONES, data, |data|), ALL_ONES);
  }

  // ---------------------------------------------------------------- the residue

  lemma {:induction false} StepsInjective(a: Reg, b: Reg, n: nat)
    requires Steps(a, n) == Steps(b, n)
    ensures a == b
  {
    hide Step;
    if n > 0 {
      StepInjective(Steps(a, n - 1), Steps(b, n - 1));
      StepsInjective(a, b, n - 1);
    }
  }

  /** The trailer as the register takes it: sixteen steps after adding it all at once. */
  lemma {:induction false} TrailerAtOnce(m: bytes, k: nat, n: nat)
    requires k + 2 == |m| && n <= 16
    ensures Steps(Xor(FeedBits(ALL_ONES, m, 8 * k), ByteBits(m[k]) + ByteBits(m[k + 1])), n)
         == Xor(FeedBits(ALL_ONES, m, 8 * k + n), Aligned(ByteBits(m[k]) + ByteBits(m[k + 1]), n))
  {
    hide Step, FeedBit, BitsOf, ByteBits, TopBit;
    var w := ByteBits(m[k]) + ByteBits(m[k + 1]);
    if n == 0 {
      assert Aligned(w, 0) == w;
    } else {
      TrailerAtOnce(m, k, n - 1);
      TrailerBit(m, k, n - 1);
      FeedAheadOfRest(FeedBits(ALL_ONES, m, 8 * k + n - 1), w, n - 1);
    }
  }

  lemma TrailerBit(m: bytes, k: nat, n: nat)
    requires k + 2 == |m| && n < 16
    ensures BitAt(m, 8 * k + n) == (ByteBits(m[k]) + ByteBits(m[k + 1]))[n]
  {
    hide ByteBits;
    if n < 8 {
      assert (8 * k + n) / 8 == k && (8 * k + n) % 8 == n;
    } else {
      assert (8 * k + n) / 8 == k + 1 && (8 * k + n) % 8 == n - 8;
    }
  }

  lemma SealedIff(m: bytes)
    requires |m| >= 2
    ensures Sealed(m)
       <==> Xor(FeedBits(ALL_ONES, m, 8 * (|m| - 2)), ByteBits(m[|m| - 2]) + ByteBits(m[|m| - 1])) == ALL_ONES
  {
    hide FeedBits, Crc, ByteBits, Value, BitsOf;
    var k := |m| - 2;
    var r := FeedBits(ALL_ONES, m, 8 * k);
    var w := ByteBits(m[k]) + ByteBits(m[k + 1]);
    CrcOfPrefix(m, k);
    FromBytes2(m[k..]);
    WordValue(m[k], m[k + 1]);
    if Xor(r, w) == ALL_ONES {
      assert w == Xor(r, ALL_ONES);
    }
    if Sealed(m) {
      SealedTrailerBits(m);
    }
  }

  lemma WordValue(hi: byte, lo: byte)
    ensures Value(ByteBits(hi) + ByteBits(lo)) == 0x100 * (hi as int) + lo
  {
    hide Value, BitsOf;
    Powers();
    WordBits(hi, lo);
    ValueOfBits(0x100 * (hi as int) + lo, 16);
  }

  lemma XorAboveTwo(a: nat, b: nat)
    ensures BitXor(a, 4 * b) == 4 * BitXor(a / 4, b) + a % 4
  {
    hide BitXor;
    BitXorSnoc(a / 2, 2 * b, a % 2, 0);
    BitXorSnoc(a / 4, b, a / 2 % 2, 0);
    assert a / 2 == 2 * (a / 4) + a / 2 % 2;
  }

  lemma XorAboveFour(a: nat, b: nat)
    ensures BitXor(a, 16 * b) == 16 * BitXor(a / 16, b) + a % 16
  {
    hide BitXor;
    XorAboveTwo(a, 4 * b);
    XorAboveTwo(a / 4, b);
    assert a / 4 / 4 == a / 16;
  }

  lemma XorAboveSix(a: nat, b: nat)
    ensures BitXor(a, 64 * b) == 64 * BitXor(a / 64, b) + a % 64
  {
    hide BitXor;
    XorAboveTwo(a, 16 * b);
    XorAboveFour(a / 4, b);
    assert a / 4 / 16 == a / 64;
  }

  lemma {:induction false} BitXorOfZero(n: nat)
    ensures BitXor(n, 0) == n
  {
    if n != 0 {
      BitXorOfZero(n / 2);
    }
  }

  lemma BitXorOfOne(n: nat)
    ensures BitXor(n, 1) == if n % 2 == 1 then n - 1 else n + 1
  {
    BitXorOfZero(n / 2);
    BitXorSnoc(n / 2, 0, n % 2, 1);
  }

  /** The three bits of the polynomial, one by one. */
  lemma {:induction false} XorWithPolynomial(a: nat)
    ensures BitXor(a, 0x1021)
         == a + (if a / 0x1000 % 2 == 1 then -0x1000 else 0x1000) + (if a / 0x20 % 2 == 1 then -0x20 else 0x20)
              + (if a % 2 == 1 then -1 else 1)
  {
    hide BitXor;
    var b := a / 0x20;
    var c := a / 0x1000;
    BitXorSnoc(a / 2, 0x810, a % 2, 1);
    XorAboveFour(a / 2, 0x81);
    BitXorSnoc(b / 2, 0x40, b % 2, 1);
    XorAboveSix(b / 2, 1);
    BitXorOfOne(c);
    assert a / 2 / 16 == b && b / 2 / 64 == c;
  }

  lemma Shift(n: nat, from: nat, to: nat)
    requires ShiftSteps(0xFFFF, n) == from
    requires to == (if from / 0x8000 % 2 == 0 then 2 * from
                    else 2 * from + (if 2 * from / 0x1000 % 2 == 1 then -0x1000 else 0x1000)
                         + (if 2 * from / 0x20 % 2 == 1 then -0x20 else 0x20) + 1) % 0x1_0000
    ensures ShiftSteps(0xFFFF, n + 1) == to
  {
    hide BitXor;
    XorWithPolynomial(2 * from);
  }

  lemma NoShift()
    ensures ShiftSteps(0xFFFF, 0) == 0xFFFF
  {}

  /** Sixteen steps take 0xFFFF to 0x1D0F. */
  lemma SixteenShifts()
    ensures ShiftSteps(0xFFFF, 16) == 0x1D0F
  {
    hide *;
    NoShift();
    Shift(0, 0xFFFF, 0xEFDF);
    Shift(1, 0xEFDF, 0xCF9F);
    Shift(2, 0xCF9F, 0x8F1F);
    Shift(3, 0x8F1F, 0x0E1F);
    Shift(4, 0x0E1F, 0x1C3E);
    Shift(5, 0x1C3E, 0x387C);
    Shift(6, 0x387C, 0x70F8);
    Shift(7, 0x70F8, 0xE1F0);
    Shift(8, 0xE1F0, 0xD3C1);
    Shift(9, 0xD3C1, 0xB7A3);
    Shift(10, 0xB7A3, 0x7F67);
    Shift(11, 0x7F67, 0xFECE);
    Shift(12, 0xFECE, 0xEDBD);
    Shift(13, 0xEDBD, 0xCB5B);
    Shift(14, 0xCB5B, 0x8697);
    Shift(15, 0x8697, 0x1D0F);
  }

  lemma ResidueOfOnes()
    ensures Value(Steps(ALL_ONES, 16)) == 0x1D0F
  {
    hide Value, Steps, ShiftSteps;
    Constants();
    StepsAreSource(ALL_ONES, 16);
    SixteenShifts();
  }

  /** A message with its checksum behind it leaves the register at 0x1D0F, and no other message does. */
  lemma {:induction false} ResidueIsConstant(m: bytes)
    requires |m| >= 2
    ensures Sealed(m) <==> Value(FeedBytes(ALL_ONES, m, |m|)) == 0x1D0F
    ensures Sealed(m) <==> Remainder(m) == 0x1D0F
  {
    hide Step, FeedBytes, FeedBits, FeedBit, Steps, ByteBits, Value, Sealed, Crc, Remainder, BitsOf;
    var k := |m| - 2;
    var w := ByteBits(m[k]) + ByteBits(m[k + 1]);
    var x := Xor(FeedBits(ALL_ONES, m, 8 * k), w);
    SealedIff(m);
    TrailerAtOnce(m, k, 16);
    FeedIsBitSerial(ALL_ONES, m, |m|);
    var end := FeedBits(ALL_ONES, m, 8 * k + 16);
    assert Xor(end, Aligned(w, 16)) == end;
    ResidueOfOnes();
    RegisterIsRemainder(m, |m|);
    assert m[..|m|] == m;
    if Value(end) == 0x1D0F {
      BitsOfValue(end);
      BitsOfValue(Steps(ALL_ONES, 16));
      StepsInjective(x, ALL_ONES, 16);
    }
  }
}
