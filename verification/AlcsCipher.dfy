/**
 * ALCS payload encryption (protocols/alcs_experimental.py): cipher block chaining as in
 * section 6.2 of NIST SP 800-38A with the padding of section 6.3 of RFC 5652, except that
 * the chain is restarted from the initial vector for the last, padded block.
 *
 * The block cipher is any pair of functions that undo each other under the key in use.
 */
module AlcsCipher {
  import opened Bytes
  import opened Crc16
  import CrcNumbers

  type Block = b: bytes | |b| == 16 witness [0, 0, 0, 0, 0, 0, 0, 0, 0, 0, 0, 0, 0, 0, 0, 0]

  /** One direction of a block cipher: key, block. */
  type BlockFunction = (bytes, Block) -> Block

  /** b"a1b1c1d1e1f1g1h1". */
  const IV: Block :=
    [0x61, 0x31, 0x62, 0x31, 0x63, 0x31, 0x64, 0x31, 0x65, 0x31, 0x66, 0x31, 0x67, 0x31, 0x68, 0x31]

  ghost predicate Inverse(enc: BlockFunction, dec: BlockFunction, key: bytes)
  {
    forall b: Block :: dec(key, enc(key, b)) == b && enc(key, dec(key, b)) == b
  }

  // ---------------------------------------------------------------- exclusive-or

  function XorByte(a: byte, b: byte): byte
  {
    var bits := XorBits(ByteBits(a), ByteBits(b));
    BitsOfValue(bits);
    Powers();
    Value(bits)
  }

  function XorBits(a: Bits, b: Bits): (c: Bits)
    requires |a| == |b|
    ensures |c| == |a| && forall i :: 0 <= i < |a| ==> c[i] == (a[i] != b[i])
  {
    seq(|a|, i requires 0 <= i < |a| => a[i] != b[i])
  }

  lemma XorByteTwice(a: byte, b: byte)
    ensures XorByte(XorByte(a, b), b) == a
  {
    var bits := XorBits(ByteBits(a), ByteBits(b));
    BitsOfValue(bits);
    assert ByteBits(XorByte(a, b)) == bits;
    assert XorBits(bits, ByteBits(b)) == ByteBits(a);
    Powers();
    ValueOfBits(a, 8);
  }

  function XorBlock(a: Block, b: Block): (c: Block)
    ensures forall i :: 0 <= i < 16 ==> c[i] == XorByte(a[i], b[i])
  {
    seq(16, i requires 0 <= i < 16 => XorByte(a[i], b[i]))
  }

  lemma XorBlockTwice(a: Block, b: Block)
    ensures XorBlock(XorBlock(a, b), b) == a
  {
    hide XorByte;
    forall i | 0 <= i < 16
      ensures XorBlock(XorBlock(a, b), b)[i] == a[i]
    {
      XorByteTwice(a[i], b[i]);
    }
  }

  // ---------------------------------------------------------------- chaining

  function CbcEncrypt(enc: BlockFunction, key: bytes, chain: Block, data: bytes): (c: bytes)
    requires |data| % 16 == 0
    ensures |c| == |data|
    decreases |data|
  {
    if data == [] then []
    else
      var block := enc(key, XorBlock(data[..16], chain));
      block + CbcEncrypt(enc, key, block, data[16..])
  }

  function CbcDecrypt(dec: BlockFunction, key: bytes, chain: Block, data: bytes): (p: bytes)
    requires |data| % 16 == 0
    ensures |p| == |data|
    decreases |data|
  {
    if data == [] then []
    else XorBlock(dec(key, data[..16]), chain) + CbcDecrypt(dec, key, data[..16], data[16..])
  }

  lemma {:induction false} DecryptUndoesEncrypt(enc: BlockFunction, dec: BlockFunction, key: bytes, chain: Block, data: bytes)
    requires |data| % 16 == 0 && Inverse(enc, dec, key)
    ensures CbcDecrypt(dec, key, chain, CbcEncrypt(enc, key, chain, data)) == data
    decreases |data|
  {
    hide XorBlock;
    if data != [] {
      var block := enc(key, XorBlock(data[..16], chain));
      var rest := CbcEncrypt(enc, key, block, data[16..]);
      var c := CbcEncrypt(enc, key, chain, data);
      assert c[..16] == block && c[16..] == rest;
      XorBlockTwice(data[..16], chain);
      DecryptUndoesEncrypt(enc, dec, key, block, data[16..]);
      assert data == data[..16] + data[16..];
    }
  }

  lemma {:induction false} EncryptUndoesDecrypt(enc: BlockFunction, dec: BlockFunction, key: bytes, chain: Block, data: bytes)
    requires |data| % 16 == 0 && Inverse(enc, dec, key)
    ensures CbcEncrypt(enc, key, chain, CbcDecrypt(dec, key, chain, data)) == data
    decreases |data|
  {
    hide XorBlock;
    if data != [] {
      var block: Block := data[..16];
      var plain := XorBlock(dec(key, block), chain);
      var rest := CbcDecrypt(dec, key, block, data[16..]);
      var p := CbcDecrypt(dec, key, chain, data);
      assert p[..16] == plain && p[16..] == rest;
      XorBlockTwice(dec(key, block), chain);
      EncryptUndoesDecrypt(enc, dec, key, block, data[16..]);
      assert data == data[..16] + data[16..];
    }
  }

  // ---------------------------------------------------------------- the payload

  function Padding(n: byte, count: nat): (p: bytes)
    ensures |p| == count && forall i :: 0 <= i < count ==> p[i] == n
  {
    if count == 0 then [] else Padding(n, count - 1) + [n]
  }

  /** The last block before encryption: what is left over, filled up with its own padding length. */
  function Padded(tail: bytes): Block
    requires |tail| < 16
  {
    tail + Padding(16 - |tail|, 16 - |tail|)
  }

  function Encrypt(enc: BlockFunction, payload: bytes, key: bytes): Option<bytes>
  {
    if payload == [] || |key| < 16 then None
    else
      var count := |payload| - |payload| % 16;
      Some(CbcEncrypt(enc, key[..16], IV, payload[..count])
           + CbcEncrypt(enc, key[..16], IV, Padded(payload[count..])))
  }

  /** The padding length that the last byte of a block announces, if the block bears it out. */
  function PaddingLength(last: Block): Option<nat>
  {
    var n := last[15];
    if 1 <= n <= 16 && last[16 - n..] == Padding(n, n) then Some(n) else None
  }

  function Decrypt(dec: BlockFunction, payload: bytes, key: bytes): Option<bytes>
  {
    if payload == [] || |payload| % 16 != 0 || |key| < 16 then None
    else
      var split := |payload| - 16;
      var last := CbcDecrypt(dec, key[..16], IV, payload[split..]);
      var padding := PaddingLength(last);
      if padding == None then None
      else Some(CbcDecrypt(dec, key[..16], IV, payload[..split]) + last[..16 - padding.value])
  }

  lemma PaddedReadsBack(tail: bytes)
    requires |tail| < 16
    ensures PaddingLength(Padded(tail)) == Some(16 - |tail|) && Padded(tail)[..|tail|] == tail
  {
    assert Padded(tail)[|tail|..] == Padding(16 - |tail|, 16 - |tail|);
  }

  lemma ReadPaddingIsPadded(last: Block)
    requires PaddingLength(last).Some?
    ensures Padded(last[..16 - PaddingLength(last).value]) == last
  {}

  /** Every non-empty payload comes back from its encryption. */
  lemma {:induction false} DecryptOfEncrypt(enc: BlockFunction, dec: BlockFunction, payload: bytes, key: bytes)
    requires |key| >= 16 && Inverse(enc, dec, key[..16]) && payload != []
    ensures Encrypt(enc, payload, key).Some?
    ensures Decrypt(dec, Encrypt(enc, payload, key).value, key) == Some(payload)
  {
    hide CbcEncrypt, CbcDecrypt, PaddingLength, Padded;
    var k := key[..16];
    var count := |payload| - |payload| % 16;
    var head, tail := payload[..count], payload[count..];
    var c := Encrypt(enc, payload, key).value;
    assert c[..|c| - 16] == CbcEncrypt(enc, k, IV, head);
    assert c[|c| - 16..] == CbcEncrypt(enc, k, IV, Padded(tail));
    DecryptUndoesEncrypt(enc, dec, k, IV, head);
    DecryptUndoesEncrypt(enc, dec, k, IV, Padded(tail));
    PaddedReadsBack(tail);
    assert head + tail == payload;
  }

  /**
   * Acceptance is canonical: a ciphertext that decrypts to a non-empty payload is exactly the
   * encryption of that payload, although the last block is chained to the initial vector.
   */
  lemma {:induction false} EncryptOfDecrypt(enc: BlockFunction, dec: BlockFunction, c: bytes, key: bytes)
    requires |key| >= 16 && Inverse(enc, dec, key[..16])
    requires Decrypt(dec, c, key).Some? && Decrypt(dec, c, key).value != []
    ensures Encrypt(enc, Decrypt(dec, c, key).value, key) == Some(c)
  {
    hide CbcEncrypt, CbcDecrypt, PaddingLength, Padded;
    var k, split := key[..16], |c| - 16;
    var head := CbcDecrypt(dec, k, IV, c[..split]);
    var last: Block := CbcDecrypt(dec, k, IV, c[split..]);
    var n := PaddingLength(last).value;
    PaddingBounds(last);
    ReadPaddingIsPadded(last);
    EncryptUndoesDecrypt(enc, dec, k, IV, c[..split]);
    EncryptUndoesDecrypt(enc, dec, k, IV, c[split..]);
    var tail := last[..16 - n];
    var payload := head + tail;
    assert |payload| - |payload| % 16 == |head|;
    assert payload[..|head|] == head && payload[|head|..] == tail;
    assert c[..split] + c[split..] == c;
  }

  lemma PaddingBounds(last: Block)
    requires PaddingLength(last).Some?
    ensures 1 <= PaddingLength(last).value <= 16
  {}

  lemma {:induction false} FullPaddingIsAccepted(enc: BlockFunction, dec: BlockFunction, key: bytes)
    requires |key| >= 16 && Inverse(enc, dec, key[..16])
    ensures Decrypt(dec, CbcEncrypt(enc, key[..16], IV, Padded([])), key) == Some([])
  {
    hide CbcEncrypt, CbcDecrypt, PaddingLength, Padded;
    var k := key[..16];
    var full: Block := Padded([]);
    var c := CbcEncrypt(enc, k, IV, full);
    PaddedReadsBack([]);
    DecryptUndoesEncrypt(enc, dec, k, IV, full);
    CbcDecryptOfNothing(dec, k);
    assert c[..0] == [] && c[0..] == c;
    assert Decrypt(dec, c, key) == Some([] + full[..0]);
    assert [] + full[..0] == [];
  }

  lemma {:induction false} EmptyPayloadIsFullPadding(enc: BlockFunction, dec: BlockFunction, c: bytes, key: bytes)
    requires |key| >= 16 && Inverse(enc, dec, key[..16])
    requires Decrypt(dec, c, key) == Some([])
    ensures c == CbcEncrypt(enc, key[..16], IV, Padded([]))
  {
    hide CbcEncrypt, CbcDecrypt, PaddingLength, Padded;
    var k, split := key[..16], |c| - 16;
    var last: Block := CbcDecrypt(dec, k, IV, c[split..]);
    PaddingBounds(last);
    ReadPaddingIsPadded(last);
    var head, tail := CbcDecrypt(dec, k, IV, c[..split]), last[..16 - PaddingLength(last).value];
    assert head + tail == [];
    assert |head| == 0 && tail == [];
    assert split == 0 && c[split..] == c;
    EncryptUndoesDecrypt(enc, dec, k, IV, c);
  }

  /**
   * The one accepted ciphertext that no payload has: a single block of full padding decrypts
   * to the empty payload, which cannot be encrypted.
   */
  lemma EmptyPayloadIff(enc: BlockFunction, dec: BlockFunction, c: bytes, key: bytes)
    requires |key| >= 16 && Inverse(enc, dec, key[..16])
    ensures Decrypt(dec, c, key) == Some([]) <==> c == CbcEncrypt(enc, key[..16], IV, Padded([]))
    ensures Encrypt(enc, [], key).None?
  {
    hide Decrypt;
    FullPaddingIsAccepted(enc, dec, key);
    if Decrypt(dec, c, key) == Some([]) {
      EmptyPayloadIsFullPadding(enc, dec, c, key);
    }
  }

  lemma CbcDecryptOfNothing(dec: BlockFunction, key: bytes)
    ensures CbcDecrypt(dec, key, IV, []) == []
  {}

  /** A ciphertext is always the next multiple of sixteen longer than its payload. */
  lemma CiphertextLength(enc: BlockFunction, payload: bytes, key: bytes)
    requires Encrypt(enc, payload, key).Some?
    ensures |Encrypt(enc, payload, key).value| == |payload| / 16 * 16 + 16
  {}

  // ---------------------------------------------------------------- block by block

  lemma XorByteIsBitXor(a: byte, b: byte)
    ensures XorByte(a, b) == CrcNumbers.BitXor(a, b)
  {
    hide CrcNumbers.BitXor;
    var bits := XorBits(ByteBits(a), ByteBits(b));
    CrcNumbers.BitXorOfValues(ByteBits(a), ByteBits(b), bits);
    Powers();
    ValueOfBits(a, 8);
    ValueOfBits(b, 8);
  }

  /** A block of plaintext, exclusive-or the block before it on the wire, under the cipher. */
  ghost predicate Chained(enc: BlockFunction, key: bytes, plain: bytes, before: bytes, c: bytes)
  {
    && |plain| == |before| == 16
    && exists mixed: Block :: c == enc(key, mixed)
         && forall i :: 0 <= i < 16 ==> mixed[i] as int == CrcNumbers.BitXor(plain[i], before[i])
  }

  lemma ChainedBlock(enc: BlockFunction, key: bytes, plain: Block, before: Block)
    ensures Chained(enc, key, plain, before, enc(key, XorBlock(plain, before)))
  {
    var mixed := XorBlock(plain, before);
    hide CrcNumbers.BitXor, XorByte;
    forall i | 0 <= i < 16 ensures mixed[i] as int == CrcNumbers.BitXor(plain[i], before[i]) {
      XorByteIsBitXor(plain[i], before[i]);
    }
  }

  lemma CbcParts(enc: BlockFunction, key: bytes, chain: Block, data: bytes)
    requires |data| % 16 == 0 && data != []
    ensures var block := enc(key, XorBlock(data[..16], chain)); var c := CbcEncrypt(enc, key, chain, data);
      c[..16] == block && c[16..] == CbcEncrypt(enc, key, block, data[16..])
  {
    hide XorBlock;
  }

  lemma SliceBehind(s: bytes, rest: bytes, from: nat, to: nat)
    requires |s| >= 16 && s[16..] == rest && from <= to <= |rest|
    ensures s[16 + from..16 + to] == rest[from..to]
  {}

  lemma {:induction false} CbcBlock(enc: BlockFunction, key: bytes, chain: Block, data: bytes, i: nat)
    requires |data| % 16 == 0 && 16 * i + 16 <= |data|
    ensures var c := CbcEncrypt(enc, key, chain, data);
      Chained(enc, key, data[16 * i..16 * i + 16], if i == 0 then chain else c[16 * i - 16..16 * i], c[16 * i..16 * i + 16])
    decreases i
  {
    hide XorBlock, Chained, CbcEncrypt;
    var c := CbcEncrypt(enc, key, chain, data);
    var block := enc(key, XorBlock(data[..16], chain));
    var rest := CbcEncrypt(enc, key, block, data[16..]);
    CbcParts(enc, key, chain, data);
    if i > 0 {
      CbcBlock(enc, key, block, data[16..], i - 1);
      SliceBehind(data, data[16..], 16 * (i - 1), 16 * i);
      SliceBehind(c, rest, 16 * (i - 1), 16 * i);
      if i > 1 {
        SliceBehind(c, rest, 16 * (i - 2), 16 * (i - 1));
      } else {
        assert c[16 * i - 16..16 * i] == c[..16];
      }
    } else {
      ChainedBlock(enc, key, data[..16], chain);
      assert data[16 * i..16 * i + 16] == data[..16] && c[16 * i..16 * i + 16] == c[..16];
    }
  }

  /** b"a1b1c1d1e1f1g1h1", which chains the first block, and the last one again. */
  predicate IsInitial(block: bytes)
  {
    block == [0x61, 0x31, 0x62, 0x31, 0x63, 0x31, 0x64, 0x31, 0x65, 0x31, 0x66, 0x31, 0x67, 0x31, 0x68, 0x31]
  }

  /** What is left of the payload behind its full blocks, filled up with octets that count themselves. */
  predicate IsFilled(block: bytes, tail: bytes)
  {
    |tail| < 16 == |block| && block[..|tail|] == tail && forall i :: |tail| <= i < 16 ==> block[i] as int == 16 - |tail|
  }

  /** Block i of the ciphertext is the chained i-th full block of the payload. */
  ghost predicate FullBlock(enc: BlockFunction, key: bytes, payload: bytes, c: bytes, i: nat)
  {
    exists before: bytes :: ChainedFrom(enc, key, payload, c, i, before)
  }

  ghost predicate ChainedFrom(enc: BlockFunction, key: bytes, payload: bytes, c: bytes, i: nat, before: bytes)
  {
    && 16 * i + 16 <= |payload| && 16 * i + 16 <= |c|
    && (if i == 0 then IsInitial(before) else before == c[16 * i - 16..16 * i])
    && Chained(enc, key, payload[16 * i..16 * i + 16], before, c[16 * i..16 * i + 16])
  }

  /** The last block of the ciphertext holds the rest of the payload, chained anew. */
  ghost predicate LastBlock(enc: BlockFunction, key: bytes, payload: bytes, c: bytes)
  {
    var count := |payload| / 16 * 16;
    && |c| == count + 16
    && exists before: bytes, last: bytes :: IsInitial(before) && IsFilled(last, payload[count..])
         && Chained(enc, key, last, before, c[count..])
  }

  lemma EncryptedParts(enc: BlockFunction, payload: bytes, key: bytes) returns (last: Block)
    requires |key| >= 16 && payload != []
    ensures Encrypt(enc, payload, key).Some?
    ensures var c := Encrypt(enc, payload, key).value; var count := |payload| / 16 * 16;
      && |c| == count + 16 && IsFilled(last, payload[count..])
      && c[..count] == CbcEncrypt(enc, key[..16], IV, payload[..count]) && c[count..] == CbcEncrypt(enc, key[..16], IV, last)
  {
    var count := |payload| - |payload| % 16;
    assert count == |payload| / 16 * 16;
    last := Padded(payload[count..]);
    hide CbcEncrypt;
    var c := Encrypt(enc, payload, key).value;
    var a, b := CbcEncrypt(enc, key[..16], IV, payload[..count]), CbcEncrypt(enc, key[..16], IV, last);
    assert c == a + b && c[..count] == a && c[count..] == b;
  }

  lemma {:induction false} FullBlocks(enc: BlockFunction, payload: bytes, key: bytes, c: bytes, count: nat, i: nat)
    requires |key| == 16 && count % 16 == 0 && 16 * i + 16 <= count <= |payload| && count <= |c|
    requires c[..count] == CbcEncrypt(enc, key, IV, payload[..count])
    ensures FullBlock(enc, key, payload, c, i)
  {
    hide Chained, CbcEncrypt, IsInitial;
    CbcBlock(enc, key, IV, payload[..count], i);
    assert payload[..count][16 * i..16 * i + 16] == payload[16 * i..16 * i + 16];
    assert c[..count][16 * i..16 * i + 16] == c[16 * i..16 * i + 16];
    InitialIs();
    var before: bytes := if i == 0 then IV else c[16 * i - 16..16 * i];
    assert i == 0 || c[..count][16 * i - 16..16 * i] == before;
    assert ChainedFrom(enc, key, payload, c, i, before);
  }

  lemma InitialIs()
    ensures IsInitial(IV)
  {}

  /**
   * The ciphertext block by block: the full blocks of the payload chained from the initial
   * vector, and one more block, the rest with its padding, chained from the initial vector anew.
   */
  lemma {:induction false} CiphertextBlocks(enc: BlockFunction, payload: bytes, key: bytes)
    requires |key| >= 16 && payload != []
    ensures Encrypt(enc, payload, key).Some?
    ensures var c := Encrypt(enc, payload, key).value;
      && (forall i: nat :: 16 * i + 16 <= |payload| ==> FullBlock(enc, key[..16], payload, c, i))
      && LastBlock(enc, key[..16], payload, c)
  {
    var last := EncryptedParts(enc, payload, key);
    var c, k, count := Encrypt(enc, payload, key).value, key[..16], |payload| / 16 * 16;
    hide Chained, CbcEncrypt, FullBlock, IsInitial, IsFilled, Encrypt;
    InitialIs();
    CbcBlock(enc, k, IV, last, 0);
    assert last[0..16] == last && c[count..][0..16] == c[count..];
    assert Chained(enc, k, last, IV, c[count..]);
    forall i: nat | 16 * i + 16 <= |payload| ensures FullBlock(enc, k, payload, c, i) {
      FullBlocks(enc, payload, k, c, count, i);
    }
  }

  /** Only the first sixteen octets of a key count, and a shorter one is refused. */
  lemma KeyIsItsFirstSixteen(enc: BlockFunction, dec: BlockFunction, payload: bytes, key: bytes)
    ensures |key| >= 16 ==> Encrypt(enc, payload, key) == Encrypt(enc, payload, key[..16])
    ensures |key| >= 16 ==> Decrypt(dec, payload, key) == Decrypt(dec, payload, key[..16])
    ensures |key| < 16 ==> Encrypt(enc, payload, key).None? && Decrypt(dec, payload, key).None?
  {
    if |key| >= 16 {
      assert key[..16][..16] == key[..16];
    }
  }
}
