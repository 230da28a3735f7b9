/** Octet strings and the big-endian fields that every wire format here uses. */
module Bytes {

  type byte = b: int | 0 <= b < 256

  /** An unsigned value that fits a two-byte field. */
  type u16 = n: int | 0 <= n < 0x1_0000

  type bytes = seq<byte>

  datatype Option<+T> = None | Some(value: T)

  /** int.from_bytes(s, "big"). */
  function FromBytes(s: bytes): (n: nat)
  {
    if s == [] then 0 else FromBytes(s[..|s| - 1]) * 256 + s[|s| - 1]
  }

  /** n.to_bytes(2, "big"). */
  function ToBytes2(n: u16): (s: bytes)
    ensures |s| == 2
  {
    [n / 256, n % 256]
  }

  lemma FromBytes1(s: bytes)
    requires |s| == 1
    ensures FromBytes(s) == s[0]
  {
    assert s[..0] == [];
  }

  lemma FromBytes2(s: bytes)
    requires |s| == 2
    ensures FromBytes(s) == 256 * (s[0] as int) + s[1]
  {
    FromBytes1(s[..1]);
  }

  lemma ToBytes2RoundTrip(n: u16)
    ensures FromBytes(ToBytes2(n)) == n
  {
    FromBytes2(ToBytes2(n));
  }

  lemma FromBytes2RoundTrip(s: bytes)
    requires |s| == 2
    ensures FromBytes(s) < 0x1_0000
    ensures ToBytes2(FromBytes(s)) == s
  {
    FromBytes2(s);
  }
}
