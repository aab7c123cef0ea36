/** Bytes and the big-endian integers both packet formats use. */
module Octets {

  type byte = x: int | 0 <= x < 0x100
  type Bytes = seq<byte>

  datatype Option<+T> = None | Some(value: T)

  /** The largest inner packet every transport accepts. */
  const MTU: int := 1280

  function U16(n: int): Bytes
    requires 0 <= n < 0x1_0000
  {
    [n / 0x100, n % 0x100]
  }

  function U32(n: int): Bytes
    requires 0 <= n < 0x1_0000_0000
  {
    U16(n / 0x1_0000) + U16(n % 0x1_0000)
  }

  function FromU16(b: Bytes): (n: int)
    requires |b| == 2
    ensures 0 <= n < 0x1_0000 && U16(n) == b
  {
    var hi: int, lo: int := b[0], b[1];
    hi * 0x100 + lo
  }

  function FromU32(b: Bytes): (n: int)
    requires |b| == 4
    ensures 0 <= n < 0x1_0000_0000 && U32(n) == b
  {
    FromU16(b[..2]) * 0x1_0000 + FromU16(b[2..])
  }

  lemma U16Inverse(n: int)
    requires 0 <= n < 0x1_0000
    ensures FromU16(U16(n)) == n
  {
  }

  /** The most significant byte comes first. */
  lemma BigEndian(b: Bytes)
    requires |b| == 4
    ensures var a: int, c: int, d: int, e: int := b[0], b[1], b[2], b[3];
      FromU16(b[..2]) == 256 * a + c && FromU32(b) == 16777216 * a + 65536 * c + 256 * d + e
  {
  }

  lemma U32Inverse(n: int)
    requires 0 <= n < 0x1_0000_0000
    ensures FromU32(U32(n)) == n
  {
    var hi, lo := n / 0x1_0000, n % 0x1_0000;
    assert U32(n)[..2] == U16(hi) && U32(n)[2..] == U16(lo);
    U16Inverse(hi);
    U16Inverse(lo);
  }
}
