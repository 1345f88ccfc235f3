/** Numbers as bytes, the least significant first. */
module LittleEndian {
  import opened Placement

  type Byte = b: int | 0 <= b < 0x100

  function ReadU16(data: seq<Byte>, offset: nat): (n: int)
    requires offset + 2 <= |data|
    ensures 0 <= n < 0x10000
  {
    var low: int, high: int := data[offset], data[offset + 1];
    low + high * 0x100
  }

  function ReadU32(data: seq<Byte>, offset: nat): (n: int)
    requires offset + 4 <= |data|
    ensures 0 <= n < 0x1_0000_0000
  {
    var a: int, b: int, c: int, d: int := data[offset], data[offset + 1], data[offset + 2], data[offset + 3];
    a + b * 0x100 + c * 0x10000 + d * 0x100_0000
  }

  function U16(n: int): (r: seq<Byte>)
    requires 0 <= n < 0x10000
    ensures |r| == 2
  {
    [n % 0x100, n / 0x100]
  }

  function U32(n: int): (r: seq<Byte>)
    requires 0 <= n < 0x1_0000_0000
    ensures |r| == 4
  {
    [n % 0x100, n / 0x100 % 0x100, n / 0x10000 % 0x100, n / 0x100_0000]
  }

  lemma {:induction false} ReadsU16(data: seq<Byte>, offset: nat, n: int)
    requires 0 <= n < 0x10000 && StandsAt(data, offset, U16(n))
    ensures offset + 2 <= |data| && ReadU16(data, offset) == n
  {
    StandsIs(data, offset, U16(n), 3);
    assert data[offset + 0] == U16(n)[0] && data[offset + 1] == U16(n)[1];
  }

  lemma {:induction false} ReadsU32(data: seq<Byte>, offset: nat, n: int)
    requires 0 <= n < 0x1_0000_0000 && StandsAt(data, offset, U32(n))
    ensures offset + 4 <= |data| && ReadU32(data, offset) == n
  {
    StandsIs(data, offset, U32(n), 3);
    assert data[offset + 0] == U32(n)[0] && data[offset + 1] == U32(n)[1];
    assert data[offset + 2] == U32(n)[2] && data[offset + 3] == U32(n)[3];
    BytesOfU32(n);
  }

  lemma BytesOfU32(n: int)
    requires 0 <= n < 0x1_0000_0000
    ensures n % 0x100 + n / 0x100 % 0x100 * 0x100 + n / 0x10000 % 0x100 * 0x10000 + n / 0x100_0000 * 0x100_0000 == n
  {
    assert n / 0x10000 == n / 0x100 / 0x100;
    assert n / 0x100_0000 == n / 0x10000 / 0x100;
  }

  /** Every four bytes are some number's. */
  lemma {:induction false} BytesAreU32(data: seq<Byte>, offset: nat)
    requires offset + 4 <= |data|
    ensures StandsAt(data, offset, U32(ReadU32(data, offset)))
  {
    var n := ReadU32(data, offset);
    StandsIs(data, offset, U32(n), 3);
    var a: int, b: int, c: int, d: int := data[offset], data[offset + 1], data[offset + 2], data[offset + 3];
    assert n / 0x100 == b + c * 0x100 + d * 0x10000;
    assert n / 0x10000 == c + d * 0x100;
    assert forall i :: 0 <= i < 4 ==> data[offset + i] == U32(n)[i];
  }

  function U64(n: int): (r: seq<Byte>)
    requires 0 <= n < 0x1_0000_0000_0000_0000
    ensures |r| == 8
  {
    U32(n % 0x1_0000_0000) + U32(n / 0x1_0000_0000)
  }
}
