/**
 * Byte-level vocabulary of the fdrop wire protocol: the frame layout that
 * both `definitions::encode` and `protocol::encode` produce and that
 * `read_stream` consumes.
 */
module Wire {

  type Byte = x: int | 0 <= x < 0x100
  type U16 = x: int | 0 <= x < 0x1_0000

  /** Two bytes read as a big-endian `u16` (tokio's `read_u16`). */
  function BigEndianU16(hi: Byte, lo: Byte): U16 {
    hi * 0x100 + lo
  }

  /** The two bytes `put_u16` writes for `n as u16`: only the low 16 bits of `n` survive the cast. */
  function LengthBytes(n: nat): (b: seq<Byte>)
    ensures |b| == 2 && BigEndianU16(b[0], b[1]) == n % 0x1_0000
  {
    var v := n % 0x1_0000;
    [v / 0x100, v % 0x100]
  }

  /** Writing a length read from two bytes gives back those two bytes. */
  lemma LengthBytesOfBigEndian(hi: Byte, lo: Byte)
    ensures LengthBytes(BigEndianU16(hi, lo)) == [hi, lo]
  {
    var v := hi * 0x100 + lo;
    assert v % 0x1_0000 == v;
    assert v / 0x100 == hi;
    assert v % 0x100 == lo;
  }

  /**
   * A frame: the tag byte, the payload length as a big-endian `u16`
   * (wrapped modulo 65536), then the payload bytes themselves.
   */
  function Frame(tag: Byte, payload: seq<Byte>): (f: seq<Byte>)
    ensures |f| == 3 + |payload|
    ensures f[0] == tag
    ensures BigEndianU16(f[1], f[2]) == |payload| % 0x1_0000
    ensures f[3..] == payload
  {
    [tag] + LengthBytes(|payload|) + payload
  }
}
