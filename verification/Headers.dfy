/** The four header bytes that BCSP and Three-wire share. */
module Headers {
  import opened Octets
  import opened GoBackN

  /** The number in the three lowest bits, the acknowledgement in the next three, then the CRC bit and the reliable bit;
      type and length; and a checksum that makes the sum of all four 255 modulo 256. */
  predicate HeaderHas(f: Frame, crc: bool, a: int, b: int, c: int, d: int) {
    && a % 8 == (if f.reliable then f.seqno else 0) && a / 8 % 8 == f.ack
    && (a / 64 % 2 == 1 <==> crc) && (a / 128 == 1 <==> f.reliable)
    && b % 16 == f.body.tag && b / 16 + 16 * c == |f.body.data|
    && (a + b + c + d) % 256 == 255
  }

  /** No two headers have the same fields. */
  lemma HeaderUnique(f: Frame, crc: bool, a: byte, b: byte, c: byte, d: byte, x: byte, y: byte, z: byte, w: byte)
    requires HeaderHas(f, crc, a, b, c, d) && HeaderHas(f, crc, x, y, z, w)
    ensures [a, b, c, d] == [x, y, z, w]
  {
    Fields(a);
    Fields(x);
    SecondSame(b, c, y, z);
    SumSame(a as int + b as int + c as int, d, w);
  }

  lemma Fields(a: byte)
    ensures a == 128 * (a / 128) + 64 * (a / 64 % 2) + 8 * (a / 8 % 8) + a % 8 && 0 <= a / 128 < 2
  {
    var q, r := a / 8, a / 64;
    assert a == 8 * q + a % 8 && r == q / 8 && q == 8 * r + q % 8 && a / 128 == r / 2;
  }

  lemma SecondSame(b: byte, c: byte, y: byte, z: byte)
    requires b % 16 == y % 16 && b / 16 + 16 * c as int == y / 16 + 16 * z as int
    ensures b == y && c == z
  {
  }

  lemma SumSame(sum: int, d: byte, w: byte)
    requires (sum + d) % 256 == 255 == (sum + w) % 256
    ensures d == w
  {
  }

  lemma ChecksumFits(sum: int)
    ensures (sum + (255 - sum % 256)) % 256 == 255
  {
    assert sum + (255 - sum % 256) == 256 * (sum / 256) + 255;
  }
}
