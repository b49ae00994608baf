/** Bytes as their bits. */
module Bits {

  /** A u8 as its eight bits. */
  datatype U8 = U8(b7: bool, b6: bool, b5: bool, b4: bool, b3: bool, b2: bool, b1: bool, b0: bool)

  function Xor(a: U8, b: U8): U8 {
    U8(a.b7 != b.b7, a.b6 != b.b6, a.b5 != b.b5, a.b4 != b.b4, a.b3 != b.b3, a.b2 != b.b2, a.b1 != b.b1, a.b0 != b.b0)
  }

  const ZERO := U8(false, false, false, false, false, false, false, false)
  const MSBIT := U8(true, false, false, false, false, false, false, false)
  const ONE := U8(false, false, false, false, false, false, false, true)

  /** Half a byte as a number, and back. */
  function Nibble(d: bool, c: bool, b: bool, a: bool): (n: nat)
    ensures n < 16
  {
    (if d then 8 else 0) + (if c then 4 else 0) + (if b then 2 else 0) + (if a then 1 else 0)
  }

  predicate BitOf(n: int, weight: int)
    requires weight > 0
  {
    n / weight % 2 == 1
  }

  function ToInt(x: U8): (n: nat)
    ensures n < 256
  {
    16 * Nibble(x.b7, x.b6, x.b5, x.b4) + Nibble(x.b3, x.b2, x.b1, x.b0)
  }

  function FromInt(n: int): U8 {
    var h, l := n / 16, n % 16;
    U8(BitOf(h, 8), BitOf(h, 4), BitOf(h, 2), BitOf(h, 1), BitOf(l, 8), BitOf(l, 4), BitOf(l, 2), BitOf(l, 1))
  }

  lemma NibbleBits(d: bool, c: bool, b: bool, a: bool)
    ensures var n := Nibble(d, c, b, a);
            BitOf(n, 8) == d && BitOf(n, 4) == c && BitOf(n, 2) == b && BitOf(n, 1) == a
  {
  }

  lemma FromToInt(x: U8)
    ensures FromInt(ToInt(x)) == x
  {
    hide Nibble, BitOf;
    NibbleBits(x.b7, x.b6, x.b5, x.b4);
    NibbleBits(x.b3, x.b2, x.b1, x.b0);
  }

  lemma NibbleOf(n: int)
    requires 0 <= n < 16
    ensures Nibble(BitOf(n, 8), BitOf(n, 4), BitOf(n, 2), BitOf(n, 1)) == n
  {
  }

  lemma ToFromInt(n: int)
    requires 0 <= n < 256
    ensures ToInt(FromInt(n)) == n
  {
    hide Nibble, BitOf;
    NibbleOf(n / 16);
    NibbleOf(n % 16);
  }
}
