/** The CRC of BCSP (hci_bcsp.c): a nibble table against the bit-serial division it stands for. */
module BcspCrc {
  import opened Octets
  import opened Bits

  /** A u16 as its two bytes. */
  datatype Word = Word(hi: U8, lo: U8)

  function FromInt16(n: int): Word {
    Word(FromInt(n / 256), FromInt(n % 256))
  }

  function Sum(a: Word, b: Word): Word {
    Word(Xor(a.hi, b.hi), Xor(a.lo, b.lo))
  }

  const NIL := Word(ZERO, ZERO)

  const CRC_TABLE: seq<int> := [
    0x0000, 0x1081, 0x2102, 0x3183,
    0x4204, 0x5285, 0x6306, 0x7387,
    0x8408, 0x9489, 0xa50a, 0xb58b,
    0xc60c, 0xd68d, 0xe70e, 0xf78f
  ]

  const ONES := U8(true, true, true, true, true, true, true, true)
  const CRC_INIT := Word(ONES, ONES)

  function ShiftByFour(w: Word): Word {
    Word(U8(false, false, false, false, w.hi.b7, w.hi.b6, w.hi.b5, w.hi.b4),
         U8(w.hi.b3, w.hi.b2, w.hi.b1, w.hi.b0, w.lo.b7, w.lo.b6, w.lo.b5, w.lo.b4))
  }

  /** The table entry for four bits. */
  function Entry(d: bool, c: bool, b: bool, a: bool): Word {
    FromInt16(CRC_TABLE[Nibble(d, c, b, a)])
  }

  /** One table lookup: four bits of the message, the lowest one last, and the low nibble of the register. */
  function Lookup(reg: Word, d: bool, c: bool, b: bool, a: bool): Word {
    Sum(ShiftByFour(reg), Entry(reg.lo.b3 != d, reg.lo.b2 != c, reg.lo.b1 != b, reg.lo.b0 != a))
  }

  /** bcsp_crc_update */
  function Update(crc: Word, x: byte): Word {
    var d := FromInt(x);
    Lookup(Lookup(crc, d.b3, d.b2, d.b1, d.b0), d.b7, d.b6, d.b5, d.b4)
  }

  function Crc(crc: Word, msg: seq<byte>): Word
    decreases |msg|
  {
    if msg == [] then crc else Crc(Update(crc, msg[0]), msg[1..])
  }

  // ---- Bit-serial division ----

  /** Polynomial 0x1021 with its bits reversed. */
  const POLY :=
    Word(U8(true, false, false, false, false, true, false, false),
         U8(false, false, false, false, true, false, false, false))

  lemma PolyIs()
    ensures FromInt16(0x8408) == POLY
  {
  }

  function ShiftByOne(w: Word): Word {
    Word(U8(false, w.hi.b7, w.hi.b6, w.hi.b5, w.hi.b4, w.hi.b3, w.hi.b2, w.hi.b1),
         U8(w.hi.b0, w.lo.b7, w.lo.b6, w.lo.b5, w.lo.b4, w.lo.b3, w.lo.b2, w.lo.b1))
  }

  /** One bit of the message, least significant first. */
  function BitStep(reg: Word, bit: bool): Word {
    Sum(ShiftByOne(reg), if reg.lo.b0 != bit then POLY else NIL)
  }

  function FourBits(reg: Word, d: bool, c: bool, b: bool, a: bool): Word {
    BitStep(BitStep(BitStep(BitStep(reg, a), b), c), d)
  }

  function EightBits(reg: Word, x: byte): Word {
    var d := FromInt(x);
    FourBits(FourBits(reg, d.b3, d.b2, d.b1, d.b0), d.b7, d.b6, d.b5, d.b4)
  }

  function BitSerial(crc: Word, msg: seq<byte>): Word
    decreases |msg|
  {
    if msg == [] then crc else BitSerial(EightBits(crc, msg[0]), msg[1..])
  }

  /** A register that holds nothing but four bits. */
  function Low(d: bool, c: bool, b: bool, a: bool): Word {
    Word(ZERO, U8(false, false, false, false, d, c, b, a))
  }

  /** What four steps make of four bits. */
  function Row(d: bool, c: bool, b: bool, a: bool): Word {
    Word(U8(d, c, b, a, false, d, c, b), U8(a, false, false, false, d, c, b, a))
  }

  lemma RowIsFourBits(d: bool, c: bool, b: bool, a: bool)
    ensures FourBits(Low(d, c, b, a), false, false, false, false) == Row(d, c, b, a)
  {
    var one := BitStep(Low(d, c, b, a), false);
    assert one == Word(U8(a, false, false, false, false, a, false, false), U8(false, false, false, false, a, d, c, b));
    var two := BitStep(one, false);
    assert two == Word(U8(b, a, false, false, false, b, a, false), U8(false, false, false, false, b, a, d, c));
    var three := BitStep(two, false);
    assert three == Word(U8(c, b, a, false, false, c, b, a), U8(false, false, false, false, c, b, a, d));
  }

  lemma TableIsRow(d: bool, c: bool, b: bool, a: bool)
    ensures CRC_TABLE[Nibble(d, c, b, a)] == 256 * ToInt(Row(d, c, b, a).hi) + ToInt(Row(d, c, b, a).lo)
  {
  }

  lemma TableEntry(d: bool, c: bool, b: bool, a: bool)
    ensures Entry(d, c, b, a) == FourBits(Low(d, c, b, a), false, false, false, false)
  {
    hide FourBits, Nibble, ToInt, FromInt;
    var r := Row(d, c, b, a);
    RowIsFourBits(d, c, b, a);
    TableIsRow(d, c, b, a);
    FromToInt(r.hi);
    FromToInt(r.lo);
  }

  lemma ShiftLinear(a: Word, b: Word)
    ensures ShiftByOne(Sum(a, b)) == Sum(ShiftByOne(a), ShiftByOne(b))
    ensures Sum(a, b).lo.b0 == (a.lo.b0 != b.lo.b0)
  {
  }

  lemma SumOrder(p: Word, q: Word, r: Word)
    ensures Sum(Sum(p, q), r) == Sum(Sum(p, r), q) == Sum(p, Sum(q, r))
  {
    hide Xor;
    XorOrder(p.hi, q.hi, r.hi);
    XorOrder(p.lo, q.lo, r.lo);
  }

  lemma XorOrder(p: U8, q: U8, r: U8)
    ensures Xor(Xor(p, q), r) == Xor(Xor(p, r), q) == Xor(p, Xor(q, r))
  {
  }

  /** Message bits may be added to the register beforehand. */
  lemma StepAdded(reg: Word, d: bool, c: bool, b: bool, a: bool)
    ensures BitStep(Sum(reg, Low(d, c, b, a)), false) == Sum(BitStep(reg, a), Low(false, d, c, b))
  {
    hide Sum;
    ShiftLinear(reg, Low(d, c, b, a));
    SumOrder(ShiftByOne(reg), Low(false, d, c, b), if reg.lo.b0 != a then POLY else NIL);
  }

  /** The higher bits of the register only move down. */
  lemma StepApart(x: Word, y: Word)
    requires !x.lo.b0
    ensures BitStep(Sum(x, y), false) == Sum(ShiftByOne(x), BitStep(y, false))
  {
    hide Sum, ShiftByOne;
    ShiftLinear(x, y);
    SumOrder(ShiftByOne(x), ShiftByOne(y), if y.lo.b0 then POLY else NIL);
  }

  lemma FourAdded(reg: Word, d: bool, c: bool, b: bool, a: bool)
    ensures FourBits(Sum(reg, Low(d, c, b, a)), false, false, false, false) == FourBits(reg, d, c, b, a)
  {
    hide BitStep, Sum, Low;
    var r1 := BitStep(reg, a);
    var r2 := BitStep(r1, b);
    var r3 := BitStep(r2, c);
    StepAdded(reg, d, c, b, a);
    StepAdded(r1, false, d, c, b);
    StepAdded(r2, false, false, d, c);
    StepAdded(r3, false, false, false, d);
    AddNothing(BitStep(r3, d));
  }

  lemma AddNothing(w: Word)
    ensures Sum(w, Low(false, false, false, false)) == w
  {
  }

  lemma FourApart(x: Word, y: Word)
    requires !x.lo.b0 && !x.lo.b1 && !x.lo.b2 && !x.lo.b3
    ensures FourBits(Sum(x, y), false, false, false, false)
         == Sum(ShiftByFour(x), FourBits(y, false, false, false, false))
  {
    hide BitStep, Sum;
    var x1 := ShiftByOne(x);
    var x2 := ShiftByOne(x1);
    var x3 := ShiftByOne(x2);
    var y1 := BitStep(y, false);
    var y2 := BitStep(y1, false);
    StepApart(x, y);
    StepApart(x1, y1);
    StepApart(x2, y2);
    StepApart(x3, BitStep(y2, false));
  }

  /** Four steps shift the register and add what its low nibble, with the message, leads to. */
  lemma NibbleSplits(reg: Word, d: bool, c: bool, b: bool, a: bool)
    ensures FourBits(reg, d, c, b, a)
         == Sum(ShiftByFour(reg),
                FourBits(Low(reg.lo.b3 != d, reg.lo.b2 != c, reg.lo.b1 != b, reg.lo.b0 != a), false, false, false, false))
  {
    hide FourBits;
    var high := Word(reg.hi, U8(reg.lo.b7, reg.lo.b6, reg.lo.b5, reg.lo.b4, false, false, false, false));
    var low := Low(reg.lo.b3 != d, reg.lo.b2 != c, reg.lo.b1 != b, reg.lo.b0 != a);
    FourAdded(reg, d, c, b, a);
    assert Sum(reg, Low(d, c, b, a)) == Sum(high, low);
    FourApart(high, low);
  }

  lemma LookupIsFourBits(reg: Word, d: bool, c: bool, b: bool, a: bool)
    ensures Lookup(reg, d, c, b, a) == FourBits(reg, d, c, b, a)
  {
    hide FourBits, Entry, ShiftByFour, Sum, Low;
    TableEntry(reg.lo.b3 != d, reg.lo.b2 != c, reg.lo.b1 != b, reg.lo.b0 != a);
    NibbleSplits(reg, d, c, b, a);
  }

  /** Two lookups per byte divide by the CRC polynomial, for every message and every starting register. */
  lemma {:induction false} TableCrcIsBitSerial(crc: Word, msg: seq<byte>)
    ensures Crc(crc, msg) == BitSerial(crc, msg)
    decreases |msg|
  {
    hide Lookup, FourBits, FromInt;
    if msg != [] {
      var d := FromInt(msg[0]);
      LookupIsFourBits(crc, d.b3, d.b2, d.b1, d.b0);
      LookupIsFourBits(Lookup(crc, d.b3, d.b2, d.b1, d.b0), d.b7, d.b6, d.b5, d.b4);
      TableCrcIsBitSerial(Update(crc, msg[0]), msg[1..]);
    }
  }

  lemma {:induction false} CrcAppend(crc: Word, m: seq<byte>, n: seq<byte>)
    ensures Crc(crc, m + n) == Crc(Crc(crc, m), n)
    decreases |m|
  {
    hide Update;
    if m == [] {
      assert m + n == n;
    } else {
      assert (m + n)[1..] == m[1..] + n;
      CrcAppend(Update(crc, m[0]), m[1..], n);
    }
  }

  lemma CrcOneMore(crc: Word, bs: seq<byte>, i: nat)
    requires i < |bs|
    ensures Crc(crc, bs[..i + 1]) == Update(Crc(crc, bs[..i]), bs[i])
  {
    hide Update;
    assert bs[..i + 1] == bs[..i] + [bs[i]] && [bs[i]][1..] == [];
    CrcAppend(crc, bs[..i], [bs[i]]);
    assert Crc(Crc(crc, bs[..i]), [bs[i]]) == Crc(Update(Crc(crc, bs[..i]), bs[i]), []);
  }

  // ---- The two bytes of the trailer ----

  function Reversed(x: U8): U8 {
    U8(x.b0, x.b1, x.b2, x.b3, x.b4, x.b5, x.b6, x.b7)
  }

  /** The kernel's bitrev16: the sixteen bits in opposite order. */
  function Bitrev16(w: Word): Word {
    Word(Reversed(w.lo), Reversed(w.hi))
  }

  /** A 16-bit word as two bytes, most significant first (the CRC that bcsp_prepare_pkt appends). */
  function SplitBe16(w: Word): (t: seq<byte>)
    ensures |t| == 2
  {
    [ToInt(w.hi), ToInt(w.lo)]
  }

  /** get_unaligned_be16. */
  function Be16(hi: byte, lo: byte): Word {
    Word(FromInt(hi), FromInt(lo))
  }

  // ---- What the trailer is for ----

  /** The same eight steps from the most significant bit of a byte. */
  function EightFromTop(reg: Word, x: byte): Word {
    var d := FromInt(x);
    FourBits(FourBits(reg, d.b4, d.b5, d.b6, d.b7), d.b0, d.b1, d.b2, d.b3)
  }

  /** A step that leaves the top of the register clear took out the bit that was at its bottom. */
  lemma StepBack(w: Word, bit: bool)
    ensures !BitStep(w, bit).hi.b7 <==> bit == w.lo.b0
    ensures bit == w.lo.b0 ==> BitStep(w, bit) == ShiftByOne(w)
  {
  }

  lemma FourBack(w: Word, d: bool, c: bool, b: bool, a: bool)
    ensures var r := FourBits(w, d, c, b, a);
            !r.hi.b7 && !r.hi.b6 && !r.hi.b5 && !r.hi.b4 <==>
              a == w.lo.b0 && b == w.lo.b1 && c == w.lo.b2 && d == w.lo.b3
    ensures a == w.lo.b0 && b == w.lo.b1 && c == w.lo.b2 && d == w.lo.b3 ==> FourBits(w, d, c, b, a) == ShiftByFour(w)
  {
    var w1 := BitStep(w, a);
    var w2 := BitStep(w1, b);
    var w3 := BitStep(w2, c);
    StepBack(w, a);
    StepBack(w1, b);
    StepBack(w2, c);
    StepBack(w3, d);
    StepShifts(w3, d);
    StepShifts(w2, c);
    StepShifts(w1, b);
    hide BitStep;
  }

  /** When the bottom is taken out, the bits at the top move down by one. */
  lemma StepShifts(w: Word, bit: bool)
    ensures !BitStep(w, bit).hi.b7 ==> var r := BitStep(w, bit);
              r.hi.b6 == w.hi.b7 && r.hi.b5 == w.hi.b6 && r.hi.b4 == w.hi.b5
  {
  }

  lemma EightBack(w: Word, x: byte)
    ensures EightFromTop(w, x).hi == ZERO <==> FromInt(x) == Reversed(w.lo)
    ensures FromInt(x) == Reversed(w.lo) ==> EightFromTop(w, x) == Word(ZERO, w.hi)
  {
    hide FourBits, FromInt, Reversed;
    BitsBack(w, FromInt(x));
  }

  /** The first four bits match the bottom of the register, and the other four what has come down to it. */
  lemma BitsBack(w: Word, d: U8)
    ensures var r := FourBits(FourBits(w, d.b4, d.b5, d.b6, d.b7), d.b0, d.b1, d.b2, d.b3);
            (r.hi == ZERO <==> d == Reversed(w.lo)) && (d == Reversed(w.lo) ==> r == Word(ZERO, w.hi))
  {
    hide FourBits, ShiftByFour;
    var mid := FourBits(w, d.b4, d.b5, d.b6, d.b7);
    FourBack(w, d.b4, d.b5, d.b6, d.b7);
    FourBack(mid, d.b0, d.b1, d.b2, d.b3);
    TwoShifts(w);
    TopMovesDown(mid);
  }

  lemma TwoShifts(w: Word)
    ensures ShiftByFour(ShiftByFour(w)) == Word(ZERO, w.hi)
    ensures ShiftByFour(w).lo == U8(w.hi.b3, w.hi.b2, w.hi.b1, w.hi.b0, w.lo.b7, w.lo.b6, w.lo.b5, w.lo.b4)
  {
  }

  lemma TopMovesDown(w: Word)
    ensures ShiftByFour(w).hi == U8(false, false, false, false, w.hi.b7, w.hi.b6, w.hi.b5, w.hi.b4)
  {
  }

  /** A message and two more bytes are a multiple of the polynomial: the register, started at all ones, is divided to
      zero by the bits of the message, each byte from its least significant one, and then by those of the two bytes, each
      from its most significant one. */
  predicate Divisible(msg: seq<byte>, hi: byte, lo: byte) {
    EightFromTop(EightFromTop(BitSerial(FromInt16(0xffff), msg), hi), lo) == NIL
  }

  lemma DivisibleExact(msg: seq<byte>, hi: byte, lo: byte)
    ensures Divisible(msg, hi, lo) <==> [hi, lo] == SplitBe16(Bitrev16(Crc(CRC_INIT, msg)))
    ensures Divisible(msg, hi, lo) <==> Be16(hi, lo) == Bitrev16(Crc(CRC_INIT, msg))
  {
    hide Crc, BitSerial, SplitBe16, Bitrev16, EightFromTop, FromInt, Reversed;
    StartsAtOnes();
    var reg := Crc(CRC_INIT, msg);
    TableCrcIsBitSerial(CRC_INIT, msg);
    EightBack(reg, hi);
    EightBack(EightFromTop(reg, hi), lo);
    BigEndian(reg, hi, lo);
    Be16Exact(Bitrev16(reg), hi, lo);
  }

  lemma BigEndian(reg: Word, hi: byte, lo: byte)
    ensures Be16(hi, lo) == Bitrev16(reg) <==> FromInt(hi) == Reversed(reg.lo) && FromInt(lo) == Reversed(reg.hi)
  {
    hide FromInt, Reversed;
  }

  lemma StartsAtOnes()
    ensures FromInt16(0xffff) == CRC_INIT
  {
  }

  /** Two bytes stand for a word exactly when they are the ones that it is split into. */
  lemma Be16Exact(w: Word, hi: byte, lo: byte)
    ensures Be16(hi, lo) == w <==> [hi, lo] == SplitBe16(w)
  {
    hide ToInt, FromInt;
    FromToInt(w.hi);
    FromToInt(w.lo);
    ToFromInt(hi);
    ToFromInt(lo);
  }
}
