/** CRC-8 with a table (crc8.c). The two ways of filling the table, by doubling and by filling in between, and the byte
    loop that uses it are compared with division one bit at a time. Division is linear in its input, so the entry of
    an index is the sum of the entries of its bits, and the entry of a bit is one step from its neighbour's. A byte is
    modelled as its eight bits. */
module Crc8 {
  import opened Arith
  import opened Bits

  // ---- Bit-by-bit division by a polynomial ----

  function Shift(msb: bool, x: U8): U8 {
    if msb then U8(x.b6, x.b5, x.b4, x.b3, x.b2, x.b1, x.b0, false)
    else U8(false, x.b7, x.b6, x.b5, x.b4, x.b3, x.b2, x.b1)
  }

  /** The bit that a shift drops. */
  predicate Dropped(msb: bool, x: U8) {
    if msb then x.b7 else x.b0
  }

  function Select(b: bool, poly: U8): U8 {
    if b then poly else ZERO
  }

  /** One step, most significant bit first (msb) or least significant first. */
  function Step(msb: bool, x: U8, poly: U8): U8 {
    Xor(Shift(msb, x), Select(Dropped(msb, x), poly))
  }

  /** In numbers: the register is doubled modulo 256, and the polynomial added if it was at least 128; or halved, and the
      polynomial added if it was odd. */
  lemma StepMeans(x: U8, poly: U8)
    ensures ToInt(Shift(true, x)) == 2 * ToInt(x) % 256 && ToInt(Shift(false, x)) == ToInt(x) / 2
    ensures Step(true, x, poly) == if ToInt(x) >= 128 then Xor(Shift(true, x), poly) else Shift(true, x)
    ensures Step(false, x, poly) == if ToInt(x) % 2 == 1 then Xor(Shift(false, x), poly) else Shift(false, x)
  {
    hide Shift, ToInt;
    ShiftUp(x);
    ShiftDown(x);
    XorNothing(Shift(true, x));
    XorNothing(Shift(false, x));
  }

  lemma XorNothing(x: U8)
    ensures Xor(x, ZERO) == x
  {
  }

  lemma ShiftUp(x: U8)
    ensures ToInt(x) >= 128 <==> x.b7
    ensures ToInt(Shift(true, x)) == 2 * ToInt(x) % 256
  {
    var n := ToInt(U8(false, x.b6, x.b5, x.b4, x.b3, x.b2, x.b1, x.b0));
    HighestBit(x);
    Doubled(x);
    hide ToInt, Nibble, Shift;
    DivModUnique(2 * ToInt(x), 256, if x.b7 then 1 else 0, 2 * n);
  }

  lemma HighestBit(x: U8)
    ensures var n := ToInt(U8(false, x.b6, x.b5, x.b4, x.b3, x.b2, x.b1, x.b0));
            n < 128 && ToInt(x) == n + if x.b7 then 128 else 0
  {
  }

  lemma Doubled(x: U8)
    ensures ToInt(Shift(true, x)) == 2 * ToInt(U8(false, x.b6, x.b5, x.b4, x.b3, x.b2, x.b1, x.b0))
  {
  }

  lemma ShiftDown(x: U8)
    ensures ToInt(x) % 2 == 1 <==> x.b0
    ensures ToInt(Shift(false, x)) == ToInt(x) / 2
  {
    var n := ToInt(U8(false, x.b7, x.b6, x.b5, x.b4, x.b3, x.b2, x.b1));
    assert ToInt(x) == 2 * n + if x.b0 then 1 else 0;
    assert ToInt(Shift(false, x)) == n;
    hide ToInt, Nibble, Shift;
  }

  function Steps(msb: bool, n: nat, x: U8, poly: U8): U8 {
    if n == 0 then x else Steps(msb, n - 1, Step(msb, x, poly), poly)
  }

  /** A whole byte. */
  function Byte(msb: bool, x: U8, poly: U8): U8 {
    Steps(msb, 8, x, poly)
  }

  /** The CRC of a message, one bit at a time. */
  function BitCrc(msb: bool, poly: U8, crc: U8, msg: seq<U8>): U8
    decreases |msg|
  {
    if msg == [] then crc else BitCrc(msb, poly, Byte(msb, Xor(crc, msg[0]), poly), msg[1..])
  }

  lemma ShiftLinear(msb: bool, a: U8, b: U8)
    ensures Shift(msb, Xor(a, b)) == Xor(Shift(msb, a), Shift(msb, b))
    ensures Dropped(msb, Xor(a, b)) == (Dropped(msb, a) != Dropped(msb, b))
  {
  }

  lemma SelectLinear(a: bool, b: bool, poly: U8)
    ensures Select(a != b, poly) == Xor(Select(a, poly), Select(b, poly))
  {
  }

  lemma XorExchange(a: U8, b: U8, c: U8, d: U8)
    ensures Xor(Xor(a, b), Xor(c, d)) == Xor(Xor(a, c), Xor(b, d))
  {
  }

  lemma StepLinear(msb: bool, a: U8, b: U8, poly: U8)
    ensures Step(msb, Xor(a, b), poly) == Xor(Step(msb, a, poly), Step(msb, b, poly))
  {
    hide Xor, Shift, Select, Dropped;
    ShiftLinear(msb, a, b);
    SelectLinear(Dropped(msb, a), Dropped(msb, b), poly);
    XorExchange(Shift(msb, a), Shift(msb, b), Select(Dropped(msb, a), poly), Select(Dropped(msb, b), poly));
  }

  /** Division is linear. */
  lemma {:induction false} StepsLinear(msb: bool, n: nat, a: U8, b: U8, poly: U8)
    ensures Steps(msb, n, Xor(a, b), poly) == Xor(Steps(msb, n, a, poly), Steps(msb, n, b, poly))
  {
    hide Step, Xor;
    if n > 0 {
      StepLinear(msb, a, b, poly);
      StepsLinear(msb, n - 1, Step(msb, a, poly), Step(msb, b, poly), poly);
    }
  }

  lemma {:induction false} StepsZero(msb: bool, n: nat, poly: U8)
    ensures Steps(msb, n, ZERO, poly) == ZERO
  {
    if n > 0 {
      assert Step(msb, ZERO, poly) == ZERO;
      StepsZero(msb, n - 1, poly);
    }
  }

  /** A step before or after the others is the same. */
  lemma {:induction false} StepsCommute(msb: bool, n: nat, x: U8, poly: U8)
    ensures Steps(msb, n, Step(msb, x, poly), poly) == Step(msb, Steps(msb, n, x, poly), poly)
  {
    hide Step;
    if n > 0 {
      StepsCommute(msb, n - 1, Step(msb, x, poly), poly);
    }
  }

  // ---- The powers of two that index the table ----

  predicate IsBit(i: int) {
    i == 1 || i == 2 || i == 4 || i == 8 || i == 16 || i == 32 || i == 64 || i == 128
  }

  /** One step moves a single bit that is not the last one to leave. */
  lemma StepShifts(i: int, poly: U8)
    requires IsBit(i)
    ensures i < 128 ==> Step(true, FromInt(i), poly) == FromInt(2 * i)
    ensures i > 1 ==> Step(false, FromInt(i), poly) == FromInt(i / 2)
  {
    hide BitOf, FromInt;
    SingleBit(i);
    SingleBit(2 * i);
    SingleBit(i / 2);
  }

  /** The bits of a power of two. */
  lemma SingleBit(i: int)
    ensures IsBit(i) ==> FromInt(i) == U8(i == 128, i == 64, i == 32, i == 16, i == 8, i == 4, i == 2, i == 1)
  {
    if i < 16 {
      assert IsBit(i) ==> i == 1 || i == 2 || i == 4 || i == 8;
    } else {
      assert IsBit(i) ==> i == 16 || i == 32 || i == 64 || i == 128;
    }
  }

  /** The entry of a power of two is one step from the entry of its neighbour, for tables of any number of steps. */
  lemma NextPower(n: nat, i: int, poly: U8)
    requires IsBit(i)
    ensures i < 128 ==> Steps(true, n, FromInt(2 * i), poly) == Step(true, Steps(true, n, FromInt(i), poly), poly)
    ensures i > 1 ==> Steps(false, n, FromInt(i / 2), poly) == Step(false, Steps(false, n, FromInt(i), poly), poly)
  {
    hide Step, FromInt, Steps;
    StepShifts(i, poly);
    StepsCommute(true, n, FromInt(i), poly);
    StepsCommute(false, n, FromInt(i), poly);
  }

  /** Shifts that a single bit survives, most significant bit first and least significant first. */
  function Above(i: int): nat
    requires i >= 1
    decreases 128 - i
  {
    if i >= 128 then 0 else 1 + Above(2 * i)
  }

  function Below(i: int): nat
    decreases i
  {
    if i <= 1 then 0 else 1 + Below(i / 2)
  }

  /** A bit is shifted until it is the next to leave, and then divided. */
  lemma {:induction false} FirstMsb(i: int, poly: U8)
    requires IsBit(i)
    ensures Steps(true, Above(i) + 1, FromInt(i), poly) == Step(true, MSBIT, poly)
    decreases 128 - i
  {
    hide Step, FromInt;
    TopBit();
    StepShifts(i, poly);
    if i < 128 {
      FirstMsb(2 * i, poly);
    } else {
      assert Steps(true, 0, Step(true, MSBIT, poly), poly) == Step(true, MSBIT, poly);
    }
  }

  lemma {:induction false} FirstLsb(i: int, poly: U8)
    requires IsBit(i)
    ensures Steps(false, Below(i) + 1, FromInt(i), poly) == Step(false, ONE, poly)
    decreases i
  {
    hide Step, FromInt;
    TopBit();
    StepShifts(i, poly);
    if i > 1 {
      FirstLsb(i / 2, poly);
    } else {
      assert Steps(false, 0, Step(false, ONE, poly), poly) == Step(false, ONE, poly);
    }
  }

  lemma SevenShifts()
    ensures Above(1) == 7 && Below(128) == 7
  {
  }

  lemma TopBit()
    ensures FromInt(128) == MSBIT && FromInt(1) == ONE && FromInt(0) == ZERO
  {
  }

  /** Adding a power of two to a number that does not contain it sets that bit and no other. */
  lemma NibbleSum(i: int, n: int, weight: int)
    requires (i == 1 || i == 2 || i == 4 || i == 8) && 0 <= n < 16 && i + n < 16 && (n < i || n % (2 * i) == 0)
    requires weight == 1 || weight == 2 || weight == 4 || weight == 8
    ensures BitOf(i + n, weight) == (BitOf(n, weight) != (weight == i))
  {
    if i == 1 {
      assert n == 0 || n == 2 || n == 4 || n == 6 || n == 8 || n == 10 || n == 12 || n == 14;
    } else if i == 2 {
      assert n == 0 || n == 1 || n == 4 || n == 8 || n == 12;
    } else if i == 4 {
      assert n == 0 || n == 1 || n == 2 || n == 3 || n == 8;
    } else {
      assert n == 0 || n == 1 || n == 2 || n == 3 || n == 4 || n == 5 || n == 6 || n == 7;
    }
  }

  lemma NibbleBit(i: int, weight: int)
    requires (i == 0 || i == 1 || i == 2 || i == 4 || i == 8)
    requires weight == 1 || weight == 2 || weight == 4 || weight == 8
    ensures BitOf(i, weight) == (weight == i)
  {
  }

  lemma SplitLow(i: int, j: int)
    requires IsBit(i) && i < 16 && 0 <= j < 256 && i + j < 256 && (j < i || j % (2 * i) == 0)
    ensures (i + j) / 16 == j / 16 && (i + j) % 16 == i + j % 16 < 16 && (j % 16 < i || (j % 16) % (2 * i) == 0)
  {
    if i == 1 {
      LowBits(j, 2, 8);
    } else if i == 2 {
      LowBits(j, 4, 4);
    } else if i == 4 {
      LowBits(j, 8, 2);
    } else {
      assert i == 8 && (j < 8 || j % 16 == 0);
    }
  }

  lemma LowBits(j: int, m: int, n: int)
    requires m > 0 && n * m == 16
    ensures j % 16 % m == j % m
  {
    ResidueDrops(j, j / 16 * n, m);
    assert j / 16 * n * m == j / 16 * (n * m);
  }

  lemma SplitHigh(i: int, j: int)
    requires IsBit(i) && i >= 16 && 0 <= j < 256 && i + j < 256 && (j < i || j % (2 * i) == 0)
    ensures (i + j) / 16 == i / 16 + j / 16 < 16 && (i + j) % 16 == j % 16
    ensures j / 16 < i / 16 || (j / 16) % (2 * (i / 16)) == 0
  {
    if i == 16 {
      assert j < 16 || j % 32 == 0;
      return;
    }
    if i == 32 {
      assert j < 32 || j % 64 == 0;
      return;
    }
    if i == 64 {
      assert j < 64 || j % 128 == 0;
      return;
    }
    assert i == 128 && j < 128;
  }

  /** Adding a power of two to an index that does not contain it sets one bit. */
  lemma IndexSum(i: int, j: int)
    requires IsBit(i) && 0 <= j < 256 && i + j < 256 && (j < i || j % (2 * i) == 0)
    ensures FromInt(i + j) == Xor(FromInt(j), FromInt(i))
  {
    hide BitOf;
    var h, l := i / 16, i % 16;
    NibbleBit(h, 8);
    NibbleBit(h, 4);
    NibbleBit(h, 2);
    NibbleBit(h, 1);
    NibbleBit(l, 8);
    NibbleBit(l, 4);
    NibbleBit(l, 2);
    NibbleBit(l, 1);
    if i < 16 {
      SplitLow(i, j);
      NibbleSum(i, j % 16, 8);
      NibbleSum(i, j % 16, 4);
      NibbleSum(i, j % 16, 2);
      NibbleSum(i, j % 16, 1);
    } else {
      SplitHigh(i, j);
      NibbleSum(h, j / 16, 8);
      NibbleSum(h, j / 16, 4);
      NibbleSum(h, j / 16, 2);
      NibbleSum(h, j / 16, 1);
    }
  }

  /** Entry `k` of a finished table. */
  predicate Entry(table: seq<U8>, k: int, msb: bool, poly: U8)
    requires |table| == 256
  {
    0 <= k < 256 ==> table[k] == Byte(msb, FromInt(k), poly)
  }

  ghost predicate Filled(table: seq<U8>, msb: bool, poly: U8) {
    |table| == 256 && forall k :: 0 <= k < 256 ==> Entry(table, k, msb, poly)
  }

  lemma SumEntry(n: nat, i: int, j: int, msb: bool, poly: U8)
    requires IsBit(i) && 0 <= j < 256 && i + j < 256 && (j < i || j % (2 * i) == 0)
    ensures Steps(msb, n, FromInt(i + j), poly) == Xor(Steps(msb, n, FromInt(j), poly), Steps(msb, n, FromInt(i), poly))
  {
    hide Steps, FromInt, Xor;
    IndexSum(i, j);
    StepsLinear(msb, n, FromInt(j), FromInt(i), poly);
  }

  /** crc8_populate_msb: each doubling copies the lower half, shifted by the next power's entry. */
  method PopulateMsb(table: array<U8>, poly: U8)
    requires table.Length == 256
    modifies table
    ensures Filled(table[..], true, poly)
  {
    hide Steps, Step, Xor, FromInt;
    var t := MSBIT;
    table[0] := ZERO;
    ZeroEntry(true, poly);
    FirstMsb(1, poly);
    SevenShifts();
    var i := 1;
    while i < 256
      invariant IsBit(i) || i == 256
      invariant i < 256 ==> Step(true, t, poly) == Byte(true, FromInt(i), poly)
      invariant forall k :: 0 <= k < i ==> Entry(table[..], k, true, poly)
      decreases 256 - i
    {
      t := Step(true, t, poly);
      var j := 0;
      while j < i
        invariant 0 <= j <= i
        invariant forall k :: 0 <= k < i + j ==> Entry(table[..], k, true, poly)
      {
        SumEntry(8, i, j, true, poly);
        assert Entry(table[..], j, true, poly);
        ghost var before := table[..];
        table[i + j] := Xor(table[j], t);
        forall k | 0 <= k < i + j
          ensures Entry(table[..], k, true, poly)
        {
          assert Entry(before, k, true, poly);
        }
        j := j + 1;
      }
      NextPower(8, i, poly);
      i := 2 * i;
    }
  }

  lemma ZeroEntry(msb: bool, poly: U8)
    ensures Byte(msb, FromInt(0), poly) == ZERO
  {
    TopBit();
    StepsZero(msb, 8, poly);
  }

  /** crc8_populate_lsb: from the largest power of two down, filling in between. */
  method PopulateLsb(table: array<U8>, poly: U8)
    requires table.Length == 256
    modifies table
    ensures Filled(table[..], false, poly)
  {
    hide Steps, Step, Xor, FromInt;
    var t := ONE;
    table[0] := ZERO;
    ZeroEntry(false, poly);
    FirstLsb(128, poly);
    SevenShifts();
    var i := 128;
    while i > 0
      invariant IsBit(i) || i == 0
      invariant i > 0 ==> Step(false, t, poly) == Byte(false, FromInt(i), poly)
      invariant forall k :: 0 <= k < 256 && Multiple(k, 2 * i) ==> Entry(table[..], k, false, poly)
      decreases i
    {
      t := Step(false, t, poly);
      FillBetween(table, poly, i, t);
      NextPower(8, i, poly);
      i := i / 2;
    }
  }

  /** Multiples of `m`; every number for the last round, when `m` is 0. */
  predicate Multiple(k: int, m: int) {
    m == 0 || k % m == 0
  }

  method FillBetween(table: array<U8>, poly: U8, i: int, t: U8)
    requires table.Length == 256 && IsBit(i) && t == Byte(false, FromInt(i), poly)
    requires forall k :: 0 <= k < 256 && Multiple(k, 2 * i) ==> Entry(table[..], k, false, poly)
    modifies table
    ensures forall k :: 0 <= k < 256 && Multiple(k, i / 2 * 2) ==> Entry(table[..], k, false, poly)
  {
    hide Steps, Step, Xor, FromInt;
    var j := 0;
    while j < 256
      invariant 0 <= j <= 256 && j % (2 * i) == 0
      invariant forall k :: 0 <= k < 256 && Multiple(k, 2 * i) ==> Entry(table[..], k, false, poly)
      invariant forall k :: 0 <= k < j && Multiple(k, i) ==> Entry(table[..], k, false, poly)
    {
      SumEntry(8, i, j, false, poly);
      assert Multiple(j, 2 * i);
      assert Entry(table[..], j, false, poly);
      ghost var before := table[..];
      table[i + j] := Xor(table[j], t);
      forall k | 0 <= k < 256 && k != i + j && Entry(before, k, false, poly)
        ensures Entry(table[..], k, false, poly)
      {
      }
      Spacing(i, j);
      j := j + 2 * i;
    }
  }

  /** Between two multiples of 2i the only other multiple of i is halfway. */
  lemma Spacing(i: int, j: int)
    requires IsBit(i) && 0 <= j < 256 && j % (2 * i) == 0
    ensures i + j < 256 && j + 2 * i <= 256 && (j + 2 * i) % (2 * i) == 0 && !Multiple(i + j, 2 * i)
    ensures forall k :: j <= k < j + 2 * i && Multiple(k, i) ==> k == j || k == i + j
  {
    forall k | j <= k < j + 2 * i && Multiple(k, i)
      ensures k == j || k == i + j
    {
      SpacingAt(i, j, k);
    }
    SpacingNext(i, j);
  }

  lemma SpacingAt(i: int, j: int, k: int)
    requires i > 0 && j % (2 * i) == 0 && j <= k < j + 2 * i && k % i == 0
    ensures k == j || k == i + j
  {
    var q, p := j / (2 * i), k / i;
    assert j == q * (2 * i) == (2 * q) * i && k == p * i;
    Distribute(2 * q, p - 2 * q, i);
    if p - 2 * q >= 2 {
      Distribute(2, p - 2 * q - 2, i);
    } else if p - 2 * q <= -1 {
      MulAtLeast(2 * q - p, i);
    }
  }

  lemma NextMultiple(j: int, m: int, c: int)
    requires m > 0 && 0 <= j < c * m && j % m == 0
    ensures j + m <= c * m && (j + m) % m == 0
  {
    var q := j / m;
    assert j == q * m;
    Distribute(q, 1, m);
    DivModUnique(j + m, m, q + 1, 0);
    if q >= c {
      Distribute(c, q - c, m);
    }
    Distribute(q + 1, c - q - 1, m);
  }

  lemma SpacingNext(i: int, j: int)
    requires IsBit(i) && 0 <= j < 256 && j % (2 * i) == 0
    ensures i + j < 256 && j + 2 * i <= 256 && (j + 2 * i) % (2 * i) == 0 && (i + j) % (2 * i) != 0
  {
    var c := if i == 1 then 128 else if i == 2 then 64 else if i == 4 then 32 else if i == 8 then 16
             else if i == 16 then 8 else if i == 32 then 4 else if i == 64 then 2 else 1;
    NextMultiple(j, 2 * i, c);
    DivModUnique(i + j, 2 * i, j / (2 * i), i);
  }

  /** crc8: with a filled table, the byte loop computes the bitwise CRC of every message. */
  method Crc8(table: array<U8>, data: seq<U8>, crc0: U8, ghost msb: bool, ghost poly: U8) returns (crc: U8)
    requires Filled(table[..], msb, poly)
    ensures crc == BitCrc(msb, poly, crc0, data)
  {
    hide Byte, Xor, FromInt, ToInt;
    crc := crc0;
    var i := 0;
    assert data[i..] == data;
    while i < |data|
      invariant 0 <= i <= |data|
      invariant BitCrc(msb, poly, crc, data[i..]) == BitCrc(msb, poly, crc0, data)
    {
      var x := Xor(crc, data[i]);
      FromToInt(x);
      assert Entry(table[..], ToInt(x), msb, poly);
      assert data[i..][0] == data[i] && data[i..][1..] == data[i + 1..];
      crc := table[ToInt(x)];
      i := i + 1;
    }
    assert data[i..] == [];
  }
}
