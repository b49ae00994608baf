/** Ring buffers with free-running 32-bit indices: the arithmetic behind kfifo.c. */
module Ring {
  import opened Arith

  const WORD := 0x1_0000_0000

  /** is_power_of_2 */
  predicate PowerOfTwo(n: int) {
    n == 1 || (n > 1 && n % 2 == 0 && PowerOfTwo(n / 2))
  }

  /** rounddown_pow_of_two */
  function RoundDown(n: nat): (p: nat)
    requires n > 0
    ensures PowerOfTwo(p) && p <= n < 2 * p
  {
    if n == 1 then 1 else 2 * RoundDown(n / 2)
  }

  lemma {:induction false} PowersDivide(a: nat, b: nat)
    requires PowerOfTwo(a) && PowerOfTwo(b) && a <= b
    ensures exists k: nat {:trigger k * a} :: b == k * a
  {
    if a == 1 {
      assert b == b * a;
    } else {
      PowersDivide(a / 2, b / 2);
      var k: nat :| b / 2 == k * (a / 2);
      Halves(a, b, k);
    }
  }

  lemma Halves(a: nat, b: nat, k: nat)
    requires a % 2 == 0 && b % 2 == 0 && b / 2 == k * (a / 2)
    ensures b == k * a
  {
    assert k * a == k * (2 * (a / 2)) == 2 * (k * (a / 2));
  }

  /** Position `x` of a ring of `n` cells, for positions that have gone round at most once. */
  function Wrap(x: nat, n: nat): (r: nat)
    requires x < 2 * n
    ensures r < n
  {
    if x < n then x else x - n
  }

  /** An index that advances modulo 2^32 moves through a ring of power-of-two size without a jump. */
  lemma IndexAdvances(i: nat, k: nat, size: nat)
    requires PowerOfTwo(size) && size <= WORD && i < WORD && k <= size
    ensures (i + k) % WORD % size == Wrap(i % size + k, size)
  {
    hide PowerOfTwo, Wrap;
    PowersOfTwoBelowWord();
    PowersDivide(size, WORD);
    ResidueAdvances(i, k, size);
    if i + k >= WORD {
      var c: nat :| WORD == c * size;
      OneWrap(i + k);
      ResidueDrops(i + k, c, size);
    }
  }

  lemma OneWrap(x: int)
    requires WORD <= x < 2 * WORD
    ensures x % WORD == x - WORD
  {
  }

  lemma ResidueAdvances(i: nat, k: nat, size: nat)
    requires 0 < size && k <= size
    ensures (i + k) % size == Wrap(i % size + k, size)
  {
    var q, r := i / size, i % size;
    var w := Wrap(r + k, size);
    Distribute(q, 1, size);
    if r + k < size {
      DivModUnique(i + k, size, q, w);
    } else {
      DivModUnique(i + k, size, q + 1, w);
    }
  }

  lemma PowersOfTwoBelowWord()
    ensures PowerOfTwo(WORD)
  {
    Doubles(0x1_0000); Doubles(0x2_0000); Doubles(0x4_0000); Doubles(0x8_0000);
    Doubles(0x10_0000); Doubles(0x20_0000); Doubles(0x40_0000); Doubles(0x80_0000);
    Doubles(0x100_0000); Doubles(0x200_0000); Doubles(0x400_0000); Doubles(0x800_0000);
    Doubles(0x1000_0000); Doubles(0x2000_0000); Doubles(0x4000_0000); Doubles(0x8000_0000);
    Doubles(1); Doubles(2); Doubles(4); Doubles(8); Doubles(16); Doubles(32); Doubles(64); Doubles(128);
    Doubles(256); Doubles(512); Doubles(1024); Doubles(2048); Doubles(4096); Doubles(8192); Doubles(16384);
    Doubles(32768);
  }

  lemma Doubles(n: nat)
    requires n > 0
    ensures PowerOfTwo(n) ==> PowerOfTwo(2 * n)
  {
  }

  lemma HalfOfWord(size: nat)
    requires PowerOfTwo(size) && size < WORD
    ensures size <= 0x8000_0000
  {
    hide PowerOfTwo;
    PowersOfTwoBelowWord();
    PowersDivide(size, WORD);
    var k: nat :| WORD == k * size;
    if k >= 2 {
      MulAtLeast(k - 1, size);
      Distribute(k - 1, 1, size);
    }
  }

  /** Index `i` advanced by `k` cells is the cell `k` further on in the ring. */
  predicate Smooth(i: nat, k: nat, size: nat)
    requires 0 < size && k <= size
  {
    (i + k) % WORD % size == Wrap(i % size + k, size)
  }

  lemma {:induction false} DivisorOfPower(a: nat, k: nat, b: nat)
    requires PowerOfTwo(b) && b == k * a
    ensures PowerOfTwo(a)
    decreases b
  {
    if b == 1 {
      UnitProduct(k, a);
    } else if a % 2 == 0 {
      HalfProduct(k, a / 2, b);
      DivisorOfPower(a / 2, k, b / 2);
    } else {
      EvenFactor(k, a, b);
      HalfProduct(a, k / 2, b);
      DivisorOfPower(a, k / 2, b / 2);
    }
  }

  lemma UnitProduct(k: nat, a: nat)
    requires k * a == 1
    ensures a == 1
  {
    if a >= 2 {
      if k >= 1 {
        MulAtLeast(k, a);
      }
    }
  }

  lemma HalfProduct(k: nat, h: nat, b: nat)
    requires b == k * (2 * h) || b == (2 * h) * k
    ensures b / 2 == k * h == h * k
  {
    assert k * (2 * h) == 2 * (k * h);
  }

  lemma EvenFactor(k: nat, a: nat, b: nat)
    requires b == k * a && b % 2 == 0 && a % 2 == 1
    ensures k % 2 == 0
  {
    assert b == k * (2 * (a / 2) + 1) == 2 * (k * (a / 2)) + k;
  }

  /** For every other size the last index before the wrap jumps: the reason __kfifo_alloc rounds down. */
  lemma OtherSizesJump(size: nat)
    requires 0 < size <= WORD && !PowerOfTwo(size)
    ensures !Smooth(WORD - 1, 1, size)
  {
    hide PowerOfTwo, Smooth, LastCell;
    PowersOfTwoBelowWord();
    LastStep(size);
    if LastCell(WORD, size) {
      LastCellDivides(WORD, size);
      DivisorOfPower(size, (WORD - 1) / size + 1, WORD);
    }
  }

  /** The index before the wrap stands for the last cell of the ring. */
  predicate LastCell(w: nat, size: nat)
    requires 0 < size
  {
    (w - 1) % size == size - 1
  }

  lemma LastStep(size: nat)
    requires 0 < size
    ensures Smooth(WORD - 1, 1, size) ==> LastCell(WORD, size)
  {
    assert (WORD - 1 + 1) % WORD == 0;
    DivModUnique(0, size, 0, 0);
  }

  lemma LastCellDivides(w: nat, size: nat)
    requires 0 < size && LastCell(w, size)
    ensures w == ((w - 1) / size + 1) * size
  {
    Distribute((w - 1) / size, 1, size);
  }

  /** Free-running 32-bit indices work for the powers of two and for no other size. */
  lemma SizesThatWork(size: nat)
    requires 0 < size <= WORD
    ensures PowerOfTwo(size) <==> forall i: nat, k: nat :: i < WORD && k <= size ==> Smooth(i, k, size)
  {
    hide PowerOfTwo, Smooth;
    if PowerOfTwo(size) {
      forall i: nat, k: nat | i < WORD && k <= size
        ensures Smooth(i, k, size)
      {
        IndexAdvances(i, k, size);
        SmoothMeans(i, k, size);
      }
    } else {
      OtherSizesJump(size);
    }
  }

  lemma SmoothMeans(i: nat, k: nat, size: nat)
    requires 0 < size && k <= size
    ensures Smooth(i, k, size) <==> (i + k) % WORD % size == Wrap(i % size + k, size)
  {
  }

  // ---- Reading and writing round the end of the buffer ----

  function Read<T>(d: seq<T>, start: nat, n: nat): (r: seq<T>)
    requires start < |d| && n <= |d|
    ensures |r| == n
  {
    seq(n, j requires 0 <= j < n => d[Wrap(start + j, |d|)])
  }

  function Write<T>(d: seq<T>, start: nat, src: seq<T>): (r: seq<T>)
    requires start < |d| && |src| <= |d|
    ensures |r| == |d|
  {
    seq(|d|, k requires 0 <= k < |d| =>
      var j := if k >= start then k - start else k + |d| - start;
      if j < |src| then src[j] else d[k])
  }

  lemma ReadAt<T>(d: seq<T>, start: nat, n: nat, j: nat)
    requires start < |d| && j < n <= |d|
    ensures Read(d, start, n)[j] == d[Wrap(start + j, |d|)]
  {
  }

  /** What is written behind the contents is appended to them. */
  lemma ReadAfterWrite<T>(d: seq<T>, start: nat, n: nat, src: seq<T>)
    requires start < |d| && n + |src| <= |d| && n < |d|
    ensures Read(Write(d, Wrap(start + n, |d|), src), start, n + |src|) == Read(d, start, n) + src
  {
    var w := Wrap(start + n, |d|);
    forall j | 0 <= j < n + |src|
      ensures Read(Write(d, w, src), start, n + |src|)[j] == (Read(d, start, n) + src)[j]
    {
      var k := Wrap(start + j, |d|);
      assert Write(d, w, src)[k] == if j >= n then src[j - n] else d[k];
    }
  }

  lemma WriteNothing<T>(d: seq<T>, start: nat)
    requires start < |d|
    ensures Write(d, start, []) == d
  {
  }

  lemma WriteTwice<T>(d: seq<T>, start: nat, a: seq<T>, b: seq<T>)
    requires start < |d| && |a| + |b| <= |d|
    ensures Write(Write(d, start, a), Wrap(start + |a|, |d|), b) == Write(d, start, a + b)
  {
  }

  /** Skipping from the front of the contents. */
  lemma ReadSkip<T>(d: seq<T>, start: nat, n: nat, k: nat)
    requires start < |d| && k <= n <= |d|
    ensures Read(d, start, n)[k..] == Read(d, Wrap(start + k, |d|), n - k)
  {
    forall j | 0 <= j < n - k
      ensures Read(d, start, n)[k..][j] == Read(d, Wrap(start + k, |d|), n - k)[j]
    {
      ReadAt(d, start, n, k + j);
      ReadAt(d, Wrap(start + k, |d|), n - k, j);
      assert Wrap(start + (k + j), |d|) == Wrap(Wrap(start + k, |d|) + j, |d|);
    }
  }

  lemma ReadPrefix<T>(d: seq<T>, start: nat, n: nat, k: nat)
    requires start < |d| && k <= n <= |d|
    ensures Read(d, start, n)[..k] == Read(d, start, k)
  {
  }
}
