/** struct __kfifo (kfifo.c): a ring of `mask + 1` elements of `esize` bytes with free-running 32-bit indices, and its
    record mode. Masking an index is taking it modulo the size, a power of two. */
module Kfifo {
  import opened Octets
  import opened Ring
  import opened Arith

  /** (a - b) in 32-bit arithmetic */
  function Sub32(a: nat, b: nat): (r: nat)
    requires a < WORD && b < WORD
    ensures r < WORD
  {
    (a - b) % WORD
  }

  lemma SubBehind(a: nat, n: nat)
    requires a < WORD && 0 < n < WORD
    ensures Sub32(a, (a + n) % WORD) == WORD - n
  {
  }

  lemma SubAdvance(a: nat, b: nat, n: nat)
    requires a < WORD && b < WORD && Sub32(a, b) + n < WORD
    ensures Sub32((a + n) % WORD, b) == Sub32(a, b) + n
  {
  }

  lemma SubSkip(a: nat, b: nat, n: nat)
    requires a < WORD && b < WORD && n <= Sub32(a, b)
    ensures Sub32(a, (b + n) % WORD) == Sub32(a, b) - n
  {
  }

  function Min(a: nat, b: nat): (m: nat)
    ensures m <= a && m <= b && (m == a || m == b)
  {
    if a < b then a else b
  }

  /** Elements counted in bytes. */
  function Scale(a: nat, e: nat): nat {
    a * e
  }

  lemma ScaleLess(a: nat, b: nat, e: nat)
    requires a < b && e > 0
    ensures Scale(a, e) < Scale(b, e)
  {
    Distribute(a, b - a, e);
    MulAtLeast(b - a, e);
  }

  lemma ScaleAtMost(a: nat, b: nat, e: nat)
    requires a <= b
    ensures Scale(a, e) <= Scale(b, e)
  {
    Distribute(a, b - a, e);
  }

  lemma ScaleAdd(a: nat, b: nat, e: nat)
    ensures Scale(a + b, e) == Scale(a, e) + Scale(b, e)
  {
    Distribute(a, b, e);
  }

  lemma ScaleZero(e: nat)
    ensures Scale(0, e) == 0
  {
  }

  lemma ScaleWrap(r: nat, k: nat, size: nat, e: nat)
    requires r < size && k <= size && e > 0
    ensures Scale(r, e) < Scale(size, e) && Scale(k, e) <= Scale(size, e)
    ensures Scale(Wrap(r + k, size), e) == Wrap(Scale(r, e) + Scale(k, e), Scale(size, e))
  {
    hide Scale;
    ScaleLess(r, size, e);
    ScaleAtMost(k, size, e);
    ScaleAdd(r, k, e);
    if r + k < size {
      ScaleLess(r + k, size, e);
    } else {
      ScaleAdd(r + k - size, size, e);
    }
  }

  class Fifo {
    var inIdx: nat
    var outIdx: nat
    const mask: nat
    const esize: nat
    const data: array<byte>

    ghost predicate Valid()
      reads this
    {
      && esize > 0
      && 2 <= mask + 1 < WORD && PowerOfTwo(mask + 1)
      && data.Length == Scale(mask + 1, esize) < WORD
      && inIdx < WORD && outIdx < WORD
      && Sub32(inIdx, outIdx) <= mask + 1
    }

    /** Elements held */
    function Len(): (n: nat)
      requires inIdx < WORD && outIdx < WORD
      reads this
    {
      Sub32(inIdx, outIdx)
    }

    /** First byte position of the element an index stands for */
    function Offset(idx: nat): (o: nat) {
      Scale(idx % (mask + 1), esize)
    }

    lemma Fits()
      requires Valid()
      ensures Scale(Len(), esize) <= data.Length && data.Length > 0
      ensures Offset(outIdx) < data.Length && Offset(inIdx) < data.Length
    {
      hide Scale, PowerOfTwo;
      ScaleAtMost(Len(), mask + 1, esize);
      ScaleLess(outIdx % (mask + 1), mask + 1, esize);
      ScaleLess(inIdx % (mask + 1), mask + 1, esize);
    }

    /** The bytes in the fifo, oldest first */
    ghost function Contents(): (c: seq<byte>)
      requires Valid()
      reads this, data
    {
      Fits();
      Read(data[..], Offset(outIdx), Scale(Len(), esize))
    }

    /** __kfifo_alloc when memory is found: the size is rounded down to a power of two. */
    constructor (size: nat, elem: nat)
      requires 2 <= size < WORD && elem > 0 && Scale(RoundDown(size), elem) < WORD
      ensures Valid() && Contents() == [] && fresh(data)
      ensures esize == elem && mask + 1 == RoundDown(size)
    {
      hide Scale, PowerOfTwo;
      ScaleZero(elem);
      ScaleLess(0, RoundDown(size), elem);
      inIdx, outIdx, esize := 0, 0, elem;
      mask := RoundDown(size) - 1;
      data := new byte[Scale(RoundDown(size), elem)](_ => 0);
    }

    /** __kfifo_alloc with its two failures: fewer than two elements, or no memory. */
    static method Alloc(size: nat, elem: nat, memory: bool) returns (r: Option<Fifo>)
      requires 0 < size < WORD && elem > 0 && Scale(RoundDown(size), elem) < WORD
      ensures r.Some? <==> size >= 2 && memory
      ensures r.Some? ==> r.value.Valid() && r.value.Contents() == [] && r.value.mask + 1 == RoundDown(size)
    {
      if RoundDown(size) < 2 || !memory {
        return None;
      }
      var f := new Fifo(size, elem);
      return Some(f);
    }

    /** kfifo_unused */
    method Unused() returns (n: nat)
      requires Valid()
      ensures n == mask + 1 - Len()
    {
      n := mask + 1 - Sub32(inIdx, outIdx);
    }

    /** kfifo_copy_in: two block copies, the second one round the end of the buffer. */
    method CopyIn(src: seq<byte>, len: nat, off: nat)
      requires Valid() && len <= mask + 1 && Scale(len, esize) <= |src|
      requires Scale(len, esize) <= data.Length && Offset(off) < data.Length
      modifies data
      ensures data[..] == Write(old(data[..]), Offset(off), src[..Scale(len, esize)])
    {
      hide Scale, PowerOfTwo;
      var start := Scale(off % (mask + 1), esize);
      var bytes := Scale(len, esize);
      var l := Min(bytes, data.Length - start);
      forall i | 0 <= i < l {
        data[start + i] := src[i];
      }
      forall i | 0 <= i < bytes - l {
        data[i] := src[l + i];
      }
    }

    /** kfifo_copy_out */
    method CopyOut(len: nat, off: nat) returns (dst: seq<byte>)
      requires Valid() && len <= mask + 1
      requires Scale(len, esize) <= data.Length && Offset(off) < data.Length
      ensures dst == Read(data[..], Offset(off), Scale(len, esize))
    {
      hide Scale, PowerOfTwo;
      var start := Scale(off % (mask + 1), esize);
      var bytes := Scale(len, esize);
      var l := Min(bytes, data.Length - start);
      dst := data[start..start + l] + data[..bytes - l];
      forall j | 0 <= j < bytes
        ensures dst[j] == data[..][Wrap(start + j, data.Length)]
      {
      }
    }

    /** The byte position of an index `k` elements further on. */
    lemma OffsetAdvances(idx: nat, k: nat)
      requires Valid() && idx < WORD && k <= mask + 1
      ensures Offset(idx) < data.Length && Scale(k, esize) <= data.Length
      ensures Offset((idx + k) % WORD) == Wrap(Offset(idx) + Scale(k, esize), data.Length)
    {
      hide Scale, PowerOfTwo;
      IndexAdvances(idx, k, mask + 1);
      ScaleWrap(idx % (mask + 1), k, mask + 1, esize);
    }

    /** inIdx is Len() elements after outIdx. */
    lemma InAfterOut()
      requires Valid()
      ensures (outIdx + Len()) % WORD == inIdx
    {
      hide Scale, PowerOfTwo;
    }

    /** __kfifo_in: as many elements as there is room for, appended. */
    method In(buf: seq<byte>, len: nat) returns (n: nat)
      requires Valid() && Scale(len, esize) <= |buf|
      modifies this`inIdx, data
      ensures Valid() && n == Min(len, mask + 1 - old(Len())) && Scale(n, esize) <= |buf|
      ensures Contents() == old(Contents()) + buf[..Scale(n, esize)]
    {
      hide Scale, PowerOfTwo, Read, Write, Sub32, Offset;
      var l := Unused();
      n := Min(len, l);
      ScaleAtMost(n, len, esize);
      Append(buf[..Scale(n, esize)], n);
      CopyIn(buf, n, inIdx);
      inIdx := (inIdx + n) % WORD;
    }

    /** Writing `src`, `n` elements long, at the current input position. */
    lemma Append(src: seq<byte>, n: nat)
      requires Valid() && n <= mask + 1 - Len() && |src| == Scale(n, esize)
      ensures Scale(Len() + n, esize) == Scale(Len(), esize) + Scale(n, esize) <= data.Length
      ensures Offset(inIdx) < data.Length && Offset(outIdx) < data.Length && Scale(n, esize) <= data.Length
      ensures Sub32((inIdx + n) % WORD, outIdx) == Len() + n
      ensures Scale(Len(), esize) <= data.Length
      ensures Read(Write(data[..], Offset(inIdx), src), Offset(outIdx), Scale(Len() + n, esize)) == Contents() + src
    {
      hide Scale, PowerOfTwo, Read, Write, Sub32, Offset;
      Fits();
      SubAdvance(inIdx, outIdx, n);
      ScaleAdd(Len(), n, esize);
      ScaleAtMost(Len() + n, mask + 1, esize);
      OffsetAdvances(outIdx, Len());
      InAfterOut();
      if n == 0 {
        ScaleZero(esize);
        assert src == [];
        WriteNothing(data[..], Offset(inIdx));
        assert Contents() + src == Contents();
      } else {
        ScaleLess(Len(), mask + 1, esize);
        ReadAfterWrite(data[..], Offset(outIdx), Scale(Len(), esize), src);
      }
    }

    /** __kfifo_out_peek: the oldest elements, up to `len` of them. */
    method OutPeek(len: nat) returns (buf: seq<byte>, n: nat)
      requires Valid()
      ensures n == Min(len, Len()) && Scale(n, esize) <= |Contents()| && buf == Contents()[..Scale(n, esize)]
    {
      hide Scale, PowerOfTwo, Read;
      n := Min(len, Sub32(inIdx, outIdx));
      Fits();
      ScaleAtMost(n, Len(), esize);
      ReadPrefix(data[..], Offset(outIdx), Scale(Len(), esize), Scale(n, esize));
      buf := CopyOut(n, outIdx);
    }

    /** __kfifo_out */
    method Out(len: nat) returns (buf: seq<byte>, n: nat)
      requires Valid()
      modifies this`outIdx
      ensures Valid() && n == Min(len, old(Len())) && Scale(n, esize) <= |old(Contents())|
      ensures buf == old(Contents())[..Scale(n, esize)] && Contents() == old(Contents())[Scale(n, esize)..]
    {
      hide Scale, PowerOfTwo, Read, Sub32, Offset;
      buf, n := OutPeek(len);
      Skip(n);
      outIdx := (outIdx + n) % WORD;
    }

    /** Advancing the output index past `n` elements. */
    lemma Skip(n: nat)
      requires Valid() && n <= Len()
      ensures Scale(n, esize) <= Scale(Len(), esize) <= data.Length && Offset(outIdx) < data.Length
      ensures Scale(Len() - n, esize) == Scale(Len(), esize) - Scale(n, esize)
      ensures Sub32(inIdx, (outIdx + n) % WORD) == Len() - n
      ensures Offset((outIdx + n) % WORD) < data.Length
      ensures Read(data[..], Offset((outIdx + n) % WORD), Scale(Len() - n, esize)) == Contents()[Scale(n, esize)..]
    {
      hide Scale, PowerOfTwo, Read, Sub32, Offset;
      Fits();
      SubSkip(inIdx, outIdx, n);
      OffsetAdvances(outIdx, n);
      ScaleAtMost(n, Len(), esize);
      ScaleAdd(Len() - n, n, esize);
      ReadSkip(data[..], Offset(outIdx), Scale(Len(), esize), Scale(n, esize));
    }

    // ---- Record mode: each record is preceded by its length in one or two bytes ----

    /** __kfifo_poke_n: the low bytes of the length, at the input position. */
    method PokeN(n: nat, recsize: nat)
      requires Valid() && esize == 1 && 1 <= recsize <= 2 && recsize <= mask + 1 - Len()
      modifies data
      ensures Offset(inIdx) < data.Length && recsize <= data.Length
      ensures data[..] == Write(old(data[..]), Offset(inIdx), Prefix(n, recsize))
    {
      hide PowerOfTwo;
      OffsetAdvances(inIdx, 1);
      Fits();
      data[inIdx % (mask + 1)] := n % 256;
      if recsize > 1 {
        data[(inIdx + 1) % WORD % (mask + 1)] := n / 256 % 256;
      }
    }

    /** __kfifo_peek_n: the length in front of the oldest record; whatever lies there when there is none. */
    method PeekN(recsize: nat) returns (n: nat)
      requires Valid() && esize == 1 && 1 <= recsize <= 2
      ensures |Contents()| == Len() && n < Capacity(recsize)
      ensures recsize <= Len() ==> n == LengthIn(Contents(), recsize)
    {
      hide PowerOfTwo, Scale, Sub32, Read;
      Fits();
      UnitScale(1);
      UnitScale(Len());
      UnitScale(outIdx % (mask + 1));
      UnitScale((outIdx + 1) % WORD % (mask + 1));
      OffsetAdvances(outIdx, 1);
      if Len() > 0 {
        ReadAt(data[..], Offset(outIdx), Len(), 0);
      }
      var low: int := data[outIdx % (mask + 1)];
      n := low;
      if recsize > 1 {
        if Len() > 1 {
          ReadAt(data[..], Offset(outIdx), Len(), 1);
        }
        var high: int := data[(outIdx + 1) % WORD % (mask + 1)];
        n := low + 256 * high;
      }
    }

    /** __kfifo_in_r: the whole record, behind the records already there, or nothing. */
    method InR(buf: seq<byte>, len: nat, recsize: nat, ghost recs: seq<seq<byte>>) returns (n: nat)
      requires Valid() && esize == 1 && 1 <= recsize <= 2 && len <= |buf|
      modifies this`inIdx, data
      ensures Valid()
      ensures if len + recsize > mask + 1 - old(Len())
              then n == 0 && Contents() == old(Contents())
              else n == len && Contents() == old(Contents()) + Prefix(len, recsize) + buf[..len]
      ensures old(Contents()) == Flatten(recs, recsize) && len + recsize <= mask + 1 - old(Len()) ==>
                Contents() == Flatten(recs + [buf[..len]], recsize)
    {
      hide PowerOfTwo, Read, Write, Sub32, Offset, Scale;
      var unused := Unused();
      if len + recsize > unused {
        return 0;
      }
      ghost var d, src := data[..], Prefix(len, recsize) + buf[..len];
      UnitScale(len + recsize);
      UnitScale(len);
      UnitScale(recsize);
      UnitScale(mask + 1);
      Append(src, len + recsize);
      OffsetAdvances(inIdx, recsize);
      PokeN(len, recsize);
      CopyIn(buf, len, (inIdx + recsize) % WORD);
      WriteTwice(d, Offset(inIdx), Prefix(len, recsize), buf[..len]);
      inIdx := (inIdx + len + recsize) % WORD;
      assert old(Contents()) + src == old(Contents()) + Prefix(len, recsize) + buf[..len];
      FlattenAppend(recs, buf[..len], recsize);
      return len;
    }

    /** kfifo_out_copy_r: the beginning of the oldest record, up to the length that its prefix gives. */
    method OutCopyR(len: nat, recsize: nat, ghost recs: seq<seq<byte>>) returns (buf: seq<byte>, n: nat)
      requires Valid() && esize == 1 && 1 <= recsize <= 2 && recs != [] && Contents() == Flatten(recs, recsize)
      ensures n == Held(recs[0], recsize) && buf == recs[0][..Min(len, n)]
    {
      hide PowerOfTwo, Read, Sub32, Offset, Scale, Flatten, LengthIn, Held;
      UnitScale(Len());
      Fits();
      FirstRecord(recs, recsize);
      n := PeekN(recsize);
      var m := Min(len, n);
      Shorter(Contents()[recsize..], n, m);
      Shorter(recs[0], n, m);
      UnitScale(m);
      UnitScale(n);
      UnitScale(recsize);
      UnitScale(mask + 1);
      UnitScale(Len() - recsize);
      OffsetAdvances(outIdx, recsize);
      ReadSkip(data[..], Offset(outIdx), Len(), recsize);
      ReadPrefix(data[..], Offset((outIdx + recsize) % WORD), Len() - recsize, m);
      buf := CopyOut(m, (outIdx + recsize) % WORD);
    }

    /** __kfifo_out_r: that, and the record is removed; all of it exactly when its prefix could hold its length. */
    method OutR(len: nat, recsize: nat, ghost recs: seq<seq<byte>>) returns (buf: seq<byte>)
      requires Valid() && esize == 1 && 1 <= recsize <= 2 && Contents() == Flatten(recs, recsize)
      modifies this`outIdx
      ensures Valid()
      ensures recs == [] ==> buf == [] && Contents() == []
      ensures recs != [] ==>
                var n := Held(recs[0], recsize);
                && buf == recs[0][..Min(len, n)]
                && Contents() == recs[0][n..] + Flatten(recs[1..], recsize)
                && (Contents() == Flatten(recs[1..], recsize) <==> |recs[0]| < Capacity(recsize))
    {
      hide PowerOfTwo, Read, Sub32, Offset, Scale, Flatten, LengthIn, Held;
      UnitScale(Len());
      Fits();
      EmptyIff();
      FlattenEmpty(recs, recsize);
      if inIdx == outIdx {
        return [];
      }
      FirstRecord(recs, recsize);
      Remainder(recs[0], Flatten(recs[1..], recsize), recsize);
      var n;
      buf, n := OutCopyR(len, recsize, recs);
      UnitScale(n + recsize);
      Skip(n + recsize);
      outIdx := (outIdx + n + recsize) % WORD;
    }

    /** __kfifo_skip_r: what __kfifo_out_r removes. It does not ask whether there is a record, and on an empty fifo its
        output index overtakes the input index. */
    method SkipR(recsize: nat, ghost recs: seq<seq<byte>>)
      requires Valid() && esize == 1 && 1 <= recsize <= 2 && Contents() == Flatten(recs, recsize)
      modifies this`outIdx
      ensures Valid() <==> recs != []
      ensures recs != [] ==>
                var n := Held(recs[0], recsize);
                && Contents() == recs[0][n..] + Flatten(recs[1..], recsize)
                && (Contents() == Flatten(recs[1..], recsize) <==> |recs[0]| < Capacity(recsize))
    {
      hide PowerOfTwo, Read, Sub32, Offset, Scale, Flatten, LengthIn, Held;
      UnitScale(Len());
      Fits();
      FlattenEmpty(recs, recsize);
      if recs != [] {
        FirstRecord(recs, recsize);
        Remainder(recs[0], Flatten(recs[1..], recsize), recsize);
      }
      var n := PeekN(recsize);
      UnitScale(n + recsize);
      if recs != [] {
        Skip(n + recsize);
      } else {
        Overtakes(n + recsize);
      }
      outIdx := (outIdx + n + recsize) % WORD;
    }

    /** Advancing the output index of an empty fifo makes it look fuller than it is large. */
    lemma Overtakes(n: nat)
      requires Valid() && Len() == 0 && 0 < n <= 0x1_0001
      ensures Sub32(inIdx, (outIdx + n) % WORD) > mask + 1
    {
      hide PowerOfTwo, Sub32, Scale;
      HalfOfWord(mask + 1);
      EmptyIff();
      SubBehind(inIdx, n);
    }

    lemma EmptyIff()
      requires Valid()
      ensures inIdx == outIdx <==> Len() == 0
    {
      hide PowerOfTwo, Scale;
    }

    lemma UnitScale(a: nat)
      requires esize == 1
      ensures Scale(a, esize) == a
    {
    }
  }

  // ---- Records ----

  function Prefix(n: nat, recsize: nat): (p: seq<byte>)
    requires 1 <= recsize <= 2
    ensures |p| == recsize
  {
    if recsize == 1 then [n % 256] else [n % 256, n / 256 % 256]
  }

  function LengthIn(bytes: seq<byte>, recsize: nat): (n: nat)
    requires 1 <= recsize <= 2 && recsize <= |bytes|
  {
    if recsize == 1 then bytes[0] else bytes[0] as int + 256 * (bytes[1] as int)
  }

  /** The largest record length a prefix can hold, plus one (__kfifo_max_r). */
  function Capacity(recsize: nat): nat {
    if recsize == 1 then 256 else 65536
  }

  /** A prefix holds a length modulo its range. */
  lemma PrefixReads(n: nat, recsize: nat, rest: seq<byte>)
    requires 1 <= recsize <= 2
    ensures LengthIn(Prefix(n, recsize) + rest, recsize) == n % Capacity(recsize)
  {
    TwoBytes(n);
  }

  lemma TwoBytes(n: nat)
    ensures n % 256 + 256 * (n / 256 % 256) == n % 65536
  {
    var h := n / 256;
    Arith.DivModUnique(n, 65536, h / 256, 256 * (h % 256) + n % 256);
  }

  /** A length survives its prefix exactly when it is within the prefix's range. */
  lemma PrefixRoundTrip(n: nat, recsize: nat, rest: seq<byte>)
    requires 1 <= recsize <= 2
    ensures LengthIn(Prefix(n, recsize) + rest, recsize) == n <==> n < Capacity(recsize)
  {
    PrefixReads(n, recsize, rest);
  }

  function Flatten(recs: seq<seq<byte>>, recsize: nat): (b: seq<byte>)
    requires 1 <= recsize <= 2
  {
    if recs == [] then [] else Prefix(|recs[0]|, recsize) + recs[0] + Flatten(recs[1..], recsize)
  }

  /** The part of a record that its prefix accounts for: all of it, when the prefix can hold its length. */
  function Held(r: seq<byte>, recsize: nat): (n: nat)
    ensures n <= |r| && (n == |r| <==> |r| < Capacity(recsize))
  {
    |r| % Capacity(recsize)
  }

  /** What stands in front of the contents is the length held of the first record, and the record follows it. */
  lemma FirstRecord(recs: seq<seq<byte>>, recsize: nat)
    requires 1 <= recsize <= 2 && recs != []
    ensures var b, n := Flatten(recs, recsize), Held(recs[0], recsize);
            && recsize + n <= |b| && LengthIn(b, recsize) == n
            && b[n + recsize..] == recs[0][n..] + Flatten(recs[1..], recsize)
            && b[recsize..][..n] == recs[0][..n]
  {
    hide Prefix, LengthIn, Flatten;
    var p, rest := Prefix(|recs[0]|, recsize), Flatten(recs[1..], recsize);
    FlattenFirst(recs, recsize);
    Slices(p, recs[0], rest, Held(recs[0], recsize));
    PrefixReads(|recs[0]|, recsize, recs[0] + rest);
  }

  /** Less than a whole record held leaves a remainder in front of the next. */
  lemma Remainder(r: seq<byte>, rest: seq<byte>, recsize: nat)
    ensures r[Held(r, recsize)..] + rest == rest <==> |r| < Capacity(recsize)
  {
    if |r| < Capacity(recsize) {
      assert r[|r|..] + rest == rest;
    } else {
      assert |r[Held(r, recsize)..] + rest| > |rest|;
    }
  }

  lemma FlattenFirst(recs: seq<seq<byte>>, recsize: nat)
    requires 1 <= recsize <= 2 && recs != []
    ensures Flatten(recs, recsize) == Prefix(|recs[0]|, recsize) + (recs[0] + Flatten(recs[1..], recsize))
  {
    var p, rest := Prefix(|recs[0]|, recsize), Flatten(recs[1..], recsize);
    assert p + recs[0] + rest == p + (recs[0] + rest);
  }

  lemma Slices(p: seq<byte>, r: seq<byte>, rest: seq<byte>, n: nat)
    requires n <= |r|
    ensures var b := p + (r + rest);
            b[n + |p|..] == r[n..] + rest && b[|p|..][..n] == r[..n]
  {
    assert (p + (r + rest))[|p|..] == r + rest;
  }

  lemma Shorter(b: seq<byte>, n: nat, m: nat)
    requires m <= n <= |b|
    ensures b[..n][..m] == b[..m]
  {
  }

  lemma FlattenEmpty(recs: seq<seq<byte>>, recsize: nat)
    requires 1 <= recsize <= 2
    ensures Flatten(recs, recsize) == [] <==> recs == []
  {
  }

  lemma {:induction false} FlattenAppend(recs: seq<seq<byte>>, r: seq<byte>, recsize: nat)
    requires 1 <= recsize <= 2
    ensures Flatten(recs + [r], recsize) == Flatten(recs, recsize) + Prefix(|r|, recsize) + r
  {
    if recs == [] {
      assert recs + [r] == [r];
    } else {
      assert (recs + [r])[1..] == recs[1..] + [r];
      FlattenAppend(recs[1..], r, recsize);
    }
  }
}
