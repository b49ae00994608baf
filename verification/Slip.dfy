/** Byte stuffing of RFC 1055, as both serial drivers send it. */
module Slip {
  import opened Octets

  const DELIM: byte := 0xc0
  const ESC: byte := 0xdb
  const ESC_DELIM: byte := 0xdc
  const ESC_ESC: byte := 0xdd

  function StuffByte(c: byte): (s: seq<byte>)
    ensures 1 <= |s| <= 2 && DELIM !in s
    ensures s == if c == 0xc0 then [0xdb, 0xdc] else if c == 0xdb then [0xdb, 0xdd] else [c]
  {
    if c == DELIM then [ESC, ESC_DELIM] else if c == ESC then [ESC, ESC_ESC] else [c]
  }

  function Stuff(bs: seq<byte>): (s: seq<byte>)
    ensures |s| <= 2 * |bs| && DELIM !in s
  {
    if bs == [] then [] else StuffByte(bs[0]) + Stuff(bs[1..])
  }

  lemma {:induction false} StuffAppend(a: seq<byte>, b: seq<byte>)
    ensures Stuff(a + b) == Stuff(a) + Stuff(b)
  {
    if a == [] {
      assert a + b == b;
    } else {
      assert (a + b)[1..] == a[1..] + b;
      StuffAppend(a[1..], b);
    }
  }

  lemma StuffMore(bs: seq<byte>, c: byte)
    ensures Stuff(bs + [c]) == Stuff(bs) + StuffByte(c)
  {
    hide StuffByte;
    StuffAppend(bs, [c]);
    assert [c][1..] == [];
    assert Stuff([c]) == StuffByte(c) + Stuff([]);
  }

  lemma {:induction false} Unescaped(bs: seq<byte>)
    requires 0xc0 !in bs && 0xdb !in bs
    ensures Stuff(bs) == bs
  {
    if bs != [] {
      Unescaped(bs[1..]);
    }
  }
}
