/** Sequences of packets with some left out. */
module Sequences {
  import opened Octets

  /** In-order subsequence. */
  predicate Subsequence<T(==)>(a: seq<T>, b: seq<T>) {
    if a == [] then true
    else if b == [] then false
    else (a[|a| - 1] == b[|b| - 1] && Subsequence(a[..|a| - 1], b[..|b| - 1])) || Subsequence(a, b[..|b| - 1])
  }

  lemma SubsequenceSkips<T>(a: seq<T>, b: seq<T>, x: T)
    requires Subsequence(a, b)
    ensures Subsequence(a, b + [x]) && Subsequence(a + [x], b + [x])
  {
    assert (b + [x])[..|b|] == b;
    assert (a + [x])[..|a|] == a;
  }

  lemma {:induction false} SubsequencePrefix<T>(a: seq<T>, b: seq<T>, c: seq<T>)
    requires Subsequence(a, b)
    ensures Subsequence(a, b + c)
    decreases |c|
  {
    hide Subsequence;
    if c == [] {
      assert b + c == b;
    } else {
      var n := |c| - 1;
      SubsequencePrefix(a, b, c[..n]);
      SubsequenceSkips(a, b + c[..n], c[n]);
      assert b + c == (b + c[..n]) + [c[n]];
    }
  }

  lemma {:induction false} SubsequenceSelf<T>(a: seq<T>)
    ensures Subsequence(a, a)
  {
    if a != [] {
      SubsequenceSelf(a[..|a| - 1]);
    }
  }

  /** One more element is lost. */
  lemma {:induction false} SubsequenceLoses<T>(x: seq<T>, e: T, y: seq<T>, b: seq<T>)
    requires Subsequence(x + [e] + y, b)
    ensures Subsequence(x + y, b)
    decreases |b|
  {
    var a, c := x + [e] + y, b[..|b| - 1];
    if Subsequence(a, c) {
      SubsequenceLoses(x, e, y, c);
      LongerBehind(x + y, b);
    } else if y == [] {
      assert a[..|a| - 1] == x && x + y == x;
      LongerBehind(x, b);
    } else {
      var n := |y| - 1;
      assert a[..|a| - 1] == x + [e] + y[..n] && (x + y)[..|x + y| - 1] == x + y[..n];
      SubsequenceLoses(x, e, y[..n], c);
    }
  }

  lemma {:induction false} SubsequenceShorter<T>(a: seq<T>, c: seq<T>, b: seq<T>)
    requires Subsequence(a + c, b)
    ensures Subsequence(a, b)
    decreases |c|
  {
    if c == [] {
      assert a + c == a;
    } else {
      var n := |c| - 1;
      assert a + c == (a + c[..n]) + [c[n]] + [] && (a + c[..n]) + [] == a + c[..n];
      SubsequenceLoses(a + c[..n], c[n], [], b);
      SubsequenceShorter(a, c[..n], b);
    }
  }

  lemma LongerBehind<T>(a: seq<T>, b: seq<T>)
    requires b != [] && Subsequence(a, b[..|b| - 1])
    ensures Subsequence(a, b)
  {
  }

  /** An element in the middle, if there is one, moves on or is lost. */
  lemma MayLose<T>(x: seq<T>, e: seq<T>, y: seq<T>, z: seq<T>, b: seq<T>)
    requires |e| <= 1 && Subsequence(x + (e + y) + z, b)
    ensures Subsequence(x + e + y + z, b) && Subsequence(x + y + z, b)
  {
    hide Subsequence;
    assert x + (e + y) + z == x + e + y + z == x + e + (y + z);
    assert x + y + z == x + (y + z);
    if e == [] {
      assert x + e == x;
    } else {
      assert e == [e[0]];
      SubsequenceLoses(x, e[0], y + z, b);
    }
  }

  /** The same for an element in the middle of the second part. */
  lemma MayLoseWithin<T>(a: seq<T>, x: seq<T>, e: seq<T>, y: seq<T>, z: seq<T>, b: seq<T>)
    requires |e| <= 1 && Subsequence(a + (x + e + y) + z, b)
    ensures Subsequence(a + (x + y) + z, b)
  {
    hide Subsequence;
    assert a + (x + e + y) + z == (a + x) + (e + y) + z;
    assert a + (x + y) + z == (a + x) + y + z;
    MayLose(a + x, e, y, z, b);
  }

  /** The packets of some kinds. */
  function Only(ps: seq<Packet>, kinds: set<nat>): seq<Packet> {
    if ps == [] then []
    else Only(ps[..|ps| - 1], kinds) + if ps[|ps| - 1].kind in kinds then [ps[|ps| - 1]] else []
  }

  lemma {:induction false} OnlyAppend(a: seq<Packet>, b: seq<Packet>, kinds: set<nat>)
    ensures Only(a + b, kinds) == Only(a, kinds) + Only(b, kinds)
  {
    if b == [] {
      assert a + b == a;
    } else {
      var n := |b| - 1;
      OnlyAppend(a, b[..n], kinds);
      assert (a + b)[..|a + b| - 1] == a + b[..n] && (a + b)[|a + b| - 1] == b[n];
    }
  }

  lemma OnlyOne(p: Packet, kinds: set<nat>)
    ensures Only([p], kinds) == if p.kind in kinds then [p] else []
    ensures Only([], kinds) == []
  {
    assert [p][..0] == [];
  }

  lemma OnlyFirst(ps: seq<Packet>, kinds: set<nat>)
    requires ps != []
    ensures Only(ps, kinds) == (if ps[0].kind in kinds then [ps[0]] else []) + Only(ps[1..], kinds)
  {
    assert ps == [ps[0]] + ps[1..];
    OnlyAppend([ps[0]], ps[1..], kinds);
    OnlyOne(ps[0], kinds);
  }
}
