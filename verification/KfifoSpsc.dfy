/** One producer and one consumer on a kfifo, without a lock. */
module KfifoSpsc {
  import opened Ring
  import opened Arith

  // Each side reads the other's index, copies element by element, and publishes its own index; the steps of the two sides
  // interleave in any order. The barriers of the source make each step visible before the next one of the same side.

  /** Where a side stands in its call: between calls, or with `done` elements of its block copied. */
  datatype Producer<T> = Resting | Copying(block: seq<T>, done: nat)
  datatype Consumer<T> = Waiting | Fetching(want: nat, got: seq<T>)

  /** The shared memory and the two sides. `input` is everything published, `output` everything handed out. */
  datatype State<T> = State(
    data: seq<T>, inIdx: nat, outIdx: nat,
    producer: Producer<T>, consumer: Consumer<T>,
    input: seq<T>, output: seq<T>)

  datatype Step<T> = StartIn(buf: seq<T>) | CopyIn | PublishIn | StartOut(want: nat) | CopyOut | PublishOut

  function Min(a: nat, b: nat): (m: nat)
    ensures m <= a && m <= b && (m == a || m == b)
  {
    if a < b then a else b
  }

  /** One step; a step that its side cannot take leaves everything as it is. */
  function Next<T>(s: State<T>, step: Step<T>): State<T>
    requires |s.data| > 0 && s.inIdx < WORD && s.outIdx < WORD
  {
    match step
    case StartIn(buf) =>
      var used := (s.inIdx - s.outIdx) % WORD;
      if s.producer.Resting? && used <= |s.data|
      then s.(producer := Copying(buf[..Min(|buf|, |s.data| - used)], 0)) else s
    case CopyIn =>
      if s.producer.Copying? && s.producer.done < |s.producer.block|
      then s.(data := s.data[(s.inIdx + s.producer.done) % WORD % |s.data| := s.producer.block[s.producer.done]],
              producer := s.producer.(done := s.producer.done + 1)) else s
    case PublishIn =>
      if s.producer.Copying? && s.producer.done == |s.producer.block|
      then s.(inIdx := (s.inIdx + |s.producer.block|) % WORD, input := s.input + s.producer.block,
              producer := Resting) else s
    case StartOut(want) =>
      if s.consumer.Waiting?
      then s.(consumer := Fetching(Min(want, (s.inIdx - s.outIdx) % WORD), [])) else s
    case CopyOut =>
      if s.consumer.Fetching? && |s.consumer.got| < s.consumer.want
      then s.(consumer := s.consumer.(got := s.consumer.got
                                      + [s.data[(s.outIdx + |s.consumer.got|) % WORD % |s.data|]])) else s
    case PublishOut =>
      if s.consumer.Fetching? && |s.consumer.got| == s.consumer.want
      then s.(outIdx := (s.outIdx + s.consumer.want) % WORD, output := s.output + s.consumer.got,
              consumer := Waiting) else s
  }

  // ---- The invariant: unbounded positions behind the 32-bit indices ----

  ghost predicate Shape<T>(s: State<T>) {
    && PowerOfTwo(|s.data|) && 2 <= |s.data| < WORD
    && s.inIdx < WORD && s.outIdx < WORD
    && s.inIdx == |s.input| % WORD && s.outIdx == |s.output| % WORD
    && |s.output| <= |s.input| <= |s.output| + |s.data|
  }

  /** The cell of position `k` holds element `x`. */
  predicate Holds<T(==)>(d: seq<T>, k: nat, x: T)
    requires |d| > 0
  {
    d[k % |d|] == x
  }

  ghost predicate Stored<T>(s: State<T>)
    requires Shape(s)
  {
    && (forall k :: |s.output| <= k < |s.input| ==> Holds(s.data, k, s.input[k]))
    && (s.producer.Copying? ==>
          && s.producer.done <= |s.producer.block|
          && |s.input| + |s.producer.block| <= |s.output| + |s.data|
          && forall j :: 0 <= j < s.producer.done ==> Holds(s.data, |s.input| + j, s.producer.block[j]))
  }

  ghost predicate Taken<T>(s: State<T>) {
    && s.output <= s.input
    && (s.consumer.Fetching? ==>
          && |s.consumer.got| <= s.consumer.want
          && |s.output| + s.consumer.want <= |s.input|
          && s.consumer.got == s.input[|s.output|..|s.output| + |s.consumer.got|])
  }

  ghost predicate Inv<T>(s: State<T>) {
    Shape(s) && Stored(s) && Taken(s)
  }

  /** Position and 32-bit index agree on the cell. */
  lemma SameCell(p: nat, k: nat, size: nat)
    requires PowerOfTwo(size) && size < WORD
    ensures (p % WORD + k) % WORD % size == (p + k) % size
  {
    hide PowerOfTwo;
    PowersOfTwoBelowWord();
    PowersDivide(size, WORD);
    var c: nat :| WORD == c * size;
    var x := p + k;
    var q := p / WORD;
    assert (p % WORD + k) % WORD == x % WORD by {
      assert p % WORD + k == x - q * WORD;
      ResidueDrops(x, q, WORD);
    }
    var r := x / WORD;
    assert x % WORD == x - (r * c) * size by {
      assert r * WORD == r * (c * size) == (r * c) * size;
    }
    ResidueDrops(x, r * c, size);
  }

  /** Two positions less than a buffer apart never share a cell. */
  lemma DifferentCells(a: nat, b: nat, size: nat)
    requires a < b < a + size
    ensures a % size != b % size
  {
    if a % size == b % size {
      var q, p := a / size, b / size;
      Distribute(p - q, q, size);
      assert b - a == (p - q) * size;
      if p - q >= 1 {
        MulAtLeast(p - q, size);
      }
    }
  }

  lemma DifferenceOfIndices(p: nat, c: nat)
    requires c <= p < c + WORD
    ensures (p % WORD - c % WORD) % WORD == p - c
  {
    var q, r := p / WORD, c / WORD;
    assert p % WORD - c % WORD == (p - c) - (q - r) * WORD by {
      Distribute(q - r, r, WORD);
    }
    ResidueDrops(p - c, q - r, WORD);
  }

  lemma StartInKeeps<T>(s: State<T>, buf: seq<T>)
    requires Inv(s)
    ensures Inv(Next(s, StartIn(buf)))
  {
    hide PowerOfTwo;
    DifferenceOfIndices(|s.input|, |s.output|);
  }

  lemma CopyInKeeps<T>(s: State<T>)
    requires Inv(s) && s.producer.Copying? && s.producer.done < |s.producer.block|
    ensures Inv(Next(s, CopyIn))
  {
    hide PowerOfTwo, Stored;
    CopyInStores(s);
  }

  /** Element `x` written to the cell of position `k`. */
  function PutAt<T>(d: seq<T>, k: nat, x: T): (r: seq<T>)
    requires |d| > 0
    ensures |r| == |d|
  {
    d[k % |d| := x]
  }

  lemma CopiedIn<T>(s: State<T>)
    requires Shape(s) && s.producer.Copying? && s.producer.done < |s.producer.block|
    ensures var p := s.producer;
            Next(s, CopyIn) == s.(data := PutAt(s.data, |s.input| + p.done, p.block[p.done]),
                                  producer := p.(done := p.done + 1))
  {
    hide PowerOfTwo, Next;
    var p := s.producer;
    SameCell(|s.input|, p.done, |s.data|);
    CopyInWrites(s, (|s.input| + p.done) % |s.data|);
  }

  lemma CopyInWrites<T>(s: State<T>, cell: nat)
    requires |s.data| > 0 && s.inIdx < WORD && s.outIdx < WORD && cell < |s.data|
    requires s.producer.Copying? && s.producer.done < |s.producer.block|
    requires (s.inIdx + s.producer.done) % WORD % |s.data| == cell
    ensures var p := s.producer;
            Next(s, CopyIn) == s.(data := s.data[cell := p.block[p.done]], producer := p.(done := p.done + 1))
  {
  }

  lemma HeldElsewhere<T>(d: seq<T>, at: nat, x: T, k: nat, y: T)
    requires |d| > 0 && k < at < k + |d| && Holds(d, k, y)
    ensures Holds(PutAt(d, at, x), k, y)
  {
    DifferentCells(k, at, |d|);
  }

  lemma HeldHere<T>(d: seq<T>, at: nat, x: T)
    requires |d| > 0
    ensures Holds(PutAt(d, at, x), at, x)
  {
  }

  lemma CopyInStores<T>(s: State<T>)
    requires Inv(s) && s.producer.Copying? && s.producer.done < |s.producer.block|
    ensures Shape(Next(s, CopyIn)) && Stored(Next(s, CopyIn))
  {
    hide PowerOfTwo, Taken, Next, Holds, PutAt;
    CopiedIn(s);
    var n, p := Next(s, CopyIn), s.producer;
    var at, x := |s.input| + p.done, p.block[p.done];
    forall k | |s.output| <= k < |s.input|
      ensures Holds(n.data, k, s.input[k])
    {
      HeldElsewhere(s.data, at, x, k, s.input[k]);
    }
    HeldHere(s.data, at, x);
    forall j | 0 <= j < p.done
      ensures Holds(n.data, |s.input| + j, p.block[j])
    {
      HeldElsewhere(s.data, at, x, |s.input| + j, p.block[j]);
    }
  }

  lemma PublishInKeeps<T>(s: State<T>)
    requires Inv(s) && s.producer.Copying? && s.producer.done == |s.producer.block|
    ensures Inv(Next(s, PublishIn))
  {
    hide PowerOfTwo;
    var n := Next(s, PublishIn);
    WordSum(|s.input|, |s.producer.block|);
    forall k | |n.output| <= k < |n.input|
      ensures Holds(n.data, k, n.input[k])
    {
      if k < |s.input| {
        assert Holds(s.data, k, s.input[k]);
      } else {
        assert Holds(s.data, |s.input| + (k - |s.input|), s.producer.block[k - |s.input|]);
      }
    }
  }

  lemma WordSum(p: nat, k: nat)
    ensures (p % WORD + k) % WORD == (p + k) % WORD
  {
  }

  lemma StartOutKeeps<T>(s: State<T>, want: nat)
    requires Inv(s)
    ensures Inv(Next(s, StartOut(want)))
  {
    hide PowerOfTwo, Stored;
    DifferenceOfIndices(|s.input|, |s.output|);
    assert Stored(Next(s, StartOut(want))) by {
      StoredIgnoresConsumer(s, Next(s, StartOut(want)));
    }
  }

  lemma StoredIgnoresConsumer<T>(s: State<T>, n: State<T>)
    requires Shape(s) && Stored(s) && n == s.(consumer := n.consumer)
    ensures Shape(n) && Stored(n)
  {
    hide PowerOfTwo;
  }

  lemma CopyOutKeeps<T>(s: State<T>)
    requires Inv(s) && s.consumer.Fetching? && |s.consumer.got| < s.consumer.want
    ensures Inv(Next(s, CopyOut))
  {
    hide PowerOfTwo, Next;
    var at := |s.output| + |s.consumer.got|;
    SameCell(|s.output|, |s.consumer.got|, |s.data|);
    assert Holds(s.data, at, s.input[at]);
    CopyOutReads(s, at % |s.data|);
    hide Stored;
    StoredIgnoresConsumer(s, Next(s, CopyOut));
  }

  lemma CopyOutReads<T>(s: State<T>, cell: nat)
    requires |s.data| > 0 && s.inIdx < WORD && s.outIdx < WORD && cell < |s.data|
    requires s.consumer.Fetching? && |s.consumer.got| < s.consumer.want
    requires (s.outIdx + |s.consumer.got|) % WORD % |s.data| == cell
    ensures Next(s, CopyOut) == s.(consumer := s.consumer.(got := s.consumer.got + [s.data[cell]]))
  {
  }

  lemma PublishOutKeeps<T>(s: State<T>)
    requires Inv(s) && s.consumer.Fetching? && |s.consumer.got| == s.consumer.want
    ensures Inv(Next(s, PublishOut))
  {
    hide PowerOfTwo;
    WordSum(|s.output|, s.consumer.want);
    assert s.output + s.consumer.got <= s.input;
  }

  lemma NextKeeps<T>(s: State<T>, step: Step<T>)
    requires Inv(s)
    ensures Inv(Next(s, step))
  {
    hide PowerOfTwo, Stored, Taken;
    match step
    case StartIn(buf) => StartInKeeps(s, buf);
    case CopyIn => if s.producer.Copying? && s.producer.done < |s.producer.block| { CopyInKeeps(s); }
    case PublishIn => if s.producer.Copying? && s.producer.done == |s.producer.block| { PublishInKeeps(s); }
    case StartOut(want) => StartOutKeeps(s, want);
    case CopyOut => if s.consumer.Fetching? && |s.consumer.got| < s.consumer.want { CopyOutKeeps(s); }
    case PublishOut => if s.consumer.Fetching? && |s.consumer.got| == s.consumer.want { PublishOutKeeps(s); }
  }

  ghost function Run<T>(s: State<T>, steps: seq<Step<T>>): (r: State<T>)
    requires Inv(s)
    ensures Inv(r)
    decreases |steps|
  {
    if steps == [] then s else NextKeeps(s, steps[0]); Run(Next(s, steps[0]), steps[1..])
  }

  /** Whatever the interleaving, and however often the indices pass 2^32, what the consumer has is a prefix of what the
      producer has published. */
  lemma OutputIsPrefix<T>(data: seq<T>, steps: seq<Step<T>>)
    requires PowerOfTwo(|data|) && 2 <= |data| < WORD
    ensures Inv(State(data, 0, 0, Resting, Waiting, [], []))
    ensures var s := Run(State(data, 0, 0, Resting, Waiting, [], []), steps);
            s.output <= s.input && |s.input| <= |s.output| + |data|
  {
    hide PowerOfTwo;
    RunKeepsSize(State(data, 0, 0, Resting, Waiting, [], []), steps);
  }

  lemma {:induction false} RunKeepsSize<T>(s: State<T>, steps: seq<Step<T>>)
    requires Inv(s)
    ensures |Run(s, steps).data| == |s.data|
    decreases |steps|
  {
    hide PowerOfTwo, Stored, Taken;
    if steps != [] {
      NextKeeps(s, steps[0]);
      RunKeepsSize(Next(s, steps[0]), steps[1..]);
    }
  }

  // ---- Calls come to an end ----

  lemma {:induction false} RunAppend<T>(s: State<T>, a: seq<Step<T>>, b: seq<Step<T>>)
    requires Inv(s)
    ensures Run(s, a + b) == Run(Run(s, a), b)
    decreases |a|
  {
    hide Next, PowerOfTwo, Stored, Taken;
    if a == [] {
      assert a + b == b;
    } else {
      assert (a + b)[0] == a[0] && (a + b)[1..] == a[1..] + b;
      NextKeeps(s, a[0]);
      RunAppend(Next(s, a[0]), a[1..], b);
    }
  }

  lemma RunOne<T>(s: State<T>, step: Step<T>)
    requires Inv(s)
    ensures Inv(Next(s, step)) && Run(s, [step]) == Next(s, step)
  {
    hide Next, PowerOfTwo, Stored, Taken;
    NextKeeps(s, step);
    assert [step][1..] == [];
    assert Run(Next(s, step), []) == Next(s, step);
  }

  /** How often a step occurs. */
  function Count<T>(steps: seq<Step<T>>, copyIn: bool): nat {
    if steps == [] then 0
    else (if (if copyIn then steps[0].CopyIn? else steps[0].CopyOut?) then 1 else 0) + Count(steps[1..], copyIn)
  }

  /** While the producer copies, whatever the consumer does. */
  predicate Copies<T>(steps: seq<Step<T>>) {
    forall i :: 0 <= i < |steps| ==> !steps[i].StartIn? && !steps[i].PublishIn?
  }

  /** While the consumer copies, whatever the producer does. */
  predicate Fetches<T>(steps: seq<Step<T>>) {
    forall i :: 0 <= i < |steps| ==> !steps[i].StartOut? && !steps[i].PublishOut?
  }

  lemma {:induction false} CopiesOn<T>(s: State<T>, steps: seq<Step<T>>)
    requires Inv(s) && s.producer.Copying? && Copies(steps)
    ensures var r := Run(s, steps);
            && r.input == s.input
            && r.producer == Copying(s.producer.block, Min(s.producer.done + Count(steps, true), |s.producer.block|))
    decreases |steps|
  {
    hide PowerOfTwo, Stored, Taken;
    if steps == [] {
      DoneFits(s);
    } else {
      NextKeeps(s, steps[0]);
      CopiesOn(Next(s, steps[0]), steps[1..]);
    }
  }

  lemma DoneFits<T>(s: State<T>)
    requires Inv(s) && s.producer.Copying?
    ensures s.producer.done <= |s.producer.block|
  {
    hide PowerOfTwo;
  }

  lemma {:induction false} FetchesOn<T>(s: State<T>, steps: seq<Step<T>>)
    requires Inv(s) && s.consumer.Fetching? && Fetches(steps)
    ensures var r := Run(s, steps);
            && r.output == s.output && s.input <= r.input && r.consumer.Fetching? && r.consumer.want == s.consumer.want
            && |r.consumer.got| == Min(|s.consumer.got| + Count(steps, false), s.consumer.want)
    decreases |steps|
  {
    hide PowerOfTwo, Stored, Taken;
    if steps == [] {
      GotFits(s);
    } else {
      NextKeeps(s, steps[0]);
      FetchesOn(Next(s, steps[0]), steps[1..]);
    }
  }

  lemma GotFits<T>(s: State<T>)
    requires Inv(s) && s.consumer.Fetching?
    ensures |s.consumer.got| <= s.consumer.want && |s.output| + s.consumer.want <= |s.input|
    ensures |s.consumer.got| == s.consumer.want ==> s.consumer.got == s.input[|s.output|..|s.output| + s.consumer.want]
  {
    hide PowerOfTwo, Stored;
  }

  lemma Used<T>(s: State<T>)
    requires Inv(s)
    ensures (s.inIdx - s.outIdx) % WORD == |s.input| - |s.output| && 0 <= |s.input| - |s.output| <= |s.data|
  {
    hide PowerOfTwo;
    DifferenceOfIndices(|s.input|, |s.output|);
  }

  lemma Started<T>(s: State<T>, buf: seq<T>, want: nat)
    requires Inv(s)
    ensures s.producer.Resting? ==>
              var t, n := Next(s, StartIn(buf)), Min(|buf|, |s.data| - (|s.input| - |s.output|));
              Inv(t) && t.producer == Copying(buf[..n], 0) && t.input == s.input
    ensures s.consumer.Waiting? ==>
              var t := Next(s, StartOut(want));
              Inv(t) && t.consumer == Fetching(Min(want, |s.input| - |s.output|), [])
              && t.input == s.input && t.output == s.output
  {
    hide PowerOfTwo, Stored, Taken;
    Used(s);
    NextKeeps(s, StartIn(buf));
    NextKeeps(s, StartOut(want));
  }

  lemma Finished<T>(s: State<T>)
    requires Inv(s)
    ensures var p := s.producer;
            p.Copying? && p.done == |p.block| ==>
              Next(s, PublishIn).input == s.input + p.block && Next(s, PublishIn).producer == Resting
    ensures var c := s.consumer;
            c.Fetching? && |c.got| == c.want ==>
              Next(s, PublishOut).output == s.output + c.got && Next(s, PublishOut).consumer == Waiting
  {
    hide PowerOfTwo, Stored, Taken;
  }

  /** A producer that puts elements in, copies and publishes has added as many of them as there was room for when it
      began, whatever the consumer did meanwhile. */
  lemma PutCompletes<T>(s: State<T>, buf: seq<T>, copying: seq<Step<T>>)
    requires Inv(s) && s.producer.Resting? && Copies(copying)
    requires Count(copying, true) >= |buf|
    ensures 0 <= |s.input| - |s.output| <= |s.data|
    ensures var n := Min(|buf|, |s.data| - (|s.input| - |s.output|));
            var r := Run(s, [StartIn(buf)] + copying + [PublishIn]);
            r.input == s.input + buf[..n] && r.producer == Resting
  {
    hide PowerOfTwo, Stored, Taken, Next, Run;
    Used(s);
    Started(s, buf, 0);
    var t := Next(s, StartIn(buf));
    CopiesOn(t, copying);
    Finished(Run(t, copying));
    ThreeParts(s, StartIn(buf), copying, PublishIn);
  }

  lemma ThreeParts<T>(s: State<T>, first: Step<T>, middle: seq<Step<T>>, last: Step<T>)
    requires Inv(s)
    ensures Inv(Next(s, first))
    ensures Run(s, [first] + middle + [last]) == Next(Run(Next(s, first), middle), last)
  {
    hide PowerOfTwo, Stored, Taken, Next, Run;
    RunAppend(s, [first] + middle, [last]);
    RunAppend(s, [first], middle);
    RunOne(s, first);
    RunOne(Run(Next(s, first), middle), last);
  }

  /** A consumer that takes elements out, copies and publishes has taken as many of the oldest ones as it asked for, or as
      there were when it began, whatever the producer did meanwhile. */
  lemma GetCompletes<T>(s: State<T>, want: nat, copying: seq<Step<T>>)
    requires Inv(s) && s.consumer.Waiting? && Fetches(copying)
    requires Count(copying, false) >= want
    ensures 0 <= |s.input| - |s.output|
    ensures var n := Min(want, |s.input| - |s.output|);
            var r := Run(s, [StartOut(want)] + copying + [PublishOut]);
            r.output == s.output + s.input[|s.output|..|s.output| + n] && r.consumer == Waiting
  {
    hide PowerOfTwo, Stored, Taken, Next, Run;
    Used(s);
    Started(s, [], want);
    var t := Next(s, StartOut(want));
    FetchesOn(t, copying);
    var u := Run(t, copying);
    GotFits(u);
    Finished(u);
    assert u.input[..|s.input|] == s.input;
    ThreeParts(s, StartOut(want), copying, PublishOut);
  }
}
