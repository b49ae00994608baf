/** Fairness of the deficit round robin, pass by pass: between arrivals, every pass of the dequeue loop serves, refills
    or unlists the flow at the head. */
module FqCodelFairness {
  import opened Octets
  import opened Sequences
  import opened FqCodel
  import opened FqCodelRuns

  /** The finest steps of the scheduler: an arrival (with the drop it may cause), or one pass of the dequeue loop. */
  datatype Micro = Arrival(idx: nat, p: Skb) | OnePass(drops: nat)

  predicate LegalMicro(n: nat, m: nat, op: Micro) {
    op.Arrival? ==> op.idx <= n && 0 < op.p.len <= m
  }

  function MicroStep(s: Sched, op: Micro): (t: Turn)
    requires Valid(s) && (op.Arrival? ==> op.idx <= |s.flows| && op.p.len > 0)
    ensures Valid(t.s)
  {
    match op
    case Arrival(idx, p) => Turn(Enqueue(s, idx, p), NoFlow)
    case OnePass(drops) => PassValid(s, drops); Pass(s, drops)
  }

  /** Packets are at most `m` bytes, deficits of listed flows lie between 1 - m and the quantum. */
  ghost predicate Bounded(s: Sched, m: nat) {
    && (forall i, p :: 0 <= i < |s.flows| && p in s.flows[i].queue ==> p.len <= m)
    && (forall i :: 0 <= i < |s.flows| && i in s.newFlows + s.oldFlows ==>
          1 - m <= s.flows[i].deficit <= s.quantum)
  }

  ghost predicate Fine(s: Sched, m: nat) {
    Valid(s) && Bounded(s, m) && m > 0
  }

  // ---- Bounds ----

  lemma AddBounded(s: Sched, m: nat, i: nat, p: Skb)
    requires Fine(s, m) && i < |s.flows| && 0 < p.len <= m
    ensures Fine(Add(s, i, p), m)
    ensures Add(s, i, p).oldFlows == s.oldFlows && Add(s, i, p).quantum == s.quantum
    ensures |Add(s, i, p).flows| == |s.flows|
    ensures forall j :: 0 <= j < |s.flows| && j in s.oldFlows ==> Add(s, i, p).flows[j].deficit == s.flows[j].deficit
  {
    hide TableOk, ListsOk, Packets, TotalBytes, Subsequence;
    AddValid(s, i, p);
    QuantumPositive(s);
    MembersInsert(s.newFlows, s.oldFlows, i);
    var r := Add(s, i, p);
    forall j | 0 <= j < |r.flows| && j in r.newFlows + r.oldFlows
      ensures 1 - m <= r.flows[j].deficit <= r.quantum
    {
      if j != i {
        assert j in s.newFlows + s.oldFlows;
      }
    }
  }

  lemma RemoveBounded(s: Sched, m: nat, i: nat, delivered: bool)
    requires Fine(s, m) && i < |s.flows| && s.flows[i].queue != []
    ensures Fine(Remove(s, i, delivered), m)
  {
    hide TableOk, ListsOk, Packets, TotalBytes;
    RemoveValid(s, i, delivered);
  }

  /** What an arrival leaves alone: the old list and the deficits of its flows. */
  lemma ArrivalFrame(s: Sched, m: nat, idx: nat, p: Skb)
    requires Fine(s, m) && idx <= |s.flows| && 0 < p.len <= m
    ensures var r := Enqueue(s, idx, p);
            && Fine(r, m) && r.oldFlows == s.oldFlows && r.quantum == s.quantum && |r.flows| == |s.flows|
            && (forall j :: 0 <= j < |s.flows| && j in s.oldFlows ==> r.flows[j].deficit == s.flows[j].deficit)
  {
    hide Valid, Bounded;
    BacklogsSized(s);
    if idx > 0 {
      AddBounded(s, m, idx - 1, p);
      var t := Add(s, idx - 1, p);
      QlenNonNegative(s);
      if t.qlen >= s.limit {
        FattestFlow(t);
        BacklogsSized(t);
        RemoveBounded(t, m, Fattest(t), false);
      }
    }
  }

  lemma BacklogsSized(s: Sched)
    requires Valid(s)
    ensures |s.backlogs| == |s.flows|
  {
  }

  lemma QueuedPacket(s: Sched, m: nat, i: nat, k: nat)
    requires Fine(s, m) && i < |s.flows| && k < |s.flows[i].queue|
    ensures 0 < s.flows[i].queue[k].len <= m
  {
    hide ListsOk, Packets, TotalBytes, Subsequence;
    assert FlowOk(s.flows[i]);
    assert s.flows[i].queue[k] in s.flows[i].queue;
  }

  lemma {:induction false} CodelBounded(s: Sched, m: nat, i: nat, drops: nat)
    requires Fine(s, m) && i < |s.flows|
    ensures Fine(Codel(s, i, drops), m)
    ensures Delivered(s, i, drops).Some? ==> 0 < Delivered(s, i, drops).value.len <= m
    decreases drops
  {
    hide Valid, Bounded;
    if drops < |s.flows[i].queue| {
      QueuedPacket(s, m, i, drops);
    }
    if s.flows[i].queue != [] {
      BacklogsSized(s);
      RemoveBounded(s, m, i, drops == 0);
      if drops > 0 {
        CodelBounded(Remove(s, i, false), m, i, drops - 1);
      }
    }
  }

  lemma SetDeficitBounded(s: Sched, m: nat, i: nat, d: int)
    requires Fine(s, m) && i < |s.flows| && 1 - m <= d <= s.quantum
    ensures Fine(SetDeficit(s, i, d), m)
  {
    hide TableOk, ListsOk, Packets, TotalBytes;
    DeficitIrrelevant(s, i, d);
  }

  lemma RotateBounded(s: Sched, m: nat)
    requires Fine(s, m) && !Idle(s)
    ensures Fine(Rotate(s), m)
  {
    hide TableOk, Packets, TotalBytes;
    RotateValid(s);
    var l := s.newFlows + s.oldFlows;
    assert Rotate(s).newFlows + Rotate(s).oldFlows == l[1..] + [l[0]];
    RotateDistinct(l);
  }

  lemma UnlistBounded(s: Sched, m: nat)
    requires Fine(s, m) && !Idle(s) && s.flows[HeadFlow(s)].queue == []
    ensures Fine(WithoutHead(s), m)
  {
    hide TableOk, Packets, TotalBytes;
    UnlistValid(s);
    var l := s.newFlows + s.oldFlows;
    assert WithoutHead(s).newFlows + WithoutHead(s).oldFlows == l[1..];
    TailDistinct(l);
  }

  lemma HeadDeficit(s: Sched, m: nat)
    requires Fine(s, m) && !Idle(s)
    ensures HeadFlow(s) < |s.flows| && 1 - m <= s.flows[HeadFlow(s)].deficit <= s.quantum && s.quantum > 0
  {
    hide TableOk, Packets, TotalBytes;
  }

  lemma PassBounded(s: Sched, m: nat, drops: nat)
    requires Fine(s, m)
    ensures Fine(Pass(s, drops).s, m)
  {
    hide Valid, Bounded, Codel;
    if !Idle(s) {
      HeadDeficit(s, m);
      var i := HeadFlow(s);
      var d := s.flows[i].deficit;
      if d <= 0 {
        SetDeficitBounded(s, m, i, d + s.quantum);
        RotateBounded(SetDeficit(s, i, d + s.quantum), m);
      } else {
        var r := Codel(s, i, drops);
        CodelBounded(s, m, i, drops);
        CodelEmpties(s, i, drops);
        if Delivered(s, i, drops).Some? {
          SetDeficitBounded(r, m, i, d - Delivered(s, i, drops).value.len);
        } else if s.newFlows != [] && s.oldFlows != [] {
          RotateBounded(r, m);
        } else {
          UnlistBounded(r, m);
        }
      }
    }
  }

  lemma MicroFine(s: Sched, m: nat, op: Micro)
    requires Fine(s, m) && LegalMicro(|s.flows|, m, op)
    ensures Fine(MicroStep(s, op).s, m)
    ensures |MicroStep(s, op).s.flows| == |s.flows| && MicroStep(s, op).s.quantum == s.quantum
  {
    hide Valid, Bounded, Pass, Enqueue;
    match op
    case Arrival(idx, p) => ArrivalFrame(s, m, idx, p);
    case OnePass(drops) => PassBounded(s, m, drops); PassQlen(s, drops);
  }

  // ---- Counting refills and bytes over a run ----

  predicate AllLegal(n: nat, m: nat, ops: seq<Micro>) {
    forall k :: 0 <= k < |ops| ==> LegalMicro(n, m, ops[k])
  }

  /** Flow `i` is on the old list at the start and after every step. */
  ghost predicate Stays(s: Sched, m: nat, ops: seq<Micro>, i: nat)
    requires Fine(s, m) && AllLegal(|s.flows|, m, ops)
    decreases |ops|
  {
    && i in s.oldFlows
    && (ops == [] || (MicroFine(s, m, ops[0]); Stays(MicroStep(s, ops[0]).s, m, ops[1..], i)))
  }

  /** Refills of flow `i` during a run, and the bytes it is served. */
  ghost function RefillCount(s: Sched, m: nat, ops: seq<Micro>, i: nat): (n: nat)
    requires Fine(s, m) && AllLegal(|s.flows|, m, ops)
    decreases |ops|
  {
    if ops == [] then 0
    else
      MicroFine(s, m, ops[0]);
      var t := MicroStep(s, ops[0]);
      (if t.event == Refilled(i) then 1 else 0) + RefillCount(t.s, m, ops[1..], i)
  }

  ghost function ServedBytes(s: Sched, m: nat, ops: seq<Micro>, i: nat): int
    requires Fine(s, m) && AllLegal(|s.flows|, m, ops)
    decreases |ops|
  {
    if ops == [] then 0
    else
      MicroFine(s, m, ops[0]);
      var t := MicroStep(s, ops[0]);
      (if t.event.Served? && t.event.i == i then t.event.p.len else 0) + ServedBytes(t.s, m, ops[1..], i)
  }

  ghost function Final(s: Sched, m: nat, ops: seq<Micro>): (r: Sched)
    requires Fine(s, m) && AllLegal(|s.flows|, m, ops)
    ensures Fine(r, m) && r.quantum == s.quantum && |r.flows| == |s.flows|
    decreases |ops|
  {
    if ops == [] then s
    else
      MicroFine(s, m, ops[0]);
      Final(MicroStep(s, ops[0]).s, m, ops[1..])
  }

  /** Deficit accounting of one step for a flow on the old list. */
  lemma StepDeficit(s: Sched, m: nat, op: Micro, i: nat)
    requires Fine(s, m) && LegalMicro(|s.flows|, m, op) && i in s.oldFlows
    ensures i < |s.flows| && |MicroStep(s, op).s.flows| == |s.flows|
    ensures var t := MicroStep(s, op);
            t.s.flows[i].deficit == s.flows[i].deficit
              + (if t.event == Refilled(i) then s.quantum else 0)
              - (if t.event.Served? && t.event.i == i then t.event.p.len else 0)
  {
    hide Valid, Bounded, Codel, Enqueue;
    ListsInTable(s);
    match op
    case Arrival(idx, p) => ArrivalFrame(s, m, idx, p);
    case OnePass(drops) =>
      if !Idle(s) {
        HeadInTable(s);
        PassQlen(s, drops);
      }
  }

  /** Served bytes are the starting deficit plus a quantum per refill minus the deficit left. */
  lemma {:induction false} ServedIsRefilled(s: Sched, m: nat, ops: seq<Micro>, i: nat)
    requires Fine(s, m) && AllLegal(|s.flows|, m, ops) && Stays(s, m, ops, i)
    ensures i < |s.flows|
    ensures ServedBytes(s, m, ops, i)
         == s.flows[i].deficit + s.quantum * RefillCount(s, m, ops, i) - Final(s, m, ops).flows[i].deficit
    decreases |ops|
  {
    hide Valid, Bounded, Pass, MicroStep;
    OldInTable(s, m, i);
    if ops != [] {
      MicroFine(s, m, ops[0]);
      StepDeficit(s, m, ops[0], i);
      var t := MicroStep(s, ops[0]);
      ServedIsRefilled(t.s, m, ops[1..], i);
      var a: nat := if t.event == Refilled(i) then 1 else 0;
      Distribute(s.quantum, a, RefillCount(t.s, m, ops[1..], i));
    }
  }

  lemma Distribute(q: int, a: int, b: int)
    ensures q * (a + b) == q * a + q * b
  {
  }

  lemma OldInTable(s: Sched, m: nat, i: nat)
    requires Fine(s, m) && i in s.oldFlows
    ensures i < |s.flows|
  {
    hide TableOk, Packets, TotalBytes;
    assert i in s.newFlows + s.oldFlows;
  }

  // ---- The order on the old list ----

  /** Whichever of `i` and `j` comes first in `l` is `i`. */
  predicate Before(l: seq<nat>, i: nat, j: nat) {
    l != [] && (l[0] == i || (l[0] != j && Before(l[1..], i, j)))
  }

  lemma {:induction false} BeforeAppend(l: seq<nat>, i: nat, j: nat, x: nat)
    requires i in l || j in l
    ensures Before(l + [x], i, j) == Before(l, i, j)
  {
    if l[0] != i && l[0] != j {
      assert (l + [x])[1..] == l[1..] + [x];
      BeforeAppend(l[1..], i, j, x);
    }
  }

  lemma {:induction false} BeforeTotal(l: seq<nat>, i: nat, j: nat)
    requires i in l && j in l && i != j
    ensures Before(l, i, j) != Before(l, j, i)
  {
    if l[0] != i && l[0] != j {
      BeforeTotal(l[1..], i, j);
    }
  }

  /** What one pass does to the old list, as far as two of its flows are concerned. */
  lemma StepOrder(s: Sched, m: nat, op: Micro, i: nat, j: nat)
    requires Fine(s, m) && LegalMicro(|s.flows|, m, op) && i != j
    requires i in s.oldFlows && j in s.oldFlows
    requires i in MicroStep(s, op).s.oldFlows && j in MicroStep(s, op).s.oldFlows
    ensures var t := MicroStep(s, op);
            && (t.event == Refilled(i) ==> Before(s.oldFlows, i, j) && !Before(t.s.oldFlows, i, j))
            && (t.event == Refilled(j) ==> !Before(s.oldFlows, i, j) && Before(t.s.oldFlows, i, j))
            && (t.event != Refilled(i) && t.event != Refilled(j) ==>
                  Before(t.s.oldFlows, i, j) == Before(s.oldFlows, i, j))
  {
    hide Valid, Bounded, Codel, Enqueue;
    match op
    case Arrival(idx, p) => ArrivalFrame(s, m, idx, p);
    case OnePass(drops) =>
      if !Idle(s) {
        HeadInTable(s);
        HeadApart(s);
        var h := HeadFlow(s);
        var rest := WithoutHead(s).oldFlows;
        if s.newFlows != [] {
          BeforeAppend(s.oldFlows, i, j, h);
        } else {
          BeforeAppend(rest, i, j, h);
          if h != i && h != j {
            assert Before(s.oldFlows, i, j) == Before(rest, i, j);
          } else if h == i {
            NotBeforeAbsent(rest, i, j);
          } else {
            BeforeTotal(rest + [h], i, j);
            NotBeforeAbsent(rest, j, i);
            BeforeAppend(rest, j, i, h);
          }
        }
      }
  }

  lemma {:induction false} NotBeforeAbsent(l: seq<nat>, i: nat, j: nat)
    requires i !in l && j in l
    ensures !Before(l, i, j)
  {
    if l[0] != j {
      NotBeforeAbsent(l[1..], i, j);
    }
  }

  /** Refills alternate: the flow that is ahead gets at most one refill more, and never one less. */
  lemma {:induction false} RefillsAlternate(s: Sched, m: nat, ops: seq<Micro>, i: nat, j: nat)
    requires Fine(s, m) && AllLegal(|s.flows|, m, ops) && i != j
    requires Stays(s, m, ops, i) && Stays(s, m, ops, j)
    ensures var d := RefillCount(s, m, ops, i) - RefillCount(s, m, ops, j);
            if Before(s.oldFlows, i, j) then 0 <= d <= 1 else -1 <= d <= 0
    decreases |ops|
  {
    hide Valid, Bounded, Pass, MicroStep;
    if ops != [] {
      MicroFine(s, m, ops[0]);
      var t := MicroStep(s, ops[0]);
      StaysNow(t.s, m, ops[1..], i);
      StaysNow(t.s, m, ops[1..], j);
      StepOrder(s, m, ops[0], i, j);
      RefillsAlternate(t.s, m, ops[1..], i, j);
    }
  }

  lemma StaysNow(s: Sched, m: nat, ops: seq<Micro>, i: nat)
    requires Fine(s, m) && AllLegal(|s.flows|, m, ops) && Stays(s, m, ops, i)
    ensures i in s.oldFlows
  {
  }

  lemma {:induction false} StaysToTheEnd(s: Sched, m: nat, ops: seq<Micro>, i: nat)
    requires Fine(s, m) && AllLegal(|s.flows|, m, ops) && Stays(s, m, ops, i)
    ensures i in Final(s, m, ops).oldFlows
    decreases |ops|
  {
    hide Valid, Bounded, Pass, MicroStep;
    if ops != [] {
      MicroFine(s, m, ops[0]);
      StaysToTheEnd(MicroStep(s, ops[0]).s, m, ops[1..], i);
    }
  }

  lemma OldDeficit(s: Sched, m: nat, i: nat)
    requires Fine(s, m) && i in s.oldFlows
    ensures i < |s.flows| && 1 - m <= s.flows[i].deficit <= s.quantum
  {
    OldInTable(s, m, i);
    assert i in s.newFlows + s.oldFlows;
  }

  /** Fairness. While two flows stay on the old list, their refills differ by at most one and their served bytes by
      less than three quanta and two packets. */
  lemma Fairness(s: Sched, m: nat, ops: seq<Micro>, i: nat, j: nat)
    requires Fine(s, m) && AllLegal(|s.flows|, m, ops) && i != j
    requires Stays(s, m, ops, i) && Stays(s, m, ops, j)
    ensures -1 <= RefillCount(s, m, ops, i) - RefillCount(s, m, ops, j) <= 1
    ensures var d := ServedBytes(s, m, ops, i) - ServedBytes(s, m, ops, j);
            -(3 * s.quantum + 2 * m) < d < 3 * s.quantum + 2 * m
  {
    hide Valid, Bounded, Stays, RefillCount, ServedBytes, Final;
    RefillsAlternate(s, m, ops, i, j);
    ServedIsRefilled(s, m, ops, i);
    ServedIsRefilled(s, m, ops, j);
    StaysNow(s, m, ops, i);
    StaysNow(s, m, ops, j);
    OldDeficit(s, m, i);
    OldDeficit(s, m, j);
    StaysToTheEnd(s, m, ops, i);
    StaysToTheEnd(s, m, ops, j);
    OldDeficit(Final(s, m, ops), m, i);
    OldDeficit(Final(s, m, ops), m, j);
    FineQuantum(s, m);
    QuantumTimes(s.quantum, RefillCount(s, m, ops, i), RefillCount(s, m, ops, j));
  }

  lemma QuantumTimes(q: int, a: int, b: int)
    requires q > 0 && -1 <= a - b <= 1
    ensures -q <= q * a - q * b <= q
  {
    Distribute(q, b, a - b);
    assert a - b == 0 || a - b == 1 || a - b == -1;
  }

  lemma FineQuantum(s: Sched, m: nat)
    requires Fine(s, m)
    ensures s.quantum > 0 && m > 0
  {
  }

  /** Runs start from fq_codel_init, so every state they reach meets the assumptions of Fairness. */
  lemma InitialFine(n: nat, limit: nat, quantum: nat, m: nat)
    requires quantum > 0 && m > 0
    ensures Fine(Initial(n, limit, quantum), m)
  {
    InitialConsistent(n, limit, quantum);
  }

  // ---- Whole calls ----

  /** The passes that one call of fq_codel_dequeue makes. */
  function Passes(s: Sched, drops: seq<nat>): seq<Micro>
    requires Valid(s)
    decreases Measure(s)
  {
    if Idle(s) then []
    else
      PassDecreases(s, First(drops));
      var t := Pass(s, First(drops));
      [OnePass(First(drops))] + if t.event.Served? then [] else Passes(t.s, Rest(drops))
  }

  /** Bytes of flow `i` in what a call returned. */
  function BytesOf(event: Event, i: nat): int {
    if event.Served? && event.i == i then event.p.len else 0
  }

  lemma {:induction false} PassesLegal(s: Sched, drops: seq<nat>)
    requires Valid(s)
    ensures forall k :: 0 <= k < |Passes(s, drops)| ==> Passes(s, drops)[k].OnePass?
    decreases Measure(s)
  {
    hide Valid, Pass, Measure;
    if !Idle(s) {
      PassDecreases(s, First(drops));
      if !Pass(s, First(drops)).event.Served? {
        PassesLegal(Pass(s, First(drops)).s, Rest(drops));
      }
    }
  }

  /** A call of fq_codel_dequeue is a run of passes: it ends in the same state and serves the same packet. */
  lemma {:induction false} DequeueIsPasses(s: Sched, m: nat, drops: seq<nat>, i: nat)
    requires Fine(s, m)
    ensures AllLegal(|s.flows|, m, Passes(s, drops))
    ensures Final(s, m, Passes(s, drops)) == Dequeue(s, drops).s
    ensures ServedBytes(s, m, Passes(s, drops), i) == BytesOf(Dequeue(s, drops).event, i)
    decreases Measure(s)
  {
    hide Valid, Bounded, Pass, Measure;
    PassesLegal(s, drops);
    if !Idle(s) {
      var op := OnePass(First(drops));
      PassDecreases(s, First(drops));
      MicroFine(s, m, op);
      var t := Pass(s, First(drops));
      var ops := Passes(s, drops);
      if t.event.Served? {
        assert ops[1..] == [];
      } else {
        DequeueIsPasses(t.s, m, Rest(drops), i);
        assert ops[0] == op && ops[1..] == Passes(t.s, Rest(drops));
      }
    }
  }

  lemma {:induction false} RunsAppend(s: Sched, m: nat, a: seq<Micro>, b: seq<Micro>, i: nat)
    requires Fine(s, m) && AllLegal(|s.flows|, m, a) && AllLegal(|s.flows|, m, b)
    ensures AllLegal(|s.flows|, m, a + b)
    ensures Final(s, m, a + b) == Final(Final(s, m, a), m, b)
    ensures ServedBytes(s, m, a + b, i) == ServedBytes(s, m, a, i) + ServedBytes(Final(s, m, a), m, b, i)
    decreases |a|
  {
    hide Valid, Bounded, MicroStep;
    if a == [] {
      assert a + b == b;
    } else {
      assert (a + b)[0] == a[0] && (a + b)[1..] == a[1..] + b;
      MicroFine(s, m, a[0]);
      RunsAppend(MicroStep(s, a[0]).s, m, a[1..], b, i);
    }
  }

  /** Calls of fq_codel_enqueue and fq_codel_dequeue, with packets of at most `m` bytes. */
  predicate Calls(n: nat, m: nat, ops: seq<Op>) {
    forall k :: 0 <= k < |ops| ==>
      match ops[k]
      case Arrive(idx, p) => idx <= n && 0 < p.len <= m
      case Take(_) => true
      case Change(_, _, _) => false
      case Reset(_) => false
  }

  function Steps(s: Sched, op: Op): seq<Micro>
    requires Valid(s)
  {
    match op
    case Arrive(idx, p) => [Arrival(idx, p)]
    case Take(drops) => Passes(s, drops)
    case Change(_, _, _) => []
    case Reset(_) => []
  }

  lemma StepsAreCall(s: Sched, m: nat, op: Op, i: nat)
    requires Fine(s, m) && Calls(|s.flows|, m, [op])
    ensures Legal(s, op) && AllLegal(|s.flows|, m, Steps(s, op))
    ensures Final(s, m, Steps(s, op)) == Apply(s, op)
    ensures ServedBytes(s, m, Steps(s, op), i) == CallBytes(s, op, i)
  {
    hide Valid, Bounded, Pass, Dequeue, Passes, Enqueue;
    assert [op][0] == op;
    match op
    case Take(drops) => DequeueIsPasses(s, m, drops, i);
    case Arrive(idx, p) =>
      var ops := [Arrival(idx, p)];
      MicroFine(s, m, ops[0]);
      assert ops[1..] == [];
  }

  /** Bytes of flow `i` that a call delivers. */
  function CallBytes(s: Sched, op: Op, i: nat): int
    requires Valid(s)
  {
    if op.Take? then BytesOf(Dequeue(s, op.drops).event, i) else 0
  }

  /** The steps of a run of calls, and the bytes that it delivers from flow `i`. */
  ghost function RunSteps(s: Sched, m: nat, ops: seq<Op>): (r: seq<Micro>)
    requires Fine(s, m) && Calls(|s.flows|, m, ops)
    ensures AllLegal(|s.flows|, m, r)
    decreases |ops|
  {
    if ops == [] then []
    else
      FirstCall(s, m, ops);
      StepsAreCall(s, m, ops[0], 0);
      Steps(s, ops[0]) + RunSteps(Apply(s, ops[0]), m, ops[1..])
  }

  lemma FirstCall(s: Sched, m: nat, ops: seq<Op>)
    requires Fine(s, m) && Calls(|s.flows|, m, ops) && ops != []
    ensures Calls(|s.flows|, m, [ops[0]]) && Calls(|s.flows|, m, ops[1..])
  {
  }

  ghost function RunBytes(s: Sched, m: nat, ops: seq<Op>, i: nat): int
    requires Fine(s, m) && Calls(|s.flows|, m, ops)
    decreases |ops|
  {
    if ops == [] then 0
    else
      FirstCall(s, m, ops);
      StepsAreCall(s, m, ops[0], 0);
      CallBytes(s, ops[0], i) + RunBytes(Apply(s, ops[0]), m, ops[1..], i)
  }

  lemma {:induction false} RunBytesAreServed(s: Sched, m: nat, ops: seq<Op>, i: nat)
    requires Fine(s, m) && Calls(|s.flows|, m, ops)
    ensures RunBytes(s, m, ops, i) == ServedBytes(s, m, RunSteps(s, m, ops), i)
    decreases |ops|
  {
    hide Valid, Bounded, Apply, Steps, CallBytes;
    if ops != [] {
      FirstCall(s, m, ops);
      StepsAreCall(s, m, ops[0], 0);
      StepsAreCall(s, m, ops[0], i);
      var t := Apply(s, ops[0]);
      RunBytesAreServed(t, m, ops[1..], i);
      RunsAppend(s, m, Steps(s, ops[0]), RunSteps(t, m, ops[1..]), i);
    }
  }

  /** Fairness of whole calls: in every run of fq_codel_enqueue and fq_codel_dequeue during which two flows stay on the
      old list, the bytes delivered from them differ by less than three quanta and two packets. */
  lemma FairCalls(s: Sched, m: nat, ops: seq<Op>, i: nat, j: nat)
    requires Fine(s, m) && Calls(|s.flows|, m, ops) && i != j
    requires Stays(s, m, RunSteps(s, m, ops), i) && Stays(s, m, RunSteps(s, m, ops), j)
    ensures var d := RunBytes(s, m, ops, i) - RunBytes(s, m, ops, j);
            -(3 * s.quantum + 2 * m) < d < 3 * s.quantum + 2 * m
  {
    hide Valid, Bounded, Stays, RunSteps, RunBytes, ServedBytes;
    RunBytesAreServed(s, m, ops, i);
    RunBytesAreServed(s, m, ops, j);
    Fairness(s, m, RunSteps(s, m, ops), i, j);
  }
}
