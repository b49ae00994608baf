/** Whole runs of FQ-CoDel: the `goto begin` loop ends, and every reachable state is consistent. */
module FqCodelRuns {
  import opened Octets
  import opened Sequences
  import opened FqCodel

  // ---- Termination of the dequeue loop ----

  /** Refills until a deficit is positive. */
  function Refills(d: int, q: int): (n: nat)
    requires q > 0
    decreases if d > 0 then 0 else 1 - d
  {
    if d > 0 then 0 else 1 + Refills(d + q, q)
  }

  predicate InTable(l: seq<nat>, n: nat) {
    forall k :: 0 <= k < |l| ==> l[k] < n
  }

  function Weight(l: seq<nat>, fs: seq<Flow>, q: int, extra: nat): (w: nat)
    requires q > 0 && InTable(l, |fs|)
  {
    if l == [] then 0 else 1 + extra + Refills(fs[l[0]].deficit, q) + Weight(l[1..], fs, q, extra)
  }

  /** Queued packets plus, per listed flow, its missing refills plus one, plus one more on the new list. */
  function Measure(s: Sched): (m: nat)
    requires Valid(s)
  {
    ListsInTable(s);
    Packets(s.flows) + Weight(s.newFlows, s.flows, s.quantum, 1) + Weight(s.oldFlows, s.flows, s.quantum, 0)
  }

  lemma ListsInTable(s: Sched)
    requires Valid(s)
    ensures InTable(s.newFlows, |s.flows|) && InTable(s.oldFlows, |s.flows|)
  {
    hide TableOk;
    var l := s.newFlows + s.oldFlows;
    assert forall k :: 0 <= k < |s.newFlows| ==> s.newFlows[k] == l[k] && l[k] in l;
    assert forall k :: 0 <= k < |s.oldFlows| ==> s.oldFlows[k] == l[|s.newFlows| + k] && l[|s.newFlows| + k] in l;
  }

  lemma {:induction false} WeightAppend(l: seq<nat>, x: nat, fs: seq<Flow>, q: int, extra: nat)
    requires q > 0 && x < |fs| && InTable(l, |fs|)
    ensures Weight(l + [x], fs, q, extra) == Weight(l, fs, q, extra) + 1 + extra + Refills(fs[x].deficit, q)
  {
    if l == [] {
      assert l + [x] == [x];
    } else {
      assert (l + [x])[1..] == l[1..] + [x];
      WeightAppend(l[1..], x, fs, q, extra);
    }
  }

  lemma {:induction false} WeightFrame(l: seq<nat>, fs: seq<Flow>, gs: seq<Flow>, q: int, extra: nat)
    requires q > 0 && |gs| == |fs| && InTable(l, |fs|)
    requires forall k :: 0 <= k < |l| ==> gs[l[k]].deficit == fs[l[k]].deficit
    ensures Weight(l, gs, q, extra) == Weight(l, fs, q, extra)
  {
    if l != [] {
      WeightFrame(l[1..], fs, gs, q, extra);
    }
  }

  /** The head of the lists, split from the rest. */
  lemma HeadApart(s: Sched)
    requires Valid(s) && !Idle(s)
    ensures HeadFlow(s) < |s.flows|
    ensures var r := WithoutHead(s); HeadFlow(s) !in r.newFlows && HeadFlow(s) !in r.oldFlows
  {
    hide TableOk;
    var l := s.newFlows + s.oldFlows;
    var r := WithoutHead(s);
    assert r.newFlows + r.oldFlows == l[1..];
    TailDistinct(l);
    assert HeadFlow(s) !in r.newFlows + r.oldFlows;
  }

  lemma {:induction false} MeasureRefilled(s: Sched, fs: seq<Flow>, i: nat)
    requires Valid(s) && !Idle(s) && i == HeadFlow(s) && i < |s.flows| && s.flows[i].deficit <= 0
    requires fs == s.flows[i := s.flows[i].(deficit := s.flows[i].deficit + s.quantum)]
    requires Valid(Rotate(s.(flows := fs)))
    ensures Measure(Rotate(s.(flows := fs))) < Measure(s)
  {
    hide Valid, Packets;
    var q := s.quantum;
    var r := WithoutHead(s);
    HeadApart(s);
    ListsInTable(s);
    QuantumPositive(s);
    TableUpdate(s.flows, i, fs[i]);
    WeightFrame(r.newFlows, s.flows, fs, q, 1);
    WeightFrame(r.oldFlows, s.flows, fs, q, 0);
    WeightAppend(r.oldFlows, i, fs, q, 0);
  }

  lemma QuantumPositive(s: Sched)
    requires Valid(s)
    ensures s.quantum > 0
  {
  }

  lemma MeasureEmptied(s: Sched, r: Sched, i: nat, t: Sched)
    requires Valid(s) && !Idle(s) && i == HeadFlow(s) && i < |s.flows| && Valid(r)
    requires r == s.(flows := r.flows, backlogs := r.backlogs, qlen := r.qlen, backlog := r.backlog)
    requires r.qlen <= s.qlen && |r.flows| == |s.flows|
    requires forall j :: 0 <= j < |s.flows| ==> r.flows[j].deficit == s.flows[j].deficit
    requires t == if s.newFlows != [] && s.oldFlows != [] then Rotate(r) else WithoutHead(r)
    requires Valid(t)
    ensures Measure(t) < Measure(s)
  {
    hide Valid, Packets;
    var q := s.quantum;
    var w := WithoutHead(s);
    HeadApart(s);
    ListsInTable(s);
    QuantumPositive(s);
    PacketsQlen(s);
    PacketsQlen(r);
    WeightFrame(w.newFlows, s.flows, r.flows, q, 1);
    WeightFrame(w.oldFlows, s.flows, r.flows, q, 0);
    if s.newFlows != [] && s.oldFlows != [] {
      WeightAppend(w.oldFlows, i, r.flows, q, 0);
    }
  }

  lemma PacketsQlen(s: Sched)
    requires Valid(s)
    ensures s.qlen == Packets(s.flows)
  {
  }

  /** A pass that delivers nothing brings the loop closer to its end. */
  lemma PassDecreases(s: Sched, drops: nat)
    requires Valid(s) && !Idle(s)
    ensures Valid(Pass(s, drops).s)
    ensures !Pass(s, drops).event.Served? ==> Measure(Pass(s, drops).s) < Measure(s)
  {
    hide Valid, Measure, Codel;
    PassValid(s, drops);
    HeadInTable(s);
    var i := HeadFlow(s);
    if s.flows[i].deficit <= 0 {
      RefillPassValid(s, i);
      MeasureRefilled(s, SetDeficit(s, i, s.flows[i].deficit + s.quantum).flows, i);
    } else if Delivered(s, i, drops).None? {
      MeasureEmptied(s, Codel(s, i, drops), i, Pass(s, drops).s);
    }
  }

  function First(drops: seq<nat>): nat {
    if drops == [] then 0 else drops[0]
  }

  function Rest(drops: seq<nat>): seq<nat> {
    if drops == [] then [] else drops[1..]
  }

  /** fq_codel_dequeue: passes until one delivers a packet or no flow is left. The k-th call of codel_dequeue drops
      at most the k-th entry of `drops`. */
  function Dequeue(s: Sched, drops: seq<nat>): (t: Turn)
    requires Valid(s)
    ensures Valid(t.s) && (t.event.Served? || t.event.NoFlow?)
    ensures t.event.NoFlow? ==> Idle(t.s)
    decreases Measure(s)
  {
    if Idle(s) then Turn(s, NoFlow)
    else
      PassDecreases(s, First(drops));
      var t := Pass(s, First(drops));
      if t.event.Served? then t else Dequeue(t.s, Rest(drops))
  }

  /** Nothing is returned only when no packet is left in any flow. */
  lemma NothingMeansEmpty(s: Sched, drops: seq<nat>)
    requires Valid(s) && Dequeue(s, drops).event.NoFlow?
    ensures Dequeue(s, drops).s.qlen == 0
    ensures forall i :: 0 <= i < |Dequeue(s, drops).s.flows| ==> Dequeue(s, drops).s.flows[i].queue == []
  {
    hide Dequeue;
    IdleIsEmpty(Dequeue(s, drops).s);
  }

  lemma IdleIsEmpty(s: Sched)
    requires Valid(s) && Idle(s)
    ensures s.qlen == 0 && forall i :: 0 <= i < |s.flows| ==> s.flows[i].queue == []
  {
    hide TableOk;
    assert s.newFlows + s.oldFlows == [];
    NoPackets(s.flows);
  }

  /** A pass never adds a packet, and one that serves takes at least one away. */
  lemma PassQlen(s: Sched, drops: nat)
    requires Valid(s)
    ensures var t := Pass(s, drops);
            && t.s.qlen <= s.qlen && (t.event.Served? ==> t.s.qlen < s.qlen)
            && t.s.limit == s.limit && t.s.quantum == s.quantum && |t.s.flows| == |s.flows|
  {
    hide Valid, Codel;
    if !Idle(s) {
      HeadInTable(s);
      CodelQlen(s, HeadFlow(s), drops);
    }
  }

  lemma {:induction false} CodelQlen(s: Sched, i: nat, drops: nat)
    requires Valid(s) && i < |s.flows|
    ensures Delivered(s, i, drops).Some? ==> Codel(s, i, drops).qlen == s.qlen - drops - 1
    decreases drops
  {
    hide TableOk, ListsOk, Packets, TotalBytes;
    if s.flows[i].queue != [] && drops > 0 {
      RemoveValid(s, i, false);
      CodelQlen(Remove(s, i, false), i, drops - 1);
    }
  }

  lemma {:induction false} DequeueQlen(s: Sched, drops: seq<nat>)
    requires Valid(s)
    ensures var t := Dequeue(s, drops);
            && t.s.qlen <= s.qlen && (t.event.Served? ==> t.s.qlen < s.qlen)
            && t.s.limit == s.limit && t.s.quantum == s.quantum && |t.s.flows| == |s.flows|
    decreases Measure(s)
  {
    hide Valid, Pass, Measure;
    if !Idle(s) {
      PassDecreases(s, First(drops));
      PassQlen(s, First(drops));
      var t := Pass(s, First(drops));
      if !t.event.Served? {
        DequeueQlen(t.s, Rest(drops));
      }
    }
  }

  /** With an AQM that drops nothing, a packet is delivered exactly when one is queued. */
  lemma {:induction false} DeliversWhenBacklogged(s: Sched)
    requires Valid(s)
    ensures Dequeue(s, []).event.Served? <==> s.qlen > 0
    decreases Measure(s)
  {
    hide Valid, Codel, Measure;
    if Idle(s) {
      IdleIsEmpty(s);
    } else {
      PassDecreases(s, 0);
      PassQlen(s, 0);
      HeadInTable(s);
      var t := Pass(s, 0);
      if t.event.Served? {
        QlenNonNegative(t.s);
      } else {
        EmptiedKeepsQlen(s);
        DeliversWhenBacklogged(t.s);
      }
    }
  }

  lemma QlenNonNegative(s: Sched)
    requires Valid(s)
    ensures s.qlen >= 0
  {
  }

  lemma EmptiedKeepsQlen(s: Sched)
    requires Valid(s) && !Pass(s, 0).event.Served?
    ensures Pass(s, 0).s.qlen == s.qlen
  {
    hide Valid;
    if !Idle(s) {
      HeadInTable(s);
    }
  }

  // ---- Every reachable state ----

  function Head(drops: seq<seq<nat>>): seq<nat> {
    if drops == [] then [] else drops[0]
  }

  function Tail(drops: seq<seq<nat>>): seq<seq<nat>> {
    if drops == [] then [] else drops[1..]
  }

  /** The loop of fq_codel_change: dequeue and free until the limit is met. */
  function Shrink(s: Sched, drops: seq<seq<nat>>): (r: Sched)
    requires Valid(s)
    ensures Valid(r) && r.qlen <= r.limit && r.limit == s.limit && r.quantum == s.quantum && |r.flows| == |s.flows|
    decreases if s.qlen > 0 then s.qlen else 0
  {
    if s.qlen <= s.limit then s
    else
      DequeueQlen(s, Head(drops));
      var t := Dequeue(s, Head(drops));
      if t.event.NoFlow? then IdleIsEmpty(t.s); t.s else Shrink(t.s, Tail(drops))
  }

  /** Without drops it takes out no packet more than it must. */
  lemma {:induction false} ShrinkStopsAtLimit(s: Sched)
    requires Valid(s)
    ensures Shrink(s, []).qlen == if s.qlen <= s.limit then s.qlen else s.limit
    decreases if s.qlen > 0 then s.qlen else 0
  {
    hide Valid, Dequeue;
    if s.qlen > s.limit {
      QlenNonNegative(s);
      DequeueQlen(s, []);
      DeliversWhenBacklogged(s);
      TakesOne(s);
      ShrinkStopsAtLimit(Dequeue(s, []).s);
    }
  }

  lemma {:induction false} TakesOne(s: Sched)
    requires Valid(s) && Dequeue(s, []).event.Served?
    ensures Dequeue(s, []).s.qlen == s.qlen - 1
    decreases Measure(s)
  {
    hide Valid, Codel, Measure;
    PassDecreases(s, 0);
    HeadInTable(s);
    var t := Pass(s, 0);
    if t.event.Served? {
      CodelQlen(s, HeadFlow(s), 0);
    } else {
      EmptiedKeepsQlen(s);
      TakesOne(t.s);
    }
  }

  /** fq_codel_reset: dequeue and free until nothing comes. */
  function Purge(s: Sched, drops: seq<seq<nat>>): (r: Sched)
    requires Valid(s)
    ensures Valid(r) && Idle(r) && r.qlen == 0 && r.limit == s.limit && r.quantum == s.quantum && |r.flows| == |s.flows|
    decreases if s.qlen > 0 then s.qlen else 0
  {
    DequeueQlen(s, Head(drops));
    var t := Dequeue(s, Head(drops));
    QlenNonNegative(t.s);
    if t.event.NoFlow? then IdleIsEmpty(t.s); t.s else Purge(t.s, Tail(drops))
  }

  datatype Op =
    | Arrive(idx: nat, p: Skb)
    | Take(drops: seq<nat>)
    | Change(limit: nat, quantum: nat, purge: seq<seq<nat>>)
    | Reset(purge: seq<seq<nat>>)

  /** A call from outside. The classifier answers with a flow of the table or none; packets are not empty. */
  predicate Legal(s: Sched, op: Op) {
    op.Arrive? ==> op.idx <= |s.flows| && op.p.len > 0
  }

  ghost predicate Consistent(s: Sched) {
    Valid(s) && s.qlen <= s.limit
  }

  function Apply(s: Sched, op: Op): (r: Sched)
    requires Valid(s) && Legal(s, op)
    ensures Valid(r)
  {
    match op
    case Arrive(idx, p) => Enqueue(s, idx, p)
    case Take(drops) => Dequeue(s, drops).s
    case Change(limit, quantum, purge) =>
      var t := s.(limit := limit, quantum := if quantum < 256 then 256 else quantum);
      LimitsIrrelevant(s, t);
      Shrink(t, purge)
    case Reset(purge) => Purge(s, purge)
  }

  /** A new configuration takes effect at once: the limit as asked for, a quantum of at least 256, and no more packets
      than the limit. */
  lemma ChangeTakesEffect(s: Sched, limit: nat, quantum: nat, purge: seq<seq<nat>>)
    requires Valid(s)
    ensures var r := Apply(s, Change(limit, quantum, purge));
            && r.limit == limit && r.qlen <= limit && r.quantum >= 256 && r.quantum >= quantum
            && (r.quantum == quantum || r.quantum == 256)
  {
    hide Valid;
  }

  lemma LimitsIrrelevant(s: Sched, t: Sched)
    requires Valid(s) && t == s.(limit := t.limit, quantum := t.quantum) && t.quantum > 0
    ensures Valid(t)
  {
    hide TableOk, ListsOk;
  }

  /** fq_codel_init with `n` flows */
  function Initial(n: nat, limit: nat, quantum: nat): Sched {
    Sched(seq(n, _ => Flow([], 0, [], [])), seq(n, _ => 0), [], [], 0, 0, limit, quantum)
  }

  lemma {:induction false} EmptyTable(fs: seq<Flow>)
    requires forall i :: 0 <= i < |fs| ==> fs[i] == Flow([], 0, [], [])
    ensures Packets(fs) == 0 && TotalBytes(fs) == 0
  {
    if fs != [] {
      EmptyTable(fs[1..]);
    }
  }

  lemma InitialConsistent(n: nat, limit: nat, quantum: nat)
    requires quantum > 0
    ensures Consistent(Initial(n, limit, quantum))
  {
    EmptyTable(Initial(n, limit, quantum).flows);
  }

  lemma EnqueueWithinLimit(s: Sched, idx: nat, p: Skb)
    requires Consistent(s) && idx <= |s.flows| && p.len > 0
    ensures Consistent(Enqueue(s, idx, p))
  {
    hide TableOk, ListsOk, Packets, TotalBytes, FlowOk;
    if idx > 0 {
      AddValid(s, idx - 1, p);
    }
  }

  lemma ApplyConsistent(s: Sched, op: Op)
    requires Consistent(s) && Legal(s, op)
    ensures Consistent(Apply(s, op)) && |Apply(s, op).flows| == |s.flows|
  {
    hide Valid, Dequeue, Shrink, Purge;
    match op
    case Arrive(idx, p) => EnqueueWithinLimit(s, idx, p); EnqueueKeepsTable(s, idx, p);
    case Take(drops) => DequeueQlen(s, drops);
    case _ =>
  }

  lemma EnqueueKeepsTable(s: Sched, idx: nat, p: Skb)
    requires Valid(s) && idx <= |s.flows| && p.len > 0
    ensures |Enqueue(s, idx, p).flows| == |s.flows|
  {
    hide TableOk, ListsOk, Packets, TotalBytes, FlowOk;
  }

  predicate AllLegal(n: nat, ops: seq<Op>) {
    forall op :: op in ops && op.Arrive? ==> op.idx <= n && op.p.len > 0
  }

  function Run(s: Sched, ops: seq<Op>): (r: Sched)
    requires Consistent(s) && AllLegal(|s.flows|, ops)
    ensures Consistent(r)
    decreases |ops|
  {
    if ops == [] then s
    else
      assert ops[0] in ops;
      ApplyConsistent(s, ops[0]);
      Run(Apply(s, ops[0]), ops[1..])
  }

  /** In every reachable state: backlogs are the byte sums of the queues, qlen is the number of packets queued and
      within the limit, a flow with packets is on exactly one list, and what a flow has sent is an in-order
      subsequence of what arrived for it. */
  lemma Accounting(n: nat, limit: nat, quantum: nat, ops: seq<Op>)
    requires quantum > 0 && AllLegal(n, ops)
    ensures |Initial(n, limit, quantum).flows| == n && Consistent(Initial(n, limit, quantum))
    ensures var s := Run(Initial(n, limit, quantum), ops);
            && s.qlen == Packets(s.flows) <= s.limit
            && s.backlog == TotalBytes(s.flows)
            && |s.backlogs| == |s.flows|
            && (forall i :: 0 <= i < |s.flows| ==>
                  && s.backlogs[i] == Bytes(s.flows[i].queue)
                  && Subsequence(s.flows[i].sent, s.flows[i].arrived))
            && Distinct(s.newFlows + s.oldFlows)
            && (forall i :: 0 <= i < |s.flows| && s.flows[i].queue != [] ==> i in s.newFlows + s.oldFlows)
  {
    InitialConsistent(n, limit, quantum);
    ConsistentMeans(Run(Initial(n, limit, quantum), ops));
  }

  lemma ConsistentMeans(s: Sched)
    requires Consistent(s)
    ensures s.qlen == Packets(s.flows) <= s.limit && s.backlog == TotalBytes(s.flows) && |s.backlogs| == |s.flows|
    ensures forall i :: 0 <= i < |s.flows| ==>
              s.backlogs[i] == Bytes(s.flows[i].queue) && Subsequence(s.flows[i].sent, s.flows[i].arrived)
    ensures Distinct(s.newFlows + s.oldFlows)
    ensures forall i :: 0 <= i < |s.flows| && s.flows[i].queue != [] ==> i in s.newFlows + s.oldFlows
  {
    forall i | 0 <= i < |s.flows|
      ensures Subsequence(s.flows[i].sent, s.flows[i].arrived)
    {
      SentWasArrived(s.flows[i]);
    }
  }

  lemma SentWasArrived(f: Flow)
    requires FlowOk(f)
    ensures Subsequence(f.sent, f.arrived)
  {
    var n := |f.arrived| - |f.queue|;
    SubsequencePrefix(f.sent, f.arrived[..n], f.arrived[n..]);
    assert f.arrived[..n] + f.arrived[n..] == f.arrived;
  }

  // ---- The 32-bit counters ----

  lemma {:induction false} QueueBytesBound(q: seq<Skb>, m: nat)
    requires forall p :: p in q ==> p.len <= m
    ensures Bytes(q) <= |q| * m
  {
    if q != [] {
      assert forall p :: p in q[1..] ==> p in q;
      assert q[0] in q;
      QueueBytesBound(q[1..], m);
      assert |q| * m == (|q| - 1) * m + m;
    }
  }

  lemma {:induction false} TableBytesBound(fs: seq<Flow>, m: nat)
    requires forall i, p :: 0 <= i < |fs| && p in fs[i].queue ==> p.len <= m
    ensures TotalBytes(fs) <= Packets(fs) * m
  {
    if fs != [] {
      QueueBytesBound(fs[0].queue, m);
      TableBytesBound(fs[1..], m);
      assert Packets(fs) * m == |fs[0].queue| * m + Packets(fs[1..]) * m;
    }
  }

  lemma {:induction false} PartOfTotal(fs: seq<Flow>, i: nat)
    requires i < |fs| && forall k :: 0 <= k < |fs| ==> 0 <= Bytes(fs[k].queue)
    ensures Bytes(fs[i].queue) <= TotalBytes(fs)
  {
    TotalNonNegative(fs[1..]);
    if i > 0 {
      PartOfTotal(fs[1..], i - 1);
    }
  }

  lemma {:induction false} TotalNonNegative(fs: seq<Flow>)
    requires forall i :: 0 <= i < |fs| ==> 0 <= Bytes(fs[i].queue)
    ensures 0 <= TotalBytes(fs)
  {
    if fs != [] {
      TotalNonNegative(fs[1..]);
    }
  }

  /** The u32 counters hold the sums they are meant to hold: no state, nor the state inside fq_codel_enqueue before its
      drop, needs more than qlen times the largest packet. */
  lemma CountersFit(s: Sched, m: nat)
    requires Valid(s) && s.qlen * m < 0x1_0000_0000
    requires forall i, p :: 0 <= i < |s.flows| && p in s.flows[i].queue ==> p.len <= m
    ensures s.backlog < 0x1_0000_0000
    ensures forall i :: 0 <= i < |s.backlogs| ==> 0 <= s.backlogs[i] <= s.backlog
  {
    hide ListsOk, Subsequence;
    TableBytesBound(s.flows, m);
    forall i | 0 <= i < |s.flows|
      ensures 0 <= Bytes(s.flows[i].queue)
    {
      assert FlowOk(s.flows[i]);
      BytesPositive(s.flows[i].queue);
    }
    forall i | 0 <= i < |s.flows|
      ensures Bytes(s.flows[i].queue) <= TotalBytes(s.flows)
    {
      PartOfTotal(s.flows, i);
    }
  }
}
