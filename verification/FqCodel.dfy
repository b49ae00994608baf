/** The FQ-CoDel scheduler (sch_fq_codel_core.c) as functions on values: deficit round robin over two lists of flows,
    a backlog table and drops from the fattest flow. Module FqCodelQdisc runs the source's loops against them. */
module FqCodel {
  import opened Octets
  import opened Sequences

  datatype Skb = Skb(len: int, id: int)

  /** struct fq_codel_flow; `arrived` and `sent` record the flow's whole history. */
  datatype Flow = Flow(queue: seq<Skb>, deficit: int, arrived: seq<Skb>, sent: seq<Skb>)

  datatype Sched = Sched(
    flows: seq<Flow>, backlogs: seq<int>, newFlows: seq<nat>, oldFlows: seq<nat>,
    qlen: int, backlog: int, limit: nat, quantum: int)

  function Bytes(q: seq<Skb>): int {
    if q == [] then 0 else q[0].len + Bytes(q[1..])
  }

  function Packets(fs: seq<Flow>): nat {
    if fs == [] then 0 else |fs[0].queue| + Packets(fs[1..])
  }

  function TotalBytes(fs: seq<Flow>): int {
    if fs == [] then 0 else Bytes(fs[0].queue) + TotalBytes(fs[1..])
  }

  predicate Distinct(l: seq<nat>) {
    forall i, j :: 0 <= i < j < |l| ==> l[i] != l[j]
  }

  // ---- The state every operation keeps ----

  ghost predicate FlowOk(f: Flow) {
    && |f.queue| <= |f.arrived|
    && f.arrived[|f.arrived| - |f.queue|..] == f.queue
    && Subsequence(f.sent, f.arrived[..|f.arrived| - |f.queue|])
    && (forall p :: p in f.queue ==> p.len > 0)
  }

  /** Every backlog is the byte sum of its flow's queue. */
  ghost predicate TableOk(fs: seq<Flow>, bs: seq<int>) {
    && |bs| == |fs|
    && (forall i :: 0 <= i < |fs| ==> FlowOk(fs[i]))
    && (forall i :: 0 <= i < |fs| ==> bs[i] == Bytes(fs[i].queue))
  }

  /** Every flow with packets is on exactly one of the two lists (here one after the other), no flow twice. */
  ghost predicate ListsOk(l: seq<nat>, fs: seq<Flow>) {
    && Distinct(l)
    && (forall i :: i in l ==> i < |fs|)
    && (forall i :: 0 <= i < |fs| && fs[i].queue != [] ==> i in l)
  }

  ghost predicate Valid(s: Sched) {
    && s.quantum > 0 && |s.backlogs| == |s.flows|
    && TableOk(s.flows, s.backlogs)
    && ListsOk(s.newFlows + s.oldFlows, s.flows)
    && s.qlen == Packets(s.flows)
    && s.backlog == TotalBytes(s.flows)
  }

  lemma TableSet(fs: seq<Flow>, bs: seq<int>, i: nat, f: Flow)
    requires TableOk(fs, bs) && i < |fs| && FlowOk(f)
    ensures TableOk(fs[i := f], bs[i := Bytes(f.queue)])
  {
    hide FlowOk;
  }

  lemma ListsSet(l: seq<nat>, fs: seq<Flow>, i: nat, f: Flow)
    requires ListsOk(l, fs) && i < |fs| && (f.queue != [] ==> i in l)
    ensures ListsOk(l, fs[i := f])
  {
  }

  /** Changing one flow and the totals with it. */
  lemma FlowSet(s: Sched, i: nat, f: Flow)
    requires Valid(s) && i < |s.flows| && FlowOk(f) && (f.queue != [] ==> i in s.newFlows + s.oldFlows)
    ensures Valid(s.(flows := s.flows[i := f], backlogs := s.backlogs[i := Bytes(f.queue)],
                     qlen := s.qlen - |s.flows[i].queue| + |f.queue|,
                     backlog := s.backlog - Bytes(s.flows[i].queue) + Bytes(f.queue)))
  {
    TableSet(s.flows, s.backlogs, i, f);
    ListsSet(s.newFlows + s.oldFlows, s.flows, i, f);
    TableUpdate(s.flows, i, f);
    hide TableOk, ListsOk, FlowOk;
  }

  // ---- Sums over the flow table ----

  lemma {:induction false} BytesAppend(a: seq<Skb>, b: seq<Skb>)
    ensures Bytes(a + b) == Bytes(a) + Bytes(b)
  {
    if a == [] {
      assert a + b == b;
    } else {
      assert (a + b)[1..] == a[1..] + b;
      BytesAppend(a[1..], b);
    }
  }

  lemma {:induction false} BytesPositive(q: seq<Skb>)
    requires forall p :: p in q ==> p.len > 0
    ensures Bytes(q) >= |q|
  {
    if q != [] {
      BytesPositive(q[1..]);
    }
  }

  lemma {:induction false} TableUpdate(fs: seq<Flow>, i: nat, f: Flow)
    requires i < |fs|
    ensures Packets(fs[i := f]) == Packets(fs) - |fs[i].queue| + |f.queue|
    ensures TotalBytes(fs[i := f]) == TotalBytes(fs) - Bytes(fs[i].queue) + Bytes(f.queue)
  {
    if i == 0 {
      assert fs[i := f][1..] == fs[1..];
    } else {
      assert fs[i := f][1..] == fs[1..][i - 1 := f];
      TableUpdate(fs[1..], i - 1, f);
    }
  }

  lemma {:induction false} SomeFlowHasPackets(fs: seq<Flow>)
    requires Packets(fs) > 0
    ensures exists i :: 0 <= i < |fs| && fs[i].queue != []
  {
    if fs[0].queue == [] {
      SomeFlowHasPackets(fs[1..]);
      var i :| 0 <= i < |fs[1..]| && fs[1..][i].queue != [];
      assert fs[i + 1].queue != [];
    }
  }

  lemma {:induction false} NoPackets(fs: seq<Flow>)
    requires forall i :: 0 <= i < |fs| ==> fs[i].queue == []
    ensures Packets(fs) == 0
  {
    if fs != [] {
      NoPackets(fs[1..]);
    }
  }

  // ---- Removing packets from one flow ----

  /** The head leaves a flow: delivered or dropped. */
  function Pop(f: Flow, delivered: bool): (r: Flow)
    requires f.queue != []
  {
    f.(queue := f.queue[1..], sent := if delivered then f.sent + [f.queue[0]] else f.sent)
  }

  lemma PopOk(f: Flow, delivered: bool)
    requires FlowOk(f) && f.queue != []
    ensures FlowOk(Pop(f, delivered))
    ensures Bytes(Pop(f, delivered).queue) == Bytes(f.queue) - f.queue[0].len
  {
    hide Subsequence;
    var n := |f.arrived| - |f.queue|;
    assert f.arrived[n + 1..] == f.arrived[n..][1..];
    assert f.arrived[..n + 1] == f.arrived[..n] + [f.arrived[n]];
    SubsequenceSkips(f.sent, f.arrived[..n], f.arrived[n]);
  }

  /** The bookkeeping of `dequeue` and of codel_dequeue for one packet removed from flow `i`. */
  function Remove(s: Sched, i: nat, delivered: bool): (r: Sched)
    requires i < |s.flows| == |s.backlogs| && s.flows[i].queue != []
  {
    var len := s.flows[i].queue[0].len;
    s.(flows := s.flows[i := Pop(s.flows[i], delivered)], backlogs := s.backlogs[i := s.backlogs[i] - len],
       qlen := s.qlen - 1, backlog := s.backlog - len)
  }

  lemma RemoveValid(s: Sched, i: nat, delivered: bool)
    requires Valid(s) && i < |s.flows| && s.flows[i].queue != []
    ensures Valid(Remove(s, i, delivered))
  {
    hide FlowOk, ListsOk;
    PopOk(s.flows[i], delivered);
    ListedIfBusy(s, i);
    FlowSet(s, i, Pop(s.flows[i], delivered));
  }

  /** codel_dequeue on one flow: it drops the first `drops` packets and delivers the next; a queue that runs out
      yields nothing. How many packets the controlled-delay law drops is left open. */
  function Codel(s: Sched, i: nat, drops: nat): (r: Sched)
    requires Valid(s) && i < |s.flows|
    ensures Valid(r) && r.qlen <= s.qlen
    ensures r == s.(flows := r.flows, backlogs := r.backlogs, qlen := r.qlen, backlog := r.backlog)
    ensures |r.flows| == |s.flows| && r.flows[i].deficit == s.flows[i].deficit
    ensures forall j :: 0 <= j < |s.flows| && j != i ==> r.flows[j] == s.flows[j]
    decreases drops
  {
    if s.flows[i].queue == [] then s
    else
      RemoveValid(s, i, drops == 0);
      if drops == 0 then Remove(s, i, true) else Codel(Remove(s, i, false), i, drops - 1)
  }

  /** What it delivers. */
  function Delivered(s: Sched, i: nat, drops: nat): (p: Option<Skb>)
    requires i < |s.flows|
  {
    if drops < |s.flows[i].queue| then Some(s.flows[i].queue[drops]) else None
  }

  // ---- Enqueue ----

  /** The scan of fq_codel_drop over the first `n` entries: the largest backlog and where it first occurs. */
  function Scan(b: seq<int>, n: nat): (r: (int, nat))
    requires n <= |b|
    ensures r.1 < n || r == (0, 0)
    ensures forall j :: 0 <= j < n ==> b[j] <= r.0
    ensures r.0 > 0 ==> r.1 < n && b[r.1] == r.0 && forall j :: 0 <= j < r.1 ==> b[j] < r.0
  {
    if n == 0 then (0, 0)
    else
      var m := Scan(b, n - 1);
      if b[n - 1] > m.0 then (b[n - 1], n - 1) else m
  }

  function Fattest(s: Sched): nat {
    Scan(s.backlogs, |s.backlogs|).1
  }

  /** The flow that fq_codel_drop picks has packets, and no flow has more bytes. */
  lemma FattestFlow(s: Sched)
    requires Valid(s) && s.qlen > 0
    ensures var k := Fattest(s);
            && k < |s.flows| && s.flows[k].queue != []
            && (forall j :: 0 <= j < |s.flows| ==> Bytes(s.flows[j].queue) <= Bytes(s.flows[k].queue))
  {
    SomeFlowHasPackets(s.flows);
    var i :| 0 <= i < |s.flows| && s.flows[i].queue != [];
    BytesPositive(s.flows[i].queue);
    var r := Scan(s.backlogs, |s.backlogs|);
    assert s.backlogs[i] <= r.0;
    assert s.backlogs[r.1] == Bytes(s.flows[r.1].queue);
  }

  function Drop(s: Sched): (r: Sched)
    requires Valid(s) && s.qlen > 0
    ensures Valid(r)
  {
    FattestFlow(s);
    RemoveValid(s, Fattest(s), false);
    Remove(s, Fattest(s), false)
  }

  /** The first half of fq_codel_enqueue: the packet joins flow `i`, which joins the new flows if it was idle. */
  function Add(s: Sched, i: nat, p: Skb): Sched
    requires i < |s.flows| == |s.backlogs|
  {
    var f := s.flows[i];
    var listed := i in s.newFlows + s.oldFlows;
    var f' := f.(queue := f.queue + [p], arrived := f.arrived + [p],
                 deficit := if listed then f.deficit else s.quantum);
    s.(flows := s.flows[i := f'], backlogs := s.backlogs[i := s.backlogs[i] + p.len],
       backlog := s.backlog + p.len, qlen := s.qlen + 1,
       newFlows := if listed then s.newFlows else s.newFlows + [i])
  }

  lemma AddValid(s: Sched, i: nat, p: Skb)
    requires Valid(s) && i < |s.flows| && p.len > 0
    ensures Valid(Add(s, i, p)) && s.qlen >= 0
  {
    hide FlowOk, TotalBytes, Distinct, ListsOk;
    var f := s.flows[i];
    var r := Add(s, i, p);
    BytesAppend(f.queue, [p]);
    AddOk(f, p, r.flows[i].deficit);
    ListFlow(s, i);
    FlowSet(s.(newFlows := r.newFlows), i, r.flows[i]);
  }

  lemma ListFlow(s: Sched, i: nat)
    requires Valid(s) && i < |s.flows|
    ensures var l := if i in s.newFlows + s.oldFlows then s.newFlows else s.newFlows + [i];
            Valid(s.(newFlows := l)) && i in l + s.oldFlows
  {
    hide TableOk;
    if i !in s.newFlows + s.oldFlows {
      DistinctInsert(s.newFlows, s.oldFlows, i);
      MembersInsert(s.newFlows, s.oldFlows, i);
    }
  }

  lemma AddOk(f: Flow, p: Skb, d: int)
    requires FlowOk(f) && p.len > 0
    ensures FlowOk(f.(queue := f.queue + [p], arrived := f.arrived + [p], deficit := d))
  {
    var n := |f.arrived| - |f.queue|;
    assert (f.arrived + [p])[n..] == f.arrived[n..] + [p];
    assert (f.arrived + [p])[..n] == f.arrived[..n];
  }

  lemma DistinctInsert(a: seq<nat>, b: seq<nat>, x: nat)
    requires Distinct(a + b) && x !in a + b
    ensures Distinct((a + [x]) + b)
  {
    var l := (a + [x]) + b;
    forall i, j | 0 <= i < j < |l|
      ensures l[i] != l[j]
    {
      assert l[i] == if i < |a| then (a + b)[i] else if i == |a| then x else (a + b)[i - 1];
      assert l[j] == if j < |a| then (a + b)[j] else if j == |a| then x else (a + b)[j - 1];
    }
  }

  lemma MembersInsert(a: seq<nat>, b: seq<nat>, x: nat)
    ensures forall y :: y in (a + [x]) + b <==> y in a + b || y == x
  {
  }

  datatype Verdict = Success | Congestion | Refused

  /** fq_codel_enqueue with the classifier's answer `idx`, 0 meaning no flow. */
  function Enqueue(s: Sched, idx: nat, p: Skb): (r: Sched)
    requires Valid(s) && idx <= |s.flows| && p.len > 0
    ensures Valid(r)
  {
    if idx == 0 then s
    else
      AddValid(s, idx - 1, p);
      var t := Add(s, idx - 1, p);
      if t.qlen < s.limit then t else Drop(t)
  }

  function EnqueueVerdict(s: Sched, idx: nat, p: Skb): Verdict
    requires Valid(s) && idx <= |s.flows| && p.len > 0
  {
    if idx == 0 then Refused
    else
      var t := Add(s, idx - 1, p);
      if t.qlen < s.limit || Fattest(t) != idx - 1 then Success else Congestion
  }

  // ---- Dequeue ----

  datatype Event = NoFlow | Refilled(i: nat) | Emptied(i: nat) | Served(i: nat, p: Skb)

  datatype Turn = Turn(s: Sched, event: Event)

  predicate Idle(s: Sched) {
    s.newFlows == [] && s.oldFlows == []
  }

  function HeadFlow(s: Sched): (i: nat)
    requires !Idle(s)
    ensures i in s.newFlows + s.oldFlows
  {
    if s.newFlows != [] then s.newFlows[0] else s.oldFlows[0]
  }

  function WithoutHead(s: Sched): Sched
    requires !Idle(s)
  {
    if s.newFlows != [] then s.(newFlows := s.newFlows[1..]) else s.(oldFlows := s.oldFlows[1..])
  }

  /** list_move_tail to the old flows. */
  function Rotate(s: Sched): Sched
    requires !Idle(s)
  {
    var r := WithoutHead(s);
    r.(oldFlows := r.oldFlows + [HeadFlow(s)])
  }

  function SetDeficit(s: Sched, i: nat, d: int): Sched
    requires i < |s.flows|
  {
    s.(flows := s.flows[i := s.flows[i].(deficit := d)])
  }

  /** One pass of fq_codel_dequeue from its label `begin`; `drops` is how many packets codel_dequeue drops. */
  function Pass(s: Sched, drops: nat): (t: Turn)
    requires Valid(s)
  {
    if Idle(s) then Turn(s, NoFlow)
    else
      var i := HeadFlow(s);
      var d := s.flows[i].deficit;
      if d <= 0 then Turn(Rotate(SetDeficit(s, i, d + s.quantum)), Refilled(i))
      else
        var r := Codel(s, i, drops);
        match Delivered(s, i, drops)
        case Some(p) => Turn(SetDeficit(r, i, d - p.len), Served(i, p))
        case None =>
          Turn(if s.newFlows != [] && s.oldFlows != [] then Rotate(r) else WithoutHead(r), Emptied(i))
  }

  lemma DeficitOk(f: Flow, d: int)
    requires FlowOk(f)
    ensures FlowOk(f.(deficit := d))
  {
  }

  lemma ListedIfBusy(s: Sched, i: nat)
    requires Valid(s) && i < |s.flows|
    ensures s.flows[i].queue != [] ==> i in s.newFlows + s.oldFlows
  {
    hide TableOk;
  }

  lemma DeficitIrrelevant(s: Sched, i: nat, d: int)
    requires Valid(s) && i < |s.flows|
    ensures Valid(SetDeficit(s, i, d))
  {
    hide FlowOk, ListsOk;
    var f := s.flows[i].(deficit := d);
    DeficitOk(s.flows[i], d);
    ListedIfBusy(s, i);
    FlowSet(s, i, f);
    assert s.backlogs[i := Bytes(f.queue)] == s.backlogs;
  }

  lemma RotateValid(s: Sched)
    requires Valid(s) && !Idle(s)
    ensures Valid(Rotate(s))
  {
    hide TableOk;
    var l, m := s.newFlows + s.oldFlows, Rotate(s).newFlows + Rotate(s).oldFlows;
    assert m == l[1..] + [l[0]];
    RotateDistinct(l);
  }

  lemma RotateDistinct(l: seq<nat>)
    requires Distinct(l) && l != []
    ensures Distinct(l[1..] + [l[0]]) && forall x :: x in l[1..] + [l[0]] <==> x in l
  {
    assert l == [l[0]] + l[1..];
  }

  lemma UnlistValid(s: Sched)
    requires Valid(s) && !Idle(s) && s.flows[HeadFlow(s)].queue == []
    ensures Valid(WithoutHead(s))
  {
    hide TableOk;
    var l, m := s.newFlows + s.oldFlows, WithoutHead(s).newFlows + WithoutHead(s).oldFlows;
    assert m == l[1..];
    TailDistinct(l);
  }

  lemma TailDistinct(l: seq<nat>)
    requires Distinct(l) && l != []
    ensures Distinct(l[1..]) && forall x :: x in l[1..] <==> x in l && x != l[0]
  {
    assert l == [l[0]] + l[1..];
  }

  lemma {:induction false} CodelEmpties(s: Sched, i: nat, drops: nat)
    requires Valid(s) && i < |s.flows|
    ensures Delivered(s, i, drops).None? ==> Codel(s, i, drops).flows[i].queue == []
    ensures Delivered(s, i, drops).Some? ==>
              Codel(s, i, drops).flows[i].queue == s.flows[i].queue[drops + 1..]
              && Codel(s, i, drops).flows[i].sent == s.flows[i].sent + [Delivered(s, i, drops).value]
    decreases drops
  {
    hide TableOk, ListsOk, Packets, TotalBytes;
    if s.flows[i].queue != [] && drops > 0 {
      RemoveValid(s, i, false);
      CodelEmpties(Remove(s, i, false), i, drops - 1);
    }
  }

  lemma HeadInTable(s: Sched)
    requires Valid(s) && !Idle(s)
    ensures HeadFlow(s) < |s.flows|
  {
  }

  lemma PassValid(s: Sched, drops: nat)
    requires Valid(s)
    ensures Valid(Pass(s, drops).s)
  {
    hide Valid, Codel;
    if !Idle(s) {
      HeadInTable(s);
      if s.flows[HeadFlow(s)].deficit <= 0 {
        RefillPassValid(s, HeadFlow(s));
      } else {
        ServePassValid(s, HeadFlow(s), drops);
      }
    }
  }

  lemma RefillPassValid(s: Sched, i: nat)
    requires Valid(s) && !Idle(s) && i == HeadFlow(s) && i < |s.flows|
    ensures Valid(Rotate(SetDeficit(s, i, s.flows[i].deficit + s.quantum)))
  {
    hide Valid;
    DeficitIrrelevant(s, i, s.flows[i].deficit + s.quantum);
    RotateValid(SetDeficit(s, i, s.flows[i].deficit + s.quantum));
  }

  lemma ServePassValid(s: Sched, i: nat, drops: nat)
    requires Valid(s) && !Idle(s) && i == HeadFlow(s) && i < |s.flows| && s.flows[i].deficit > 0
    ensures Valid(Pass(s, drops).s)
  {
    hide Valid, Codel;
    var r := Codel(s, i, drops);
    CodelEmpties(s, i, drops);
    if Delivered(s, i, drops).Some? {
      DeficitIrrelevant(r, i, s.flows[i].deficit - Delivered(s, i, drops).value.len);
    } else if s.newFlows != [] && s.oldFlows != [] {
      RotateValid(r);
    } else {
      UnlistValid(r);
    }
  }
}
