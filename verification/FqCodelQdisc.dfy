/** struct fq_codel_sched_data and the loops that update it in place. */
module FqCodelQdisc {
  import opened Octets
  import opened FqCodel
  import opened FqCodelRuns

  class Qdisc {
    const flows: array<Flow>
    const backlogs: array<int>
    var newFlows: seq<nat>
    var oldFlows: seq<nat>
    var qlen: int
    var backlog: int
    var limit: nat
    var quantum: int

    ghost function View(): Sched
      reads this, flows, backlogs
    {
      Sched(flows[..], backlogs[..], newFlows, oldFlows, qlen, backlog, limit, quantum)
    }

    /** fq_codel_init */
    constructor (n: nat, lim: nat, q: nat)
      requires q > 0
      ensures View() == Initial(n, lim, q) && Consistent(View())
      ensures fresh(flows) && fresh(backlogs)
    {
      flows := new Flow[n](_ => Flow([], 0, [], []));
      backlogs := new int[n](_ => 0);
      newFlows, oldFlows, qlen, backlog, limit, quantum := [], [], 0, 0, lim, q;
      new;
      assert flows[..] == Initial(n, lim, q).flows;
      assert backlogs[..] == Initial(n, lim, q).backlogs;
      InitialConsistent(n, lim, q);
    }

    /** The scan of fq_codel_drop: the first flow with the largest backlog. */
    method FindFattest() returns (idx: nat)
      ensures idx == Fattest(View())
    {
      var maxbacklog := 0;
      idx := 0;
      var i := 0;
      while i < backlogs.Length
        invariant 0 <= i <= backlogs.Length
        invariant (maxbacklog, idx) == Scan(backlogs[..], i)
      {
        if backlogs[i] > maxbacklog {
          maxbacklog := backlogs[i];
          idx := i;
        }
        i := i + 1;
      }
    }

    /** Its accounting, for a packet delivered or dropped. */
    method TakeHead(i: nat, delivered: bool) returns (skb: Skb)
      requires Valid(View()) && i < flows.Length && flows[i].queue != []
      modifies this`qlen, this`backlog, flows, backlogs
      ensures View() == Remove(old(View()), i, delivered) && Valid(View())
      ensures skb == old(flows[i].queue[0])
    {
      RemoveValid(View(), i, delivered);
      Sized();
      hide Valid;
      skb := Unqueue(i, delivered);
      backlogs[i] := backlogs[i] - skb.len;
      qlen := qlen - 1;
      backlog := backlog - skb.len;
    }

    /** dequeue_head */
    method Unqueue(i: nat, delivered: bool) returns (skb: Skb)
      requires i < flows.Length && flows[i].queue != []
      modifies flows
      ensures flows[..] == old(flows[..])[i := Pop(old(flows[i]), delivered)] && skb == old(flows[i].queue[0])
    {
      var f := flows[i];
      skb := f.queue[0];
      flows[i] := f.(queue := f.queue[1..], sent := if delivered then f.sent + [skb] else f.sent);
    }

    lemma Sized()
      requires Valid(View())
      ensures flows.Length == backlogs.Length
    {
      hide TableOk, ListsOk, Packets, TotalBytes;
    }

    /** fq_codel_drop */
    method DropFattest() returns (idx: nat)
      requires Valid(View()) && qlen > 0
      modifies this`qlen, this`backlog, flows, backlogs
      ensures View() == Drop(old(View())) && idx == Fattest(old(View()))
    {
      hide Valid;
      FattestFlow(View());
      idx := FindFattest();
      var skb := TakeHead(idx, false);
    }

    /** fq_codel_enqueue, for the classifier's answer */
    method EnqueueSkb(idx: nat, skb: Skb) returns (verdict: Verdict)
      requires Valid(View()) && idx <= flows.Length && skb.len > 0
      modifies this`qlen, this`backlog, this`newFlows, flows, backlogs
      ensures View() == Enqueue(old(View()), idx, skb) && Valid(View())
      ensures verdict == EnqueueVerdict(old(View()), idx, skb)
    {
      hide Valid;
      if idx == 0 {
        return Refused;
      }
      Sized();
      AddValid(View(), idx - 1, skb);
      AddToFlow(idx - 1, skb);
      if qlen < limit {
        return Success;
      }
      var dropped := DropFattest();
      verdict := if dropped == idx - 1 then Congestion else Success;
    }

    method AddToFlow(i: nat, skb: Skb)
      requires i < flows.Length == backlogs.Length
      modifies this`qlen, this`backlog, this`newFlows, flows, backlogs
      ensures View() == Add(old(View()), i, skb)
    {
      var f := flows[i];
      var f' := f.(queue := f.queue + [skb], arrived := f.arrived + [skb]);
      if i !in newFlows + oldFlows {
        newFlows := newFlows + [i];
        f' := f'.(deficit := quantum);
      }
      flows[i] := f';
      backlogs[i] := backlogs[i] + skb.len;
      backlog := backlog + skb.len;
      qlen := qlen + 1;
    }

    /** codel_dequeue: call back for packets, drop them, and return the one that is let through. */
    method CodelDequeue(i: nat, drops: nat) returns (skb: Option<Skb>)
      requires Valid(View()) && i < flows.Length
      modifies this`qlen, this`backlog, flows, backlogs
      ensures View() == Codel(old(View()), i, drops) && Valid(View())
      ensures skb == Delivered(old(View()), i, drops)
    {
      hide Valid, Remove;
      var left := drops;
      while left > 0 && flows[i].queue != []
        invariant 0 <= left <= drops
        invariant Valid(View())
        invariant Codel(View(), i, left) == Codel(old(View()), i, drops)
        invariant Delivered(View(), i, left) == Delivered(old(View()), i, drops)
        decreases left
      {
        ghost var s := View();
        var dropped := TakeHead(i, false);
        CodelUnfold(s, i, left);
        left := left - 1;
      }
      if flows[i].queue == [] {
        return None;
      }
      ghost var s := View();
      var last := TakeHead(i, true);
      CodelUnfold(s, i, 0);
      return Some(last);
    }

    /** One pass of fq_codel_dequeue from its label `begin`. */
    method BeginPass(drops: nat) returns (skb: Option<Skb>)
      requires Valid(View()) && !Idle(View())
      modifies this, flows, backlogs
      ensures View() == Pass(old(View()), drops).s && Valid(View())
      ensures match Pass(old(View()), drops).event
              case Served(_, p) => skb == Some(p)
              case _ => skb == None
    {
      hide Valid, Codel;
      PassValid(View(), drops);
      HeadInTable(View());
      var fromNew := newFlows != [];
      var flow := if fromNew then newFlows[0] else oldFlows[0];
      if flows[flow].deficit <= 0 {
        flows[flow] := flows[flow].(deficit := flows[flow].deficit + quantum);
        MoveHeadToOld(fromNew);
        return None;
      }
      skb := CodelDequeue(flow, drops);
      if skb.None? {
        if fromNew && oldFlows != [] {
          MoveHeadToOld(fromNew);
        } else if fromNew {
          newFlows := newFlows[1..];
        } else {
          oldFlows := oldFlows[1..];
        }
        return None;
      }
      flows[flow] := flows[flow].(deficit := flows[flow].deficit - skb.value.len);
    }

    /** list_move_tail of the first flow of one list to the end of the old list. */
    method MoveHeadToOld(fromNew: bool)
      requires if fromNew then newFlows != [] else newFlows == [] && oldFlows != []
      modifies this`newFlows, this`oldFlows
      ensures View() == Rotate(old(View()))
    {
      if fromNew {
        var flow := newFlows[0];
        newFlows := newFlows[1..];
        oldFlows := oldFlows + [flow];
      } else {
        oldFlows := oldFlows[1..] + [oldFlows[0]];
      }
    }

    /** fq_codel_dequeue */
    method DequeueSkb(drops: seq<nat>) returns (skb: Option<Skb>)
      requires Valid(View())
      modifies this, flows, backlogs
      ensures View() == Dequeue(old(View()), drops).s && Valid(View())
      ensures match Dequeue(old(View()), drops).event
              case Served(_, p) => skb == Some(p)
              case _ => skb == None
    {
      hide Valid, Pass, Measure;
      var left := drops;
      while newFlows != [] || oldFlows != []
        invariant Valid(View())
        invariant Dequeue(View(), left) == Dequeue(old(View()), drops)
        decreases Measure(View())
      {
        PassDecreases(View(), First(left));
        skb := BeginPass(First(left));
        if skb.Some? {
          return;
        }
        left := Rest(left);
      }
      return None;
    }

    /** The loop of fq_codel_change. */
    method ShrinkToLimit(drops: seq<seq<nat>>)
      requires Valid(View())
      modifies this, flows, backlogs
      ensures View() == Shrink(old(View()), drops) && qlen <= limit && Valid(View())
    {
      hide Valid, Dequeue;
      var left := drops;
      while qlen > limit
        invariant Valid(View())
        invariant Shrink(View(), left) == Shrink(old(View()), drops)
        decreases if qlen > 0 then qlen else 0
      {
        ghost var s := View();
        DequeueQlen(s, Head(left));
        var skb := DequeueSkb(Head(left));
        if skb.None? {
          IdleIsEmpty(View());
          return;
        }
        left := Tail(left);
      }
    }

    /** fq_codel_reset */
    method ResetQueues(drops: seq<seq<nat>>)
      requires Valid(View())
      modifies this, flows, backlogs
      ensures View() == Purge(old(View()), drops) && qlen == 0 && Valid(View())
    {
      hide Valid, Dequeue;
      var left := drops;
      while true
        invariant Valid(View())
        invariant Purge(View(), left) == Purge(old(View()), drops)
        decreases if qlen > 0 then qlen else 0
      {
        ghost var s := View();
        DequeueQlen(s, Head(left));
        var skb := DequeueSkb(Head(left));
        QlenNonNegative(View());
        if skb.None? {
          return;
        }
        left := Tail(left);
      }
    }
  }

  lemma CodelUnfold(s: Sched, i: nat, drops: nat)
    requires Valid(s) && i < |s.flows| && s.flows[i].queue != []
    ensures |s.flows| == |s.backlogs|
    ensures drops == 0 ==> Codel(s, i, drops) == Remove(s, i, true) && Delivered(s, i, drops) == Some(s.flows[i].queue[0])
    ensures drops > 0 ==>
              && Valid(Remove(s, i, false)) && Codel(s, i, drops) == Codel(Remove(s, i, false), i, drops - 1)
              && Delivered(s, i, drops) == Delivered(Remove(s, i, false), i, drops - 1)
  {
    hide TableOk, ListsOk, Packets, TotalBytes;
    RemoveValid(s, i, false);
  }
}
