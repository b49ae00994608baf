/** What an arrival does to the flows, and what a flow gains by being new. */
module FqCodelNewcomers {
  import opened Octets
  import opened FqCodel
  import opened FqCodelRuns
  import opened FqCodelFairness

  // ---- Arrivals ----

  predicate Listed(s: Sched, i: nat) {
    i in s.newFlows || i in s.oldFlows
  }

  /** The queue of flow `j` once packet `p` has joined flow `i`. */
  function Joined(s: Sched, i: nat, p: Skb, j: nat): seq<Skb>
    requires j < |s.flows|
  {
    s.flows[j].queue + if j == i then [p] else []
  }

  /** Lists and deficits after an arrival: a flow that was on no list is the last of the new ones, with a quantum to
      spend. */
  lemma ArrivalLists(s: Sched, i: nat, p: Skb)
    requires Valid(s) && i < |s.flows| && p.len > 0
    ensures var r := Enqueue(s, i + 1, p);
            && |r.flows| == |s.flows| && r.oldFlows == s.oldFlows && r.quantum == s.quantum
            && r.newFlows == s.newFlows + (if Listed(s, i) then [] else [i])
            && forall j :: 0 <= j < |s.flows| ==>
                 r.flows[j].deficit == if j == i && !Listed(s, i) then s.quantum else s.flows[j].deficit
  {
    hide Valid, Scan;
    AddValid(s, i, p);
    BacklogsSized(s);
    var t := Add(s, i, p);
    assert s.newFlows + [] == s.newFlows;
    if t.qlen >= s.limit {
      FattestFlow(t);
      BacklogsSized(t);
    }
  }

  /** Below the limit the packet joins the tail of its flow and nothing else changes hands. */
  lemma ArrivalBelowLimit(s: Sched, i: nat, p: Skb)
    requires Valid(s) && i < |s.flows| && p.len > 0 && s.qlen + 1 < s.limit
    ensures var r := Enqueue(s, i + 1, p);
            |r.flows| == |s.flows| && forall j :: 0 <= j < |s.flows| ==> r.flows[j].queue == Joined(s, i, p, j)
    ensures EnqueueVerdict(s, i + 1, p) == Success
  {
    hide Valid;
    BacklogsSized(s);
  }

  /** At the limit, besides, the flow with the most bytes (the first of them, with the new packet counted) loses its
      oldest packet, and the verdict says whether it is the flow of the new packet. */
  lemma ArrivalAtLimit(s: Sched, i: nat, p: Skb) returns (k: nat)
    requires Valid(s) && i < |s.flows| && p.len > 0 && s.qlen + 1 >= s.limit
    ensures k < |s.flows| && Joined(s, i, p, k) != []
    ensures forall j :: 0 <= j < |s.flows| ==> Bytes(Joined(s, i, p, j)) <= Bytes(Joined(s, i, p, k))
    ensures forall j :: 0 <= j < k ==> Bytes(Joined(s, i, p, j)) < Bytes(Joined(s, i, p, k))
    ensures var r := Enqueue(s, i + 1, p);
            |r.flows| == |s.flows| && forall j :: 0 <= j < |s.flows| ==>
              r.flows[j].queue == if j == k then Joined(s, i, p, j)[1..] else Joined(s, i, p, j)
    ensures EnqueueVerdict(s, i + 1, p) == if k == i then Congestion else Success
  {
    hide Valid, Scan, Bytes;
    AddValid(s, i, p);
    BacklogsSized(s);
    var t := Add(s, i, p);
    QlenOne(s, i, p);
    FattestFlow(t);
    FirstFattest(t);
    BacklogsSized(t);
    k := Fattest(t);
    assert forall j :: 0 <= j < |s.flows| ==> t.flows[j].queue == Joined(s, i, p, j);
  }

  lemma QlenOne(s: Sched, i: nat, p: Skb)
    requires Valid(s) && i < |s.flows| == |s.backlogs|
    ensures Add(s, i, p).qlen == s.qlen + 1 > 0
  {
  }

  lemma FirstFattest(s: Sched)
    requires Valid(s) && s.qlen > 0
    ensures var k := Fattest(s);
            k < |s.flows| && forall j :: 0 <= j < k ==> Bytes(s.flows[j].queue) < Bytes(s.flows[k].queue)
  {
    FattestFlow(s);
    BytesPositive(s.flows[Fattest(s)].queue);
  }

  lemma Classified(s: Sched, p: Skb)
    requires Valid(s) && p.len > 0
    ensures Enqueue(s, 0, p) == s && EnqueueVerdict(s, 0, p) == Refused
  {
  }

  // ---- Passes ----

  /** A pass is about the first new flow or, without new flows, about the first old one; so no old flow is served while a
      new flow is listed. It refills a flow that has nothing left to spend, and serves the packet behind those dropped. */
  lemma PassIsAbout(s: Sched, drops: nat)
    requires Valid(s) && !Idle(s)
    ensures var i := if s.newFlows != [] then s.newFlows[0] else s.oldFlows[0];
            && i < |s.flows|
            && var q := s.flows[i].queue;
               Pass(s, drops).event ==
                 if s.flows[i].deficit <= 0 then Refilled(i)
                 else if drops < |q| then Served(i, q[drops]) else Emptied(i)
  {
    hide Valid, Codel;
    HeadInTable(s);
  }

  /** A flow that has just become new is served at once, in front of all old flows. */
  lemma NewcomerFirst(s: Sched, i: nat, p: Skb)
    requires Valid(s) && s.newFlows == [] && i < |s.flows| && i !in s.oldFlows && p.len > 0 && s.qlen + 1 < s.limit
    ensures Dequeue(Enqueue(s, i + 1, p), []).event == Served(i, p)
  {
    ArrivalLists(s, i, p);
    ArrivalBelowLimit(s, i, p);
    ListedIfBusy(s, i);
    QuantumPositive(s);
    hide Valid, Enqueue, Codel;
    PassIsAbout(Enqueue(s, i + 1, p), 0);
  }

  // ---- A new flow spends a quantum before it is refilled ----

  /** Flow `i` is on the new list at the start and after every step. */
  ghost predicate StaysNew(s: Sched, m: nat, ops: seq<Micro>, i: nat)
    requires Fine(s, m) && FqCodelFairness.AllLegal(|s.flows|, m, ops)
    decreases |ops|
  {
    && i in s.newFlows
    && (ops == [] || (MicroFine(s, m, ops[0]); StaysNew(MicroStep(s, ops[0]).s, m, ops[1..], i)))
  }

  lemma StepNewDeficit(s: Sched, m: nat, op: Micro, i: nat)
    requires Fine(s, m) && LegalMicro(|s.flows|, m, op) && i < |s.flows|
    requires i in s.newFlows && i in MicroStep(s, op).s.newFlows
    ensures |MicroStep(s, op).s.flows| == |s.flows|
    ensures var t := MicroStep(s, op);
            t.s.flows[i].deficit == s.flows[i].deficit
              - (if t.event.Served? && t.event.i == i then t.event.p.len else 0)
  {
    hide Valid, Bounded, Codel, Enqueue;
    match op
    case Arrival(idx, p) =>
      if idx > 0 {
        ArrivalLists(s, idx - 1, p);
      } else {
        Classified(s, p);
      }
    case OnePass(drops) =>
      if !Idle(s) {
        HeadInTable(s);
        HeadApart(s);
        PassQlen(s, drops);
      }
  }

  lemma {:induction false} NewDeficit(s: Sched, m: nat, ops: seq<Micro>, i: nat)
    requires Fine(s, m) && FqCodelFairness.AllLegal(|s.flows|, m, ops) && i < |s.flows| && StaysNew(s, m, ops, i)
    ensures Final(s, m, ops).flows[i].deficit == s.flows[i].deficit - ServedBytes(s, m, ops, i)
    decreases |ops|
  {
    hide Valid, Bounded, Pass, MicroStep;
    if ops != [] {
      MicroFine(s, m, ops[0]);
      var t := MicroStep(s, ops[0]);
      NewNow(t.s, m, ops[1..], i);
      StepNewDeficit(s, m, ops[0], i);
      NewDeficit(t.s, m, ops[1..], i);
    }
  }

  lemma NewNow(s: Sched, m: nat, ops: seq<Micro>, i: nat)
    requires Fine(s, m) && FqCodelFairness.AllLegal(|s.flows|, m, ops) && StaysNew(s, m, ops, i)
    ensures i in s.newFlows
  {
  }

  /** From the arrival that made it new on, for every run: a flow is refilled, and so loses its place in front of the old
      flows, only after a quantum of bytes has been served to it. */
  lemma NewcomerSpendsQuantum(s: Sched, m: nat, i: nat, p: Skb, ops: seq<Micro>, drops: nat)
    requires Fine(s, m) && i < |s.flows| && !Listed(s, i) && 0 < p.len <= m
    ensures Fine(Enqueue(s, i + 1, p), m) && |Enqueue(s, i + 1, p).flows| == |s.flows|
    ensures var r := Enqueue(s, i + 1, p);
            && i in r.newFlows
            && (FqCodelFairness.AllLegal(|r.flows|, m, ops) && StaysNew(r, m, ops, i)
                && Pass(Final(r, m, ops), drops).event == Refilled(i) ==>
                  ServedBytes(r, m, ops, i) >= s.quantum)
  {
    hide Valid, Bounded, StaysNew, ServedBytes, Final, Enqueue, Codel;
    ArrivalFrame(s, m, i + 1, p);
    ArrivalLists(s, i, p);
    var r := Enqueue(s, i + 1, p);
    if FqCodelFairness.AllLegal(|r.flows|, m, ops) && StaysNew(r, m, ops, i) {
      NewDeficit(r, m, ops, i);
    }
  }

  // ---- A flow that is through with being new waits for the old ones ----

  predicate About(e: Event, j: nat) {
    !e.NoFlow? && e.i == j
  }

  /** No pass of the run is about flow `j`. */
  ghost predicate Unvisited(s: Sched, m: nat, ops: seq<Micro>, j: nat)
    requires Fine(s, m) && FqCodelFairness.AllLegal(|s.flows|, m, ops)
    decreases |ops|
  {
    ops == [] ||
      (MicroFine(s, m, ops[0]);
       !About(MicroStep(s, ops[0]).event, j) && Unvisited(MicroStep(s, ops[0]).s, m, ops[1..], j))
  }

  lemma StepBehind(s: Sched, m: nat, op: Micro, i: nat, j: nat)
    requires Fine(s, m) && LegalMicro(|s.flows|, m, op) && i != j
    requires i in s.oldFlows && j in s.oldFlows && Before(s.oldFlows, j, i) && !About(MicroStep(s, op).event, j)
    ensures var l := MicroStep(s, op).s.oldFlows; i in l && j in l && Before(l, j, i)
  {
    hide Valid, Bounded, Codel, Enqueue;
    match op
    case Arrival(idx, p) => ArrivalFrame(s, m, idx, p);
    case OnePass(drops) =>
      HeadInTable(s);
      HeadApart(s);
      var h := HeadFlow(s);
      if s.newFlows != [] {
        BeforeAppend(s.oldFlows, j, i, h);
      } else {
        BeforeAppend(s.oldFlows[1..], j, i, h);
      }
  }

  lemma {:induction false} RunBehind(s: Sched, m: nat, ops: seq<Micro>, i: nat, j: nat)
    requires Fine(s, m) && FqCodelFairness.AllLegal(|s.flows|, m, ops) && i != j
    requires i in s.oldFlows && j in s.oldFlows && Before(s.oldFlows, j, i) && Unvisited(s, m, ops, j)
    ensures i in Final(s, m, ops).oldFlows
    decreases |ops|
  {
    hide Valid, Bounded, Pass, MicroStep, Before;
    if ops != [] {
      MicroFine(s, m, ops[0]);
      StepBehind(s, m, ops[0], i, j);
      RunBehind(MicroStep(s, ops[0]).s, m, ops[1..], i, j);
    }
  }

  lemma {:induction false} LastIsBehind(l: seq<nat>, i: nat, j: nat)
    requires j in l && i !in l
    ensures Before(l + [i], j, i)
  {
    if l[0] != j {
      assert (l + [i])[1..] == l[1..] + [i];
      LastIsBehind(l[1..], i, j);
    }
  }

  /** No starvation: a new flow that runs empty while an old flow is listed goes behind it, and stays on the old list, so
      that it cannot be new again, until a pass has been about that old flow, whatever arrives in the meantime. */
  lemma EmptiedNewcomerWaits(s: Sched, m: nat, drops: nat, ops: seq<Micro>, i: nat, j: nat)
    requires Fine(s, m) && s.newFlows != [] && i == s.newFlows[0] && j in s.oldFlows
    requires Pass(s, drops).event == Emptied(i)
    ensures Fine(Pass(s, drops).s, m) && |Pass(s, drops).s.flows| == |s.flows|
    ensures var r := Pass(s, drops).s;
            FqCodelFairness.AllLegal(|r.flows|, m, ops) && Unvisited(r, m, ops, j) ==>
              i in Final(r, m, ops).oldFlows && i !in Final(r, m, ops).newFlows
  {
    hide Valid, Bounded, Codel, Unvisited, Final, Before;
    PassBounded(s, m, drops);
    HeadInTable(s);
    HeadApart(s);
    PassQlen(s, drops);
    var r := Pass(s, drops).s;
    LastIsBehind(s.oldFlows, i, j);
    if FqCodelFairness.AllLegal(|r.flows|, m, ops) && Unvisited(r, m, ops, j) {
      RunBehind(r, m, ops, i, j);
      NotOnBoth(Final(r, m, ops), i);
    }
  }

  lemma NotOnBoth(s: Sched, i: nat)
    requires Valid(s) && i in s.oldFlows
    ensures i !in s.newFlows
  {
    hide TableOk;
    var l := s.newFlows + s.oldFlows;
    var k :| 0 <= k < |s.oldFlows| && s.oldFlows[k] == i;
    assert l[|s.newFlows| + k] == i;
    assert forall n :: 0 <= n < |s.newFlows| ==> l[n] == s.newFlows[n];
  }
}
