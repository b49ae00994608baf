/** The HCILL sleep protocol of hci_ll.c: packets wait while the chip sleeps and leave in the order they came. */
module Hcill {
  import opened Octets

  datatype PowerState = Asleep | AsleepToAwake | Awake | AwakeToAsleep

  datatype Command = GoToSleepAck | WakeUpInd | WakeUpAck

  /** What the transmit queue carries: data packets and one-byte commands. */
  datatype Item = Data(p: Packet) | Cmd(c: Command)

  /** struct ll_struct; `enqueued` and `sent` record every data packet accepted and every one that left. */
  datatype Ll = Ll(state: PowerState, txq: seq<Item>, waitq: seq<Packet>, enqueued: seq<Packet>, sent: seq<Packet>)

  /** ll_open */
  const OPENED := Ll(Awake, [], [], [], [])

  /** What can happen. `memory` says whether a command packet can be allocated. */
  datatype Event =
    | Enqueue(p: Packet, memory: bool)
    | Dequeue
    | WakeUpIndication(memory: bool)
    | SleepIndication(memory: bool)
    | WakeUpAcknowledged

  function AllData(ps: seq<Packet>): (items: seq<Item>)
    ensures |items| == |ps|
    ensures forall i :: 0 <= i < |ps| ==> items[i] == Data(ps[i])
  {
    seq(|ps|, i requires 0 <= i < |ps| => Data(ps[i]))
  }

  /** __ll_do_awake */
  function DoAwake(l: Ll): Ll {
    l.(state := Awake, txq := l.txq + AllData(l.waitq), waitq := [])
  }

  function Send(l: Ll, c: Command): Ll {
    l.(txq := l.txq + [Cmd(c)])
  }

  function Step(l: Ll, e: Event): Ll {
    match e
    case Enqueue(p, memory) =>
      (match l.state
       case Awake => l.(txq := l.txq + [Data(p)], enqueued := l.enqueued + [p])
       case Asleep =>
         var q := l.(waitq := l.waitq + [p], enqueued := l.enqueued + [p]);
         if memory then Send(q, WakeUpInd).(state := AsleepToAwake) else q
       case AsleepToAwake => l.(waitq := l.waitq + [p], enqueued := l.enqueued + [p])
       case AwakeToAsleep => l.(enqueued := l.enqueued + [p]))
    case Dequeue =>
      if l.txq == [] then l
      else l.(txq := l.txq[1..], sent := if l.txq[0].Data? then l.sent + [l.txq[0].p] else l.sent)
    case WakeUpIndication(memory) =>
      if l.state == Asleep || l.state == AsleepToAwake
      then if memory then DoAwake(Send(l, WakeUpAck)) else l
      else DoAwake(l)
    case SleepIndication(memory) => if memory then Send(l, GoToSleepAck).(state := Asleep) else l
    case WakeUpAcknowledged => DoAwake(l)
  }

  // ---- Order and safety over every run ----

  function DataIn(items: seq<Item>): seq<Packet> {
    if items == [] then []
    else if items[0].Data? then [items[0].p] + DataIn(items[1..]) else DataIn(items[1..])
  }

  /** Packets leave in the order they came, none is lost, the state in which enqueueing would lose one is never
      entered, and nothing waits while the chip is awake. */
  ghost predicate Inv(l: Ll) {
    && l.state != AwakeToAsleep
    && (l.state == Awake ==> l.waitq == [])
    && l.sent + DataIn(l.txq) + l.waitq == l.enqueued
  }

  lemma {:induction false} DataInAppend(a: seq<Item>, b: seq<Item>)
    ensures DataIn(a + b) == DataIn(a) + DataIn(b)
  {
    if a == [] {
      assert a + b == b;
    } else {
      assert (a + b)[1..] == a[1..] + b;
      DataInAppend(a[1..], b);
    }
  }

  lemma {:induction false} DataInAll(ps: seq<Packet>)
    ensures DataIn(AllData(ps)) == ps
  {
    if ps != [] {
      assert AllData(ps)[1..] == AllData(ps[1..]);
      DataInAll(ps[1..]);
    }
  }

  lemma DoAwakeKeeps(l: Ll)
    requires Inv(l)
    ensures Inv(DoAwake(l))
  {
    DataInAppend(l.txq, AllData(l.waitq));
    DataInAll(l.waitq);
    hide DataIn;
    assert DoAwake(l).sent + DataIn(DoAwake(l).txq) + [] == l.sent + DataIn(l.txq) + l.waitq;
  }

  lemma SendKeeps(l: Ll, c: Command)
    requires Inv(l)
    ensures Inv(Send(l, c))
  {
    DataInAppend(l.txq, [Cmd(c)]);
    assert DataIn([Cmd(c)]) == [];
    assert DataIn(l.txq) + [] == DataIn(l.txq);
  }

  lemma StepKeeps(l: Ll, e: Event)
    requires Inv(l)
    ensures Inv(Step(l, e))
  {
    match e
    case Enqueue(p, memory) =>
      if l.state == Awake {
        DataInAppend(l.txq, [Data(p)]);
        assert DataIn([Data(p)]) == [p];
        hide DataIn;
        assert l.sent + (DataIn(l.txq) + [p]) + [] == l.enqueued + [p];
      } else {
        var q := l.(waitq := l.waitq + [p], enqueued := l.enqueued + [p]);
        assert q.sent + DataIn(q.txq) + (l.waitq + [p]) == l.sent + DataIn(l.txq) + l.waitq + [p];
        SendKeeps(q, WakeUpInd);
      }
    case Dequeue =>
      if l.txq != [] && l.txq[0].Data? {
        assert l.sent + ([l.txq[0].p] + DataIn(l.txq[1..])) + l.waitq
            == (l.sent + [l.txq[0].p]) + DataIn(l.txq[1..]) + l.waitq;
      }
    case WakeUpIndication(memory) =>
      SendKeeps(l, WakeUpAck);
      DoAwakeKeeps(Send(l, WakeUpAck));
      DoAwakeKeeps(l);
    case SleepIndication(memory) => SendKeeps(l, GoToSleepAck);
    case WakeUpAcknowledged => DoAwakeKeeps(l);
  }

  function Run(l: Ll, es: seq<Event>): Ll
    decreases |es|
  {
    if es == [] then l else Run(Step(l, es[0]), es[1..])
  }

  lemma {:induction false} RunKeeps(l: Ll, es: seq<Event>)
    requires Inv(l)
    ensures Inv(Run(l, es))
    decreases |es|
  {
    if es != [] {
      StepKeeps(l, es[0]);
      RunKeeps(Step(l, es[0]), es[1..]);
    }
  }

  /** For any order of packets, device signals and allocation failures: what has left is a prefix of what came, the
      losing state is never reached, and an awake link holds nothing back. */
  lemma OrderedAndLossless(es: seq<Event>)
    ensures var l := Run(OPENED, es);
            && l.enqueued == Submitted(es)
            && l.sent <= l.enqueued && l.enqueued == l.sent + DataIn(l.txq) + l.waitq
            && l.state != AwakeToAsleep && (l.state == Awake ==> l.waitq == [])
  {
    assert Inv(OPENED);
    RunKeeps(OPENED, es);
    EnqueuedIsSubmitted(es);
    hide Run;
    var l := Run(OPENED, es);
    assert l.enqueued == l.sent + (DataIn(l.txq) + l.waitq);
  }

  /** The packets that a run was asked to send. */
  function Submitted(es: seq<Event>): seq<Packet> {
    if es == [] then []
    else Submitted(es[..|es| - 1]) + if es[|es| - 1].Enqueue? then [es[|es| - 1].p] else []
  }

  // ---- Waking up gets everything out ----

  lemma {:induction false} RunAppend(l: Ll, a: seq<Event>, b: seq<Event>)
    ensures Run(l, a + b) == Run(Run(l, a), b)
    decreases |a|
  {
    hide Step;
    if a == [] {
      assert a + b == b;
    } else {
      assert (a + b)[0] == a[0] && (a + b)[1..] == a[1..] + b;
      RunAppend(Step(l, a[0]), a[1..], b);
    }
  }

  lemma RunOne(l: Ll, e: Event)
    ensures Run(l, [e]) == Step(l, e)
  {
    assert [e][1..] == [];
    assert Run(Step(l, e), []) == Step(l, e);
  }

  lemma {:induction false} EnqueuedIsSubmitted(es: seq<Event>)
    ensures Run(OPENED, es).enqueued == Submitted(es)
  {
    if es != [] {
      var n := |es| - 1;
      EnqueuedIsSubmitted(es[..n]);
      RunAppend(OPENED, es[..n], [es[n]]);
      RunOne(Run(OPENED, es[..n]), es[n]);
      assert es[..n] + [es[n]] == es;
    }
  }

  /** The events after which the chip is known to be awake. */
  predicate Wakes(e: Event) {
    e == WakeUpAcknowledged || e == WakeUpIndication(true)
  }

  /** After any run that ends with one of them nothing waits any longer. */
  lemma WakingReleases(es: seq<Event>, e: Event)
    requires Wakes(e)
    ensures var l := Run(OPENED, es + [e]);
            l.state == Awake && l.waitq == [] && l.enqueued == l.sent + DataIn(l.txq)
  {
    OrderedAndLossless(es + [e]);
    RunAppend(OPENED, es, [e]);
    RunOne(Run(OPENED, es), e);
    hide Run, DataIn;
    var l := Run(OPENED, es + [e]);
    assert l.sent + DataIn(l.txq) + [] == l.sent + DataIn(l.txq);
  }

  function Dequeues(n: nat): seq<Event> {
    if n == 0 then [] else [Dequeue] + Dequeues(n - 1)
  }

  lemma {:induction false} DequeuesEmpty(l: Ll)
    ensures var r := Run(l, Dequeues(|l.txq|));
            r.txq == [] && r.sent == l.sent + DataIn(l.txq) && r.enqueued == l.enqueued
    decreases |l.txq|
  {
    if l.txq != [] {
      DequeuesEmpty(Step(l, Dequeue));
      assert Dequeues(|l.txq|)[1..] == Dequeues(|l.txq| - 1);
      if l.txq[0].Data? {
        assert l.sent + ([l.txq[0].p] + DataIn(l.txq[1..])) == (l.sent + [l.txq[0].p]) + DataIn(l.txq[1..]);
      }
    }
  }

  /** Then as many dequeues as there are items in the transmit queue send every packet that was ever enqueued. */
  lemma WakingDelivers(es: seq<Event>, e: Event)
    requires Wakes(e)
    ensures var l := Run(OPENED, es + [e]);
            var r := Run(OPENED, es + [e] + Dequeues(|l.txq|));
            r.sent == r.enqueued == l.enqueued && r.txq == []
  {
    WakingReleases(es, e);
    var l := Run(OPENED, es + [e]);
    RunAppend(OPENED, es + [e], Dequeues(|l.txq|));
    DequeuesEmpty(l);
  }

  // ---- What the chip is told ----

  /** Each event tells the chip at most one thing, at the end of the queue: a sleep indication is acknowledged; a wake-up
      indication is acknowledged unless the link was awake, in front of what waited; a packet on a sleeping link wakes
      the chip. Nothing else tells it anything, and without memory neither do these. */
  lemma Signals(es: seq<Event>, e: Event)
    requires !e.Dequeue?
    ensures var l, r := Run(OPENED, es), Run(OPENED, es + [e]);
            r.txq == l.txq +
              match e
              case SleepIndication(true) => [Cmd(GoToSleepAck)]
              case WakeUpIndication(true) => (if l.state == Awake then [] else [Cmd(WakeUpAck)]) + AllData(l.waitq)
              case WakeUpAcknowledged => AllData(l.waitq)
              case Enqueue(p, true) =>
                if l.state == Awake then [Data(p)] else if l.state == Asleep then [Cmd(WakeUpInd)] else []
              case Enqueue(p, false) => if l.state == Awake then [Data(p)] else []
              case _ => []
    ensures var l, r := Run(OPENED, es), Run(OPENED, es + [e]);
            r.state ==
              match e
              case SleepIndication(true) => Asleep
              case WakeUpIndication(true) => Awake
              case WakeUpAcknowledged => Awake
              case Enqueue(p, true) => if l.state == Asleep then AsleepToAwake else l.state
              case _ => l.state
  {
    OrderedAndLossless(es);
    RunAppend(OPENED, es, [e]);
    RunOne(Run(OPENED, es), e);
    hide Run, DataIn;
    var l := Run(OPENED, es);
    assert l.txq + [] == l.txq;
  }

  // ---- The driver ----

  class LlStruct {
    var state: PowerState
    var txq: seq<Item>
    var waitq: seq<Packet>
    ghost var enqueued: seq<Packet>
    ghost var sent: seq<Packet>

    ghost function View(): Ll
      reads this
    {
      Ll(state, txq, waitq, enqueued, sent)
    }

    constructor ()
      ensures View() == OPENED
    {
      state, txq, waitq, enqueued, sent := Awake, [], [], [], [];
    }

    /** __ll_do_awake: drain the waiting packets one by one. */
    method Drain()
      modifies this`state, this`txq, this`waitq
      ensures View() == DoAwake(old(View()))
    {
      ghost var i := 0;
      while waitq != []
        invariant 0 <= i <= |old(waitq)| && waitq == old(waitq)[i..]
        invariant txq == old(txq) + AllData(old(waitq)[..i])
        decreases |waitq|
      {
        var skb := waitq[0];
        waitq := waitq[1..];
        assert AllData(old(waitq)[..i + 1]) == AllData(old(waitq)[..i]) + [Data(skb)];
        txq := txq + [Data(skb)];
        i := i + 1;
      }
      assert old(waitq)[..i] == old(waitq);
      state := Awake;
    }

    /** send_hcill_cmd */
    method SendCommand(c: Command, memory: bool) returns (ok: bool)
      modifies this`txq
      ensures ok == memory && View() == if memory then Send(old(View()), c) else old(View())
    {
      if memory {
        txq := txq + [Cmd(c)];
      }
      return memory;
    }

    /** ll_device_want_to_wakeup */
    method DeviceWantsToWakeUp(memory: bool)
      modifies this
      ensures View() == Step(old(View()), WakeUpIndication(memory))
    {
      if state == AsleepToAwake || state == Asleep {
        var ok := SendCommand(WakeUpAck, memory);
        if !ok {
          return;
        }
      }
      Drain();
    }

    /** ll_device_want_to_sleep */
    method DeviceWantsToSleep(memory: bool)
      modifies this
      ensures View() == Step(old(View()), SleepIndication(memory))
    {
      var ok := SendCommand(GoToSleepAck, memory);
      if ok {
        state := Asleep;
      }
    }

    /** ll_device_woke_up */
    method DeviceWokeUp()
      modifies this
      ensures View() == Step(old(View()), WakeUpAcknowledged)
    {
      Drain();
    }

    /** ll_enqueue */
    method Submit(skb: Packet, memory: bool)
      modifies this
      ensures View() == Step(old(View()), Enqueue(skb, memory))
    {
      enqueued := enqueued + [skb];
      match state
      case Awake => txq := txq + [Data(skb)];
      case Asleep =>
        waitq := waitq + [skb];
        var ok := SendCommand(WakeUpInd, memory);
        if ok {
          state := AsleepToAwake;
        }
      case AsleepToAwake => waitq := waitq + [skb];
      case AwakeToAsleep =>
    }

    /** ll_dequeue */
    method Take() returns (skb: Option<Item>)
      modifies this
      ensures View() == Step(old(View()), Dequeue)
      ensures skb == if old(txq) == [] then None else Some(old(txq)[0])
    {
      if txq == [] {
        return None;
      }
      skb := Some(txq[0]);
      if txq[0].Data? {
        sent := sent + [txq[0].p];
      }
      txq := txq[1..];
    }
  }
}
