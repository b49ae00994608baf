/** Two Three-wire drivers with their byte streams. */
module H5Wire {
  import opened Octets
  import opened GoBackN
  import opened H5
  import opened H5Stream
  import opened H5Chunks
  import opened Wire
  import H5Link

  // Every frame travels as the bytes that h5_prepare_pkt built, and a call of h5_recv is given any number of them. Each
  // operation is followed by operations on frames, until a receiver faults.

  datatype System = System(a: State, b: State, ab: Line, ba: Line)

  datatype Action =
    | Submit(p: Packet)
    | Transmit(room: seq<Alloc>)
    | Arrive(n: nat, grants: nat, room: seq<Alloc>)
    | Vanish(i: nat)
    | Timeout

  datatype Op = Op(atB: bool, action: Action)

  function Swap(s: System): System {
    System(s.b, s.a, s.ba, s.ab)
  }

  /** An operation at end A. */
  function Act(s: System, action: Action): System
    requires Valid(s.a)
  {
    match action
    case Submit(p) => s.(a := s.a.(link := Enqueue(s.a.link, p)))
    case Transmit(room) =>
      var l := Wakeup(H5Link.Ready(s.a.link, []), room);
      s.(a := s.a.(link := l), ab := Send(s.ab, Wired(l.written)))
    case Arrive(n, grants, room) =>
      var r := Recv(s.a.(link := H5Link.Ready(s.a.link, room)), Taken(s.ba, n), grants);
      s.(a := r, ab := Send(s.ab, Wired(r.link.written)), ba := Advance(s.ba, n))
    case Vanish(i) => if i < |s.ab.waiting| then s.(ab := s.ab.(waiting := Drop(s.ab.waiting, i))) else s
    case Timeout => s.(a := s.a.(link := TimedOut(s.a.link)))
  }

  function Step(s: System, op: Op): System
    requires Valid(s.a) && Valid(s.b)
  {
    if op.atB then Swap(Act(Swap(s), op.action)) else Act(s, op.action)
  }

  /** Waking the transmitter changes nothing that the receiver looks at. */
  lemma {:induction false} WakeupAlike(l: Link, room: seq<Alloc>)
    requires QueuesOk(l)
    ensures Alike(Wakeup(l, room), l)
    decreases |room|
  {
    hide QueuesOk;
    if room != [] && Choose(l, room[0]) != SendNothing {
      WakeupAlike(AfterOne(l, room[0]), room[1..]);
    }
  }

  lemma ActValid(s: System, action: Action)
    requires Valid(s.a) && Valid(s.b)
    ensures Valid(Act(s, action).a) && Act(s, action).b == s.b
  {
    hide Wakeup, Recv, Enqueue, TimedOut, QueuesOk, HeaderOk, PayloadLen;
    match action
    case Submit(p) =>
      EnqueueOk(s.a.link, p);
      SameAck(s.a, Enqueue(s.a.link, p));
    case Transmit(room) =>
      ReadyOk(s.a, []);
      WakeupAlike(H5Link.Ready(s.a.link, []), room);
      SameAck(s.a, Wakeup(H5Link.Ready(s.a.link, []), room));
    case Arrive(_, _, room) => ReadyOk(s.a, room);
    case Vanish(_) =>
    case Timeout =>
      TimedOutOk(s.a.link);
      SameAck(s.a, TimedOut(s.a.link));
  }

  lemma ReadyOk(s: State, room: seq<Alloc>)
    requires Valid(s)
    ensures Valid(s.(link := H5Link.Ready(s.link, room)))
  {
  }

  /** The receiver needs no other field of the link. */
  lemma SameAck(s: State, l: Link)
    requires Valid(s) && QueuesOk(l) && l.txAck == s.link.txAck
    ensures Valid(s.(link := l))
  {
  }

  function Run(s: System, ops: seq<Op>): (r: System)
    requires Valid(s.a) && Valid(s.b)
    ensures Valid(r.a) && Valid(r.b)
    decreases |ops|
  {
    if ops == [] then s
    else
      ActValid(if ops[0].atB then Swap(s) else s, ops[0].action);
      Run(Step(s, ops[0]), ops[1..])
  }

  /** The receivers for which the fall-through of the header handler lies behind. */
  predicate Faulted(s: System) {
    s.a.rx.faulted || s.b.rx.faulted
  }

  /** A fault is never forgotten, so a run without one at its end had none on the way. */
  lemma {:induction false} FaultStays(s: System, ops: seq<Op>)
    requires Valid(s.a) && Valid(s.b) && Faulted(s)
    ensures Faulted(Run(s, ops))
    decreases |ops|
  {
    hide Valid, Wakeup, Recv;
    if ops != [] {
      var x := if ops[0].atB then Swap(s) else s;
      ActValid(x, ops[0].action);
      ActFault(x, ops[0].action);
      FaultStays(Step(s, ops[0]), ops[1..]);
    }
  }

  lemma ActFault(s: System, action: Action)
    requires Valid(s.a) && Valid(s.b) && Faulted(s)
    ensures Faulted(Act(s, action))
  {
    hide Wakeup, Recv, QueuesOk;
    if action.Arrive? && s.a.rx.faulted {
      ReadyOk(s.a, action.room);
      FaultedStays(s.a.(link := H5Link.Ready(s.a.link, action.room)), Taken(s.ba, action.n), action.grants);
    }
  }

  // ---- Frames behind the bytes ----

  /** The same link apart from what the last operation wrote and what the line still takes. */
  predicate Same(l: Link, m: Link) {
    H5Link.Ready(l, []) == H5Link.Ready(m, [])
  }

  /** The bytes on the lines are those of the frames, and so is what has been received of them. */
  ghost predicate Follows(s: System, f: H5Link.System, clean: bool) {
    && H5Link.Ok(f) && Same(s.a.link, f.a) && Same(s.b.link, f.b)
    && OnLine(s.a, s.ba, f.ba, clean) && OnLine(s.b, s.ab, f.ab, clean)
  }

  lemma OnLineSwap(s: State, l: Link, line: Line, fs: seq<Frame>, clean: bool)
    requires OnLine(s, line, fs, clean) && QueuesOk(l) && Alike(l, s.link)
    ensures OnLine(s.(link := l), line, fs, clean)
  {
    hide QueuesOk, Encode, Encoded, ReadSoFar;
    OnLineValid(s, line, fs, clean);
    SameAck(s, l);
    if line.begun != [] && Reading(s, fs[0], line.begun) {
      ReadingSwap(s, l, fs[0], line.begun);
    }
  }

  lemma OnLineSend(s: State, line: Line, fs: seq<Frame>, out: seq<Frame>, clean: bool)
    requires OnLine(s, line, fs, clean) && Encoded(out)
    ensures OnLine(s, Send(line, Wired(out)), fs + out, clean)
  {
    hide AtRest, Reading, Skipping, Encode;
    WiredAppend(fs, out);
    if line.begun != [] {
      WiredAppend(fs[1..], out);
      assert (fs + out)[1..] == fs[1..] + out && (fs + out)[0] == fs[0];
    }
  }

  lemma WiredAppend(x: seq<Frame>, y: seq<Frame>)
    ensures Wired(x + y) == Wired(x) + Wired(y)
  {
    hide Encode;
  }

  /** A frame whose delivery has not begun is lost. */
  lemma OnLineDrop(s: State, line: Line, fs: seq<Frame>, i: nat) returns (j: nat)
    requires OnLine(s, line, fs, false) && i < |line.waiting|
    ensures j < |fs| && OnLine(s, line.(waiting := Drop(line.waiting, i)), Drop(fs, j), false)
  {
    hide AtRest, Reading, Skipping, Encodable;
    j := if line.begun == [] then i else i + 1;
    WiredDrop(if line.begun == [] then fs else fs[1..], i);
    hide Wired;
    if line.begun != [] {
      assert Drop(fs, j)[1..] == Drop(fs[1..], i) && Drop(fs, j)[0] == fs[0];
    }
  }

  lemma WiredDrop(fs: seq<Frame>, i: nat)
    requires i < |Wired(fs)|
    ensures i < |fs| && Drop(Wired(fs), i) == Wired(Drop(fs, i))
  {
    hide Encode, Encodable;
  }

  lemma OneWritten(l: Link, a: Alloc, w: seq<Frame>)
    requires QueuesOk(l)
    ensures var m := l.(written := w + l.written);
            && QueuesOk(m) && Choose(m, a) == Choose(l, a)
            && if Choose(l, a) == SendNothing then Dequeued(m, a) == Dequeued(l, a).(written := m.written)
               else AfterOne(m, a) == AfterOne(l, a).(written := w + AfterOne(l, a).written)
    ensures if Choose(l, a) == SendNothing then Dequeued(l, a).room == l.room && Dequeued(l, a).written == l.written
            else AfterOne(l, a).room == l.room
  {
    if Choose(l, a) != SendNothing {
      var f := [FrameFor(l, Chosen(l, a))];
      assert (w + l.written) + f == w + (l.written + f);
    }
  }

  /** Writing goes on where it was, and nothing else depends on what has been written. */
  lemma {:induction false} WakeupWritten(l: Link, room: seq<Alloc>, w: seq<Frame>)
    requires QueuesOk(l)
    ensures QueuesOk(l.(written := w + l.written))
    ensures var r := Wakeup(l, room); Wakeup(l.(written := w + l.written), room) == r.(written := w + r.written)
    ensures Wakeup(l, room).room == l.room
    decreases |room|
  {
    hide QueuesOk, Choose, AfterOne, Dequeued;
    OneWritten(l, if room == [] then Alloc(true, true, true) else room[0], w);
    if room != [] && Choose(l, room[0]) != SendNothing {
      WakeupWritten(AfterOne(l, room[0]), room[1..], w);
    }
  }

  lemma ReceivedWritten(l: Link, f: Frame)
    requires QueuesOk(l) && f.ack < 8
    ensures QueuesOk(l.(written := []))
    ensures var r := Received(l.(written := []), f);
            Received(l, f) == r.(written := l.written + r.written) && (r.room == l.room || r.room == [])
  {
    hide Wakeup, CullCountU8;
    var m := l.(written := []);
    assert l.written + [] == l.written;
    if f.reliable && f.seqno == l.txAck {
      var n := m.(txAck := (l.txAck + 1) % 8, txAckReq := true, room := [],
                  taken := l.taken + [Packet(f.body.tag, f.body.data)]);
      WakeupWritten(n, l.room, l.written);
    }
    hide QueuesOk;
    DeliverWritten(Cull(Accept(m, f).(rxAck := f.ack)), f, l.written);
  }

  lemma DeliverWritten(l: Link, f: Frame, w: seq<Frame>)
    ensures var r := Deliver(l, f, |f.body.data|);
            && Deliver(l.(written := w + l.written), f, |f.body.data|) == r.(written := w + l.written)
            && r.written == l.written && r.room == l.room
  {
    if !HandsUp(f.body.tag) {
      InternalWritten(l, f.body, w + l.written);
    }
    hide Internal;
  }

  lemma InternalWritten(l: Link, b: Body, w: seq<Frame>)
    ensures Internal(l.(written := w), b, |b.data|) == Internal(l, b, |b.data|).(written := w)
    ensures Internal(l, b, |b.data|).written == l.written && Internal(l, b, |b.data|).room == l.room
  {
    hide SYNC_REQ, SYNC_RSP, CONF_RSP, WAKEUP_REQ, WOKEN_REQ, SLEEP_REQ, ConfReq;
    SameConfReq(l, w);
  }

  lemma SameConfReq(l: Link, w: seq<Frame>)
    ensures ConfReq(l.(written := w)) == ConfReq(l)
  {
  }

  /** A frame that meets its fate in the middle of a call. */
  lemma FateStep(f: H5Link.System, l: Link, heard: bool)
    returns (op: H5Link.Op, f1: H5Link.System, l1: Link, first: seq<Frame>)
    requires H5Link.Ok(f) && QueuesOk(l) && Same(l, f.a) && f.ba != [] && f.ba[0].ack < 8
    requires heard ==> !Faults(l, f.ba[0])
    ensures op == H5Link.Op(false, H5Link.Arrive(heard, l.room)) && f1 == H5Link.Step(f, op) && H5Link.Ok(f1)
    ensures l1 == (if heard then Received(l, f.ba[0]) else l) && QueuesOk(l1) && Same(l1, f1.a)
    ensures f1.b == f.b && f1.ba == f.ba[1..] && f1.ab == f.ab + first && l1.written == l.written + first
    ensures !H5Link.HearsFault(f, op) && (l1.room == l.room || l1.room == [])
  {
    hide Received, QueuesOk, H5Link.FramesOk;
    var x, m := f.ba[0], H5Link.Ready(f.a, l.room);
    op := H5Link.Op(false, H5Link.Arrive(heard, l.room));
    H5Link.StepOk(f, op);
    ReceivedOk(l, x);
    ReceivedWritten(l, x);
    assert l.(written := []) == m;
    f1, l1 := H5Link.Step(f, op), if heard then Received(l, x) else l;
    first := if heard then Received(m, x).written else [];
    assert l.written + [] == l.written;
  }

  /** Frames that meet their fates in one call do so one after the other. */
  lemma {:induction false} FatesRun(f: H5Link.System, l: Link, fate: seq<bool>)
    returns (ops: seq<H5Link.Op>, out: seq<Frame>)
    requires H5Link.Ok(f) && QueuesOk(l) && Same(l, f.a) && |fate| <= |f.ba| && (forall x :: x in f.ba ==> x.ack < 8)
    requires H5Chunks.Sound(l, f.ba, fate)
    ensures H5Link.Sound(f, ops) && H5Link.Unsubmitted(ops) && forall op :: op in ops ==> !op.atB
    ensures var r, g := Fates(l, f.ba, fate), H5Link.Run(f, ops);
            && Same(r, g.a) && g.b == f.b && g.ba == f.ba[|fate|..] && g.ab == f.ab + out
            && r.written == l.written + out
    ensures (forall b :: b in fate ==> b) && H5Link.Granted(l.room) ==>
              forall op :: op in ops ==> H5Link.Lossless(op.action)
    decreases |fate|
  {
    hide Received, QueuesOk, Faults, H5Link.FramesOk, H5Link.Act, Encodable;
    if fate == [] {
      ops, out := [], [];
      assert l.written + [] == l.written && f.ab + [] == f.ab && f.ba[0..] == f.ba;
    } else {
      var op, f1, l1, first := FateStep(f, l, fate[0]);
      var later, out1 := FatesRun(f1, l1, fate[1..]);
      ops, out := [op] + later, first + out1;
      assert ops[1..] == later && f.ba[1..][|fate| - 1..] == f.ba[|fate|..];
      assert fate[0] in fate && forall b :: b in fate[1..] ==> b in fate;
      assert f.ab + out == (f.ab + first) + out1 && l.written + out == (l.written + first) + out1;
    }
  }

  /** The bytes do what frames do, until one of these faults; `clean` tells whether nothing is lost. */
  ghost predicate Refines(r: System, f: H5Link.System, ops: seq<H5Link.Op>, clean: bool)
    requires H5Link.Ok(f)
  {
    && H5Link.Sound(f, ops) && (clean ==> forall op :: op in ops ==> H5Link.Lossless(op.action))
    && if Faulted(r) then H5Link.AtFault(H5Link.Run(f, ops)) else Follows(r, H5Link.Run(f, ops), clean)
  }

  /** Nothing is lost and memory is found. */
  predicate Lossless(action: Action) {
    match action
    case Submit(_) => true
    case Transmit(room) => H5Link.Granted(room)
    case Arrive(n, grants, room) => grants >= n && H5Link.Granted(room)
    case Vanish(_) => false
    case Timeout => true
  }

  lemma ActArrives(s: System, f: H5Link.System, n: nat, grants: nat, room: seq<Alloc>, clean: bool)
    returns (ops: seq<H5Link.Op>)
    requires Follows(s, f, clean) && Valid(s.a) && (clean ==> Lossless(Arrive(n, grants, room)))
    ensures Refines(Act(s, Arrive(n, grants, room)), f, ops, clean) && H5Link.Unsubmitted(ops)
  {
    hide OnLine, QueuesOk, H5Link.FramesOk, Recv, Received, Valid, Reading, AtRest, Encode;
    H5Link.FramesEncoded(f);
    OnLineValid(s.a, s.ba, f.ba, clean);
    ReadyQueues(s.a.link, room);
    var l := H5Link.Ready(s.a.link, room);
    OnLineSwap(s.a, l, s.ba, f.ba, clean);
    OnLineValid(s.b, s.ab, f.ab, clean);
    var a := s.a.(link := l);
    var fate := CallHears(a, s.ba, f.ba, n, grants, clean);
    var r := Recv(a, Taken(s.ba, n), grants);
    var out;
    ops, out := FatesRun(f, l, fate);
    var g := H5Link.Run(f, ops);
    if r.rx.faulted {
      assert Faults(g.a, g.ba[0]);
    } else {
      assert r.link.written == out;
      OutEncoded(f.ab, out, g);
      OnLineSend(s.b, s.ab, f.ab, out, clean);
    }
  }

  lemma OutEncoded(x: seq<Frame>, out: seq<Frame>, g: H5Link.System)
    requires H5Link.Ok(g) && g.ab == x + out
    ensures Encoded(out)
  {
  }

  lemma ReadyQueues(l: Link, room: seq<Alloc>)
    requires QueuesOk(l)
    ensures QueuesOk(H5Link.Ready(l, room))
  {
  }

  /** What an operation does to the bytes, operations on frames do to the frames. */
  lemma ActFollows(s: System, f: H5Link.System, action: Action, clean: bool) returns (ops: seq<H5Link.Op>)
    requires Follows(s, f, clean) && Valid(s.a) && Valid(s.b) && (clean ==> Lossless(action))
    ensures Refines(Act(s, action), f, ops, clean) && (!action.Submit? ==> H5Link.Unsubmitted(ops))
    ensures H5Link.SubmittedAt(ops, false) == SubmittedBy(action) && H5Link.SubmittedAt(ops, true) == []
  {
    if action.Arrive? {
      ops := ActArrives(s, f, action.n, action.grants, action.room, clean);
      H5Link.NoneSubmitted(ops, false);
      H5Link.NoneSubmitted(ops, true);
    } else if action.Vanish? && action.i >= |s.ab.waiting| {
      ops := [];
      OnLineValid(s.a, s.ba, f.ba, clean);
      OnLineValid(s.b, s.ab, f.ab, clean);
    } else {
      hide OnLine, Act, Run, Wakeup;
      var act := FrameAction(s, f, action, clean);
      ops := [H5Link.Op(false, act)];
      OneAct(f, act);
      H5Link.OneSubmitted(ops[0], false);
      H5Link.OneSubmitted(ops[0], true);
    }
  }

  lemma OneAct(f: H5Link.System, act: H5Link.Action)
    requires H5Link.Ok(f) && !act.Arrive?
    ensures var ops := [H5Link.Op(false, act)];
            H5Link.Run(f, ops) == H5Link.Act(f, act) && H5Link.Sound(f, ops)
  {
    hide QueuesOk, H5Link.FramesOk, H5Link.Act;
    var ops := [H5Link.Op(false, act)];
    assert ops[1..] == [];
    H5Link.StepOk(f, ops[0]);
  }

  /** All operations but a call of h5_recv are single operations on frames. */
  lemma FrameAction(s: System, f: H5Link.System, action: Action, clean: bool) returns (act: H5Link.Action)
    requires Follows(s, f, clean) && Valid(s.a) && Valid(s.b) && !action.Arrive? && (clean ==> Lossless(action))
    requires action.Vanish? ==> action.i < |s.ab.waiting|
    ensures !act.Arrive? && (clean ==> H5Link.Lossless(act)) && H5Link.SubmittedBy(act) == SubmittedBy(action)
    ensures !Faulted(Act(s, action)) && Follows(Act(s, action), H5Link.Act(f, act), clean)
  {
    hide OnLine, Wakeup, QueuesOk, H5Link.FramesOk, Valid;
    OnLineValid(s.a, s.ba, f.ba, clean);
    OnLineValid(s.b, s.ab, f.ab, clean);
    match action
    case Submit(p) =>
      act := H5Link.Submit(p);
      H5Link.ActOk(f, act);
      EnqueueOk(s.a.link, p);
      OnLineSwap(s.a, Enqueue(s.a.link, p), s.ba, f.ba, clean);
    case Transmit(room) =>
      act := H5Link.Transmit(room);
      H5Link.ActOk(f, act);
      ReadyQueues(s.a.link, []);
      var l := H5Link.Ready(s.a.link, []);
      WakeupAlike(l, room);
      OnLineSwap(s.a, Wakeup(l, room), s.ba, f.ba, clean);
      OutEncoded(f.ab, Wakeup(l, room).written, H5Link.Act(f, act));
      OnLineSend(s.b, s.ab, f.ab, Wakeup(l, room).written, clean);
    case Vanish(i) =>
      var j := OnLineDrop(s.b, s.ab, f.ab, i);
      act := H5Link.Vanish(j);
      H5Link.ActOk(f, act);
    case Timeout =>
      act := H5Link.Timeout;
      H5Link.ActOk(f, act);
      TimedOutOk(s.a.link);
      OnLineSwap(s.a, TimedOut(s.a.link), s.ba, f.ba, clean);
  }

  lemma StepFollows(s: System, f: H5Link.System, op: Op, clean: bool) returns (ops: seq<H5Link.Op>)
    requires Follows(s, f, clean) && Valid(s.a) && Valid(s.b) && (clean ==> Lossless(op.action))
    ensures Refines(Step(s, op), f, ops, clean) && (!op.action.Submit? ==> H5Link.Unsubmitted(ops))
    ensures H5Link.SubmittedAt(ops, op.atB) == SubmittedBy(op.action) && H5Link.SubmittedAt(ops, !op.atB) == []
  {
    hide Act, Valid, OnLine, QueuesOk, H5Link.FramesOk, H5Link.Run, H5Link.Sound, Lossless, H5Link.Lossless;
    if op.atB {
      var x := H5Link.Swap(f);
      var flipped := ActFollows(Swap(s), x, op.action, clean);
      ops := H5Link.Flip(flipped);
      H5Link.RunFlip(x, flipped);
      H5Link.SubmittedFlip(flipped, false);
      H5Link.SubmittedFlip(flipped, true);
    } else {
      ops := ActFollows(s, f, op.action, clean);
    }
  }

  function SubmittedBy(action: Action): seq<Packet> {
    if action.Submit? then [action.p] else []
  }

  /** The packets that a run submits at one end. */
  function Submitted(ops: seq<Op>, atB: bool): seq<Packet> {
    if ops == [] then []
    else (if ops[0].atB == atB then SubmittedBy(ops[0].action) else []) + Submitted(ops[1..], atB)
  }

  /** Every run on bytes is a run on frames, up to the first frame that faults. */
  lemma {:induction false} RunFollows(s: System, f: H5Link.System, ops: seq<Op>, clean: bool)
    returns (frames: seq<H5Link.Op>)
    requires Follows(s, f, clean) && Valid(s.a) && Valid(s.b)
    requires clean ==> forall op :: op in ops ==> Lossless(op.action)
    ensures Refines(Run(s, ops), f, frames, clean)
    ensures (forall op :: op in ops ==> !op.action.Submit?) ==> H5Link.Unsubmitted(frames)
    ensures !Faulted(Run(s, ops)) ==> forall atB :: H5Link.SubmittedAt(frames, atB) == Submitted(ops, atB)
    decreases |ops|
  {
    hide Act, Valid, OnLine, QueuesOk, H5Link.FramesOk, H5Link.Run, H5Link.Sound, Lossless, H5Link.Lossless;
    frames := [];
    H5Link.RunAppend(f, [], []);
    if ops == [] {
      NoOps(s, f, clean);
    } else {
      frames := StepFollows(s, f, ops[0], clean);
      ActValid(if ops[0].atB then Swap(s) else s, ops[0].action);
      var s1, f1 := Step(s, ops[0]), H5Link.Run(f, frames);
      if Faulted(s1) {
        FaultStays(s1, ops[1..]);
      } else {
        var later := RunFollows(s1, f1, ops[1..], clean);
        H5Link.RunAppend(f, frames, later);
        H5Link.SubmittedAppend(frames, later, false);
        H5Link.SubmittedAppend(frames, later, true);
        frames := frames + later;
      }
    }
  }

  lemma NoOps(s: System, f: H5Link.System, clean: bool)
    requires Follows(s, f, clean)
    ensures Refines(s, f, [], clean)
  {
    OnLineValid(s.a, s.ba, f.ba, clean);
    OnLineValid(s.b, s.ab, f.ab, clean);
  }

  /** h5_open at both ends, and an empty line. */
  const BOTH_OPENED := System(State(OPENED, RESET), State(OPENED, RESET), Line([], []), Line([], []))
  const OPENED_FRAMES := H5Link.System(OPENED, OPENED, [], [])

  lemma OpenedFollows(clean: bool)
    ensures Valid(BOTH_OPENED.a) && Valid(BOTH_OPENED.b) && Follows(BOTH_OPENED, OPENED_FRAMES, clean)
  {
  }

  /** Reliable transfer. After any run from h5_open on, through link establishment, sleep and changes of the window, the
      reliable packets accepted at one end are a prefix of those queued at the other, the ACL packets handed to the HCI
      layer are a prefix of those queued, and every packet already freed has been accepted: although the cull misses
      some acknowledgements, it never invents one. The runs left out are those in which a data packet has reached an
      end that was not up. */
  lemma ReliableTransfer(ops: seq<Op>)
    ensures Valid(BOTH_OPENED.a) && Valid(BOTH_OPENED.b)
    ensures var r := Run(BOTH_OPENED, ops);
            !Faulted(r) ==>
            && r.b.link.taken <= r.a.link.enqueued
            && r.a.link.taken <= r.b.link.enqueued
            && H5Link.Acl(r.b.link.up) <= H5Link.Acl(r.a.link.enqueued)
            && H5Link.Acl(r.a.link.up) <= H5Link.Acl(r.b.link.enqueued)
            && H5Link.FreedWereTaken(r.a.link, r.b.link) && H5Link.FreedWereTaken(r.b.link, r.a.link)
  {
    hide H5Link.Inv, Run, H5Link.Run, OnLine, H5Link.Ok, H5Link.Sound, H5Link.Lossless, H5Link.Acl;
    OpenedFollows(false);
    H5Link.OpenedInv();
    var frames := RunFollows(BOTH_OPENED, OPENED_FRAMES, ops, false);
    var w := H5Link.RunSafe(OPENED_FRAMES, H5Link.Witness(START, START), frames);
    H5Link.InvDelivers(H5Link.Run(OPENED_FRAMES, frames), w);
  }

  // ---- Links that are up stay up ----

  /** Link-control messages that do not ask for, or answer, synchronisation. */
  predicate NotSync(b: Body) {
    b.tag == LINK_PKT && |b.data| >= 2 ==> b.data[..2] != SYNC_REQ && b.data[..2] != SYNC_RSP
  }

  ghost predicate QuietLink(l: Link) {
    QueuesOk(l) && l.state == Active && forall p :: p in l.unrel ==> NotSync(Body(p.kind, p.data))
  }

  ghost predicate QuietFrames(fs: seq<Frame>) {
    forall f :: f in fs ==> Encodable(f) && NotSync(f.body)
  }

  ghost predicate Quiet(f: H5Link.System) {
    QuietLink(f.a) && QuietLink(f.b) && QuietFrames(f.ab) && QuietFrames(f.ba)
  }

  lemma OneQuiet(l: Link, a: Alloc)
    requires QuietLink(l) && QuietFrames(l.written) && Choose(l, a) != SendNothing
    ensures QuietLink(AfterOne(l, a)) && QuietFrames(AfterOne(l, a).written)
  {
    H5Link.OutgoingOk(l, a);
    var f := FrameFor(l, Chosen(l, a));
    assert f in [f];
    if Choose(l, a) == SendUnrel {
      assert l.unrel[0] in l.unrel;
    } else if Choose(l, a) == SendRel {
      assert l.rel[0] in l.rel;
    } else {
      assert WAKEUP_REQ[..2][0] != SYNC_REQ[0] && WAKEUP_REQ[..2][0] != SYNC_RSP[0];
    }
  }

  lemma {:induction false} WakeupQuiet(l: Link, room: seq<Alloc>)
    requires QuietLink(l) && QuietFrames(l.written)
    ensures QuietLink(Wakeup(l, room)) && QuietFrames(Wakeup(l, room).written)
    decreases |room|
  {
    hide QuietFrames, QueuesOk, NotSync;
    if room != [] && Choose(l, room[0]) != SendNothing {
      OneQuiet(l, room[0]);
      WakeupQuiet(AfterOne(l, room[0]), room[1..]);
    }
  }

  lemma DeliverQuiet(l: Link, f: Frame)
    requires QuietLink(l) && NotSync(f.body)
    ensures QuietLink(Deliver(l, f, |f.body.data|)) && Deliver(l, f, |f.body.data|).written == l.written
  {
    hide QueuesOk, NotSync;
    DeliverOk(l, f, |f.body.data|);
    KnownQuiet(l);
    InternalQuiet(l, f.body);
  }

  /** The link-control messages that a driver sends once its link is up. */
  lemma KnownQuiet(l: Link)
    ensures forall m :: m in [CONF_RSP, WOKEN_REQ, ConfReq(l)] ==> NotSync(Body(LINK_PKT, m))
  {
    assert CONF_RSP[..2][0] == 4 && WOKEN_REQ[..2][0] == 6 && ConfReq(l)[..2][0] == 3;
  }

  lemma InternalQuiet(l: Link, b: Body)
    requires l.state == Active && NotSync(b)
    ensures var r := Internal(l, b, |b.data|);
            && r.state == Active
            && forall p :: p in r.unrel ==>
                 p in l.unrel || (p.kind == LINK_PKT && p.data in [CONF_RSP, WOKEN_REQ, ConfReq(l)])
  {
  }

  lemma ReceivedQuiet(l: Link, f: Frame)
    requires QuietLink(l) && QuietFrames(l.written) && Encodable(f) && NotSync(f.body)
    ensures QuietLink(Received(l, f)) && QuietFrames(Received(l, f).written)
  {
    hide QuietFrames, NotSync, Wakeup, Deliver;
    if f.reliable {
      WakeupQuiet(l.(txAck := (l.txAck + 1) % 8, txAckReq := true, room := [],
                     taken := l.taken + [Packet(f.body.tag, f.body.data)]), l.room);
    }
    var m := Accept(l, f).(rxAck := f.ack);
    CullOk(m);
    DeliverQuiet(Cull(m), f);
  }

  lemma QuietAppend(x: seq<Frame>, y: seq<Frame>)
    requires QuietFrames(x) && QuietFrames(y)
    ensures QuietFrames(x + y)
  {
  }

  lemma QuietPart(x: seq<Frame>, i: nat)
    requires QuietFrames(x) && i < |x|
    ensures QuietFrames(Drop(x, i)) && QuietFrames(x[1..]) && Encodable(x[0]) && NotSync(x[0].body)
  {
    assert x[0] in x;
  }

  lemma ActQuiet(f: H5Link.System, action: H5Link.Action)
    requires Quiet(f)
    ensures Quiet(H5Link.Act(f, action))
  {
    hide QuietFrames, Wakeup, Received, NotSync;
    var none: seq<Frame> := [];
    assert QuietFrames(none) by {
      QuietNothing();
    }
    match action
    case Submit(p) => EnqueueQuiet(f.a, p);
    case Transmit(room) =>
      WakeupQuiet(H5Link.Ready(f.a, []), room);
      QuietAppend(f.ab, Wakeup(H5Link.Ready(f.a, []), room).written);
    case Arrive(heard, room) =>
      if f.ba != [] {
        QuietPart(f.ba, 0);
        var l := H5Link.Ready(f.a, room);
        ReceivedQuiet(l, f.ba[0]);
        QuietAppend(f.ab, if heard then Received(l, f.ba[0]).written else []);
      }
    case Vanish(i) =>
      if i < |f.ab| {
        QuietPart(f.ab, i);
      }
    case Timeout => TimedOutOk(f.a);
  }

  lemma QuietNothing()
    ensures QuietFrames([])
  {
  }

  lemma EnqueueQuiet(l: Link, p: Packet)
    requires QuietLink(l)
    ensures QuietLink(Enqueue(l, p))
  {
    EnqueueOk(l, p);
  }

  lemma QuietMeans(f: H5Link.System)
    requires Quiet(f)
    ensures f.a.state == f.b.state == Active && !H5Link.AtFault(f)
  {
  }

  lemma {:induction false} RunQuiet(f: H5Link.System, ops: seq<H5Link.Op>)
    requires H5Link.Ok(f) && Quiet(f)
    ensures Quiet(H5Link.Run(f, ops))
    decreases |ops|
  {
    hide H5Link.Act, QueuesOk, H5Link.FramesOk, QuietLink, QuietFrames;
    if ops != [] {
      H5Link.StepOk(f, ops[0]);
      ActQuiet(if ops[0].atB then H5Link.Swap(f) else f, ops[0].action);
      RunQuiet(H5Link.Step(f, ops[0]), ops[1..]);
    }
  }

  /** Both links are up, and no request for synchronisation or answer to one is queued or on the line; anything else may
      be: configuration messages, sleep messages, data and acknowledgements. */
  ghost predicate Established(s: System) {
    exists f :: Follows(s, f, false) && Quiet(f)
  }

  /** From an established pair on, in every run, no receiver faults and both links stay up. */
  lemma EstablishedStays(s: System, ops: seq<Op>)
    requires Valid(s.a) && Valid(s.b) && Established(s)
    ensures var r := Run(s, ops);
            Established(r) && !Faulted(r) && r.a.link.state == r.b.link.state == Active
  {
    hide Run, H5Link.Run, Quiet, OnLine, H5Link.Sound, H5Link.AtFault, QueuesOk;
    var f :| Follows(s, f, false) && Quiet(f);
    var frames := RunFollows(s, f, ops, false);
    RunQuiet(f, frames);
    QuietMeans(H5Link.Run(f, frames));
  }
}
