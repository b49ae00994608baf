/** The bit-banged I2C master of compat-3.4.c, in runs without clock-stretch timeouts. A monitor that knows only the two
    line levels decodes what the master drives. */
module I2cBit {
  import opened Octets
  import Arith

  // ---- The bus as a monitor sees it (UM10204, sections 3.1.3 to 3.1.5) ----

  /** The levels the master drives; a high SDA is released and may be pulled low by the slave. */
  datatype Level = Level(scl: bool, sda: bool)

  datatype Symbol = Start | Stop | Bit(b: bool)

  /** `marked`: in this high period of SCL a START or STOP was seen, so its falling edge ends no data bit. */
  datatype Monitor = Monitor(now: Level, marked: bool, out: seq<Symbol>)

  const IDLE := Monitor(Level(true, true), true, [])

  function Observe(m: Monitor, next: Level): Monitor {
    if m.now.scl && next.scl then
      if m.now.sda == next.sda then m
      else Monitor(next, true, m.out + [if next.sda then Stop else Start])
    else if m.now.scl && !m.marked then Monitor(next, false, m.out + [Bit(m.now.sda)])
    else Monitor(next, false, m.out)
  }

  function Watch(wave: seq<Level>): Monitor {
    if wave == [] then IDLE else Observe(Watch(wave[..|wave| - 1]), wave[|wave| - 1])
  }

  // ---- What the master means by it ----

  /** Units of a transfer: conditions, a byte sent with the slave's answer, a byte read with the master's answer. */
  datatype Unit =
    | StartCond
    | StopCond
    | Sent(c: byte, acked: bool)
    | Read(c: byte)
    | Answer(acked: bool)

  /** The bits of a byte, most significant first, from bit `i` down. */
  function BitsFrom(c: byte, i: nat): seq<Symbol>
    requires i < 8
  {
    [Bit(c / Weight(i) % 2 == 1)] + if i == 0 then [] else BitsFrom(c, i - 1)
  }

  function Weight(i: nat): (w: nat)
    ensures w > 0
  {
    if i == 0 then 1 else 2 * Weight(i - 1)
  }

  function Ones(n: nat): seq<Symbol> {
    if n == 0 then [] else Ones(n - 1) + [Bit(true)]
  }

  /** How a unit looks on the master's lines: SDA is released for whatever the slave has to say. */
  function RenderUnit(u: Unit): seq<Symbol> {
    match u
    case StartCond => [Start]
    case StopCond => [Stop]
    case Sent(c, _) => BitsFrom(c, 7) + [Bit(true)]
    case Read(_) => Ones(8)
    case Answer(acked) => [Bit(!acked)]
  }

  /** The samples of SDA that a unit takes, as they must have been for it to be logged so: low for an acknowledgement,
      and the bits of a byte read, most significant first. */
  function UnitSamples(u: Unit): seq<bool> {
    match u
    case Sent(_, acked) => [!acked]
    case Read(c) => seq(8, i requires 0 <= i < 8 => c / Weight(7 - i) % 2 == 1)
    case _ => []
  }

  function Samples(log: seq<Unit>): seq<bool> {
    if log == [] then [] else Samples(log[..|log| - 1]) + UnitSamples(log[|log| - 1])
  }

  lemma SamplesOne(log: seq<Unit>, u: Unit)
    ensures Samples(log + [u]) == Samples(log) + UnitSamples(u)
  {
    assert (log + [u])[..|log|] == log;
  }

  lemma {:induction false} SamplesMore(x: seq<Unit>, y: seq<Unit>)
    ensures Samples(x + y) == Samples(x) + Samples(y)
  {
    hide UnitSamples;
    if y == [] {
      assert x + y == x;
    } else {
      var z, n := x + y, |y| - 1;
      SamplesMore(x, y[..n]);
      assert z[..|z| - 1] == x + y[..n] && z[|z| - 1] == y[n];
      assert Samples(z) == Samples(x + y[..n]) + UnitSamples(y[n]);
    }
  }

  /** Of what the slave has to say, `heard` has been sampled and `left` is still to come; a slave that has nothing more
      to say leaves SDA high. */
  predicate Listened(said: seq<bool>, heard: seq<bool>, left: seq<bool>) {
    && left == (if |heard| <= |said| then said[|heard|..] else [])
    && (forall i :: 0 <= i < |heard| ==> heard[i] == if i < |said| then said[i] else true)
  }

  lemma {:induction false} ListenedFrom(said: seq<bool>, before: seq<bool>, left: seq<bool>, heard: seq<bool>,
      after: seq<bool>)
    requires Listened(said, before, left) && Listened(said, before + heard, after)
    ensures Listened(left, heard, after)
  {
    forall i | 0 <= i < |heard|
      ensures heard[i] == if i < |left| then left[i] else true
    {
      assert (before + heard)[|before| + i] == heard[i];
    }
  }

  function Render(log: seq<Unit>): seq<Symbol> {
    if log == [] then [] else Render(log[..|log| - 1]) + RenderUnit(log[|log| - 1])
  }

  lemma RenderOne(log: seq<Unit>, u: Unit)
    ensures Render(log + [u]) == Render(log) + RenderUnit(u)
  {
    assert (log + [u])[..|log|] == log;
  }

  lemma WatchOne(wave: seq<Level>, l: Level)
    ensures Watch(wave + [l]) == Observe(Watch(wave), l)
  {
    assert (wave + [l])[..|wave|] == wave;
  }

  // ---- Messages ----

  /** For a write, `data` is the whole buffer; for a read, `len` is the number of bytes asked for. */
  datatype Msg = Msg(addr: nat, data: seq<byte>, len: nat,
                     rd: bool, ten: bool, noStart: bool, ignoreNak: bool, revDir: bool, noRdAck: bool, recvLen: bool)

  datatype Status = Done(count: int) | ENXIO | EIO | EPROTO

  /** The address byte, or the first of two for a ten-bit address. */
  function AddressByte(m: Msg): byte {
    if m.ten then 0xf0 + 2 * (m.addr / 256 % 4)
    else
      var a := 2 * (m.addr % 128) + if m.rd then 1 else 0;
      if !m.revDir then a else if a % 2 == 0 then a + 1 else a - 1
  }

  /** What the slave finds in it: seven address bits above the direction, reversed if asked for; or 11110, the two high
      bits of a ten-bit address and a zero. */
  lemma AddressFields(m: Msg)
    ensures !m.ten ==> AddressByte(m) / 2 == m.addr % 128 && (AddressByte(m) % 2 == 1 <==> m.rd != m.revDir)
    ensures m.ten ==> AddressByte(m) / 8 == 0x1e && AddressByte(m) % 2 == 0
    ensures m.ten ==> AddressByte(m) / 2 % 4 * 256 + m.addr % 256 == m.addr % 1024
  {
    if m.ten {
      var h, low := m.addr / 256, m.addr % 256;
      Arith.DivModUnique(m.addr, 1024, h / 4, h % 4 * 256 + low);
    }
  }

  /** An address refused `k` times, each time followed by STOP and START. */
  function Refusals(a: byte, k: nat): seq<Unit> {
    if k == 0 then [] else Refusals(a, k - 1) + [Sent(a, false), StopCond, StartCond]
  }

  /** How the slave takes the address: refusals and final answer, the answer to the second byte of a ten-bit address, and
      the same for its repetition before a read. */
  datatype Tries = Tries(k: nat, ack: bool, low: bool, k2: nat, ack2: bool)

  function AddressUnits(m: Msg, t: Tries): seq<Unit> {
    var a := AddressByte(m);
    Refusals(a, t.k) + [Sent(a, t.ack)] + if m.ten && (t.ack || m.ignoreNak) then SecondUnits(m, t) else []
  }

  function SecondUnits(m: Msg, t: Tries): seq<Unit>
    requires m.ten
  {
    var a: byte := AddressByte(m) + 1;
    [Sent(m.addr % 256, t.low)] +
    if m.rd && (t.low || m.ignoreNak) then [StartCond] + Refusals(a, t.k2) + [Sent(a, t.ack2)] else []
  }

  predicate AddressOk(m: Msg, t: Tries) {
    m.ignoreNak || (t.ack && (m.ten ==> t.low && (m.rd ==> t.ack2)))
  }

  /** Why an address is given up: only its repetition in front of a read counts as an I/O error. */
  function AddressError(m: Msg, t: Tries): (st: Status)
    ensures !st.Done?
  {
    if m.ten && t.ack && t.low then EIO else ENXIO
  }

  /** An address is given up only after all retries. */
  predicate TriesOk(m: Msg, t: Tries, retries: nat) {
    var limit := if m.ignoreNak then 0 else retries;
    t.k <= limit && (!t.ack ==> t.k == limit) && t.k2 <= limit && (m.ten && m.rd && t.low && !t.ack2 ==> t.k2 == limit)
  }

  /** Bytes sent, with the slave's answers. */
  function SentUnits(data: seq<byte>, acks: seq<bool>): seq<Unit>
    requires |acks| <= |data|
  {
    if acks == [] then []
    else
      var n := |acks| - 1;
      SentUnits(data, acks[..n]) + [Sent(data[n], acks[n])]
  }

  /** Every byte sent and acknowledged, or refusals ignored. */
  predicate SentOk(m: Msg, acks: seq<bool>) {
    |acks| == |m.data| && (m.ignoreNak || forall i :: 0 <= i < |acks| ==> acks[i])
  }

  /** A write ends right after the first refused byte. */
  predicate SentStops(m: Msg, acks: seq<bool>) {
    && !m.ignoreNak && 0 < |acks| <= |m.data|
    && !acks[|acks| - 1] && (forall i :: 0 <= i < |acks| - 1 ==> acks[i])
  }

  /** Bytes read, all but the last one acknowledged by the master. */
  function ReadLog(bytes: seq<byte>, n: nat, answers: bool): seq<Unit>
    requires n <= |bytes|
  {
    if n == 0 then []
    else ReadLog(bytes, n - 1, answers) + [Read(bytes[n - 1])] + (if answers then [Answer(n < |bytes|)] else [])
  }

  /** As many bytes as asked for; with recvLen, as many more as the first byte announces, 1 to 32. */
  predicate ReadOk(m: Msg, bytes: seq<byte>) {
    if m.recvLen && m.len > 0 then bytes != [] && 1 <= bytes[0] <= 32 && |bytes| == m.len + bytes[0]
    else |bytes| == m.len
  }

  /** What happens to one message. */
  datatype Trace = Trace(t: Tries, acks: seq<bool>, bytes: seq<byte>)

  predicate Addressed(m: Msg, tr: Trace) {
    m.noStart || AddressOk(m, tr.t)
  }

  predicate MessageOk(m: Msg, tr: Trace) {
    Addressed(m, tr) && if m.rd then ReadOk(m, tr.bytes) else SentOk(m, tr.acks)
  }

  /** Why a message fails. */
  function Failure(m: Msg, tr: Trace): (st: Status)
    ensures !st.Done?
  {
    if !Addressed(m, tr) then AddressError(m, tr.t) else if m.rd then EPROTO else EIO
  }

  /** The bytes of a trace are those of its message, and it ends only for a reason. */
  predicate TraceOk(m: Msg, tr: Trace, retries: nat) {
    && |tr.acks| <= |m.data|
    && (!m.noStart ==> TriesOk(m, tr.t, retries))
    && (Addressed(m, tr) ==>
          if m.rd then ReadOk(m, tr.bytes) || (m.recvLen && |tr.bytes| == 1 && !(1 <= tr.bytes[0] <= 32))
          else SentOk(m, tr.acks) || SentStops(m, tr.acks))
  }

  function MessageUnits(m: Msg, restart: bool, tr: Trace): seq<Unit>
    requires |tr.acks| <= |m.data|
  {
    (if m.noStart then [] else (if restart then [StartCond] else []) + AddressUnits(m, tr.t)) +
    (if !Addressed(m, tr) then []
     else if m.rd then ReadLog(tr.bytes, |tr.bytes|, !m.noRdAck)
     else SentUnits(m.data, tr.acks))
  }

  predicate TracesOk(msgs: seq<Msg>, trs: seq<Trace>, retries: nat) {
    |trs| <= |msgs| && forall i :: 0 <= i < |trs| ==> TraceOk(msgs[i], trs[i], retries)
  }

  /** All messages done, or all but the last one that was tried. */
  predicate Ended(msgs: seq<Msg>, trs: seq<Trace>, st: Status)
    requires |trs| <= |msgs|
  {
    var n := |trs|;
    if st.Done? then n == |msgs| && st == Done(n) && forall i :: 0 <= i < n ==> MessageOk(msgs[i], trs[i])
    else
      && n > 0 && !MessageOk(msgs[n - 1], trs[n - 1]) && st == Failure(msgs[n - 1], trs[n - 1])
      && forall i :: 0 <= i < n - 1 ==> MessageOk(msgs[i], trs[i])
  }

  predicate SeriesFits(msgs: seq<Msg>, trs: seq<Trace>) {
    |trs| <= |msgs| && forall i :: 0 <= i < |trs| ==> |trs[i].acks| <= |msgs[i].data|
  }

  predicate AllWrites(msgs: seq<Msg>) {
    forall i :: 0 <= i < |msgs| ==> !msgs[i].rd
  }

  /** A series of messages, with a repeated START before each addressed message but the first. */
  function SeriesUnits(msgs: seq<Msg>, trs: seq<Trace>): seq<Unit>
    requires SeriesFits(msgs, trs)
    decreases |trs|
  {
    if trs == [] then []
    else
      var n := |trs| - 1;
      SeriesUnits(msgs, trs[..n]) + MessageUnits(msgs[n], n > 0, trs[n])
  }

  class Master {
    var scl: bool
    var sda: bool
    ghost var wave: seq<Level>
    ghost var log: seq<Unit>
    /** What the slave puts on SDA, sample by sample; released when it has nothing more to say. */
    var slave: seq<bool>
    ghost var heard: seq<bool>
    ghost const script: seq<bool>
    const retries: nat

    /** The decoded wave is the rendering of the log, the lines are where the wave says, and the log says of the slave
        what was sampled. */
    ghost predicate Valid()
      reads this
    {
      && Watch(wave).out == Render(log)
      && Watch(wave).now == Level(scl, sda)
      && heard == Samples(log) && Listened(script, heard, slave)
    }

    ghost predicate Low()
      reads this
    {
      Valid() && !scl
    }

    ghost predicate Idle()
      reads this
    {
      Valid() && scl && sda && Watch(wave).marked
    }

    constructor (n: nat, answers: seq<bool>)
      ensures Idle() && log == [] && retries == n && slave == answers
    {
      scl, sda, wave, log, slave, retries := true, true, [], [], answers, n;
      script, heard := answers, [];
    }

    /** setsda */
    method SetSda(v: bool)
      requires Watch(wave).now == Level(scl, sda)
      modifies this`sda, this`wave
      ensures sda == v && wave == old(wave) + [Level(scl, v)]
      ensures Watch(wave) == Observe(old(Watch(wave)), Level(scl, v))
    {
      WatchOne(wave, Level(scl, v));
      sda := v;
      wave := wave + [Level(scl, v)];
    }

    /** setscl */
    method SetScl(v: bool)
      requires Watch(wave).now == Level(scl, sda)
      modifies this`scl, this`wave
      ensures scl == v && wave == old(wave) + [Level(v, sda)]
      ensures Watch(wave) == Observe(old(Watch(wave)), Level(v, sda))
    {
      WatchOne(wave, Level(v, sda));
      scl := v;
      wave := wave + [Level(v, sda)];
    }

    /** getsda, with SDA released by the master */
    method GetSda() returns (v: bool)
      requires Listened(script, heard, slave)
      modifies this`slave, this`heard
      ensures v == (if old(slave) == [] then true else old(slave)[0])
      ensures slave == (if old(slave) == [] then [] else old(slave)[1..])
      ensures heard == old(heard) + [v] && Listened(script, heard, slave)
    {
      v := true;
      if slave != [] {
        v := slave[0];
        slave := slave[1..];
      }
      heard := heard + [v];
    }

    /** One clock pulse with SDA held at `v` throughout. */
    method Pulse(v: bool)
      requires Watch(wave).now == Level(scl, sda) && !scl
      modifies this`scl, this`sda, this`wave
      ensures Watch(wave).now == Level(scl, sda) && !scl && sda == v
      ensures Watch(wave).out == old(Watch(wave).out) + [Bit(v)]
    {
      hide Watch;
      SetSda(v);
      SetScl(true);
      SetScl(false);
    }

    /** i2c_start */
    method I2cStart()
      requires Idle()
      modifies this`scl, this`sda, this`wave, this`log
      ensures Low() && log == old(log) + [StartCond]
    {
      hide Watch, Render;
      SetSda(false);
      SetScl(false);
      RenderOne(log, StartCond);
      SamplesOne(log, StartCond);
      log := log + [StartCond];
    }

    /** i2c_repstart */
    method I2cRepStart()
      requires Low()
      modifies this`scl, this`sda, this`wave, this`log
      ensures Low() && log == old(log) + [StartCond]
    {
      hide Watch, Render;
      SetSda(true);
      SetScl(true);
      SetSda(false);
      SetScl(false);
      RenderOne(log, StartCond);
      SamplesOne(log, StartCond);
      log := log + [StartCond];
    }

    /** i2c_stop */
    method I2cStop()
      requires Low()
      modifies this`scl, this`sda, this`wave, this`log
      ensures Idle() && log == old(log) + [StopCond]
    {
      hide Watch, Render;
      SetSda(false);
      SetScl(true);
      SetSda(true);
      RenderOne(log, StopCond);
      SamplesOne(log, StopCond);
      log := log + [StopCond];
    }

    /** The bit loop of i2c_outb, from the most significant bit down. */
    method SendBits(c: byte)
      requires Watch(wave).now == Level(scl, sda) && !scl
      modifies this`scl, this`sda, this`wave
      ensures Watch(wave).now == Level(scl, sda) && !scl
      ensures Watch(wave).out == old(Watch(wave).out) + BitsFrom(c, 7)
    {
      hide Watch, Weight, BitsFrom, RestOf;
      RestEnds(c);
      var i := 8;
      while i > 0
        invariant 0 <= i <= 8
        invariant Watch(wave).now == Level(scl, sda) && !scl
        invariant Watch(wave).out + RestOf(c, i) == old(Watch(wave).out) + RestOf(c, 8)
      {
        i := i - 1;
        RestStep(Watch(wave).out, c, i);
        Pulse(c / Weight(i) % 2 == 1);
      }
      assert Watch(wave).out + [] == Watch(wave).out;
    }

    /** i2c_outb: the byte, then the slave's answer. */
    method OutB(c: byte) returns (acked: bool)
      requires Low()
      modifies this`scl, this`sda, this`wave, this`log, this`slave, this`heard
      ensures Low() && log == old(log) + [Sent(c, acked)]
      ensures acked <==> old(slave) != [] && !old(slave)[0]
      ensures slave == if old(slave) == [] then [] else old(slave)[1..]
    {
      hide Watch, Render, BitsFrom, Samples, Listened;
      SendBits(c);
      ghost var out := Watch(wave).out;
      SetSda(true);
      SetScl(true);
      var v := GetSda();
      acked := !v;
      SetScl(false);
      RenderOne(log, Sent(c, acked));
      SamplesOne(log, Sent(c, acked));
      log := log + [Sent(c, acked)];
      assert out + [Bit(true)] == old(Watch(wave).out) + (BitsFrom(c, 7) + [Bit(true)]);
    }

    /** i2c_inb: SDA released, eight samples, the first one most significant. */
    method InB() returns (c: byte)
      requires Low()
      modifies this`scl, this`sda, this`wave, this`log, this`slave, this`heard
      ensures Low() && sda && log == old(log) + [Read(c)]
      ensures Listened(old(slave), UnitSamples(Read(c)), slave)
    {
      hide Watch, Render, Samples, Listened, UnitSamples;
      SetSda(true);
      var i := 0;
      var indata := 0;
      ghost var out := Watch(wave).out;
      assert out + Ones(0) == out;
      ghost var bits: seq<bool> := [];
      while i < 8
        invariant 0 <= i <= 8 && 0 <= indata < Weight(i)
        invariant Watch(wave).now == Level(scl, sda) && !scl && sda && log == old(log)
        invariant Watch(wave).out == out + Ones(i)
        invariant |bits| == i && heard == old(heard) + bits && Listened(script, heard, slave)
        invariant indata == Sampled(bits, i)
      {
        SetScl(true);
        var v := GetSda();
        indata := 2 * indata;
        if v {
          indata := indata + 1;
        }
        SetScl(false);
        SampledPrefix(bits, v, i);
        assert heard == old(heard) + (bits + [v]);
        bits := bits + [v];
        assert out + Ones(i + 1) == out + Ones(i) + [Bit(true)];
        i := i + 1;
      }
      WeightOfByte();
      c := indata;
      SampledByte(bits, c);
      RenderOne(log, Read(c));
      SamplesOne(log, Read(c));
      ListenedFrom(script, old(heard), old(slave), bits, slave);
      log := log + [Read(c)];
    }

    /** acknak, with SDA still released from the read */
    method AckNak(isAck: bool)
      requires Low() && sda
      modifies this`scl, this`sda, this`wave, this`log
      ensures Low() && log == old(log) + [Answer(isAck)]
      ensures Watch(wave).out == old(Watch(wave).out) + [Bit(!isAck)]
    {
      hide Watch, Render;
      if isAck {
        SetSda(false);
      }
      SetScl(true);
      SetScl(false);
      RenderOne(log, Answer(isAck));
      SamplesOne(log, Answer(isAck));
      log := log + [Answer(isAck)];
    }

    /** try_address */
    method TryAddress(a: byte, limit: nat) returns (acked: bool, ghost k: nat)
      requires Low()
      modifies this`scl, this`sda, this`wave, this`log, this`slave, this`heard
      ensures Low() && k <= limit && (!acked ==> k == limit)
      ensures log == old(log) + Refusals(a, k) + [Sent(a, acked)]
    {
      hide Watch, Render, Samples, Listened;
      var i := 0;
      k := 0;
      assert old(log) + Refusals(a, 0) == old(log);
      while true
        invariant 0 <= i <= limit && k == i
        invariant Low() && log == old(log) + Refusals(a, i)
        decreases limit - i
      {
        acked := OutB(a);
        if acked || i == limit {
          return;
        }
        I2cStop();
        I2cStart();
        assert log == old(log) + (Refusals(a, i) + [Sent(a, false), StopCond, StartCond]);
        i := i + 1;
        k := i;
      }
    }

    /** bit_doAddress */
    method DoAddress(m: Msg) returns (st: Status, ghost t: Tries)
      requires Low()
      modifies this`scl, this`sda, this`wave, this`log, this`slave, this`heard
      ensures Low() && log == old(log) + AddressUnits(m, t) && TriesOk(m, t, retries)
      ensures st == if AddressOk(m, t) then Done(0) else AddressError(m, t)
    {
      hide Watch, Render, Valid, Refusals, SecondUnits;
      var limit := if m.ignoreNak then 0 else retries;
      var a := if m.ten then 0xf0 + 2 * (m.addr / 256 % 4) else 2 * (m.addr % 128);
      if !m.ten && m.rd {
        a := a + 1;
      }
      if !m.ten && m.revDir {
        a := if a % 2 == 0 then a + 1 else a - 1;
      }
      var acked;
      ghost var k;
      acked, k := TryAddress(a, limit);
      t := Tries(k, acked, true, 0, true);
      st := Done(0);
      if !acked && !m.ignoreNak {
        st := ENXIO;
      } else if m.ten {
        st, t := TenBitRest(m, a, limit, t);
        assert log == old(log) + (Refusals(a, k) + [Sent(a, acked)] + SecondUnits(m, t));
      }
    }

    /** Its ten-bit branch after the first byte. */
    method TenBitRest(m: Msg, high: byte, limit: nat, ghost t0: Tries) returns (st: Status, ghost t: Tries)
      requires Low() && m.ten && high == AddressByte(m) && limit == (if m.ignoreNak then 0 else retries)
      requires t0.k2 == 0 && t0.ack2
      modifies this`scl, this`sda, this`wave, this`log, this`slave, this`heard
      ensures Low() && log == old(log) + SecondUnits(m, t) && t.k == t0.k && t.ack == t0.ack
      ensures t.k2 <= limit && (m.rd && t.low && !t.ack2 ==> t.k2 == limit)
      ensures st == if m.ignoreNak || (t.low && (m.rd ==> t.ack2)) then Done(0) else if t.low then EIO else ENXIO
    {
      hide Watch, Render, Valid, Refusals;
      var acked := OutB(m.addr % 256);
      t := t0.(low := acked);
      if !acked && !m.ignoreNak {
        return ENXIO, t;
      }
      st := Done(0);
      if m.rd {
        I2cRepStart();
        ghost var k;
        acked, k := TryAddress(high + 1, limit);
        t := t.(k2 := k, ack2 := acked);
        ghost var again := [StartCond] + Refusals(high + 1, k) + [Sent(high + 1, acked)];
        assert log == old(log) + ([Sent(m.addr % 256, t.low)] + again);
        if !acked && !m.ignoreNak {
          st := EIO;
        }
      }
    }

    /** sendbytes: stop at the first byte the slave refuses, unless refusals are to be ignored. */
    method SendBytes(m: Msg) returns (st: Status, ghost acks: seq<bool>)
      requires Low()
      modifies this`scl, this`sda, this`wave, this`log, this`slave, this`heard
      ensures Low() && |acks| <= |m.data| && log == old(log) + SentUnits(m.data, acks)
      ensures if st.Done? then st == Done(|m.data|) && SentOk(m, acks) else st == EIO && SentStops(m, acks)
    {
      hide Watch, Render, Valid, SentUnits;
      var n := 0;
      acks := [];
      SentNone(m.data);
      while n < |m.data|
        invariant 0 <= n <= |m.data| && Low() && |acks| == n
        invariant log == old(log) + SentUnits(m.data, acks)
        invariant m.ignoreNak || forall i :: 0 <= i < n ==> acks[i]
      {
        var acked := OutB(m.data[n]);
        SentMore(m.data, acks, acked);
        acks := acks + [acked];
        if !acked && !m.ignoreNak {
          return EIO, acks;
        }
        n := n + 1;
      }
      return Done(n), acks;
    }

    /** readbytes: every byte but the last is acknowledged. With recvLen the first byte announces how many follow. */
    method ReadBytes(m: Msg) returns (st: Status, bytes: seq<byte>)
      requires Low()
      modifies this`scl, this`sda, this`wave, this`log, this`slave, this`heard
      ensures Low() && log == old(log) + ReadLog(bytes, |bytes|, !m.noRdAck)
      ensures if st.Done? then st == Done(|bytes|) && ReadOk(m, bytes)
              else st == EPROTO && m.recvLen && m.len > 0 && |bytes| == 1 && !(1 <= bytes[0] <= 32)
    {
      hide Watch, Render, ReadLog, PartLog, Valid, Listened, UnitSamples;
      bytes := [];
      var count: int := m.len;
      ghost var total := count;
      PartNothing(total, !m.noRdAck);
      while count > 0
        invariant 0 <= count && Low() && |bytes| + count == total
        invariant log == old(log) + PartLog(bytes, total, !m.noRdAck)
        invariant m.recvLen && bytes != [] ==> m.len > 0 && total == m.len + bytes[0] && 1 <= bytes[0] <= 32
        invariant !m.recvLen || bytes == [] ==> total == m.len
        decreases if m.recvLen && bytes == [] then 1 else 0, count
      {
        ghost var before := bytes;
        var inval := InB();
        bytes := bytes + [inval];
        count := count - 1;
        if |bytes| == 1 && m.recvLen {
          PartNothing(m.len, !m.noRdAck);
          assert before == [] && log == old(log) + [Read(inval)];
          if inval == 0 || inval > 32 {
            if !m.noRdAck {
              AckNak(false);
            }
            OneRead(inval, !m.noRdAck);
            assert bytes == [inval];
            return EPROTO, bytes;
          }
          count := count + inval;
          total := total + inval;
          PartNothing(total, !m.noRdAck);
        }
        if !m.noRdAck {
          AckNak(count != 0);
        }
        PartStep(before, inval, total, !m.noRdAck);
        assert log == old(log) + PartLog(bytes, total, !m.noRdAck);
      }
      PartIsWhole(bytes, !m.noRdAck);
      return Done(|bytes|), bytes;
    }

    /** bit_xfer: START, the messages up to the first one that fails, STOP. The answers in the log are what the slave
        said. A series of writes to a slave that refuses nothing goes through; without a slave there is no such device.
        What a receiver on the bus makes of a series of writes, acknowledged or not, is exactly the address and data
        bytes of its traces. */
    method BitXfer(msgs: seq<Msg>) returns (st: Status, bufs: seq<seq<byte>>, ghost trs: seq<Trace>)
      requires Idle()
      modifies this`scl, this`sda, this`wave, this`log, this`slave, this`heard
      ensures Idle() && SeriesFits(msgs, trs) && TracesOk(msgs, trs, retries)
      ensures log == old(log) + [StartCond] + SeriesUnits(msgs, trs) + [StopCond]
      ensures Ended(msgs, trs, st) && |bufs| == |trs| && forall i :: 0 <= i < |trs| ==> bufs[i] == trs[i].bytes
      ensures Listened(old(slave), Samples(SeriesUnits(msgs, trs)), slave)
      ensures AllWrites(msgs) && Needed(msgs) <= |old(slave)| && LowUpTo(old(slave), Needed(msgs)) ==>
                st == Done(|msgs|) && slave == old(slave)[Needed(msgs)..]
      ensures msgs != [] && !msgs[0].noStart && !msgs[0].ignoreNak && (forall b :: b in old(slave) ==> b) ==>
                st == ENXIO
      ensures DrivenAlone(old(log)) && AllWrites(msgs) ==>
                && DrivenAlone(log)
                && Decoded(wave) == old(Decoded(wave)) + [Opened] + Meaning(SeriesUnits(msgs, trs)) + [Closed]
    {
      hide Watch, Render, Valid, SeriesUnits, TracesOk, Receive, Meaning, Samples, Listened, Needed, Ended, LowUpTo;
      hide SeriesFits, AllWrites, DrivenAlone, Decoded;
      ghost var wave0, log0 := wave, log;
      ValidMeans();
      I2cStart();
      st, bufs, trs := Messages(msgs);
      I2cStop();
      ValidMeans();
      SeriesListened(log0, old(slave), SeriesUnits(msgs, trs));
      if AllWrites(msgs) {
        SeriesAnswered(msgs, trs, retries, old(slave), slave, st);
      }
      if msgs != [] && !msgs[0].noStart && !msgs[0].ignoreNak {
        NobodyAnswers(msgs, trs, old(slave), slave, st);
      }
      if DrivenAlone(log0) && AllWrites(msgs) {
        SeriesAlone(msgs, trs);
        TransferDecodes(wave0, log0, wave, SeriesUnits(msgs, trs));
      }
    }

    /** Its loop. */
    method Messages(msgs: seq<Msg>) returns (st: Status, bufs: seq<seq<byte>>, ghost trs: seq<Trace>)
      requires Low()
      modifies this`scl, this`sda, this`wave, this`log, this`slave, this`heard
      ensures Low() && SeriesFits(msgs, trs) && TracesOk(msgs, trs, retries)
      ensures log == old(log) + SeriesUnits(msgs, trs)
      ensures Ended(msgs, trs, st) && |bufs| == |trs| && forall i :: 0 <= i < |trs| ==> bufs[i] == trs[i].bytes
    {
      hide Watch, Render, Valid, MessageUnits, TraceOk, MessageOk, Failure, SeriesUnits;
      trs, bufs := [], [];
      NoSeries(msgs);
      assert log + [] == log;
      st := Done(0);
      var i := 0;
      while i < |msgs|
        invariant 0 <= i <= |msgs| && Low() && |trs| == i
        invariant st == Done(i) && TracesOk(msgs, trs, retries)
        invariant |bufs| == i && forall j :: 0 <= j < i ==> bufs[j] == trs[j].bytes
        invariant forall j :: 0 <= j < i ==> MessageOk(msgs[j], trs[j])
        invariant SeriesFits(msgs, trs) && log == old(log) + SeriesUnits(msgs, trs)
      {
        ghost var tr;
        ghost var before := trs;
        var buf;
        st, buf, tr := OneMessage(msgs[i], i > 0);
        TracesStep(msgs, before, tr, retries);
        SeriesStep(msgs, before, tr);
        trs, bufs := trs + [tr], bufs + [buf];
        assert log == old(log) + (SeriesUnits(msgs, before) + MessageUnits(msgs[i], i > 0, tr));
        if !st.Done? {
          break;
        }
        i := i + 1;
        st := Done(i);
      }
    }

    lemma ValidMeans()
      requires Valid()
      ensures Watch(wave).out == Render(log) && Listened(script, Samples(log), slave)
    {
    }

    /** What has been sampled since the log was `log0` and the slave had `left0` to say. */
    lemma SeriesListened(log0: seq<Unit>, left0: seq<bool>, units: seq<Unit>)
      requires Listened(script, Samples(log0), left0) && Listened(script, Samples(log), slave)
      requires log == log0 + [StartCond] + units + [StopCond]
      ensures Listened(left0, Samples(units), slave)
    {
      hide Samples, Listened;
      SamplesOne(log0, StartCond);
      SamplesMore(log0 + [StartCond], units);
      SamplesOne(log0 + [StartCond] + units, StopCond);
      assert Samples(log0) + [] == Samples(log0);
      assert Samples(log) == Samples(log0) + Samples(units);
      ListenedFrom(script, Samples(log0), left0, Samples(units), slave);
    }

    /** One turn of its loop. */
    method OneMessage(m: Msg, restart: bool) returns (st: Status, buf: seq<byte>, ghost tr: Trace)
      requires Low()
      modifies this`scl, this`sda, this`wave, this`log, this`slave, this`heard
      ensures Low() && TraceOk(m, tr, retries) && log == old(log) + MessageUnits(m, restart, tr)
      ensures if MessageOk(m, tr) then st.Done? else st == Failure(m, tr)
      ensures buf == tr.bytes
    {
      hide Watch, Render, Valid, AddressUnits, SentUnits, ReadLog, TriesOk, AddressOk, AddressError;
      buf := [];
      tr := Trace(Tries(0, true, true, 0, true), [], []);
      if !m.noStart {
        if restart {
          I2cRepStart();
        }
        ghost var t;
        st, t := DoAddress(m);
        tr := tr.(t := t);
        if !st.Done? {
          return;
        }
      }
      if m.rd {
        st, buf := ReadBytes(m);
        tr := tr.(bytes := buf);
      } else {
        ghost var acks;
        st, acks := SendBytes(m);
        tr := tr.(acks := acks);
      }
    }
  }

  lemma {:induction false} TracesStep(msgs: seq<Msg>, trs: seq<Trace>, tr: Trace, retries: nat)
    requires |trs| < |msgs| && TracesOk(msgs, trs, retries) && TraceOk(msgs[|trs|], tr, retries)
    ensures TracesOk(msgs, trs + [tr], retries) && |tr.acks| <= |msgs[|trs|].data|
  {
    hide TriesOk, Addressed, SentOk, SentStops, ReadOk;
  }

  lemma {:induction false} SeriesStep(msgs: seq<Msg>, trs: seq<Trace>, tr: Trace)
    requires |trs| < |msgs| && SeriesFits(msgs, trs) && |tr.acks| <= |msgs[|trs|].data|
    ensures SeriesFits(msgs, trs + [tr])
    ensures SeriesUnits(msgs, trs + [tr]) == SeriesUnits(msgs, trs) + MessageUnits(msgs[|trs|], |trs| > 0, tr)
  {
    hide MessageUnits;
    assert (trs + [tr])[..|trs|] == trs;
  }

  lemma NoSeries(msgs: seq<Msg>)
    ensures SeriesFits(msgs, []) && SeriesUnits(msgs, []) == []
  {
  }

  lemma OneRead(c: byte, answers: bool)
    ensures ReadLog([c], 1, answers) == [Read(c)] + (if answers then [Answer(false)] else [])
  {
    assert ReadLog([c], 0, answers) == [];
  }

  /** The units of a read in progress, of which `total` bytes are expected. */
  function PartLog(bytes: seq<byte>, total: int, answers: bool): seq<Unit> {
    if bytes == [] then []
    else
      var n := |bytes| - 1;
      PartLog(bytes[..n], total, answers) + [Read(bytes[n])] + (if answers then [Answer(n + 1 != total)] else [])
  }

  lemma PartNothing(total: int, answers: bool)
    ensures PartLog([], total, answers) == []
  {
  }

  lemma PartStep(bytes: seq<byte>, c: byte, total: int, answers: bool)
    ensures PartLog(bytes + [c], total, answers)
         == PartLog(bytes, total, answers) + [Read(c)] + (if answers then [Answer(|bytes| + 1 != total)] else [])
  {
    assert (bytes + [c])[..|bytes|] == bytes;
  }

  lemma PartIsWhole(bytes: seq<byte>, answers: bool)
    ensures PartLog(bytes, |bytes|, answers) == ReadLog(bytes, |bytes|, answers)
  {
    PartIsPrefix(bytes, |bytes|, answers);
    assert bytes[..|bytes|] == bytes;
  }

  lemma {:induction false} PartIsPrefix(bytes: seq<byte>, n: nat, answers: bool)
    requires n <= |bytes|
    ensures PartLog(bytes[..n], |bytes|, answers) == ReadLog(bytes, n, answers)
  {
    if n > 0 {
      PartIsPrefix(bytes, n - 1, answers);
      assert bytes[..n][..n - 1] == bytes[..n - 1];
    }
  }

  /** The bits below bit `i`. */
  function RestOf(c: byte, i: nat): seq<Symbol>
    requires i <= 8
  {
    if i == 0 then [] else BitsFrom(c, i - 1)
  }

  lemma RestEnds(c: byte)
    ensures RestOf(c, 0) == [] && RestOf(c, 8) == BitsFrom(c, 7)
  {
  }

  lemma RestStep(out: seq<Symbol>, c: byte, i: nat)
    requires i < 8
    ensures out + RestOf(c, i + 1) == (out + [Bit(c / Weight(i) % 2 == 1)]) + RestOf(c, i)
  {
    var b := [Bit(c / Weight(i) % 2 == 1)];
    assert RestOf(c, i + 1) == b + RestOf(c, i);
    assert out + (b + RestOf(c, i)) == (out + b) + RestOf(c, i);
  }

  /** The number that `n` samples spell, the first one most significant. */
  function Sampled(bits: seq<bool>, n: nat): nat
    requires n <= |bits|
  {
    if n == 0 then 0 else 2 * Sampled(bits, n - 1) + (if bits[n - 1] then 1 else 0)
  }

  // ---- Slaves that answer, and buses without a slave ----

  /** How often a slave that refuses nothing is asked during a write: once per byte, addresses included. */
  function AnswersTo(m: Msg): nat {
    (if m.noStart then 0 else if m.ten then 2 else 1) + |m.data|
  }

  function Needed(msgs: seq<Msg>): nat {
    if msgs == [] then 0 else Needed(msgs[..|msgs| - 1]) + AnswersTo(msgs[|msgs| - 1])
  }

  lemma {:induction false} RefusalSamples(a: byte, k: nat)
    ensures |Samples(Refusals(a, k))| == k && forall i :: 0 <= i < k ==> Samples(Refusals(a, k))[i]
  {
    hide Samples;
    NoSamples();
    if k > 0 {
      RefusalSamples(a, k - 1);
      var r := Refusals(a, k - 1);
      SamplesOne(r, Sent(a, false));
      SamplesOne(r + [Sent(a, false)], StopCond);
      SamplesOne(r + [Sent(a, false), StopCond], StartCond);
      assert r + [Sent(a, false)] + [StopCond] == r + [Sent(a, false), StopCond];
      assert r + [Sent(a, false), StopCond] + [StartCond] == Refusals(a, k);
    }
  }

  lemma {:induction false} SentSamples(data: seq<byte>, acks: seq<bool>)
    requires |acks| <= |data|
    ensures var s := Samples(SentUnits(data, acks));
            |s| == |acks| && forall i :: 0 <= i < |acks| ==> s[i] == !acks[i]
  {
    hide Samples;
    NoSamples();
    if acks != [] {
      var n := |acks| - 1;
      SentSamples(data, acks[..n]);
      SamplesOne(SentUnits(data, acks[..n]), Sent(data[n], acks[n]));
    }
  }

  lemma OneSample(c: byte, acked: bool)
    ensures Samples([Sent(c, acked)]) == [!acked] && Samples([StartCond]) == []
  {
    SamplesOne([], Sent(c, acked));
    SamplesOne([], StartCond);
    assert [] + [Sent(c, acked)] == [Sent(c, acked)] && [] + [StartCond] == [StartCond];
  }

  /** The samples of an address: a refusal each time it is repeated, then the final answer. */
  lemma AddressSamples(m: Msg, t: Tries)
    ensures var s := Samples(AddressUnits(m, t));
            && |s| > t.k && s[t.k] == !t.ack && (t.k > 0 ==> s[0])
            && (!m.rd && t.k == 0 && t.ack ==> s == if m.ten then [false, !t.low] else [false])
  {
    hide Samples, Refusals;
    var a := AddressByte(m);
    var head := Refusals(a, t.k) + [Sent(a, t.ack)];
    RefusalSamples(a, t.k);
    OneSample(a, t.ack);
    SamplesMore(Refusals(a, t.k), [Sent(a, t.ack)]);
    if m.ten && (t.ack || m.ignoreNak) {
      SamplesMore(head, SecondUnits(m, t));
      OneSample(m.addr % 256, t.low);
      assert !m.rd ==> SecondUnits(m, t) == [Sent(m.addr % 256, t.low)];
      assert t.k == 0 ==> Samples(Refusals(a, t.k)) == [];
    } else {
      assert head + [] == head;
    }
  }

  predicate LowUpTo(s: seq<bool>, n: nat) {
    forall i :: 0 <= i < |s| && i < n ==> !s[i]
  }

  lemma {:induction false} LowSplit(x: seq<bool>, y: seq<bool>, n: nat, k: nat)
    requires LowUpTo(x + y, n)
    ensures LowUpTo(x, n) && (|x| + k <= n ==> LowUpTo(y, k))
  {
    assert forall i :: 0 <= i < |x| ==> (x + y)[i] == x[i];
    assert forall i :: 0 <= i < |y| ==> (x + y)[|x| + i] == y[i];
  }

  /** A write whose first answers are all low goes through, and asks for no more than these. */
  lemma {:induction false} WriteAnswered(m: Msg, restart: bool, tr: Trace, retries: nat)
    requires !m.rd && TraceOk(m, tr, retries)
    requires LowUpTo(Samples(MessageUnits(m, restart, tr)), AnswersTo(m))
    ensures MessageOk(m, tr) && |Samples(MessageUnits(m, restart, tr))| == AnswersTo(m)
  {
    hide Samples, AddressUnits, SentUnits;
    var s := Samples(MessageUnits(m, restart, tr));
    var front := if m.noStart then [] else (if restart then [StartCond] else []) + AddressUnits(m, tr.t);
    var back := if Addressed(m, tr) then SentUnits(m.data, tr.acks) else [];
    SamplesMore(front, back);
    FrontSamples(m, restart, tr.t);
    SentSamples(m.data, tr.acks);
    NoSamples();
    assert Samples(front) <= s;
    if !m.noStart {
      assert s[0] == Samples(front)[0] && !s[0];
      assert m.ten ==> s[1] == Samples(front)[1];
    }
    var n := |Samples(front)|;
    assert forall i :: 0 <= i < |tr.acks| ==> s[n + i] == !tr.acks[i];
  }

  lemma NoSamples()
    ensures Samples([]) == []
  {
  }

  lemma FrontSamples(m: Msg, restart: bool, t: Tries)
    ensures Samples((if restart then [StartCond] else []) + AddressUnits(m, t)) == Samples(AddressUnits(m, t))
    ensures var s := Samples(AddressUnits(m, t));
            && |s| > t.k && s[t.k] == !t.ack && (t.k > 0 ==> s[0])
            && (!m.rd && t.k == 0 && t.ack ==> s == if m.ten then [false, !t.low] else [false])
  {
    hide AddressUnits, Samples;
    AddressSamples(m, t);
    OneSample(0, true);
    NoSamples();
    SamplesMore(if restart then [StartCond] else [], AddressUnits(m, t));
    assert [] + Samples(AddressUnits(m, t)) == Samples(AddressUnits(m, t));
  }

  /** A series of writes to a slave that refuses nothing. */
  lemma {:induction false} WritesAnswered(msgs: seq<Msg>, trs: seq<Trace>, retries: nat, n: nat)
    requires n <= |trs| && TracesOk(msgs, trs, retries) && AllWrites(msgs) && SeriesFits(msgs, trs[..n])
    requires LowUpTo(Samples(SeriesUnits(msgs, trs[..n])), Needed(msgs))
    ensures |Samples(SeriesUnits(msgs, trs[..n]))| == Needed(msgs[..n])
    ensures forall i :: 0 <= i < n ==> MessageOk(msgs[i], trs[i])
  {
    hide Samples, MessageUnits, MessageOk, TraceOk, SeriesUnits, LowUpTo, AnswersTo;
    if n == 0 {
      NoSeries(msgs);
      NoSamples();
    } else {
      var m, tr := msgs[n - 1], trs[n - 1];
      assert msgs[..n][..n - 1] == msgs[..n - 1];
      var before, units := SeriesUnits(msgs, trs[..n - 1]), MessageUnits(m, n - 1 > 0, tr);
      SamplesMore(before, units);
      assert trs[..n - 1] + [tr] == trs[..n];
      SeriesStep(msgs, trs[..n - 1], tr);
      LowSplit(Samples(before), Samples(units), Needed(msgs), AnswersTo(m));
      WritesAnswered(msgs, trs, retries, n - 1);
      NeededGrows(msgs, n);
      WriteAnswered(m, n - 1 > 0, tr, retries);
    }
  }

  lemma {:induction false} NeededGrows(msgs: seq<Msg>, n: nat)
    requires n <= |msgs|
    ensures Needed(msgs[..n]) <= Needed(msgs)
    decreases |msgs|
  {
    if n < |msgs| {
      NeededGrows(msgs[..|msgs| - 1], n);
      assert msgs[..|msgs| - 1][..n] == msgs[..n];
    } else {
      assert msgs[..n] == msgs;
    }
  }

  lemma {:induction false} SeriesAnswered(msgs: seq<Msg>, trs: seq<Trace>, retries: nat, said: seq<bool>, left: seq<bool>,
      st: Status)
    requires TracesOk(msgs, trs, retries) && AllWrites(msgs) && SeriesFits(msgs, trs) && Ended(msgs, trs, st)
    requires Listened(said, Samples(SeriesUnits(msgs, trs)), left)
    ensures Needed(msgs) <= |said| && LowUpTo(said, Needed(msgs)) ==>
              st == Done(|msgs|) && left == said[Needed(msgs)..]
  {
    hide Samples, MessageOk, TraceOk, SeriesUnits;
    assert trs[..|trs|] == trs && msgs[..|msgs|] == msgs;
    if Needed(msgs) <= |said| && LowUpTo(said, Needed(msgs)) {
      WritesAnswered(msgs, trs, retries, |trs|);
    }
  }

  /** Nobody pulls SDA low: the first address is refused. */
  lemma {:induction false} NobodyAnswers(msgs: seq<Msg>, trs: seq<Trace>, said: seq<bool>, left: seq<bool>, st: Status)
    requires SeriesFits(msgs, trs) && Ended(msgs, trs, st) && msgs != [] && !msgs[0].noStart && !msgs[0].ignoreNak
    requires Listened(said, Samples(SeriesUnits(msgs, trs)), left)
    ensures (forall b :: b in said ==> b) ==> st == ENXIO
  {
    if forall b :: b in said ==> b {
      hide Samples, MessageUnits, SeriesUnits, Listened;
      FirstSamples(msgs, trs);
      FirstAnswer(msgs[0], trs[0]);
      AllHigh(said, Samples(SeriesUnits(msgs, trs)), left);
    }
  }

  lemma {:induction false} AllHigh(said: seq<bool>, heard: seq<bool>, left: seq<bool>)
    requires Listened(said, heard, left) && forall b :: b in said ==> b
    ensures forall i :: 0 <= i < |heard| ==> heard[i]
  {
    assert forall i :: 0 <= i < |said| ==> said[i] in said;
  }

  /** After the refusals stands the final answer to the address. */
  lemma {:induction false} FirstAnswer(m: Msg, tr: Trace)
    requires !m.noStart && |tr.acks| <= |m.data|
    ensures var s := Samples(MessageUnits(m, false, tr)); |s| > tr.t.k && s[tr.t.k] == !tr.t.ack
  {
    hide Samples, AddressUnits, SentUnits, ReadLog, AddressOk;
    var address := AddressUnits(m, tr.t);
    AddressSamples(m, tr.t);
    var back := if !Addressed(m, tr) then [] else if m.rd then ReadLog(tr.bytes, |tr.bytes|, !m.noRdAck)
                else SentUnits(m.data, tr.acks);
    assert [] + address == address;
    assert MessageUnits(m, false, tr) == address + back;
    SamplesMore(address, back);
  }

  lemma {:induction false} FirstSamples(msgs: seq<Msg>, trs: seq<Trace>)
    requires SeriesFits(msgs, trs) && trs != []
    ensures Samples(MessageUnits(msgs[0], false, trs[0])) <= Samples(SeriesUnits(msgs, trs))
    decreases |trs|
  {
    hide MessageUnits, Samples;
    var n := |trs| - 1;
    SamplesMore(SeriesUnits(msgs, trs[..n]), MessageUnits(msgs[n], n > 0, trs[n]));
    if n == 0 {
      assert SeriesUnits(msgs, trs[..0]) == [];
      NoSamples();
    } else {
      FirstSamples(msgs, trs[..n]);
    }
  }

  /** Each sample is the bit of its weight. */
  lemma {:induction false} SampledBit(bits: seq<bool>, n: nat, i: nat)
    requires i < n <= |bits|
    ensures Sampled(bits, n) / Weight(n - 1 - i) % 2 == 1 <==> bits[i]
  {
    var s, b := Sampled(bits, n - 1), if bits[n - 1] then 1 else 0;
    if i < n - 1 {
      SampledBit(bits, n - 1, i);
      DoubleShift(s, b, Weight(n - 2 - i));
    }
  }

  lemma DoubleShift(s: nat, b: nat, w: nat)
    requires b < 2 && w > 0
    ensures (2 * s + b) / (2 * w) == s / w
  {
    var q, m := s / w, s % w;
    assert s == q * w + m;
    assert 2 * s + b == q * (2 * w) + (2 * m + b);
    Arith.DivModUnique(2 * s + b, 2 * w, q, 2 * m + b);
  }

  lemma SampledByte(bits: seq<bool>, c: byte)
    requires |bits| == 8 && c == Sampled(bits, 8)
    ensures UnitSamples(Read(c)) == bits
  {
    hide Sampled, Weight;
    forall i: nat | i < 8
      ensures UnitSamples(Read(c))[i] == bits[i]
    {
      SampledBit(bits, 8, i);
    }
  }

  // ---- A receiver of the decoded bits ----

  datatype Event = Opened | Closed | Octet(c: nat, last: bool)

  /** Nine clocked bits make an octet, the first eight most significant first; START and STOP begin a new one. */
  datatype Receiver = Receiver(bits: seq<bool>, events: seq<Event>)

  function Take(r: Receiver, x: Symbol): Receiver {
    match x
    case Start => Receiver([], r.events + [Opened])
    case Stop => Receiver([], r.events + [Closed])
    case Bit(b) =>
      if |r.bits| < 8 then Receiver(r.bits + [b], r.events)
      else Receiver([], r.events + [Octet(Sampled(r.bits, 8), b)])
  }

  function Receive(r: Receiver, xs: seq<Symbol>): Receiver {
    if xs == [] then r else Take(Receive(r, xs[..|xs| - 1]), xs[|xs| - 1])
  }

  lemma {:induction false} ReceiveMore(r: Receiver, xs: seq<Symbol>, ys: seq<Symbol>)
    ensures Receive(r, xs + ys) == Receive(Receive(r, xs), ys)
  {
    if ys == [] {
      assert xs + ys == xs;
    } else {
      ReceiveMore(r, xs, ys[..|ys| - 1]);
      assert (xs + ys)[..|xs + ys| - 1] == xs + ys[..|ys| - 1];
    }
  }

  lemma ReceiveNone(r: Receiver)
    ensures Receive(r, []) == r
  {
  }

  lemma ReceiveOne(r: Receiver, x: Symbol)
    ensures Receive(r, [x]) == Take(r, x)
  {
    assert Receive(r, [x]) == Take(Receive(r, [x][..0]), x);
  }

  lemma ReceiveFirst(r: Receiver, x: Symbol, ys: seq<Symbol>)
    ensures Receive(r, [x] + ys) == Receive(Take(r, x), ys)
  {
    ReceiveMore(r, [x], ys);
    ReceiveOne(r, x);
  }

  /** The bits of a byte from bit `i` down complete the eight whose first ones spell `c` down to bit `i + 1`. */
  lemma {:induction false} BitsSpell(r: Receiver, c: byte, i: nat)
    requires i < 8 && |r.bits| == 7 - i && Sampled(r.bits, 7 - i) == c / Weight(i + 1)
    ensures var q := Receive(r, BitsFrom(c, i)); q.events == r.events && |q.bits| == 8 && Sampled(q.bits, 8) == c
    decreases i
  {
    hide Receive;
    var b := c / Weight(i) % 2 == 1;
    var t := Take(r, Bit(b));
    var rest := if i == 0 then [] else BitsFrom(c, i - 1);
    ReceiveFirst(r, Bit(b), rest);
    SampledPrefix(r.bits, b, 7 - i);
    Halves(c, i);
    if i > 0 {
      BitsSpell(t, c, i - 1);
    } else {
      ReceiveNone(t);
    }
  }

  lemma {:induction false} SampledPrefix(bits: seq<bool>, b: bool, n: nat)
    requires n <= |bits|
    ensures Sampled(bits + [b], n) == Sampled(bits, n)
  {
    if n > 0 {
      SampledPrefix(bits, b, n - 1);
    }
  }

  const WEIGHTS: seq<nat> := [128, 64, 32, 16, 8, 4, 2, 1]

  /** On the wire and in the samples, the bit worth 128 comes first. */
  lemma MsbFirst(c: byte, i: nat)
    requires i < 8
    ensures WEIGHTS[i] > 0 && |BitsFrom(c, 7)| == 8
    ensures BitsFrom(c, 7)[i] == Bit(c / WEIGHTS[i] % 2 == 1)
    ensures UnitSamples(Read(c))[i] == (c / WEIGHTS[i] % 2 == 1)
  {
    hide BitsFrom, Weight;
    Weights();
    BitsAt(c, 7);
    assert WEIGHTS[i] == Weight(7 - i);
  }

  lemma Weights()
    ensures forall i :: 0 <= i < 8 ==> Weight(7 - i) == WEIGHTS[i]
  {
    assert Weight(3) == 2 * Weight(2) == 4 * Weight(1) == 8;
    assert Weight(7) == 2 * Weight(6) == 4 * Weight(5) == 8 * Weight(4) == 16 * Weight(3);
  }

  lemma {:induction false} BitsAt(c: byte, n: nat)
    requires n < 8
    ensures |BitsFrom(c, n)| == n + 1
    ensures forall i :: 0 <= i <= n ==> BitsFrom(c, n)[i] == Bit(c / Weight(n - i) % 2 == 1)
  {
    hide Weight;
    if n > 0 {
      BitsAt(c, n - 1);
    }
  }

  lemma WeightOfByte()
    ensures Weight(8) == 256
  {
    assert Weight(8) == 2 * Weight(7) == 4 * Weight(6) == 8 * Weight(5) == 16 * Weight(4) == 32 * Weight(3)
        == 64 * Weight(2) == 256;
  }

  lemma Halves(c: nat, i: nat)
    ensures c / Weight(i) == 2 * (c / Weight(i + 1)) + c / Weight(i) % 2
  {
    var w := Weight(i);
    var q, m := c / w, c % w;
    Arith.DivModUnique(c, 2 * w, q / 2, q % 2 * w + m);
  }

  /** What a receiver makes of one unit that the master drives alone. */
  function Meant(u: Unit): seq<Event> {
    match u
    case StartCond => [Opened]
    case StopCond => [Closed]
    case Sent(c, _) => [Octet(c, true)]
    case Read(_) => []
    case Answer(_) => []
  }

  function Meaning(log: seq<Unit>): seq<Event> {
    if log == [] then [] else Meaning(log[..|log| - 1]) + Meant(log[|log| - 1])
  }

  predicate DrivenAlone(log: seq<Unit>) {
    forall u :: u in log ==> !u.Read? && !u.Answer?
  }

  lemma OctetReceived(events: seq<Event>, u: Unit)
    requires !u.Read? && !u.Answer?
    ensures Receive(Receiver([], events), RenderUnit(u)) == Receiver([], events + Meant(u))
  {
    var r := Receiver([], events);
    if u.Sent? {
      WeightOfByte();
      BitsSpell(r, u.c, 7);
      ReceiveMore(r, BitsFrom(u.c, 7), [Bit(true)]);
      ReceiveOne(Receive(r, BitsFrom(u.c, 7)), Bit(true));
    } else {
      ReceiveOne(r, RenderUnit(u)[0]);
    }
  }

  /** The decoded symbols of a write-only log are exactly its conditions and its bytes, in order. */
  lemma {:induction false} WritesDecode(log: seq<Unit>)
    requires DrivenAlone(log)
    ensures Receive(Receiver([], []), Render(log)) == Receiver([], Meaning(log))
  {
    if log != [] {
      var n := |log| - 1;
      WritesDecode(log[..n]);
      ReceiveMore(Receiver([], []), Render(log[..n]), RenderUnit(log[n]));
      OctetReceived(Meaning(log[..n]), log[n]);
    }
  }

  lemma SentNone(data: seq<byte>)
    ensures SentUnits(data, []) == []
  {
  }

  lemma SentMore(data: seq<byte>, acks: seq<bool>, a: bool)
    requires |acks| < |data|
    ensures SentUnits(data, acks + [a]) == SentUnits(data, acks) + [Sent(data[|acks|], a)]
  {
    assert (acks + [a])[..|acks|] == acks;
  }

  lemma {:induction false} SentAlone(data: seq<byte>, acks: seq<bool>)
    requires |acks| <= |data|
    ensures DrivenAlone(SentUnits(data, acks))
  {
    if acks != [] {
      SentAlone(data, acks[..|acks| - 1]);
    }
  }

  lemma {:induction false} RefusalsAlone(a: byte, k: nat)
    ensures DrivenAlone(Refusals(a, k))
  {
    if k > 0 {
      RefusalsAlone(a, k - 1);
    }
  }

  lemma MessageAlone(m: Msg, restart: bool, tr: Trace)
    requires !m.rd && |tr.acks| <= |m.data|
    ensures DrivenAlone(MessageUnits(m, restart, tr))
  {
    hide SentUnits, Refusals;
    RefusalsAlone(AddressByte(m), tr.t.k);
    SentAlone(m.data, tr.acks);
  }

  lemma {:induction false} SeriesAlone(msgs: seq<Msg>, trs: seq<Trace>)
    requires SeriesFits(msgs, trs) && AllWrites(msgs)
    ensures DrivenAlone(SeriesUnits(msgs, trs))
    decreases |trs|
  {
    hide MessageUnits;
    if trs != [] {
      var n := |trs| - 1;
      SeriesAlone(msgs, trs[..n]);
      MessageAlone(msgs[n], n > 0, trs[n]);
    }
  }

  /** What a receiver that was on the bus from the start has made of a wave. */
  function Decoded(wave: seq<Level>): seq<Event> {
    Receive(Receiver([], []), Watch(wave).out).events
  }

  /** A transfer adds to what has been decoded: START, every byte in order with its most significant bit first and SDA
      released for the answer, repeated STARTs, and STOP. */
  lemma TransferDecodes(before: seq<Level>, log: seq<Unit>, wave: seq<Level>, units: seq<Unit>)
    requires Watch(before).out == Render(log) && DrivenAlone(log) && DrivenAlone(units)
    requires Watch(wave).out == Render(log + [StartCond] + units + [StopCond])
    ensures DrivenAlone(log + [StartCond] + units + [StopCond])
    ensures Decoded(wave) == Decoded(before) + [Opened] + Meaning(units) + [Closed]
  {
    hide Watch, Render, Receive;
    WritesDecode(log);
    WritesDecode(log + [StartCond] + units + [StopCond]);
    MeaningAppend(log, [StartCond]);
    MeaningAppend(log + [StartCond], units);
    MeaningAppend(log + [StartCond] + units, [StopCond]);
    assert Meaning([StartCond]) == [Opened] && Meaning([StopCond]) == [Closed] by {
      assert [StartCond][..0] == [] && [StopCond][..0] == [];
    }
  }

  lemma {:induction false} MeaningAppend(x: seq<Unit>, y: seq<Unit>)
    ensures Meaning(x + y) == Meaning(x) + Meaning(y)
  {
    hide Meant;
    if y == [] {
      assert x + y == x;
    } else {
      var z, n := x + y, |y| - 1;
      MeaningAppend(x, y[..n]);
      assert z[..|z| - 1] == x + y[..n] && z[|z| - 1] == y[n];
      assert Meaning(z) == Meaning(x + y[..n]) + Meant(y[n]);
    }
  }

  /** The bytes of a message, as a receiver sees them. */
  lemma {:induction false} SentMeaning(data: seq<byte>, acks: seq<bool>)
    requires |acks| <= |data|
    ensures var e := Meaning(SentUnits(data, acks));
            |e| == |acks| && forall i :: 0 <= i < |acks| ==> e[i] == Octet(data[i], true)
  {
    if acks != [] {
      SentMeaning(data, acks[..|acks| - 1]);
      var u := SentUnits(data, acks);
      assert u[..|u| - 1] == SentUnits(data, acks[..|acks| - 1]);
    }
  }

  // ---- SDA is stable while SCL is high ----

  /** How often SDA changes between two levels with SCL high in both; the bus starts released. */
  function HighChanges(wave: seq<Level>): nat {
    if wave == [] then 0
    else
      var n := |wave| - 1;
      var was := if n == 0 then IDLE.now else wave[n - 1];
      HighChanges(wave[..n]) + if was.scl && wave[n].scl && was.sda != wave[n].sda then 1 else 0
  }

  function Conditions(xs: seq<Symbol>): nat {
    if xs == [] then 0 else Conditions(xs[..|xs| - 1]) + if xs[|xs| - 1].Bit? then 0 else 1
  }

  function ConditionUnits(log: seq<Unit>): nat {
    if log == [] then 0
    else ConditionUnits(log[..|log| - 1]) + if log[|log| - 1].StartCond? || log[|log| - 1].StopCond? then 1 else 0
  }

  lemma {:induction false} ConditionsMore(xs: seq<Symbol>, ys: seq<Symbol>)
    ensures Conditions(xs + ys) == Conditions(xs) + Conditions(ys)
  {
    if ys == [] {
      assert xs + ys == xs;
    } else {
      ConditionsMore(xs, ys[..|ys| - 1]);
      assert (xs + ys)[..|xs + ys| - 1] == xs + ys[..|ys| - 1];
    }
  }

  lemma ConditionsOne(x: Symbol)
    ensures Conditions([x]) == if x.Bit? then 0 else 1
  {
    assert [x][..0] == [];
  }

  lemma ObserveCounts(m: Monitor, next: Level)
    ensures Conditions(Observe(m, next).out)
         == Conditions(m.out) + if m.now.scl && next.scl && m.now.sda != next.sda then 1 else 0
  {
    var x := if !next.scl then Bit(m.now.sda) else if next.sda then Stop else Start;
    ConditionsMore(m.out, [x]);
    ConditionsOne(x);
  }

  lemma {:induction false} WatchCounts(wave: seq<Level>)
    ensures Watch(wave).now == if wave == [] then IDLE.now else wave[|wave| - 1]
    ensures Conditions(Watch(wave).out) == HighChanges(wave)
  {
    if wave != [] {
      var n := |wave| - 1;
      WatchCounts(wave[..n]);
      ObserveCounts(Watch(wave[..n]), wave[n]);
    }
  }

  lemma {:induction false} DataHasNone(c: byte, i: nat)
    requires i < 8
    ensures Conditions(BitsFrom(c, i)) == 0
  {
    var b := Bit(c / Weight(i) % 2 == 1);
    ConditionsOne(b);
    if i > 0 {
      DataHasNone(c, i - 1);
      ConditionsMore([b], BitsFrom(c, i - 1));
    }
  }

  lemma {:induction false} OnesHaveNone(n: nat)
    ensures Conditions(Ones(n)) == 0
  {
    if n > 0 {
      OnesHaveNone(n - 1);
      ConditionsOne(Bit(true));
      ConditionsMore(Ones(n - 1), [Bit(true)]);
    }
  }

  lemma UnitConditions(u: Unit)
    ensures Conditions(RenderUnit(u)) == if u.StartCond? || u.StopCond? then 1 else 0
  {
    match u
    case StartCond => ConditionsOne(Start);
    case StopCond => ConditionsOne(Stop);
    case Sent(c, _) =>
      DataHasNone(c, 7);
      ConditionsOne(Bit(true));
      ConditionsMore(BitsFrom(c, 7), [Bit(true)]);
    case Read(_) => OnesHaveNone(8);
    case Answer(acked) => ConditionsOne(Bit(!acked));
  }

  lemma {:induction false} RenderConditions(log: seq<Unit>)
    ensures Conditions(Render(log)) == ConditionUnits(log)
  {
    if log != [] {
      var n := |log| - 1;
      RenderConditions(log[..n]);
      UnitConditions(log[n]);
      ConditionsMore(Render(log[..n]), RenderUnit(log[n]));
    }
  }

  /** In every state of the master, SDA has changed under a high SCL exactly once per START, repeated START and STOP. */
  lemma StableWhileHigh(m: Master)
    requires m.Valid()
    ensures HighChanges(m.wave) == ConditionUnits(m.log)
  {
    WatchCounts(m.wave);
    RenderConditions(m.log);
  }
}
