/** The block format of the BlueFRITZ! USB driver (bfusb.c): a frame is cut into blocks of up to 256 bytes with a
    three-byte header each, and put together again. */
module Bfusb {
  import opened Octets

  const MAX_BLOCK := 256

  /** Header flags: 0x04 first block, 0x08 last block, 0x10 error. */
  function Flags(first: bool, last: bool): (h: byte) {
    0xc1 + (if first then 4 else 0) + (if last then 8 else 0)
  }

  predicate FirstFlag(h: byte) { h / 4 % 2 == 1 }
  predicate LastFlag(h: byte) { h / 8 % 2 == 1 }
  predicate ErrorFlag(h: byte) { h / 16 % 2 == 1 }

  /** (hdr & 0xe1) == 0xc1 */
  predicate Acceptable(h: byte) { h / 32 == 6 && h % 2 == 1 }

  lemma FlagsReadBack(first: bool, last: bool)
    ensures var h := Flags(first, last);
            Acceptable(h) && FirstFlag(h) == first && LastFlag(h) == last && !ErrorFlag(h)
  {
  }

  // ---- Sending ----

  /** The blocks of the bytes that remain of a frame. */
  function Blocks(rest: seq<byte>, first: bool): (out: seq<byte>)
    decreases |rest|
  {
    if rest == [] then []
    else
      var size := if |rest| < MAX_BLOCK then |rest| else MAX_BLOCK;
      [Flags(first, size == |rest|), 0, size % 256] + rest[..size] + Blocks(rest[size..], false)
  }

  /** The pad that keeps a transfer from being a multiple of the bulk packet size. */
  const PAD: seq<byte> := [0xdd, 0x00]

  function Transfer(p: Packet, bulk: nat): (out: seq<byte>)
    requires p.kind < 256 && bulk > 0
  {
    var b := Blocks([p.kind] + p.data, true);
    if |b| % bulk == 0 then b + PAD else b
  }

  lemma {:induction false} BlocksLength(rest: seq<byte>, first: bool)
    ensures |Blocks(rest, first)| == |rest| + 3 * ((|rest| + 255) / 256)
    decreases |rest|
  {
    if |rest| > MAX_BLOCK {
      BlocksLength(rest[MAX_BLOCK..], false);
    } else if rest != [] {
      assert rest[|rest|..] == [];
    }
  }

  /** The buffer of count + 32 bytes holds headers and pad for every frame of up to 2560 bytes, and for no frame of
      more than 2560 bytes. */
  lemma TransferFits(p: Packet, bulk: nat)
    requires p.kind < 256 && bulk > 0
    ensures var count := 1 + |p.data|;
            && (count <= 2560 ==> |Transfer(p, bulk)| <= count + 32)
            && (count > 2560 ==> |Transfer(p, bulk)| > count + 32)
  {
    BlocksLength([p.kind] + p.data, true);
  }

  lemma BlocksUnfold(rest: seq<byte>, first: bool, size: nat, before: seq<byte>)
    requires rest != [] && size == if |rest| < MAX_BLOCK then |rest| else MAX_BLOCK
    ensures before + Blocks(rest, first)
         == before + [Flags(first, |rest| == size), 0, if size == MAX_BLOCK then 0 else size] + rest[..size]
            + Blocks(rest[size..], false)
  {
    hide Flags;
  }

  /** bfusb_send_frame, from the type byte to the pad. */
  method SendFrame(p: Packet, bulk: nat) returns (nskb: seq<byte>)
    requires p.kind < 256 && bulk > 0
    ensures nskb == Transfer(p, bulk)
  {
    hide Flags, Blocks;
    var skb: seq<byte> := [p.kind] + p.data;
    var count, sent := |skb|, 0;
    nskb := [];
    assert skb[sent..] == skb && nskb + Blocks(skb, true) == Blocks(skb, true);
    while count > 0
      invariant 0 <= sent <= |skb| && count == |skb| - sent
      invariant nskb + Blocks(skb[sent..], sent == 0) == Blocks(skb, true)
      decreases count
    {
      var size := if count < MAX_BLOCK then count else MAX_BLOCK;
      ghost var rest := skb[sent..];
      var h0 := Flags(sent == 0, count == size);
      assert rest[..size] == skb[sent..sent + size] && rest[size..] == skb[sent + size..];
      BlocksUnfold(rest, sent == 0, size, nskb);
      nskb := nskb + [h0, 0, if size == MAX_BLOCK then 0 else size];
      nskb := nskb + skb[sent..sent + size];
      sent := sent + size;
      count := count - size;
    }
    assert skb[sent..] == [];
    NoBlocks(nskb);
    if |nskb| % bulk == 0 {
      nskb := nskb + PAD;
    }
  }

  // ---- Receiving ----

  /** The packet being put together: its type, its bytes so far and the room allocated for it. */
  datatype Partial = Partial(kind: byte, data: seq<byte>, room: nat)

  /** `broken` marks what the model does not follow: a block past the end of the transfer or of the packet buffer. */
  datatype Rx = Rx(reassembly: Option<Partial>, delivered: seq<Packet>, broken: bool)

  /** Length of a packet as its header gives it; None when the block is too short for a header. */
  function PacketLen(kind: byte, buf: seq<byte>): Option<nat> {
    if kind == HCI_EVENT_PKT then (if |buf| >= 2 then Some(2 + buf[1] as int) else None)
    else if kind == HCI_ACLDATA_PKT then
      (if |buf| >= 4 then Some(4 + buf[2] as int + 256 * (buf[3] as int)) else None)
    else if kind == HCI_SCODATA_PKT then (if |buf| >= 3 then Some(3 + buf[2] as int) else None)
    else Some(0)
  }

  function Finish(rx: Rx, part: Partial, buf: seq<byte>, last: bool): Rx {
    var data := part.data + buf;
    if |data| > part.room then rx.(broken := true)
    else if last then rx.(reassembly := None, delivered := rx.delivered + [Packet(part.kind, data)])
    else rx.(reassembly := Some(part.(data := data)))
  }

  /** bfusb_recv_block. Its error codes are ignored by the caller; `memory` grants the packet buffer. */
  function RecvBlock(rx: Rx, h: byte, buf: seq<byte>, memory: bool): Rx {
    if ErrorFlag(h) then rx.(reassembly := None)
    else if FirstFlag(h) then
      var clean := rx.(reassembly := None);
      if buf == [] || PacketLen(buf[0], buf[1..]).None? || !memory then clean
      else Finish(clean, Partial(buf[0], [], PacketLen(buf[0], buf[1..]).value), buf[1..], LastFlag(h))
    else if rx.reassembly.None? then rx
    else Finish(rx, rx.reassembly.value, buf, LastFlag(h))
  }

  /** The parsing loop of bfusb_rx_complete. */
  function Parse(rx: Rx, buf: seq<byte>, memory: bool): Rx
    decreases |buf|
  {
    if buf == [] || rx.broken then rx
    else if |buf| < 2 then rx.(broken := true)
    else
      var short := buf[1] / 64 % 2 == 1;
      if !short && |buf| < 3 then rx.(broken := true)
      else
        var skip := if short then 2 else 3;
        var len := if short then 0 else if buf[2] == 0 then 256 else buf[2];
        if skip + len > |buf| then rx.(broken := true)
        else
          var r := if Acceptable(buf[0]) then RecvBlock(rx, buf[0], buf[skip..skip + len], memory) else rx;
          Parse(r, buf[skip + len..], memory)
  }

  // ---- Round trip ----

  /** A frame whose own length field is right. */
  predicate WellFormed(p: Packet) {
    && (p.kind == HCI_ACLDATA_PKT || p.kind == HCI_SCODATA_PKT)
    && PacketLen(p.kind, p.data) == Some(|p.data|)
  }

  lemma ParseFull(rx: Rx, h: byte, block: seq<byte>, tail: seq<byte>, memory: bool)
    requires 1 <= |block| <= MAX_BLOCK && !rx.broken
    ensures Parse(rx, [h, 0, |block| % 256] + block + tail, memory)
         == Parse(if Acceptable(h) then RecvBlock(rx, h, block, memory) else rx, tail, memory)
  {
    hide RecvBlock, Acceptable;
    var b := [h, 0, |block| % 256] + block + tail;
    assert b[0] == h && b[1] == 0 && b[2] == |block| % 256;
    assert b[3..3 + |block|] == block;
    assert b[3 + |block|..] == tail;
  }

  /** One block of a sent frame, as the parser sees it; `tail` is whatever follows the frame. */
  lemma ParseBlock(rx: Rx, rest: seq<byte>, first: bool, tail: seq<byte>)
    requires rest != [] && !rx.broken
    ensures var size := if |rest| < MAX_BLOCK then |rest| else MAX_BLOCK;
            Parse(rx, Blocks(rest, first) + tail, true)
            == Parse(RecvBlock(rx, Flags(first, size == |rest|), rest[..size], true),
                     Blocks(rest[size..], false) + tail, true)
  {
    hide RecvBlock, Acceptable, Flags, Parse;
    var size := if |rest| < MAX_BLOCK then |rest| else MAX_BLOCK;
    FlagsReadBack(first, size == |rest|);
    var h: seq<byte> := [Flags(first, size == |rest|), 0, size % 256];
    var more := Blocks(rest[size..], false);
    ParseFull(rx, h[0], rest[..size], more + tail, true);
    assert h + rest[..size] + more + tail == h + rest[..size] + (more + tail);
  }

  /** Continuation blocks complete the packet that was begun. */
  lemma {:induction false} ParseContinuation(rx: Rx, part: Partial, rest: seq<byte>, tail: seq<byte>)
    requires rx.reassembly == Some(part) && !rx.broken && rest != [] && |part.data| + |rest| <= part.room
    ensures Parse(rx, Blocks(rest, false) + tail, true)
         == Parse(Rx(None, rx.delivered + [Packet(part.kind, part.data + rest)], false), tail, true)
    decreases |rest|
  {
    hide Blocks, Parse, Flags;
    var size := if |rest| < MAX_BLOCK then |rest| else MAX_BLOCK;
    ParseBlock(rx, rest, false, tail);
    FlagsReadBack(false, size == |rest|);
    if size == |rest| {
      assert rest[..size] == rest && rest[size..] == [];
      NoBlocks(tail);
    } else {
      var next := part.(data := part.data + rest[..size]);
      ParseContinuation(rx.(reassembly := Some(next)), next, rest[size..], tail);
      assert next.data + rest[size..] == part.data + rest;
    }
  }

  lemma NoBlocks(tail: seq<byte>)
    ensures Blocks([], false) + tail == tail == tail + Blocks([], false) == tail + Blocks([], true)
  {
  }

  /** A well-formed frame is taken out of the stream whole, whatever was left over from before. */
  lemma ParseFrame(rx: Rx, p: Packet, tail: seq<byte>)
    requires WellFormed(p) && !rx.broken
    ensures Parse(rx, Blocks([p.kind] + p.data, true) + tail, true)
         == Parse(Rx(None, rx.delivered + [p], false), tail, true)
  {
    hide Blocks, Parse, Flags;
    var frame: seq<byte> := [p.kind] + p.data;
    var size := if |frame| < MAX_BLOCK then |frame| else MAX_BLOCK;
    ParseBlock(rx, frame, true, tail);
    FlagsReadBack(true, size == |frame|);
    var b := frame[..size];
    assert b[0] == p.kind && b[1..] == p.data[..size - 1];
    FirstBlockLength(p, size - 1);
    assert [] + p.data[..size - 1] == p.data[..size - 1];
    if size == |frame| {
      assert p.data[..size - 1] == p.data && frame[size..] == [];
      NoBlocks(tail);
    } else {
      var next := Partial(p.kind, p.data[..size - 1], |p.data|);
      assert frame[size..] == p.data[size - 1..];
      ParseContinuation(Rx(Some(next), rx.delivered, false), next, frame[size..], tail);
      assert next.data + frame[size..] == p.data;
    }
  }

  /** The driver's own receiver gets back every well-formed ACL or SCO frame, with its type and nothing else, padded or
      not; its loop runs past the end of the transfer exactly when there is a pad, which is not a whole block. */
  lemma RoundTrip(rx: Rx, p: Packet, bulk: nat)
    requires WellFormed(p) && !rx.broken && bulk > 0
    ensures var r := Parse(rx, Transfer(p, bulk), true);
            var padded := |Blocks([p.kind] + p.data, true)| % bulk == 0;
            && r.delivered == rx.delivered + [p] && r.reassembly == None
            && (r.broken <==> padded)
            && (StaysInside(Transfer(p, bulk)) <==> !padded)
  {
    hide Blocks, Parse, StaysInside;
    BlocksInside([p.kind] + p.data, true, []);
    BlocksInside([p.kind] + p.data, true, PAD);
    var b := Blocks([p.kind] + p.data, true);
    var done := Rx(None, rx.delivered + [p], false);
    ParseFrame(rx, p, []);
    ParseFrame(rx, p, PAD);
    assert b + [] == b;
    ParseTails(done);
  }

  lemma ParseTails(rx: Rx)
    requires !rx.broken
    ensures Parse(rx, [], true) == rx && Parse(rx, PAD, true) == rx.(broken := true)
    ensures StaysInside([]) && !StaysInside(PAD)
  {
  }

  /** The loop of bfusb_rx_complete, which stops only at a count of exactly 0, gets there: the bytes are whole blocks. */
  predicate StaysInside(buf: seq<byte>)
    decreases |buf|
  {
    buf == [] ||
    (|buf| >= 2 &&
     if buf[1] / 64 % 2 == 1 then StaysInside(buf[2..])
     else
       && |buf| >= 3
       && var len := if buf[2] == 0 then 256 else buf[2] as int;
          3 + len <= |buf| && StaysInside(buf[3 + len..]))
  }

  lemma InsideOne(h: byte, size: nat, block: seq<byte>, tail: seq<byte>)
    requires 1 <= size <= MAX_BLOCK && |block| == size
    ensures StaysInside([h, 0, size % 256] + block + tail) <==> StaysInside(tail)
  {
    var b := [h, 0, size % 256] + block + tail;
    assert b[1] == 0 && b[2] == size % 256 && b[3 + size..] == tail;
  }

  lemma SuffixParts(buf: seq<byte>, i: nat, skip: nat, len: nat)
    requires i + skip + len <= |buf|
    ensures buf[i..][skip..skip + len] == buf[i + skip..i + skip + len]
    ensures buf[i..][skip + len..] == buf[i + skip + len..]
  {
  }

  lemma {:induction false} BlocksInside(rest: seq<byte>, first: bool, tail: seq<byte>)
    ensures StaysInside(Blocks(rest, first) + tail) <==> StaysInside(tail)
    decreases |rest|
  {
    hide Flags, StaysInside;
    if rest == [] {
      assert Blocks(rest, first) + tail == tail;
    } else {
      var size := if |rest| < MAX_BLOCK then |rest| else MAX_BLOCK;
      var head := [Flags(first, size == |rest|), 0, size % 256] + rest[..size];
      var more := Blocks(rest[size..], false);
      InsideOne(head[0], size, rest[..size], more + tail);
      assert Blocks(rest, first) + tail == head + (more + tail);
      BlocksInside(rest[size..], false, tail);
    }
  }

  /** The model stops at every transfer whose loop does not. */
  lemma {:induction false} OutsideBreaks(rx: Rx, buf: seq<byte>, memory: bool)
    requires !StaysInside(buf)
    ensures Parse(rx, buf, memory).broken
    decreases |buf|
  {
    if !rx.broken && |buf| >= 2 {
      var short := buf[1] / 64 % 2 == 1;
      if short || |buf| >= 3 {
        var skip := if short then 2 else 3;
        var len := if short then 0 else if buf[2] == 0 then 256 else buf[2] as int;
        if skip + len <= |buf| {
          var r := if Acceptable(buf[0]) then RecvBlock(rx, buf[0], buf[skip..skip + len], memory) else rx;
          OutsideBreaks(r, buf[skip + len..], memory);
        }
      }
    }
  }

  /** The first block always holds the frame's own header. */
  lemma FirstBlockLength(p: Packet, n: nat)
    requires WellFormed(p) && n <= |p.data| && (n == |p.data| || n == MAX_BLOCK - 1)
    ensures PacketLen(p.kind, p.data[..n]) == Some(|p.data|)
  {
  }

  // ---- What a device may send ----

  /** A block: the low byte of its header, and up to 256 bytes. */
  datatype Block = Block(h: byte, data: seq<byte>)

  /** On the wire: bit 6 of the second byte stands for a block without bytes, a length of 0 for 256. */
  function OnWire(bs: seq<Block>): seq<byte> {
    if bs == [] then []
    else
      (if bs[0].data == [] then [bs[0].h, 0x40] else [bs[0].h, 0x00, |bs[0].data| % 256]) + bs[0].data + OnWire(bs[1..])
  }

  /** The blocks that are looked at, one after the other: those whose header has 110 in its three high bits and 1 in the
      lowest. */
  function Taken(rx: Rx, bs: seq<Block>, memory: bool): Rx
    decreases |bs|
  {
    if bs == [] || rx.broken then rx
    else
      Taken(if 0xc0 <= bs[0].h < 0xe0 && bs[0].h % 2 == 1 then RecvBlock(rx, bs[0].h, bs[0].data, memory) else rx,
            bs[1..], memory)
  }

  /** However the device fills its blocks, the parser finds exactly them. */
  lemma {:induction false} ParsesBlocks(rx: Rx, bs: seq<Block>, memory: bool)
    requires forall i :: 0 <= i < |bs| ==> |bs[i].data| <= 256
    ensures Parse(rx, OnWire(bs), memory) == Taken(rx, bs, memory)
    decreases |bs|
  {
    hide RecvBlock, Acceptable, Parse;
    if bs == [] || rx.broken {
      ParsesNothing(rx, OnWire(bs), memory);
    } else {
      var b := bs[0];
      OneParsed(rx, b, OnWire(bs[1..]), memory);
      AcceptableBits(b.h);
      ParsesBlocks(if Acceptable(b.h) then RecvBlock(rx, b.h, b.data, memory) else rx, bs[1..], memory);
    }
  }

  lemma ParsesNothing(rx: Rx, buf: seq<byte>, memory: bool)
    requires buf == [] || rx.broken
    ensures Parse(rx, buf, memory) == rx
  {
  }

  lemma AcceptableBits(h: byte)
    ensures Acceptable(h) <==> 0xc0 <= h < 0xe0 && h % 2 == 1
  {
  }

  lemma OneParsed(rx: Rx, b: Block, rest: seq<byte>, memory: bool)
    requires |b.data| <= 256 && !rx.broken
    ensures Parse(rx, (if b.data == [] then [b.h, 0x40] else [b.h, 0x00, |b.data| % 256]) + b.data + rest, memory)
         == Parse(if Acceptable(b.h) then RecvBlock(rx, b.h, b.data, memory) else rx, rest, memory)
  {
    hide RecvBlock, Acceptable, Parse;
    if b.data == [] {
      ParseShort(rx, b.h, rest, memory);
      assert [b.h, 0x40] + b.data + rest == [b.h, 0x40] + rest;
    } else {
      ParseFull(rx, b.h, b.data, rest, memory);
    }
  }

  lemma ParseShort(rx: Rx, h: byte, tail: seq<byte>, memory: bool)
    requires !rx.broken
    ensures Parse(rx, [h, 0x40] + tail, memory)
         == Parse(if Acceptable(h) then RecvBlock(rx, h, [], memory) else rx, tail, memory)
  {
    hide RecvBlock, Acceptable;
    var b := [h, 0x40] + tail;
    assert b[0] == h && b[1] == 0x40 && b[2..2] == [] && b[2..] == tail;
  }

  /** The room for a packet, as its own header gives its length. */
  function Room(kind: byte, d: seq<byte>): (n: nat)
    requires (kind == 4 ==> |d| >= 2) && (kind == 2 ==> |d| >= 4) && (kind == 3 ==> |d| >= 3)
  {
    if kind == 4 then 2 + d[1] as int
    else if kind == 2 then 4 + d[2] as int + 256 * d[3] as int
    else if kind == 3 then 3 + d[2] as int else 0
  }

  function Joined(parts: seq<seq<byte>>): seq<byte> {
    if parts == [] then [] else parts[0] + Joined(parts[1..])
  }

  /** Blocks that carry on a packet: neither the first nor an error, and the last one marked. */
  predicate CarryOn(bs: seq<Block>, parts: seq<seq<byte>>) {
    && |bs| == |parts|
    && forall i :: 0 <= i < |bs| ==>
         && bs[i].data == parts[i]
         && bs[i].h / 4 % 2 == 0 && bs[i].h / 16 % 2 == 0 && (bs[i].h / 8 % 2 == 1 <==> i == |bs| - 1)
  }

  /** The blocks of a packet one after the other, whatever their headers say besides. */
  function Heard(rx: Rx, bs: seq<Block>): Rx
    decreases |bs|
  {
    if bs == [] then rx else Heard(RecvBlock(rx, bs[0].h, bs[0].data, true), bs[1..])
  }

  lemma {:induction false} CarriesOn(rx: Rx, part: Partial, bs: seq<Block>, parts: seq<seq<byte>>)
    requires bs != [] && CarryOn(bs, parts) && rx.reassembly == Some(part)
    requires |part.data| + |Joined(parts)| <= part.room
    ensures Heard(rx, bs)
         == rx.(reassembly := None, delivered := rx.delivered + [Packet(part.kind, part.data + Joined(parts))])
    decreases |bs|
  {
    var data := part.data + parts[0];
    assert data + Joined(parts[1..]) == part.data + Joined(parts);
    if |bs| > 1 {
      CarriesOn(rx.(reassembly := Some(part.(data := data))), part.(data := data), bs[1..], parts[1..]);
    } else {
      assert parts[1..] == [] && data + [] == data;
    }
  }

  /** A packet of any type in blocks of any sizes is put together and handed up with its type, whatever was left over,
      if its header comes in its first block and it is no longer than the header says. */
  lemma Assembles(rx: Rx, kind: byte, h: byte, first: seq<byte>, bs: seq<Block>, parts: seq<seq<byte>>)
    requires (kind == 4 ==> |first| >= 2) && (kind == 2 ==> |first| >= 4) && (kind == 3 ==> |first| >= 3)
    requires |first + Joined(parts)| <= Room(kind, first) && CarryOn(bs, parts)
    requires h / 4 % 2 == 1 && h / 16 % 2 == 0 && (h / 8 % 2 == 1 <==> bs == [])
    ensures Heard(rx, [Block(h, [kind] + first)] + bs)
         == rx.(reassembly := None, delivered := rx.delivered + [Packet(kind, first + Joined(parts))])
  {
    var part := Partial(kind, first, Room(kind, first));
    var begun := rx.(reassembly := Some(part));
    Begins(rx, kind, h, first);
    hide RecvBlock, Room, Joined;
    HeardFirst(rx, Block(h, [kind] + first), bs);
    if bs == [] {
      assert first + Joined(parts) == first by {
        NothingJoined(parts);
      }
    } else {
      CarriesOn(begun, part, bs, parts);
    }
  }

  lemma NothingJoined(parts: seq<seq<byte>>)
    ensures parts == [] ==> Joined(parts) == []
  {
  }

  lemma HeardFirst(rx: Rx, b: Block, bs: seq<Block>)
    ensures Heard(rx, [b] + bs) == Heard(RecvBlock(rx, b.h, b.data, true), bs) && Heard(rx, []) == rx
  {
    hide RecvBlock;
    assert ([b] + bs)[1..] == bs;
  }

  /** The first block. */
  lemma Begins(rx: Rx, kind: byte, h: byte, first: seq<byte>)
    requires (kind == 4 ==> |first| >= 2) && (kind == 2 ==> |first| >= 4) && (kind == 3 ==> |first| >= 3)
    requires |first| <= Room(kind, first) && h / 4 % 2 == 1 && h / 16 % 2 == 0
    ensures RecvBlock(rx, h, [kind] + first, true) ==
              if h / 8 % 2 == 1 then rx.(reassembly := None, delivered := rx.delivered + [Packet(kind, first)])
              else rx.(reassembly := Some(Partial(kind, first, Room(kind, first))))
  {
    var b := [kind] + first;
    assert b[0] == kind && b[1..] == first && [] + first == first;
  }

  /** An error, and a first block without a type, without a header or without memory, abandon what was being put together
      and hand nothing up; a block that carries on nothing is ignored; a first block never depends on what came before. */
  lemma Abandons(rx: Rx, h: byte, buf: seq<byte>, memory: bool)
    ensures h / 16 % 2 == 1 ==> RecvBlock(rx, h, buf, memory) == rx.(reassembly := None)
    ensures h / 16 % 2 == 0 && h / 4 % 2 == 1
            && (!memory || buf == [] || (buf[0] == 4 && |buf| < 3) || (buf[0] == 2 && |buf| < 5)
                || (buf[0] == 3 && |buf| < 4)) ==>
              RecvBlock(rx, h, buf, memory) == rx.(reassembly := None)
    ensures h / 16 % 2 == 0 && h / 4 % 2 == 0 && rx.reassembly == None ==> RecvBlock(rx, h, buf, memory) == rx
    ensures h / 4 % 2 == 1 ==> RecvBlock(rx, h, buf, memory) == RecvBlock(rx.(reassembly := None), h, buf, memory)
  {
  }

  /** The loop of bfusb_rx_complete, run against Parse. */
  class BfusbData {
    var reassembly: Option<Partial>
    var delivered: seq<Packet>
    var broken: bool

    ghost function View(): Rx
      reads this
    {
      Rx(reassembly, delivered, broken)
    }

    constructor ()
      ensures View() == Rx(None, [], false)
    {
      reassembly, delivered, broken := None, [], false;
    }

    method ReceiveBlock(h: byte, buf: seq<byte>, memory: bool)
      modifies this
      ensures View() == RecvBlock(old(View()), h, buf, memory)
    {
      if ErrorFlag(h) {
        reassembly := None;
        return;
      }
      var data := buf;
      if FirstFlag(h) {
        reassembly := None;
        if |buf| < 1 {
          return;
        }
        var kind := buf[0];
        data := buf[1..];
        var len := PacketLen(kind, data);
        if len.None? || !memory {
          return;
        }
        reassembly := Some(Partial(kind, [], len.value));
      } else if reassembly.None? {
        return;
      }
      var part := reassembly.value;
      if |part.data| + |data| > part.room {
        reassembly := if FirstFlag(h) then None else Some(part);
        broken := true;
        return;
      }
      part := part.(data := part.data + data);
      reassembly := Some(part);
      if LastFlag(h) {
        delivered := delivered + [Packet(part.kind, part.data)];
        reassembly := None;
      }
    }

    method RxComplete(buf: seq<byte>, memory: bool)
      modifies this
      ensures View() == Parse(old(View()), buf, memory)
    {
      hide RecvBlock;
      var i := 0;
      assert buf[i..] == buf;
      while i < |buf| && !broken
        invariant 0 <= i <= |buf|
        invariant Parse(View(), buf[i..], memory) == Parse(old(View()), buf, memory)
        decreases |buf| - i, !broken
      {
        ghost var rest := buf[i..];
        var count := |buf| - i;
        if count < 2 || (buf[i + 1] / 64 % 2 == 0 && count < 3) {
          broken := true;
        } else {
          var len: int, skip: int := 0, 2;
          if buf[i + 1] / 64 % 2 == 0 {
            len := if buf[i + 2] == 0 then 256 else buf[i + 2];
            skip := 3;
          }
          if count < skip + len {
            broken := true;
          } else {
            SuffixParts(buf, i, skip, len);
            if Acceptable(buf[i]) {
              ReceiveBlock(buf[i], buf[i + skip..i + skip + len], memory);
            }
            i := i + skip + len;
          }
        }
      }
    }
  }
}
