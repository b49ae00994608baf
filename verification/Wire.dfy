/** A serial line that carries whole frames and is read in pieces. */
module Wire {
  import opened Octets

  /** Frames on their way to a receiver: what is left of the one being delivered, and those that wait behind it. */
  datatype Line = Line(begun: seq<byte>, waiting: seq<seq<byte>>)

  /** The next `n` bytes of the line, or as many as there are. */
  function Taken(line: Line, n: nat): seq<byte>
    decreases |line.waiting|
  {
    if n <= |line.begun| then line.begun[..n]
    else if line.waiting == [] then line.begun
    else line.begun + Taken(Line(line.waiting[0], line.waiting[1..]), n - |line.begun|)
  }

  function Advance(line: Line, n: nat): Line
    decreases |line.waiting|
  {
    if n <= |line.begun| then Line(line.begun[n..], line.waiting)
    else if line.waiting == [] then Line([], [])
    else Advance(Line(line.waiting[0], line.waiting[1..]), n - |line.begun|)
  }

  function Send(line: Line, frames: seq<seq<byte>>): Line {
    line.(waiting := line.waiting + frames)
  }

  lemma TakenSplit(line: Line, n: nat)
    requires n >= |line.begun|
    ensures Taken(line, n) == line.begun + Taken(Line([], line.waiting), n - |line.begun|)
    ensures Advance(line, n) == Advance(Line([], line.waiting), n - |line.begun|)
  {
    if n == |line.begun| {
      assert line.begun[..n] + [] == line.begun && line.begun[n..] == [];
    }
  }

  lemma FirstTaken(enc: seq<byte>, rest: seq<seq<byte>>)
    requires enc != []
    ensures var line := Line([], [enc] + rest);
            Taken(line, |enc|) == enc && Advance(line, |enc|) == Line([], rest)
  {
    hide Taken, Advance;
    var line := Line([], [enc] + rest);
    assert line.waiting[0] == enc && line.waiting[1..] == rest;
    NextBegins(line, |enc|);
    BegunTaken(enc, rest);
    assert [] + enc == enc;
  }

  lemma NextBegins(line: Line, n: nat)
    requires line.begun == [] && line.waiting != [] && n > 0
    ensures var next := Line(line.waiting[0], line.waiting[1..]);
            Taken(line, n) == [] + Taken(next, n) && Advance(line, n) == Advance(next, n)
  {
  }

  lemma BegunTaken(enc: seq<byte>, rest: seq<seq<byte>>)
    ensures Taken(Line(enc, rest), |enc|) == enc && Advance(Line(enc, rest), |enc|) == Line([], rest)
  {
    assert enc[..|enc|] == enc && enc[|enc|..] == [];
  }
}
