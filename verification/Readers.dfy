/**
 The two in-memory bodies of internal/data/generator.go as a state machine over a cursor, and what
 every run of reads and seeks returns.

 A cursor holds the position the reader reports and the number of bytes drawn from the underlying
 stream since it was last restarted. The fixed-pattern reader computes each byte from the position,
 so for it the two always agree; the random reader advances its pseudo-random source only when it
 reads, so a forward seek leaves the source behind.
 */
module Readers {
  import opened Basics
  import opened Streams

  datatype Kind = Random | Fixed

  /** The whence argument of io.Seeker; Other is any value Go does not define. */
  datatype Whence = SeekStart | SeekCurrent | SeekEnd | Other

  datatype SeekResult = Moved(pos: nat) | InvalidWhence | NegativePosition | BeyondSize

  datatype Cursor = Cursor(drawn: nat, position: nat)

  datatype Op = Read(length: nat) | Seek(offset: Int64, whence: Whence)

  datatype Event = Data(bytes: seq<byte>) | EndOfFile | SeekDone(result: SeekResult)

  predicate ValidSize(size: int)
  {
    0 <= size < TWO_63
  }

  /** Where a seek asks to go: the random reader clamps to the end, the fixed reader refuses. */
  function Destination(kind: Kind, size: nat, position: nat, offset: Int64, whence: Whence): (r: SeekResult)
    requires ValidSize(size) && position <= size
    ensures r.Moved? ==> r.pos <= size
  {
    if whence == Other then InvalidWhence else
    var target: Int64 :=
      match whence
      case SeekCurrent => Add64(position, offset)
      case SeekEnd => Add64(size, offset)
      case _ => offset;
    if target < 0 then NegativePosition
    else if target <= size then Moved(target)
    else if kind == Random then Moved(size)
    else BeyondSize
  }

  /** What io.Seeker asks for, short of overflow: the offset counts from the start, the position or the end. */
  lemma SeekMeaning(kind: Kind, size: nat, position: nat, offset: Int64, whence: Whence)
    requires ValidSize(size) && position <= size
    ensures whence == Other <==> Destination(kind, size, position, offset, whence) == InvalidWhence
    ensures whence != Other ==>
              var base := if whence == SeekStart then 0 else if whence == SeekCurrent then position else size;
              var target := base + offset; var d := Destination(kind, size, position, offset, whence);
              && (d == NegativePosition <==> target < 0 || target >= TWO_63)
              && (d == BeyondSize <==> kind == Fixed && size < target < TWO_63)
              && (d.Moved? && target <= size ==> d.pos == target)
              && (d.Moved? && target > size ==> kind == Random && d.pos == size)
  {
  }

  function SeekStep(kind: Kind, size: nat, c: Cursor, offset: Int64, whence: Whence): (r: (Cursor, SeekResult))
    requires ValidSize(size) && c.position <= size
  {
    var d := Destination(kind, size, c.position, offset, whence);
    if !d.Moved? then (c, d)
    else if kind == Fixed || d.pos == 0 || d.pos < c.position then (Cursor(d.pos, d.pos), d)
    else (Cursor(c.drawn, d.pos), d)
  }

  function ReadStep(f: Stream, size: nat, c: Cursor, length: nat): (r: (Cursor, Event))
    requires c.position <= size
  {
    if c.position >= size then (c, EndOfFile) else
    var n := Min(length, size - c.position);
    (Cursor(c.drawn + n, c.position + n), Data(Slice(f, c.drawn, c.drawn + n)))
  }

  function Step(kind: Kind, f: Stream, size: nat, c: Cursor, op: Op): (r: (Cursor, Event))
    requires ValidSize(size) && c.position <= size
    ensures r.0.position <= size
  {
    match op
    case Read(length) => ReadStep(f, size, c, length)
    case Seek(offset, whence) =>
      var (c', d) := SeekStep(kind, size, c, offset, whence);
      (c', SeekDone(d))
  }

  function Run(kind: Kind, f: Stream, size: nat, c: Cursor, ops: seq<Op>): (r: (Cursor, seq<Event>))
    requires ValidSize(size) && c.position <= size
    ensures r.0.position <= size && |r.1| == |ops|
    decreases |ops|
  {
    if ops == [] then (c, []) else
    var (c', e) := Step(kind, f, size, c, ops[0]);
    var (c'', es) := Run(kind, f, size, c', ops[1..]);
    (c'', [e] + es)
  }

  // ---------------------------------------------------------------------------------------------
  // The reference: an immutable byte sequence with a position, as io.ReadSeeker describes it.

  function FileStep(kind: Kind, contents: seq<byte>, position: nat, op: Op): (r: (nat, Event))
    requires ValidSize(|contents|) && position <= |contents|
    ensures r.0 <= |contents|
  {
    match op
    case Read(length) =>
      if position == |contents| then (position, EndOfFile) else
      var end := Min(position + length, |contents|);
      (end, Data(contents[position..end]))
    case Seek(offset, whence) =>
      var d := Destination(kind, |contents|, position, offset, whence);
      (if d.Moved? then d.pos else position, SeekDone(d))
  }

  function FileRun(kind: Kind, contents: seq<byte>, position: nat, ops: seq<Op>): (r: (nat, seq<Event>))
    requires ValidSize(|contents|) && position <= |contents|
    ensures r.0 <= |contents| && |r.1| == |ops|
    decreases |ops|
  {
    if ops == [] then (position, []) else
    var (p, e) := FileStep(kind, contents, position, ops[0]);
    var (p', es) := FileRun(kind, contents, p, ops[1..]);
    (p', [e] + es)
  }

  /** The bytes a run of operations delivered, in order. */
  function Delivered(events: seq<Event>): seq<byte>
  {
    if events == [] then []
    else (if events[0].Data? then events[0].bytes else []) + Delivered(events[1..])
  }

  // ---------------------------------------------------------------------------------------------
  // How far the stream lags behind the position, computed from positions alone.

  function PositionAfter(kind: Kind, size: nat, position: nat, op: Op): (p: nat)
    requires ValidSize(size) && position <= size
    ensures p <= size
  {
    match op
    case Read(length) => Min(position + length, size)
    case Seek(offset, whence) =>
      var d := Destination(kind, size, position, offset, whence);
      if d.Moved? then d.pos else position
  }

  /** A seek to 0 or strictly backwards forgets the lag; a forward seek adds the distance jumped. */
  function LagAfter(kind: Kind, size: nat, position: nat, lag: nat, op: Op): nat
    requires ValidSize(size) && position <= size
  {
    if op.Read? || !Destination(kind, size, position, op.offset, op.whence).Moved? then lag else
    var p := PositionAfter(kind, size, position, op);
    if kind == Fixed || p == 0 || p < position then 0 else lag + (p - position)
  }

  /** Some read of at least one byte happens while the stream lags behind the position. */
  predicate ReadsWhileLagging(kind: Kind, size: nat, position: nat, lag: nat, ops: seq<Op>)
    requires ValidSize(size) && position <= size
    decreases |ops|
  {
    ops != [] &&
    ((ops[0].Read? && ops[0].length > 0 && position < size && lag > 0) ||
     ReadsWhileLagging(kind, size, PositionAfter(kind, size, position, ops[0]),
                       LagAfter(kind, size, position, lag, ops[0]), ops[1..]))
  }

  function FinalLag(kind: Kind, size: nat, position: nat, lag: nat, ops: seq<Op>): nat
    requires ValidSize(size) && position <= size
    decreases |ops|
  {
    if ops == [] then lag
    else FinalLag(kind, size, PositionAfter(kind, size, position, ops[0]),
                  LagAfter(kind, size, position, lag, ops[0]), ops[1..])
  }

  predicate ForwardSeek(kind: Kind, size: nat, position: nat, op: Op)
    requires ValidSize(size) && position <= size
  {
    op.Seek? && PositionAfter(kind, size, position, op) > position
  }

  predicate EverSeeksForward(kind: Kind, size: nat, position: nat, ops: seq<Op>)
    requires ValidSize(size) && position <= size
    decreases |ops|
  {
    ops != [] &&
    (ForwardSeek(kind, size, position, ops[0]) ||
     EverSeeksForward(kind, size, PositionAfter(kind, size, position, ops[0]), ops[1..]))
  }

  // ---------------------------------------------------------------------------------------------
  // Theorems

  ghost predicate ValidCursor(kind: Kind, size: nat, c: Cursor)
  {
    c.drawn <= c.position <= size && (kind == Fixed ==> c.drawn == c.position)
  }

  lemma StepFacts(kind: Kind, f: Stream, size: nat, c: Cursor, op: Op)
    requires ValidSize(size) && ValidCursor(kind, size, c)
    ensures var c' := Step(kind, f, size, c, op).0;
            && ValidCursor(kind, size, c')
            && c'.position == PositionAfter(kind, size, c.position, op)
            && c'.position - c'.drawn == LagAfter(kind, size, c.position, c.position - c.drawn, op)
            && c'.position == FileStep(kind, Slice(f, 0, size), c.position, op).0
  {
  }

  /**
   Conservation over every run: bytes drawn plus the forward jumps since the last rewind is the
   position, and the position is the one the reference file would have.
   */
  lemma {:induction false} LagIsConserved(kind: Kind, f: Stream, size: nat, c: Cursor, ops: seq<Op>)
    requires ValidSize(size) && ValidCursor(kind, size, c)
    ensures ValidCursor(kind, size, Run(kind, f, size, c, ops).0)
    ensures var c' := Run(kind, f, size, c, ops).0;
            c'.drawn + FinalLag(kind, size, c.position, c.position - c.drawn, ops) == c'.position
    ensures Run(kind, f, size, c, ops).0.position == FileRun(kind, Slice(f, 0, size), c.position, ops).0
    decreases |ops|
  {
    if ops != [] {
      var c1 := Step(kind, f, size, c, ops[0]).0;
      StepFacts(kind, f, size, c, ops[0]);
      LagIsConserved(kind, f, size, c1, ops[1..]);
      assert Run(kind, f, size, c, ops).0 == Run(kind, f, size, c1, ops[1..]).0;
    }
  }

  /** One operation that reads nothing while lagging gives what the file gives. */
  lemma StepIsFileStep(kind: Kind, f: Stream, size: nat, c: Cursor, op: Op)
    requires ValidSize(size) && ValidCursor(kind, size, c)
    requires op.Read? && op.length > 0 && c.position < size ==> c.drawn == c.position
    ensures Step(kind, f, size, c, op).1 == FileStep(kind, Slice(f, 0, size), c.position, op).1
  {
    if op.Read? && c.position < size {
      var e, e' := Step(kind, f, size, c, op).1, FileStep(kind, Slice(f, 0, size), c.position, op).1;
      assert e.bytes == e'.bytes;
    }
  }

  /** As long as no byte is read while the stream lags, a reader is indistinguishable from the file. */
  lemma {:induction false} RefinesFile(kind: Kind, f: Stream, size: nat, c: Cursor, ops: seq<Op>)
    requires ValidSize(size) && ValidCursor(kind, size, c)
    requires !ReadsWhileLagging(kind, size, c.position, c.position - c.drawn, ops)
    ensures Run(kind, f, size, c, ops).1 == FileRun(kind, Slice(f, 0, size), c.position, ops).1
    decreases |ops|
  {
    if ops != [] {
      var c1 := Step(kind, f, size, c, ops[0]).0;
      StepFacts(kind, f, size, c, ops[0]);
      StepIsFileStep(kind, f, size, c, ops[0]);
      RefinesFile(kind, f, size, c1, ops[1..]);
    }
  }

  /** The stream that is 1 at position p and 0 elsewhere tells position p from every other one. */
  function Marker(p: nat): Stream
  {
    (i: nat) => if i == p then 1 else 0
  }

  lemma LaggingFirstRead(kind: Kind, size: nat, c: Cursor, ops: seq<Op>)
    requires ValidSize(size) && ValidCursor(kind, size, c) && c.drawn < c.position < size
    requires ops != [] && ops[0].Read? && ops[0].length > 0
    ensures Run(kind, Marker(c.position), size, c, ops).1
         != FileRun(kind, Slice(Marker(c.position), 0, size), c.position, ops).1
  {
    var f := Marker(c.position);
    var e := Step(kind, f, size, c, ops[0]).1;
    var e' := FileStep(kind, Slice(f, 0, size), c.position, ops[0]).1;
    assert e.bytes[0] == 0 && e'.bytes[0] == 1;
    assert Run(kind, f, size, c, ops).1[0] == e;
    assert FileRun(kind, Slice(f, 0, size), c.position, ops).1[0] == e';
  }

  lemma {:induction false} LaggingReadIsSeen(kind: Kind, size: nat, c: Cursor, ops: seq<Op>) returns (f: Stream)
    requires ValidSize(size) && ValidCursor(kind, size, c)
    requires ReadsWhileLagging(kind, size, c.position, c.position - c.drawn, ops)
    ensures Run(kind, f, size, c, ops).1 != FileRun(kind, Slice(f, 0, size), c.position, ops).1
    decreases |ops|
  {
    if ops[0].Read? && ops[0].length > 0 && c.drawn < c.position < size {
      LaggingFirstRead(kind, size, c, ops);
      f := Marker(c.position);
    } else {
      var c1 := Step(kind, Marker(0), size, c, ops[0]).0;
      StepFacts(kind, Marker(0), size, c, ops[0]);
      f := LaggingReadIsSeen(kind, size, c1, ops[1..]);
      StepFacts(kind, f, size, c, ops[0]);
      RunTail(kind, f, size, c, ops);
    }
  }

  lemma RunTail(kind: Kind, f: Stream, size: nat, c: Cursor, ops: seq<Op>)
    requires ValidSize(size) && ValidCursor(kind, size, c) && ops != []
    ensures var c1 := Step(kind, f, size, c, ops[0]).0;
            && Run(kind, f, size, c, ops).1[1..] == Run(kind, f, size, c1, ops[1..]).1
            && FileRun(kind, Slice(f, 0, size), c.position, ops).1[1..]
            == FileRun(kind, Slice(f, 0, size), c1.position, ops[1..]).1
  {
    StepFacts(kind, f, size, c, ops[0]);
  }

  /**
   Exactly when a run of the random reader returns the bytes of the file it stands for, whatever
   the pseudo-random stream: when no byte is read while the stream lags behind the position.
   */
  lemma RefinesFileIff(kind: Kind, size: nat, c: Cursor, ops: seq<Op>)
    requires ValidSize(size) && ValidCursor(kind, size, c)
    ensures (forall f: Stream ::
               Run(kind, f, size, c, ops).1 == FileRun(kind, Slice(f, 0, size), c.position, ops).1)
            <==> !ReadsWhileLagging(kind, size, c.position, c.position - c.drawn, ops)
  {
    if ReadsWhileLagging(kind, size, c.position, c.position - c.drawn, ops) {
      var f := LaggingReadIsSeen(kind, size, c, ops);
    } else {
      forall f: Stream
        ensures Run(kind, f, size, c, ops).1 == FileRun(kind, Slice(f, 0, size), c.position, ops).1
      {
        RefinesFile(kind, f, size, c, ops);
      }
    }
  }

  /** Runs that never seek forward keep the stream aligned throughout. */
  lemma {:induction false} NoForwardSeekNoLag(kind: Kind, size: nat, position: nat, ops: seq<Op>)
    requires ValidSize(size) && position <= size
    requires !EverSeeksForward(kind, size, position, ops)
    ensures !ReadsWhileLagging(kind, size, position, 0, ops) && FinalLag(kind, size, position, 0, ops) == 0
    decreases |ops|
  {
    if ops != [] {
      NoForwardSeekNoLag(kind, size, PositionAfter(kind, size, position, ops[0]), ops[1..]);
    }
  }

  predicate EverRewinds(kind: Kind, size: nat, position: nat, ops: seq<Op>)
    requires ValidSize(size) && position <= size
    decreases |ops|
  {
    ops != [] &&
    (PositionAfter(kind, size, position, ops[0]) < position ||
     EverRewinds(kind, size, PositionAfter(kind, size, position, ops[0]), ops[1..]))
  }

  /** Once lost, alignment stays lost until the next seek to 0 or strictly backwards. */
  lemma {:induction false} LagSurvivesUntilRewind(size: nat, position: nat, lag: nat, ops: seq<Op>)
    requires ValidSize(size) && 0 < lag <= position <= size
    requires !EverRewinds(Random, size, position, ops)
    ensures FinalLag(Random, size, position, lag, ops) >= lag
    decreases |ops|
  {
    if ops != [] {
      LagSurvivesUntilRewind(size, PositionAfter(Random, size, position, ops[0]),
                             LagAfter(Random, size, position, lag, ops[0]), ops[1..]);
    }
  }

  // ---------------------------------------------------------------------------------------------
  // Replays

  function Reads(chunks: seq<nat>): (ops: seq<Op>)
    ensures |ops| == |chunks|
  {
    seq(|chunks|, i requires 0 <= i < |chunks| => Read(chunks[i]))
  }

  lemma DeliveredCons(e: Event, es: seq<Event>)
    ensures Delivered([e] + es) == (if e.Data? then e.bytes else []) + Delivered(es)
  {
    assert ([e] + es)[1..] == es;
  }

  lemma AlignedRead(f: Stream, size: nat, position: nat, length: nat)
    requires ValidSize(size) && position <= size
    ensures var (c, e) := ReadStep(f, size, Cursor(position, position), length);
            && c == Cursor(Min(position + length, size), Min(position + length, size))
            && (if e.Data? then e.bytes else []) == Slice(f, position, c.position)
  {
  }

  /** Reading in any chunks delivers exactly the bytes from the position on. */
  lemma {:induction false} DrainDelivers(kind: Kind, f: Stream, size: nat, position: nat, chunks: seq<nat>)
    requires ValidSize(size) && position <= size
    ensures Delivered(Run(kind, f, size, Cursor(position, position), Reads(chunks)).1)
         == Slice(f, position, Min(size, position + Sum(chunks)))
    decreases |chunks|
  {
    if chunks != [] {
      var (c1, e) := ReadStep(f, size, Cursor(position, position), chunks[0]);
      AlignedRead(f, size, position, chunks[0]);
      assert Reads(chunks)[0] == Read(chunks[0]) && Reads(chunks)[1..] == Reads(chunks[1..]);
      var es := Run(kind, f, size, c1, Reads(chunks[1..])).1;
      assert Run(kind, f, size, Cursor(position, position), Reads(chunks)).1 == [e] + es;
      DrainDelivers(kind, f, size, c1.position, chunks[1..]);
      DeliveredCons(e, es);
      SliceAppend(f, position, c1.position, Min(size, position + Sum(chunks)));
    }
  }

  lemma {:induction false} RunAppend(kind: Kind, f: Stream, size: nat, c: Cursor, xs: seq<Op>, ys: seq<Op>)
    requires ValidSize(size) && c.position <= size
    ensures Run(kind, f, size, c, xs + ys).0 == Run(kind, f, size, Run(kind, f, size, c, xs).0, ys).0
    decreases |xs|
  {
    if xs == [] {
      assert xs + ys == ys;
    } else {
      RunAppend(kind, f, size, Step(kind, f, size, c, xs[0]).0, xs[1..], ys);
      assert (xs + ys)[1..] == xs[1..] + ys;
    }
  }

  lemma RewindRealigns(kind: Kind, f: Stream, size: nat, before: seq<Op>)
    requires ValidSize(size)
    ensures Run(kind, f, size, Cursor(0, 0), before + [Seek(0, SeekStart)]).0 == Cursor(0, 0)
  {
    var c := Run(kind, f, size, Cursor(0, 0), before).0;
    RunAppend(kind, f, size, Cursor(0, 0), before, [Seek(0, SeekStart)]);
    assert Run(kind, f, size, c, [Seek(0, SeekStart)]).0 == Cursor(0, 0);
  }

  lemma ProbedCursor(kind: Kind, f: Stream, size: nat, before: seq<Op>, probes: seq<Op>)
    requires ValidSize(size) && FileRun(kind, Slice(f, 0, size), 0, probes).0 == 0
    ensures Run(kind, f, size, Cursor(0, 0), before + [Seek(0, SeekStart)] + probes).0 == Cursor(0, 0)
  {
    RewindRealigns(kind, f, size, before);
    RunAppend(kind, f, size, Cursor(0, 0), before + [Seek(0, SeekStart)], probes);
    LagIsConserved(kind, f, size, Cursor(0, 0), probes);
  }

  /**
   Every upload attempt sends the whole object. Whatever was read or sought before, rewinding to
   the start and letting the client probe with seeks of its own, reading to the end delivers the
   complete contents if the probes leave the reader at position 0.
   */
  lemma RewoundReaderReplaysContents(
    kind: Kind, f: Stream, size: nat, before: seq<Op>, probes: seq<Op>, chunks: seq<nat>)
    requires ValidSize(size) && Sum(chunks) >= size
    requires FileRun(kind, Slice(f, 0, size), 0, probes).0 == 0
    ensures var c1 := Run(kind, f, size, Cursor(0, 0), before + [Seek(0, SeekStart)] + probes).0;
            Delivered(Run(kind, f, size, c1, Reads(chunks)).1) == Slice(f, 0, size)
  {
    ProbedCursor(kind, f, size, before, probes);
    DrainDelivers(kind, f, size, 0, chunks);
  }

  /** The usual length probe (current, end, back) restores the position; from before the end it even realigns. */
  lemma LengthProbeIsHarmless(kind: Kind, f: Stream, size: nat, c: Cursor)
    requires ValidSize(size) && ValidCursor(kind, size, c)
    ensures var c' := Run(kind, f, size, c, [Seek(0, SeekCurrent), Seek(0, SeekEnd), Seek(c.position, SeekStart)]).0;
            && c'.position == c.position
            && (c.position < size ==> c'.drawn == c'.position)
            && (c.position == size > 0 ==> c' == c)
  {
    var ops := [Seek(0, SeekCurrent), Seek(0, SeekEnd), Seek(c.position, SeekStart)];
    var c1 := Step(kind, f, size, c, ops[0]).0;
    var c2 := Step(kind, f, size, c1, ops[1]).0;
    var c3 := Step(kind, f, size, c2, ops[2]).0;
    assert ops[1..] == [ops[1], ops[2]] && ops[1..][1..] == [ops[2]] && ops[1..][1..][1..] == [];
    assert Run(kind, f, size, c2, [ops[2]]).0 == c3;
    assert Run(kind, f, size, c1, [ops[1], ops[2]]).0 == c3;
  }
}
