/**
 Which multipart uploads are intact under every interleaving, for the bytes they are to store. Two
 goroutines that hold the semaphore together can shift each other's part by one byte in the shared
 reader; one at a time, an order that skips ahead shifts the parts of a random body.
 */
module Interleavings {
  import opened Basics
  import opened Streams
  import opened Readers
  import opened Multipart
  import opened MultipartProtocol
  import opened Reassembly
  import opened Schedules
  import Generator

  // ---------------------------------------------------------------------------------------------
  // What holds under any interleaving: the parts have the right lengths

  predicate SentLength(cfg: Config, g: Goroutine, i: nat, sent: seq<byte>)
    requires cfg.Valid() && i < cfg.N()
  {
    match g
    case Unspawned => sent == []
    case Acquiring => sent == []
    case Seeking => sent == []
    case Uploading(left) => |sent| + left == PartLength(cfg, i)
    case _ => g.Storing? || Stored(g) ==> |sent| == PartLength(cfg, i)
  }

  ghost predicate SentLengths(cfg: Config, s: State)
    requires cfg.Valid() && WellFormed(cfg, s)
  {
    forall i :: 0 <= i < cfg.N() ==> SentLength(cfg, s.gs[i], i, s.sent[i])
  }

  lemma StepKeepsLength(cfg: Config, s: State, a: Action, i: nat)
    requires cfg.Valid() && Inv(cfg, s) && Enabled(cfg, s, a) && i < cfg.N()
    requires SentLength(cfg, s.gs[i], i, s.sent[i])
    ensures SentLength(cfg, Next(cfg, s, a).gs[i], i, Next(cfg, s, a).sent[i])
  {
  }

  lemma {:induction false} RunKeepsLengths(cfg: Config, s: State, acts: seq<Action>, s': State)
    requires cfg.Valid() && Inv(cfg, s) && SentLengths(cfg, s) && Leads(cfg, s, acts, s')
    ensures WellFormed(cfg, s') && SentLengths(cfg, s')
    decreases |acts|
  {
    if acts != [] {
      forall i | 0 <= i < cfg.N()
        ensures SentLength(cfg, Next(cfg, s, acts[0]).gs[i], i, Next(cfg, s, acts[0]).sent[i])
      {
        StepKeepsLength(cfg, s, acts[0], i);
      }
      StepInv(cfg, s, acts[0]);
      RunKeepsLengths(cfg, Next(cfg, s, acts[0]), acts[1..], s');
    }
  }

  /** Every completed upload consists of parts of the right lengths, whatever bytes they hold. */
  lemma DoneLengths(cfg: Config, start: Cursor, acts: seq<Action>, s: State)
    requires cfg.Valid() && start.position <= cfg.size && Done(cfg, start, acts, s)
    ensures |s.sent| == cfg.N() && HaveLengths(cfg.size, cfg.partSize, s.sent)
  {
    InitInv(cfg, start);
    RunKeepsLengths(cfg, Init(cfg, start), acts, s);
    OutcomeIsRight(cfg, start, acts, s);
    forall i | 0 <= i < cfg.N() ensures |s.sent[i]| == Length(cfg.size, cfg.partSize, i + 1) {
      assert s.gs[i] == Exited(true);
      assert SentLength(cfg, s.gs[i], i, s.sent[i]);
    }
  }

  // ---------------------------------------------------------------------------------------------
  // Objects of one repeated byte cannot be spoiled

  ghost predicate Constant(f: Stream, size: nat)
  {
    forall k :: 0 <= k < size ==> f(k) == f(0)
  }

  ghost predicate Only(b: byte, bytes: seq<byte>)
  {
    forall k :: 0 <= k < |bytes| ==> bytes[k] == b
  }

  lemma StepKeepsByte(cfg: Config, s: State, a: Action, i: nat)
    requires cfg.Valid() && WellFormed(cfg, s) && Enabled(cfg, s, a) && i < cfg.N()
    requires Constant(cfg.stream, cfg.size) && ValidCursor(cfg.kind, cfg.size, s.body)
    requires Only(cfg.stream(0), s.sent[i])
    ensures Only(cfg.stream(0), Next(cfg, s, a).sent[i])
  {
  }

  lemma {:induction false} RunKeepsByte(cfg: Config, s: State, acts: seq<Action>, s': State)
    requires cfg.Valid() && WellFormed(cfg, s) && Leads(cfg, s, acts, s')
    requires Constant(cfg.stream, cfg.size) && ValidCursor(cfg.kind, cfg.size, s.body)
    requires forall i :: 0 <= i < cfg.N() ==> Only(cfg.stream(0), s.sent[i])
    ensures WellFormed(cfg, s') && forall i :: 0 <= i < cfg.N() ==> Only(cfg.stream(0), s'.sent[i])
    decreases |acts|
  {
    if acts != [] {
      var s1 := Next(cfg, s, acts[0]);
      forall i | 0 <= i < cfg.N() ensures Only(cfg.stream(0), s1.sent[i]) {
        StepKeepsByte(cfg, s, acts[0], i);
      }
      assert [acts[0]][1..] == [];
      assert Leads(cfg, s, [acts[0]], s1);
      CursorStaysValid(cfg, s, [acts[0]], s1);
      RunKeepsByte(cfg, s1, acts[1..], s');
    }
  }

  lemma ConstantIsIntact(cfg: Config, start: Cursor, acts: seq<Action>, s: State)
    requires cfg.Valid() && ValidCursor(cfg.kind, cfg.size, start)
    requires Constant(cfg.stream, cfg.size) && Done(cfg, start, acts, s)
    ensures Flatten(s.sent) == Slice(cfg.stream, 0, cfg.size)
  {
    RunKeepsByte(cfg, Init(cfg, start), acts, s);
    DoneLengths(cfg, start, acts, s);
    var whole := Flatten(s.sent);
    WholeLength(cfg.size, cfg.partSize, s.sent);
    forall index: nat | index < cfg.size ensures whole[index] == cfg.stream(index) {
      var q := EveryByteInExactlyOnePart(cfg.size, cfg.partSize, index);
      ConcatenationAt(cfg.size, cfg.partSize, s.sent, q, index);
      assert Only(cfg.stream(0), s.sent[q - 1]);
    }
  }

  // ---------------------------------------------------------------------------------------------
  // Two holders: goroutines p and p + 1 share the reader

  /** States that differ in nothing the main goroutine looks at. */
  predicate SameElsewhere(s: State, s': State)
  {
    s'.wg == s.wg && s'.phase == s.phase && s'.errs == s.errs && s'.closed == s.closed
  }

  /** Both hold the semaphore, and each still has to read the given number of bytes. */
  predicate Pair(s: State, gs: seq<Goroutine>, p: nat, first: nat, second: nat)
    requires p + 1 < |gs|
  {
    s.gs == gs[p + 1 := Uploading(second)][p := Uploading(first)] && s.sem == 2
  }

  /** Goroutine p + 1 seeks to its offset, then goroutine p takes the reader back to its own, which realigns it. */
  lemma BothSeek(cfg: Config, s: State, p: nat) returns (acts: seq<Action>, s': State)
    requires cfg.Valid() && cfg.maxConcurrency >= 2 && p + 1 < cfg.N()
    requires WellFormed(cfg, s) && s.sem == 0 && s.gs[p].Acquiring? && s.gs[p + 1].Acquiring?
    ensures Leads(cfg, s, acts, s') && WellFormed(cfg, s') && SameElsewhere(s, s') && s'.sent == s.sent
    ensures Pair(s', s.gs, p, PartLength(cfg, p), PartLength(cfg, p + 1))
    ensures s'.body == Cursor(PartOffset(cfg, p), PartOffset(cfg, p))
  {
    hide Leads, Enabled, Next;
    var xs, s1 := AcquireAndSeek(cfg, s, p + 1);
    var ys;
    ys, s' := AcquireAndSeek(cfg, s1, p);
    LeadsAppend(cfg, s, xs, s1, ys, s');
    acts := xs + ys;
    PairLayout(cfg, p);
    SoughtBack(cfg, s1.body, p);
  }

  lemma SoughtBack(cfg: Config, c: Cursor, p: nat)
    requires cfg.Valid() && p < cfg.N() && c.position <= cfg.size
    requires cfg.kind == Fixed || PartOffset(cfg, p) == 0 || PartOffset(cfg, p) < c.position
    ensures Sought(cfg, c, p) == Cursor(PartOffset(cfg, p), PartOffset(cfg, p))
  {
    OffsetsAreReachable(cfg.kind, cfg.size, cfg.partSize, p + 1, c.position);
  }

  /** One of the two reads count bytes. */
  lemma PairRead(cfg: Config, s: State, gs: seq<Goroutine>, p: nat, first: nat, second: nat, later: bool, count: nat)
    returns (acts: seq<Action>, s': State)
    requires cfg.Valid() && p + 1 < cfg.N() == |gs| && WellFormed(cfg, s) && Pair(s, gs, p, first, second)
    requires count <= (if later then second else first) && s.body.position + count <= cfg.size
    ensures Leads(cfg, s, acts, s') && WellFormed(cfg, s') && SameElsewhere(s, s')
    ensures later ==> Pair(s', gs, p, first, second - count)
    ensures !later ==> Pair(s', gs, p, first - count, second)
    ensures s'.body == Advance(s.body, count)
    ensures var i := if later then p + 1 else p;
            s'.sent == s.sent[i := s.sent[i] + Slice(cfg.stream, s.body.drawn, s.body.drawn + count)]
  {
    var i := if later then p + 1 else p;
    acts := ReadSome(cfg, s, i, count);
    s' := AfterRead(cfg, s, i, count);
    if later {
      assert s'.gs == gs[p + 1 := Uploading(second - count)][p := Uploading(first)];
    } else {
      assert s'.gs == gs[p + 1 := Uploading(second)][p := Uploading(first - count)];
    }
  }

  /** One of the two reads a bytes, then the other one reads b. */
  lemma TwoReads(cfg: Config, s: State, gs: seq<Goroutine>, p: nat, first: nat, second: nat, later: bool, a: nat, b: nat)
    returns (acts: seq<Action>, s': State)
    requires cfg.Valid() && p + 1 < cfg.N() == |gs| && WellFormed(cfg, s) && Pair(s, gs, p, first, second)
    requires a <= (if later then second else first) && b <= (if later then first else second)
    requires s.body.position + a + b <= cfg.size && s.sent[if later then p else p + 1] == []
    ensures Leads(cfg, s, acts, s') && WellFormed(cfg, s') && SameElsewhere(s, s')
    ensures later ==> Pair(s', gs, p, first - b, second - a)
    ensures !later ==> Pair(s', gs, p, first - a, second - b)
    ensures s'.body == Advance(s.body, a + b)
    ensures s'.sent[if later then p else p + 1] == Slice(cfg.stream, s.body.drawn + a, s.body.drawn + a + b)
  {
    hide Leads, Enabled, Next;
    var xs, s1 := PairRead(cfg, s, gs, p, first, second, later, a);
    var ys;
    ys, s' := PairRead(cfg, s1, gs, p, if later then first else first - a, if later then second - a else second, !later, b);
    LeadsAppend(cfg, s, xs, s1, ys, s');
    acts := xs + ys;
    assert s'.sent[if later then p else p + 1] == [] + Slice(cfg.stream, s.body.drawn + a, s.body.drawn + a + b);
  }

  /** Parts p + 1 and p + 2, which goroutines p and p + 1 upload, are adjacent and not empty. */
  lemma PairLayout(cfg: Config, p: nat)
    requires cfg.Valid() && p + 1 < cfg.N()
    ensures PartLength(cfg, p) > 0 && PartLength(cfg, p + 1) > 0
    ensures PartOffset(cfg, p) + PartLength(cfg, p) == PartOffset(cfg, p + 1)
    ensures PartOffset(cfg, p + 1) + PartLength(cfg, p + 1) <= cfg.size
  {
    PartsPartition(cfg.size, cfg.partSize, p + 1);
    PartsPartition(cfg.size, cfg.partSize, p + 2);
  }

  /** Goroutine p + 1 takes the first byte of part p, which then ends one byte too late. */
  lemma StealFirst(cfg: Config, s: State, gs: seq<Goroutine>, p: nat, o: nat, l: nat, l': nat)
    returns (acts: seq<Action>, s': State)
    requires cfg.Valid() && p + 1 < cfg.N() == |gs| && WellFormed(cfg, s) && Pair(s, gs, p, l, l')
    requires l' > 0 && o + l + l' <= cfg.size && s.body == Cursor(o, o) && s.sent[p] == []
    ensures Leads(cfg, s, acts, s') && WellFormed(cfg, s') && SameElsewhere(s, s') && Pair(s', gs, p, 0, 0)
    ensures s'.sent[p] == Slice(cfg.stream, o + 1, o + 1 + l)
  {
    hide Leads, Enabled, Next, Pair, NumParts, Slice;
    var xs, s1 := TwoReads(cfg, s, gs, p, l, l', true, 1, l);
    var ys;
    ys, s' := PairRead(cfg, s1, gs, p, 0, l' - 1, true, l' - 1);
    assert s'.sent[p] == s1.sent[p];
    LeadsAppend(cfg, s, xs, s1, ys, s');
    acts := xs + ys;
  }

  /** Goroutine p leaves the last byte of its part to goroutine p + 1, whose part then begins one byte too early. */
  lemma LeaveLast(cfg: Config, s: State, gs: seq<Goroutine>, p: nat, o: nat, l: nat, l': nat)
    returns (acts: seq<Action>, s': State)
    requires cfg.Valid() && p + 1 < cfg.N() == |gs| && WellFormed(cfg, s) && Pair(s, gs, p, l, l')
    requires l > 0 && o + l + l' <= cfg.size && s.body == Cursor(o, o) && s.sent[p + 1] == []
    ensures Leads(cfg, s, acts, s') && WellFormed(cfg, s') && SameElsewhere(s, s') && Pair(s', gs, p, 0, 0)
    ensures s'.sent[p + 1] == Slice(cfg.stream, o + l - 1, o + l - 1 + l')
  {
    hide Leads, Enabled, Next, Pair, NumParts, Slice;
    var xs, s1 := TwoReads(cfg, s, gs, p, l, l', false, l - 1, l');
    var ys;
    ys, s' := PairRead(cfg, s1, gs, p, 1, 0, false, 1);
    assert s'.sent[p + 1] == s1.sent[p + 1];
    LeadsAppend(cfg, s, xs, s1, ys, s');
    acts := xs + ys;
  }

  lemma WrapUpOne(cfg: Config, t: State, i: nat) returns (acts: seq<Action>, t': State)
    requires cfg.Valid() && WellFormed(cfg, t) && i < cfg.N() && t.gs[i] == Uploading(0) && t.sem > 0
    ensures Leads(cfg, t, acts, t') && WellFormed(cfg, t') && t'.gs == t.gs[i := Exited(true)] && t'.sent == t.sent
    ensures t'.sem == t.sem - 1 && t'.wg == t.wg - 1
    ensures t'.phase == t.phase && t'.errs == t.errs && t'.closed == t.closed
  {
    acts := WrapUp(cfg, t, i);
    t' := AfterWrapUp(cfg, t, i);
  }

  lemma WrapUpPair(cfg: Config, s: State, t: State, todo: seq<nat>, p: nat) returns (acts: seq<Action>, t': State)
    requires cfg.Valid() && p + 1 < cfg.N() && Ready(cfg, s, todo)
    requires |todo| >= 2 && todo[0] == p + 1 && todo[1] == p
    requires WellFormed(cfg, t) && Pair(t, s.gs, p, 0, 0) && SameElsewhere(s, t)
    ensures Leads(cfg, t, acts, t') && Ready(cfg, t', todo[2..]) && t'.sent == t.sent
  {
    var xs, t1 := WrapUpOne(cfg, t, p + 1);
    var ys;
    ys, t' := WrapUpOne(cfg, t1, p);
    LeadsAppend(cfg, t, xs, t1, ys, t');
    acts := xs + ys;
    TwoLess(cfg, s, t', todo, p);
  }

  lemma TwoLess(cfg: Config, s: State, t: State, todo: seq<nat>, p: nat)
    requires cfg.Valid() && p + 1 < cfg.N() && Ready(cfg, s, todo) && WellFormed(cfg, t)
    requires |todo| >= 2 && todo[0] == p + 1 && todo[1] == p
    requires t.gs == s.gs[p + 1 := Uploading(0)][p := Uploading(0)][p + 1 := Exited(true)][p := Exited(true)]
    requires t.sem == 0 && t.wg == s.wg - 2 && t.phase == s.phase && t.errs == s.errs && t.closed == s.closed
    ensures Ready(cfg, t, todo[2..])
  {
    var mid := s.(gs := s.gs[p + 1 := Exited(true)], wg := s.wg - 1);
    OneLess(cfg, s, mid, todo);
    assert t.gs == mid.gs[p := Exited(true)];
    OneLess(cfg, mid, t, todo[1..]);
    assert todo[1..][1..] == todo[2..];
  }

  /** What part of the pair the run spoils: part p a byte too late, or part p + 1 a byte too early. */
  ghost predicate Shifted(cfg: Config, sent: seq<seq<byte>>, p: nat, late: bool)
    requires cfg.Valid() && p + 1 < cfg.N() == |sent|
  {
    if late then sent[p] == Slice(cfg.stream, PartOffset(cfg, p) + 1, PartOffset(cfg, p) + 1 + PartLength(cfg, p))
    else PartOffset(cfg, p + 1) > 0 &&
         sent[p + 1]
         == Slice(cfg.stream, PartOffset(cfg, p + 1) - 1, PartOffset(cfg, p + 1) - 1 + PartLength(cfg, p + 1))
  }

  lemma ReadPair(cfg: Config, s: State, gs: seq<Goroutine>, p: nat, late: bool) returns (acts: seq<Action>, s': State)
    requires cfg.Valid() && p + 1 < cfg.N() == |gs| && WellFormed(cfg, s) && s.sent[p] == [] && s.sent[p + 1] == []
    requires Pair(s, gs, p, PartLength(cfg, p), PartLength(cfg, p + 1))
    requires s.body == Cursor(PartOffset(cfg, p), PartOffset(cfg, p))
    ensures Leads(cfg, s, acts, s') && WellFormed(cfg, s') && SameElsewhere(s, s') && Pair(s', gs, p, 0, 0)
    ensures Shifted(cfg, s'.sent, p, late)
  {
    PairLayout(cfg, p);
    var o, l, l' := PartOffset(cfg, p), PartLength(cfg, p), PartLength(cfg, p + 1);
    if late {
      acts, s' := StealFirst(cfg, s, gs, p, o, l, l');
    } else {
      acts, s' := LeaveLast(cfg, s, gs, p, o, l, l');
    }
  }

  lemma ShiftPair(cfg: Config, s: State, todo: seq<nat>, p: nat, late: bool) returns (acts: seq<Action>, s': State)
    requires cfg.Valid() && cfg.maxConcurrency >= 2 && p + 1 < cfg.N()
    requires Ready(cfg, s, todo) && |todo| >= 2 && todo[0] == p + 1 && todo[1] == p
    requires s.sent[p] == [] && s.sent[p + 1] == []
    ensures Leads(cfg, s, acts, s') && Ready(cfg, s', todo[2..]) && Shifted(cfg, s'.sent, p, late)
  {
    assert todo[0] in todo && todo[1] in todo;
    var xs, s1 := BothSeek(cfg, s, p);
    var ys, s2 := ReadPair(cfg, s1, s.gs, p, late);
    var zs;
    zs, s' := WrapUpPair(cfg, s, s2, todo, p);
    acts := LeadsThrice(cfg, s, xs, s1, ys, s2, zs, s');
  }

  /** The run in which goroutines p + 1 and p shift each other's part, and the other parts follow one at a time. */
  lemma ShiftedRun(cfg: Config, start: Cursor, p: nat, late: bool) returns (acts: seq<Action>, s: State)
    requires cfg.Valid() && cfg.maxConcurrency >= 2 && p + 1 < cfg.N()
    requires start.position <= cfg.size
    ensures Done(cfg, start, acts, s) && |s.sent| == cfg.N() && Shifted(cfg, s.sent, p, late)
  {
    var todo := [p + 1, p] + Missing(cfg.N(), [p + 1, p]);
    CompletedOrder(cfg.N(), [p + 1, p]);
    var s0, s1 := Init(cfg, start), Spawned(cfg, start, cfg.N());
    var xs := SpawnAll(cfg, start, cfg.N());
    SpawnedReady(cfg, start, todo);
    var ys, s2 := ShiftPair(cfg, s1, todo, p, late);
    var zs;
    zs, s := UploadAll(cfg, s2, todo[2..]);
    acts := LeadsThrice(cfg, s0, xs, s1, ys, s2, zs, s);
    assert todo[2..] == Missing(cfg.N(), [p + 1, p]);
    assert p in [p + 1, p] && p + 1 in [p + 1, p];
  }

  /** Two neighbouring bytes of an object that differ. */
  lemma FirstChange(f: Stream, size: nat) returns (j: nat)
    requires !Constant(f, size)
    ensures j + 1 < size && f(j) != f(j + 1)
  {
    j := 0;
    while f(j) == f(j + 1)
      invariant j < size && forall k :: 0 <= k <= j ==> f(k) == f(0)
      invariant exists k :: j < k < size && f(k) != f(0)
      decreases size - j
    {
      j := j + 1;
    }
  }

  lemma LatePartDiffers(cfg: Config, sent: seq<seq<byte>>, p: nat, j: nat)
    requires cfg.Valid() && p + 1 < cfg.N() == |sent| && HaveLengths(cfg.size, cfg.partSize, sent)
    requires Shifted(cfg, sent, p, true)
    requires Covers(cfg.size, cfg.partSize, p + 1, j) && j < cfg.size && cfg.stream(j) != cfg.stream(j + 1)
    ensures Flatten(sent) != Slice(cfg.stream, 0, cfg.size)
  {
    var o := PartOffset(cfg, p);
    if SameBytes(cfg.stream, o, o + 1, PartLength(cfg, p)) {
      SameByteAt(cfg.stream, o, o + 1, PartLength(cfg, p), j - o);
      assert false;
    }
    MisplacedPartDiffers(cfg, sent, p, o + 1);
  }

  lemma EarlyPartDiffers(cfg: Config, sent: seq<seq<byte>>, p: nat, j: nat)
    requires cfg.Valid() && p + 1 < cfg.N() == |sent| && HaveLengths(cfg.size, cfg.partSize, sent)
    requires Shifted(cfg, sent, p, false)
    requires Covers(cfg.size, cfg.partSize, p + 2, j + 1) && j + 1 < cfg.size && cfg.stream(j) != cfg.stream(j + 1)
    ensures Flatten(sent) != Slice(cfg.stream, 0, cfg.size)
  {
    var o := PartOffset(cfg, p + 1);
    if SameBytes(cfg.stream, o, o - 1, PartLength(cfg, p + 1)) {
      SameByteAt(cfg.stream, o, o - 1, PartLength(cfg, p + 1), j + 1 - o);
      assert false;
    }
    MisplacedPartDiffers(cfg, sent, p + 1, o - 1);
  }

  /**
   With two holders an upload of two or more parts is spoiled by some run as soon as its bytes are not
   all the same, whichever the reader and wherever it stands.
   */
  lemma TwoHoldersCanCorrupt(cfg: Config, start: Cursor) returns (acts: seq<Action>, s: State)
    requires cfg.Valid() && cfg.maxConcurrency >= 2 && cfg.N() >= 2
    requires start.position <= cfg.size && !Constant(cfg.stream, cfg.size)
    ensures Done(cfg, start, acts, s) && Flatten(s.sent) != Slice(cfg.stream, 0, cfg.size)
  {
    var n := cfg.N();
    var j := FirstChange(cfg.stream, cfg.size);
    var q := EveryByteInExactlyOnePart(cfg.size, cfg.partSize, j);
    if q < n {
      acts, s := ShiftedRun(cfg, start, q - 1, true);
      DoneLengths(cfg, start, acts, s);
      LatePartDiffers(cfg, s.sent, q - 1, j);
    } else {
      PartsPartition(cfg.size, cfg.partSize, n);
      assert Covers(cfg.size, cfg.partSize, q, j);
      acts, s := ShiftedRun(cfg, start, n - 2, false);
      DoneLengths(cfg, start, acts, s);
      EarlyPartDiffers(cfg, s.sent, n - 2, j);
    }
  }

  // ---------------------------------------------------------------------------------------------
  // One holder on a random body: where the lag of a part can come from

  /** The stream repeats itself: the same n bytes from a and from b on. */
  predicate SameBytes(f: Stream, a: nat, b: nat, n: nat)
  {
    Slice(f, a, a + n) == Slice(f, b, b + n)
  }

  lemma SameByteAt(f: Stream, a: nat, b: nat, n: nat, i: nat)
    requires SameBytes(f, a, b, n) && i < n
    ensures f(a + i) == f(b + i)
  {
    assert Slice(f, a, a + n)[i] == Slice(f, b, b + n)[i];
  }

  lemma DifferentByte(f: Stream, a: nat, b: nat, n: nat) returns (i: nat)
    requires !SameBytes(f, a, b, n)
    ensures i < n && f(a + i) != f(b + i)
  {
    var x, y := Slice(f, a, a + n), Slice(f, b, b + n);
    i :| 0 <= i < n && x[i] != y[i];
  }

  /** How the reader got to a part: aligned, past m parts skipped after a rewind, or from where it started, t parts before. */
  datatype Origin = Rewound | Skipped(m: nat) | Entered(t: nat)

  ghost predicate Explains(cfg: Config, start: Cursor, o: Origin, q: nat, lag: int)
    requires cfg.Valid()
  {
    match o
    case Rewound => lag == 0
    case Skipped(m) => 1 <= m < q && lag == m * cfg.partSize
    case Entered(t) =>
      t < q && PartOffset(cfg, q - t) >= start.position && lag == PartOffset(cfg, q) - start.drawn - t * cfg.partSize
  }

  lemma FirstOrigin(cfg: Config, start: Cursor, q: nat) returns (o: Origin)
    requires cfg.Valid() && cfg.kind == Random && ValidCursor(Random, cfg.size, start) && q < cfg.N()
    ensures Explains(cfg, start, o, q, Lag(Sought(cfg, start, q)))
  {
    OffsetsAreReachable(cfg.kind, cfg.size, cfg.partSize, q + 1, start.position);
    PartsPartition(cfg.size, cfg.partSize, q + 1);
    o := if PartOffset(cfg, q) == 0 || PartOffset(cfg, q) < start.position then Rewound else Entered(0);
  }

  /** Behind part l, a part after it is reached by skipping the parts between. */
  lemma SkipLag(cfg: Config, c: Cursor, l: nat, q: nat)
    requires cfg.Valid() && cfg.kind == Random && l < cfg.N() && q < cfg.N()
    requires c.position == PartOffset(cfg, l) + PartLength(cfg, l) <= cfg.size
    ensures q <= l ==> Lag(Sought(cfg, c, q)) == 0
    ensures q > l ==> Lag(Sought(cfg, c, q)) == Lag(c) + (q - l - 1) * cfg.partSize
  {
    OffsetsAreReachable(cfg.kind, cfg.size, cfg.partSize, q + 1, c.position);
    PartsPartition(cfg.size, cfg.partSize, l + 1);
    if q <= l {
      OffsetMonotone(cfg.partSize, q + 1, l + 1);
    } else {
      OffsetMonotone(cfg.partSize, l + 2, q + 1);
      PartsPartition(cfg.size, cfg.partSize, q + 1);
    }
  }

  lemma NextOrigin(cfg: Config, start: Cursor, o: Origin, l: nat, lag: int, q: nat) returns (o': Origin)
    requires cfg.Valid() && l < q && Explains(cfg, start, o, l, lag)
    ensures Explains(cfg, start, o', q, lag + (q - l - 1) * cfg.partSize)
  {
    var d := q - l - 1;
    match o {
      case Rewound =>
        o' := if d == 0 then Rewound else Skipped(d);
      case Skipped(m) =>
        o' := Skipped(m + d);
        assert (m + d) * cfg.partSize == m * cfg.partSize + d * cfg.partSize;
      case Entered(t) =>
        o' := Entered(t + 1);
        OffsetMonotone(cfg.partSize, l + 1, q + 1);
        OffsetMonotone(cfg.partSize, l - t + 1, q - t);
        assert (q - l) * cfg.partSize == d * cfg.partSize + cfg.partSize;
        assert (t + 1) * cfg.partSize == t * cfg.partSize + cfg.partSize;
    }
  }

  /** Every lag that an order of the parts leads to has one of these origins. */
  lemma {:induction false} LagOrigin(cfg: Config, start: Cursor, order: seq<nat>) returns (o: Origin)
    requires cfg.Valid() && cfg.kind == Random && ValidCursor(Random, cfg.size, start)
    requires order != [] && ValidOrder(cfg, order)
    ensures Explains(cfg, start, o, order[|order| - 1], Lag(SoughtLast(cfg, start, order)))
    decreases |order|
  {
    var front, q := order[..|order| - 1], order[|order| - 1];
    assert order == front + [q];
    SoughtLastUnfolds(cfg, start, front, q);
    if front == [] {
      o := FirstOrigin(cfg, start, q);
    } else {
      var l, c := front[|front| - 1], AfterSerial(cfg, start, front);
      AfterSerialFacts(cfg, start, front);
      SkipLag(cfg, c, l, q);
      if q <= l {
        o := Rewound;
      } else {
        var o1 := LagOrigin(cfg, start, front);
        o := NextOrigin(cfg, start, o1, l, Lag(c), q);
      }
    }
  }

  /**
   No lag that can arise changes a byte: parts repeat after the first one, and every part that can be
   entered without a rewind repeats what the source still has to deliver.
   */
  ghost predicate Harmless(cfg: Config, start: Cursor)
    requires cfg.Valid()
  {
    && (forall q: nat :: 2 <= q < cfg.N() ==> RepeatsPrevious(cfg, q))
    && (forall q: nat, t: nat :: t < q < cfg.N() ==> RepeatsEntry(cfg, start, q, t))
  }

  predicate RepeatsPrevious(cfg: Config, q: nat)
    requires cfg.Valid() && 1 <= q < cfg.N()
  {
    SameBytes(cfg.stream, PartOffset(cfg, q), PartOffset(cfg, q - 1), PartLength(cfg, q))
  }

  /** Part q repeats what it would get when t parts before it are read from the start's source. */
  predicate RepeatsEntry(cfg: Config, start: Cursor, q: nat, t: nat)
    requires cfg.Valid() && t < q < cfg.N()
  {
    PartOffset(cfg, q - t) >= start.position ==>
      SameBytes(cfg.stream, PartOffset(cfg, q), start.drawn + t * cfg.partSize, PartLength(cfg, q))
  }

  lemma SameBytesTrans(f: Stream, a: nat, b: nat, c: nat, m: nat, n: nat)
    requires SameBytes(f, a, b, m) && SameBytes(f, b, c, n) && m <= n
    ensures SameBytes(f, a, c, m)
  {
    if !SameBytes(f, a, c, m) {
      var i := DifferentByte(f, a, c, m);
      SameByteAt(f, a, b, m, i);
      SameByteAt(f, b, c, n, i);
      assert false;
    }
  }

  lemma LengthsDescend(cfg: Config, q: nat)
    requires cfg.Valid() && 1 <= q < cfg.N()
    ensures PartLength(cfg, q) <= PartLength(cfg, q - 1) == cfg.partSize
    ensures PartOffset(cfg, q) == PartOffset(cfg, q - 1) + cfg.partSize
  {
    PartsPartition(cfg.size, cfg.partSize, q);
    PartsPartition(cfg.size, cfg.partSize, q + 1);
  }

  lemma {:induction false} SkippedRepeats(cfg: Config, q: nat, m: nat)
    requires cfg.Valid() && m < q < cfg.N()
    requires forall r: nat :: 2 <= r < cfg.N() ==> RepeatsPrevious(cfg, r)
    ensures PartOffset(cfg, q) == PartOffset(cfg, q - m) + m * cfg.partSize
    ensures SameBytes(cfg.stream, PartOffset(cfg, q), PartOffset(cfg, q - m), PartLength(cfg, q))
    decreases m
  {
    OffsetMonotone(cfg.partSize, q - m + 1, q + 1);
    if m > 0 {
      SkippedRepeats(cfg, q - 1, m - 1);
      LengthsDescend(cfg, q);
      assert RepeatsPrevious(cfg, q);
      SameBytesTrans(cfg.stream, PartOffset(cfg, q), PartOffset(cfg, q - 1), PartOffset(cfg, q - m),
                     PartLength(cfg, q), PartLength(cfg, q - 1));
    }
  }

  lemma HarmlessLag(cfg: Config, start: Cursor, o: Origin, q: nat, lag: nat)
    requires cfg.Valid() && q < cfg.N() && Harmless(cfg, start) && Explains(cfg, start, o, q, lag)
    requires lag <= PartOffset(cfg, q)
    ensures SameBytes(cfg.stream, PartOffset(cfg, q), PartOffset(cfg, q) - lag, PartLength(cfg, q))
  {
    match o {
      case Rewound =>
      case Skipped(m) => SkippedRepeats(cfg, q, m);
      case Entered(t) =>
        assert RepeatsEntry(cfg, start, q, t);
    }
  }

  /** Parts that are what they should be, for whatever reason, make up the object. */
  lemma RightPartsAssemble(cfg: Config, sent: seq<seq<byte>>)
    requires cfg.Valid() && |sent| == cfg.N()
    requires forall q :: 0 <= q < cfg.N() ==>
               sent[q] == Slice(cfg.stream, PartOffset(cfg, q), PartOffset(cfg, q) + PartLength(cfg, q))
    ensures Flatten(sent) == Slice(cfg.stream, 0, cfg.size)
  {
    assert HaveLengths(cfg.size, cfg.partSize, sent);
    var whole := Flatten(sent);
    WholeLength(cfg.size, cfg.partSize, sent);
    forall index: nat | index < cfg.size ensures whole[index] == cfg.stream(index) {
      var q := EveryByteInExactlyOnePart(cfg.size, cfg.partSize, index);
      ConcatenationAt(cfg.size, cfg.partSize, sent, q, index);
      assert sent[q - 1] == Slice(cfg.stream, PartOffset(cfg, q - 1), PartOffset(cfg, q - 1) + PartLength(cfg, q - 1));
    }
  }

  lemma SkewOrigin(cfg: Config, start: Cursor, acts: seq<Action>, s: State, q: nat) returns (o: Origin)
    requires cfg.Valid() && cfg.kind == Random && ValidCursor(Random, cfg.size, start)
    requires DoneAtomically(cfg, start, acts, s) && q < cfg.N()
    ensures |s.skew| == cfg.N() && Explains(cfg, start, o, q, s.skew[q])
  {
    DoneOrder(cfg, start, acts, s);
    o := OrderOrigin(cfg, start, s.order, s.skew, q);
  }

  lemma OrderOrigin(cfg: Config, start: Cursor, order: seq<nat>, skew: seq<nat>, q: nat) returns (o: Origin)
    requires cfg.Valid() && cfg.kind == Random && ValidCursor(Random, cfg.size, start)
    requires ValidOrder(cfg, order) && |skew| == cfg.N() && q < cfg.N() && q in order
    requires forall j :: 0 <= j < |order| ==> skew[order[j]] == LagAt(cfg, start, order, j)
    ensures Explains(cfg, start, o, q, skew[q])
  {
    var j :| 0 <= j < |order| && order[j] == q;
    o := LagOrigin(cfg, start, order[..j + 1]);
    assert skew[order[j]] == LagAt(cfg, start, order, j);
  }

  lemma HarmlessPart(cfg: Config, start: Cursor, acts: seq<Action>, s: State, q: nat)
    requires cfg.Valid() && cfg.kind == Random && ValidCursor(Random, cfg.size, start) && Harmless(cfg, start)
    requires DoneAtomically(cfg, start, acts, s) && q < cfg.N()
    ensures |s.sent| == cfg.N()
    ensures s.sent[q] == Slice(cfg.stream, PartOffset(cfg, q), PartOffset(cfg, q) + PartLength(cfg, q))
  {
    hide Harmless, Explains, AtomicReads, Leads, Enabled, Next;
    var o := SkewOrigin(cfg, start, acts, s, q);
    DonePart(cfg, start, acts, s, q);
    HarmlessLag(cfg, start, o, q, s.skew[q]);
  }

  lemma HarmlessIsIntact(cfg: Config, start: Cursor, acts: seq<Action>, s: State)
    requires cfg.Valid() && cfg.kind == Random && ValidCursor(Random, cfg.size, start) && Harmless(cfg, start)
    requires DoneAtomically(cfg, start, acts, s)
    ensures Flatten(s.sent) == Slice(cfg.stream, 0, cfg.size)
  {
    DoneLengths(cfg, start, acts, s);
    forall q | 0 <= q < cfg.N()
      ensures s.sent[q] == Slice(cfg.stream, PartOffset(cfg, q), PartOffset(cfg, q) + PartLength(cfg, q))
    {
      HarmlessPart(cfg, start, acts, s, q);
    }
    RightPartsAssemble(cfg, s.sent);
  }

  // ---------------------------------------------------------------------------------------------
  // And each of these lags does arise

  /** t parts from part f on. */
  function From(f: nat, t: nat): (parts: seq<nat>)
    ensures |parts| == t && forall j :: 0 <= j < t ==> parts[j] == f + j
  {
    seq(t, j requires 0 <= j => f + j)
  }

  /** Uploading t parts in a row draws t part sizes. */
  lemma {:induction false} Climb(cfg: Config, start: Cursor, f: nat, t: nat)
    requires cfg.Valid() && cfg.kind == Random && ValidCursor(Random, cfg.size, start) && t >= 1 && f + t < cfg.N()
    ensures ValidOrder(cfg, From(f, t))
    ensures AfterSerial(cfg, start, From(f, t))
         == Cursor(Sought(cfg, start, f).drawn + t * cfg.partSize, PartOffset(cfg, f + t))
    decreases t
  {
    var l := f + t - 1;
    assert From(f, t) == From(f, t - 1) + [l];
    AfterSerialUnfolds(cfg, start, From(f, t - 1), l);
    LengthsDescend(cfg, l + 1);
    if t == 1 {
      assert From(f, 0) == [];
      assert 1 * cfg.partSize == cfg.partSize;
    } else {
      Climb(cfg, start, f, t - 1);
      SoughtNext(cfg, AfterSerial(cfg, start, From(f, t - 1)), l);
      assert t * cfg.partSize == (t - 1) * cfg.partSize + cfg.partSize;
    }
  }

  lemma AfterSerialUnfolds(cfg: Config, start: Cursor, front: seq<nat>, l: nat)
    requires cfg.Valid() && start.position <= cfg.size && ValidOrder(cfg, front) && l < cfg.N()
    ensures ValidOrder(cfg, front + [l])
    ensures AfterSerial(cfg, start, front + [l]) == Advance(Sought(cfg, AfterSerial(cfg, start, front), l), PartLength(cfg, l))
  {
    SoughtLastUnfolds(cfg, start, front, l);
  }

  /** A forward seek leaves the source where it is. */
  lemma SoughtNext(cfg: Config, c: Cursor, l: nat)
    requires cfg.Valid() && cfg.kind == Random && 1 <= l < cfg.N() && c.position <= PartOffset(cfg, l)
    ensures c.position <= cfg.size && Sought(cfg, c, l) == Cursor(c.drawn, PartOffset(cfg, l))
  {
    PartsPartition(cfg.size, cfg.partSize, l + 1);
    OffsetsAreReachable(cfg.kind, cfg.size, cfg.partSize, l + 1, c.position);
  }

  /** An order that begins with the given parts and misreads the last of them spoils the object. */
  lemma MisreadSpoils(cfg: Config, start: Cursor, chosen: seq<nat>) returns (acts: seq<Action>, s: State)
    requires cfg.Valid() && cfg.kind == Random && ValidCursor(Random, cfg.size, start) && cfg.maxConcurrency >= 1
    requires chosen != [] && ValidOrder(cfg, chosen)
    requires forall j, k :: 0 <= j < k < |chosen| ==> chosen[j] != chosen[k]
    requires var q := chosen[|chosen| - 1];
             !SameBytes(cfg.stream, PartOffset(cfg, q), SoughtLast(cfg, start, chosen).drawn, PartLength(cfg, q))
    ensures Done(cfg, start, acts, s) && Flatten(s.sent) != Slice(cfg.stream, 0, cfg.size)
  {
    var order := chosen + Missing(cfg.N(), chosen);
    CompletedOrder(cfg.N(), chosen);
    acts, s := EveryOrderCanHappen(cfg, start, order);
    MisreadIsSeen(cfg, start, acts, s, |chosen|);
  }

  lemma MisreadIsSeen(cfg: Config, start: Cursor, acts: seq<Action>, s: State, m: nat)
    requires cfg.Valid() && cfg.kind == Random && ValidCursor(Random, cfg.size, start)
    requires DoneAtomically(cfg, start, acts, s) && 1 <= m <= |s.order| && ValidOrder(cfg, s.order)
    requires var q := s.order[m - 1];
             !SameBytes(cfg.stream, PartOffset(cfg, q), SoughtLast(cfg, start, s.order[..m]).drawn, PartLength(cfg, q))
    ensures Flatten(s.sent) != Slice(cfg.stream, 0, cfg.size)
  {
    hide AtomicReads, Leads, Enabled, Next;
    var q := s.order[m - 1];
    DoneLengths(cfg, start, acts, s);
    DoneOrder(cfg, start, acts, s);
    DonePart(cfg, start, acts, s, q);
    assert s.skew[q] == LagAt(cfg, start, s.order, m - 1);
    MisplacedPartDiffers(cfg, s.sent, q, SoughtLast(cfg, start, s.order[..m]).drawn);
  }

  lemma MisplacedPartDiffers(cfg: Config, sent: seq<seq<byte>>, q: nat, from: nat)
    requires cfg.Valid() && q < cfg.N() == |sent| && HaveLengths(cfg.size, cfg.partSize, sent)
    requires sent[q] == Slice(cfg.stream, from, from + PartLength(cfg, q))
    requires !SameBytes(cfg.stream, PartOffset(cfg, q), from, PartLength(cfg, q))
    ensures Flatten(sent) != Slice(cfg.stream, 0, cfg.size)
  {
    var i := DifferentByte(cfg.stream, PartOffset(cfg, q), from, PartLength(cfg, q));
    var index := PartOffset(cfg, q) + i;
    PartsPartition(cfg.size, cfg.partSize, q + 1);
    ConcatenationAt(cfg.size, cfg.partSize, sent, q + 1, index);
    assert Flatten(sent)[index] == cfg.stream(from + i);
    assert Slice(cfg.stream, 0, cfg.size)[index] == cfg.stream(index);
  }

  /** After t parts in a row from f on, a part at or behind the next one is read from where the source stands. */
  lemma JumpSpoils(cfg: Config, start: Cursor, f: nat, t: nat, q: nat) returns (acts: seq<Action>, s: State)
    requires cfg.Valid() && cfg.kind == Random && ValidCursor(Random, cfg.size, start) && cfg.maxConcurrency >= 1
    requires t >= 1 && f + t <= q < cfg.N()
    requires !SameBytes(cfg.stream, PartOffset(cfg, q), Sought(cfg, start, f).drawn + t * cfg.partSize, PartLength(cfg, q))
    ensures Done(cfg, start, acts, s) && Flatten(s.sent) != Slice(cfg.stream, 0, cfg.size)
  {
    var chosen := From(f, t) + [q];
    Climb(cfg, start, f, t);
    SoughtLastUnfolds(cfg, start, From(f, t), q);
    OffsetMonotone(cfg.partSize, f + t + 1, q + 1);
    SoughtNext(cfg, AfterSerial(cfg, start, From(f, t)), q);
    acts, s := MisreadSpoils(cfg, start, chosen);
  }

  lemma HarmfulSpoils(cfg: Config, start: Cursor) returns (acts: seq<Action>, s: State)
    requires cfg.Valid() && cfg.kind == Random && ValidCursor(Random, cfg.size, start) && cfg.maxConcurrency >= 1
    requires !Harmless(cfg, start)
    ensures Done(cfg, start, acts, s) && Flatten(s.sent) != Slice(cfg.stream, 0, cfg.size)
  {
    if q: nat :| 2 <= q < cfg.N() && !RepeatsPrevious(cfg, q) {
      SoughtBack(cfg, start, 0);
      acts, s := JumpSpoils(cfg, start, 0, q - 1, q);
    } else {
      var q: nat, t: nat :| t < q < cfg.N() && !RepeatsEntry(cfg, start, q, t);
      acts, s := EntrySpoils(cfg, start, q, t);
    }
  }

  lemma EntrySpoils(cfg: Config, start: Cursor, q: nat, t: nat) returns (acts: seq<Action>, s: State)
    requires cfg.Valid() && cfg.kind == Random && ValidCursor(Random, cfg.size, start) && cfg.maxConcurrency >= 1
    requires t < q < cfg.N() && !RepeatsEntry(cfg, start, q, t)
    ensures Done(cfg, start, acts, s) && Flatten(s.sent) != Slice(cfg.stream, 0, cfg.size)
  {
    SoughtNext(cfg, start, q - t);
    if t == 0 {
      assert [q][..0] == [];
      acts, s := MisreadSpoils(cfg, start, [q]);
    } else {
      acts, s := JumpSpoils(cfg, start, q - t, t, q);
    }
  }

  // ---------------------------------------------------------------------------------------------
  // The exact condition

  /** Every schedule that completes stores the object. */
  ghost predicate Intact(cfg: Config, start: Cursor)
    requires cfg.Valid() && start.position <= cfg.size
  {
    forall acts, s :: Done(cfg, start, acts, s) ==> Flatten(s.sent) == Slice(cfg.stream, 0, cfg.size)
  }

  /** A limit of 0 lets nothing complete that has parts. */
  lemma ZeroLimitIsIntact(cfg: Config, start: Cursor)
    requires cfg.Valid() && start.position <= cfg.size && cfg.maxConcurrency == 0 && cfg.N() > 0
    ensures Intact(cfg, start)
  {
    forall acts, s ensures !Done(cfg, start, acts, s) {
      ZeroLimitNeverDone(cfg, start, acts, s);
    }
  }

  lemma ZeroLimitNeverDone(cfg: Config, start: Cursor, acts: seq<Action>, s: State)
    requires cfg.Valid() && start.position <= cfg.size && cfg.maxConcurrency == 0 && cfg.N() > 0
    ensures !Done(cfg, start, acts, s)
  {
    NumPartsBounds(cfg.size, cfg.partSize);
    if Done(cfg, start, acts, s) {
      CanReturnIff(cfg, start);
      assert false;
    }
  }

  /** Nothing can go wrong one part at a time. */
  ghost predicate SerialSafe(cfg: Config, start: Cursor)
    requires cfg.Valid()
  {
    cfg.kind == Fixed || Harmless(cfg, start)
  }

  lemma SerialIsIntact(cfg: Config, start: Cursor)
    requires cfg.Valid() && ValidCursor(cfg.kind, cfg.size, start) && Exclusive(cfg) && SerialSafe(cfg, start)
    ensures Intact(cfg, start)
  {
    forall acts, s | Done(cfg, start, acts, s) ensures Flatten(s.sent) == Slice(cfg.stream, 0, cfg.size) {
      ExclusiveDone(cfg, start, acts, s);
      if cfg.kind == Fixed {
        CompletedObjectIsContents(cfg, start, acts, s);
      } else {
        HarmlessIsIntact(cfg, start, acts, s);
      }
    }
  }

  lemma ConstantsAreIntact(cfg: Config, start: Cursor)
    requires cfg.Valid() && ValidCursor(cfg.kind, cfg.size, start) && Constant(cfg.stream, cfg.size)
    ensures Intact(cfg, start)
  {
    forall acts, s | Done(cfg, start, acts, s) ensures Flatten(s.sent) == Slice(cfg.stream, 0, cfg.size) {
      ConstantIsIntact(cfg, start, acts, s);
    }
  }

  /**
   Exactly when a multipart upload stores the very bytes of its body under every interleaving, from
   any position an earlier attempt may have left the reader at: when nothing with parts completes,
   there is at most one part, all bytes are the same, or parts are read one at a time and the body is
   a fixed pattern or no lag that can arise changes a byte.
   */
  lemma IntactIff(cfg: Config, start: Cursor)
    requires cfg.Valid() && ValidCursor(cfg.kind, cfg.size, start)
    ensures Intact(cfg, start)
       <==> || cfg.maxConcurrency == 0 || cfg.N() <= 1 || Constant(cfg.stream, cfg.size)
            || (cfg.maxConcurrency == 1 && SerialSafe(cfg, start))
  {
    if Constant(cfg.stream, cfg.size) {
      ConstantsAreIntact(cfg, start);
    } else if cfg.N() <= 1 {
      SerialIsIntact(cfg, start);
    } else if cfg.maxConcurrency == 0 {
      ZeroLimitIsIntact(cfg, start);
    } else if cfg.maxConcurrency >= 2 {
      var acts, s := TwoHoldersCanCorrupt(cfg, start);
    } else if SerialSafe(cfg, start) {
      SerialIsIntact(cfg, start);
    } else {
      var acts, s := HarmfulSpoils(cfg, start);
    }
  }

  lemma Remainder(k: nat, m: nat)
    requires m > 0
    ensures 0 <= k % m <= k && (k < m ==> k % m == k)
  {
  }

  lemma ConstantPatternIff(pattern: seq<byte>, size: nat)
    requires pattern != []
    ensures Constant(Generator.Repeated(pattern), size)
       <==> forall i :: 0 <= i < Min(|pattern|, size) ==> pattern[i] == pattern[0]
  {
    var f := Generator.Repeated(pattern);
    forall k: nat | k < size ensures 0 <= k % |pattern| <= k && f(k) == pattern[k % |pattern|] {
      Remainder(k, |pattern|);
    }
    forall i: nat | i < |pattern| ensures f(i) == pattern[i] {
      Remainder(i, |pattern|);
    }
  }

  /** For a fixed pattern, in terms of the pattern. */
  lemma PatternIntactIff(cfg: Config, start: Cursor, pattern: seq<byte>)
    requires cfg.Valid() && cfg.kind == Fixed && ValidCursor(Fixed, cfg.size, start)
    requires pattern != [] && cfg.stream == Generator.Repeated(pattern)
    ensures Intact(cfg, start)
       <==> cfg.maxConcurrency <= 1 || cfg.N() <= 1
            || forall i :: 0 <= i < Min(|pattern|, cfg.size) ==> pattern[i] == pattern[0]
  {
    IntactIff(cfg, start);
    ConstantPatternIff(pattern, cfg.size);
  }

  // ---------------------------------------------------------------------------------------------
  // First attempts

  /** From the second part on every byte repeats the one a part size before. */
  ghost predicate Periodic(f: Stream, period: nat, size: nat)
  {
    forall x: nat :: period <= x < size ==> f(x) == f(x - period)
  }

  lemma {:induction false} PeriodicRepeats(cfg: Config, q: nat, t: nat)
    requires cfg.Valid() && t <= q < cfg.N() && Periodic(cfg.stream, cfg.partSize, cfg.size)
    ensures SameBytes(cfg.stream, PartOffset(cfg, q), PartOffset(cfg, t), PartLength(cfg, q))
    decreases q
  {
    if t < q {
      PeriodicRepeats(cfg, q - 1, t);
      LengthsDescend(cfg, q);
      SameBytesTrans(cfg.stream, PartOffset(cfg, q), PartOffset(cfg, q - 1), PartOffset(cfg, t),
                     PartLength(cfg, q), PartLength(cfg, q - 1));
    }
  }

  lemma PeriodicIsHarmless(cfg: Config)
    requires cfg.Valid() && Periodic(cfg.stream, cfg.partSize, cfg.size)
    ensures Harmless(cfg, Cursor(0, 0))
  {
    forall q: nat | 2 <= q < cfg.N() ensures RepeatsPrevious(cfg, q) {
      PeriodicRepeats(cfg, q, q - 1);
    }
    forall q: nat, t: nat | t < q < cfg.N() ensures RepeatsEntry(cfg, Cursor(0, 0), q, t) {
      PeriodicRepeats(cfg, q, t);
    }
  }

  lemma HarmlessIsPeriodic(cfg: Config)
    requires cfg.Valid() && Harmless(cfg, Cursor(0, 0))
    ensures Periodic(cfg.stream, cfg.partSize, cfg.size)
  {
    hide Harmless;
    forall x: nat | cfg.partSize <= x < cfg.size ensures cfg.stream(x) == cfg.stream(x - cfg.partSize) {
      var q := PartBehindFirst(cfg, x);
      HarmlessOneBack(cfg, q, x - PartOffset(cfg, q));
    }
  }

  /** The goroutine whose part holds a byte behind the first part. */
  lemma PartBehindFirst(cfg: Config, x: nat) returns (q: nat)
    requires cfg.Valid() && cfg.partSize <= x < cfg.size
    ensures 1 <= q < cfg.N() && PartOffset(cfg, q) <= x < PartOffset(cfg, q) + PartLength(cfg, q)
    ensures PartOffset(cfg, q) == cfg.partSize + (q - 1) * cfg.partSize && PartOffset(cfg, 1) == cfg.partSize
  {
    var part := EveryByteInExactlyOnePart(cfg.size, cfg.partSize, x);
    assert Covers(cfg.size, cfg.partSize, part, x);
    PartsPartition(cfg.size, cfg.partSize, part);
    q := part - 1;
  }

  lemma HarmlessOneBack(cfg: Config, q: nat, i: nat)
    requires cfg.Valid() && Harmless(cfg, Cursor(0, 0)) && 1 <= q < cfg.N() && i < PartLength(cfg, q)
    ensures PartOffset(cfg, q) >= cfg.partSize
    ensures cfg.stream(PartOffset(cfg, q) + i) == cfg.stream(PartOffset(cfg, q) + i - cfg.partSize)
  {
    LengthsDescend(cfg, q);
    if q == 1 {
      assert RepeatsEntry(cfg, Cursor(0, 0), 1, 0);
    } else {
      assert RepeatsPrevious(cfg, q);
    }
    SameByteAt(cfg.stream, PartOffset(cfg, q), PartOffset(cfg, q - 1), PartLength(cfg, q), i);
  }

  /**
   A first attempt at a random body, one part at a time, is intact under every order exactly when its
   bytes repeat with the part size: lags are multiples of it then.
   */
  lemma FirstAttemptIntactIff(cfg: Config)
    requires cfg.Valid() && cfg.kind == Random
    ensures Intact(cfg, Cursor(0, 0))
       <==> || cfg.maxConcurrency == 0 || cfg.N() <= 1 || Constant(cfg.stream, cfg.size)
            || (cfg.maxConcurrency == 1 && Periodic(cfg.stream, cfg.partSize, cfg.size))
  {
    IntactIff(cfg, Cursor(0, 0));
    if Periodic(cfg.stream, cfg.partSize, cfg.size) {
      PeriodicIsHarmless(cfg);
    } else if Harmless(cfg, Cursor(0, 0)) {
      HarmlessIsPeriodic(cfg);
      assert false;
    }
  }

  // ---------------------------------------------------------------------------------------------
  // Retried attempts

  /** A byte behind the first part that differs from one at most a part size before it. */
  lemma SomeShiftShows(f: Stream, partSize: nat, size: nat) returns (k: nat, x: nat)
    requires 0 < partSize < size && !Constant(f, size)
    ensures 1 <= k <= partSize <= x < size && f(x) != f(x - k)
  {
    var j := FirstChange(f, size);
    if j + 1 >= partSize {
      k, x := 1, j + 1;
    } else {
      x := partSize;
      k := if f(j) != f(x) then x - j else x - (j + 1);
    }
  }

  /** From a reader that lags by k before the second part, an upload shifts some byte. */
  lemma LaggingStartIsHarmful(cfg: Config, k: nat, x: nat)
    requires cfg.Valid() && 1 <= k <= cfg.partSize <= x < cfg.size && cfg.stream(x) != cfg.stream(x - k)
    ensures !Harmless(cfg, Cursor(cfg.partSize - k, cfg.partSize))
  {
    var start := Cursor(cfg.partSize - k, cfg.partSize);
    var q := PartBehindFirst(cfg, x);
    var i: nat := x - PartOffset(cfg, q);
    var from: nat := start.drawn + (q - 1) * cfg.partSize;
    assert from + i == x - k;
    if SameBytes(cfg.stream, PartOffset(cfg, q), from, PartLength(cfg, q)) {
      SameByteAt(cfg.stream, PartOffset(cfg, q), from, PartLength(cfg, q), i);
      assert false;
    }
    assert PartOffset(cfg, q - (q - 1)) == cfg.partSize;
    assert !RepeatsEntry(cfg, start, q, q - 1);
  }

  lemma MoreThanOnePart(cfg: Config)
    requires cfg.Valid()
    ensures cfg.N() >= 2 <==> cfg.size > cfg.partSize
  {
    NumPartsBounds(cfg.size, cfg.partSize);
    TwoPartsIff(cfg.size, cfg.partSize, cfg.N());
  }

  lemma TwoPartsIff(size: nat, partSize: nat, n: nat)
    requires (n == 0 <==> size == 0) && (n > 0 ==> (n - 1) * partSize < size <= n * partSize)
    ensures n >= 2 <==> size > partSize
  {
    if n >= 2 {
      assert (n - 1) * partSize == (n - 2) * partSize + partSize;
    } else if n == 1 {
      assert 1 * partSize == partSize;
    }
  }

  /** Intact from every position of the reader. */
  ghost predicate IntactFromAnywhere(cfg: Config)
    requires cfg.Valid()
  {
    forall start :: ValidCursor(cfg.kind, cfg.size, start) ==> Intact(cfg, start)
  }

  /** One part at a time, a reader that a failed attempt has left behind spoils any random body of differing bytes. */
  lemma RetryCanSpoil(cfg: Config)
    returns (failed: seq<Action>, aborted: State, acts: seq<Action>, s: State)
    requires cfg.Valid() && cfg.kind == Random && cfg.maxConcurrency >= 1 && cfg.N() >= 2
    requires !Constant(cfg.stream, cfg.size)
    ensures Leads(cfg, Init(cfg, Cursor(0, 0)), failed, aborted)
    ensures aborted.phase.Returned? && aborted.phase.outcome.Aborted? && ValidCursor(Random, cfg.size, aborted.body)
    ensures Done(cfg, aborted.body, acts, s) && Flatten(s.sent) != Slice(cfg.stream, 0, cfg.size)
  {
    MoreThanOnePart(cfg);
    var k, x := SomeShiftShows(cfg.stream, cfg.partSize, cfg.size);
    failed, aborted := FailedAttempt(cfg, Cursor(0, 0), cfg.partSize - k);
    LaggingStartIsHarmful(cfg, k, x);
    acts, s := HarmfulSpoils(cfg, aborted.body);
  }

  /** What makes an upload intact from every position of the reader: something known before the call. */
  ghost predicate Safe(cfg: Config)
    requires cfg.Valid()
  {
    || cfg.maxConcurrency == 0 || cfg.N() <= 1 || Constant(cfg.stream, cfg.size)
    || (cfg.kind == Fixed && cfg.maxConcurrency == 1)
  }

  /** Exactly when an upload is intact wherever earlier attempts may have left the reader. */
  lemma IntactFromAnywhereIff(cfg: Config)
    requires cfg.Valid()
    ensures IntactFromAnywhere(cfg) <==> Safe(cfg)
  {
    if Safe(cfg) {
      forall start | ValidCursor(cfg.kind, cfg.size, start) ensures Intact(cfg, start) {
        IntactIff(cfg, start);
      }
    } else if cfg.maxConcurrency >= 2 {
      var acts, s := TwoHoldersCanCorrupt(cfg, Cursor(0, 0));
      assert !Intact(cfg, Cursor(0, 0));
    } else {
      var failed, aborted, acts, s := RetryCanSpoil(cfg);
      assert !Intact(cfg, aborted.body);
    }
  }

  // ---------------------------------------------------------------------------------------------
  // Random bodies whose stream is not known

  /** Intact whatever the pseudo-random stream. */
  ghost predicate AlwaysIntact(cfg: Config, start: Cursor)
    requires cfg.Valid() && start.position <= cfg.size
  {
    forall f: Stream :: Intact(cfg.(stream := f), start)
  }

  /** One part, or two of which the second may come first. */
  ghost predicate NoBadOrder(cfg: Config, start: Cursor)
    requires cfg.Valid()
  {
    cfg.N() <= 1 || (cfg.N() == 2 && Lands(cfg, start, 1))
  }

  lemma BadOrderIsHarmful(cfg: Config, start: Cursor) returns (f: Stream)
    requires cfg.Valid() && ValidCursor(Random, cfg.size, start) && !NoBadOrder(cfg, start)
    ensures !Harmless(cfg.(stream := f), start) && !Constant(f, cfg.size)
  {
    var q: nat := if cfg.N() == 2 then 1 else 2;
    LengthsDescend(cfg, 1);
    LengthsDescend(cfg, q);
    PartsPartition(cfg.size, cfg.partSize, q + 1);
    f := Marker(PartOffset(cfg, q));
    assert f(0) == 0 && f(PartOffset(cfg, q)) == 1;
    var cfg', from: nat := cfg.(stream := f), if q == 1 then start.drawn else PartOffset(cfg, 1);
    assert Slice(f, PartOffset(cfg, q), PartOffset(cfg, q) + PartLength(cfg, q))[0] == 1;
    assert Slice(f, from, from + PartLength(cfg, q))[0] == 0;
    if q == 1 {
      assert !RepeatsEntry(cfg', start, 1, 0);
    } else {
      assert !RepeatsPrevious(cfg', 2);
    }
  }

  /** Exactly when every stream survives every interleaving. */
  lemma AlwaysIntactIff(cfg: Config, start: Cursor)
    requires cfg.Valid() && cfg.kind == Random && ValidCursor(Random, cfg.size, start)
    ensures AlwaysIntact(cfg, start)
       <==> cfg.maxConcurrency == 0 || cfg.N() <= 1
            || (cfg.N() == 2 && cfg.maxConcurrency == 1 && Lands(cfg, start, 1))
  {
    if cfg.maxConcurrency == 0 || cfg.N() <= 1 || (cfg.maxConcurrency == 1 && NoBadOrder(cfg, start)) {
      forall f: Stream ensures Intact(cfg.(stream := f), start) {
        var cfg' := cfg.(stream := f);
        IntactIff(cfg', start);
      }
    } else {
      var f := Marker(0);
      MoreThanOnePart(cfg);
      assert f(0) == 1 && f(1) == 0;
      if cfg.maxConcurrency == 1 {
        f := BadOrderIsHarmful(cfg, start);
      }
      IntactIff(cfg.(stream := f), start);
      assert !Intact(cfg.(stream := f), start);
    }
  }

  /** A retry from the end of the reader is safe with two parts read one at a time, whatever the stream. */
  lemma RetryFromEndIsIntact(cfg: Config)
    requires cfg.Valid() && cfg.kind == Random && cfg.maxConcurrency == 1 && cfg.N() == 2
    ensures AlwaysIntact(cfg, Cursor(cfg.size, cfg.size))
  {
    PartsPartition(cfg.size, cfg.partSize, 2);
    AlwaysIntactIff(cfg, Cursor(cfg.size, cfg.size));
  }
}
