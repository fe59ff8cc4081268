/**
 What a completed multipart upload stores, when no part is sought or read while another one is being
 read: each part holds the bytes at its offset, shifted back by the lag the shared reader had when the
 part was sought. A limit of one part at a time enforces this; under a higher limit it is luck.
 */
module Reassembly {
  import opened Streams
  import opened Readers
  import opened Multipart
  import opened Counting
  import opened MultipartProtocol

  function Lag(c: Cursor): int
  {
    c.position - c.drawn
  }

  function PartOffset(cfg: Config, i: nat): nat
    requires cfg.Valid()
  {
    Offset(cfg.partSize, i + 1)
  }

  function PartLength(cfg: Config, i: nat): nat
    requires cfg.Valid() && i < cfg.N()
  {
    PartsPartition(cfg.size, cfg.partSize, i + 1);
    Length(cfg.size, cfg.partSize, i + 1)
  }

  /** What a goroutine's part has read so far, and where that leaves the shared reader. */
  ghost predicate PartInv(cfg: Config, s: State, i: nat)
    requires cfg.Valid() && WellFormed(cfg, s) && i < cfg.N()
  {
    && s.skew[i] <= PartOffset(cfg, i)
    && (cfg.kind == Fixed ==> s.skew[i] == 0)
    && match s.gs[i]
       case Uploading(left) =>
         if left == 0 then s.sent[i] == SkewedPart(cfg.stream, cfg.size, cfg.partSize, i + 1, s.skew[i]) else
         && left <= PartLength(cfg, i)
         && s.body.position == PartOffset(cfg, i) + PartLength(cfg, i) - left
         && Lag(s.body) == s.skew[i]
         && s.sent[i] == Slice(cfg.stream, PartOffset(cfg, i) - s.skew[i], s.body.drawn)
       case Unspawned => s.sent[i] == []
       case Acquiring => s.sent[i] == []
       case Seeking => s.sent[i] == []
       case _ => (s.gs[i].Storing? || Stored(s.gs[i])) ==>
         s.sent[i] == SkewedPart(cfg.stream, cfg.size, cfg.partSize, i + 1, s.skew[i])
  }

  ghost predicate BodyInv(cfg: Config, s: State)
    requires cfg.Valid()
  {
    && Inv(cfg, s)
    && ValidCursor(cfg.kind, cfg.size, s.body)
    && forall i :: 0 <= i < cfg.N() ==> PartInv(cfg, s, i)
  }

  /** No two goroutines can hold the semaphore at once. */
  predicate Exclusive(cfg: Config)
    requires cfg.Valid()
  {
    cfg.maxConcurrency <= 1 || cfg.N() <= 1
  }

  lemma OneHolder(cfg: Config, s: State, i: nat, j: nat)
    requires cfg.Valid() && Inv(cfg, s) && Exclusive(cfg)
    requires i < cfg.N() && j < cfg.N() && Holds(s.gs[i]) && Holds(s.gs[j])
    ensures i == j
  {
    if i < j {
      CountTwo(s.gs, Holds, i, j);
    } else if j < i {
      CountTwo(s.gs, Holds, j, i);
    }
  }

  /** In the middle of reading its part. */
  predicate Busy(g: Goroutine)
  {
    g.Uploading? && g.left > 0
  }

  /** Nobody seeks or reads the shared reader while another goroutine is in the middle of its part. */
  ghost predicate Atomic(s: State, a: Action)
  {
    a.SeekBody? || a.ReadBody? ==> forall j :: 0 <= j < |s.gs| && j != a.i ==> !Busy(s.gs[j])
  }

  ghost predicate AtomicReads(cfg: Config, s: State, acts: seq<Action>)
    requires cfg.Valid() && WellFormed(cfg, s)
    decreases |acts|
  {
    acts == [] ||
    (Enabled(cfg, s, acts[0]) && Atomic(s, acts[0]) && AtomicReads(cfg, Next(cfg, s, acts[0]), acts[1..]))
  }

  /** The semaphore makes every run atomic when it admits one goroutine at a time. */
  lemma {:induction false} ExclusiveIsAtomic(cfg: Config, s: State, acts: seq<Action>, s': State)
    requires cfg.Valid() && Inv(cfg, s) && Exclusive(cfg) && Leads(cfg, s, acts, s')
    ensures AtomicReads(cfg, s, acts)
    decreases |acts|
  {
    if acts != [] {
      var a := acts[0];
      if a.SeekBody? || a.ReadBody? {
        forall j | 0 <= j < |s.gs| && j != a.i ensures !Busy(s.gs[j]) {
          if Busy(s.gs[j]) {
            OneHolder(cfg, s, a.i, j);
          }
        }
      }
      StepInv(cfg, s, a);
      ExclusiveIsAtomic(cfg, Next(cfg, s, a), acts[1..], s');
    }
  }

  lemma SeekKeepsPart(cfg: Config, s: State, i: nat)
    requires cfg.Valid() && BodyInv(cfg, s) && Enabled(cfg, s, SeekBody(i))
    ensures var s' := Next(cfg, s, SeekBody(i));
            && ValidCursor(cfg.kind, cfg.size, s'.body) && PartInv(cfg, s', i)
            && s'.gs[i] == Uploading(PartLength(cfg, i)) && s'.skew[i] == Lag(s'.body)
            && s'.body == SeekStep(cfg.kind, cfg.size, s.body, PartOffset(cfg, i), SeekStart).0
  {
    PartsPartition(cfg.size, cfg.partSize, i + 1);
    OffsetsAreReachable(cfg.kind, cfg.size, cfg.partSize, i + 1, s.body.position);
    assert PartInv(cfg, s, i);
  }

  lemma ReadKeepsPart(cfg: Config, s: State, i: nat, count: nat)
    requires cfg.Valid() && BodyInv(cfg, s) && Enabled(cfg, s, ReadBody(i, count))
    ensures var s' := Next(cfg, s, ReadBody(i, count));
            && ValidCursor(cfg.kind, cfg.size, s'.body) && PartInv(cfg, s', i)
            && s'.body == Cursor(s.body.drawn + count, s.body.position + count)
  {
    assert PartInv(cfg, s, i);
    SliceAppend(cfg.stream, PartOffset(cfg, i) - s.skew[i], s.body.drawn, s.body.drawn + count);
    PartsPartition(cfg.size, cfg.partSize, i + 1);
  }

  lemma StepKeepsOwnPart(cfg: Config, s: State, a: Action)
    requires cfg.Valid() && BodyInv(cfg, s) && Enabled(cfg, s, a) && !IsMain(a)
    ensures ValidCursor(cfg.kind, cfg.size, Next(cfg, s, a).body) && PartInv(cfg, Next(cfg, s, a), a.i)
  {
    if a.SeekBody? {
      SeekKeepsPart(cfg, s, a.i);
    } else if a.ReadBody? {
      ReadKeepsPart(cfg, s, a.i, a.count);
    } else {
      assert PartInv(cfg, s, a.i);
    }
  }

  lemma FramedPart(cfg: Config, s: State, s': State, i: nat)
    requires cfg.Valid() && WellFormed(cfg, s) && WellFormed(cfg, s') && i < cfg.N() && PartInv(cfg, s, i)
    requires s'.sent[i] == s.sent[i] && s'.skew[i] == s.skew[i]
    requires s'.gs[i] == s.gs[i] || (s.gs[i].Unspawned? && s'.gs[i].Acquiring?)
    requires Busy(s.gs[i]) ==> s'.body == s.body
    ensures PartInv(cfg, s', i)
  {
  }

  lemma StepKeepsOtherPart(cfg: Config, s: State, a: Action, i: nat)
    requires cfg.Valid() && BodyInv(cfg, s) && Enabled(cfg, s, a) && Atomic(s, a)
    requires i < cfg.N() && (IsMain(a) || i != a.i)
    ensures PartInv(cfg, Next(cfg, s, a), i)
  {
    FramedPart(cfg, s, Next(cfg, s, a), i);
  }

  lemma BodyStep(cfg: Config, s: State, a: Action)
    requires cfg.Valid() && BodyInv(cfg, s) && Enabled(cfg, s, a) && Atomic(s, a)
    ensures BodyInv(cfg, Next(cfg, s, a))
  {
    StepInv(cfg, s, a);
    if !IsMain(a) {
      StepKeepsOwnPart(cfg, s, a);
    }
    forall i | 0 <= i < cfg.N() && (IsMain(a) || i != a.i) ensures PartInv(cfg, Next(cfg, s, a), i) {
      StepKeepsOtherPart(cfg, s, a, i);
    }
  }

  /** Whatever the limit and the interleaving, the stream never runs ahead of the position. */
  lemma {:induction false} CursorStaysValid(cfg: Config, s: State, acts: seq<Action>, s': State)
    requires cfg.Valid() && WellFormed(cfg, s) && ValidCursor(cfg.kind, cfg.size, s.body) && Leads(cfg, s, acts, s')
    ensures ValidCursor(cfg.kind, cfg.size, s'.body)
    decreases |acts|
  {
    if acts != [] {
      CursorStaysValid(cfg, Next(cfg, s, acts[0]), acts[1..], s');
    }
  }

  // ---------------------------------------------------------------------------------------------
  // The order of the seeks decides the lag of every part.

  ghost predicate ValidOrder(cfg: Config, order: seq<nat>)
    requires cfg.Valid()
  {
    forall j :: 0 <= j < |order| ==> order[j] < cfg.N()
  }

  /** The reader just after seeking part i. */
  function Sought(cfg: Config, c: Cursor, i: nat): (r: Cursor)
    requires cfg.Valid() && i < cfg.N() && c.position <= cfg.size
    ensures r.position == PartOffset(cfg, i) && r.position + PartLength(cfg, i) <= cfg.size
  {
    PartsPartition(cfg.size, cfg.partSize, i + 1);
    OffsetsAreReachable(cfg.kind, cfg.size, cfg.partSize, i + 1, c.position);
    SeekStep(cfg.kind, cfg.size, c, PartOffset(cfg, i), SeekStart).0
  }

  function Advance(c: Cursor, n: nat): Cursor
  {
    Cursor(c.drawn + n, c.position + n)
  }

  /** The reader after the parts in order have been uploaded one after the other. */
  ghost function AfterSerial(cfg: Config, start: Cursor, order: seq<nat>): (c: Cursor)
    requires cfg.Valid() && start.position <= cfg.size && ValidOrder(cfg, order)
    ensures c.position <= cfg.size
    decreases |order|, 1
  {
    if order == [] then start
    else Advance(SoughtLast(cfg, start, order), PartLength(cfg, order[|order| - 1]))
  }

  /** The reader just after seeking the last part in order, the ones before it being done. */
  ghost function SoughtLast(cfg: Config, start: Cursor, order: seq<nat>): (c: Cursor)
    requires cfg.Valid() && start.position <= cfg.size && ValidOrder(cfg, order) && order != []
    ensures c.position == PartOffset(cfg, order[|order| - 1])
    ensures c.position + PartLength(cfg, order[|order| - 1]) <= cfg.size
    decreases |order|, 0
  {
    Sought(cfg, AfterSerial(cfg, start, order[..|order| - 1]), order[|order| - 1])
  }

  /** The lag of the reader once the j-th part in order has been sought. */
  ghost function LagAt(cfg: Config, start: Cursor, order: seq<nat>, j: nat): int
    requires cfg.Valid() && start.position <= cfg.size && ValidOrder(cfg, order) && j < |order|
  {
    Lag(SoughtLast(cfg, start, order[..j + 1]))
  }

  /** Its seek is behind it. */
  predicate Started(g: Goroutine)
  {
    !g.Unspawned? && !g.Acquiring? && !g.Seeking?
  }

  /** The order lists the goroutines that have sought, once each, and only the last may be busy. */
  ghost predicate Shape(n: nat, gs: seq<Goroutine>, order: seq<nat>)
  {
    && |gs| == n
    && (forall j :: 0 <= j < |order| ==> order[j] < n)
    && (forall j, k :: 0 <= j < k < |order| ==> order[j] != order[k])
    && (forall i :: 0 <= i < n ==> (i in order <==> Started(gs[i])))
    && (forall j :: 0 <= j < |order| - 1 ==> !Busy(gs[order[j]]))
  }

  /** Where the reader stands, given the order so far and the state of the last goroutine in it. */
  ghost function ExpectedBody(cfg: Config, start: Cursor, gs: seq<Goroutine>, order: seq<nat>): Cursor
    requires cfg.Valid() && start.position <= cfg.size && Shape(cfg.N(), gs, order)
  {
    if order == [] then start else
    var last := order[|order| - 1];
    if Busy(gs[last]) && gs[last].left <= PartLength(cfg, last)
    then Advance(SoughtLast(cfg, start, order), PartLength(cfg, last) - gs[last].left)
    else AfterSerial(cfg, start, order)
  }

  ghost predicate NoFailure(gs: seq<Goroutine>)
  {
    forall i :: 0 <= i < |gs| ==> !Failed(gs[i])
  }

  /** While nothing has failed, the order determines the reader and the lag of every part sought. */
  ghost predicate Chain(cfg: Config, start: Cursor, gs: seq<Goroutine>, order: seq<nat>, skew: seq<nat>, body: Cursor)
    requires cfg.Valid() && start.position <= cfg.size && Shape(cfg.N(), gs, order) && |skew| == cfg.N()
  {
    && body == ExpectedBody(cfg, start, gs, order)
    && forall j :: 0 <= j < |order| ==> skew[order[j]] == LagAt(cfg, start, order, j)
  }

  ghost predicate NobodyBusy(gs: seq<Goroutine>)
  {
    forall j :: 0 <= j < |gs| ==> !Busy(gs[j])
  }

  lemma ShapeSeek(n: nat, gs: seq<Goroutine>, order: seq<nat>, i: nat, g: Goroutine)
    requires Shape(n, gs, order) && i < n && gs[i].Seeking? && g.Uploading? && NobodyBusy(gs)
    ensures Shape(n, gs[i := g], order + [i])
  {
    assert i !in order;
    forall k | 0 <= k < n ensures k in order + [i] <==> Started(gs[i := g][k]) {
      assert k in order + [i] <==> k in order || k == i;
    }
  }

  /** Earlier lags are untouched by a further seek. */
  lemma SeekKeepsSkews(cfg: Config, start: Cursor, gs: seq<Goroutine>, order: seq<nat>, skew: seq<nat>, i: nat, lag: nat, j: nat)
    requires cfg.Valid() && start.position <= cfg.size && Shape(cfg.N(), gs, order) && |skew| == cfg.N()
    requires i < cfg.N() && i !in order && j < |order| && skew[order[j]] == LagAt(cfg, start, order, j)
    requires ValidOrder(cfg, order + [i])
    ensures skew[i := lag][order[j]] == LagAt(cfg, start, order + [i], j)
  {
    assert (order + [i])[..j + 1] == order[..j + 1];
    assert order[j] in order;
  }

  lemma ShapeMove(n: nat, gs: seq<Goroutine>, order: seq<nat>, i: nat, g: Goroutine)
    requires Shape(n, gs, order) && i < n && Started(gs[i]) == Started(g)
    requires Busy(g) ==> Busy(gs[i])
    ensures Shape(n, gs[i := g], order)
    ensures Busy(gs[i]) ==> order != [] && i == order[|order| - 1]
  {
  }

  /** Steps that neither seek nor read: the reader stays and no part becomes sought. */
  lemma ChainQuietMove(
    cfg: Config, start: Cursor, gs: seq<Goroutine>, order: seq<nat>, skew: seq<nat>, body: Cursor, i: nat, g: Goroutine)
    requires cfg.Valid() && start.position <= cfg.size && Shape(cfg.N(), gs, order) && |skew| == cfg.N()
    requires Chain(cfg, start, gs, order, skew, body)
    requires i < cfg.N() && Started(gs[i]) == Started(g) && !Busy(gs[i]) && !Busy(g)
    ensures Shape(cfg.N(), gs[i := g], order)
    ensures Chain(cfg, start, gs[i := g], order, skew, body)
  {
    ShapeMove(cfg.N(), gs, order, i, g);
  }

  lemma SeekSkews(cfg: Config, start: Cursor, gs: seq<Goroutine>, order: seq<nat>, skew: seq<nat>, i: nat, lag: nat)
    requires cfg.Valid() && start.position <= cfg.size && Shape(cfg.N(), gs, order) && |skew| == cfg.N()
    requires i < cfg.N() && i !in order && ValidOrder(cfg, order + [i])
    requires forall j :: 0 <= j < |order| ==> skew[order[j]] == LagAt(cfg, start, order, j)
    requires lag == Lag(SoughtLast(cfg, start, order + [i]))
    ensures forall j :: 0 <= j < |order + [i]| ==> skew[i := lag][(order + [i])[j]] == LagAt(cfg, start, order + [i], j)
  {
    forall j | 0 <= j < |order + [i]|
      ensures skew[i := lag][(order + [i])[j]] == LagAt(cfg, start, order + [i], j)
    {
      if j < |order| {
        SeekKeepsSkews(cfg, start, gs, order, skew, i, lag, j);
      } else {
        LagAtLast(cfg, start, order, i);
      }
    }
  }

  /** With nobody busy the reader stands where the last part in order left it. */
  lemma QuietBody(cfg: Config, start: Cursor, gs: seq<Goroutine>, order: seq<nat>)
    requires cfg.Valid() && start.position <= cfg.size && Shape(cfg.N(), gs, order) && NobodyBusy(gs)
    ensures ExpectedBody(cfg, start, gs, order) == AfterSerial(cfg, start, order)
  {
  }

  lemma SeekMovesBody(cfg: Config, start: Cursor, gs: seq<Goroutine>, order: seq<nat>, i: nat)
    requires cfg.Valid() && start.position <= cfg.size && Shape(cfg.N(), gs, order + [i])
    requires ValidOrder(cfg, order) && i < cfg.N() && gs[i] == Uploading(PartLength(cfg, i))
    ensures SoughtLast(cfg, start, order + [i]) == Sought(cfg, AfterSerial(cfg, start, order), i)
    ensures ExpectedBody(cfg, start, gs, order + [i]) == SoughtLast(cfg, start, order + [i])
  {
    assert (order + [i])[..|order|] == order;
    PartsPartition(cfg.size, cfg.partSize, i + 1);
  }

  lemma LagAtLast(cfg: Config, start: Cursor, order: seq<nat>, i: nat)
    requires cfg.Valid() && start.position <= cfg.size && ValidOrder(cfg, order + [i])
    ensures LagAt(cfg, start, order + [i], |order|) == Lag(SoughtLast(cfg, start, order + [i]))
  {
    assert (order + [i])[..|order| + 1] == order + [i];
  }

  lemma ChainSeek(
    cfg: Config, start: Cursor, gs: seq<Goroutine>, order: seq<nat>, skew: seq<nat>, body: Cursor, i: nat, lag: nat)
    requires cfg.Valid() && start.position <= cfg.size && Shape(cfg.N(), gs, order) && |skew| == cfg.N()
    requires Chain(cfg, start, gs, order, skew, body) && NobodyBusy(gs)
    requires i < cfg.N() && gs[i].Seeking? && body.position <= cfg.size && lag == Lag(Sought(cfg, body, i))
    ensures var gs' := gs[i := Uploading(PartLength(cfg, i))];
            && Shape(cfg.N(), gs', order + [i])
            && Chain(cfg, start, gs', order + [i], skew[i := lag], Sought(cfg, body, i))
  {
    var gs', order' := gs[i := Uploading(PartLength(cfg, i))], order + [i];
    ShapeSeek(cfg.N(), gs, order, i, Uploading(PartLength(cfg, i)));
    QuietBody(cfg, start, gs, order);
    SeekMovesBody(cfg, start, gs', order, i);
    SeekSkews(cfg, start, gs, order, skew, i, lag);
  }

  ghost predicate OrderInv(cfg: Config, start: Cursor, s: State)
    requires cfg.Valid() && start.position <= cfg.size
  {
    && BodyInv(cfg, s) && Shape(cfg.N(), s.gs, s.order)
    && (NoFailure(s.gs) ==> Chain(cfg, start, s.gs, s.order, s.skew, s.body))
  }

  lemma FailureStays(gs: seq<Goroutine>, i: nat, g: Goroutine)
    requires i < |gs| && (Failed(gs[i]) ==> Failed(g))
    ensures NoFailure(gs[i := g]) ==> NoFailure(gs)
  {
    if NoFailure(gs[i := g]) {
      forall k | 0 <= k < |gs| ensures !Failed(gs[k]) {
        assert !Failed(gs[i := g][k]);
      }
    }
  }

  /** What a goroutine's step does, seen from the order. */
  lemma StepDelta(cfg: Config, s: State, a: Action)
    requires cfg.Valid() && Inv(cfg, s) && Enabled(cfg, s, a) && !IsMain(a) && !a.SeekBody?
    ensures var s' := Next(cfg, s, a); var g, g' := s.gs[a.i], s'.gs[a.i];
            && s'.gs == s.gs[a.i := g']
            && (Failed(g) ==> Failed(g'))
            && s'.order == s.order && Started(g') == Started(g) && (Busy(g') ==> Busy(g))
            && (!a.ReadBody? ==> s'.body == s.body && s'.skew == s.skew && !Busy(g') && (!Failed(g') ==> !Busy(g)))
  {
  }

  lemma AtomicSeekFindsNobodyBusy(s: State, i: nat)
    requires i < |s.gs| && s.gs[i].Seeking? && Atomic(s, SeekBody(i))
    ensures NobodyBusy(s.gs)
  {
  }

  lemma SeekOrder(cfg: Config, start: Cursor, s: State, i: nat)
    requires cfg.Valid() && start.position <= cfg.size && OrderInv(cfg, start, s)
    requires Enabled(cfg, s, SeekBody(i)) && Atomic(s, SeekBody(i))
    ensures var s' := Next(cfg, s, SeekBody(i));
            && Shape(cfg.N(), s'.gs, s'.order)
            && (NoFailure(s'.gs) ==> Chain(cfg, start, s'.gs, s'.order, s'.skew, s'.body))
  {
    SeekKeepsPart(cfg, s, i);
    AtomicSeekFindsNobodyBusy(s, i);
    var s' := Next(cfg, s, SeekBody(i));
    var lag, g := s'.skew[i], Uploading(PartLength(cfg, i));
    assert s' == s.(gs := s.gs[i := g], body := s'.body, skew := s.skew[i := lag], order := s.order + [i]);
    ShapeSeek(cfg.N(), s.gs, s.order, i, g);
    FailureStays(s.gs, i, g);
    if NoFailure(s.gs) {
      ChainSeek(cfg, start, s.gs, s.order, s.skew, s.body, i, lag);
    }
  }

  lemma ReadDelta(cfg: Config, s: State, i: nat, count: nat)
    requires cfg.Valid() && BodyInv(cfg, s) && Enabled(cfg, s, ReadBody(i, count))
    ensures Busy(s.gs[i]) && count <= s.gs[i].left <= PartLength(cfg, i)
    ensures var s' := Next(cfg, s, ReadBody(i, count));
            && s'.gs == s.gs[i := Uploading(s.gs[i].left - count)] && s'.body == Advance(s.body, count)
            && s'.order == s.order && s'.skew == s.skew
  {
    assert PartInv(cfg, s, i);
  }

  lemma ReadOrder(cfg: Config, start: Cursor, s: State, i: nat, count: nat)
    requires cfg.Valid() && start.position <= cfg.size && BodyInv(cfg, s) && Shape(cfg.N(), s.gs, s.order)
    requires Chain(cfg, start, s.gs, s.order, s.skew, s.body) && Enabled(cfg, s, ReadBody(i, count))
    ensures var s' := Next(cfg, s, ReadBody(i, count));
            Shape(cfg.N(), s'.gs, s'.order) && Chain(cfg, start, s'.gs, s'.order, s'.skew, s'.body)
  {
    ReadDelta(cfg, s, i, count);
  }

  lemma GoroutineOrder(cfg: Config, start: Cursor, s: State, a: Action)
    requires cfg.Valid() && start.position <= cfg.size && OrderInv(cfg, start, s)
    requires Enabled(cfg, s, a) && !IsMain(a) && !a.SeekBody?
    ensures var s' := Next(cfg, s, a);
            && Shape(cfg.N(), s'.gs, s'.order)
            && (NoFailure(s'.gs) ==> Chain(cfg, start, s'.gs, s'.order, s'.skew, s'.body))
  {
    var g' := Next(cfg, s, a).gs[a.i];
    StepDelta(cfg, s, a);
    FailureStays(s.gs, a.i, g');
    ShapeMove(cfg.N(), s.gs, s.order, a.i, g');
    if NoFailure(s.gs[a.i := g']) {
      assert !Failed(s.gs[a.i := g'][a.i]);
      if a.ReadBody? {
        ReadOrder(cfg, start, s, a.i, a.count);
      } else {
        ChainQuietMove(cfg, start, s.gs, s.order, s.skew, s.body, a.i, g');
      }
    }
  }

  lemma SpawnChain(
    cfg: Config, start: Cursor, gs: seq<Goroutine>, order: seq<nat>, skew: seq<nat>, body: Cursor, i: nat)
    requires cfg.Valid() && start.position <= cfg.size && Shape(cfg.N(), gs, order) && |skew| == cfg.N()
    requires Chain(cfg, start, gs, order, skew, body) && i < cfg.N() && gs[i].Unspawned?
    ensures Shape(cfg.N(), gs[i := Acquiring], order)
    ensures Chain(cfg, start, gs[i := Acquiring], order, skew, body)
  {
    assert i !in order;
  }

  lemma SpawnOrder(cfg: Config, start: Cursor, s: State)
    requires cfg.Valid() && start.position <= cfg.size && OrderInv(cfg, start, s) && Enabled(cfg, s, Spawn)
    ensures var s' := Next(cfg, s, Spawn);
            && Shape(cfg.N(), s'.gs, s'.order)
            && (NoFailure(s'.gs) ==> Chain(cfg, start, s'.gs, s'.order, s'.skew, s'.body))
  {
    var i := s.phase.next;
    FailureStays(s.gs, i, Acquiring);
    if NoFailure(s.gs) {
      SpawnChain(cfg, start, s.gs, s.order, s.skew, s.body, i);
    }
  }

  lemma OrderStep(cfg: Config, start: Cursor, s: State, a: Action)
    requires cfg.Valid() && start.position <= cfg.size && OrderInv(cfg, start, s)
    requires Enabled(cfg, s, a) && Atomic(s, a)
    ensures OrderInv(cfg, start, Next(cfg, s, a))
  {
    BodyStep(cfg, s, a);
    if a.SeekBody? {
      SeekOrder(cfg, start, s, a.i);
    } else if !IsMain(a) {
      GoroutineOrder(cfg, start, s, a);
    } else if a.Spawn? {
      SpawnOrder(cfg, start, s);
    }
  }

  lemma {:induction false} OrderRun(cfg: Config, start: Cursor, s: State, acts: seq<Action>, s': State)
    requires cfg.Valid() && start.position <= cfg.size && OrderInv(cfg, start, s)
    requires Leads(cfg, s, acts, s') && AtomicReads(cfg, s, acts)
    ensures OrderInv(cfg, start, s')
    decreases |acts|
  {
    if acts != [] {
      OrderStep(cfg, start, s, acts[0]);
      OrderRun(cfg, start, Next(cfg, s, acts[0]), acts[1..], s');
    }
  }

  lemma InitOrder(cfg: Config, start: Cursor)
    requires cfg.Valid() && ValidCursor(cfg.kind, cfg.size, start)
    ensures OrderInv(cfg, start, Init(cfg, start))
  {
    InitInv(cfg, start);
  }

  // ---------------------------------------------------------------------------------------------
  // Which orders keep the reader aligned

  /** Seeking part i from c leaves no lag: to the start, strictly backwards, or exactly where an aligned reader stands. */
  predicate Lands(cfg: Config, c: Cursor, i: nat)
    requires cfg.Valid()
  {
    PartOffset(cfg, i) == 0 || PartOffset(cfg, i) < c.position || (PartOffset(cfg, i) == c.position && Lag(c) == 0)
  }

  /** The first part is reachable without a forward jump and no part skips over its successor. */
  predicate NeverSkipsAhead(cfg: Config, start: Cursor, order: seq<nat>)
    requires cfg.Valid()
  {
    && (order != [] ==> Lands(cfg, start, order[0]))
    && forall j :: 0 < j < |order| ==> order[j] <= order[j - 1] + 1
  }

  lemma SoughtLag(cfg: Config, c: Cursor, prev: nat, i: nat)
    requires cfg.Valid() && cfg.kind == Random && prev < cfg.N() && i < cfg.N()
    requires c.position == PartOffset(cfg, prev) + PartLength(cfg, prev) <= cfg.size && Lag(c) == 0
    ensures Lag(Sought(cfg, c, i)) == 0 <==> i <= prev + 1
  {
    PartsPartition(cfg.size, cfg.partSize, prev + 1);
    PartsPartition(cfg.size, cfg.partSize, i + 1);
    OffsetsAreReachable(cfg.kind, cfg.size, cfg.partSize, i + 1, c.position);
    if i <= prev {
      OffsetMonotone(cfg.partSize, i + 1, prev + 1);
    } else {
      PartsPartition(cfg.size, cfg.partSize, prev + 2);
      OffsetMonotone(cfg.partSize, prev + 2, i + 1);
      if i > prev + 1 {
        PartsPartition(cfg.size, cfg.partSize, i);
        OffsetMonotone(cfg.partSize, prev + 2, i);
      }
    }
  }

  lemma FirstLag(cfg: Config, c: Cursor, i: nat)
    requires cfg.Valid() && cfg.kind == Random && i < cfg.N() && ValidCursor(cfg.kind, cfg.size, c)
    ensures Lag(Sought(cfg, c, i)) == 0 <==> Lands(cfg, c, i)
  {
    PartsPartition(cfg.size, cfg.partSize, i + 1);
    OffsetsAreReachable(cfg.kind, cfg.size, cfg.partSize, i + 1, c.position);
  }

  ghost predicate NoLags(cfg: Config, start: Cursor, order: seq<nat>)
    requires cfg.Valid() && start.position <= cfg.size && ValidOrder(cfg, order)
    decreases |order|
  {
    order == [] || (NoLags(cfg, start, order[..|order| - 1]) && Lag(SoughtLast(cfg, start, order)) == 0)
  }

  lemma {:induction false} NoLagsMeans(cfg: Config, start: Cursor, order: seq<nat>, j: nat)
    requires cfg.Valid() && start.position <= cfg.size && ValidOrder(cfg, order) && j < |order|
    requires NoLags(cfg, start, order)
    ensures LagAt(cfg, start, order, j) == 0
    decreases |order|
  {
    if j < |order| - 1 {
      assert order[..|order| - 1][..j + 1] == order[..j + 1];
      NoLagsMeans(cfg, start, order[..|order| - 1], j);
    } else {
      assert order[..j + 1] == order;
    }
  }

  lemma {:induction false} SomeLag(cfg: Config, start: Cursor, order: seq<nat>) returns (j: nat)
    requires cfg.Valid() && start.position <= cfg.size && ValidOrder(cfg, order)
    requires !NoLags(cfg, start, order)
    ensures j < |order| && LagAt(cfg, start, order, j) != 0
    decreases |order|
  {
    var init := order[..|order| - 1];
    if NoLags(cfg, start, init) {
      j := |order| - 1;
      assert order[..j + 1] == order;
    } else {
      j := SomeLag(cfg, start, init);
      assert init[..j + 1] == order[..j + 1];
    }
  }

  lemma AfterSerialFacts(cfg: Config, start: Cursor, order: seq<nat>)
    requires cfg.Valid() && start.position <= cfg.size && ValidOrder(cfg, order) && order != []
    ensures var c, last := AfterSerial(cfg, start, order), order[|order| - 1];
            && c.position == PartOffset(cfg, last) + PartLength(cfg, last) <= cfg.size
            && Lag(c) == Lag(SoughtLast(cfg, start, order))
  {
  }

  lemma SoughtLastUnfolds(cfg: Config, start: Cursor, init: seq<nat>, last: nat)
    requires cfg.Valid() && start.position <= cfg.size && ValidOrder(cfg, init) && last < cfg.N()
    ensures ValidOrder(cfg, init + [last])
    ensures SoughtLast(cfg, start, init + [last]) == Sought(cfg, AfterSerial(cfg, start, init), last)
  {
    assert (init + [last])[..|init|] == init;
  }

  lemma LastLag(cfg: Config, start: Cursor, init: seq<nat>, last: nat)
    requires cfg.Valid() && cfg.kind == Random && start.position <= cfg.size
    requires init != [] && ValidOrder(cfg, init) && last < cfg.N() && Lag(SoughtLast(cfg, start, init)) == 0
    ensures ValidOrder(cfg, init + [last])
    ensures Lag(SoughtLast(cfg, start, init + [last])) == 0 <==> last <= init[|init| - 1] + 1
  {
    SoughtLastUnfolds(cfg, start, init, last);
    AfterSerialFacts(cfg, start, init);
    var c, prev := AfterSerial(cfg, start, init), init[|init| - 1];
    SoughtLag(cfg, c, prev, last);
  }

  lemma NeverSkipsAheadSplit(cfg: Config, start: Cursor, init: seq<nat>, last: nat)
    requires cfg.Valid() && init != []
    ensures NeverSkipsAhead(cfg, start, init + [last])
       <==> NeverSkipsAhead(cfg, start, init) && last <= init[|init| - 1] + 1
  {
    var order := init + [last];
    if NeverSkipsAhead(cfg, start, order) {
      assert order[|init|] <= order[|init| - 1] + 1;
      forall j | 0 < j < |init| ensures init[j] <= init[j - 1] + 1 {
        assert order[j] <= order[j - 1] + 1;
      }
    }
  }

  lemma NoLagsUnfolds(cfg: Config, start: Cursor, init: seq<nat>, last: nat)
    requires cfg.Valid() && start.position <= cfg.size && ValidOrder(cfg, init + [last]) && ValidOrder(cfg, init)
    ensures NoLags(cfg, start, init + [last])
       <==> NoLags(cfg, start, init) && Lag(SoughtLast(cfg, start, init + [last])) == 0
  {
    assert (init + [last])[..|init|] == init;
  }

  lemma NoLagsOne(cfg: Config, start: Cursor, i: nat)
    requires cfg.Valid() && cfg.kind == Random && ValidCursor(cfg.kind, cfg.size, start) && i < cfg.N()
    ensures NoLags(cfg, start, [i]) <==> NeverSkipsAhead(cfg, start, [i])
  {
    assert [i][..0] == [];
    assert NoLags(cfg, start, []);
    assert SoughtLast(cfg, start, [i]) == Sought(cfg, start, i);
    FirstLag(cfg, start, i);
  }

  lemma {:induction false} NoLagsIff(cfg: Config, start: Cursor, order: seq<nat>)
    requires cfg.Valid() && cfg.kind == Random && ValidCursor(cfg.kind, cfg.size, start) && ValidOrder(cfg, order)
    ensures NoLags(cfg, start, order) <==> NeverSkipsAhead(cfg, start, order)
    decreases |order|
  {
    if |order| == 1 {
      NoLagsOne(cfg, start, order[0]);
      assert order == [order[0]];
    } else if order != [] {
      var init, last := order[..|order| - 1], order[|order| - 1];
      assert order == init + [last];
      NoLagsUnfolds(cfg, start, init, last);
      NoLagsIff(cfg, start, init);
      NeverSkipsAheadSplit(cfg, start, init, last);
      if NoLags(cfg, start, init) {
        NoLagsEnd(cfg, start, init);
        LastLag(cfg, start, init, last);
      }
    }
  }

  lemma NoLagsEnd(cfg: Config, start: Cursor, order: seq<nat>)
    requires cfg.Valid() && start.position <= cfg.size && ValidOrder(cfg, order) && order != []
    requires NoLags(cfg, start, order)
    ensures Lag(SoughtLast(cfg, start, order)) == 0
  {
  }

  // ---------------------------------------------------------------------------------------------
  // Completed uploads

  ghost predicate Done(cfg: Config, start: Cursor, acts: seq<Action>, s: State)
    requires cfg.Valid() && start.position <= cfg.size
  {
    Leads(cfg, Init(cfg, start), acts, s) && s.phase.Returned? && s.phase.outcome.Completed?
  }

  ghost predicate DoneAtomically(cfg: Config, start: Cursor, acts: seq<Action>, s: State)
    requires cfg.Valid() && start.position <= cfg.size
  {
    Done(cfg, start, acts, s) && AtomicReads(cfg, Init(cfg, start), acts)
  }

  lemma ExclusiveDone(cfg: Config, start: Cursor, acts: seq<Action>, s: State)
    requires cfg.Valid() && start.position <= cfg.size && Exclusive(cfg) && Done(cfg, start, acts, s)
    ensures DoneAtomically(cfg, start, acts, s)
  {
    InitInv(cfg, start);
    ExclusiveIsAtomic(cfg, Init(cfg, start), acts, s);
  }

  lemma DoneInv(cfg: Config, start: Cursor, acts: seq<Action>, s: State)
    requires cfg.Valid() && ValidCursor(cfg.kind, cfg.size, start) && DoneAtomically(cfg, start, acts, s)
    ensures OrderInv(cfg, start, s)
    ensures forall i :: 0 <= i < cfg.N() ==> s.gs[i] == Exited(true)
  {
    InitOrder(cfg, start);
    OrderRun(cfg, start, Init(cfg, start), acts, s);
    OutcomeIsRight(cfg, start, acts, s);
  }

  lemma DonePart(cfg: Config, start: Cursor, acts: seq<Action>, s: State, i: nat)
    requires cfg.Valid() && ValidCursor(cfg.kind, cfg.size, start) && DoneAtomically(cfg, start, acts, s) && i < cfg.N()
    ensures |s.skew| == |s.sent| == cfg.N()
    ensures s.skew[i] <= Offset(cfg.partSize, i + 1) && (cfg.kind == Fixed ==> s.skew[i] == 0)
    ensures s.sent[i] == SkewedPart(cfg.stream, cfg.size, cfg.partSize, i + 1, s.skew[i])
  {
    DoneInv(cfg, start, acts, s);
    assert s.gs[i] == Exited(true);
    assert PartInv(cfg, s, i);
  }

  lemma DoneOrder(cfg: Config, start: Cursor, acts: seq<Action>, s: State)
    requires cfg.Valid() && ValidCursor(cfg.kind, cfg.size, start) && DoneAtomically(cfg, start, acts, s)
    ensures |s.skew| == |s.sent| == cfg.N() && ValidOrder(cfg, s.order)
    ensures forall i :: 0 <= i < cfg.N() ==> i in s.order
    ensures forall j :: 0 <= j < |s.order| ==> s.skew[s.order[j]] == LagAt(cfg, start, s.order, j)
  {
    DoneInv(cfg, start, acts, s);
    assert NoFailure(s.gs);
  }

  /** A completed upload holds, for each part, the stream at its offset shifted back by the recorded lag. */
  lemma CompletedPartsAreSkewed(cfg: Config, start: Cursor, acts: seq<Action>, s: State)
    requires cfg.Valid() && ValidCursor(cfg.kind, cfg.size, start) && DoneAtomically(cfg, start, acts, s)
    ensures |s.skew| == cfg.N() && forall i :: 0 <= i < cfg.N() ==> s.skew[i] <= Offset(cfg.partSize, i + 1)
    ensures cfg.kind == Fixed ==> forall i :: 0 <= i < cfg.N() ==> s.skew[i] == 0
    ensures s.sent == SkewedParts(cfg.stream, cfg.size, cfg.partSize, s.skew)
  {
    DoneOrder(cfg, start, acts, s);
    forall i | 0 <= i < cfg.N()
      ensures s.skew[i] <= Offset(cfg.partSize, i + 1) && (cfg.kind == Fixed ==> s.skew[i] == 0)
      ensures s.sent[i] == SkewedPart(cfg.stream, cfg.size, cfg.partSize, i + 1, s.skew[i])
    {
      DonePart(cfg, start, acts, s, i);
    }
  }

  lemma VanishIff(n: nat, skew: seq<nat>, order: seq<nat>, lags: seq<int>)
    requires |skew| == n && |lags| == |order|
    requires forall i :: 0 <= i < n ==> i in order
    requires forall j :: 0 <= j < |order| ==> order[j] < n && skew[order[j]] == lags[j]
    ensures (forall i :: 0 <= i < n ==> skew[i] == 0) <==> (forall j :: 0 <= j < |lags| ==> lags[j] == 0)
  {
    if forall j :: 0 <= j < |lags| ==> lags[j] == 0 {
      forall i | 0 <= i < n ensures skew[i] == 0 {
        assert i in order;
        var j :| 0 <= j < |order| && order[j] == i;
      }
    } else {
      var j :| 0 <= j < |lags| && lags[j] != 0;
      assert skew[order[j]] != 0;
    }
  }

  lemma LagsVanishIff(cfg: Config, start: Cursor, order: seq<nat>) returns (lags: seq<int>)
    requires cfg.Valid() && cfg.kind == Random && ValidCursor(cfg.kind, cfg.size, start) && ValidOrder(cfg, order)
    ensures |lags| == |order|
    ensures forall j :: 0 <= j < |order| ==> lags[j] == LagAt(cfg, start, order, j)
    ensures (forall j :: 0 <= j < |lags| ==> lags[j] == 0) <==> NeverSkipsAhead(cfg, start, order)
  {
    lags := seq(|order|, j requires 0 <= j < |order| => LagAt(cfg, start, order, j));
    NoLagsIff(cfg, start, order);
    if NoLags(cfg, start, order) {
      forall j | 0 <= j < |lags| ensures lags[j] == 0 {
        NoLagsMeans(cfg, start, order, j);
      }
    } else {
      var j := SomeLag(cfg, start, order);
      assert lags[j] != 0;
    }
  }

  lemma SkewsVanishIff(cfg: Config, start: Cursor, acts: seq<Action>, s: State)
    requires cfg.Valid() && cfg.kind == Random && ValidCursor(Random, cfg.size, start)
    requires DoneAtomically(cfg, start, acts, s)
    ensures |s.skew| == cfg.N()
    ensures (forall i :: 0 <= i < cfg.N() ==> s.skew[i] == 0) <==> NeverSkipsAhead(cfg, start, s.order)
  {
    DoneOrder(cfg, start, acts, s);
    var lags := LagsVanishIff(cfg, start, s.order);
    VanishIff(cfg.N(), s.skew, s.order, lags);
  }

  /**
   When parts are read one at a time, a fixed-pattern body is stored intact under every order of the
   goroutines, and a random body under every order that never skips ahead, ascending order among them.
   */
  lemma CompletedObjectIsContents(cfg: Config, start: Cursor, acts: seq<Action>, s: State)
    requires cfg.Valid() && ValidCursor(cfg.kind, cfg.size, start) && DoneAtomically(cfg, start, acts, s)
    requires cfg.kind == Fixed || NeverSkipsAhead(cfg, start, s.order)
    ensures Flatten(s.sent) == Slice(cfg.stream, 0, cfg.size)
  {
    CompletedPartsAreSkewed(cfg, start, acts, s);
    if cfg.kind == Random {
      SkewsVanishIff(cfg, start, acts, s);
    }
    UnskewedPartsAssemble(cfg.stream, cfg.size, cfg.partSize, s.skew);
  }

  /** Parts 1, 2, ..., n in this order. */
  predicate Ascending(order: seq<nat>)
  {
    forall j :: 0 <= j < |order| ==> order[j] == j
  }

  lemma AscendingNeverSkipsAhead(cfg: Config, start: Cursor, order: seq<nat>)
    requires cfg.Valid() && Ascending(order)
    ensures NeverSkipsAhead(cfg, start, order)
  {
  }

  lemma StepOnOtherStream(cfg: Config, s: State, t: State, a: Action, f: Stream)
    requires cfg.Valid() && WellFormed(cfg, s) && Enabled(cfg, s, a)
    requires |t.sent| == |s.sent| && t == s.(sent := t.sent)
    ensures cfg.(stream := f).Valid() && WellFormed(cfg.(stream := f), t) && Enabled(cfg.(stream := f), t, a)
    ensures var s', t' := Next(cfg, s, a), Next(cfg.(stream := f), t, a);
            |t'.sent| == |s'.sent| && t' == s'.(sent := t'.sent)
  {
  }

  /** The schedule does not depend on the bytes: the same steps are possible on any other stream. */
  lemma {:induction false} SameStepsOnOtherStream(cfg: Config, s: State, t: State, acts: seq<Action>, s': State, f: Stream)
    returns (t': State)
    requires cfg.Valid() && WellFormed(cfg, s) && Leads(cfg, s, acts, s')
    requires |t.sent| == |s.sent| && t == s.(sent := t.sent)
    ensures cfg.(stream := f).Valid() && WellFormed(cfg.(stream := f), t)
    ensures Leads(cfg.(stream := f), t, acts, t') && t' == s'.(sent := t'.sent)
    decreases |acts|
  {
    if acts == [] {
      t' := t;
    } else {
      StepOnOtherStream(cfg, s, t, acts[0], f);
      var s1, t1 := Next(cfg, s, acts[0]), Next(cfg.(stream := f), t, acts[0]);
      t' := SameStepsOnOtherStream(cfg, s1, t1, acts[1..], s', f);
    }
  }

  lemma {:induction false} AtomicOnOtherStream(cfg: Config, s: State, t: State, acts: seq<Action>, f: Stream)
    requires cfg.Valid() && WellFormed(cfg, s) && AtomicReads(cfg, s, acts)
    requires |t.sent| == |s.sent| && t == s.(sent := t.sent)
    ensures cfg.(stream := f).Valid() && WellFormed(cfg.(stream := f), t) && AtomicReads(cfg.(stream := f), t, acts)
    decreases |acts|
  {
    if acts != [] {
      StepOnOtherStream(cfg, s, t, acts[0], f);
      AtomicOnOtherStream(cfg, Next(cfg, s, acts[0]), Next(cfg.(stream := f), t, acts[0]), acts[1..], f);
    }
  }

  ghost predicate RightOnEveryStream(cfg: Config, start: Cursor, acts: seq<Action>)
    requires cfg.Valid() && start.position <= cfg.size
  {
    forall f: Stream, s :: Done(cfg.(stream := f), start, acts, s) ==> Flatten(s.sent) == Slice(f, 0, cfg.size)
  }

  lemma RightIfNeverSkipping(cfg: Config, start: Cursor, acts: seq<Action>, s: State, f: Stream, t: State)
    requires cfg.Valid() && cfg.kind == Random && ValidCursor(Random, cfg.size, start)
    requires DoneAtomically(cfg, start, acts, s) && NeverSkipsAhead(cfg, start, s.order)
    requires Done(cfg.(stream := f), start, acts, t)
    ensures Flatten(t.sent) == Slice(f, 0, cfg.size)
  {
    var s0, cfg' := Init(cfg, start), cfg.(stream := f);
    var t' := SameStepsOnOtherStream(cfg, s0, s0, acts, s, f);
    LeadsIsFunctional(cfg', s0, acts, t, t');
    AtomicOnOtherStream(cfg, s0, s0, acts, f);
    assert NeverSkipsAhead(cfg', start, t.order);
    CompletedObjectIsContents(cfg', start, acts, t);
  }

  lemma WrongIfSkipping(cfg: Config, start: Cursor, acts: seq<Action>, s: State) returns (f: Stream, t: State)
    requires cfg.Valid() && cfg.kind == Random && ValidCursor(Random, cfg.size, start)
    requires DoneAtomically(cfg, start, acts, s) && !NeverSkipsAhead(cfg, start, s.order)
    ensures Done(cfg.(stream := f), start, acts, t) && Flatten(t.sent) != Slice(f, 0, cfg.size)
  {
    SkewsVanishIff(cfg, start, acts, s);
    var i :| 0 <= i < cfg.N() && s.skew[i] != 0;
    f := Marker(Offset(cfg.partSize, i + 1));
    t := SameStepsOnOtherStream(cfg, Init(cfg, start), Init(cfg, start), acts, s, f);
    AtomicOnOtherStream(cfg, Init(cfg, start), Init(cfg, start), acts, f);
    CompletedPartsAreSkewed(cfg.(stream := f), start, acts, t);
    SkewedPartsSpoil(cfg.size, cfg.partSize, s.skew, i + 1);
  }

  /**
   Exactly when a schedule that reads one part at a time stores a random body intact whatever its bytes:
   when its order never skips ahead. In particular a first part other than part 1, on a fresh reader,
   spoils the object.
   */
  lemma RightOnEveryStreamIff(cfg: Config, start: Cursor, acts: seq<Action>, s: State)
    requires cfg.Valid() && cfg.kind == Random && ValidCursor(Random, cfg.size, start)
    requires DoneAtomically(cfg, start, acts, s)
    ensures RightOnEveryStream(cfg, start, acts) <==> NeverSkipsAhead(cfg, start, s.order)
  {
    if NeverSkipsAhead(cfg, start, s.order) {
      forall f: Stream, t | Done(cfg.(stream := f), start, acts, t)
        ensures Flatten(t.sent) == Slice(f, 0, cfg.size)
      {
        RightIfNeverSkipping(cfg, start, acts, s, f, t);
      }
    } else {
      var f, t := WrongIfSkipping(cfg, start, acts, s);
    }
  }

  lemma {:induction false} LeadsIsFunctional(cfg: Config, s: State, acts: seq<Action>, s1: State, s2: State)
    requires cfg.Valid() && WellFormed(cfg, s) && Leads(cfg, s, acts, s1) && Leads(cfg, s, acts, s2)
    ensures s1 == s2
    decreases |acts|
  {
    if acts != [] {
      LeadsIsFunctional(cfg, Next(cfg, s, acts[0]), acts[1..], s1, s2);
    }
  }
}
