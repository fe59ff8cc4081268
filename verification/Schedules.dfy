/** Schedules of the multipart protocol that exist: every order of the parts, and failed attempts that misplace the reader. */
module Schedules {
  import opened Basics
  import opened Streams
  import opened Readers
  import opened Multipart
  import opened MultipartProtocol
  import opened Reassembly

  lemma {:induction false} LeadsAppend(
    cfg: Config, s: State, xs: seq<Action>, s1: State, ys: seq<Action>, s2: State)
    requires cfg.Valid() && WellFormed(cfg, s) && WellFormed(cfg, s1)
    requires Leads(cfg, s, xs, s1) && Leads(cfg, s1, ys, s2)
    ensures Leads(cfg, s, xs + ys, s2)
    decreases |xs|
  {
    if xs == [] {
      assert xs + ys == ys;
    } else {
      LeadsAppend(cfg, Next(cfg, s, xs[0]), xs[1..], s1, ys, s2);
      assert (xs + ys)[1..] == xs[1..] + ys;
    }
  }

  lemma LeadsStep(cfg: Config, s: State, acts: seq<Action>, s1: State, a: Action)
    returns (acts': seq<Action>, s2: State)
    requires cfg.Valid() && WellFormed(cfg, s) && WellFormed(cfg, s1)
    requires Leads(cfg, s, acts, s1) && Enabled(cfg, s1, a)
    ensures acts' == acts + [a] && s2 == Next(cfg, s1, a) && WellFormed(cfg, s2) && Leads(cfg, s, acts', s2)
  {
    acts', s2 := acts + [a], Next(cfg, s1, a);
    assert [a][1..] == [];
    assert Leads(cfg, s1, [a], s2);
    LeadsAppend(cfg, s, acts, s1, [a], s2);
  }

  /** Everything spawned, nothing held, no error: the goroutines in todo wait, the others succeeded. */
  ghost predicate Ready(cfg: Config, s: State, todo: seq<nat>)
    requires cfg.Valid()
  {
    && WellFormed(cfg, s)
    && s.phase == Spawning(cfg.N()) && s.sem == 0 && s.errs == [] && !s.closed && s.wg == |todo|
    && (forall j :: 0 <= j < |todo| ==> todo[j] < cfg.N())
    && (forall j, k :: 0 <= j < k < |todo| ==> todo[j] != todo[k])
    && forall i :: 0 <= i < cfg.N() ==> s.gs[i] == if i in todo then Acquiring else Exited(true)
  }

  function Spawned(cfg: Config, body: Cursor, k: nat): State
    requires cfg.Valid() && k <= cfg.N()
  {
    Init(cfg, body).(gs := seq(cfg.N(), i => if i < k then Acquiring else Unspawned), wg := k, phase := Spawning(k))
  }

  lemma {:induction false} SpawnAll(cfg: Config, body: Cursor, k: nat) returns (acts: seq<Action>)
    requires cfg.Valid() && body.position <= cfg.size && k <= cfg.N()
    ensures Leads(cfg, Init(cfg, body), acts, Spawned(cfg, body, k))
  {
    if k == 0 {
      acts := [];
      assert Spawned(cfg, body, 0).gs == Init(cfg, body).gs;
    } else {
      acts := SpawnAll(cfg, body, k - 1);
      var s;
      acts, s := LeadsStep(cfg, Init(cfg, body), acts, Spawned(cfg, body, k - 1), Spawn);
      assert s.gs == Spawned(cfg, body, k).gs;
    }
  }

  function WholePart(cfg: Config, s: State, i: nat): seq<byte>
    requires cfg.Valid() && WellFormed(cfg, s) && i < cfg.N()
  {
    var c := Sought(cfg, s.body, i);
    Slice(cfg.stream, c.drawn, c.drawn + PartLength(cfg, i))
  }

  /** The state after goroutine i has acquired, sought and read its whole part. */
  function AfterReading(cfg: Config, s: State, i: nat): (s': State)
    requires cfg.Valid() && WellFormed(cfg, s) && i < cfg.N()
    ensures WellFormed(cfg, s')
  {
    var c := Sought(cfg, s.body, i);
    s.(gs := s.gs[i := Uploading(0)], sem := s.sem + 1, body := Advance(c, PartLength(cfg, i)),
       sent := s.sent[i := s.sent[i] + WholePart(cfg, s, i)],
       skew := s.skew[i := if c.drawn <= c.position then c.position - c.drawn else 0],
       order := s.order + [i])
  }

  lemma AcquireAndSeek(cfg: Config, s: State, i: nat) returns (acts: seq<Action>, s': State)
    requires cfg.Valid() && WellFormed(cfg, s) && i < cfg.N() && s.gs[i].Acquiring? && s.sem < cfg.maxConcurrency
    ensures Leads(cfg, s, acts, s') && WellFormed(cfg, s')
    ensures var c := Sought(cfg, s.body, i);
            s' == s.(gs := s.gs[i := Uploading(PartLength(cfg, i))], sem := s.sem + 1, body := c,
                     skew := s.skew[i := if c.drawn <= c.position then c.position - c.drawn else 0], order := s.order + [i])
  {
    OffsetsAreReachable(cfg.kind, cfg.size, cfg.partSize, i + 1, s.body.position);
    var s1;
    acts, s1 := LeadsStep(cfg, s, [], s, Acquire(i));
    acts, s' := LeadsStep(cfg, s, acts, s1, SeekBody(i));
    assert s'.gs == s.gs[i := Uploading(PartLength(cfg, i))];
  }

  function AfterRead(cfg: Config, s: State, i: nat, count: nat): (s': State)
    requires cfg.Valid() && WellFormed(cfg, s) && i < cfg.N() && s.gs[i].Uploading? && count <= s.gs[i].left
    requires s.body.position + count <= cfg.size
    ensures WellFormed(cfg, s')
  {
    s.(gs := s.gs[i := Uploading(s.gs[i].left - count)], body := Advance(s.body, count),
       sent := s.sent[i := s.sent[i] + Slice(cfg.stream, s.body.drawn, s.body.drawn + count)])
  }

  /** A read of any number of bytes, none included. */
  lemma ReadSome(cfg: Config, s: State, i: nat, count: nat) returns (acts: seq<Action>)
    requires cfg.Valid() && WellFormed(cfg, s) && i < cfg.N() && s.gs[i].Uploading? && count <= s.gs[i].left
    requires s.body.position + count <= cfg.size
    ensures Leads(cfg, s, acts, AfterRead(cfg, s, i, count))
  {
    if count == 0 {
      acts := [];
      assert s.sent[i] + [] == s.sent[i];
      assert AfterRead(cfg, s, i, 0) == s;
    } else {
      var s';
      acts, s' := LeadsStep(cfg, s, [], s, ReadBody(i, count));
    }
  }

  lemma SeekAndRead(cfg: Config, s: State, i: nat) returns (acts: seq<Action>)
    requires cfg.Valid() && WellFormed(cfg, s) && i < cfg.N() && s.gs[i].Acquiring? && s.sem < cfg.maxConcurrency
    ensures Leads(cfg, s, acts, AfterReading(cfg, s, i))
  {
    hide Leads, Enabled, Next;
    var xs, s1 := AcquireAndSeek(cfg, s, i);
    var ys := ReadSome(cfg, s1, i, PartLength(cfg, i));
    assert AfterRead(cfg, s1, i, PartLength(cfg, i)) == AfterReading(cfg, s, i);
    LeadsAppend(cfg, s, xs, s1, ys, AfterReading(cfg, s, i));
    acts := xs + ys;
  }

  /** The state after goroutine i, having read its part, has stored it, released the semaphore and exited. */
  function AfterWrapUp(cfg: Config, s: State, i: nat): (s': State)
    requires cfg.Valid() && WellFormed(cfg, s) && i < cfg.N() && s.sem > 0
    ensures WellFormed(cfg, s')
  {
    s.(gs := s.gs[i := Exited(true)], sem := s.sem - 1, wg := s.wg - 1, completed := s.completed[i := Some(i + 1)])
  }

  lemma WrapUp(cfg: Config, s: State, i: nat) returns (acts: seq<Action>)
    requires cfg.Valid() && WellFormed(cfg, s) && i < cfg.N() && s.gs[i] == Uploading(0) && s.sem > 0
    ensures Leads(cfg, s, acts, AfterWrapUp(cfg, s, i))
  {
    var s1, s2, s3, s4;
    acts, s1 := LeadsStep(cfg, s, [], s, UploadOk(i));
    acts, s2 := LeadsStep(cfg, s, acts, s1, Store(i));
    assert s2.gs == s.gs[i := Releasing(true)];
    acts, s3 := LeadsStep(cfg, s, acts, s2, Release(i));
    assert s3.gs == s.gs[i := Finishing(true)];
    acts, s4 := LeadsStep(cfg, s, acts, s3, Finish(i));
    assert s4.gs == s.gs[i := Exited(true)];
  }

  lemma UploadOne(cfg: Config, s: State, todo: seq<nat>) returns (acts: seq<Action>, s': State)
    requires cfg.Valid() && Ready(cfg, s, todo) && todo != [] && cfg.maxConcurrency >= 1
    ensures Leads(cfg, s, acts, s') && Ready(cfg, s', todo[1..])
    ensures s'.order == s.order + [todo[0]]
    ensures forall i :: 0 <= i < cfg.N() && i != todo[0] ==> s'.sent[i] == s.sent[i]
  {
    hide Leads, Enabled, Next;
    var i := todo[0];
    var xs := SeekAndRead(cfg, s, i);
    var s1 := AfterReading(cfg, s, i);
    var ys := WrapUp(cfg, s1, i);
    s' := AfterWrapUp(cfg, s1, i);
    acts := xs + ys;
    LeadsAppend(cfg, s, xs, s1, ys, s');
    assert s'.gs == s.gs[i := Exited(true)];
    OneLess(cfg, s, s', todo);
  }

  lemma OneLess(cfg: Config, s: State, s': State, todo: seq<nat>)
    requires cfg.Valid() && Ready(cfg, s, todo) && todo != [] && WellFormed(cfg, s')
    requires s'.gs == s.gs[todo[0] := Exited(true)] && s'.wg == s.wg - 1
    requires s'.phase == s.phase && s'.sem == s.sem && s'.errs == s.errs && s'.closed == s.closed
    ensures Ready(cfg, s', todo[1..])
  {
    forall k | 0 <= k < cfg.N()
      ensures s'.gs[k] == if k in todo[1..] then Acquiring else Exited(true)
    {
      assert k in todo <==> k == todo[0] || k in todo[1..];
    }
  }

  lemma Conclude(cfg: Config, s: State) returns (acts: seq<Action>, s': State)
    requires cfg.Valid() && Ready(cfg, s, [])
    ensures Leads(cfg, s, acts, s') && s'.phase.Returned? && s'.phase.outcome.Completed?
    ensures s'.order == s.order && s'.sent == s.sent
  {
    var s1, s2, s3;
    acts, s1 := LeadsStep(cfg, s, [], s, Wait);
    acts, s2 := LeadsStep(cfg, s, acts, s1, Close);
    acts, s3 := LeadsStep(cfg, s, acts, s2, Collect);
    acts, s' := LeadsStep(cfg, s, acts, s3, Complete(true));
  }

  /** The first m goroutines to do upload their parts, one after the other. */
  lemma {:induction false} UploadSome(cfg: Config, s: State, todo: seq<nat>, m: nat) returns (acts: seq<Action>, s': State)
    requires cfg.Valid() && Ready(cfg, s, todo) && cfg.maxConcurrency >= 1 && m <= |todo|
    ensures Leads(cfg, s, acts, s') && Ready(cfg, s', todo[m..])
    ensures s'.order == s.order + todo[..m]
    ensures forall i :: 0 <= i < cfg.N() && i !in todo ==> s'.sent[i] == s.sent[i]
    decreases m
  {
    hide Leads, Enabled, Next;
    if m == 0 {
      acts, s' := StayPut(cfg, s);
      assert todo[0..] == todo;
    } else {
      var acts1, s1 := UploadOne(cfg, s, todo);
      var acts2;
      acts2, s' := UploadSome(cfg, s1, todo[1..], m - 1);
      LeadsAppend(cfg, s, acts1, s1, acts2, s');
      acts := acts1 + acts2;
      assert todo[1..][m - 1..] == todo[m..];
      assert s.order + todo[..m] == s.order + [todo[0]] + todo[1..][..m - 1];
      assert forall i :: i in todo[1..] ==> i in todo;
      assert todo[0] in todo;
    }
  }

  lemma StayPut(cfg: Config, s: State) returns (acts: seq<Action>, s': State)
    requires cfg.Valid() && WellFormed(cfg, s)
    ensures Leads(cfg, s, acts, s') && s' == s
  {
    acts, s' := [], s;
  }

  lemma UploadAll(cfg: Config, s: State, todo: seq<nat>) returns (acts: seq<Action>, s': State)
    requires cfg.Valid() && Ready(cfg, s, todo) && cfg.maxConcurrency >= 1
    ensures Leads(cfg, s, acts, s') && s'.phase.Returned? && s'.phase.outcome.Completed?
    ensures s'.order == s.order + todo
    ensures |s'.sent| == cfg.N() && forall i :: 0 <= i < cfg.N() && i !in todo ==> s'.sent[i] == s.sent[i]
  {
    hide Leads, Enabled, Next;
    var xs, s1 := UploadSome(cfg, s, todo, |todo|);
    assert todo[|todo|..] == [] && todo[..|todo|] == todo;
    var ys;
    ys, s' := Conclude(cfg, s1);
    LeadsAppend(cfg, s, xs, s1, ys, s');
    acts := xs + ys;
  }

  /** Every part once. */
  ghost predicate Permutation(n: nat, order: seq<nat>)
  {
    && |order| == n
    && (forall j :: 0 <= j < n ==> order[j] < n)
    && (forall j, k :: 0 <= j < k < n ==> order[j] != order[k])
    && (forall i :: 0 <= i < n ==> i in order)
  }

  /** What is below n and not in chosen, ascending. */
  function Missing(n: nat, chosen: seq<nat>): (rest: seq<nat>)
    ensures forall i :: i in rest <==> 0 <= i < n && i !in chosen
    ensures forall j, k :: 0 <= j < k < |rest| ==> rest[j] < rest[k]
  {
    if n == 0 then [] else
    var rest := Missing(n - 1, chosen);
    if n - 1 in chosen then rest else
    assert forall j :: 0 <= j < |rest| ==> rest[j] in rest;
    rest + [n - 1]
  }

  function Below(n: nat): (s: set<nat>)
    ensures |s| == n && forall i :: i in s <==> 0 <= i < n
  {
    if n == 0 then {} else Below(n - 1) + {n - 1}
  }

  lemma {:induction false} DistinctLength(order: seq<nat>, s: set<nat>)
    requires forall j, k :: 0 <= j < k < |order| ==> order[j] != order[k]
    requires forall i :: i in order <==> i in s
    ensures |order| == |s|
    decreases |order|
  {
    if order == [] {
      assert s == {};
    } else {
      var front, last := order[..|order| - 1], order[|order| - 1];
      assert order == front + [last];
      forall i ensures i in front <==> i in s - {last} {
        assert i in order <==> i in front || i == last;
      }
      DistinctLength(front, s - {last});
    }
  }

  lemma PermutationOf(n: nat, a: seq<nat>, b: seq<nat>)
    requires forall j, k :: 0 <= j < k < |a| ==> a[j] != a[k]
    requires forall j, k :: 0 <= j < k < |b| ==> b[j] != b[k]
    requires forall i :: i in a ==> i < n && i !in b
    requires forall i :: i in b ==> i < n && i !in a
    requires forall i :: 0 <= i < n ==> i in a || i in b
    ensures Permutation(n, a + b)
  {
    var order := a + b;
    forall j, k | 0 <= j < k < |order| ensures order[j] != order[k] {
      if j < |a| <= k {
        assert a[j] in a && b[k - |a|] in b;
      }
    }
    forall i ensures i in order <==> 0 <= i < n {
      assert i in order <==> i in a || i in b;
    }
    assert forall j :: 0 <= j < |order| ==> order[j] in order;
    DistinctLength(order, Below(n));
  }

  /** Any distinct parts can be made an order of all by putting the others behind or before them. */
  lemma CompletedOrder(n: nat, chosen: seq<nat>)
    requires forall j :: 0 <= j < |chosen| ==> chosen[j] < n
    requires forall j, k :: 0 <= j < k < |chosen| ==> chosen[j] != chosen[k]
    ensures Permutation(n, chosen + Missing(n, chosen)) && Permutation(n, Missing(n, chosen) + chosen)
  {
    hide Permutation;
    PermutationOf(n, chosen, Missing(n, chosen));
    PermutationOf(n, Missing(n, chosen), chosen);
  }

  lemma SpawnedReady(cfg: Config, start: Cursor, order: seq<nat>)
    requires cfg.Valid() && start.position <= cfg.size && Permutation(cfg.N(), order)
    ensures Ready(cfg, Spawned(cfg, start, cfg.N()), order)
  {
  }

  lemma SomeRunHasOrder(cfg: Config, start: Cursor, order: seq<nat>) returns (acts: seq<Action>, s: State)
    requires cfg.Valid() && start.position <= cfg.size && cfg.maxConcurrency >= 1 && Permutation(cfg.N(), order)
    ensures Done(cfg, start, acts, s) && s.order == order
  {
    var s0 := Init(cfg, start);
    var acts1 := SpawnAll(cfg, start, cfg.N());
    var s1 := Spawned(cfg, start, cfg.N());
    SpawnedReady(cfg, start, order);
    var acts2;
    acts2, s := UploadAll(cfg, s1, order);
    LeadsAppend(cfg, s0, acts1, s1, acts2, s);
    acts := acts1 + acts2;
  }

  lemma {:induction false} MoreHoldersAllowMore(cfg: Config, limit: nat, s: State, acts: seq<Action>, s': State)
    requires cfg.Valid() && WellFormed(cfg, s) && limit <= cfg.maxConcurrency
    requires Leads(cfg.(maxConcurrency := limit), s, acts, s')
    ensures Leads(cfg, s, acts, s')
    ensures AtomicReads(cfg.(maxConcurrency := limit), s, acts) ==> AtomicReads(cfg, s, acts)
    decreases |acts|
  {
    if acts != [] {
      MoreHoldersAllowMore(cfg, limit, Next(cfg, s, acts[0]), acts[1..], s');
    }
  }

  /** Every order of the parts is the order of the seeks in some run that completes and reads one part at a time. */
  lemma EveryOrderCanHappen(cfg: Config, start: Cursor, order: seq<nat>) returns (acts: seq<Action>, s: State)
    requires cfg.Valid() && start.position <= cfg.size && cfg.maxConcurrency >= 1 && Permutation(cfg.N(), order)
    ensures DoneAtomically(cfg, start, acts, s) && s.order == order
  {
    var serial := cfg.(maxConcurrency := 1);
    acts, s := SomeRunHasOrder(serial, start, order);
    ExclusiveDone(serial, start, acts, s);
    MoreHoldersAllowMore(cfg, 1, Init(cfg, start), acts, s);
  }

  // ---------------------------------------------------------------------------------------------
  // Failed attempts

  /** A goroutine in the middle of its part reports a failure and exits. */
  lemma Fail(cfg: Config, s: State, i: nat) returns (acts: seq<Action>, s': State)
    requires cfg.Valid() && WellFormed(cfg, s) && i < cfg.N() && s.gs[i].Uploading? && s.sem > 0 && |s.errs| < cfg.N()
    ensures Leads(cfg, s, acts, s') && WellFormed(cfg, s')
    ensures s' == s.(gs := s.gs[i := Exited(false)], sem := s.sem - 1, wg := s.wg - 1, errs := s.errs + [i])
  {
    var s1, s2, s3;
    acts, s1 := LeadsStep(cfg, s, [], s, UploadFail(i));
    acts, s2 := LeadsStep(cfg, s, acts, s1, Report(i));
    assert s2.gs == s.gs[i := Releasing(false)];
    acts, s3 := LeadsStep(cfg, s, acts, s2, Release(i));
    assert s3.gs == s.gs[i := Finishing(false)];
    acts, s' := LeadsStep(cfg, s, acts, s3, Finish(i));
    assert s'.gs == s.gs[i := Exited(false)];
  }

  /** Goroutine i seeks, reads some bytes of its part, and fails. */
  lemma FailAfter(cfg: Config, s: State, i: nat, count: nat) returns (acts: seq<Action>, s': State)
    requires cfg.Valid() && WellFormed(cfg, s) && i < cfg.N() && s.gs[i].Acquiring? && s.sem < cfg.maxConcurrency
    requires |s.errs| < cfg.N() && count <= PartLength(cfg, i)
    ensures Leads(cfg, s, acts, s') && WellFormed(cfg, s')
    ensures s'.gs == s.gs[i := Exited(false)] && s'.sem == s.sem && s'.wg == s.wg - 1 && s'.errs == s.errs + [i]
    ensures s'.phase == s.phase && s'.closed == s.closed
    ensures s'.body == Advance(Sought(cfg, s.body, i), count)
  {
    hide Leads, Enabled, Next;
    var xs, s1 := AcquireAndSeek(cfg, s, i);
    var ys := ReadSome(cfg, s1, i, count);
    var s2 := AfterRead(cfg, s1, i, count);
    var zs;
    zs, s' := Fail(cfg, s2, i);
    acts := LeadsThrice(cfg, s, xs, s1, ys, s2, zs, s');
  }

  lemma LeadsThrice(
    cfg: Config, s: State, xs: seq<Action>, s1: State, ys: seq<Action>, s2: State, zs: seq<Action>, s': State)
    returns (acts: seq<Action>)
    requires cfg.Valid() && WellFormed(cfg, s) && WellFormed(cfg, s1) && WellFormed(cfg, s2)
    requires Leads(cfg, s, xs, s1) && Leads(cfg, s1, ys, s2) && Leads(cfg, s2, zs, s')
    ensures Leads(cfg, s, acts, s')
  {
    LeadsAppend(cfg, s, xs, s1, ys, s2);
    LeadsAppend(cfg, s, xs + ys, s2, zs, s');
    acts := xs + ys + zs;
  }

  lemma ConcludeFailed(cfg: Config, s: State) returns (acts: seq<Action>, s': State)
    requires cfg.Valid() && WellFormed(cfg, s) && s.phase == Spawning(cfg.N()) && s.wg == 0 && s.errs != []
    ensures Leads(cfg, s, acts, s') && s'.phase.Returned? && s'.phase.outcome.Aborted? && s'.body == s.body
  {
    var s1, s2, s3;
    acts, s1 := LeadsStep(cfg, s, [], s, Wait);
    acts, s2 := LeadsStep(cfg, s, acts, s1, Close);
    acts, s3 := LeadsStep(cfg, s, acts, s2, Collect);
    acts, s' := LeadsStep(cfg, s, acts, s3, Abort);
  }

  lemma FailBoth(cfg: Config, s: State, count: nat) returns (acts: seq<Action>, s': State)
    requires cfg.Valid() && cfg.N() >= 2 && cfg.maxConcurrency >= 1 && Ready(cfg, s, [0, 1]) && count <= PartLength(cfg, 0)
    ensures Leads(cfg, s, acts, s') && s'.phase.Returned? && s'.phase.outcome.Aborted?
    ensures s'.body == Sought(cfg, Advance(Sought(cfg, s.body, 0), count), 1)
  {
    hide Leads, Enabled, Next;
    assert 0 in [0, 1] && 1 in [0, 1];
    var xs, s1 := FailAfter(cfg, s, 0, count);
    var ys, s2 := FailAfter(cfg, s1, 1, 0);
    var zs;
    zs, s' := ConcludeFailed(cfg, s2);
    acts := LeadsThrice(cfg, s, xs, s1, ys, s2, zs, s');
  }

  /**
   An attempt on a random body that fails and leaves the reader before the second part with the given
   number of bytes of the first one drawn: the other parts are uploaded first, then part 1 fails after
   that many bytes and part 2 right after its seek.
   */
  lemma FailedAttempt(cfg: Config, start: Cursor, count: nat) returns (acts: seq<Action>, s: State)
    requires cfg.Valid() && cfg.kind == Random && start.position <= cfg.size && cfg.N() >= 2 && cfg.maxConcurrency >= 1
    requires count <= cfg.partSize
    ensures Leads(cfg, Init(cfg, start), acts, s) && s.phase.Returned? && s.phase.outcome.Aborted?
    ensures s.body == Cursor(count, cfg.partSize)
  {
    var todo := Missing(cfg.N(), [0, 1]) + [0, 1];
    CompletedOrder(cfg.N(), [0, 1]);
    SpawnedReady(cfg, start, todo);
    PartsPartition(cfg.size, cfg.partSize, 1);
    var s0, s1 := Init(cfg, start), Spawned(cfg, start, cfg.N());
    var xs := SpawnAll(cfg, start, cfg.N());
    var ys, s2 := UploadSome(cfg, s1, todo, |todo| - 2);
    assert todo[|todo| - 2..] == [0, 1];
    var zs;
    zs, s := FailBoth(cfg, s2, count);
    acts := LeadsThrice(cfg, s0, xs, s1, ys, s2, zs, s);
    SecondAfterFirst(cfg, s2.body, count);
  }

  lemma SecondAfterFirst(cfg: Config, c: Cursor, count: nat)
    requires cfg.Valid() && cfg.kind == Random && c.position <= cfg.size && cfg.N() >= 2
    requires count <= PartLength(cfg, 0) == cfg.partSize
    ensures Sought(cfg, Advance(Sought(cfg, c, 0), count), 1) == Cursor(count, cfg.partSize)
  {
    OffsetsAreReachable(cfg.kind, cfg.size, cfg.partSize, 1, c.position);
    OffsetsAreReachable(cfg.kind, cfg.size, cfg.partSize, 2, count);
  }
}
