/**
 MultipartUpload of internal/s3/client.go as a step system: one goroutine a part, a counting
 semaphore, a buffered error channel, a wait group, and the main goroutine that spawns, waits,
 drains the errors and then aborts or completes. Goroutine i uploads part number i + 1. Every
 interleaving of the steps is a run.
 */
module MultipartProtocol {
  import opened Basics
  import opened Streams
  import opened Readers
  import opened Multipart
  import opened Counting

  datatype Config = Config(kind: Kind, stream: Stream, size: nat, partSize: nat, maxConcurrency: nat)
  {
    predicate Valid()
    {
      ValidSize(size) && partSize > 0
    }

    function N(): nat
      requires Valid()
    {
      NumParts(size, partSize)
    }
  }

  /** Where a goroutine stands; ok says whether its part was uploaded. */
  datatype Goroutine =
    | Unspawned
    | Acquiring            // at the send on sem
    | Seeking              // holds the semaphore, about to seek the shared body
    | Uploading(left: nat) // UploadPart has left bytes of its limited reader to go
    | Storing              // UploadPart succeeded, about to write completedParts
    | Reporting            // about to send on errChan
    | Releasing(ok: bool)  // deferred receive from sem
    | Finishing(ok: bool)  // deferred wg.Done
    | Exited(ok: bool)

  datatype Outcome =
    | Aborted(errors: seq<nat>)
    | Completed(parts: seq<Option<nat>>, accepted: bool)

  datatype Phase =
    | Spawning(next: nat)
    | Closing
    | Collecting
    | Aborting(errors: seq<nat>)
    | Completing
    | Returned(outcome: Outcome)

  datatype State = State(
    gs: seq<Goroutine>,
    sem: nat,                     // elements in the semaphore channel
    errs: seq<nat>,               // errChan, an error naming its goroutine
    closed: bool,                 // errChan is closed
    wg: int,
    phase: Phase,
    completed: seq<Option<nat>>,  // completedParts, each entry its part number
    body: Cursor,                 // the shared reader
    sent: seq<seq<byte>>,         // bytes each UploadPart has read so far
    skew: seq<nat>,               // lag of the reader when each part was sought
    order: seq<nat>               // goroutines in the order they sought the shared reader
  )

  datatype Action =
    | Spawn
    | Acquire(i: nat)
    | SeekBody(i: nat)
    | ReadBody(i: nat, count: nat)
    | UploadOk(i: nat)
    | UploadFail(i: nat)
    | Store(i: nat)
    | Report(i: nat)
    | Release(i: nat)
    | Finish(i: nat)
    | Wait
    | Close
    | Collect
    | Abort
    | Complete(accepted: bool)

  predicate WellFormed(cfg: Config, s: State)
    requires cfg.Valid()
  {
    && |s.gs| == |s.completed| == |s.sent| == |s.skew| == cfg.N()
    && s.body.position <= cfg.size
  }

  function Init(cfg: Config, body: Cursor): State
    requires cfg.Valid()
  {
    State(seq(cfg.N(), _ => Unspawned), 0, [], false, 0, Spawning(0),
          seq(cfg.N(), _ => None), body, seq(cfg.N(), _ => []), seq(cfg.N(), _ => 0), [])
  }

  predicate Enabled(cfg: Config, s: State, a: Action)
    requires cfg.Valid() && WellFormed(cfg, s)
  {
    match a
    case Spawn => s.phase.Spawning? && s.phase.next < cfg.N()
    case Acquire(i) => i < cfg.N() && s.gs[i].Acquiring? && s.sem < cfg.maxConcurrency
    case SeekBody(i) => i < cfg.N() && s.gs[i].Seeking?
    case ReadBody(i, count) =>
      i < cfg.N() && s.gs[i].Uploading? && 1 <= count <= s.gs[i].left && count <= cfg.size - s.body.position
    case UploadOk(i) => i < cfg.N() && s.gs[i].Uploading? && s.gs[i].left == 0
    case UploadFail(i) => i < cfg.N() && s.gs[i].Uploading?
    case Store(i) => i < cfg.N() && s.gs[i].Storing?
    case Report(i) => i < cfg.N() && s.gs[i].Reporting? && |s.errs| < cfg.N()
    case Release(i) => i < cfg.N() && s.gs[i].Releasing? && s.sem > 0
    case Finish(i) => i < cfg.N() && s.gs[i].Finishing?
    case Wait => s.phase.Spawning? && s.phase.next >= cfg.N() && s.wg == 0
    case Close => s.phase.Closing?
    case Collect => s.phase.Collecting?
    case Abort => s.phase.Aborting?
    case Complete(_) => s.phase.Completing?
  }

  function Next(cfg: Config, s: State, a: Action): (s': State)
    requires cfg.Valid() && WellFormed(cfg, s) && Enabled(cfg, s, a)
    ensures WellFormed(cfg, s')
  {
    match a
    case Spawn => s.(gs := s.gs[s.phase.next := Acquiring], wg := s.wg + 1, phase := Spawning(s.phase.next + 1))
    case Acquire(i) => s.(gs := s.gs[i := Seeking], sem := s.sem + 1)
    case SeekBody(i) => AfterSeek(cfg, s, i)
    case ReadBody(i, count) =>
      var (body, e) := ReadStep(cfg.stream, cfg.size, s.body, count);
      s.(gs := s.gs[i := Uploading(s.gs[i].left - count)], body := body, sent := s.sent[i := s.sent[i] + e.bytes])
    case UploadOk(i) => s.(gs := s.gs[i := Storing])
    case UploadFail(i) => s.(gs := s.gs[i := Reporting])
    case Store(i) => s.(gs := s.gs[i := Releasing(true)], completed := s.completed[i := Some(i + 1)])
    case Report(i) => s.(gs := s.gs[i := Releasing(false)], errs := s.errs + [i])
    case Release(i) => s.(gs := s.gs[i := Finishing(s.gs[i].ok)], sem := s.sem - 1)
    case Finish(i) => s.(gs := s.gs[i := Exited(s.gs[i].ok)], wg := s.wg - 1)
    case Wait => s.(phase := Closing)
    case Close => s.(closed := true, phase := Collecting)
    case Collect => s.(errs := [], phase := if |s.errs| > 0 then Aborting(s.errs) else Completing)
    case Abort => s.(phase := Returned(Aborted(s.phase.errors)))
    case Complete(accepted) => s.(phase := Returned(Completed(s.completed, accepted)))
  }

  /** body.Seek(offset, io.SeekStart) and the limited reader that follows it. */
  function AfterSeek(cfg: Config, s: State, i: nat): (s': State)
    requires cfg.Valid() && WellFormed(cfg, s) && i < cfg.N()
    ensures WellFormed(cfg, s')
  {
    PartsPartition(cfg.size, cfg.partSize, i + 1);
    var (body, r) := SeekStep(cfg.kind, cfg.size, s.body, Offset(cfg.partSize, i + 1), SeekStart);
    if r.Moved? then
      s.(gs := s.gs[i := Uploading(Length(cfg.size, cfg.partSize, i + 1))], body := body,
         skew := s.skew[i := if body.drawn <= body.position then body.position - body.drawn else 0], order := s.order + [i])
    else
      s.(gs := s.gs[i := Reporting], body := body)
  }

  /** s' is reached from s by the actions in turn. */
  ghost predicate Leads(cfg: Config, s: State, acts: seq<Action>, s': State)
    requires cfg.Valid() && WellFormed(cfg, s)
    decreases |acts|
  {
    if acts == [] then s' == s
    else Enabled(cfg, s, acts[0]) && Leads(cfg, Next(cfg, s, acts[0]), acts[1..], s')
  }

  // ---------------------------------------------------------------------------------------------
  // The invariant of every run

  predicate Holds(g: Goroutine)
  {
    g.Seeking? || g.Uploading? || g.Storing? || g.Reporting? || g.Releasing?
  }

  predicate Alive(g: Goroutine)
  {
    !g.Unspawned? && !g.Exited?
  }

  predicate Reported(g: Goroutine)
  {
    (g.Releasing? || g.Finishing? || g.Exited?) && !g.ok
  }

  predicate Stored(g: Goroutine)
  {
    (g.Releasing? || g.Finishing? || g.Exited?) && g.ok
  }

  ghost predicate AllExited(s: State)
  {
    forall i :: 0 <= i < |s.gs| ==> s.gs[i].Exited?
  }

  ghost predicate PhaseInv(cfg: Config, s: State)
    requires cfg.Valid() && WellFormed(cfg, s)
  {
    match s.phase
    case Spawning(next) =>
      && next <= cfg.N() && !s.closed && |s.errs| == Count(s.gs, Reported)
      && forall i :: 0 <= i < cfg.N() ==> (s.gs[i].Unspawned? <==> next <= i)
    case Closing => !s.closed && |s.errs| == Count(s.gs, Reported) && AllExited(s)
    case Collecting => s.closed && |s.errs| == Count(s.gs, Reported) && AllExited(s)
    case Aborting(errors) => s.closed && 0 < |errors| == Count(s.gs, Reported) && AllExited(s)
    case Completing => s.closed && Count(s.gs, Reported) == 0 && AllExited(s)
    case Returned(Aborted(errors)) => 0 < |errors| == Count(s.gs, Reported) && AllExited(s)
    case Returned(Completed(parts, _)) => Count(s.gs, Reported) == 0 && AllExited(s) && parts == s.completed
  }

  ghost predicate Inv(cfg: Config, s: State)
    requires cfg.Valid()
  {
    && WellFormed(cfg, s)
    && s.sem == Count(s.gs, Holds) <= cfg.maxConcurrency
    && s.wg == Count(s.gs, Alive)
    && (forall i :: 0 <= i < cfg.N() ==> s.completed[i] == if Stored(s.gs[i]) then Some(i + 1) else None)
    && PhaseInv(cfg, s)
  }

  lemma InitInv(cfg: Config, body: Cursor)
    requires cfg.Valid() && body.position <= cfg.size
    ensures Inv(cfg, Init(cfg, body))
  {
    var gs := Init(cfg, body).gs;
    CountNone(gs, Holds);
    CountNone(gs, Alive);
    CountNone(gs, Reported);
  }

  lemma CountsAfter(gs: seq<Goroutine>, i: nat, g: Goroutine)
    requires i < |gs|
    ensures Count(gs[i := g], Holds) + (if Holds(gs[i]) then 1 else 0) == Count(gs, Holds) + (if Holds(g) then 1 else 0)
    ensures Count(gs[i := g], Alive) + (if Alive(gs[i]) then 1 else 0) == Count(gs, Alive) + (if Alive(g) then 1 else 0)
    ensures Count(gs[i := g], Reported) + (if Reported(gs[i]) then 1 else 0)
         == Count(gs, Reported) + (if Reported(g) then 1 else 0)
  {
    CountUpdate(gs, i, g, Holds);
    CountUpdate(gs, i, g, Alive);
    CountUpdate(gs, i, g, Reported);
  }

  function One(b: bool): int
  {
    if b then 1 else 0
  }

  /** What one goroutine's step may change. */
  ghost predicate Moves(cfg: Config, s: State, i: nat, s': State)
    requires cfg.Valid() && WellFormed(cfg, s) && WellFormed(cfg, s') && i < cfg.N()
  {
    var g, g' := s.gs[i], s'.gs[i];
    && s.phase.Spawning? && s'.phase == s.phase && s'.closed == s.closed
    && s'.gs == s.gs[i := g'] && Alive(g) && !g'.Unspawned?
    && s'.sem == s.sem + One(Holds(g')) - One(Holds(g)) && s'.sem <= cfg.maxConcurrency
    && s'.wg == s.wg + One(Alive(g')) - 1
    && |s'.errs| == |s.errs| + One(Reported(g')) - One(Reported(g))
    && s'.completed == s.completed[i := if Stored(g') then Some(i + 1) else None]
  }

  predicate IsMain(a: Action)
  {
    a.Spawn? || a.Wait? || a.Close? || a.Collect? || a.Abort? || a.Complete?
  }

  lemma MovesInv(cfg: Config, s: State, i: nat, s': State)
    requires cfg.Valid() && Inv(cfg, s) && WellFormed(cfg, s') && i < cfg.N() && Moves(cfg, s, i, s')
    ensures Inv(cfg, s')
  {
    CountsAfter(s.gs, i, s'.gs[i]);
  }

  lemma MainStepInv(cfg: Config, s: State, a: Action)
    requires cfg.Valid() && Inv(cfg, s) && Enabled(cfg, s, a) && IsMain(a)
    ensures Inv(cfg, Next(cfg, s, a))
  {
    if a.Spawn? {
      CountsAfter(s.gs, s.phase.next, Acquiring);
    } else if a.Wait? {
      CountNone(s.gs, Alive);
    }
  }

  lemma StepInv(cfg: Config, s: State, a: Action)
    requires cfg.Valid() && Inv(cfg, s) && Enabled(cfg, s, a)
    ensures Inv(cfg, Next(cfg, s, a))
  {
    if IsMain(a) {
      MainStepInv(cfg, s, a);
    } else {
      MovesInv(cfg, s, a.i, Next(cfg, s, a));
    }
  }

  lemma {:induction false} RunInv(cfg: Config, s: State, acts: seq<Action>, s': State)
    requires cfg.Valid() && Inv(cfg, s) && Leads(cfg, s, acts, s')
    ensures Inv(cfg, s')
    decreases |acts|
  {
    if acts != [] {
      StepInv(cfg, s, acts[0]);
      RunInv(cfg, Next(cfg, s, acts[0]), acts[1..], s');
    }
  }

  // ---------------------------------------------------------------------------------------------
  // Safety

  /**
   In every reachable state the semaphore limit holds and no channel or wait-group operation can
   block for ever, panic or overrun: a pending error fits in the buffer of a channel still open,
   a pending receive finds a token, and Done never takes the counter below zero.
   */
  lemma NothingBlocksOrPanics(cfg: Config, body: Cursor, acts: seq<Action>, s: State, i: nat)
    requires cfg.Valid() && body.position <= cfg.size && Leads(cfg, Init(cfg, body), acts, s) && i < cfg.N()
    ensures |s.gs| == cfg.N() && Count(s.gs, Holds) == s.sem <= cfg.maxConcurrency
    ensures s.gs[i].Reporting? ==> |s.errs| < cfg.N() && !s.closed
    ensures s.gs[i].Releasing? ==> s.sem > 0
    ensures s.gs[i].Finishing? ==> s.wg > 0
    ensures s.closed ==> s.gs[i].Exited? && s.wg == 0
  {
    InitInv(cfg, body);
    RunInv(cfg, Init(cfg, body), acts, s);
    CountNone(s.gs, Holds);
    CountNone(s.gs, Alive);
    CountAtMost(s.gs, Reported);
  }

  predicate Failed(g: Goroutine)
  {
    g.Reporting? || Reported(g)
  }

  /** A goroutine fails by its failing upload and by nothing else; its seek never does. */
  lemma StepFails(cfg: Config, s: State, a: Action, i: nat)
    requires cfg.Valid() && Inv(cfg, s) && Enabled(cfg, s, a) && i < cfg.N()
    ensures Failed(Next(cfg, s, a).gs[i]) <==> Failed(s.gs[i]) || a == UploadFail(i)
  {
    if a.SeekBody? {
      OffsetsAreReachable(cfg.kind, cfg.size, cfg.partSize, a.i + 1, s.body.position);
    }
  }

  lemma {:induction false} RunFails(cfg: Config, s: State, acts: seq<Action>, s': State, i: nat)
    requires cfg.Valid() && Inv(cfg, s) && Leads(cfg, s, acts, s') && i < cfg.N()
    ensures WellFormed(cfg, s') && (Failed(s'.gs[i]) <==> Failed(s.gs[i]) || UploadFail(i) in acts)
    decreases |acts|
  {
    if acts != [] {
      StepFails(cfg, s, acts[0], i);
      StepInv(cfg, s, acts[0]);
      RunFails(cfg, Next(cfg, s, acts[0]), acts[1..], s', i);
      assert UploadFail(i) in acts <==> acts[0] == UploadFail(i) || UploadFail(i) in acts[1..];
    }
  }

  /** The errors sent so far, or those main has collected. */
  function Errors(s: State): seq<nat>
  {
    match s.phase
    case Aborting(errors) => errors
    case Returned(Aborted(errors)) => errors
    case _ => s.errs
  }

  /** Each goroutine that has reported is named once. */
  ghost predicate NamesReported(gs: seq<Goroutine>, errors: seq<nat>)
  {
    && (forall i: nat :: i in errors <==> i < |gs| && Reported(gs[i]))
    && (forall j, k :: 0 <= j < k < |errors| ==> errors[j] != errors[k])
  }

  lemma NobodyReported(cfg: Config, body: Cursor)
    requires cfg.Valid()
    ensures NamesReported(Init(cfg, body).gs, Errors(Init(cfg, body)))
  {
  }

  lemma NamesOneMore(gs: seq<Goroutine>, errors: seq<nat>, i: nat, g: Goroutine)
    requires NamesReported(gs, errors) && i < |gs| && !Reported(gs[i]) && Reported(g)
    ensures NamesReported(gs[i := g], errors + [i])
  {
    assert forall j :: 0 <= j < |errors| ==> errors[j] in errors;
    forall k: nat ensures k in errors + [i] <==> k < |gs| && Reported(gs[i := g][k]) {
      assert k in errors + [i] <==> k in errors || k == i;
    }
  }

  lemma NamesStay(gs: seq<Goroutine>, errors: seq<nat>, i: nat, g: Goroutine)
    requires NamesReported(gs, errors) && i < |gs| && (Reported(gs[i]) <==> Reported(g))
    ensures NamesReported(gs[i := g], errors)
  {
  }

  lemma MainStepNames(cfg: Config, s: State, a: Action)
    requires cfg.Valid() && Inv(cfg, s) && NamesReported(s.gs, Errors(s)) && Enabled(cfg, s, a) && IsMain(a)
    ensures NamesReported(Next(cfg, s, a).gs, Errors(Next(cfg, s, a)))
  {
    if a.Spawn? {
      NamesStay(s.gs, s.errs, s.phase.next, Acquiring);
    }
  }

  /** Only a report sends an error, and only by it a goroutine comes to have reported. */
  lemma StepReports(cfg: Config, s: State, a: Action)
    requires cfg.Valid() && Inv(cfg, s) && Enabled(cfg, s, a) && !IsMain(a)
    ensures var s' := Next(cfg, s, a); var g, g' := s.gs[a.i], s'.gs[a.i];
            && s'.gs == s.gs[a.i := g'] && Errors(s) == s.errs && Errors(s') == s'.errs
            && (if a.Report? then !Reported(g) && Reported(g') && s'.errs == s.errs + [a.i]
                else (Reported(g) <==> Reported(g')) && s'.errs == s.errs)
  {
  }

  lemma StepNames(cfg: Config, s: State, a: Action)
    requires cfg.Valid() && Inv(cfg, s) && NamesReported(s.gs, Errors(s)) && Enabled(cfg, s, a)
    ensures NamesReported(Next(cfg, s, a).gs, Errors(Next(cfg, s, a)))
  {
    if IsMain(a) {
      MainStepNames(cfg, s, a);
    } else {
      hide Next, Enabled, Errors, NamesReported;
      StepReports(cfg, s, a);
      if a.Report? {
        NamesOneMore(s.gs, s.errs, a.i, Next(cfg, s, a).gs[a.i]);
      } else {
        NamesStay(s.gs, s.errs, a.i, Next(cfg, s, a).gs[a.i]);
      }
    }
  }

  lemma {:induction false} RunNames(cfg: Config, s: State, acts: seq<Action>, s': State)
    requires cfg.Valid() && Inv(cfg, s) && NamesReported(s.gs, Errors(s)) && Leads(cfg, s, acts, s')
    ensures NamesReported(s'.gs, Errors(s'))
    decreases |acts|
  {
    if acts != [] {
      StepNames(cfg, s, acts[0]);
      StepInv(cfg, s, acts[0]);
      RunNames(cfg, Next(cfg, s, acts[0]), acts[1..], s');
    }
  }

  /** What the last step of a run that returned must have been. */
  function LastStep(outcome: Outcome): Action
  {
    match outcome
    case Aborted(_) => Abort
    case Completed(_, accepted) => Complete(accepted)
  }

  lemma StepReturns(cfg: Config, s: State, a: Action)
    requires cfg.Valid() && WellFormed(cfg, s) && Enabled(cfg, s, a)
    requires !s.phase.Returned? && Next(cfg, s, a).phase.Returned?
    ensures a == LastStep(Next(cfg, s, a).phase.outcome)
  {
  }

  lemma {:induction false} ReturnIsLast(cfg: Config, s: State, acts: seq<Action>, s': State)
    requires cfg.Valid() && Inv(cfg, s) && !s.phase.Returned? && Leads(cfg, s, acts, s') && s'.phase.Returned?
    ensures acts != [] && acts[|acts| - 1] == LastStep(s'.phase.outcome)
    decreases |acts|
  {
    hide Next, Enabled;
    var s1 := Next(cfg, s, acts[0]);
    StepInv(cfg, s, acts[0]);
    if s1.phase.Returned? {
      StepReturns(cfg, s, acts[0]);
      NothingAfterReturn(cfg, s1, acts[1..], s');
    } else {
      ReturnIsLast(cfg, s1, acts[1..], s');
    }
  }

  lemma NothingAfterReturn(cfg: Config, s: State, acts: seq<Action>, s': State)
    requires cfg.Valid() && Inv(cfg, s) && s.phase.Returned? && Leads(cfg, s, acts, s')
    ensures acts == [] && s' == s
  {
  }

  /**
   Every run that returns called exactly one of abort and complete, as its last step. It called complete
   when no part upload failed, with parts 1, ..., n in ascending order, and reports what the service
   answered; it called abort with the failed parts as errors, each once.
   */
  lemma OutcomeIsRight(cfg: Config, body: Cursor, acts: seq<Action>, s: State)
    requires cfg.Valid() && body.position <= cfg.size && Leads(cfg, Init(cfg, body), acts, s)
    requires s.phase.Returned?
    ensures |s.gs| == cfg.N()
    ensures s.phase.outcome.Completed? <==> forall i :: 0 <= i < cfg.N() ==> s.gs[i] == Exited(true)
    ensures s.phase.outcome.Completed? <==> forall i: nat :: i < cfg.N() ==> UploadFail(i) !in acts
    ensures s.phase.outcome.Completed? ==> s.phase.outcome.parts == seq(cfg.N(), i => Some(i + 1))
    ensures s.phase.outcome.Aborted? ==>
              var errors := s.phase.outcome.errors;
              && errors != [] && |errors| == Count(s.gs, Reported)
              && (forall i: nat :: i in errors <==> i < cfg.N() && UploadFail(i) in acts)
              && (forall j, k :: 0 <= j < k < |errors| ==> errors[j] != errors[k])
    ensures acts != [] && match s.phase.outcome
                          case Completed(_, accepted) => acts[|acts| - 1] == Complete(accepted)
                          case Aborted(_) => acts[|acts| - 1] == Abort
  {
    hide Leads, Next, Enabled;
    InitInv(cfg, body);
    RunInv(cfg, Init(cfg, body), acts, s);
    NobodyReported(cfg, body);
    RunNames(cfg, Init(cfg, body), acts, s);
    ReturnIsLast(cfg, Init(cfg, body), acts, s);
    CountNone(s.gs, Reported);
    FailedParts(cfg, body, acts, s);
  }

  lemma FailedParts(cfg: Config, body: Cursor, acts: seq<Action>, s: State)
    requires cfg.Valid() && body.position <= cfg.size && Leads(cfg, Init(cfg, body), acts, s)
    requires Inv(cfg, s) && s.phase.Returned?
    ensures forall i: nat :: i < cfg.N() ==> (Reported(s.gs[i]) <==> UploadFail(i) in acts)
  {
    forall i: nat | i < cfg.N() ensures Reported(s.gs[i]) <==> UploadFail(i) in acts {
      InitInv(cfg, body);
      RunFails(cfg, Init(cfg, body), acts, s, i);
      assert s.gs[i].Exited?;
    }
  }

  /** When all parts are uploaded the service may accept or reject the completion, and the upload returns its answer. */
  lemma EitherAnswer(cfg: Config, s: State, accepted: bool)
    requires cfg.Valid() && WellFormed(cfg, s) && s.phase.Completing?
    ensures Enabled(cfg, s, Complete(accepted))
    ensures Next(cfg, s, Complete(accepted)).phase == Returned(Completed(s.completed, accepted))
    ensures forall a :: Enabled(cfg, s, a) && IsMain(a) ==> a.Complete?
  {
  }

  // ---------------------------------------------------------------------------------------------
  // Progress

  /** Upper bound on the steps a goroutine still has to take. */
  function Rank(partSize: nat, g: Goroutine): nat
  {
    match g
    case Unspawned => partSize + 9
    case Acquiring => partSize + 8
    case Seeking => partSize + 7
    case Uploading(left) => left + 6
    case Storing => 5
    case Reporting => 5
    case Releasing(_) => 4
    case Finishing(_) => 3
    case Exited(_) => 0
  }

  function PhaseRank(p: Phase): nat
  {
    match p
    case Spawning(_) => 4
    case Closing => 3
    case Collecting => 2
    case Aborting(_) => 1
    case Completing => 1
    case Returned(_) => 0
  }

  function Measure(cfg: Config, s: State): nat
  {
    Total(s.gs, g => Rank(cfg.partSize, g)) + PhaseRank(s.phase)
  }

  lemma RankDrops(cfg: Config, s: State, a: Action)
    requires cfg.Valid() && WellFormed(cfg, s) && Enabled(cfg, s, a) && !IsMain(a)
    ensures var s' := Next(cfg, s, a);
            && s'.gs == s.gs[a.i := s'.gs[a.i]] && s'.phase == s.phase
            && Rank(cfg.partSize, s'.gs[a.i]) < Rank(cfg.partSize, s.gs[a.i])
  {
    PartsPartition(cfg.size, cfg.partSize, a.i + 1);
  }

  lemma MainStepDecreases(cfg: Config, s: State, a: Action)
    requires cfg.Valid() && Inv(cfg, s) && Enabled(cfg, s, a) && IsMain(a)
    ensures Measure(cfg, Next(cfg, s, a)) < Measure(cfg, s)
  {
    if a.Spawn? {
      assert s.gs[s.phase.next].Unspawned?;
      TotalUpdate(s.gs, s.phase.next, Acquiring, g => Rank(cfg.partSize, g));
    }
  }

  lemma StepDecreases(cfg: Config, s: State, a: Action)
    requires cfg.Valid() && Inv(cfg, s) && Enabled(cfg, s, a)
    ensures Measure(cfg, Next(cfg, s, a)) < Measure(cfg, s)
  {
    var w := g => Rank(cfg.partSize, g);
    if IsMain(a) {
      MainStepDecreases(cfg, s, a);
    } else {
      RankDrops(cfg, s, a);
      TotalUpdate(s.gs, a.i, Next(cfg, s, a).gs[a.i], w);
    }
  }

  /** With a positive limit some step is always possible until the upload returns. */
  lemma NeverStuck(cfg: Config, s: State) returns (a: Action)
    requires cfg.Valid() && Inv(cfg, s) && !s.phase.Returned? && cfg.maxConcurrency >= 1
    ensures Enabled(cfg, s, a)
  {
    match s.phase {
      case Closing => a := Close;
      case Collecting => a := Collect;
      case Aborting(_) => a := Abort;
      case Completing => a := Complete(true);
      case Spawning(next) =>
        if next < cfg.N() {
          a := Spawn;
        } else if s.wg == 0 {
          a := Wait;
        } else {
          a := SomeGoroutineSteps(cfg, s);
        }
    }
  }

  lemma SomeGoroutineSteps(cfg: Config, s: State) returns (a: Action)
    requires cfg.Valid() && Inv(cfg, s) && s.phase.Spawning? && s.wg != 0 && cfg.maxConcurrency >= 1
    ensures Enabled(cfg, s, a)
  {
    CountNone(s.gs, Alive);
    CountNone(s.gs, Holds);
    CountAtMost(s.gs, Reported);
    var i :| 0 <= i < cfg.N() && Alive(s.gs[i]);
    if s.gs[i].Finishing? {
      a := Finish(i);
    } else if s.sem == 0 {
      a := Acquire(i);
    } else {
      var h :| 0 <= h < cfg.N() && Holds(s.gs[h]);
      match s.gs[h] {
        case Seeking => a := SeekBody(h);
        case Uploading(_) => a := UploadFail(h);
        case Storing => a := Store(h);
        case Reporting => a := Report(h);
        case Releasing(_) => a := Release(h);
      }
    }
  }

  /** Every run is finite: it has no more steps than the initial measure. */
  lemma {:induction false} RunsAreFinite(cfg: Config, s: State, acts: seq<Action>, s': State)
    requires cfg.Valid() && Inv(cfg, s) && Leads(cfg, s, acts, s')
    ensures Inv(cfg, s') && |acts| + Measure(cfg, s') <= Measure(cfg, s)
    decreases |acts|
  {
    if acts != [] {
      StepInv(cfg, s, acts[0]);
      StepDecreases(cfg, s, acts[0]);
      RunsAreFinite(cfg, Next(cfg, s, acts[0]), acts[1..], s');
    }
  }

  lemma {:induction false} CanFinish(cfg: Config, s: State) returns (acts: seq<Action>, s': State)
    requires cfg.Valid() && Inv(cfg, s) && cfg.maxConcurrency >= 1
    ensures Leads(cfg, s, acts, s') && s'.phase.Returned?
    decreases Measure(cfg, s)
  {
    if s.phase.Returned? {
      acts, s' := [], s;
    } else {
      var a := NeverStuck(cfg, s);
      StepInv(cfg, s, a);
      StepDecreases(cfg, s, a);
      acts, s' := CanFinish(cfg, Next(cfg, s, a));
      assert ([a] + acts)[1..] == acts;
      acts := [a] + acts;
    }
  }

  /** With a positive limit no run goes on for ever, and a run that cannot be continued has returned. */
  lemma MaximalRunsReturn(cfg: Config, body: Cursor, acts: seq<Action>, s: State)
    requires cfg.Valid() && body.position <= cfg.size && Leads(cfg, Init(cfg, body), acts, s) && cfg.maxConcurrency >= 1
    ensures |acts| <= Measure(cfg, Init(cfg, body))
    ensures WellFormed(cfg, s) && ((forall a :: !Enabled(cfg, s, a)) ==> s.phase.Returned?)
  {
    InitInv(cfg, body);
    RunsAreFinite(cfg, Init(cfg, body), acts, s);
    if !s.phase.Returned? {
      var a := NeverStuck(cfg, s);
    }
  }

  /** With limit 0 every goroutine waits at the semaphore. */
  ghost predicate Wedged(cfg: Config, s: State)
    requires cfg.Valid()
  {
    && Inv(cfg, s) && s.phase.Spawning?
    && forall i :: 0 <= i < cfg.N() ==> s.gs[i].Unspawned? || s.gs[i].Acquiring?
  }

  lemma {:induction false} WedgedForEver(cfg: Config, s: State, acts: seq<Action>, s': State)
    requires cfg.Valid() && Wedged(cfg, s) && cfg.maxConcurrency == 0 && cfg.N() > 0
    requires Leads(cfg, s, acts, s')
    ensures s'.phase.Spawning?
    decreases |acts|
  {
    if acts != [] {
      StepInv(cfg, s, acts[0]);
      CountNone(s.gs, Alive);
      assert s.gs[0].Acquiring? ==> Alive(s.gs[0]);
      WedgedForEver(cfg, Next(cfg, s, acts[0]), acts[1..], s');
    }
  }

  lemma EmptyUploadReturns(cfg: Config, body: Cursor) returns (acts: seq<Action>, s: State)
    requires cfg.Valid() && body.position <= cfg.size == 0
    ensures Leads(cfg, Init(cfg, body), acts, s) && s.phase.Returned?
  {
    var s0 := Init(cfg, body);
    var s1 := s0.(phase := Closing);
    var s2 := s1.(closed := true, phase := Collecting);
    var s3 := s2.(phase := Completing);
    s := s3.(phase := Returned(Completed([], true)));
    acts := [Wait, Close, Collect, Complete(true)];
    assert acts[1..] == [Close, Collect, Complete(true)] && acts[1..][1..] == [Collect, Complete(true)]
        && acts[1..][1..][1..] == [Complete(true)] && acts[1..][1..][1..][1..] == [];
    assert Leads(cfg, s3, acts[1..][1..][1..], s);
    assert Leads(cfg, s2, acts[1..][1..], s);
    assert Leads(cfg, s1, acts[1..], s);
  }

  ghost predicate CanReturn(cfg: Config, body: Cursor)
    requires cfg.Valid() && body.position <= cfg.size
  {
    exists acts, s :: Leads(cfg, Init(cfg, body), acts, s) && s.phase.Returned?
  }

  /** Exactly when an upload can return at all: with a limit of 0 it hangs unless there are no parts. */
  lemma CanReturnIff(cfg: Config, body: Cursor)
    requires cfg.Valid() && body.position <= cfg.size
    ensures CanReturn(cfg, body) <==> cfg.maxConcurrency >= 1 || cfg.size == 0
  {
    var s0 := Init(cfg, body);
    InitInv(cfg, body);
    NumPartsBounds(cfg.size, cfg.partSize);
    if cfg.maxConcurrency >= 1 {
      var acts, s := CanFinish(cfg, s0);
    } else if cfg.size == 0 {
      var acts, s := EmptyUploadReturns(cfg, body);
    } else {
      forall acts, s | Leads(cfg, s0, acts, s)
        ensures !s.phase.Returned?
      {
        WedgedForEver(cfg, s0, acts, s);
      }
    }
  }

  // ---------------------------------------------------------------------------------------------
  // Arguments an upload is called with: 64-bit part sizes of any sign, any limit

  /** How far an upload gets before it spawns goroutines. */
  datatype Start = Panics | Starts(parts: nat)

  /** Go's integer division. */
  function Quotient(a: int, b: int): int
    requires b != 0
  {
    if a >= 0 then (if b > 0 then a / b else -(a / -b)) else (if b > 0 then -(-a / b) else -a / -b)
  }

  /** numParts as computed with wrapping additions. */
  function PartsComputed(size: Int64, partSize: Int64): int
    requires partSize != 0
  {
    Quotient(Add64(Add64(size, partSize), -1), partSize)
  }

  /** The number of parts, the slice of completed parts, and the two channels. */
  function StartUpload(size: Int64, partSize: Int64, limit: int): Start
  {
    if partSize == 0 then Panics else
    var n := PartsComputed(size, partSize);
    if n < 0 || limit < 0 then Panics else Starts(n)
  }

  /** The sum in the numerator exceeds 64 bits. */
  predicate Wraps(size: nat, partSize: int)
  {
    size + partSize - 1 >= TWO_63
  }

  lemma QuotientSign(a: nat, m: int)
    requires m > 0
    ensures 0 <= a / m && (a / m >= 1 <==> a >= m)
  {
    var q, r := a / m, a % m;
    assert a == q * m + r;
    if q >= 1 {
      assert q * m >= m;
    }
  }

  /**
   The number of parts is the intended one exactly when the sum does not wrap. If it does, the result
   is negative, or 0 when the part size is larger still.
   */
  lemma PartsComputedIff(size: Int64, partSize: Int64)
    requires size >= 0 && partSize > 0
    ensures PartsComputed(size, partSize) == NumParts(size, partSize) <==> !Wraps(size, partSize)
    ensures Wraps(size, partSize) ==>
              PartsComputed(size, partSize) <= 0
              && (PartsComputed(size, partSize) < 0 <==> size + 2 * partSize <= 2 * TWO_63 + 1)
  {
    NumPartsBounds(size, partSize);
    if Wraps(size, partSize) {
      QuotientSign(2 * TWO_63 - (size + partSize - 1), partSize);
    }
  }

  /** When it does not wrap, neither does any other sum or product of the part arithmetic. */
  lemma PartArithmeticFits(size: nat, partSize: nat, part: nat)
    requires partSize > 0 && part >= 1 && !Wraps(size, partSize)
    ensures part <= NumParts(size, partSize) ==> Offset(partSize, part) + partSize < TWO_63
  {
    if part <= NumParts(size, partSize) {
      NumPartsBounds(size, partSize);
      OffsetMonotone(partSize, part, NumParts(size, partSize));
      assert NumParts(size, partSize) * partSize == Offset(partSize, NumParts(size, partSize)) + partSize;
    }
  }

  /**
   Exactly which arguments make an upload panic at once: a part size of 0, a negative limit, a
   negative part size for an object of more than twice its magnitude, and a part size for which the
   sum wraps to something at least as large in magnitude.
   */
  lemma StartPanicsIff(size: Int64, partSize: Int64, limit: int)
    requires size >= 0
    ensures StartUpload(size, partSize, limit).Panics?
       <==> || partSize == 0 || limit < 0 || (partSize < 0 && size > -2 * partSize)
            || (partSize > 0 && Wraps(size, partSize) && size + 2 * partSize <= 2 * TWO_63 + 1)
    ensures partSize > 0 && limit >= 0 && !Wraps(size, partSize) ==>
              StartUpload(size, partSize, limit) == Starts(NumParts(size, partSize))
  {
    if partSize > 0 {
      PartsComputedIff(size, partSize);
    } else if partSize < 0 {
      NegativePartSize(size, partSize);
    }
  }

  lemma NegativePartSize(size: Int64, partSize: Int64)
    requires size >= 0 && partSize < 0
    ensures PartsComputed(size, partSize) < 0 <==> size > -2 * partSize
  {
    var a: int, m: int := Add64(Add64(size, partSize), -1), partSize;
    QuotientSign(if a >= 0 then a else -a, -m);
  }

  /** An upload of which no parts are computed runs like one of an empty object. */
  ghost predicate UploadCanReturn(kind: Kind, stream: Stream, size: Int64, partSize: Int64, limit: int, body: Cursor)
    requires size >= 0 && partSize >= 0 && body.position <= size
  {
    var start := StartUpload(size, partSize, limit);
    && start.Starts?
    && if start.parts == 0 then CanReturn(Config(kind, stream, 0, partSize, limit), Cursor(0, 0))
       else CanReturn(Config(kind, stream, size, partSize, limit), body)
  }

  /** Exactly when an upload can return, for any limit and any part size that is not negative. */
  lemma UploadCanReturnIff(kind: Kind, stream: Stream, size: Int64, partSize: Int64, limit: int, body: Cursor)
    requires size >= 0 && partSize >= 0 && body.position <= size
    ensures UploadCanReturn(kind, stream, size, partSize, limit, body)
       <==> partSize > 0 && limit >= 0
            && (if Wraps(size, partSize) then size + 2 * partSize > 2 * TWO_63 + 1 else limit >= 1 || size == 0)
  {
    StartPanicsIff(size, partSize, limit);
    if partSize > 0 && limit >= 0 {
      PartsComputedIff(size, partSize);
      NumPartsBounds(size, partSize);
      CanReturnIff(Config(kind, stream, size, partSize, limit), body);
      CanReturnIff(Config(kind, stream, 0, partSize, limit), Cursor(0, 0));
    }
  }
}
