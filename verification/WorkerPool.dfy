/**
 The worker pool of internal/runner/runner.go as a step system: workers that check for a stop, check
 the operation limit, wait for the rate limiter, count an operation and execute it; and the main
 goroutine of Run, which waits for a trigger, then for all workers.
 */
module WorkerPool {
  import opened Counting

  /** limit is cfg.Operations, 0 for none; timed says cfg.Duration > 0. */
  datatype Config = Config(workers: nat, limit: nat, timed: bool)

  datatype Exit = ByContext | ByStop | ByLimit | ByLimiter

  /** Where a worker stands in its loop. */
  datatype Worker =
    | Top             // at the select on ctx.Done and stopChan
    | Checking        // about to load opsCounter
    | Waiting         // in rateLimiter.Wait
    | Executing       // counted, in executeOp
    | Exited(why: Exit)

  datatype Main = Selecting | Draining | Returned

  datatype State = State(
    workers: seq<Worker>,
    counter: nat,       // opsCounter
    finished: nat,      // operations whose executeOp has returned
    cancelled: bool,    // workerCtx is done
    stopped: bool,      // stopChan is closed
    main: Main
  )

  datatype Action =
    | Proceed(i: nat)                // the select takes its default
    | LeaveTop(i: nat, why: Exit)    // the select sees a stop
    | CheckLimit(i: nat)
    | LimiterOk(i: nat)
    | LimiterFails(i: nat)
    | FinishOp(i: nat)
    | CancelContext                  // the caller's context
    | Stop
    | DurationElapses                // the timer fires and main cancels
    | MainSelects                    // main sees the cancelled context or the closed channel
    | MainReturns

  function Init(cfg: Config): State
  {
    State(seq(cfg.workers, _ => Top), 0, 0, false, false, Selecting)
  }

  predicate Triggered(s: State)
  {
    s.cancelled || s.stopped
  }

  predicate Enabled(cfg: Config, s: State, a: Action)
  {
    match a
    case Proceed(i) => i < |s.workers| && s.workers[i].Top? && !Triggered(s)
    case LeaveTop(i, why) =>
      i < |s.workers| && s.workers[i].Top? && ((why.ByContext? && s.cancelled) || (why.ByStop? && s.stopped))
    case CheckLimit(i) => i < |s.workers| && s.workers[i].Checking?
    case LimiterOk(i) => i < |s.workers| && s.workers[i].Waiting?
    case LimiterFails(i) => i < |s.workers| && s.workers[i].Waiting?
    case FinishOp(i) => i < |s.workers| && s.workers[i].Executing?
    case CancelContext => !s.cancelled
    case Stop => !s.stopped
    case DurationElapses => cfg.timed && s.main.Selecting?
    case MainSelects => s.main.Selecting? && Triggered(s)
    case MainReturns => s.main.Draining? && forall i :: 0 <= i < |s.workers| ==> s.workers[i].Exited?
  }

  function Next(cfg: Config, s: State, a: Action): (s': State)
    requires Enabled(cfg, s, a)
    ensures |s'.workers| == |s.workers|
  {
    match a
    case Proceed(i) => s.(workers := s.workers[i := Checking])
    case LeaveTop(i, why) => s.(workers := s.workers[i := Exited(why)])
    case CheckLimit(i) =>
      if cfg.limit > 0 && s.counter >= cfg.limit
      then s.(workers := s.workers[i := Exited(ByLimit)])
      else s.(workers := s.workers[i := Waiting])
    case LimiterOk(i) => s.(workers := s.workers[i := Executing], counter := s.counter + 1)
    case LimiterFails(i) => s.(workers := s.workers[i := Exited(ByLimiter)])
    case FinishOp(i) => s.(workers := s.workers[i := Top], finished := s.finished + 1)
    case CancelContext => s.(cancelled := true)
    case Stop => s.(stopped := true)
    case DurationElapses => s.(cancelled := true, main := Draining)
    case MainSelects => s.(main := Draining)
    case MainReturns => s.(main := Returned)
  }

  ghost predicate Leads(cfg: Config, s: State, acts: seq<Action>, s': State)
    decreases |acts|
  {
    if acts == [] then s' == s
    else Enabled(cfg, s, acts[0]) && Leads(cfg, Next(cfg, s, acts[0]), acts[1..], s')
  }

  predicate IsWaiting(w: Worker)
  {
    w.Waiting?
  }

  predicate IsExecuting(w: Worker)
  {
    w.Executing?
  }

  // ---------------------------------------------------------------------------------------------
  // The operation limit

  /** The counter counts finished and running operations, and overshoots by less than the number of workers. */
  ghost predicate CountInv(cfg: Config, s: State)
  {
    && s.counter == s.finished + Count(s.workers, IsExecuting)
    && (cfg.limit > 0 && cfg.workers > 0 ==> s.counter + Count(s.workers, IsWaiting) <= cfg.limit + cfg.workers - 1)
  }

  /** Whoever has left had a reason that still holds. */
  ghost predicate ExitInv(cfg: Config, s: State)
  {
    forall i :: 0 <= i < |s.workers| && s.workers[i].Exited? ==>
      match s.workers[i].why
      case ByLimit => 0 < cfg.limit <= s.counter
      case ByContext => s.cancelled
      case ByStop => s.stopped
      case ByLimiter => true
  }

  ghost predicate MainInv(s: State)
  {
    && (!s.main.Selecting? ==> Triggered(s))
    && (s.main.Returned? ==> forall i :: 0 <= i < |s.workers| ==> s.workers[i].Exited?)
  }

  ghost predicate Inv(cfg: Config, s: State)
  {
    |s.workers| == cfg.workers && CountInv(cfg, s) && ExitInv(cfg, s) && MainInv(s)
  }

  lemma InitInv(cfg: Config)
    ensures Inv(cfg, Init(cfg))
  {
    CountNone(Init(cfg).workers, IsExecuting);
    CountNone(Init(cfg).workers, IsWaiting);
  }

  lemma CountsAfter(ws: seq<Worker>, i: nat, w: Worker)
    requires i < |ws|
    ensures Count(ws[i := w], IsWaiting) + (if ws[i].Waiting? then 1 else 0)
         == Count(ws, IsWaiting) + (if w.Waiting? then 1 else 0)
    ensures Count(ws[i := w], IsExecuting) + (if ws[i].Executing? then 1 else 0)
         == Count(ws, IsExecuting) + (if w.Executing? then 1 else 0)
    ensures !ws[i].Waiting? ==> Count(ws, IsWaiting) < |ws|
  {
    CountUpdate(ws, i, w, IsWaiting);
    CountUpdate(ws, i, w, IsExecuting);
    CountAtMost(ws, IsWaiting);
  }

  predicate IsWorkers(a: Action)
  {
    a.Proceed? || a.LeaveTop? || a.CheckLimit? || a.LimiterOk? || a.LimiterFails? || a.FinishOp?
  }

  lemma StepCounts(cfg: Config, s: State, a: Action)
    requires |s.workers| == cfg.workers && CountInv(cfg, s) && Enabled(cfg, s, a)
    ensures CountInv(cfg, Next(cfg, s, a))
  {
    if IsWorkers(a) {
      CountsAfter(s.workers, a.i, Next(cfg, s, a).workers[a.i]);
    }
  }

  lemma StepInv(cfg: Config, s: State, a: Action)
    requires Inv(cfg, s) && Enabled(cfg, s, a)
    ensures Inv(cfg, Next(cfg, s, a))
  {
    StepCounts(cfg, s, a);
  }

  lemma {:induction false} RunInv(cfg: Config, s: State, acts: seq<Action>, s': State)
    requires Inv(cfg, s) && Leads(cfg, s, acts, s')
    ensures Inv(cfg, s')
    decreases |acts|
  {
    if acts != [] {
      StepInv(cfg, s, acts[0]);
      RunInv(cfg, Next(cfg, s, acts[0]), acts[1..], s');
    }
  }

  ghost predicate Reachable(cfg: Config, s: State)
  {
    exists acts :: Leads(cfg, Init(cfg), acts, s)
  }

  /**
   In every interleaving the counter overshoots the limit by less than the number of workers, and at
   any time it counts exactly the operations finished or in progress.
   */
  lemma OperationLimit(cfg: Config, s: State)
    requires Reachable(cfg, s)
    ensures |s.workers| == cfg.workers && s.counter == s.finished + Count(s.workers, IsExecuting)
    ensures cfg.limit > 0 && cfg.workers > 0 ==>
              s.counter + Count(s.workers, IsWaiting) <= cfg.limit + cfg.workers - 1
    ensures cfg.limit > 0 && (exists i :: 0 <= i < cfg.workers && s.workers[i] == Exited(ByLimit)) ==>
              s.counter >= cfg.limit
  {
    var acts :| Leads(cfg, Init(cfg), acts, s);
    InitInv(cfg);
    RunInv(cfg, Init(cfg), acts, s);
  }

  predicate Makes(a: Action, i: nat, why: Exit)
  {
    a == LeaveTop(i, why) || (a == CheckLimit(i) && why == ByLimit) || (a == LimiterFails(i) && why == ByLimiter)
  }

  /** A worker has left exactly when it saw a stop, was refused by the limiter, or found the limit reached. */
  lemma {:induction false} WhyWorkersLeave(cfg: Config, s: State, acts: seq<Action>, s': State, i: nat)
    requires Leads(cfg, s, acts, s') && i < |s.workers| && !s.workers[i].Exited?
    ensures i < |s'.workers|
    ensures forall why :: s'.workers[i] == Exited(why) && why != ByLimit ==> exists a :: a in acts && Makes(a, i, why)
    ensures LimiterFails(i) in acts ==> s'.workers[i] == Exited(ByLimiter)
    ensures forall why :: LeaveTop(i, why) in acts ==> s'.workers[i] == Exited(why)
    decreases |acts|
  {
    if acts != [] {
      var a, s1 := acts[0], Next(cfg, s, acts[0]);
      assert forall b :: b in acts <==> b == a || b in acts[1..];
      if s1.workers[i].Exited? {
        assert a in acts && Makes(a, i, s1.workers[i].why);
        LeftForGood(cfg, s1, acts[1..], s', i);
      } else {
        WhyWorkersLeave(cfg, s1, acts[1..], s', i);
      }
    }
  }

  lemma {:induction false} LeftForGood(cfg: Config, s: State, acts: seq<Action>, s': State, i: nat)
    requires Leads(cfg, s, acts, s') && i < |s.workers| && s.workers[i].Exited?
    ensures i < |s'.workers| && s'.workers[i] == s.workers[i]
    ensures forall a :: a in acts && IsWorkers(a) ==> a.i != i
    decreases |acts|
  {
    if acts != [] {
      assert forall b :: b in acts <==> b == acts[0] || b in acts[1..];
      LeftForGood(cfg, Next(cfg, s, acts[0]), acts[1..], s', i);
    }
  }

  lemma Extend(cfg: Config, s: State, a: Action) returns (s': State)
    requires Reachable(cfg, s) && Enabled(cfg, s, a)
    ensures s' == Next(cfg, s, a) && Reachable(cfg, s')
  {
    s' := Next(cfg, s, a);
    var acts :| Leads(cfg, Init(cfg), acts, s);
    LeadsSnoc(cfg, Init(cfg), acts, s, a);
    assert Leads(cfg, Init(cfg), acts + [a], s');
  }

  lemma {:induction false} LeadsSnoc(cfg: Config, s: State, acts: seq<Action>, s1: State, a: Action)
    requires Leads(cfg, s, acts, s1) && Enabled(cfg, s1, a)
    ensures Leads(cfg, s, acts + [a], Next(cfg, s1, a))
    decreases |acts|
  {
    if acts == [] {
      assert [a][1..] == [] && acts + [a] == [a];
    } else {
      LeadsSnoc(cfg, Next(cfg, s, acts[0]), acts[1..], s1, a);
      assert (acts + [a])[1..] == acts[1..] + [a];
    }
  }

  /** Worker 0 runs k operations on its own. */
  lemma {:induction false} RunAlone(cfg: Config, k: nat)
    requires cfg.workers > 0 && (cfg.limit == 0 || k <= cfg.limit)
    ensures Reachable(cfg, Init(cfg).(counter := k, finished := k))
  {
    if k == 0 {
      assert Leads(cfg, Init(cfg), [], Init(cfg));
    } else {
      RunAlone(cfg, k - 1);
      OneMoreAlone(cfg, k - 1);
    }
  }

  lemma CheckAlone(cfg: Config, k: nat)
    requires cfg.workers > 0 && (cfg.limit == 0 || k < cfg.limit) && Reachable(cfg, Init(cfg).(counter := k, finished := k))
    ensures Reachable(cfg, State(Init(cfg).workers[0 := Waiting], k, k, false, false, Selecting))
  {
    var s := State(Init(cfg).workers, k, k, false, false, Selecting);
    var s1 := Extend(cfg, s, Proceed(0));
    var s2 := Extend(cfg, s1, CheckLimit(0));
    assert s2.workers == s.workers[0 := Waiting];
  }

  lemma OneMoreAlone(cfg: Config, k: nat)
    requires cfg.workers > 0 && (cfg.limit == 0 || k < cfg.limit) && Reachable(cfg, Init(cfg).(counter := k, finished := k))
    ensures Reachable(cfg, Init(cfg).(counter := k + 1, finished := k + 1))
  {
    CheckAlone(cfg, k);
    var ws := Init(cfg).workers;
    var s := State(ws[0 := Waiting], k, k, false, false, Selecting);
    var s1 := Extend(cfg, s, LimiterOk(0));
    assert s1.workers == ws[0 := Executing];
    var s2 := Extend(cfg, s1, FinishOp(0));
    assert s2.workers == ws;
  }

  function FirstThen(n: nat, k: nat, first: Worker, rest: Worker): (ws: seq<Worker>)
    ensures |ws| == n
  {
    seq(n, i => if i < k then first else rest)
  }

  /** From there the first k workers pass the check before any of them counts. */
  lemma {:induction false} PassTheCheck(cfg: Config, k: nat)
    requires cfg.limit > 0 && k <= cfg.workers && cfg.workers > 0
    ensures Reachable(cfg, State(FirstThen(cfg.workers, k, Waiting, Top), cfg.limit - 1, cfg.limit - 1, false, false, Selecting))
  {
    if k == 0 {
      RunAlone(cfg, cfg.limit - 1);
      assert FirstThen(cfg.workers, 0, Waiting, Top) == Init(cfg).workers;
    } else {
      PassTheCheck(cfg, k - 1);
      var s := State(FirstThen(cfg.workers, k - 1, Waiting, Top), cfg.limit - 1, cfg.limit - 1, false, false, Selecting);
      var s1 := Extend(cfg, s, Proceed(k - 1));
      var s2 := Extend(cfg, s1, CheckLimit(k - 1));
      assert s2.workers == FirstThen(cfg.workers, k, Waiting, Top);
    }
  }

  lemma {:induction false} CountThem(cfg: Config, k: nat)
    requires cfg.limit > 0 && k <= cfg.workers && cfg.workers > 0
    ensures Reachable(cfg, State(FirstThen(cfg.workers, k, Executing, Waiting), cfg.limit - 1 + k, cfg.limit - 1, false, false, Selecting))
  {
    if k == 0 {
      PassTheCheck(cfg, cfg.workers);
      assert FirstThen(cfg.workers, 0, Executing, Waiting) == FirstThen(cfg.workers, cfg.workers, Waiting, Top);
    } else {
      CountThem(cfg, k - 1);
      var s := State(FirstThen(cfg.workers, k - 1, Executing, Waiting), cfg.limit - 2 + k, cfg.limit - 1, false, false, Selecting);
      var s1 := Extend(cfg, s, LimiterOk(k - 1));
      assert s1.workers == FirstThen(cfg.workers, k, Executing, Waiting);
    }
  }

  /** The bound is attained for every limit and every number of workers: the check and the increment are separate steps. */
  lemma OvershootIsAttained(cfg: Config) returns (s: State)
    requires cfg.limit > 0 && cfg.workers > 0
    ensures Reachable(cfg, s) && s.counter == cfg.limit + cfg.workers - 1
  {
    CountThem(cfg, cfg.workers);
    s := State(FirstThen(cfg.workers, cfg.workers, Executing, Waiting), cfg.limit - 1 + cfg.workers, cfg.limit - 1, false, false, Selecting);
  }

  // ---------------------------------------------------------------------------------------------
  // Shutdown

  predicate IsTrigger(a: Action)
  {
    a.CancelContext? || a.Stop? || a.DurationElapses?
  }

  lemma {:induction false} TriggersComeFromOutside(cfg: Config, s: State, acts: seq<Action>, s': State)
    requires Leads(cfg, s, acts, s') && !Triggered(s)
    ensures Triggered(s') <==> exists k :: 0 <= k < |acts| && IsTrigger(acts[k])
    ensures !cfg.timed ==> forall k :: 0 <= k < |acts| ==> !acts[k].DurationElapses?
    decreases |acts|
  {
    if acts != [] {
      var s1 := Next(cfg, s, acts[0]);
      if IsTrigger(acts[0]) {
        TriggeredForEver(cfg, s1, acts[1..], s');
        assert IsTrigger(acts[0]);
      } else {
        TriggersComeFromOutside(cfg, s1, acts[1..], s');
        assert forall k :: 0 <= k < |acts| - 1 ==> acts[1..][k] == acts[k + 1];
        if k :| 0 <= k < |acts| && IsTrigger(acts[k]) {
          assert IsTrigger(acts[1..][k - 1]);
        }
      }
    }
  }

  lemma {:induction false} TriggeredForEver(cfg: Config, s: State, acts: seq<Action>, s': State)
    requires Leads(cfg, s, acts, s') && Triggered(s)
    ensures Triggered(s')
    ensures !cfg.timed ==> forall k :: 0 <= k < |acts| ==> !acts[k].DurationElapses?
    decreases |acts|
  {
    if acts != [] {
      TriggeredForEver(cfg, Next(cfg, s, acts[0]), acts[1..], s');
    }
  }

  /** A stop closes the channel, a cancel or the elapsed duration cancels the context, and nothing else does either. */
  lemma {:induction false} FlagsFollowTriggers(cfg: Config, s: State, acts: seq<Action>, s': State)
    requires Leads(cfg, s, acts, s')
    ensures s'.stopped <==> s.stopped || Stop in acts
    ensures s'.cancelled <==> s.cancelled || CancelContext in acts || DurationElapses in acts
    decreases |acts|
  {
    if acts != [] {
      FlagsFollowTriggers(cfg, Next(cfg, s, acts[0]), acts[1..], s');
      assert forall b :: b in acts <==> b == acts[0] || b in acts[1..];
    }
  }

  /** Run returns only after a cancel, a stop or the duration, and after every worker has called Done. */
  lemma ReturnsOnlyWhenTold(cfg: Config, acts: seq<Action>, s: State)
    requires Leads(cfg, Init(cfg), acts, s) && s.main.Returned?
    ensures exists k :: 0 <= k < |acts| && IsTrigger(acts[k])
    ensures |s.workers| == cfg.workers && forall i :: 0 <= i < cfg.workers ==> s.workers[i].Exited?
  {
    InitInv(cfg);
    RunInv(cfg, Init(cfg), acts, s);
    TriggersComeFromOutside(cfg, Init(cfg), acts, s);
  }

  /** Every worker has left through the limit check and nobody has told Run to stop. */
  ghost predicate LimitReached(cfg: Config, s: State)
  {
    && |s.workers| == cfg.workers && s.main.Selecting? && !Triggered(s)
    && forall i :: 0 <= i < cfg.workers ==> s.workers[i] == Exited(ByLimit)
  }

  /**
   Reaching the operation limit does not end Run: with all workers gone every continuation that takes
   a step at all begins with a cancel, a stop or the duration, and Run returns in none without one.
   With no duration set it waits in its select until somebody else cancels or stops it.
   */
  lemma LimitAloneDoesNotEndRun(cfg: Config, s: State, acts: seq<Action>, s': State)
    requires LimitReached(cfg, s) && Leads(cfg, s, acts, s')
    ensures acts != [] ==> IsTrigger(acts[0])
    ensures !cfg.timed && acts != [] ==> acts[0].CancelContext? || acts[0].Stop?
    ensures s'.main.Returned? ==> exists k :: 0 <= k < |acts| && IsTrigger(acts[k])
  {
    if acts != [] {
      assert Enabled(cfg, s, acts[0]);
    }
  }

  /** Having found the limit reached, the first k workers have left. */
  lemma {:induction false} LeaveByLimit(cfg: Config, k: nat)
    requires cfg.limit > 0 && k <= cfg.workers && cfg.workers > 0
    ensures Reachable(cfg, State(FirstThen(cfg.workers, k, Exited(ByLimit), Top), cfg.limit, cfg.limit, false, false, Selecting))
  {
    if k == 0 {
      RunAlone(cfg, cfg.limit);
      assert FirstThen(cfg.workers, 0, Exited(ByLimit), Top) == Init(cfg).workers;
    } else {
      LeaveByLimit(cfg, k - 1);
      var s := State(FirstThen(cfg.workers, k - 1, Exited(ByLimit), Top), cfg.limit, cfg.limit, false, false, Selecting);
      var s1 := Extend(cfg, s, Proceed(k - 1));
      var s2 := Extend(cfg, s1, CheckLimit(k - 1));
      assert s2.workers == FirstThen(cfg.workers, k, Exited(ByLimit), Top);
    }
  }

  /** With any number of workers and any limit, after exactly that many operations all can have left: LimitReached does happen. */
  lemma LimitIsReached(cfg: Config) returns (s: State)
    requires cfg.limit > 0 && cfg.workers > 0
    ensures Reachable(cfg, s) && LimitReached(cfg, s) && s.finished == cfg.limit
  {
    LeaveByLimit(cfg, cfg.workers);
    s := State(FirstThen(cfg.workers, cfg.workers, Exited(ByLimit), Top), cfg.limit, cfg.limit, false, false, Selecting);
  }

  /** Steps a worker can still take once a stop is visible. */
  function Rank(w: Worker): nat
  {
    match w
    case Top => 1
    case Executing => 2
    case Waiting => 3
    case Checking => 4
    case Exited(_) => 0
  }

  function MainRank(m: Main): nat
  {
    match m
    case Selecting => 2
    case Draining => 1
    case Returned => 0
  }

  /** Pending triggers count too: each can fire once. */
  function Measure(s: State): nat
  {
    Total(s.workers, Rank) + MainRank(s.main) + (if s.cancelled then 0 else 1) + (if s.stopped then 0 else 1)
  }

  lemma StepDecreases(cfg: Config, s: State, a: Action)
    requires Triggered(s) && Enabled(cfg, s, a)
    ensures Triggered(Next(cfg, s, a)) && Measure(Next(cfg, s, a)) < Measure(s)
  {
    if IsWorkers(a) {
      TotalUpdate(s.workers, a.i, Next(cfg, s, a).workers[a.i], Rank);
    }
  }

  /** Once a stop is visible the run is finite, and a worker counts at most one more operation. */
  lemma {:induction false} StopEndsTheRun(cfg: Config, s: State, acts: seq<Action>, s': State)
    requires Triggered(s) && |s.workers| == cfg.workers && Leads(cfg, s, acts, s')
    ensures |acts| + Measure(s') <= Measure(s)
    ensures |s'.workers| == cfg.workers
    ensures s'.counter + Count(s'.workers, BeforeCounting) <= s.counter + Count(s.workers, BeforeCounting)
    decreases |acts|
  {
    if acts != [] {
      var s1 := Next(cfg, s, acts[0]);
      StepDecreases(cfg, s, acts[0]);
      if IsWorkers(acts[0]) {
        CountUpdate(s.workers, acts[0].i, s1.workers[acts[0].i], BeforeCounting);
      }
      StopEndsTheRun(cfg, s1, acts[1..], s');
    }
  }

  /** Past the stop check but not yet counted. */
  predicate BeforeCounting(w: Worker)
  {
    w.Checking? || w.Waiting?
  }

  /** After a stop, and until Run returns, there is always a next step that is not another trigger. */
  lemma StopNeverBlocks(cfg: Config, s: State) returns (a: Action)
    requires Triggered(s) && !s.main.Returned?
    ensures Enabled(cfg, s, a) && !IsTrigger(a)
  {
    if s.main.Selecting? {
      a := MainSelects;
    } else if forall i :: 0 <= i < |s.workers| ==> s.workers[i].Exited? {
      a := MainReturns;
    } else {
      var i :| 0 <= i < |s.workers| && !s.workers[i].Exited?;
      match s.workers[i] {
        case Top => a := LeaveTop(i, if s.cancelled then ByContext else ByStop);
        case Checking => a := CheckLimit(i);
        case Waiting => a := LimiterOk(i);
        case Executing => a := FinishOp(i);
      }
    }
  }

  /** Hence after a stop at most one operation per worker is still counted. */
  lemma FewOperationsAfterStop(cfg: Config, s: State, acts: seq<Action>, s': State)
    requires Triggered(s) && |s.workers| == cfg.workers && Leads(cfg, s, acts, s')
    ensures s'.counter <= s.counter + cfg.workers
  {
    StopEndsTheRun(cfg, s, acts, s');
    CountAtMost(s.workers, BeforeCounting);
  }
}
