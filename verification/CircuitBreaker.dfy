/**
 The circuit breaker of internal/s3/retry.go, and what it decides in every run.

 Time is an integer; a call reads the clock once on entry (time.Since) and once when fn fails.
 */
module CircuitBreaker {

  datatype CircuitState = Closed | Open | HalfOpen

  datatype Outcome = Rejected | Failed | Succeeded

  datatype Settings = Settings(maxFailures: int, resetTimeout: int)
  {
    /** Failures in a row that open the breaker: at least one, whatever maxFailures says. */
    function Threshold(): (m: int)
      ensures m >= 1
    {
      if maxFailures < 1 then 1 else maxFailures
    }
  }

  datatype Fields = Fields(failures: int, lastFailure: int, state: CircuitState)

  /** The pending reset of an open breaker whose timeout has passed. */
  function Refresh(cfg: Settings, b: Fields, now: int): Fields
  {
    if b.state == Open && now - b.lastFailure > cfg.resetTimeout then b.(state := HalfOpen, failures := 0) else b
  }

  function CallStep(cfg: Settings, b: Fields, ok: bool, start: int, end: int): (Fields, Outcome)
  {
    var b1 := Refresh(cfg, b, start);
    if b1.state == Open then (b1, Rejected)
    else if ok then (Fields(0, b1.lastFailure, Closed), Succeeded)
    else (Fields(b1.failures + 1, end, if b1.failures + 1 >= cfg.maxFailures then Open else b1.state), Failed)
  }

  class CircuitBreaker {
    const cfg: Settings
    var failures: int
    var lastFailure: int
    var state: CircuitState

    function Value(): Fields
      reads this
    {
      Fields(failures, lastFailure, state)
    }

    constructor (maxFailures: int, resetTimeout: int)
      ensures cfg == Settings(maxFailures, resetTimeout) && Value() == Fields(0, 0, Closed)
    {
      cfg := Settings(maxFailures, resetTimeout);
      failures := 0;
      lastFailure := 0;
      state := Closed;
    }

    /** fnOk is what fn would return, start and end the clock on entry and on its failure. */
    method Call(fnOk: bool, start: int, end: int) returns (r: Outcome)
      modifies this
      ensures (Value(), r) == CallStep(cfg, old(Value()), fnOk, start, end)
    {
      if state == Open {
        if start - lastFailure > cfg.resetTimeout {
          state := HalfOpen;
          failures := 0;
        } else {
          return Rejected;
        }
      }
      if !fnOk {
        failures := failures + 1;
        lastFailure := end;
        if failures >= cfg.maxFailures {
          state := Open;
        }
        return Failed;
      }
      failures := 0;
      state := Closed;
      return Succeeded;
    }

    method IsOpen(now: int) returns (open: bool)
      modifies this
      ensures Value() == Refresh(cfg, old(Value()), now) && (open <==> Value().state == Open)
    {
      if state == Open && now - lastFailure > cfg.resetTimeout {
        state := HalfOpen;
        failures := 0;
      }
      open := state == Open;
    }
  }

  // ---------------------------------------------------------------------------------------------
  // Runs

  datatype Event = Call(ok: bool, start: int, end: int) | IsOpen(now: int)

  datatype Answer = Called(outcome: Outcome) | Told(open: bool)

  function Step(cfg: Settings, b: Fields, e: Event): (Fields, Answer)
  {
    match e
    case Call(ok, start, end) =>
      var (b', o) := CallStep(cfg, b, ok, start, end);
      (b', Called(o))
    case IsOpen(now) =>
      var b' := Refresh(cfg, b, now);
      (b', Told(b'.state == Open))
  }

  function Run(cfg: Settings, b: Fields, events: seq<Event>): (r: (Fields, seq<Answer>))
    ensures |r.1| == |events|
    decreases |events|
  {
    if events == [] then (b, []) else
    var (b1, a) := Step(cfg, b, events[0]);
    var (b2, rest) := Run(cfg, b1, events[1..]);
    (b2, [a] + rest)
  }

  /** The clock never runs backwards. */
  predicate Monotone(now: int, events: seq<Event>)
    decreases |events|
  {
    events != [] ==>
      match events[0]
      case Call(_, start, end) => now <= start <= end && Monotone(end, events[1..])
      case IsOpen(at) => now <= at && Monotone(at, events[1..])
  }

  // ---------------------------------------------------------------------------------------------
  // The reference: only the executed calls matter.

  /** Executed failures since the latest executed success, and when the last of them happened. */
  datatype History = History(streak: nat, last: int)

  predicate Refuses(cfg: Settings, h: History, now: int)
  {
    h.streak > 0 && h.streak % cfg.Threshold() == 0 && now - h.last <= cfg.resetTimeout
  }

  function Recall(cfg: Settings, h: History, e: Event): (History, Answer)
  {
    match e
    case IsOpen(now) => (h, Told(Refuses(cfg, h, now)))
    case Call(ok, start, end) =>
      if Refuses(cfg, h, start) then (h, Called(Rejected))
      else if ok then (History(0, h.last), Called(Succeeded))
      else (History(h.streak + 1, end), Called(Failed))
  }

  function RecallRun(cfg: Settings, h: History, events: seq<Event>): (r: (History, seq<Answer>))
    ensures |r.1| == |events|
    decreases |events|
  {
    if events == [] then (h, []) else
    var (h1, a) := Recall(cfg, h, events[0]);
    var (h2, rest) := RecallRun(cfg, h1, events[1..]);
    (h2, [a] + rest)
  }

  /**
   How the fields record the history: failures counts the streak modulo the threshold, the breaker
   is open when a whole threshold has been reached, and a half-open breaker with no failures is an
   open one whose timeout has been noticed.
   */
  ghost predicate Records(cfg: Settings, b: Fields, h: History, now: int)
  {
    var m := cfg.Threshold();
    && (h.streak > 0 ==> b.lastFailure == h.last)
    && match b.state
       case Closed => b.failures == h.streak < m
       case Open => b.failures == m && h.streak > 0 && h.streak % m == 0
       case HalfOpen =>
         && h.streak > 0 && b.failures == h.streak % m
         && (h.streak % m == 0 ==> now - h.last > cfg.resetTimeout)
  }

  lemma SmallMultiple(k: int, m: int)
    requires m > 0 && -m < k * m < m
    ensures k == 0
  {
  }

  lemma ModUnique(q: int, r: int, m: int, x: int)
    requires m > 0 && 0 <= r < m && x == q * m + r
    ensures x % m == r
  {
    var p, t := x / m, x % m;
    assert x == p * m + t;
    assert (p - q) * m == p * m - q * m;
    SmallMultiple(p - q, m);
  }

  lemma ModSuccessor(x: nat, m: int)
    requires m >= 1
    ensures (x + 1) % m == if x % m == m - 1 then 0 else x % m + 1
    ensures x < m ==> x % m == x
  {
    assert x == (x / m) * m + x % m;
    if x % m == m - 1 {
      assert (x / m + 1) * m == (x / m) * m + m;
      ModUnique(x / m + 1, 0, m, x + 1);
    } else {
      ModUnique(x / m, x % m + 1, m, x + 1);
    }
    if x < m {
      ModUnique(0, x, m, x);
    }
  }

  lemma StepAgrees(cfg: Settings, b: Fields, h: History, now: int, e: Event)
    requires Records(cfg, b, h, now) && Monotone(now, [e])
    ensures var (b', a) := Step(cfg, b, e);
            var (h', a') := Recall(cfg, h, e);
            a == a' && Records(cfg, b', h', if e.Call? then e.end else e.now)
  {
    ModSuccessor(h.streak, cfg.Threshold());
  }

  /**
   In every run with a monotone clock every answer is what the history of executed calls says:
   a call is refused, and IsOpen answers true, exactly when the executed failures since the latest
   success are a positive multiple of the threshold and the last of them is at most resetTimeout old.
   */
  lemma {:induction false} AnswersFollowHistory(cfg: Settings, b: Fields, h: History, now: int, events: seq<Event>)
    returns (end: int)
    requires Records(cfg, b, h, now) && Monotone(now, events)
    ensures Run(cfg, b, events).1 == RecallRun(cfg, h, events).1
    ensures Records(cfg, Run(cfg, b, events).0, RecallRun(cfg, h, events).0, end)
    decreases |events|
  {
    end := now;
    if events != [] {
      StepAgrees(cfg, b, h, now, events[0]);
      var b1, h1 := Step(cfg, b, events[0]).0, Recall(cfg, h, events[0]).0;
      end := AnswersFollowHistory(cfg, b1, h1, if events[0].Call? then events[0].end else events[0].now, events[1..]);
    }
  }

  /** A fresh breaker and what one can tell from its fields after any run. */
  lemma BreakerInvariant(cfg: Settings, now: int, events: seq<Event>)
    requires Monotone(now, events)
    ensures var b, h := Run(cfg, Fields(0, 0, Closed), events).0, RecallRun(cfg, History(0, 0), events).0;
            && (b.state == Open <==> b.failures >= cfg.Threshold())
            && (b.state == Open ==> h.streak > 0 && h.streak % cfg.Threshold() == 0)
            && (b.state != Open ==> b.failures == h.streak % cfg.Threshold())
            && (b.state == Closed ==> b.failures == h.streak < cfg.Threshold())
  {
    var end := AnswersFollowHistory(cfg, Fields(0, 0, Closed), History(0, 0), now, events);
    var h := RecallRun(cfg, History(0, 0), events).0;
    ModSuccessor(h.streak, cfg.Threshold());
  }

  function Calls(events: seq<Event>): seq<Event>
  {
    if events == [] then [] else (if events[0].Call? then [events[0]] else []) + Calls(events[1..])
  }

  function Outcomes(answers: seq<Answer>): seq<Outcome>
  {
    if answers == [] then []
    else (if answers[0].Called? then [answers[0].outcome] else []) + Outcomes(answers[1..])
  }

  lemma OutcomesCons(a: Answer, rest: seq<Answer>)
    ensures Outcomes([a] + rest) == (if a.Called? then [a.outcome] else []) + Outcomes(rest)
  {
    assert ([a] + rest)[1..] == rest;
  }

  lemma {:induction false} QueriesLeaveHistory(cfg: Settings, h: History, events: seq<Event>)
    ensures Outcomes(RecallRun(cfg, h, events).1) == Outcomes(RecallRun(cfg, h, Calls(events)).1)
    decreases |events|
  {
    if events != [] {
      var (h1, a) := Recall(cfg, h, events[0]);
      QueriesLeaveHistory(cfg, h1, events[1..]);
      OutcomesCons(a, RecallRun(cfg, h1, events[1..]).1);
      if events[0].Call? {
        assert Calls(events)[0] == events[0] && Calls(events)[1..] == Calls(events[1..]);
        OutcomesCons(a, RecallRun(cfg, h1, Calls(events[1..])).1);
      } else {
        assert Calls(events) == Calls(events[1..]);
      }
    }
  }

  lemma {:induction false} CallsMonotone(now: int, from: int, events: seq<Event>)
    requires now <= from && Monotone(from, events)
    ensures Monotone(now, Calls(events))
    decreases |events|
  {
    if events != [] {
      match events[0] {
        case Call(_, start, end) =>
          CallsMonotone(end, end, events[1..]);
          assert Calls(events)[1..] == Calls(events[1..]);
        case IsOpen(at) =>
          CallsMonotone(now, at, events[1..]);
          assert Calls(events) == Calls(events[1..]);
      }
    }
  }

  /**
   IsOpen is transparent: although it may change the breaker's fields, leaving out all IsOpen calls
   of a run changes the outcome of no Call, hence no decision whether fn is executed.
   */
  lemma IsOpenIsTransparent(cfg: Settings, now: int, events: seq<Event>)
    requires Monotone(now, events)
    ensures Outcomes(Run(cfg, Fields(0, 0, Closed), events).1)
         == Outcomes(Run(cfg, Fields(0, 0, Closed), Calls(events)).1)
  {
    var b, h := Fields(0, 0, Closed), History(0, 0);
    var _ := AnswersFollowHistory(cfg, b, h, now, events);
    CallsMonotone(now, now, events);
    var _ := AnswersFollowHistory(cfg, b, h, now, Calls(events));
    QueriesLeaveHistory(cfg, h, events);
  }

  /** With a clock that steps back the query does matter: it can let a call through. */
  lemma ClockStepsBack()
    ensures var cfg := Settings(1, 10);
            var fail, retry := Call(false, 0, 0), Call(true, 5, 5);
            && Outcomes(Run(cfg, Fields(0, 0, Closed), [fail, IsOpen(11), retry]).1) == [Failed, Succeeded]
            && Outcomes(Run(cfg, Fields(0, 0, Closed), [fail, retry]).1) == [Failed, Rejected]
  {
    var cfg, b0 := Settings(1, 10), Fields(0, 0, Closed);
    var fail, retry := Call(false, 0, 0), Call(true, 5, 5);
    var b1 := Fields(1, 0, Open);
    var b2 := Fields(0, 0, HalfOpen);
    var xs, ys := [fail, IsOpen(11), retry], [fail, retry];
    assert xs[1..] == [IsOpen(11), retry] && xs[1..][1..] == [retry] && ys[1..] == [retry];
    assert Run(cfg, b2, [retry]).1 == [Called(Succeeded)];
    assert Run(cfg, b1, [IsOpen(11), retry]).1 == [Told(false), Called(Succeeded)];
    assert Run(cfg, b0, xs).1 == [Called(Failed), Told(false), Called(Succeeded)];
    assert Run(cfg, b1, [retry]).1 == [Called(Rejected)];
    assert Run(cfg, b0, ys).1 == [Called(Failed), Called(Rejected)];
    OutcomesCons(Called(Failed), [Told(false), Called(Succeeded)]);
    OutcomesCons(Told(false), [Called(Succeeded)]);
    OutcomesCons(Called(Succeeded), []);
    OutcomesCons(Called(Failed), [Called(Rejected)]);
    OutcomesCons(Called(Rejected), []);
    assert [Called(Failed)] + [Told(false), Called(Succeeded)] == Run(cfg, b0, xs).1;
    assert [Told(false)] + [Called(Succeeded)] == [Told(false), Called(Succeeded)];
    assert [Called(Succeeded)] + [] == [Called(Succeeded)];
    assert [Called(Failed)] + [Called(Rejected)] == Run(cfg, b0, ys).1;
    assert [Called(Rejected)] + [] == [Called(Rejected)];
  }

  /** A run that leads a breaker from open or half-open to closed contains an executed success. */
  lemma {:induction false} OnlySuccessCloses(cfg: Settings, b: Fields, events: seq<Event>)
    requires b.state != Closed && Run(cfg, b, events).0.state == Closed
    ensures Called(Succeeded) in Run(cfg, b, events).1
    decreases |events|
  {
    var (b1, a) := Step(cfg, b, events[0]);
    assert Run(cfg, b, events).1 == [a] + Run(cfg, b1, events[1..]).1;
    if b1.state != Closed {
      OnlySuccessCloses(cfg, b1, events[1..]);
    }
  }

  /** The first failure of a breaker that has just become half-open reopens it only for a threshold of at most 1. */
  lemma HalfOpenReopensIff(cfg: Settings, last: int, start: int, end: int)
    ensures CallStep(cfg, Fields(0, last, HalfOpen), false, start, end).0.state == Open <==> cfg.maxFailures <= 1
  {
  }

  /** With a threshold of 2 the trial call after the timeout fails and leaves the breaker half-open. */
  lemma HalfOpenSurvivesFailure()
    ensures var fail, late := Call(false, 0, 0), Call(false, 11, 11);
            && Run(Settings(2, 10), Fields(0, 0, Closed), [fail, fail]).0 == Fields(2, 0, Open)
            && Run(Settings(2, 10), Fields(0, 0, Closed), [fail, fail, late]).0 == Fields(1, 11, HalfOpen)
  {
    var cfg, b0 := Settings(2, 10), Fields(0, 0, Closed);
    var fail, late := Call(false, 0, 0), Call(false, 11, 11);
    var b1, b2, b3 := Fields(1, 0, Closed), Fields(2, 0, Open), Fields(1, 11, HalfOpen);
    assert [fail, fail, late][1..] == [fail, late] && [fail, late][1..] == [late] && [fail, fail][1..] == [fail];
    assert Run(cfg, b2, [late]).0 == b3;
    assert Run(cfg, b1, [fail, late]).0 == b3;
    assert Run(cfg, b1, [fail]).0 == b2;
  }
}
