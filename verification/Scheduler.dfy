/** The weighted operation scheduler of internal/workload/scheduler.go. */
module Scheduler {
  import opened Basics
  import opened Mix

  const FALLBACK := "get"

  /** The operations with a non-zero share, in iteration order. */
  function Operations(mix: Percentages, order: seq<string>): (ops: seq<string>)
    requires forall i :: 0 <= i < |order| ==> order[i] in mix
  {
    if order == [] then [] else
    var op := order[|order| - 1];
    Operations(mix, order[..|order| - 1]) + if mix[op] == 0 then [] else [op]
  }

  /** Their cumulative weights. */
  function Weights(mix: Percentages, order: seq<string>): (ws: seq<int>)
    requires forall i :: 0 <= i < |order| ==> order[i] in mix
    ensures |ws| == |Operations(mix, order)|
  {
    if order == [] then [] else
    var op := order[|order| - 1];
    Weights(mix, order[..|order| - 1]) + if mix[op] == 0 then [] else [SumOver(mix, order)]
  }

  /** The source of randomness: intn(n) is rng.Intn(n). */
  ghost predicate IsIntn(intn: int -> int)
  {
    forall n :: n > 0 ==> 0 <= intn(n) < n
  }

  class Scheduler {
    const totalKeys: int
    var ops: seq<string>
    var weights: seq<int>

    constructor (totalKeys: int)
      ensures this.totalKeys == totalKeys && ops == [] && weights == []
    {
      this.totalKeys := totalKeys;
      ops, weights := [], [];
    }

    /** The loop of NewScheduler, over the mix in iteration order. */
    method AddOperations(mix: Percentages, order: seq<string>)
      requires forall i :: 0 <= i < |order| ==> order[i] in mix
      requires ops == [] && weights == []
      modifies this
      ensures ops == Operations(mix, order) && weights == Weights(mix, order)
    {
      var cumulative := 0;
      for i := 0 to |order|
        invariant cumulative == SumOver(mix, order[..i])
        invariant ops == Operations(mix, order[..i]) && weights == Weights(mix, order[..i])
      {
        assert order[..i + 1][..i] == order[..i];
        var pct := mix[order[i]];
        if pct != 0 {
          ops := ops + [order[i]];
          cumulative := cumulative + pct;
          weights := weights + [cumulative];
        }
      }
      assert order[..|order|] == order;
    }

    method Next(intn: int -> int) returns (op: string)
      requires |ops| == |weights|
      ensures op == if ops == [] then "get"
                    else if |ops| == 1 then ops[0]
                    else Pick(ops, weights, intn(weights[|weights| - 1]))
    {
      if |ops| == 0 {
        return FALLBACK;
      }
      if |ops| == 1 {
        return ops[0];
      }
      var r := intn(weights[|weights| - 1]);
      for i := 0 to |weights|
        invariant forall k :: 0 <= k < i ==> weights[k] <= r
      {
        if r < weights[i] {
          PickIs(ops, weights, r, i);
          return ops[i];
        }
      }
      PickLast(ops, weights, r);
      op := ops[|ops| - 1];
    }

    method NextKey(intn: int -> int) returns (key: int)
      requires IsIntn(intn) && totalKeys > 0
      ensures 0 <= key < totalKeys && key == intn(totalKeys)
    {
      key := intn(totalKeys);
    }
  }

  /** NewScheduler; first and second are the orders of its two range loops. */
  method NewScheduler(mix: Percentages, first: seq<string>, second: seq<string>, totalKeys: int)
    returns (s: Option<Scheduler>)
    requires RangesOver(first, mix) && RangesOver(second, mix)
    ensures s.None? <==> SumOver(mix, first) == 0
    ensures s.Some? ==> fresh(s.value) && s.value.totalKeys == totalKeys
    ensures s.Some? ==> s.value.ops == Operations(mix, second) && s.value.weights == Weights(mix, second)
  {
    if mix == map[] {
      FirstIsIn(first);
      return None;
    }
    var total := 0;
    for i := 0 to |first|
      invariant total == SumOver(mix, first[..i])
    {
      assert first[..i + 1][..i] == first[..i];
      total := total + mix[first[i]];
    }
    assert first[..|first|] == first;
    if total == 0 {
      return None;
    }
    var sched := new Scheduler(totalKeys);
    sched.AddOperations(mix, second);
    s := Some(sched);
  }

  /** The first operation whose cumulative weight exceeds r, and the last one if there is none. */
  function Pick(ops: seq<string>, weights: seq<int>, r: int): string
    requires |ops| == |weights| > 0
  {
    if r < weights[0] || |ops| == 1 then ops[0] else Pick(ops[1..], weights[1..], r)
  }

  lemma {:induction false} PickIs(ops: seq<string>, weights: seq<int>, r: int, i: nat)
    requires |ops| == |weights| && i < |ops|
    requires r < weights[i] && forall k :: 0 <= k < i ==> weights[k] <= r
    ensures Pick(ops, weights, r) == ops[i]
  {
    if i > 0 {
      PickIs(ops[1..], weights[1..], r, i - 1);
    }
  }

  lemma {:induction false} PickLast(ops: seq<string>, weights: seq<int>, r: int)
    requires |ops| == |weights| > 0 && forall k :: 0 <= k < |weights| ==> weights[k] <= r
    ensures Pick(ops, weights, r) == ops[|ops| - 1]
  {
    if |ops| > 1 {
      PickLast(ops[1..], weights[1..], r);
    }
  }

  // ---------------------------------------------------------------------------------------------
  // Exactness

  /** Cumulative weight before operation i. */
  function Lower(weights: seq<int>, i: nat): int
    requires i < |weights|
  {
    if i == 0 then 0 else weights[i - 1]
  }

  /** What the loop of NewScheduler keeps: the weights grow by the shares and end at the running total. */
  ghost predicate Cumulative(mix: Percentages, ops: seq<string>, ws: seq<int>, total: int)
  {
    && |ops| == |ws|
    && (forall i :: 0 <= i < |ops| ==> ops[i] in mix && mix[ops[i]] > 0)
    && (forall i :: 0 <= i < |ops| ==> ws[i] == Lower(ws, i) + mix[ops[i]])
    && total == (if ws == [] then 0 else ws[|ws| - 1])
  }

  lemma CumulativeAppend(mix: Percentages, ops: seq<string>, ws: seq<int>, total: int, op: string)
    requires Cumulative(mix, ops, ws, total) && op in mix && mix[op] > 0
    ensures Cumulative(mix, ops + [op], ws + [total + mix[op]], total + mix[op])
  {
    var ws' := ws + [total + mix[op]];
    forall i | 0 <= i < |ws| ensures Lower(ws', i) == Lower(ws, i) {
    }
  }

  /** Operation i owns the draws from Lower(i) up to its weight, mix[ops[i]] of them, and the weights end at the total. */
  lemma {:induction false} WeightsPartition(mix: Percentages, order: seq<string>)
    requires NonNegative(mix) && forall i :: 0 <= i < |order| ==> order[i] in mix
    ensures Cumulative(mix, Operations(mix, order), Weights(mix, order), SumOver(mix, order))
    decreases |order|
  {
    if order != [] {
      var front, op := order[..|order| - 1], order[|order| - 1];
      WeightsPartition(mix, front);
      if mix[op] != 0 {
        CumulativeAppend(mix, Operations(mix, front), Weights(mix, front), SumOver(mix, front), op);
      } else {
        assert Operations(mix, order) == Operations(mix, front) && Weights(mix, order) == Weights(mix, front);
      }
    }
  }

  /** Exactly the operations with a positive share are scheduled. */
  lemma {:induction false} OperationsAre(mix: Percentages, order: seq<string>, op: string)
    requires forall i :: 0 <= i < |order| ==> order[i] in mix
    ensures op in Operations(mix, order) <==> op in order && mix[op] != 0
    decreases |order|
  {
    if order != [] {
      OperationsAre(mix, order[..|order| - 1], op);
      assert op in order <==> op in order[..|order| - 1] || op == order[|order| - 1];
    }
  }

  lemma {:induction false} OperationsDistinct(mix: Percentages, order: seq<string>)
    requires forall i :: 0 <= i < |order| ==> order[i] in mix
    requires forall i, j :: 0 <= i < j < |order| ==> order[i] != order[j]
    ensures var ops := Operations(mix, order); forall i, j :: 0 <= i < j < |ops| ==> ops[i] != ops[j]
    decreases |order|
  {
    if order != [] {
      var front, last := order[..|order| - 1], order[|order| - 1];
      OperationsDistinct(mix, front);
      OperationsAre(mix, front, last);
      var ops := Operations(mix, front);
      assert forall i :: 0 <= i < |ops| ==> ops[i] in ops;
      assert last !in front;
    }
  }

  lemma {:induction false} CumulativeIncreases(mix: Percentages, ops: seq<string>, ws: seq<int>, total: int, i: nat, j: nat)
    requires Cumulative(mix, ops, ws, total) && i < j < |ws|
    ensures 0 < ws[i] < ws[j]
    decreases j
  {
    assert ws[j] == Lower(ws, j) + mix[ops[j]];
    if i < j - 1 {
      CumulativeIncreases(mix, ops, ws, total, i, j - 1);
    } else if i > 0 {
      CumulativeIncreases(mix, ops, ws, total, i - 1, i);
    } else {
      assert ws[0] == Lower(ws, 0) + mix[ops[0]];
    }
  }

  lemma CumulativeBounds(mix: Percentages, ops: seq<string>, ws: seq<int>, total: int, i: nat)
    requires Cumulative(mix, ops, ws, total) && i < |ws|
    ensures 0 <= Lower(ws, i) < ws[i] <= total
  {
    assert ws[i] == Lower(ws, i) + mix[ops[i]];
    if i < |ws| - 1 {
      CumulativeIncreases(mix, ops, ws, total, i, |ws| - 1);
    }
    if 0 < i {
      CumulativeIncreases(mix, ops, ws, total, i - 1, i);
    }
  }

  /** The cumulative weights are positive and strictly increasing. */
  lemma WeightsIncrease(mix: Percentages, order: seq<string>, i: nat, j: nat)
    requires NonNegative(mix) && forall k :: 0 <= k < |order| ==> order[k] in mix
    requires i < j < |Weights(mix, order)|
    ensures 0 < Weights(mix, order)[i] < Weights(mix, order)[j]
  {
    WeightsPartition(mix, order);
    CumulativeIncreases(mix, Operations(mix, order), Weights(mix, order), SumOver(mix, order), i, j);
  }

  /** A draw in an operation's interval picks that operation. */
  lemma PickInterval(mix: Percentages, order: seq<string>, i: nat, r: int)
    requires NonNegative(mix) && forall k :: 0 <= k < |order| ==> order[k] in mix
    requires i < |Weights(mix, order)| && Lower(Weights(mix, order), i) <= r < Weights(mix, order)[i]
    ensures Pick(Operations(mix, order), Weights(mix, order), r) == Operations(mix, order)[i]
  {
    var ws := Weights(mix, order);
    forall k | 0 <= k < i ensures ws[k] <= r {
      if k < i - 1 {
        WeightsIncrease(mix, order, k, i - 1);
      }
    }
    PickIs(Operations(mix, order), ws, r, i);
  }

  /** Every draw lies in the interval of some operation: the last line of Next is never reached. */
  lemma {:induction false} IntervalOf(mix: Percentages, order: seq<string>, n: nat, r: int) returns (i: nat)
    requires NonNegative(mix) && forall k :: 0 <= k < |order| ==> order[k] in mix
    requires 0 < n <= |Weights(mix, order)| && 0 <= r < Weights(mix, order)[n - 1]
    ensures i < n && Lower(Weights(mix, order), i) <= r < Weights(mix, order)[i]
  {
    if n == 1 || r >= Weights(mix, order)[n - 2] {
      i := n - 1;
    } else {
      i := IntervalOf(mix, order, n - 1, r);
    }
  }

  /** The draws that select op. */
  ghost function Draws(mix: Percentages, order: seq<string>, op: string): set<int>
    requires forall k :: 0 <= k < |order| ==> order[k] in mix
    requires Operations(mix, order) != []
  {
    set r | 0 <= r < SumOver(mix, order) && Pick(Operations(mix, order), Weights(mix, order), r) == op
  }

  ghost function Interval(lo: int, hi: int): (s: set<int>)
    requires lo <= hi
    ensures forall r :: r in s <==> lo <= r < hi
    ensures |s| == hi - lo
    decreases hi - lo
  {
    if lo == hi then {} else Interval(lo, hi - 1) + {hi - 1}
  }

  lemma DifferentOperations(mix: Percentages, order: seq<string>, i: nat, k: nat)
    requires RangesOver(order, mix) && i < |Operations(mix, order)| && k < |Operations(mix, order)| && i != k
    ensures Operations(mix, order)[i] != Operations(mix, order)[k]
  {
    OperationsDistinct(mix, order);
    var ops := Operations(mix, order);
    assert i < k ==> ops[i] != ops[k];
    assert k < i ==> ops[k] != ops[i];
  }

  lemma PickIff(mix: Percentages, order: seq<string>, i: nat, r: int)
    requires NonNegative(mix) && RangesOver(order, mix) && i < |Operations(mix, order)|
    requires 0 <= r < SumOver(mix, order)
    ensures Pick(Operations(mix, order), Weights(mix, order), r) == Operations(mix, order)[i]
       <==> Lower(Weights(mix, order), i) <= r < Weights(mix, order)[i]
  {
    WeightsPartition(mix, order);
    var k := IntervalOf(mix, order, |Weights(mix, order)|, r);
    PickInterval(mix, order, k, r);
    if i != k {
      DifferentOperations(mix, order, i, k);
      if Lower(Weights(mix, order), i) <= r < Weights(mix, order)[i] {
        PickInterval(mix, order, i, r);
      }
    }
  }

  lemma IntervalBounds(mix: Percentages, order: seq<string>, i: nat)
    requires NonNegative(mix) && RangesOver(order, mix) && i < |Operations(mix, order)|
    ensures 0 <= Lower(Weights(mix, order), i) < Weights(mix, order)[i] <= SumOver(mix, order)
    ensures Operations(mix, order)[i] in mix
    ensures Weights(mix, order)[i] == Lower(Weights(mix, order), i) + mix[Operations(mix, order)[i]]
  {
    WeightsPartition(mix, order);
    CumulativeBounds(mix, Operations(mix, order), Weights(mix, order), SumOver(mix, order), i);
  }

  lemma DrawsAreInterval(mix: Percentages, order: seq<string>, i: nat)
    requires NonNegative(mix) && RangesOver(order, mix) && i < |Operations(mix, order)|
    ensures 0 <= Lower(Weights(mix, order), i) < Weights(mix, order)[i]
    ensures Draws(mix, order, Operations(mix, order)[i])
         == Interval(Lower(Weights(mix, order), i), Weights(mix, order)[i])
  {
    IntervalBounds(mix, order, i);
    var draws := Draws(mix, order, Operations(mix, order)[i]);
    forall r ensures r in draws <==> r in Interval(Lower(Weights(mix, order), i), Weights(mix, order)[i]) {
      if 0 <= r < SumOver(mix, order) {
        PickIff(mix, order, i, r);
      }
    }
  }

  lemma {:induction false} PickIsScheduled(ops: seq<string>, weights: seq<int>, r: int)
    requires |ops| == |weights| > 0
    ensures Pick(ops, weights, r) in ops
  {
    if !(r < weights[0] || |ops| == 1) {
      PickIsScheduled(ops[1..], weights[1..], r);
    }
  }

  /** The loop of Next finds an operation for the draw. */
  predicate Hits(weights: seq<int>, r: int)
  {
    exists i :: 0 <= i < |weights| && r < weights[i]
  }

  lemma DrawsOfScheduled(mix: Percentages, order: seq<string>, op: string)
    requires NonNegative(mix) && RangesOver(order, mix) && op in Operations(mix, order)
    ensures op in mix && |Draws(mix, order, op)| == mix[op]
  {
    var ops := Operations(mix, order);
    var i :| 0 <= i < |ops| && ops[i] == op;
    DrawsAreInterval(mix, order, i);
    IntervalBounds(mix, order, i);
  }

  lemma DrawsOfOthers(mix: Percentages, order: seq<string>, op: string)
    requires RangesOver(order, mix) && Operations(mix, order) != [] && op !in Operations(mix, order)
    ensures Draws(mix, order, op) == {}
  {
    forall r ensures r !in Draws(mix, order, op) {
      PickIsScheduled(Operations(mix, order), Weights(mix, order), r);
    }
  }

  lemma DrawsOf(mix: Percentages, order: seq<string>, op: string)
    requires NonNegative(mix) && RangesOver(order, mix) && Operations(mix, order) != []
    ensures op in mix ==> |Draws(mix, order, op)| == mix[op]
    ensures op !in mix ==> Draws(mix, order, op) == {}
  {
    OperationsAre(mix, order, op);
    if op in Operations(mix, order) {
      DrawsOfScheduled(mix, order, op);
    } else {
      DrawsOfOthers(mix, order, op);
    }
  }

  lemma EveryDrawHits(mix: Percentages, order: seq<string>)
    requires NonNegative(mix) && RangesOver(order, mix) && SumOver(mix, order) > 0
    ensures var ws := Weights(mix, order);
            && Operations(mix, order) != [] && ws[|ws| - 1] == SumOver(mix, order)
            && forall r :: 0 <= r < SumOver(mix, order) ==> Hits(ws, r)
  {
    WeightsPartition(mix, order);
  }

  /**
   The schedule is exact for any non-negative mix with a positive total and any iteration order: Next
   draws below the total, each draw is below some weight, so that neither fallback of Next is reached,
   and precisely mix[op] of the draws select op, so that an operation with share 0 is never selected.
   */
  lemma SchedulerIsExact(mix: Percentages, order: seq<string>, op: string)
    requires NonNegative(mix) && RangesOver(order, mix) && SumOver(mix, order) > 0
    ensures var ws := Weights(mix, order);
            && Operations(mix, order) != [] && ws[|ws| - 1] == SumOver(mix, order)
            && forall r :: 0 <= r < SumOver(mix, order) ==> Hits(ws, r)
    ensures op in mix ==> |Draws(mix, order, op)| == mix[op]
    ensures op !in mix ==> Draws(mix, order, op) == {}
  {
    EveryDrawHits(mix, order);
    DrawsOf(mix, order, op);
  }

  /** With a single operation Next takes the short cut, which agrees with every draw. */
  lemma ShortCutAgrees(mix: Percentages, order: seq<string>, r: int)
    requires forall k :: 0 <= k < |order| ==> order[k] in mix
    requires |Operations(mix, order)| == 1
    ensures Pick(Operations(mix, order), Weights(mix, order), r) == Operations(mix, order)[0]
  {
  }

  /**
   Exactly when NewScheduler, ranging in orders of its own, accepts what Validate has made of a mix:
   when some entry reaches one per cent of the total, as one does among at most a hundred entries.
   */
  lemma ValidatedMixIsSchedulableIff(share: Sharing, mix: Percentages, first: seq<string>, later: seq<string>)
    requires Exact(share) && Percents(mix) && RangesOver(first, mix) && SumOver(mix, first) != 0
    requires RangesOver(later, mix)
    ensures var m := Validated(share, mix, first);
            && RangesOver(later, m)
            && (SumOver(m, later) != 0 <==> exists op :: op in mix && 100 * mix[op] >= SumOver(mix, first))
            && (|first| <= 100 ==> SumOver(m, later) != 0)
  {
    ZeroSumIff(mix, first);
    ValidateAgreesWithNormalize(share, mix, first, later);
    NormalizedVanishesIff(share, mix, first);
    var m := Normalized(share, mix, SumOver(mix, first));
    SameTotal(mix, first, later);
    SameTotal(m, first, later);
  }
}
