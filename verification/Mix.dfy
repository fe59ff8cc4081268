/** The operation mix of internal/config/config.go: validation and normalisation to percentages. */
module Mix {

  type Percentages = map<string, int>

  /** An order in which Go may range over a map. */
  ghost predicate RangesOver(order: seq<string>, mix: Percentages)
  {
    && (forall i :: 0 <= i < |order| ==> order[i] in mix)
    && (forall i, j :: 0 <= i < j < |order| ==> order[i] != order[j])
    && (forall op :: op in mix ==> op in order)
  }

  function SumOver(mix: Percentages, order: seq<string>): int
    requires forall i :: 0 <= i < |order| ==> order[i] in mix
  {
    if order == [] then 0 else SumOver(mix, order[..|order| - 1]) + mix[order[|order| - 1]]
  }

  function Without(order: seq<string>, i: nat): (rest: seq<string>)
    requires i < |order|
    ensures |rest| == |order| - 1
  {
    order[..i] + order[i + 1..]
  }

  lemma {:induction false} SumWithout(mix: Percentages, order: seq<string>, i: nat)
    requires forall k :: 0 <= k < |order| ==> order[k] in mix
    requires i < |order|
    ensures var rest := Without(order, i);
            && (forall k :: 0 <= k < |rest| ==> rest[k] in mix)
            && SumOver(mix, order) == SumOver(mix, rest) + mix[order[i]]
  {
    var n := |order| - 1;
    if i == n {
      assert Without(order, i) == order[..n];
    } else {
      SumWithout(mix, order[..n], i);
      assert Without(order[..n], i) == Without(order, i)[..n - 1];
    }
  }

  lemma FirstIsIn(ys: seq<string>)
    ensures |ys| > 0 ==> ys[0] in ys
  {
  }

  /** The total does not depend on the iteration order. */
  lemma {:induction false} SumIsOrderIndependent(mix: Percentages, xs: seq<string>, ys: seq<string>)
    requires forall i :: 0 <= i < |xs| ==> xs[i] in mix
    requires forall i :: 0 <= i < |ys| ==> ys[i] in mix
    requires forall i, j :: 0 <= i < j < |xs| ==> xs[i] != xs[j]
    requires forall i, j :: 0 <= i < j < |ys| ==> ys[i] != ys[j]
    requires forall op :: op in xs <==> op in ys
    ensures SumOver(mix, xs) == SumOver(mix, ys)
    decreases |xs|
  {
    if xs == [] {
      FirstIsIn(ys);
    } else {
      var n := |xs| - 1;
      assert xs[n] in xs;
      var i :| 0 <= i < |ys| && ys[i] == xs[n];
      var rest := Without(ys, i);
      SumWithout(mix, ys, i);
      forall op ensures op in xs[..n] <==> op in rest {
        assert op in xs <==> op in xs[..n] || op == xs[n];
        assert op in ys <==> op in ys[..i] || op == ys[i] || op in ys[i + 1..];
      }
      SumIsOrderIndependent(mix, xs[..n], rest);
    }
  }

  /** int(float64(pct) * (100.0 / float64(total))), as a function of pct and total. */
  type Sharing = (int, int) -> int

  /** The arithmetic is exact up to the final conversion, which truncates. */
  ghost predicate Exact(share: Sharing)
  {
    forall pct: int, total: int :: pct >= 0 && total > 0 ==> share(pct, total) == 100 * pct / total
  }

  function Normalized(share: Sharing, mix: Percentages, total: int): Percentages
  {
    map op | op in mix :: share(mix[op], total)
  }

  /** What Validate leaves of a mix it accepts: a total of 100 is not touched. */
  function Validated(share: Sharing, mix: Percentages, order: seq<string>): Percentages
    requires forall i :: 0 <= i < |order| ==> order[i] in mix
  {
    var total := SumOver(mix, order);
    if total == 100 then mix else Normalized(share, mix, total)
  }

  predicate Percents(mix: Percentages)
  {
    forall op :: op in mix ==> 0 <= mix[op] <= 100
  }

  class Config {
    var mix: Percentages

    constructor (mix: Percentages)
      ensures this.mix == mix
    {
      this.mix := mix;
    }

    /** The mix part of Validate; first and second are the orders of its two range loops. */
    method ValidateMix(share: Sharing, first: seq<string>, second: seq<string>) returns (ok: bool)
      requires RangesOver(first, mix) && RangesOver(second, mix)
      modifies this
      ensures ok <==> (forall op :: op in old(mix) ==> 0 <= old(mix)[op] <= 100) && SumOver(old(mix), first) != 0
      ensures mix == if ok then Validated(share, old(mix), first) else old(mix)
    {
      if mix == map[] {
        FirstIsIn(first);
        return false;
      }
      var total;
      ok, total := CheckedTotal(first);
      if !ok {
        return;
      }
      if total == 0 {
        return false;
      }
      if total != 100 {
        Rescale(share, total, second);
      }
    }

    /** The first loop: every entry a percentage, and their total. */
    method CheckedTotal(order: seq<string>) returns (ok: bool, total: int)
      requires RangesOver(order, mix)
      ensures ok <==> Percents(mix)
      ensures ok ==> total == SumOver(mix, order)
    {
      total := 0;
      for i := 0 to |order|
        invariant forall k :: 0 <= k < i ==> 0 <= mix[order[k]] <= 100
        invariant total == SumOver(mix, order[..i])
      {
        var pct := mix[order[i]];
        if pct < 0 || pct > 100 {
          return false, total;
        }
        assert order[..i + 1][..i] == order[..i];
        total := total + pct;
      }
      assert order[..|order|] == order;
      ok := true;
    }

    /** The second loop: the map is rewritten while it is ranged over. */
    method Rescale(share: Sharing, total: int, order: seq<string>)
      requires RangesOver(order, mix)
      modifies this
      ensures mix == Normalized(share, old(mix), total)
    {
      for i := 0 to |order|
        invariant mix.Keys == old(mix).Keys
        invariant forall k :: 0 <= k < i ==> mix[order[k]] == share(old(mix)[order[k]], total)
        invariant forall k :: i <= k < |order| ==> mix[order[k]] == old(mix)[order[k]]
      {
        mix := mix[order[i] := share(mix[order[i]], total)];
      }
    }

    /** NormalizeMix; first and second are the orders of its two range loops. */
    method NormalizeMix(share: Sharing, first: seq<string>, second: seq<string>)
      requires RangesOver(first, mix) && RangesOver(second, mix)
      modifies this
      ensures mix == if SumOver(old(mix), first) == 0 then old(mix) else Normalized(share, old(mix), SumOver(old(mix), first))
    {
      var total := Total(first);
      if total == 0 {
        return;
      }
      var normalized: Percentages := map[];
      for i := 0 to |second|
        invariant mix == old(mix)
        invariant forall op :: op in normalized <==> op in second[..i]
        invariant forall op :: op in normalized ==> op in mix && normalized[op] == share(mix[op], total)
      {
        normalized := normalized[second[i] := share(mix[second[i]], total)];
      }
      assert normalized == Normalized(share, mix, total);
      mix := normalized;
    }

    /** Its first loop. */
    method Total(order: seq<string>) returns (total: int)
      requires RangesOver(order, mix)
      ensures total == SumOver(mix, order)
    {
      total := 0;
      for i := 0 to |order|
        invariant total == SumOver(mix, order[..i])
      {
        assert order[..i + 1][..i] == order[..i];
        total := total + mix[order[i]];
      }
      assert order[..|order|] == order;
    }
  }

  // ---------------------------------------------------------------------------------------------
  // What normalisation keeps

  ghost predicate NonNegative(mix: Percentages)
  {
    forall op :: op in mix ==> mix[op] >= 0
  }

  lemma ShareBounds(share: Sharing, pct: nat, total: int)
    requires Exact(share) && total > 0
    ensures var s := share(pct, total); 0 <= s && s * total <= 100 * pct < s * total + total
  {
    var s := share(pct, total);
    assert 100 * pct == s * total + (100 * pct) % total;
  }

  lemma Cancel(a: int, b: int, t: int)
    requires t > 0
    ensures a * t < b * t <==> a < b
  {
    if a < b {
      assert (b - a) * t > 0;
    } else {
      assert (a - b) * t >= 0;
    }
  }

  lemma {:induction false} NormalizedSum(share: Sharing, mix: Percentages, order: seq<string>, total: int)
    requires Exact(share) && NonNegative(mix) && total > 0 && forall i :: 0 <= i < |order| ==> order[i] in mix
    ensures forall i :: 0 <= i < |order| ==> order[i] in Normalized(share, mix, total)
    ensures SumOver(Normalized(share, mix, total), order) * total <= 100 * SumOver(mix, order)
    ensures order != [] ==>
              100 * SumOver(mix, order) < (SumOver(Normalized(share, mix, total), order) + |order|) * total
  {
    if order != [] {
      var n := |order| - 1;
      NormalizedSum(share, mix, order[..n], total);
      ShareBounds(share, mix[order[n]], total);
      var s, x := SumOver(Normalized(share, mix, total), order[..n]), share(mix[order[n]], total);
      assert (s + x) * total == s * total + x * total;
      assert (s + x + n + 1) * total == (s + n) * total + x * total + total;
    }
  }

  /** Normalising n entries gives a sum in (100 - n, 100]: each entry loses less than one. */
  lemma SumAfterNormalizing(share: Sharing, mix: Percentages, order: seq<string>)
    requires Exact(share) && NonNegative(mix) && RangesOver(order, mix) && SumOver(mix, order) > 0
    ensures var m := Normalized(share, mix, SumOver(mix, order));
            RangesOver(order, m) && 100 - |order| < SumOver(m, order) <= 100
  {
    var total := SumOver(mix, order);
    var s := SumOver(Normalized(share, mix, total), order);
    NormalizedSum(share, mix, order, total);
    Cancel(100, s, total);
    Cancel(100, s + |order|, total);
  }

  lemma {:induction false} ZeroSumIff(mix: Percentages, order: seq<string>)
    requires NonNegative(mix) && forall i :: 0 <= i < |order| ==> order[i] in mix
    ensures SumOver(mix, order) >= 0
    ensures SumOver(mix, order) == 0 <==> forall i :: 0 <= i < |order| ==> mix[order[i]] == 0
  {
    if order != [] {
      ZeroSumIff(mix, order[..|order| - 1]);
    }
  }

  lemma ShareZeroIff(share: Sharing, pct: nat, total: int)
    requires Exact(share) && total > 0
    ensures share(pct, total) == 0 <==> 100 * pct < total
  {
    var s := share(pct, total);
    ShareBounds(share, pct, total);
    if s >= 1 {
      Cancel(0, s - 1, total);
      assert s * total == (s - 1) * total + total;
    }
  }

  lemma AllZeroIff(m: Percentages, order: seq<string>)
    requires NonNegative(m) && RangesOver(order, m)
    ensures SumOver(m, order) == 0 <==> forall op :: op in m ==> m[op] == 0
  {
    ZeroSumIff(m, order);
    if forall i :: 0 <= i < |order| ==> m[order[i]] == 0 {
      forall op | op in m ensures m[op] == 0 {
        var i :| 0 <= i < |order| && order[i] == op;
      }
    }
  }

  lemma SharesVanishIff(share: Sharing, mix: Percentages, total: int)
    requires Exact(share) && NonNegative(mix) && total > 0
    ensures var m := Normalized(share, mix, total);
            NonNegative(m) && ((forall op :: op in m ==> m[op] == 0) <==> forall op :: op in mix ==> 100 * mix[op] < total)
  {
    var m := Normalized(share, mix, total);
    forall op | op in mix ensures m[op] >= 0 && (m[op] == 0 <==> 100 * mix[op] < total) {
      ShareBounds(share, mix[op], total);
      ShareZeroIff(share, mix[op], total);
    }
  }

  /**
   Exactly when a mix that passes Validate is left without any operation by its own normalisation:
   when no entry reaches one per cent of the total. It takes more than a hundred entries.
   */
  lemma NormalizedVanishesIff(share: Sharing, mix: Percentages, order: seq<string>)
    requires Exact(share) && NonNegative(mix) && RangesOver(order, mix) && SumOver(mix, order) > 0
    ensures var total := SumOver(mix, order); var m := Normalized(share, mix, total);
            && RangesOver(order, m)
            && (SumOver(m, order) == 0 <==> forall op :: op in mix ==> 100 * mix[op] < total)
            && (SumOver(m, order) == 0 ==> |order| > 100)
  {
    var total := SumOver(mix, order);
    SumAfterNormalizing(share, mix, order);
    SharesVanishIff(share, mix, total);
    AllZeroIff(Normalized(share, mix, total), order);
  }

  /** Names of different lengths. */
  function Names(n: nat): (order: seq<string>)
    ensures |order| == n && forall i :: 0 <= i < n ==> |order[i]| == i
  {
    seq(n, i requires 0 <= i => seq(i, _ => 'x'))
  }

  lemma {:induction false} SumOfOnes(mix: Percentages, order: seq<string>)
    requires forall i :: 0 <= i < |order| ==> order[i] in mix && mix[order[i]] == 1
    ensures SumOver(mix, order) == |order|
  {
    if order != [] {
      SumOfOnes(mix, order[..|order| - 1]);
    }
  }

  /** Such mixes exist with every number of entries above a hundred: n entries of 1. */
  lemma SomeMixVanishes(share: Sharing, n: nat) returns (mix: Percentages, order: seq<string>)
    requires Exact(share) && n > 100
    ensures RangesOver(order, mix) && |order| == n && Percents(mix) && SumOver(mix, order) == n
    ensures var m := Normalized(share, mix, n); RangesOver(order, m) && SumOver(m, order) == 0
  {
    order := Names(n);
    mix := map op | op in order :: 1;
    assert forall i :: 0 <= i < n ==> order[i] in order;
    SumOfOnes(mix, order);
    NormalizedVanishesIff(share, mix, order);
  }

  /** Normalising a mix that already adds up to 100 changes nothing. */
  lemma NormalizingHundredIsIdentity(share: Sharing, mix: Percentages)
    requires Exact(share) && NonNegative(mix)
    ensures Normalized(share, mix, 100) == mix
  {
    forall op | op in mix ensures share(mix[op], 100) == mix[op] {
      assert share(mix[op], 100) == 100 * mix[op] / 100;
    }
  }

  /** Validate and NormalizeMix give the same mix, whatever orders they range in. */
  lemma ValidateAgreesWithNormalize(share: Sharing, mix: Percentages, order: seq<string>, other: seq<string>)
    requires Exact(share) && NonNegative(mix) && RangesOver(order, mix) && RangesOver(other, mix)
    ensures Validated(share, mix, order) == Normalized(share, mix, SumOver(mix, other))
  {
    SameTotal(mix, order, other);
    if SumOver(mix, order) == 100 {
      NormalizingHundredIsIdentity(share, mix);
    }
  }

  lemma SameTotal(mix: Percentages, order: seq<string>, other: seq<string>)
    requires RangesOver(order, mix) && RangesOver(other, mix)
    ensures SumOver(mix, order) == SumOver(mix, other)
  {
    forall op ensures op in order <==> op in other {
      if op in order {
        var i :| 0 <= i < |order| && order[i] == op;
      }
      if op in other {
        var i :| 0 <= i < |other| && other[i] == op;
      }
    }
    SumIsOrderIndependent(mix, order, other);
  }
}
