/**
 The mean-targeting loop: while the mean RPE is more than 0.25 away from the
 difficulty's target, lower a random value above 4 or raise a random value
 below 10 by one.

 With `total` the sum of the `n` values and `T` the target in tenths, the
 mean is `total / n` and the target `T / 10`, so `10 * total - T * n` is the
 signed distance of the mean from the target scaled by `10 * n`. The loop's
 test `|mean - target| > 0.25` is then the integer test
 `|20 * total - 2 * T * n| > 5 * n`, and `mean > target` is `10 * total > T * n`.
 */
module HillClimb {
  import opened Rules
  import Randomness

  function Sum(s: seq<int>): int
  {
    if s == [] then 0 else s[0] + Sum(s[1..])
  }

  /**
   `10 * n * (mean - target)`: positive exactly when the mean is above the
   target (`current_average > target_average`) and negative exactly when it is
   below.
   */
  function Offset(total: int, n: nat, d: Difficulty): (o: int)
    ensures n > 0 ==> (o > 0 <==> total as real / n as real > TargetMean(d))
    ensures n > 0 ==> (o < 0 <==> total as real / n as real < TargetMean(d))
  {
    var o := 10 * total - TargetTenths(d) * n;
    if n == 0 then o
    else
      var p := 10.0 * n as real;
      MeanGap(total, n, d);
      ScaledWindow(total as real / n as real - TargetMean(d), p, o as real, Tolerance * p);
      o
  }

  function Abs(x: int): nat
  {
    if x < 0 then -x else x
  }

  /**
   The loop's exit condition on the integer sum: it holds exactly when the
   mean is within 0.25 of the target, `abs(current_average -
   target_average) <= tolerance`.
   */
  predicate WithinTolerance(total: int, n: nat, d: Difficulty): (b: bool)
    ensures n > 0 ==>
              (b <==> -Tolerance <= total as real / n as real - TargetMean(d) <= Tolerance)
  {
    var o := Offset(total, n, d);
    if n == 0 then Abs(2 * o) <= 5 * n
    else
      var p := 10.0 * n as real;
      MeanGap(total, n, d);
      ScaledWindow(total as real / n as real - TargetMean(d), p, o as real, Tolerance * p);
      assert Abs(2 * o) <= 5 * n <==> -(Tolerance * p) <= o as real <= Tolerance * p;
      Abs(2 * o) <= 5 * n
  }

  /** `10 * total - T * n` is the mean's distance from the target, scaled by `10 * n`. */
  lemma MeanGap(total: int, n: nat, d: Difficulty)
    requires n > 0
    ensures (10 * total - TargetTenths(d) * n) as real ==
            (total as real / n as real - TargetMean(d)) * (10.0 * n as real)
  {
    var nr := n as real;
    var mean := total as real / nr;
    assert mean * nr == total as real;
    assert (mean - TargetMean(d)) * (10.0 * nr) == 10.0 * (mean * nr) - (TargetTenths(d) as real) * nr;
  }

  /**
   Scaling by a positive factor `p` preserves the window and the sign: for
   `off == gap * p` and `bound == Tolerance * p`, `gap` is within tolerance
   exactly when `off` is within `bound`.
   */
  lemma ScaledWindow(gap: real, p: real, off: real, bound: real)
    requires p > 0.0
    requires off == gap * p
    requires bound == Tolerance * p
    ensures -Tolerance <= gap <= Tolerance <==> -bound <= off <= bound
    ensures gap > 0.0 <==> off > 0.0
    ensures gap < 0.0 <==> off < 0.0
  {
    assert off - bound == (gap - Tolerance) * p;
    assert off + bound == (gap + Tolerance) * p;
    PositiveProduct(gap - Tolerance, p);
    PositiveProduct(Tolerance - gap, p);
    PositiveProduct(gap + Tolerance, p);
    PositiveProduct(-gap - Tolerance, p);
    PositiveProduct(gap, p);
    PositiveProduct(-gap, p);
  }

  lemma PositiveProduct(x: real, p: real)
    requires p > 0.0
    ensures x > 0.0 ==> x * p > 0.0
  {
  }

  /** Changing one entry changes the sum by the difference. */
  lemma {:induction false} SumUpdate(s: seq<int>, k: int, v: int)
    requires 0 <= k < |s|
    ensures Sum(s[k := v]) == Sum(s) - s[k] + v
  {
    if k > 0 {
      SumUpdate(s[1..], k - 1, v);
      assert s[k := v][1..] == s[1..][k - 1 := v];
    }
  }

  /** A list whose entries are all at most `c` sums to at most `c` per entry. */
  lemma {:induction false} SumAtMost(s: seq<int>, c: int)
    requires forall k :: 0 <= k < |s| ==> s[k] <= c
    ensures Sum(s) <= c * |s|
  {
    if s != [] {
      SumAtMost(s[1..], c);
      assert c * |s| == c + c * |s[1..]|;
    }
  }

  /** A list whose entries are all at least `c` sums to at least `c` per entry. */
  lemma {:induction false} SumAtLeast(s: seq<int>, c: int)
    requires forall k :: 0 <= k < |s| ==> s[k] >= c
    ensures Sum(s) >= c * |s|
  {
    if s != [] {
      SumAtLeast(s[1..], c);
      assert c * |s| == c + c * |s[1..]|;
    }
  }

  /**
   `training_array > 4`: a value the loop may lower. Lowering it keeps an
   in-range value in range, and an in-range value it rejects is the lowest RPE.
   */
  predicate CanLower(v: int): (b: bool)
    ensures InRpeRange(v) && b ==> InRpeRange(v - 1)
    ensures InRpeRange(v) && !b ==> v == MinRpe
  {
    v > MinRpe
  }

  /**
   `training_array < 10`: a value the loop may raise. Raising it keeps an
   in-range value in range, and an in-range value it rejects is the highest RPE.
   */
  predicate CanRaise(v: int): (b: bool)
    ensures InRpeRange(v) && b ==> InRpeRange(v + 1)
    ensures InRpeRange(v) && !b ==> v == MaxRpe
  {
    v < MaxRpe
  }

  /** `np.where(cond)[0]`: the positions of `s` whose value satisfies `cond`, in increasing order. */
  function Where(s: seq<int>, cond: int -> bool): (r: seq<nat>)
    ensures forall k: nat :: k in r <==> k < |s| && cond(s[k])
    ensures forall i, j :: 0 <= i < j < |r| ==> r[i] < r[j]
  {
    if s == [] then []
    else
      var init := Where(s[..|s| - 1], cond);
      assert forall k :: 0 <= k < |s| - 1 ==> s[..|s| - 1][k] == s[k];
      assert forall i :: 0 <= i < |init| ==> init[i] < |s| - 1 by {
        forall i | 0 <= i < |init| ensures init[i] < |s| - 1 {
          assert init[i] in init;
        }
      }
      init + (if cond(s[|s| - 1]) then [|s| - 1] else [])
  }

  /** `n` times the target lies between `n` times the lowest and the highest target. */
  lemma TargetScaled(d: Difficulty, n: nat)
    ensures 51 * n <= TargetTenths(d) * n <= 81 * n
  {
    assert TargetTenths(d) * n == 51 * n + 10 * (d * n);
    assert 0 <= d * n <= 3 * n;
  }

  /** An empty `np.where` result means no entry satisfies the condition. */
  lemma NoneWhere(s: seq<int>, cond: int -> bool)
    requires |Where(s, cond)| == 0
    ensures forall k :: 0 <= k < |s| ==> !cond(s[k])
  {
    forall k | 0 <= k < |s| ensures !cond(s[k]) {
      assert k !in Where(s, cond);
    }
  }

  /**
   When the mean is above target some value is above 4: the index list the
   loop draws from to lower a value is never empty.
   */
  lemma {:induction false} LowerableExists(s: seq<int>, d: Difficulty)
    requires Offset(Sum(s), |s|, d) > 0
    ensures |Where(s, CanLower)| > 0
  {
    if |Where(s, CanLower)| == 0 {
      NoneWhere(s, CanLower);
      SumAtMost(s, MinRpe);
      TargetScaled(d, |s|);
    }
  }

  /**
   When the mean is below target some value is below 10: the index list the
   loop draws from to raise a value is never empty.
   */
  lemma {:induction false} RaisableExists(s: seq<int>, d: Difficulty)
    requires Offset(Sum(s), |s|, d) < 0
    ensures |Where(s, CanRaise)| > 0
  {
    if |Where(s, CanRaise)| == 0 {
      NoneWhere(s, CanRaise);
      SumAtLeast(s, MaxRpe);
      TargetScaled(d, |s|);
    }
  }

  /**
   One step moves the mean by `1 / n <= 1/8`, less than the 0.5-wide window:
   outside the window, a step towards the target never crosses it, and the
   scaled distance shrinks by exactly 10.
   */
  lemma StepDoesNotOvershoot(total: int, n: nat, d: Difficulty)
    requires ValidStations(n)
    requires !WithinTolerance(total, n, d)
    ensures Offset(total, n, d) > 0 ==>
              Offset(total - 1, n, d) > 0 && Abs(Offset(total - 1, n, d)) == Abs(Offset(total, n, d)) - 10
    ensures Offset(total, n, d) < 0 ==>
              Offset(total + 1, n, d) < 0 && Abs(Offset(total + 1, n, d)) == Abs(Offset(total, n, d)) - 10
  {
  }

  /**
   One pass of the loop body: if the mean is above target, lower by one a
   value chosen among those above 4, otherwise raise by one a value chosen
   among those below 10. Exactly one position changes, by exactly one, and
   every value stays in 4..10.
   */
  method Step(a: array<int>, d: Difficulty) returns (k: nat)
    requires ValidStations(a.Length)
    requires forall i :: 0 <= i < a.Length ==> InRpeRange(a[i])
    requires !WithinTolerance(Sum(a[..]), a.Length, d)
    modifies a
    ensures k < a.Length
    ensures Offset(old(Sum(a[..])), a.Length, d) > 0 ==> a[..] == old(a[..])[k := old(a[k]) - 1]
    ensures Offset(old(Sum(a[..])), a.Length, d) < 0 ==> a[..] == old(a[..])[k := old(a[k]) + 1]
    ensures forall i :: 0 <= i < a.Length ==> InRpeRange(a[i])
    ensures Abs(Offset(Sum(a[..]), a.Length, d)) == Abs(Offset(old(Sum(a[..])), a.Length, d)) - 10
    ensures Offset(old(Sum(a[..])), a.Length, d) > 0 ==> Offset(Sum(a[..]), a.Length, d) > 0
    ensures Offset(old(Sum(a[..])), a.Length, d) < 0 ==> Offset(Sum(a[..]), a.Length, d) < 0
  {
    var total := Sum(a[..]);
    StepDoesNotOvershoot(total, a.Length, d);
    if Offset(total, a.Length, d) > 0 {
      LowerableExists(a[..], d);
      var possibleIndices := Where(a[..], CanLower);
      k := Randomness.ChooseOne(possibleIndices);
      SumUpdate(a[..], k, a[k] - 1);
      a[k] := a[k] - 1;
    } else {
      RaisableExists(a[..], d);
      var possibleIndices := Where(a[..], CanRaise);
      k := Randomness.ChooseOne(possibleIndices);
      SumUpdate(a[..], k, a[k] + 1);
      a[k] := a[k] + 1;
    }
  }

  /**
   The loop stops at the first total within tolerance: a total that started
   above the window ends where one more unit would put it back outside, and
   one that started below ends where one unit less would.
   */
  ghost predicate StopsAtFirst(before: int, after: int, n: nat, d: Difficulty)
  {
    (!WithinTolerance(before, n, d) && Offset(before, n, d) > 0 ==> !WithinTolerance(after + 1, n, d)) &&
    (!WithinTolerance(before, n, d) && Offset(before, n, d) < 0 ==> !WithinTolerance(after - 1, n, d))
  }

  /**
   The loop of `generate_training`: it ends, and on exit every value is in
   4..10 and the mean is within 0.25 of the target. A list already within
   tolerance is left as it is; otherwise the loop only ever moves towards the
   target, so starting above it no value rises and starting below it no value
   falls, and the mean ends on the side of the target it started on, at the
   first total inside the window.
   */
  method Climb(a: array<int>, d: Difficulty)
    requires ValidStations(a.Length)
    requires forall i :: 0 <= i < a.Length ==> InRpeRange(a[i])
    modifies a
    ensures forall i :: 0 <= i < a.Length ==> InRpeRange(a[i])
    ensures WithinTolerance(Sum(a[..]), a.Length, d)
    ensures WithinTolerance(old(Sum(a[..])), a.Length, d) ==> a[..] == old(a[..])
    ensures Offset(old(Sum(a[..])), a.Length, d) > 0 ==> forall i :: 0 <= i < a.Length ==> a[i] <= old(a[i])
    ensures Offset(old(Sum(a[..])), a.Length, d) < 0 ==> forall i :: 0 <= i < a.Length ==> a[i] >= old(a[i])
    ensures Offset(old(Sum(a[..])), a.Length, d) > 0 ==> Offset(Sum(a[..]), a.Length, d) > 0
    ensures Offset(old(Sum(a[..])), a.Length, d) < 0 ==> Offset(Sum(a[..]), a.Length, d) < 0
    ensures StopsAtFirst(old(Sum(a[..])), Sum(a[..]), a.Length, d)
  {
    ghost var initial := Offset(Sum(a[..]), a.Length, d);
    var currentTotal := Sum(a[..]);
    while !WithinTolerance(currentTotal, a.Length, d)
      invariant currentTotal == Sum(a[..])
      invariant forall i :: 0 <= i < a.Length ==> InRpeRange(a[i])
      invariant WithinTolerance(old(Sum(a[..])), a.Length, d) ==> a[..] == old(a[..])
      invariant StopsAtFirst(old(Sum(a[..])), currentTotal, a.Length, d) || currentTotal == old(Sum(a[..]))
      invariant initial > 0 ==> Offset(currentTotal, a.Length, d) > 0
      invariant initial < 0 ==> Offset(currentTotal, a.Length, d) < 0
      invariant initial > 0 ==> forall i :: 0 <= i < a.Length ==> a[i] <= old(a[i])
      invariant initial < 0 ==> forall i :: 0 <= i < a.Length ==> a[i] >= old(a[i])
      decreases Abs(Offset(currentTotal, a.Length, d))
    {
      var _ := Step(a, d);
      currentTotal := Sum(a[..]);
    }
  }
}
