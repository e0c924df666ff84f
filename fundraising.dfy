/** The fundraising bar of src/components/game-detail/FundraisingProgress.tsx:
    whether it renders, the rounded and clamped percentage, and the completion
    flag, in exact integer arithmetic. */
module Fundraising {
  import opened Wrappers
  import opened Seqs

  /** What the component renders: the amounts, the percentage shown and
      whether the goal is reached. */
  datatype Progress = Progress(currentAmount: int, goal: int, percentage: int, isCompleted: bool)

  /** `Math.round(n / d)` for a positive `d`: the nearest integer, halves
      rounded up. */
  function RoundHalfUp(n: int, d: int): (q: int)
    requires d > 0
    ensures 2 * d * q - d <= 2 * n < 2 * d * q + d
  {
    var x, m := 2 * n + d, 2 * d;
    var q := x / m;
    assert x == m * q + x % m && 0 <= x % m < m;
    assert 2 * d * q == m * q;
    q
  }

  /** Rounding is monotone in the numerator. */
  lemma RoundHalfUpAtLeast(n: int, d: int, k: int)
    requires d > 0 && n >= k * d
    ensures RoundHalfUp(n, d) >= k
  {
    var q := RoundHalfUp(n, d);
    assert d * (2 * q + 1) > d * (2 * k);
    MulCancel(d, 2 * q + 1, 2 * k);
  }

  /** The rounded quotient reaches `k` exactly when `n/d` is at least
      `k - 1/2`. */
  lemma RoundHalfUpReaches(n: int, d: int, k: int)
    requires d > 0
    ensures RoundHalfUp(n, d) >= k <==> 2 * n >= (2 * k - 1) * d
  {
    var q := RoundHalfUp(n, d);
    if q >= k {
      MulMono(d, k, q);
      assert 2 * n >= 2 * d * q - d >= 2 * d * k - d;
    } else {
      MulMono(d, q, k - 1);
      assert 2 * n < 2 * d * q + d <= 2 * d * (k - 1) + d;
    }
  }

  lemma MulMono(d: int, a: int, b: int)
    requires d > 0 && a <= b
    ensures d * a <= d * b
  {
    assert d * b - d * a == d * (b - a);
  }

  lemma MulCancel(d: int, a: int, b: int)
    requires d > 0 && d * a > d * b
    ensures a > b
  {
    assert d * (a - b) > 0;
  }

  /** A non-negative numerator never rounds below zero. */
  lemma RoundHalfUpNonNegative(n: int, d: int)
    requires d > 0 && n >= 0
    ensures RoundHalfUp(n, d) >= 0
  {
    RoundHalfUpAtLeast(n, d, 0);
  }

  /** `FundraisingProgress`: nothing when the goal is null, 0 or negative; a
      null current amount counts as 0. */
  function FundraisingProgress(current: Option<int>, goal: Option<int>): (r: Option<Progress>)
    ensures r.None? <==> goal.None? || goal.value <= 0
    ensures r.Some? ==> r.value.currentAmount == current.GetOr(0) && r.value.goal == goal.value
    ensures r.Some? ==> r.value.percentage <= 100
    ensures r.Some? && r.value.percentage < 100 ==>
      var p := r.value;
      2 * p.goal * p.percentage - p.goal <= 200 * p.currentAmount < 2 * p.goal * p.percentage + p.goal
    ensures r.Some? ==> (r.value.percentage == 100 <==> 200 * r.value.currentAmount >= 199 * r.value.goal)
    ensures r.Some? ==> (r.value.isCompleted <==> r.value.currentAmount >= r.value.goal)
    ensures r.Some? && r.value.isCompleted ==> r.value.percentage == 100
    ensures r.Some? && r.value.currentAmount >= 0 ==> r.value.percentage >= 0
  {
    if goal.None? || goal.value <= 0 then None
    else
      var g := goal.value;
      var currentAmount := current.GetOr(0);
      var rounded := RoundHalfUp(100 * currentAmount, g);
      var percentage := Min(rounded, 100);
      var isCompleted := currentAmount >= g;
      assert currentAmount >= 0 ==> rounded >= 0 by {
        if currentAmount >= 0 {
          RoundHalfUpNonNegative(100 * currentAmount, g);
        }
      }
      assert rounded >= 100 <==> 200 * currentAmount >= 199 * g by {
        RoundHalfUpReaches(100 * currentAmount, g, 100);
      }
      assert isCompleted ==> rounded >= 100 by {
        if isCompleted {
          assert 100 * currentAmount >= 100 * g;
          RoundHalfUpAtLeast(100 * currentAmount, g, 100);
        }
      }
      Some(Progress(currentAmount, g, percentage, isCompleted))
  }

  /** The documented cases: half-way shows 50% and is not complete; an
      overshoot clamps to 100% and is complete; no goal or a zero goal renders
      nothing. */
  lemma DocumentedCases()
    ensures FundraisingProgress(Some(5000), Some(10000)) == Some(Progress(5000, 10000, 50, false))
    ensures FundraisingProgress(Some(12000), Some(10000)) == Some(Progress(12000, 10000, 100, true))
    ensures FundraisingProgress(Some(5000), Some(0)).None?
    ensures FundraisingProgress(Some(5000), None).None?
    ensures FundraisingProgress(None, Some(10000)) == Some(Progress(0, 10000, 0, false))
  {
    assert RoundHalfUp(500000, 10000) == 50;
    assert RoundHalfUp(1200000, 10000) == 120;
    assert RoundHalfUp(0, 10000) == 0;
  }

  /** 100% does not mean complete: 99.5% of the goal rounds to 100 while the
      completion flag stays false. */
  lemma HundredPercentBeforeGoal()
    ensures FundraisingProgress(Some(9950), Some(10000)) == Some(Progress(9950, 10000, 100, false))
  {
    assert RoundHalfUp(995000, 10000) == 100;
  }
}
