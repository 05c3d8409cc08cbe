/**
 * `compute_summary`: the two-sample comparison of a baseline series `a` and an actual
 * series `b`. It decides statistical significance with a Welch-style t statistic
 * against the critical-value table, then classifies the change by a first-match-wins
 * sequence of rules into one of six labels.
 */
module Classify {
  import opened Wrappers
  import opened ExtReal
  import opened Stats
  import opened TDist

  /** The labels of the summary column: N/A, SAME, FLAKY, SAME?, GOOD and BAD. */
  datatype Label = NotApplicable | Same | Flaky | ProbablySame | Good | Bad

  /** Both standard errors are exactly zero: the test is undefined. */
  predicate BothStdErrZero(a: seq<real>, b: seq<real>)
    requires |a| > 0 && |b| > 0
  {
    StdErrSquared(a) == Fin(0.0) && StdErrSquared(b) == Fin(0.0)
  }

  /**
   * `abs(t) > c` for `t = (ma - mb) / sqrt(seA^2 + seB^2)`, decided without the square
   * root. An infinite standard error makes `t` zero; otherwise the comparison is made
   * between squares (see `SquaredComparison`).
   */
  predicate TExceeds(a: seq<real>, b: seq<real>, c: real)
    requires |a| > 0 && |b| > 0
  {
    match (StdErrSquared(a), StdErrSquared(b))
    case (Fin(x), Fin(y)) => c < 0.0 || Square(Mean(a) - Mean(b)) > Square(c) * (x + y)
    case _ => 0.0 > c
  }

  /** The degrees of freedom, approximated as `len(a) + len(b) - 2`. */
  function DegreesOfFreedom(a: seq<real>, b: seq<real>): int {
    |a| + |b| - 2
  }

  /**
   * Statistical significance: `abs(t) > t_dist(df + 1)`. The table is consulted one
   * degree of freedom above `df`. Below index 2 it holds `None`, and Python 2 orders
   * `None` below every number, so the comparison then holds whatever `t` is.
   */
  predicate Significant(a: seq<real>, b: seq<real>)
    requires |a| > 0 && |b| > 0
  {
    match CriticalValue(DegreesOfFreedom(a, b) + 1)
    case None => true
    case Some(c) => TExceeds(a, b, c)
  }

  /** `100 * diff / abs(mean_a)`, or `+inf` when the baseline mean is zero. */
  function DiffPercentage(meanA: real, meanB: real): (r: Ext)
    ensures r.PosInf? <==> meanA == 0.0
  {
    if meanA == 0.0 then PosInf else Fin(100.0 * (meanB - meanA) / Abs(meanA))
  }

  /** The change from `meanA` to `meanB` goes in the direction the unit calls better. */
  predicate Improves(meanA: real, meanB: real, biggerIsBetter: bool) {
    (biggerIsBetter && meanB - meanA > 0.0) || (!biggerIsBetter && meanB - meanA < 0.0)
  }

  /**
   * `compute_summary(a, b, bigger_is_better)`. Both series are non-empty: the source
   * divides by `sqrt(len(series))` and raises on an empty one, and its caller skips them.
   */
  function Summary(a: seq<real>, b: seq<real>, biggerIsBetter: bool): (r: (Label, bool))
    requires |a| > 0 && |b| > 0
    ensures r.1 <==> r.0 == ProbablySame || r.0 == Good || r.0 == Bad
    ensures r.0 == NotApplicable <==> BothStdErrZero(a, b)
    ensures !BothStdErrZero(a, b) ==> (r.1 <==> Significant(a, b))
    ensures r.0 == Same ==> Below(AbsExt(DiffPercentage(Mean(a), Mean(b))), 0.1)
    ensures r.0 == Flaky ==> !Below(AbsExt(DiffPercentage(Mean(a), Mean(b))), 0.1)
    ensures r.0 == ProbablySame ==> Below(AbsExt(DiffPercentage(Mean(a), Mean(b))), 1.0)
    ensures r.0 == Good || r.0 == Bad ==> !Below(AbsExt(DiffPercentage(Mean(a), Mean(b))), 1.0)
    ensures r.0 == Good ==> Improves(Mean(a), Mean(b), biggerIsBetter)
    ensures r.0 == Bad ==> !Improves(Mean(a), Mean(b), biggerIsBetter)
  {
    if BothStdErrZero(a, b) then (NotApplicable, false)
    else
      var significant := Significant(a, b);
      var diffPercentage := DiffPercentage(Mean(a), Mean(b));
      if Below(AbsExt(diffPercentage), 0.1) && !significant then (Same, significant)
      else if !significant then (Flaky, significant)
      else if Below(AbsExt(diffPercentage), 1.0) then (ProbablySame, significant)
      else if Improves(Mean(a), Mean(b), biggerIsBetter) then (Good, significant)
      else (Bad, significant)
  }

  /** The squared standard error is zero exactly for a constant series of two or more. */
  lemma StdErrZeroIffConstant(s: seq<real>)
    requires |s| > 0
    ensures StdErrSquared(s) == Fin(0.0) <==> |s| >= 2 && Constant(s)
  {
    if |s| >= 2 {
      VarianceZeroIffConstant(s);
      var v := Variance(s).r;
      assert v / (|s| as real) == 0.0 <==> v == 0.0;
    }
  }

  /**
   * The result is N/A exactly when both series have at least two elements and each is
   * constant; a single-element series has an infinite standard error and never gives N/A.
   */
  lemma NotApplicableIff(a: seq<real>, b: seq<real>, biggerIsBetter: bool)
    requires |a| > 0 && |b| > 0
    ensures Summary(a, b, biggerIsBetter) == (NotApplicable, false) <==>
            |a| >= 2 && |b| >= 2 && Constant(a) && Constant(b)
    ensures |a| == 1 || |b| == 1 ==> Summary(a, b, biggerIsBetter).0 != NotApplicable
  {
    StdErrZeroIffConstant(a);
    StdErrZeroIffConstant(b);
  }

  /** For non-negative reals, the order of the squares is the order of the numbers. */
  lemma SquareMonotone(u: real, v: real)
    requires u >= 0.0 && v >= 0.0
    ensures u > v <==> Square(u) > Square(v)
  {
    ProductSigns();
    if u > v {
      assert Square(u) - Square(v) == Product(u - v, u + v);
      assert Product(u - v, u + v) > 0.0;
    } else if v > u {
      assert Square(v) - Square(u) == Product(v - u, v + u);
      assert Product(v - u, v + u) > 0.0;
    }
  }

  /**
   * The square-free form of the test agrees with the source's: for any positive square
   * root `root` of the summed squared standard errors, `abs(num / root) > c` holds
   * exactly when `c` is negative or `num^2 > c^2 * root^2`.
   */
  lemma SquaredComparison(num: real, root: real, c: real)
    requires root > 0.0
    ensures Abs(num / root) > c <==> c < 0.0 || Square(num) > Square(c) * Square(root)
  {
    if c >= 0.0 {
      var t := Abs(num / root);
      assert t * root == Abs(num);
      assert t > c <==> t * root > c * root;
      SquareMonotone(Abs(num), c * root);
      assert Square(Abs(num)) == Square(num);
      assert Square(c * root) == Square(c) * Square(root);
    }
  }

  /**
   * With finite standard errors whose squares sum to `root^2`, the square-free test is
   * the source's `abs(t) > c` for `t = (mean_a - mean_b) / root`.
   */
  lemma TExceedsIsTTest(a: seq<real>, b: seq<real>, c: real, root: real)
    requires |a| > 0 && |b| > 0
    requires StdErrSquared(a).Fin? && StdErrSquared(b).Fin?
    requires root > 0.0 && Square(root) == StdErrSquared(a).r + StdErrSquared(b).r
    ensures TExceeds(a, b, c) <==> Abs((Mean(a) - Mean(b)) / root) > c
  {
    SquaredComparison(Mean(a) - Mean(b), root, c);
  }

  /**
   * With a zero baseline mean the difference is `+inf` percent, so once the N/A rule has
   * not fired only FLAKY, GOOD or BAD remain.
   */
  lemma ZeroBaselineMean(a: seq<real>, b: seq<real>, biggerIsBetter: bool)
    requires |a| > 0 && |b| > 0 && Mean(a) == 0.0
    ensures Summary(a, b, biggerIsBetter).0 in {NotApplicable, Flaky, Good, Bad}
  {
  }

  /**
   * Swapping baseline and actual does not change the significance flag: `t` only
   * changes sign and the degrees of freedom are symmetric.
   */
  lemma SwapKeepsSignificance(a: seq<real>, b: seq<real>, biggerIsBetter: bool)
    requires |a| > 0 && |b| > 0
    ensures Summary(a, b, biggerIsBetter).1 == Summary(b, a, biggerIsBetter).1
    ensures Summary(a, b, biggerIsBetter).0 == NotApplicable <==>
            Summary(b, a, biggerIsBetter).0 == NotApplicable
  {
    if !BothStdErrZero(a, b) {
      SignificantSymmetric(a, b);
    }
  }

  lemma TExceedsSymmetric(a: seq<real>, b: seq<real>, c: real)
    requires |a| > 0 && |b| > 0
    ensures TExceeds(a, b, c) == TExceeds(b, a, c)
  {
    var d := Mean(a) - Mean(b);
    SquareNegation(d);
    assert Mean(b) - Mean(a) == -d;
    match (StdErrSquared(a), StdErrSquared(b))
    case (Fin(x), Fin(y)) =>
      assert TExceeds(a, b, c) == (c < 0.0 || Square(d) > Square(c) * (x + y));
      assert TExceeds(b, a, c) == (c < 0.0 || Square(-d) > Square(c) * (y + x));
      assert y + x == x + y;
    case _ =>
  }

  lemma SignificantSymmetric(a: seq<real>, b: seq<real>)
    requires |a| > 0 && |b| > 0
    ensures Significant(a, b) == Significant(b, a)
  {
    var n := DegreesOfFreedom(a, b) + 1;
    assert n == DegreesOfFreedom(b, a) + 1;
    var c := CriticalValue(n);
    if c.Some? {
      TExceedsSymmetric(a, b, c.value);
    }
  }

  /** GOOD and BAD trade places; every other label stays. */
  function Mirror(l: Label): Label {
    match l
    case Good => Bad
    case Bad => Good
    case _ => l
  }

  /**
   * When the means differ, flipping the unit's direction swaps GOOD and BAD and leaves
   * every other label, and the flag, unchanged. When they are equal the direction does
   * not matter at all, and the result is never GOOD.
   */
  lemma FlipDirection(a: seq<real>, b: seq<real>, biggerIsBetter: bool)
    requires |a| > 0 && |b| > 0
    ensures Mean(a) != Mean(b) ==>
            Summary(a, b, !biggerIsBetter) ==
            (Mirror(Summary(a, b, biggerIsBetter).0), Summary(a, b, biggerIsBetter).1)
    ensures Mean(a) == Mean(b) ==>
            Summary(a, b, !biggerIsBetter) == Summary(a, b, biggerIsBetter) &&
            Summary(a, b, biggerIsBetter).0 != Good
  {
  }

  /**
   * Two single-element series are always significant: both standard errors are infinite,
   * so `t` is zero, but the table is consulted at index 1, whose `None` every number
   * exceeds under Python 2 ordering. The label is then SAME?, GOOD or BAD.
   */
  lemma TwoSingletonsAreSignificant(x: real, y: real, biggerIsBetter: bool)
    ensures Summary([x], [y], biggerIsBetter).1
    ensures Summary([x], [y], biggerIsBetter).0 in {ProbablySame, Good, Bad}
  {
  }

  /**
   * The label, unlike the flag, can change when baseline and actual are swapped: the
   * percentage is taken relative to the baseline mean. A change of 1 between means
   * 999.5 and 1000.5 is 0.10005% of the one and -0.09995% of the other, and with
   * `abs(t)` near 1.41 it is not significant, so it is FLAKY one way and SAME the other.
   * The samples, sums, means and variances are exact in binary floating point; the
   * percentages and `t` are rounded there, but stay far from 0.1 and from 4.30.
   */
  lemma SwapCanChangeLabel()
    ensures Summary([999.0, 1000.0], [1000.0, 1001.0], true) == (Flaky, false)
    ensures Summary([1000.0, 1001.0], [999.0, 1000.0], true) == (Same, false)
  {
    var a, b := [999.0, 1000.0], [1000.0, 1001.0];
    PairStatistics(999.0, 1000.0);
    PairStatistics(1000.0, 1001.0);
    assert Square(-0.5) == 0.25 && Square(0.5) == 0.25;
    assert Mean(a) == 999.5 && Mean(b) == 1000.5;
    assert StdErrSquared(a) == Fin(0.25);
    assert StdErrSquared(b) == Fin(0.25);
    var c := CriticalValue(DegreesOfFreedom(a, b) + 1);
    CriticalValueShape(3, 3);
    assert Square(Mean(a) - Mean(b)) == 1.0 by {
      assert Mean(a) - Mean(b) == -1.0;
      assert Square(-1.0) == 1.0;
    }
    assert Square(Mean(b) - Mean(a)) == 1.0 by {
      assert Mean(b) - Mean(a) == 1.0;
      assert Square(1.0) == 1.0;
    }
    SquareMonotone(c.value, Asymptotic);
    assert Square(Asymptotic) == 3.8416;
    assert !Significant(a, b);
    assert !Significant(b, a);
    assert DiffPercentage(Mean(a), Mean(b)) == Fin(100.0 / 999.5);
    assert DiffPercentage(Mean(b), Mean(a)) == Fin(-100.0 / 1000.5);
  }

}
