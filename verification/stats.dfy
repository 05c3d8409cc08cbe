/**
 * Descriptive statistics of a sample series: `compute_mean`, `compute_std_dev` and
 * `compute_std_err`. Standard deviations are square roots of the quantities here: the
 * model keeps their squares (the variance and the squared standard error), which is
 * all the comparison needs, and keeps `+inf` explicit.
 */
module Stats {
  import opened ExtReal

  /** The running sum the source accumulates, element by element from the left. */
  function Sum(s: seq<real>): real {
    if |s| == 0 then 0.0 else Sum(s[..|s| - 1]) + s[|s| - 1]
  }

  /** `compute_mean`: 0 for an empty series, otherwise the sum over the length. */
  function Mean(s: seq<real>): real {
    if |s| == 0 then 0.0 else Sum(s) / (|s| as real)
  }

  function Product(a: real, b: real): real {
    a * b
  }

  function Square(x: real): real {
    Product(x, x)
  }

  /** The sum of squared deviations of the elements of `s` from `m`, from the left. */
  function SquaredDeviations(s: seq<real>, m: real): real {
    if |s| == 0 then 0.0
    else SquaredDeviations(s[..|s| - 1], m) + Square(s[|s| - 1] - m)
  }

  /**
   * The square of `compute_std_dev`: infinite for a series of at most one element,
   * otherwise the sum of squared deviations from the mean over `n - 1`.
   */
  function Variance(s: seq<real>): Ext {
    if |s| <= 1 then PosInf
    else Fin(SquaredDeviations(s, Mean(s)) / ((|s| - 1) as real))
  }

  /**
   * The square of `compute_std_err`, that is of `std_dev / sqrt(n)`. An empty series
   * makes the source divide by `sqrt(0)` and raise, so it is excluded; a single
   * element gives infinity.
   */
  function StdErrSquared(s: seq<real>): (r: Ext)
    requires |s| > 0
    ensures r.PosInf? <==> |s| == 1
    ensures r.Fin? ==> r.r >= 0.0
  {
    VarianceNonNegative(s);
    match Variance(s)
    case PosInf => PosInf
    case Fin(v) => Fin(v / (|s| as real))
  }

  /** All elements of the series are equal. */
  predicate Constant(s: seq<real>) {
    forall i, j :: 0 <= i < |s| && 0 <= j < |s| ==> s[i] == s[j]
  }

  /** `compute_mean`, written as the source's loop over the series. */
  method ComputeMean(s: seq<real>) returns (mean: real)
    ensures |s| == 0 ==> mean == 0.0
    ensures |s| > 0 ==> mean * (|s| as real) == Sum(s)
    ensures mean == Mean(s)
  {
    if |s| == 0 {
      return 0.0;
    }
    var sum := 0.0;
    var i := 0;
    while i < |s|
      invariant 0 <= i <= |s|
      invariant sum == Sum(s[..i])
    {
      assert s[..i + 1][..i] == s[..i];
      sum := sum + s[i];
      i := i + 1;
    }
    assert s[..i] == s;
    mean := sum / (|s| as real);
  }

  /** `compute_std_dev` squared, written as the source's loop over the series. */
  method ComputeVariance(s: seq<real>) returns (variance: Ext)
    ensures variance.PosInf? <==> |s| <= 1
    ensures variance.Fin? ==> variance.r * ((|s| - 1) as real) == SquaredDeviations(s, Mean(s))
  {
    if |s| <= 1 {
      return PosInf;
    }
    var mean := ComputeMean(s);
    var deltaSquaredSum := 0.0;
    var i := 0;
    while i < |s|
      invariant 0 <= i <= |s|
      invariant deltaSquaredSum == SquaredDeviations(s[..i], mean)
    {
      assert s[..i + 1][..i] == s[..i];
      deltaSquaredSum := deltaSquaredSum + Square(s[i] - mean);
      i := i + 1;
    }
    assert s[..i] == s;
    variance := Fin(deltaSquaredSum / ((|s| - 1) as real));
  }

  lemma {:induction false} SumAppend(a: seq<real>, b: seq<real>)
    ensures Sum(a + b) == Sum(a) + Sum(b)
    decreases |b|
  {
    if |b| > 0 {
      assert (a + b)[..|a + b| - 1] == a + b[..|b| - 1];
      assert (a + b)[|a + b| - 1] == b[|b| - 1];
      SumAppend(a, b[..|b| - 1]);
    } else {
      assert a + b == a;
    }
  }

  /** Taking element `i` out of a series takes exactly that element out of its sum. */
  lemma SumRemove(s: seq<real>, i: nat)
    requires i < |s|
    ensures Sum(s) == Sum(s[..i] + s[i + 1..]) + s[i]
  {
    var front, back := s[..i], s[i + 1..];
    assert s == (front + [s[i]]) + back;
    SumAppend(front + [s[i]], back);
    assert Sum(front + [s[i]]) == Sum(front) + s[i] by {
      assert (front + [s[i]])[..|front|] == front;
    }
    SumAppend(front, back);
  }

  /** The sum does not depend on the order of the elements. */
  lemma {:induction false} SumPermutation(s: seq<real>, t: seq<real>)
    requires multiset(s) == multiset(t)
    ensures Sum(s) == Sum(t)
    decreases |s|
  {
    if |s| > 0 {
      var x := s[|s| - 1];
      assert x in multiset(t) by {
        assert x in multiset(s);
      }
      var i :| 0 <= i < |t| && t[i] == x;
      var s' := s[..|s| - 1];
      var t' := t[..i] + t[i + 1..];
      assert s == s' + [x];
      assert multiset(s) == multiset(s') + multiset{x};
      assert t == t[..i] + [x] + t[i + 1..];
      assert multiset(t) == multiset(t[..i]) + multiset{x} + multiset(t[i + 1..]);
      assert multiset(t') == multiset(t[..i]) + multiset(t[i + 1..]);
      assert multiset(s') == multiset(s) - multiset{x};
      assert multiset(t') == multiset(t) - multiset{x};
      SumPermutation(s', t');
      SumRemove(t, i);
    }
  }

  /**
   * `compute_mean` is 0 on an empty series, returns the element of a singleton,
   * and does not depend on the order of the elements.
   */
  lemma MeanProperties(s: seq<real>, t: seq<real>)
    requires multiset(s) == multiset(t)
    ensures Mean([]) == 0.0
    ensures |s| == 1 ==> Mean(s) == s[0]
    ensures Mean(s) == Mean(t)
  {
    if |s| == 1 {
      assert s[..0] == [];
    }
    SumPermutation(s, t);
    assert |s| == |multiset(s)| == |multiset(t)| == |t|;
  }

  lemma {:induction false} SumConstant(s: seq<real>, x: real)
    requires forall i :: 0 <= i < |s| ==> s[i] == x
    ensures Sum(s) == (|s| as real) * x
    decreases |s|
  {
    if |s| > 0 {
      SumConstant(s[..|s| - 1], x);
    }
  }

  /** A sum of elements between `lo` and `hi` lies between `n * lo` and `n * hi`. */
  lemma {:induction false} SumBounds(s: seq<real>, lo: real, hi: real)
    requires forall i :: 0 <= i < |s| ==> lo <= s[i] <= hi
    ensures (|s| as real) * lo <= Sum(s) <= (|s| as real) * hi
    decreases |s|
  {
    if |s| > 0 {
      SumBounds(s[..|s| - 1], lo, hi);
      var n := (|s| - 1) as real;
      assert (|s| as real) * lo == n * lo + lo;
      assert (|s| as real) * hi == n * hi + hi;
    }
  }

  /** The mean of a non-empty series lies between bounds on its elements. */
  lemma MeanBounds(s: seq<real>, lo: real, hi: real)
    requires |s| > 0
    requires forall i :: 0 <= i < |s| ==> lo <= s[i] <= hi
    ensures lo <= Mean(s) <= hi
  {
    SumBounds(s, lo, hi);
    var n := |s| as real;
    assert Mean(s) * n == Sum(s);
  }

  lemma {:induction false} SquaredDeviationsNonNegative(s: seq<real>, m: real)
    ensures SquaredDeviations(s, m) >= 0.0
    decreases |s|
  {
    if |s| > 0 {
      SquaredDeviationsNonNegative(s[..|s| - 1], m);
      SquareSign(s[|s| - 1] - m);
    }
  }

  /** Sign rules for products, stated over `Product` so that they apply to squares. */
  lemma ProductSigns()
    ensures forall a, b :: a > 0.0 && b > 0.0 ==> Product(a, b) > 0.0
    ensures forall a, b :: Product(-a, -b) == Product(a, b)
  {
  }

  /** A number and its negation have the same square. */
  lemma SquareNegation(x: real)
    ensures Square(-x) == Square(x)
  {
  }

  /** A square is non-negative, and zero only for zero. */
  lemma SquareSign(x: real)
    ensures Square(x) >= 0.0
    ensures Square(x) == 0.0 <==> x == 0.0
  {
    ProductSigns();
    if x < 0.0 {
      assert Product(-x, -x) > 0.0;
    }
  }

  /** The squared deviations from `m` vanish exactly when every element equals `m`. */
  lemma {:induction false} SquaredDeviationsZero(s: seq<real>, m: real)
    ensures SquaredDeviations(s, m) == 0.0 <==> forall i :: 0 <= i < |s| ==> s[i] == m
    decreases |s|
  {
    if |s| > 0 {
      var s' := s[..|s| - 1];
      SquaredDeviationsZero(s', m);
      SquaredDeviationsNonNegative(s', m);
      SquareSign(s[|s| - 1] - m);
      if forall i :: 0 <= i < |s'| ==> s'[i] == m {
        if s[|s| - 1] == m {
          forall i | 0 <= i < |s| ensures s[i] == m {
            if i < |s'| {
              assert s[i] == s'[i];
            }
          }
        }
      } else {
        var k :| 0 <= k < |s'| && s'[k] != m;
        assert s[k] != m;
      }
    }
  }

  lemma VarianceNonNegative(s: seq<real>)
    ensures Variance(s).Fin? ==> Variance(s).r >= 0.0
  {
    SquaredDeviationsNonNegative(s, Mean(s));
  }

  /**
   * For a series of at least two elements the (n-1)-divisor variance is finite and
   * non-negative, and it is zero exactly when all elements are equal.
   */
  lemma VarianceZeroIffConstant(s: seq<real>)
    requires |s| >= 2
    ensures Variance(s).Fin? && Variance(s).r >= 0.0
    ensures Variance(s) == Fin(0.0) <==> Constant(s)
  {
    var m := Mean(s);
    var n := (|s| - 1) as real;
    SquaredDeviationsNonNegative(s, m);
    SquaredDeviationsZero(s, m);
    var q := SquaredDeviations(s, m);
    assert q / n == 0.0 <==> q == 0.0;
    if Constant(s) {
      SumConstant(s, s[0]);
      assert forall i :: 0 <= i < |s| ==> s[i] == m;
    }
  }

  /** `compute_std_dev` is infinite for a series of at most one element. */
  lemma VarianceOfShortSeries(s: seq<real>)
    ensures |s| <= 1 <==> Variance(s) == PosInf
  {
  }

  /** The mean and squared deviations of a two-element series. */
  lemma PairStatistics(x: real, y: real)
    ensures Mean([x, y]) == (x + y) / 2.0
    ensures Variance([x, y]) == Fin(Square(x - (x + y) / 2.0) + Square(y - (x + y) / 2.0))
  {
    var s := [x, y];
    assert s[..1] == [x];
    assert [x][..0] == [];
    assert Sum([x]) == x;
    assert Sum(s) == x + y;
    var m := (x + y) / 2.0;
    assert Mean(s) == m;
    assert SquaredDeviations([x], m) == Square(x - m);
    assert SquaredDeviations(s, m) == Square(x - m) + Square(y - m);
  }
}
