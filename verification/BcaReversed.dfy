/** A sample whose interval comes out with its endpoints reversed. */
module BcaReversed {
  import opened Bca
  import opened BcaInterval

  /** `n` values of 1 and one of `-n`: the mean is 0. */
  function Outlier(n: nat): (r: seq<real>)
    ensures |r| == n + 1
  {
    Repeat(1.0, n) + [-(n as real)]
  }

  function Repeat(x: real, n: nat): (r: seq<real>)
    ensures |r| == n && forall i :: 0 <= i < n ==> r[i] == x
  {
    seq(n, i => x)
  }

  lemma {:induction false} TotalRepeat(xs: seq<real>, x: real)
    requires forall i :: 0 <= i < |xs| ==> xs[i] == x
    ensures Total(xs) == |xs| as real * x
  {
    if xs != [] {
      TotalRepeat(xs[..|xs| - 1], x);
    }
  }

  /** The sum of `n` equal values and one more. */
  lemma TotalOutlier(xs: seq<real>, n: nat, x: real, y: real)
    requires |xs| == n + 1 && xs[n] == y && forall i :: 0 <= i < n ==> xs[i] == x
    ensures Total(xs) == n as real * x + y
  {
    TotalRepeat(xs[..n], x);
  }

  lemma OutlierDiffs(n: nat)
    ensures |Diffs(Outlier(n))| == n + 1 && Diffs(Outlier(n))[n] == n as real
    ensures forall i :: 0 <= i < n ==> Diffs(Outlier(n))[i] == -1.0
  {
    TotalOutlier(Outlier(n), n, 1.0, -(n as real));
  }

  lemma OutlierSums(n: nat)
    ensures Squares(Diffs(Outlier(n))) == n as real + Sq(n as real)
    ensures Cubes(Diffs(Outlier(n))) == Cube(n as real) - n as real
  {
    OutlierDiffs(n);
    TotalOutlier(Each(Diffs(Outlier(n)), Sq), n, 1.0, Sq(n as real));
    TotalOutlier(Each(Diffs(Outlier(n)), Cube), n, -1.0, Cube(n as real));
  }

  /** The root of 600 is a little less than 24.5. */
  lemma RootOf600(r: real)
    requires r >= 0.0 && r * r == 600.0
    ensures 24.0 < r < 24.5
  {
    if r <= 24.0 {
      Scale(r, r, 24.0);
    } else if r >= 24.5 {
      Scale(r, 24.5, r);
    }
  }

  lemma RatioLarge(r: real)
    requires 24.0 < r < 24.5
    ensures 13800.0 / (6.0 * (600.0 * r)) > 0.156
  {
    var d := 6.0 * (600.0 * r);
    Cross(13800.0, d, 0.156, 1.0);
  }

  lemma OutlierAcceleration(root: Fn)
    requires IsRoot(root)
    ensures 0.156 < Acceleration(Outlier(24), root) <= 1.0 / 6.0
  {
    OutlierSums(24);
    var r := root(600.0);
    RootOf600(r);
    RatioLarge(r);
    AccelerationBounded(Outlier(24), root);
  }

  /** What the sample takes of the normal distribution: its 0.025 and 0.975 quantiles lie
      near -1.96 and 1.96, its quantile at `1 - TINY` above 4.7, and 0 is its median. */
  ghost predicate NormalNumbers(cdf: Fn, ppf: Fn) {
    && -1.97 < ppf(0.025) < -1.95
    && 1.95 < ppf(0.975) < 1.97
    && 4.7 < ppf(1.0 - TINY)
    && cdf(0.0) == 0.5 && forall x :: x < 0.0 ==> cdf(x) < 0.5
  }

  /** Past the pole the adjusted quantile is below the negated quantile. */
  lemma PastPoleFalls(a: real, w: real)
    requires 0.156 < a <= 1.0 / 6.0 && 6.65 < w < 8.0
    ensures Slope(a, w) <= -w
  {
    Scale(w, 0.156, a);
    Scale(w, a, 1.0 / 6.0);
    Swap(w, a);
    var d := Pinned(1.0 - a * w);
    assert -1.0 <= d < 0.0;
    Cross(-w, -d, -w, 1.0);
    Scale(w, -d, 1.0);
    assert w / d == (-w) / (-d) by {
      NegateRatio(w, d);
      NegateDivisor(w, d);
    }
  }

  lemma NegateDivisor(n: real, d: real)
    requires d != 0.0
    ensures n / (-d) == -(n / d)
  {
    var q := n / d;
    assert n == q * d == (-q) * (-d);
  }

  lemma BeforePolePositive(a: real, w: real)
    requires 0.156 < a <= 1.0 / 6.0 && 0.0 < w < 6.0
    ensures Slope(a, w) >= 0.0
  {
    BelowPole(a, w);
    var d := Pinned(1.0 - a * w);
    Cross(0.0, 1.0, w, d);
  }

  lemma TwoValues(theta: real)
    requires theta > 1.0
    ensures Sorted([0.0, 1.0]) == [0.0, 1.0] && RawProportion(theta, [0.0, 1.0]) == 1.0
  {
    assert [0.0, 1.0][1..] == [1.0];
    assert Sorted([1.0]) == [1.0];
    assert [0.0, 1.0][..1] == [0.0];
    assert Below([0.0], theta) == 1;
    assert Below([0.0, 1.0], theta) == 2;
  }

  /** A statistic above both replicates, with that jackknife: the lower endpoint is the
      larger of the two values and the upper endpoint the smaller. */
  lemma ReversedSample(r: Interval, cdf: Fn, ppf: Fn, root: Fn)
    requires Normal(cdf, ppf) && IsRoot(root) && NormalNumbers(cdf, ppf)
    requires IsIntervalOf(r, 2.0, [0.0, 1.0], Outlier(24), 0.95, cdf, ppf, root)
    ensures r.lower == 1.0 && r.upper == 0.0
  {
    TwoValues(2.0);
    OutlierAcceleration(root);
    var a, z0 := Acceleration(Outlier(24), root), Bias(2.0, [0.0, 1.0], ppf);
    assert Alpha(0.95) == 0.025;
    assert 4.7 < z0 < 6.0;
    Reversed(a, z0, z0 + ppf(0.025), z0 + ppf(0.975), cdf);
  }

  lemma Reversed(a: real, z0: real, w1: real, w2: real, cdf: Fn)
    requires 0.156 < a <= 1.0 / 6.0 && 4.7 < z0 < 6.0 && 0.0 < w1 < 6.0 && 6.65 < w2 < 8.0
    requires Grows(cdf) && cdf(0.0) == 0.5 && forall x :: x < 0.0 ==> cdf(x) < 0.5
    ensures At([0.0, 1.0], a, z0, w1, cdf) == 1.0 && At([0.0, 1.0], a, z0, w2, cdf) == 0.0
  {
    BeforePolePositive(a, w1);
    PastPoleFalls(a, w2);
    assert cdf(z0 + Slope(a, w1)) >= cdf(0.0);
    assert cdf(z0 + Slope(a, w2)) < 0.5;
    IndexOfHalf(cdf(z0 + Slope(a, w1)));
    IndexOfHalf(cdf(z0 + Slope(a, w2)));
  }

  lemma IndexOfHalf(p: real)
    ensures Index(p, 2) == if p < 0.5 then 0 else 1
  {
  }
}
