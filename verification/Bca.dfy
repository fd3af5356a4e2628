/**
 The BCa interval of a bootstrap distribution, over the reals: when its endpoints come out
 in order, and what the label beside them says. The normal distribution enters as two
 monotone functions.
 */
module Bca {

  const TINY: real := 0.000001
  const VANISHED: real := 0.000000000001

  datatype Label = Degenerate | Clamped | BiasCorrected | Accelerated

  datatype Interval = Interval(lower: real, upper: real, construction: Label)

  type Fn = real -> real

  ghost predicate Grows(cdf: Fn) {
    forall x, y :: x <= y ==> cdf(x) <= cdf(y)
  }

  /** What is used of the normal distribution function and of its inverse on (0, 1). */
  ghost predicate Normal(cdf: Fn, ppf: Fn) {
    && Grows(cdf)
    && (forall p, q :: 0.0 < p <= q < 1.0 ==> ppf(p) <= ppf(q))
    && ppf(0.5) == 0.0
    && -6.0 < ppf(TINY) && ppf(1.0 - TINY) < 6.0
  }

  /** A square root. */
  ghost predicate IsRoot(root: Fn) {
    forall x :: x >= 0.0 ==> root(x) >= 0.0 && root(x) * root(x) == x
  }

  // ---------------------------------------------------------------- sums

  function Total(xs: seq<real>): real {
    if xs == [] then 0.0 else Total(xs[..|xs| - 1]) + xs[|xs| - 1]
  }

  function Sq(x: real): (s: real)
    ensures s >= 0.0
  {
    x * x
  }

  function Cube(x: real): real {
    Sq(x) * x
  }

  function Each(xs: seq<real>, f: Fn): (ys: seq<real>)
    ensures |ys| == |xs| && forall i :: 0 <= i < |xs| ==> ys[i] == f(xs[i])
  {
    seq(|xs|, i requires 0 <= i < |xs| => f(xs[i]))
  }

  function Squares(xs: seq<real>): real {
    Total(Each(xs, Sq))
  }

  function Cubes(xs: seq<real>): real {
    Total(Each(xs, Cube))
  }

  function Abs(x: real): real {
    if x < 0.0 then -x else x
  }

  function Clamp(x: real, lo: real, hi: real): (r: real)
    requires lo <= hi
    ensures lo <= r <= hi
  {
    if x < lo then lo else if x > hi then hi else x
  }

  // ---------------------------------------------------------------- the acceleration

  function Diffs(jack: seq<real>): seq<real>
    requires jack != []
  {
    var bar := Total(jack) / |jack| as real;
    seq(|jack|, i requires 0 <= i < |jack| => bar - jack[i])
  }

  function Den(jack: seq<real>, root: Fn): real
    requires jack != []
  {
    6.0 * (Squares(Diffs(jack)) * root(Squares(Diffs(jack))))
  }

  function Acceleration(jack: seq<real>, root: Fn): real
    requires jack != []
  {
    if Abs(Den(jack, root)) > VANISHED then Cubes(Diffs(jack)) / Den(jack, root) else 0.0
  }

  lemma ScaleStrictly(q: real, x: real, y: real)
    requires q > 0.0 && x < y
    ensures q * x < q * y
  {
  }

  lemma Swap(x: real, y: real)
    ensures x * y == y * x
  {
  }

  lemma StrictlyGrows(y: real, r: real)
    requires 0.0 <= r < y
    ensures r * r < y * y
  {
    calc {
      r * r;
    <= { Scale(r, r, y); }
      r * y;
    == { Swap(r, y); }
      y * r;
    < { ScaleStrictly(y, r, y); }
      y * y;
    }
  }

  lemma SquareGrows(x: real, r: real)
    requires 0.0 <= r < Abs(x)
    ensures r * r < Sq(x)
  {
    StrictlyGrows(Abs(x), r);
    if x < 0.0 {
      assert (-x) * (-x) == x * x;
    }
  }

  lemma SquareBounds(x: real, r: real)
    requires r >= 0.0 && Sq(x) <= r * r
    ensures Abs(x) <= r
  {
    if Abs(x) > r {
      SquareGrows(x, r);
    }
  }

  lemma NonPositive(q: real, x: real)
    requires q >= 0.0 && x <= 0.0
    ensures q * x <= 0.0
  {
  }

  lemma {:induction false} OneTerm(ys: seq<real>, i: nat)
    requires i < |ys| && forall k :: 0 <= k < |ys| ==> ys[k] >= 0.0
    ensures 0.0 <= ys[i] <= Total(ys)
  {
    TotalNonNegative(ys[..|ys| - 1]);
    if i < |ys| - 1 {
      OneTerm(ys[..|ys| - 1], i);
    }
  }

  lemma {:induction false} TotalNonNegative(ys: seq<real>)
    requires forall k :: 0 <= k < |ys| ==> ys[k] >= 0.0
    ensures Total(ys) >= 0.0
  {
    if ys != [] {
      TotalNonNegative(ys[..|ys| - 1]);
    }
  }

  lemma CubeBounded(x: real, r: real)
    requires Abs(x) <= r
    ensures Abs(Cube(x)) <= r * Sq(x)
  {
    var q := Sq(x);
    Scale(q, x, r);
    Scale(q, -x, r);
    assert q * (-x) == -(q * x) && q * r == r * q;
  }

  lemma Scale(q: real, x: real, y: real)
    requires q >= 0.0 && x <= y
    ensures q * x <= q * y
  {
  }

  /** A sum is no larger than the sum of the terms' bounds. */
  lemma {:induction false} TotalBounded(cs: seq<real>, ws: seq<real>)
    requires |cs| == |ws| && forall i :: 0 <= i < |cs| ==> Abs(cs[i]) <= ws[i]
    ensures Abs(Total(cs)) <= Total(ws)
  {
    if cs != [] {
      TotalBounded(cs[..|cs| - 1], ws[..|ws| - 1]);
      assert Abs(cs[|cs| - 1]) <= ws[|ws| - 1];
    }
  }

  function Scaled(qs: seq<real>, r: real): (ws: seq<real>)
    ensures |ws| == |qs| && forall i :: 0 <= i < |qs| ==> ws[i] == r * qs[i]
  {
    seq(|qs|, i requires 0 <= i < |qs| => r * qs[i])
  }

  lemma ScaledFront(qs: seq<real>, r: real)
    requires qs != []
    ensures Scaled(qs, r)[..|qs| - 1] == Scaled(qs[..|qs| - 1], r)
  {
    var front := qs[..|qs| - 1];
    forall i | 0 <= i < |front|
      ensures Scaled(qs, r)[i] == Scaled(front, r)[i]
    {
      assert front[i] == qs[i];
    }
  }

  lemma {:induction false} TotalScales(qs: seq<real>, r: real)
    ensures Total(Scaled(qs, r)) == r * Total(qs)
  {
    if qs == [] {
      assert r * 0.0 == 0.0;
    } else {
      var n := |qs| - 1;
      ScaledFront(qs, r);
      TotalScales(qs[..n], r);
      Distribute(r, Total(qs[..n]), qs[n]);
    }
  }

  lemma Distribute(r: real, x: real, y: real)
    ensures r * (x + y) == r * x + r * y
  {
  }

  lemma TermBounded(ds: seq<real>, r: real, i: nat)
    requires r >= 0.0 && r * r == Squares(ds) && i < |ds|
    ensures Abs(Each(ds, Cube)[i]) <= Scaled(Each(ds, Sq), r)[i]
  {
    OneTerm(Each(ds, Sq), i);
    SquareBounds(ds[i], r);
    CubeBounded(ds[i], r);
  }

  lemma RootBounds(ds: seq<real>, r: real)
    requires r >= 0.0 && r * r == Squares(ds)
    ensures Abs(Cubes(ds)) <= r * Squares(ds)
  {
    var cs, ws := Each(ds, Cube), Scaled(Each(ds, Sq), r);
    forall i | 0 <= i < |ds|
      ensures Abs(cs[i]) <= ws[i]
    {
      TermBounded(ds, r, i);
    }
    TotalBounded(cs, ws);
    TotalScales(Each(ds, Sq), r);
  }

  lemma SquaresNonNegative(ds: seq<real>)
    ensures Squares(ds) >= 0.0
  {
    TotalNonNegative(Each(ds, Sq));
  }

  /** Whatever the sample, the acceleration is at most a sixth. */
  lemma AccelerationBounded(jack: seq<real>, root: Fn)
    requires jack != [] && IsRoot(root)
    ensures Abs(Acceleration(jack, root)) <= 1.0 / 6.0
  {
    var ds := Diffs(jack);
    var r := root(Squares(ds));
    SquaresNonNegative(ds);
    RatioBounded(ds, r);
    assert Den(jack, root) == 6.0 * (Squares(ds) * r);
  }

  lemma RatioBounded(ds: seq<real>, r: real)
    requires r >= 0.0 && r * r == Squares(ds)
    ensures var den := 6.0 * (Squares(ds) * r);
            Abs(den) > VANISHED ==> Abs(Cubes(ds) / den) <= 1.0 / 6.0
  {
    RootBounds(ds, r);
    SquaresNonNegative(ds);
    SixthOf(Cubes(ds), Squares(ds), r);
  }

  lemma SixthOf(c: real, s: real, r: real)
    requires s >= 0.0 && r >= 0.0 && Abs(c) <= r * s
    ensures Abs(6.0 * (s * r)) > VANISHED ==> Abs(c / (6.0 * (s * r))) <= 1.0 / 6.0
  {
    var q := s * r;
    assert q == r * s;
    assert q >= 0.0;
    if Abs(6.0 * q) > VANISHED {
      SixthOfOne(c, q);
    }
  }

  lemma SixthOfOne(c: real, q: real)
    requires q > 0.0 && Abs(c) <= q
    ensures Abs(c / (6.0 * q)) <= 1.0 / 6.0
  {
    Cross(c, 6.0 * q, 1.0, 6.0);
    Cross(-1.0, 6.0, c, 6.0 * q);
  }

  /** A fraction comparison, cross-multiplied. */
  lemma Cross(p: real, d: real, q: real, e: real)
    requires d > 0.0 && e > 0.0
    ensures p / d <= q / e <==> p * e <= q * d
  {
    var x, y := p / d, q / e;
    assert p == x * d && q == y * e;
    var de := d * e;
    assert de > 0.0 && p * e == x * de && q * d == y * de;
    assert x <= y ==> x * de <= y * de;
    assert x > y ==> x * de > y * de;
  }

  // ---------------------------------------------------------------- the adjusted percentile

  /** A denominator near zero is pinned away from it, on the side it is on. */
  function Pinned(d: real): (r: real)
    ensures r != 0.0 && (r > 0.0 <==> d >= 0.0)
  {
    if Abs(d) < TINY then if d >= 0.0 then TINY else -TINY else d
  }

  /** The adjusted quantile of `w`, less the bias. */
  function Slope(a: real, w: real): real {
    w / Pinned(1.0 - a * w)
  }

  // The order of two ratios w1 / d1 and w2 / d2 is the order of the products w1 * d2 and
  // w2 * d1; the lemmas up to `CrossJumps` are about these products alone.

  lemma PinnedGrows(x: real, y: real)
    requires 0.0 <= x <= y
    ensures 0.0 < Pinned(x) <= Pinned(y)
  {
  }

  lemma CrossRight(w1: real, d1: real, w2: real, d2: real)
    requires w1 <= w2 && 0.0 <= w2 && 0.0 < d2 <= d1
    ensures w1 * d2 <= w2 * d1
  {
    if w1 >= 0.0 {
      Scale(w1, d2, d1);
      Scale(d1, w1, w2);
    } else {
      NonPositive(d2, w1);
      Scale(d1, 0.0, w2);
    }
  }

  lemma NoPin(a: real, w1: real, w2: real)
    ensures w1 * (1.0 - a * w2) == w1 - a * (w1 * w2) && w2 * (1.0 - a * w1) == w2 - a * (w1 * w2)
  {
  }

  lemma DenominatorFalls(a: real, w1: real, w2: real)
    requires a >= 0.0 && w1 <= w2
    ensures 1.0 - a * w2 <= 1.0 - a * w1
  {
    Scale(a, w1, w2);
  }

  lemma LeftIsUnpinned(a: real, w: real)
    requires 0.0 <= a && w < 0.0
    ensures Pinned(1.0 - a * w) == 1.0 - a * w >= 1.0
  {
    NonPositive(a, w);
  }

  lemma CrossLeft(a: real, w1: real, w2: real, d1: real, d2: real)
    requires a >= 0.0 && w1 <= w2 < 0.0
    requires d1 == Pinned(1.0 - a * w1) && d2 == Pinned(1.0 - a * w2)
    ensures w1 * d2 <= w2 * d1
  {
    LeftIsUnpinned(a, w1);
    LeftIsUnpinned(a, w2);
    NoPin(a, w1, w2);
  }

  lemma PinnedFalls(a: real, w1: real, w2: real)
    requires a >= 0.0 && w1 <= w2 && 1.0 - a * w2 >= 0.0
    ensures 0.0 <= 1.0 - a * w1 && 0.0 < Pinned(1.0 - a * w2) <= Pinned(1.0 - a * w1)
  {
    DenominatorFalls(a, w1, w2);
    PinnedGrows(1.0 - a * w2, 1.0 - a * w1);
  }

  lemma CrossGrows(a: real, w1: real, w2: real, d1: real, d2: real)
    requires a >= 0.0 && w1 <= w2 && 0.0 < d2 <= d1
    requires d1 == Pinned(1.0 - a * w1) && d2 == Pinned(1.0 - a * w2)
    ensures w1 * d2 <= w2 * d1
  {
    if w2 >= 0.0 {
      CrossRight(w1, d1, w2, d2);
    } else {
      CrossLeft(a, w1, w2, d1, d2);
    }
  }

  lemma Positive(x: real, y: real)
    requires x > 0.0 && y > 0.0
    ensures x * y > 0.0
  {
  }

  lemma RightOfPole(a: real, w: real)
    requires 0.0 <= a && 1.0 - a * w < 0.0
    ensures w > 0.0
  {
    if w <= 0.0 {
      NonPositive(a, w);
    }
  }

  lemma JumpsRight(w1: real, d1: real, w2: real, d2: real)
    requires w1 >= 0.0 && w2 > 0.0 && d1 > 0.0 && d2 < 0.0
    ensures w1 * d2 < w2 * d1
  {
    Positive(w2, d1);
    NonPositive(w1, d2);
  }

  lemma JumpsLeft(w1: real, d1: real, w2: real, d2: real, k: real)
    requires w1 < 0.0 < w2 && d2 < 0.0 && k > 1.0
    requires d2 == 1.0 - k || (d2 == -TINY && k - 1.0 < TINY)
    requires w2 * d1 == w2 - k * w1
    ensures w1 * d2 < w2 * d1
  {
    if d2 == -TINY {
      Positive(-w1, k - TINY);
      assert (-w1) * (k - TINY) == w1 * TINY - k * w1;
      assert w1 * d2 == -(w1 * TINY);
      Positive(-w1, k + TINY);
      assert (-w1) * (k + TINY) == -(w1 * TINY) - k * w1;
      NonPositive(TINY, w1);
    } else {
      assert w1 * (1.0 - k) == w1 - k * w1;
    }
  }

  lemma PastPole(a: real, w1: real, w2: real)
    ensures w2 * (1.0 - a * w1) == w2 - (a * w2) * w1
  {
  }

  lemma CrossJumps(a: real, w1: real, w2: real, d1: real, d2: real)
    requires 0.0 < a && 1.0 - a * w1 > 0.0 && 1.0 - a * w2 < 0.0
    requires d1 == Pinned(1.0 - a * w1) && d2 == Pinned(1.0 - a * w2)
    ensures w1 * d2 < w2 * d1
  {
    RightOfPole(a, w2);
    if w1 >= 0.0 {
      JumpsRight(w1, d1, w2, d2);
    } else {
      LeftIsUnpinned(a, w1);
      PastPole(a, w1, w2);
      JumpsLeft(w1, d1, w2, d2, a * w2);
    }
  }

  /** On the positive side the adjusted quantile grows with `w`, pinned or not. */
  lemma SlopeGrows(a: real, w1: real, w2: real)
    requires a >= 0.0 && w1 <= w2 && 1.0 - a * w2 >= 0.0
    ensures 1.0 - a * w1 >= 0.0 && Slope(a, w1) <= Slope(a, w2)
  {
    var d1, d2 := Pinned(1.0 - a * w1), Pinned(1.0 - a * w2);
    PinnedFalls(a, w1, w2);
    CrossGrows(a, w1, w2, d1, d2);
    Cross(w1, d1, w2, d2);
  }

  /** Past the pole the quantile has jumped below everything on the other side. */
  lemma SlopeJumps(a: real, w1: real, w2: real)
    requires 0.0 < a && 1.0 - a * w1 > 0.0 && 1.0 - a * w2 < 0.0
    ensures Slope(a, w1) > Slope(a, w2)
  {
    RatioJumps(a, w1, w2, Pinned(1.0 - a * w1), Pinned(1.0 - a * w2));
  }

  lemma RatioJumps(a: real, w1: real, w2: real, d1: real, d2: real)
    requires 0.0 < a && 1.0 - a * w1 > 0.0 && 1.0 - a * w2 < 0.0
    requires d1 == Pinned(1.0 - a * w1) && d2 == Pinned(1.0 - a * w2)
    ensures w1 / d1 > w2 / d2
  {
    CrossJumps(a, w1, w2, d1, d2);
    CrossNegative(w1, d1, w2, d2);
  }

  lemma CrossNegative(p: real, d: real, q: real, e: real)
    requires d > 0.0 && e < 0.0 && p * e < q * d
    ensures p / d > q / e
  {
    var x, y := p / d, q / e;
    assert p == x * d && q == y * e;
    var de := d * (-e);
    Positive(d, -e);
    assert p * e == -(x * de) && q * d == -(y * de);
    if x <= y {
      Scale(de, x, y);
      Swap(de, x);
      Swap(de, y);
    }
  }

  /** The two adjusted quantiles are in order exactly when neither denominator is negative. */
  lemma OrderedIff(a: real, w1: real, w2: real)
    requires Abs(a) <= 1.0 / 6.0 && w1 <= w2 && w1 < 6.0 && -6.0 < w2
    ensures Slope(a, w1) <= Slope(a, w2) <==> w1 == w2 || (1.0 - a * w1 >= 0.0 && 1.0 - a * w2 >= 0.0)
  {
    if a >= 0.0 {
      BelowPole(a, w1);
      OrderedUp(a, w1, w2);
    } else {
      OrderedDown(a, w1, w2, -a, -w2, -w1);
    }
  }

  /** The mirror image: a negative acceleration. */
  lemma OrderedDown(a: real, w1: real, w2: real, b: real, v1: real, v2: real)
    requires b == -a && v1 == -w2 && v2 == -w1 && 0.0 < b <= 1.0 / 6.0 && v1 <= v2 && v1 < 6.0
    ensures 1.0 - a * w2 > 0.0
    ensures Slope(a, w1) <= Slope(a, w2) <==> w1 == w2 || 1.0 - a * w1 >= 0.0
  {
    Mirror(a, w1, b, v2);
    Mirror(a, w2, b, v1);
    BelowPole(b, v1);
    OrderedUp(b, v1, v2);
  }

  lemma OrderedUp(a: real, w1: real, w2: real)
    requires 0.0 <= a && w1 <= w2 && 1.0 - a * w1 > 0.0
    ensures Slope(a, w1) <= Slope(a, w2) <==> w1 == w2 || 1.0 - a * w2 >= 0.0
  {
    if 1.0 - a * w2 >= 0.0 {
      SlopeGrows(a, w1, w2);
    } else {
      SlopeJumps(a, w1, w2);
    }
  }

  lemma Mirror(a: real, w: real, b: real, v: real)
    requires b == -a && v == -w
    ensures b * v == a * w && Slope(b, v) == -Slope(a, w)
  {
    MirrorProduct(a, w, b, v);
    NegateRatio(w, Pinned(1.0 - a * w));
  }

  lemma MirrorProduct(a: real, w: real, b: real, v: real)
    requires b == -a && v == -w
    ensures b * v == a * w
  {
  }

  lemma NegateRatio(n: real, d: real)
    requires d != 0.0
    ensures (-n) / d == -(n / d)
  {
  }

  lemma BelowPole(a: real, w: real)
    requires 0.0 <= a <= 1.0 / 6.0 && w < 6.0
    ensures 1.0 - a * w > 0.0
  {
    if w <= 0.0 {
      assert a * w <= 0.0;
    } else {
      assert a * w <= w / 6.0;
    }
  }
}
