/** The BCa interval itself: its endpoints, their order, and its label. */
module BcaInterval {
  import opened Options
  import opened Bca

  // ---------------------------------------------------------------- the sorted distribution

  ghost predicate IsSorted(xs: seq<real>) {
    forall i, j :: 0 <= i <= j < |xs| ==> xs[i] <= xs[j]
  }

  function Insert(x: real, xs: seq<real>): (r: seq<real>)
    ensures |r| == |xs| + 1
  {
    if xs == [] || x <= xs[0] then [x] + xs else [xs[0]] + Insert(x, xs[1..])
  }

  lemma {:induction false} InsertHas(x: real, xs: seq<real>)
    ensures multiset(Insert(x, xs)) == multiset(xs) + multiset{x}
  {
    if xs != [] && x > xs[0] {
      InsertHas(x, xs[1..]);
      assert xs == [xs[0]] + xs[1..];
    }
  }

  lemma {:induction false} InsertSorts(x: real, xs: seq<real>)
    requires IsSorted(xs)
    ensures IsSorted(Insert(x, xs))
    ensures Insert(x, xs)[0] == x || (xs != [] && Insert(x, xs)[0] == xs[0])
  {
    if xs != [] && x > xs[0] {
      InsertSorts(x, xs[1..]);
      var rest := Insert(x, xs[1..]);
      assert xs[0] <= rest[0];
      forall i | 0 <= i < |rest|
        ensures xs[0] <= rest[i]
      {
        assert rest[0] <= rest[i];
      }
    }
  }

  function Sorted(xs: seq<real>): (r: seq<real>)
    ensures |r| == |xs|
  {
    if xs == [] then [] else Insert(xs[0], Sorted(xs[1..]))
  }

  lemma {:induction false} SortedIs(xs: seq<real>)
    ensures IsSorted(Sorted(xs)) && multiset(Sorted(xs)) == multiset(xs)
  {
    if xs != [] {
      SortedIs(xs[1..]);
      InsertHas(xs[0], Sorted(xs[1..]));
      InsertSorts(xs[0], Sorted(xs[1..]));
      assert xs == [xs[0]] + xs[1..];
    }
  }

  lemma SameMembers(xs: seq<real>, ys: seq<real>, x: real)
    requires multiset(xs) == multiset(ys)
    ensures x in xs <==> x in ys
  {
    assert x in xs <==> x in multiset(xs);
    assert x in ys <==> x in multiset(ys);
  }

  lemma SortedHas(xs: seq<real>, x: real)
    ensures x in Sorted(xs) <==> x in xs
  {
    SortedIs(xs);
    SameMembers(Sorted(xs), xs, x);
  }

  function Below(xs: seq<real>, theta: real): (n: nat)
    ensures n <= |xs|
  {
    if xs == [] then 0 else Below(xs[..|xs| - 1], theta) + if xs[|xs| - 1] < theta then 1 else 0
  }

  // ---------------------------------------------------------------- the construction

  function RawProportion(theta: real, boot: seq<real>): real
    requires boot != []
  {
    Below(Sorted(boot), theta) as real / |boot| as real
  }

  function Bias(theta: real, boot: seq<real>, ppf: Fn): real
    requires boot != []
  {
    ppf(Clamp(RawProportion(theta, boot), TINY, 1.0 - TINY))
  }

  /** The bias-corrected quantile at level `p`. */
  function Quantile(theta: real, boot: seq<real>, p: real, ppf: Fn): real
    requires boot != []
  {
    Bias(theta, boot, ppf) + ppf(p)
  }

  function Alpha(confidence: real): real {
    (1.0 - confidence) / 2.0
  }

  function Index(p: real, n: nat): (i: nat)
    requires n > 0
    ensures i < n
  {
    var k := (Clamp(p, 0.0, 1.0) * n as real).Floor;
    if k < 0 then 0 else if k > n - 1 then n - 1 else k
  }

  /** The value of the distribution at the adjusted quantile of `w`. */
  function At(sorted: seq<real>, a: real, z0: real, w: real, cdf: Fn): real
    requires sorted != []
  {
    sorted[Index(cdf(z0 + Slope(a, w)), |sorted|)]
  }

  predicate NearZero(a: real, w: real) {
    Abs(1.0 - a * w) < TINY
  }

  /** The percentile for `w`, and whether its denominator was pinned. */
  method AdjustedP(a: real, z0: real, w: real, cdf: Fn) returns (p: real, pinned: bool)
    ensures p == cdf(z0 + Slope(a, w))
    ensures pinned <==> NearZero(a, w)
  {
    var denom := 1.0 - a * w;
    pinned := Abs(denom) < TINY;
    if pinned {
      denom := if denom >= 0.0 then TINY else -TINY;
    }
    p := cdf(z0 + w / denom);
  }

  /** The value at the percentile for `w`. */
  method ValueAt(sorted: seq<real>, a: real, z0: real, w: real, cdf: Fn) returns (x: real, pinned: bool)
    requires sorted != []
    ensures x == At(sorted, a, z0, w, cdf)
    ensures pinned <==> NearZero(a, w)
  {
    var p;
    p, pinned := AdjustedP(a, z0, w, cdf);
    x := sorted[Index(p, |sorted|)];
  }

  /** What the interval is, given the numbers it is computed from: its two values, and
      the label of the worst degradation that happened. */
  ghost predicate IsInterval(r: Interval, sorted: seq<real>, raw: real, den: real, a: real, z0: real, w1: real, w2: real, cdf: Fn)
    requires sorted != []
  {
    var onePoint := sorted[0] == sorted[|sorted| - 1];
    var clampBound := !(TINY <= raw <= 1.0 - TINY) || NearZero(a, w1) || NearZero(a, w2);
    && r.lower == At(sorted, a, z0, w1, cdf)
    && r.upper == At(sorted, a, z0, w2, cdf)
    && (r.construction.Degenerate? <==> onePoint)
    && (r.construction.Clamped? <==> !onePoint && clampBound)
    && (r.construction.BiasCorrected? <==> !onePoint && !clampBound && Abs(den) <= VANISHED)
  }

  method Construct(sorted: seq<real>, raw: real, den: real, a: real, z0: real, w1: real, w2: real, cdf: Fn) returns (r: Interval)
    requires sorted != []
    ensures IsInterval(r, sorted, raw, den, a, z0, w1, w2, cdf)
  {
    var biasClamped := Clamp(raw, TINY, 1.0 - TINY) != raw;
    var pinned := false;
    var lower, b1 := ValueAt(sorted, a, z0, w1, cdf);
    pinned := pinned || b1;
    var upper, b2 := ValueAt(sorted, a, z0, w2, cdf);
    pinned := pinned || b2;
    var construction :=
      if sorted[0] == sorted[|sorted| - 1] then Degenerate
      else if biasClamped || pinned then Clamped
      else if Abs(den) <= VANISHED then BiasCorrected
      else Accelerated;
    r := Interval(lower, upper, construction);
  }

  /** The interval of a sample. */
  ghost predicate IsIntervalOf(r: Interval, theta: real, boot: seq<real>, jack: seq<real>, confidence: real, cdf: Fn, ppf: Fn, root: Fn)
    requires boot != [] && jack != []
  {
    IsInterval(r, Sorted(boot), RawProportion(theta, boot), Den(jack, root), Acceleration(jack, root), Bias(theta, boot, ppf),
               Quantile(theta, boot, Alpha(confidence), ppf), Quantile(theta, boot, 1.0 - Alpha(confidence), ppf), cdf)
  }

  method FromSample(theta: real, boot: seq<real>, jack: seq<real>, confidence: real, cdf: Fn, ppf: Fn, root: Fn)
    returns (r: Interval)
    requires boot != [] && jack != []
    ensures IsIntervalOf(r, theta, boot, jack, confidence, cdf, ppf, root)
  {
    r := Construct(Sorted(boot), RawProportion(theta, boot), Den(jack, root), Acceleration(jack, root), Bias(theta, boot, ppf),
                   Quantile(theta, boot, Alpha(confidence), ppf), Quantile(theta, boot, 1.0 - Alpha(confidence), ppf), cdf);
  }

  /** `_bca_from_distribution`. `None` stands for the exceptions: no replicates, or a
      confidence outside the open unit range. */
  method FromDistribution(theta: real, boot: seq<real>, jack: seq<real>, confidence: real, cdf: Fn, ppf: Fn, root: Fn)
    returns (r: Option<Interval>)
    ensures r.None? <==> boot == [] || jack == [] || !(0.0 < Alpha(confidence) < 1.0)
    ensures r.Some? ==> IsIntervalOf(r.value, theta, boot, jack, confidence, cdf, ppf, root)
  {
    if boot == [] || jack == [] || !(0.0 < Alpha(confidence) < 1.0) {
      return None;
    }
    var interval := FromSample(theta, boot, jack, confidence, cdf, ppf, root);
    r := Some(interval);
  }

  ghost predicate OnePoint(boot: seq<real>) {
    forall x, y :: x in boot && y in boot ==> x == y
  }

  lemma SortedEnds(boot: seq<real>)
    requires boot != []
    ensures Sorted(boot)[0] == Sorted(boot)[|boot| - 1] <==> OnePoint(boot)
  {
    var s := Sorted(boot);
    SortedIs(boot);
    SortedHas(boot, s[0]);
    SortedHas(boot, s[|s| - 1]);
    if s[0] == s[|s| - 1] {
      forall x | x in boot
        ensures x == s[0]
      {
        SortedHas(boot, x);
        var i :| 0 <= i < |s| && s[i] == x;
        assert s[0] <= s[i] <= s[|s| - 1];
      }
    }
  }

  // ---------------------------------------------------------------- the endpoints

  lemma FloorGrows(x: real, y: real)
    requires x <= y
    ensures x.Floor <= y.Floor
  {
  }

  lemma IndexGrows(p: real, q: real, n: nat)
    requires n > 0 && p <= q
    ensures Index(p, n) <= Index(q, n)
  {
    var c, d, m := Clamp(p, 0.0, 1.0), Clamp(q, 0.0, 1.0), n as real;
    Scale(m, c, d);
    Swap(m, c);
    Swap(m, d);
    FloorGrows(c * m, d * m);
  }

  lemma ValuesFollow(sorted: seq<real>, z0: real, x: real, y: real, cdf: Fn)
    requires sorted != [] && IsSorted(sorted) && Grows(cdf) && x <= y
    ensures sorted[Index(cdf(z0 + x), |sorted|)] <= sorted[Index(cdf(z0 + y), |sorted|)]
  {
    IndexGrows(cdf(z0 + x), cdf(z0 + y), |sorted|);
  }

  /** The order of the values at two quantiles, the first no larger: in order while neither
      denominator is negative, reversed otherwise. Pinning does not matter. */
  predicate InOrder(x1: real, x2: real, a: real, w1: real, w2: real) {
    if 1.0 - a * w1 >= 0.0 && 1.0 - a * w2 >= 0.0 then x1 <= x2 else x2 <= x1
  }

  lemma ValuesOrdered(sorted: seq<real>, a: real, z0: real, w1: real, w2: real, cdf: Fn)
    requires sorted != [] && IsSorted(sorted) && Grows(cdf)
    requires Abs(a) <= 1.0 / 6.0 && w1 <= w2 && w1 < 6.0 && -6.0 < w2
    ensures InOrder(At(sorted, a, z0, w1, cdf), At(sorted, a, z0, w2, cdf), a, w1, w2)
  {
    OrderedIff(a, w1, w2);
    var x, y := Slope(a, w1), Slope(a, w2);
    if x <= y {
      ValuesFollow(sorted, z0, x, y, cdf);
    }
    if y <= x {
      ValuesFollow(sorted, z0, y, x, cdf);
    }
  }

  lemma NearbyInOrder(x1: real, x2: real, a: real, w1: real, w2: real)
    requires InOrder(x1, x2, a, w1, w2) && Abs(a) <= 1.0 / 6.0
    requires Abs(w1) <= 6.0 && Abs(w2) <= 6.0
    ensures x1 <= x2
  {
    ProductBounded(a, w1);
    ProductBounded(a, w2);
  }

  lemma BiasBounded(theta: real, boot: seq<real>, cdf: Fn, ppf: Fn)
    requires boot != [] && Normal(cdf, ppf)
    ensures -6.0 < Bias(theta, boot, ppf) < 6.0
  {
    var p := Clamp(RawProportion(theta, boot), TINY, 1.0 - TINY);
    assert ppf(TINY) <= ppf(p) <= ppf(1.0 - TINY);
  }

  /** The quantiles at the two levels of a confidence, the smaller first. */
  lemma LevelsSpread(theta: real, boot: seq<real>, p: real, q: real, cdf: Fn, ppf: Fn)
    requires boot != [] && Normal(cdf, ppf) && 0.0 < p <= 0.5 && q == 1.0 - p
    ensures var w1, w2 := Quantile(theta, boot, p, ppf), Quantile(theta, boot, q, ppf);
            w1 <= w2 && w1 < 6.0 && -6.0 < w2
  {
    BiasBounded(theta, boot, cdf, ppf);
    assert ppf(p) <= ppf(0.5) <= ppf(q);
  }

  lemma LevelsOrdered(theta: real, boot: seq<real>, jack: seq<real>, p: real, q: real, cdf: Fn, ppf: Fn, root: Fn)
    requires boot != [] && jack != [] && 0.0 < p <= 0.5 && q == 1.0 - p
    requires Normal(cdf, ppf) && IsRoot(root)
    ensures var s, a, z0 := Sorted(boot), Acceleration(jack, root), Bias(theta, boot, ppf);
            var w1, w2 := Quantile(theta, boot, p, ppf), Quantile(theta, boot, q, ppf);
            Abs(a) <= 1.0 / 6.0 && InOrder(At(s, a, z0, w1, cdf), At(s, a, z0, w2, cdf), a, w1, w2)
  {
    AccelerationBounded(jack, root);
    LevelsSpread(theta, boot, p, q, cdf, ppf);
    SortedIs(boot);
    ValuesOrdered(Sorted(boot), Acceleration(jack, root), Bias(theta, boot, ppf),
                  Quantile(theta, boot, p, ppf), Quantile(theta, boot, q, ppf), cdf);
  }

  /** Whatever the sample, at any confidence from 0 up: the endpoints are in order when
      neither denominator is negative, and reversed when one is. A confidence below 0 is
      taken too, and there the two endpoints have changed places. */
  lemma EndpointsOrdered(r: Interval, theta: real, boot: seq<real>, jack: seq<real>, confidence: real, cdf: Fn, ppf: Fn, root: Fn)
    requires boot != [] && jack != [] && 0.0 < Alpha(confidence) < 1.0
    requires Normal(cdf, ppf) && IsRoot(root) && IsIntervalOf(r, theta, boot, jack, confidence, cdf, ppf, root)
    ensures var a, w1, w2 := Acceleration(jack, root), Quantile(theta, boot, Alpha(confidence), ppf),
                             Quantile(theta, boot, 1.0 - Alpha(confidence), ppf);
            && (confidence >= 0.0 ==> InOrder(r.lower, r.upper, a, w1, w2))
            && (confidence <= 0.0 ==> InOrder(r.upper, r.lower, a, w2, w1))
  {
    var alpha := Alpha(confidence);
    if confidence >= 0.0 {
      LevelsOrdered(theta, boot, jack, alpha, 1.0 - alpha, cdf, ppf, root);
    }
    if confidence <= 0.0 {
      LevelsOrdered(theta, boot, jack, 1.0 - alpha, alpha, cdf, ppf, root);
    }
  }

  /** In particular they are in order whenever both quantiles stay within 6 of the bias. */
  lemma NearbyOrdered(r: Interval, theta: real, boot: seq<real>, jack: seq<real>, confidence: real, cdf: Fn, ppf: Fn, root: Fn)
    requires boot != [] && jack != [] && 0.0 < Alpha(confidence) < 1.0
    requires Normal(cdf, ppf) && IsRoot(root) && IsIntervalOf(r, theta, boot, jack, confidence, cdf, ppf, root)
    requires Abs(Quantile(theta, boot, Alpha(confidence), ppf)) <= 6.0
    requires Abs(Quantile(theta, boot, 1.0 - Alpha(confidence), ppf)) <= 6.0
    ensures (confidence >= 0.0 ==> r.lower <= r.upper) && (confidence <= 0.0 ==> r.upper <= r.lower)
  {
    var a, w1, w2 := Acceleration(jack, root), Quantile(theta, boot, Alpha(confidence), ppf),
                     Quantile(theta, boot, 1.0 - Alpha(confidence), ppf);
    EndpointsOrdered(r, theta, boot, jack, confidence, cdf, ppf, root);
    AccelerationBounded(jack, root);
    if confidence >= 0.0 {
      NearbyInOrder(r.lower, r.upper, a, w1, w2);
    }
    if confidence <= 0.0 {
      NearbyInOrder(r.upper, r.lower, a, w2, w1);
    }
  }

  /** Both endpoints are values of the distribution; a degenerate interval is its one point. */
  lemma EndpointsInBoot(r: Interval, theta: real, boot: seq<real>, jack: seq<real>, confidence: real, cdf: Fn, ppf: Fn, root: Fn)
    requires boot != [] && jack != [] && IsIntervalOf(r, theta, boot, jack, confidence, cdf, ppf, root)
    ensures r.lower in boot && r.upper in boot
    ensures r.construction.Degenerate? <==> OnePoint(boot)
    ensures r.construction.Degenerate? ==> r.lower == r.upper
  {
    SortedEnds(boot);
    SortedHas(boot, r.lower);
    SortedHas(boot, r.upper);
    AtIsOne(Sorted(boot), Acceleration(jack, root), Bias(theta, boot, ppf),
            Quantile(theta, boot, Alpha(confidence), ppf), cdf);
    AtIsOne(Sorted(boot), Acceleration(jack, root), Bias(theta, boot, ppf),
            Quantile(theta, boot, 1.0 - Alpha(confidence), ppf), cdf);
  }

  lemma AtIsOne(sorted: seq<real>, a: real, z0: real, w: real, cdf: Fn)
    requires sorted != []
    ensures At(sorted, a, z0, w, cdf) in sorted
  {
  }

  lemma ProductBounded(a: real, w: real)
    requires Abs(a) <= 1.0 / 6.0 && Abs(w) <= 6.0
    ensures a * w <= 1.0
  {
    if a >= 0.0 {
      SmallProduct(a, w);
    } else {
      SmallProduct(-a, -w);
      assert (-a) * (-w) == a * w;
    }
  }

  lemma SmallProduct(a: real, w: real)
    requires 0.0 <= a <= 1.0 / 6.0 && w <= 6.0
    ensures a * w <= 1.0
  {
    Scale(a, w, 6.0);
  }
}
