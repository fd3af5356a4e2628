/** Sums over finite sets of process ids. */
module Sums {

  ghost function Sum(s: set<nat>, f: nat -> int): int {
    if s == {} then 0
    else
      var x :| x in s;
      f(x) + Sum(s - {x}, f)
  }

  /** Any element may be taken out first. */
  lemma {:induction false} SumPick(s: set<nat>, f: nat -> int, x: nat)
    requires x in s
    ensures Sum(s, f) == f(x) + Sum(s - {x}, f)
    decreases |s|
  {
    var y :| y in s && Sum(s, f) == f(y) + Sum(s - {y}, f);
    if y != x {
      SumPick(s - {y}, f, x);
      SumPick(s - {x}, f, y);
      assert s - {y} - {x} == s - {x} - {y};
    }
  }

  lemma SumInsert(s: set<nat>, f: nat -> int, x: nat)
    requires x !in s
    ensures Sum(s + {x}, f) == f(x) + Sum(s, f)
  {
    SumPick(s + {x}, f, x);
    assert s + {x} - {x} == s;
  }

  lemma {:induction false} SumSame(s: set<nat>, f: nat -> int, g: nat -> int)
    requires forall x :: x in s ==> f(x) == g(x)
    ensures Sum(s, f) == Sum(s, g)
    decreases |s|
  {
    if s != {} {
      var x :| x in s;
      SumPick(s, f, x);
      SumPick(s, g, x);
      SumSame(s - {x}, f, g);
    }
  }

  lemma {:induction false} SumZero(s: set<nat>, f: nat -> int)
    requires forall x :: x in s ==> f(x) == 0
    ensures Sum(s, f) == 0
    decreases |s|
  {
    if s != {} {
      var x :| x in s;
      SumPick(s, f, x);
      SumZero(s - {x}, f);
    }
  }

  lemma {:induction false} SumMinus(s: set<nat>, f: nat -> int, g: nat -> int, h: nat -> int)
    requires forall x :: x in s ==> h(x) == f(x) - g(x)
    ensures Sum(s, h) == Sum(s, f) - Sum(s, g)
    decreases |s|
  {
    if s != {} {
      var x :| x in s;
      SumPick(s, f, x);
      SumPick(s, g, x);
      SumPick(s, h, x);
      SumMinus(s - {x}, f, g, h);
    }
  }

  /** Elements that add nothing may be left out. */
  lemma {:induction false} SumSubset(s: set<nat>, t: set<nat>, f: nat -> int)
    requires s <= t && forall x :: x in t - s ==> f(x) == 0
    ensures Sum(s, f) == Sum(t, f)
    decreases |t|
  {
    if t == s {
    } else {
      assert t - s != {} by { assert s + (t - s) == t; }
      var x :| x in t - s;
      SumPick(t, f, x);
      SumSubset(s, t - {x}, f);
    }
  }

  /** Changing `f` at one place changes the sum by that much. */
  lemma SumChange(s: set<nat>, f: nat -> int, g: nat -> int, x: nat)
    requires x in s && forall y :: y in s && y != x ==> f(y) == g(y)
    ensures Sum(s, g) == Sum(s, f) + g(x) - f(x)
  {
    SumPick(s, f, x);
    SumPick(s, g, x);
    SumSame(s - {x}, f, g);
  }

  lemma {:induction false} SumPlus(s: set<nat>, f: nat -> int, g: nat -> int, h: nat -> int)
    requires forall x :: x in s ==> h(x) == f(x) + g(x)
    ensures Sum(s, h) == Sum(s, f) + Sum(s, g)
    decreases |s|
  {
    if s != {} {
      var x :| x in s;
      SumPick(s, f, x);
      SumPick(s, g, x);
      SumPick(s, h, x);
      SumPlus(s - {x}, f, g, h);
    }
  }

  lemma {:induction false} SumSplit(s: set<nat>, t: set<nat>, f: nat -> int)
    ensures Sum(s, f) == Sum(s - t, f) + Sum(s * t, f)
    decreases |s|
  {
    if s == {} {
      assert s - t == {} && s * t == {};
    } else {
      var x :| x in s;
      SumPick(s, f, x);
      SumSplit(s - {x}, t, f);
      if x in t {
        SumPick(s * t, f, x);
        assert s * t - {x} == (s - {x}) * t && s - t == s - {x} - t;
      } else {
        SumPick(s - t, f, x);
        assert s - t - {x} == s - {x} - t && s * t == (s - {x}) * t;
      }
    }
  }

  /** A sum of things that do not count below 0 is 0 exactly when all of them are. */
  lemma {:induction false} SumOfNaturals(s: set<nat>, f: nat -> int)
    requires forall x :: x in s ==> f(x) >= 0
    ensures Sum(s, f) >= 0
    ensures Sum(s, f) == 0 <==> forall x :: x in s ==> f(x) == 0
    decreases |s|
  {
    if s != {} {
      var x :| x in s;
      SumPick(s, f, x);
      SumOfNaturals(s - {x}, f);
    }
  }

  /** Two sums agree when neither range holds anything that counts outside the other. */
  lemma SumOver(s: set<nat>, t: set<nat>, f: nat -> int)
    requires forall x :: (x in s - t || x in t - s) ==> f(x) == 0
    ensures Sum(s, f) == Sum(t, f)
  {
    SumSubset(s * t, s, f);
    SumSubset(s * t, t, f);
  }

  // ---------------------------------------------------------------- sizes

  lemma {:induction false} SubsetSize<T>(s: set<T>, t: set<T>)
    requires s <= t
    ensures |s| <= |t|
    decreases |s|
  {
    if s != {} {
      var x :| x in s;
      SubsetSize(s - {x}, t - {x});
    }
  }
}
