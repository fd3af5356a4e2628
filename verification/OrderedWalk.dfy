/**
 Walks by repeated `next_after`: over a map that others change between the calls, and by
 the C++ iterators over one that nobody changes.
 */
module OrderedWalk {
  import opened Options
  import opened Sums

  // ---------------------------------------------------------------- key orders

  /** A strict total order on keys. */
  ghost predicate Strict<K(!new)>(less: (K, K) -> bool) {
    && (forall a :: !less(a, a))
    && (forall a, b, c :: less(a, b) && less(b, c) ==> less(a, c))
    && (forall a, b :: less(a, b) || a == b || less(b, a))
  }

  predicate BelowWord(a: nat, b: nat) {
    a < b
  }

  /** Byte strings, as the string maps order them. */
  predicate BelowString(a: string, b: string) {
    b != [] && (a == [] || a[0] < b[0] || (a[0] == b[0] && BelowString(a[1..], b[1..])))
  }

  lemma {:induction false} StringsCompare(a: string, b: string)
    ensures BelowString(a, b) || a == b || BelowString(b, a)
    ensures !(BelowString(a, b) && BelowString(b, a)) && !BelowString(a, a)
    decreases |a| + |b|
  {
    if a != [] && b != [] {
      StringsCompare(a[1..], b[1..]);
      assert a == [a[0]] + a[1..] && b == [b[0]] + b[1..];
    }
    if a != [] {
      StringsIrreflexive(a);
    }
  }

  lemma {:induction false} StringsIrreflexive(a: string)
    ensures !BelowString(a, a)
  {
    if a != [] {
      StringsIrreflexive(a[1..]);
    }
  }

  lemma {:induction false} StringsChain(a: string, b: string, c: string)
    requires BelowString(a, b) && BelowString(b, c)
    ensures BelowString(a, c)
    decreases |a|
  {
    if a != [] && a[0] == b[0] == c[0] {
      StringsChain(a[1..], b[1..], c[1..]);
    }
  }

  lemma KeyOrders()
    ensures Strict(BelowWord) && Strict(BelowString)
  {
    forall a, b
      ensures !BelowString(a, a) && (BelowString(a, b) || a == b || BelowString(b, a))
    {
      StringsCompare(a, b);
    }
    forall a, b, c | BelowString(a, b) && BelowString(b, c)
      ensures BelowString(a, c)
    {
      StringsChain(a, b, c);
    }
  }

  // ---------------------------------------------------------------- one call

  /** `k` comes after the position; `None` is before the first key. */
  predicate Past<K(==)>(from: Option<K>, k: K, less: (K, K) -> bool) {
    from.None? || less(from.value, k)
  }

  /** The contract of `first` and `next_after` on the keys present at one instant: the
      nearest one, every key passed over being absent. */
  ghost predicate IsNext<K(!new)>(keys: set<K>, from: Option<K>, found: Option<K>, less: (K, K) -> bool) {
    match found
    case None => forall j :: j in keys ==> !Past(from, j, less)
    case Some(k) =>
      k in keys && Past(from, k, less) && forall j :: j in keys && Past(from, j, less) ==> !less(j, k)
  }

  // ---------------------------------------------------------------- a walk over a changing map

  /** The position after the first `i` keys of a walk. */
  function Position<K>(found: seq<K>, i: nat): Option<K>
    requires i <= |found|
  {
    if i == 0 then None else Some(found[i - 1])
  }

  ghost predicate Found<K(!new)>(seen: seq<set<K>>, found: seq<K>, i: nat, less: (K, K) -> bool)
    requires i < |found| <= |seen|
  {
    IsNext(seen[i], Position(found, i), Some(found[i]), less)
  }

  /** `found` are the keys the calls returned, `seen[i]` the keys present when call `i` ran. */
  ghost predicate Walk<K(!new)>(seen: seq<set<K>>, found: seq<K>, less: (K, K) -> bool) {
    && |found| <= |seen|
    && forall i :: 0 <= i < |found| ==> Found(seen, found, i, less)
  }

  /** The walk came to its end: the call after the last key found nothing. */
  ghost predicate Complete<K(!new)>(seen: seq<set<K>>, found: seq<K>, less: (K, K) -> bool) {
    && Walk(seen, found, less)
    && |seen| == |found| + 1
    && IsNext(seen[|found|], Position(found, |found|), None, less)
  }

  lemma WalkFront<K(!new)>(seen: seq<set<K>>, found: seq<K>, less: (K, K) -> bool)
    requires Walk(seen, found, less) && found != []
    ensures Walk(seen, found[..|found| - 1], less)
  {
    var front := found[..|found| - 1];
    forall i | 0 <= i < |front|
      ensures Found(seen, front, i, less)
    {
      assert Found(seen, found, i, less) && Position(front, i) == Position(found, i);
    }
  }

  lemma WalkBack<K(!new)>(seen: seq<set<K>>, found: seq<K>, less: (K, K) -> bool, keys: set<K>, k: K)
    requires Walk(seen, found, less) && |seen| == |found| && IsNext(keys, Position(found, |found|), Some(k), less)
    ensures Walk(seen + [keys], found + [k], less)
  {
    forall i | 0 <= i < |found| + 1
      ensures Found(seen + [keys], found + [k], i, less)
    {
      assert i == |found| || Found(seen, found, i, less);
      assert Position(found + [k], i) == Position(found, i);
    }
  }

  ghost predicate Ascending<K(!new)>(ks: seq<K>, less: (K, K) -> bool) {
    forall i, j :: 0 <= i < j < |ks| ==> less(ks[i], ks[j])
  }

  /** Whatever happens to the map, the keys come in order, none twice, each present when it
      was returned. */
  lemma {:induction false} WalkAscends<K(!new)>(seen: seq<set<K>>, found: seq<K>, less: (K, K) -> bool)
    requires Strict(less) && Walk(seen, found, less)
    ensures Ascending(found, less)
    ensures forall i :: 0 <= i < |found| ==> found[i] in seen[i]
    decreases |found|
  {
    if found != [] {
      var n := |found| - 1;
      WalkFront(seen, found, less);
      WalkAscends(seen, found[..n], less);
      forall i | 0 <= i < |found|
        ensures found[i] in seen[i]
      {
        assert Found(seen, found, i, less);
      }
      forall i | 0 <= i < n
        ensures less(found[i], found[n])
      {
        assert Found(seen, found, n, less) && less(found[n - 1], found[n]);
        assert i == n - 1 || less(found[..n][i], found[..n][n - 1]);
      }
    }
  }

  /** A key present at every call is returned, unless the walk has not come to it yet. */
  lemma {:induction false} WalkReaches<K(!new)>(seen: seq<set<K>>, found: seq<K>, less: (K, K) -> bool, k: K)
    requires Strict(less) && Walk(seen, found, less)
    requires forall i :: 0 <= i < |found| ==> k in seen[i]
    ensures k in found || Past(Position(found, |found|), k, less)
    decreases |found|
  {
    if found != [] {
      var n := |found| - 1;
      WalkFront(seen, found, less);
      WalkReaches(seen, found[..n], less, k);
      assert Found(seen, found, n, less);
      assert found[n] in found;
      if k in found[..n] {
        assert k in found;
      }
    }
  }

  /** A completed walk returns every key that was present throughout it. */
  lemma WalkMissesNone<K(!new)>(seen: seq<set<K>>, found: seq<K>, less: (K, K) -> bool, k: K)
    requires Strict(less) && Complete(seen, found, less)
    requires forall i :: 0 <= i < |seen| ==> k in seen[i]
    ensures k in found
  {
    WalkReaches(seen, found, less, k);
  }

  ghost predicate Unchanged<K(!new)>(seen: seq<set<K>>, keys: set<K>) {
    forall i :: 0 <= i < |seen| ==> seen[i] == keys
  }

  /** On an unchanged map the walk returns its keys, each once, and cannot run longer than
      the map. */
  lemma WalkOfUnchanged<K(!new)>(seen: seq<set<K>>, found: seq<K>, less: (K, K) -> bool, keys: set<K>)
    requires Strict(less) && Walk(seen, found, less) && Unchanged(seen, keys)
    ensures |found| <= |keys|
    ensures Complete(seen, found, less) ==> (set k | k in found) == keys && |found| == |keys|
  {
    WalkAscends(seen, found, less);
    var got := set k | k in found;
    assert got <= keys;
    AscendingCount(found, less);
    SubsetSize(got, keys);
    if Complete(seen, found, less) {
      forall k | k in keys
        ensures k in got
      {
        WalkMissesNone(seen, found, less, k);
      }
    }
  }

  lemma {:induction false} AscendingCount<K(!new)>(ks: seq<K>, less: (K, K) -> bool)
    requires Strict(less) && Ascending(ks, less)
    ensures |set k | k in ks| == |ks|
  {
    if ks != [] {
      var n := |ks| - 1;
      AscendingCount(ks[..n], less);
      assert (set k | k in ks) == (set k | k in ks[..n]) + {ks[n]};
      assert ks[n] !in ks[..n];
    }
  }

  // ---------------------------------------------------------------- the iterators

  /** The library call on a map nobody changes. */
  method NextAfter<K(==, !new)>(keys: set<K>, from: Option<K>, less: (K, K) -> bool) returns (found: Option<K>)
    requires Strict(less)
    ensures IsNext(keys, from, found, less)
  {
    found := None;
    var rest := keys;
    while rest != {}
      invariant rest <= keys
      invariant IsNext(keys - rest, from, found, less)
    {
      var k :| k in rest;
      if Past(from, k, less) && (found.None? || less(k, found.value)) {
        found := Some(k);
      }
      rest := rest - {k};
    }
    assert keys - rest == keys;
  }

  /** `const_iterator`: a position, or the end. */
  class Iterator<K(==, !new)> {
    const keys: set<K>
    const less: (K, K) -> bool
    const zero: K
    var current: K
    var isEnd: bool

    ghost predicate Valid()
      reads this
    {
      Strict(less) && (!isEnd ==> current in keys)
    }

    /** `begin()`: the first key, or the end of an empty map. */
    constructor (keys: set<K>, less: (K, K) -> bool, zero: K)
      requires Strict(less)
      ensures Valid() && this.keys == keys && this.less == less && this.zero == zero
      ensures IsNext(keys, None, if isEnd then None else Some(current), less)
    {
      var found := NextAfter(keys, None, less);
      this.keys, this.less, this.zero := keys, less, zero;
      current := if found.Some? then found.value else zero;
      isEnd := found.None?;
    }

    /** `operator++`. */
    method Step()
      requires Valid()
      modifies this
      ensures Valid()
      ensures old(isEnd) ==> isEnd && current == old(current)
      ensures !old(isEnd) ==> IsNext(keys, Some(old(current)), if isEnd then None else Some(current), less)
    {
      if !isEnd {
        var found := NextAfter(keys, Some(current), less);
        if found.Some? {
          current := found.value;
        } else {
          isEnd := true;
          current := zero;
        }
      }
    }
  }

  lemma WalkSeen<K(!new)>(seen: seq<set<K>>, found: seq<K>, less: (K, K) -> bool, keys: set<K>)
    requires Walk(seen, found, less) && |seen| == |found| && IsNext(keys, Position(found, |found|), None, less)
    ensures Complete(seen + [keys], found, less)
  {
    forall i | 0 <= i < |found|
      ensures Found(seen + [keys], found, i, less)
    {
      assert Found(seen, found, i, less);
    }
  }

  /** A range-for over a map: it ends, having visited every key once, in order. */
  method Traverse<K(==, !new)>(keys: set<K>, less: (K, K) -> bool, zero: K) returns (visited: seq<K>)
    requires Strict(less)
    ensures Ascending(visited, less)
    ensures (set k | k in visited) == keys && |visited| == |keys|
  {
    var it := new Iterator(keys, less, zero);
    visited := [];
    ghost var seen := [];
    while !it.isEnd
      invariant it.Valid() && it.keys == keys && it.less == less && fresh(it)
      invariant Walk(seen, visited, less) && |seen| == |visited| && Unchanged(seen, keys)
      invariant IsNext(keys, Position(visited, |visited|), if it.isEnd then None else Some(it.current), less)
      invariant |visited| <= |keys|
      decreases |keys| - |visited|
    {
      WalkBack(seen, visited, less, keys, it.current);
      visited, seen := visited + [it.current], seen + [keys];
      WalkOfUnchanged(seen, visited, less, keys);
      it.Step();
    }
    WalkAscends(seen, visited, less);
    WalkSeen(seen, visited, less, keys);
    WalkOfUnchanged(seen + [keys], visited, less, keys);
  }
}
