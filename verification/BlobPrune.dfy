/**
 `blob_map::prune`: a scan that collects the matching keys, and then their removal. A
 predicate that throws leaves the map as it was.
 */
module BlobPrune {
  import opened Options
  import opened OrderedWalk

  /** `live` is false for a slot whose payload no longer resolves; a scan skips it. */
  datatype Slot = Slot(meta: nat, live: bool)

  /** What the caller's predicate does on one entry. */
  datatype Verdict = Yes | No | Throws(error: string)

  datatype Outcome = Removed(count: nat) | Raised(error: string)

  type Predicate = (nat, nat) -> Verdict

  predicate Matches(m: map<nat, Slot>, pred: Predicate, k: nat) {
    k in m && m[k].live && pred(k, m[k].meta).Yes?
  }

  /** The last exception thrown over `ks`, if any: a later one replaces an earlier one. */
  function LastThrown(m: map<nat, Slot>, pred: Predicate, ks: seq<nat>): Option<string>
    requires forall k :: k in ks ==> k in m
  {
    if ks == [] then None
    else
      var v := pred(ks[|ks| - 1], m[ks[|ks| - 1]].meta);
      if v.Throws? then Some(v.error) else LastThrown(m, pred, ks[..|ks| - 1])
  }

  lemma ThrownNext(m: map<nat, Slot>, pred: Predicate, ks: seq<nat>, i: nat)
    requires i < |ks| && forall k :: k in ks ==> k in m
    ensures LastThrown(m, pred, ks[..i + 1])
            == var v := pred(ks[i], m[ks[i]].meta); if v.Throws? then Some(v.error) else LastThrown(m, pred, ks[..i])
  {
    assert ks[..i + 1][..i] == ks[..i];
  }

  lemma {:induction false} ThrownIff(m: map<nat, Slot>, pred: Predicate, ks: seq<nat>)
    requires forall k :: k in ks ==> k in m
    ensures LastThrown(m, pred, ks).Some? <==> exists k :: k in ks && pred(k, m[k].meta).Throws?
  {
    if ks != [] {
      ThrownIff(m, pred, ks[..|ks| - 1]);
      assert ks == ks[..|ks| - 1] + [ks[|ks| - 1]];
    }
  }

  /** The keys of `m`, in the order a scan meets them. */
  ghost predicate IsOrder(m: map<nat, Slot>, order: seq<nat>) {
    Ascending(order, BelowWord) && forall k :: k in order <==> k in m
  }

  /** The keys collected from a scan of `ks`: the matching ones, in the scan's order. */
  ghost predicate Collected(m: map<nat, Slot>, pred: Predicate, ks: seq<nat>, keys: seq<nat>) {
    Ascending(keys, BelowWord) && forall k :: k in keys <==> k in ks && Matches(m, pred, k)
  }

  lemma CollectNext(m: map<nat, Slot>, pred: Predicate, ks: seq<nat>, i: nat, keys: seq<nat>)
    requires Ascending(ks, BelowWord) && i < |ks| && Collected(m, pred, ks[..i], keys)
    ensures Collected(m, pred, ks[..i + 1], if Matches(m, pred, ks[i]) then keys + [ks[i]] else keys)
  {
    assert ks[..i + 1] == ks[..i] + [ks[i]];
    assert forall k :: k in ks[..i] ==> BelowWord(k, ks[i]);
    assert forall j :: 0 <= j < |keys| ==> keys[j] in keys;
  }

  class BlobMap {
    var entries: map<nat, Slot>

    constructor ()
      ensures entries == map[]
    {
      entries := map[];
    }

    method Erase(k: nat) returns (was: bool)
      modifies this
      ensures was <==> k in old(entries)
      ensures entries == old(entries) - {k}
    {
      was := k in entries;
      entries := entries - {k};
    }

    /** `scan_filtered` over all keys, in order, collecting the matching ones. It goes on
        after the predicate threw. */
    method Scan(pred: Predicate) returns (keys: seq<nat>, thrown: Option<string>, ghost order: seq<nat>)
      ensures IsOrder(entries, order)
      ensures Collected(entries, pred, order, keys)
      ensures thrown == LastThrown(entries, pred, order)
    {
      KeyOrders();
      var ks := Traverse(entries.Keys, BelowWord, 0);
      order := ks;
      assert forall k :: k in ks <==> k in (set x | x in ks);
      keys, thrown := [], None;
      for i := 0 to |ks|
        invariant Collected(entries, pred, ks[..i], keys)
        invariant thrown == LastThrown(entries, pred, ks[..i])
      {
        var k := ks[i];
        ThrownNext(entries, pred, ks, i);
        CollectNext(entries, pred, ks, i, keys);
        match pred(k, entries[k].meta) {
          case Throws(e) => thrown := Some(e);
          case No =>
          case Yes =>
            if entries[k].live {
              keys := keys + [k];
            }
        }
      }
      assert ks[..|ks|] == ks;
    }

    /** First the scan, then the removals, unless the predicate threw: then the last
        exception is raised and nothing is removed. */
    method Prune(pred: Predicate) returns (r: Outcome)
      modifies this
      ensures (forall k :: k in old(entries) ==> !pred(k, old(entries)[k].meta).Throws?) ==>
                && entries == (map k | k in old(entries) && !Matches(old(entries), pred, k) :: old(entries)[k])
                && r.Removed? && r.count + |entries| == |old(entries)|
      ensures (exists k :: k in old(entries) && pred(k, old(entries)[k].meta).Throws?) ==>
                entries == old(entries) && r.Raised?
                && exists order :: IsOrder(old(entries), order)
                                   && LastThrown(old(entries), pred, order) == Some(r.error)
    {
      var keys, thrown, order := Scan(pred);
      ThrownIff(entries, pred, order);
      if thrown.Some? {
        return Raised(thrown.value);
      }
      var count := EraseAll(keys);
      r := Removed(count);
    }

    method EraseAll(keys: seq<nat>) returns (count: nat)
      modifies this
      ensures entries == (map k | k in old(entries) && k !in keys :: old(entries)[k])
      ensures count == |old(entries)| - |entries|
    {
      count := 0;
      for i := 0 to |keys|
        invariant entries == map k | k in old(entries) && k !in keys[..i] :: old(entries)[k]
        invariant count == |old(entries)| - |entries|
      {
        assert keys[..i + 1] == keys[..i] + [keys[i]];
        ghost var before := entries;
        var was := Erase(keys[i]);
        MapMinus(before, keys[i]);
        if was {
          count := count + 1;
        }
      }
      assert keys[..|keys|] == keys;
    }
  }

  lemma MapMinus(m: map<nat, Slot>, k: nat)
    ensures |m - {k}| == if k in m then |m| - 1 else |m|
  {
    assert (m - {k}).Keys == m.Keys - {k};
    assert |m| == |m.Keys| && |m - {k}| == |(m - {k}).Keys|;
  }
}
