/**
 CPU lists: printed as comma-separated numbers, read in the kernel's list grammar.
 */
module CpuList {
  import opened Decimal
  import opened Options
  import opened OrderedWalk

  // ---------------------------------------------------------------- printing

  /** `cpulist`. */
  function Print(cpus: seq<nat>): string {
    if cpus == [] then ""
    else if |cpus| == 1 then Dec(cpus[0])
    else Dec(cpus[0]) + "," + Print(cpus[1..])
  }

  // ---------------------------------------------------------------- reading

  predicate IsSpace(c: char) {
    c == ' ' || c == '\t' || c == '\n' || c == '\r'
  }

  function Strip(s: string): string {
    if s != [] && IsSpace(s[0]) then Strip(s[1..])
    else if s != [] && IsSpace(s[|s| - 1]) then Strip(s[..|s| - 1])
    else s
  }

  /** Where `c` first occurs; the length if it does not. */
  function Find(s: string, c: char): (i: nat)
    ensures i <= |s| && (forall k :: 0 <= k < i ==> s[k] != c) && (i < |s| ==> s[i] == c)
  {
    if s == [] || s[0] == c then 0 else 1 + Find(s[1..], c)
  }

  function Split(s: string): (parts: seq<string>)
    ensures parts != []
    decreases |s|
  {
    var i := Find(s, ',');
    if i == |s| then [s] else [s[..i]] + Split(s[i + 1..])
  }

  /** `int`, on a numeral with blanks around it. */
  function Number(s: string): Option<nat> {
    var t := Strip(s);
    if t != [] && Digits(t) then Some(Value(t)) else None
  }

  function Span(lo: nat, hi: nat): (cpus: set<nat>)
    ensures forall c :: c in cpus <==> lo <= c <= hi
    decreases hi - lo
  {
    if lo > hi then {} else {lo} + Span(lo + 1, hi)
  }

  /** The CPUs of one part. `None` is the error. */
  function Part(part: string): Option<set<nat>> {
    var p := Strip(part);
    var i := Find(p, '-');
    if p == [] then Some({})
    else if i == |p| then (match Number(p) case Some(c) => Some({c}) case None => None)
    else
      match (Number(p[..i]), Number(p[i + 1..]))
      case (Some(lo), Some(hi)) => Some(Span(lo, hi))
      case _ => None
  }

  function Union(parts: seq<string>): Option<set<nat>> {
    if parts == [] then Some({})
    else
      match (Union(parts[..|parts| - 1]), Part(parts[|parts| - 1]))
      case (Some(a), Some(b)) => Some(a + b)
      case _ => None
  }

  /** `expand_cpu_list`: the listed CPUs in ascending order, each once. */
  method Expand(list: string) returns (r: Option<seq<nat>>)
    ensures r.None? <==> Union(Split(list)).None?
    ensures r.Some? ==> Ascending(r.value, BelowWord) && forall c :: c in r.value <==> c in Union(Split(list)).value
  {
    var parts := Split(list);
    var out: set<nat> := {};
    for i := 0 to |parts|
      invariant Union(parts[..i]) == Some(out)
    {
      assert parts[..i + 1][..i] == parts[..i];
      var cpus := Part(parts[i]);
      if cpus.None? {
        FailsOn(parts, i + 1);
        return None;
      }
      out := out + cpus.value;
    }
    assert parts[..|parts|] == parts;
    KeyOrders();
    var sorted := Traverse(out, BelowWord, 0);
    assert forall c :: c in sorted <==> c in (set k | k in sorted);
    r := Some(sorted);
  }

  lemma {:induction false} FailsOn(parts: seq<string>, n: nat)
    requires n <= |parts| && Union(parts[..n]).None?
    ensures Union(parts).None?
    decreases |parts|
  {
    if n < |parts| {
      assert parts[..|parts| - 1][..n] == parts[..n];
      FailsOn(parts[..|parts| - 1], n);
    } else {
      assert parts[..n] == parts;
    }
  }

  // ---------------------------------------------------------------- reading what was printed

  lemma {:induction false} FindSkips(s: string, t: string, c: char)
    requires forall i :: 0 <= i < |s| ==> s[i] != c
    ensures Find(s + t, c) == |s| + Find(t, c)
  {
    if s == [] {
      assert s + t == t;
    } else {
      assert (s + t)[1..] == s[1..] + t;
      FindSkips(s[1..], t, c);
    }
  }

  function Numerals(cpus: seq<nat>): seq<string> {
    seq(|cpus|, i requires 0 <= i < |cpus| => Dec(cpus[i]))
  }

  lemma {:induction false} SplitPrinted(cpus: seq<nat>)
    requires cpus != []
    ensures Split(Print(cpus)) == Numerals(cpus)
  {
    var d := Dec(cpus[0]);
    DecDigits(cpus[0]);
    if |cpus| == 1 {
      FindSkips(d, "", ',');
      assert d + "" == d;
    } else {
      var rest := Print(cpus[1..]);
      FindSkips(d, "," + rest, ',');
      assert Print(cpus) == d + ("," + rest);
      assert Print(cpus)[..|d|] == d && Print(cpus)[|d| + 1..] == rest;
      SplitPrinted(cpus[1..]);
    }
  }

  lemma PartOfDec(n: nat)
    ensures Part(Dec(n)) == Some({n})
  {
    DecDigits(n);
    ValueOfDec(n);
    assert Strip(Dec(n)) == Dec(n);
    FindSkips(Dec(n), "", '-');
    assert Dec(n) + "" == Dec(n);
  }

  lemma UnionNext(parts: seq<string>, before: set<nat>, last: set<nat>)
    requires parts != [] && Union(parts[..|parts| - 1]) == Some(before) && Part(parts[|parts| - 1]) == Some(last)
    ensures Union(parts) == Some(before + last)
  {
  }

  function Members(cpus: seq<nat>): set<nat> {
    set c | c in cpus
  }

  lemma MembersNext(cpus: seq<nat>)
    requires cpus != []
    ensures Members(cpus) == Members(cpus[..|cpus| - 1]) + {cpus[|cpus| - 1]}
  {
    assert cpus == cpus[..|cpus| - 1] + [cpus[|cpus| - 1]];
  }

  lemma NumeralsFront(cpus: seq<nat>)
    requires cpus != []
    ensures Numerals(cpus)[..|cpus| - 1] == Numerals(cpus[..|cpus| - 1])
    ensures |Numerals(cpus)| == |cpus| && Numerals(cpus)[|cpus| - 1] == Dec(cpus[|cpus| - 1])
  {
  }

  lemma {:induction false} UnionOfNumerals(cpus: seq<nat>)
    ensures Union(Numerals(cpus)) == Some(Members(cpus))
  {
    if cpus == [] {
      assert Members(cpus) == {};
    } else {
      var n := |cpus| - 1;
      UnionOfNumerals(cpus[..n]);
      NumeralsFront(cpus);
      PartOfDec(cpus[n]);
      UnionNext(Numerals(cpus), Members(cpus[..n]), {cpus[n]});
      MembersNext(cpus);
    }
  }

  lemma HasFirst(a: seq<nat>)
    requires a != []
    ensures a[0] in a
  {
  }

  /** Two ascending lists of the same CPUs are the same list. */
  lemma {:induction false} AscendingSame(a: seq<nat>, b: seq<nat>)
    requires Ascending(a, BelowWord) && Ascending(b, BelowWord) && forall c :: c in a <==> c in b
    ensures a == b
    decreases |a|
  {
    if a == [] {
      if b != [] {
        HasFirst(b);
      }
    } else {
      assert a[|a| - 1] in b;
      var m, n := |a| - 1, |b| - 1;
      assert b[n] in a;
      assert a[m] == b[n] by {
        LastIsTop(a, b[n]);
        LastIsTop(b, a[m]);
      }
      FrontHas(a);
      FrontHas(b);
      forall c
        ensures c in a[..m] <==> c in b[..n]
      {
        assert c in a[..m] <==> c in a && c != a[m];
        assert c in b[..n] <==> c in b && c != b[n];
      }
      AscendingSame(a[..m], b[..n]);
      assert a == a[..m] + [a[m]] && b == b[..n] + [b[n]];
    }
  }

  lemma LastIsTop(a: seq<nat>, c: nat)
    requires Ascending(a, BelowWord) && c in a
    ensures c <= a[|a| - 1]
  {
    var i :| 0 <= i < |a| && a[i] == c;
    assert i == |a| - 1 || BelowWord(a[i], a[|a| - 1]);
  }

  lemma FrontHas(a: seq<nat>)
    requires Ascending(a, BelowWord) && a != []
    ensures Ascending(a[..|a| - 1], BelowWord)
    ensures forall c :: c in a[..|a| - 1] <==> c in a && c != a[|a| - 1]
  {
    var n := |a| - 1;
    assert forall i :: 0 <= i < n ==> BelowWord(a[i], a[n]);
    assert a == a[..n] + [a[n]];
  }

  /** Printing a set of CPUs and reading it back gives the same CPUs, in order. */
  lemma RoundTrip(cpus: seq<nat>, read: seq<nat>)
    requires Ascending(cpus, BelowWord)
    requires Union(Split(Print(cpus))).Some? ==>
               Ascending(read, BelowWord) && forall c :: c in read <==> c in Union(Split(Print(cpus))).value
    ensures Union(Split(Print(cpus))).Some? && read == cpus
  {
    if cpus == [] {
      var parts := Split("");
      assert parts == [""] && parts[..|parts| - 1] == [];
      assert Part("") == Some({});
    } else {
      SplitPrinted(cpus);
      UnionOfNumerals(cpus);
    }
    AscendingSame(read, cpus);
  }
}
