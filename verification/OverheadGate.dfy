/**
 The allocator-overhead gate: fail closed on anything missing, then two clauses that must
 hold in every run, not on average.
 */
module OverheadGate {
  import opened Options

  const ALL_SHAPES: seq<string> := ["sequential", "timestamp", "random", "prefix", "uuid"]
  const RECOVERY_FLOOR: real := 0.75
  const MAX_RATIO: real := 1.01

  /** What one run recorded for one shape. */
  datatype Reading = Reading(
    pre: Option<real>, post: Option<real>, released: Option<real>, held: Option<real>, recovery: Option<real>)

  type Shapes = map<string, Reading>

  datatype Reason = NoHeadRuns | NoBaseRuns | Mismatched | Missing(run: nat, shape: string) | Invalid(run: nat, shape: string)

  predicate Positive(x: Option<real>) {
    x.Some? && x.value > 0.0
  }

  function Freed(r: Reading): Option<real> {
    if r.released.Some? then r.released else r.held
  }

  predicate ValidSizes(r: Reading) {
    Positive(r.pre) && Positive(r.post)
  }

  predicate ValidHead(run: Shapes, shape: string) {
    shape in run && ValidSizes(run[shape])
    && (shape == "random" ==> Positive(Freed(run[shape])) && run[shape].recovery.Some?)
  }

  predicate ValidBase(run: Shapes, shape: string) {
    shape in run && ValidSizes(run[shape])
  }

  /** At least three quarters of the freed memory came back. */
  predicate Recovered(head: Shapes) {
    "random" in head && head["random"].recovery.Some? && head["random"].recovery.value >= RECOVERY_FLOOR
  }

  /** What a passing pair of runs shows, shape by shape: everything was measured, the
      freed memory came back, and memory before the release grew by at most one percent. */
  ghost predicate GoodPair(head: Shapes, base: Shapes) {
    && (forall s :: s in ALL_SHAPES ==>
          ValidHead(head, s) && ValidBase(base, s)
          && 100.0 * head[s].pre.value <= 101.0 * base[s].pre.value)
    && Recovered(head)
  }

  /** One side's validation loops: a reason for every reading that is missing or unusable. */
  method Validate(runs: seq<Shapes>, isHead: bool) returns (reasons: seq<Reason>)
    ensures reasons == [] <==>
              forall i, j :: 0 <= i < |runs| && 0 <= j < |ALL_SHAPES| ==>
                if isHead then ValidHead(runs[i], ALL_SHAPES[j]) else ValidBase(runs[i], ALL_SHAPES[j])
  {
    reasons := [];
    for i := 0 to |runs|
      invariant reasons == [] <==>
                  forall k, j :: 0 <= k < i && 0 <= j < |ALL_SHAPES| ==>
                    if isHead then ValidHead(runs[k], ALL_SHAPES[j]) else ValidBase(runs[k], ALL_SHAPES[j])
    {
      for j := 0 to |ALL_SHAPES|
        invariant reasons == [] <==>
                    (forall k, l :: 0 <= k < i && 0 <= l < |ALL_SHAPES| ==>
                       if isHead then ValidHead(runs[k], ALL_SHAPES[l]) else ValidBase(runs[k], ALL_SHAPES[l]))
                    && (forall l :: 0 <= l < j ==>
                          if isHead then ValidHead(runs[i], ALL_SHAPES[l]) else ValidBase(runs[i], ALL_SHAPES[l]))
      {
        var shape := ALL_SHAPES[j];
        if shape !in runs[i] {
          reasons := reasons + [Missing(i, shape)];
        } else {
          var r := runs[i][shape];
          if !Positive(r.pre) { reasons := reasons + [Invalid(i, shape)]; }
          if !Positive(r.post) { reasons := reasons + [Invalid(i, shape)]; }
          if isHead && shape == "random" {
            if !Positive(Freed(r)) { reasons := reasons + [Invalid(i, shape)]; }
            if r.recovery.None? { reasons := reasons + [Invalid(i, shape)]; }
          }
        }
      }
    }
  }

  /** Clause 2 on one shape of one pair. */
  predicate Within(head: Shapes, base: Shapes, shape: string) {
    && shape in head && head[shape].pre.Some?
    && shape in base && Positive(base[shape].pre)
    && head[shape].pre.value / base[shape].pre.value <= MAX_RATIO
  }

  lemma WithinIff(h: real, b: real)
    requires b > 0.0
    ensures h / b <= MAX_RATIO <==> 100.0 * h <= 101.0 * b
  {
    var x := h / b;
    assert h == x * b;
    assert x <= 1.01 ==> x * b <= 1.01 * b;
    assert x > 1.01 ==> x * b > 1.01 * b;
  }

  /** `evaluate_gate`: the verdict. */
  method EvaluateGate(heads: seq<Shapes>, bases: seq<Shapes>) returns (pass: bool, reasons: seq<Reason>)
    ensures pass <==>
              heads != [] && |heads| == |bases| && forall i :: 0 <= i < |heads| ==> GoodPair(heads[i], bases[i])
    ensures pass ==> reasons == []
  {
    reasons := [];
    if heads == [] { reasons := reasons + [NoHeadRuns]; }
    if bases == [] { reasons := reasons + [NoBaseRuns]; }
    if heads != [] && bases != [] && |heads| != |bases| { reasons := reasons + [Mismatched]; }
    var a := Validate(heads, true);
    var b := Validate(bases, false);
    reasons := reasons + a + b;
    var clause1 := true;
    for i := 0 to |heads|
      invariant clause1 <==> forall k :: 0 <= k < i ==> Recovered(heads[k])
    {
      clause1 := clause1 && Recovered(heads[i]);
    }
    var pairs := if |heads| < |bases| then |heads| else |bases|;
    var clause2 := true;
    for i := 0 to pairs
      invariant clause2 <==> forall k, j :: 0 <= k < i && 0 <= j < |ALL_SHAPES| ==> Within(heads[k], bases[k], ALL_SHAPES[j])
    {
      for j := 0 to |ALL_SHAPES|
        invariant clause2 <==>
                    (forall k, l :: 0 <= k < i && 0 <= l < |ALL_SHAPES| ==> Within(heads[k], bases[k], ALL_SHAPES[l]))
                    && (forall l :: 0 <= l < j ==> Within(heads[i], bases[i], ALL_SHAPES[l]))
      {
        clause2 := clause2 && Within(heads[i], bases[i], ALL_SHAPES[j]);
      }
    }
    pass := heads != [] && clause1 && pairs > 0 && clause2 && reasons == [];
    if heads != [] && |heads| == |bases| {
      forall i | 0 <= i < |heads|
        ensures GoodPair(heads[i], bases[i]) <==> PairPasses(heads[i], bases[i])
      {
        PairIff(heads[i], bases[i]);
      }
    }
  }

  /** What the loops check of one pair. */
  ghost predicate PairPasses(head: Shapes, base: Shapes) {
    && (forall j :: 0 <= j < |ALL_SHAPES| ==>
          ValidHead(head, ALL_SHAPES[j]) && ValidBase(base, ALL_SHAPES[j]) && Within(head, base, ALL_SHAPES[j]))
    && Recovered(head)
  }

  lemma PairIff(head: Shapes, base: Shapes)
    ensures GoodPair(head, base) <==> PairPasses(head, base)
  {
    forall j | 0 <= j < |ALL_SHAPES| && ValidHead(head, ALL_SHAPES[j]) && ValidBase(base, ALL_SHAPES[j])
      ensures ALL_SHAPES[j] in ALL_SHAPES
      ensures Within(head, base, ALL_SHAPES[j])
         <==> 100.0 * head[ALL_SHAPES[j]].pre.value <= 101.0 * base[ALL_SHAPES[j]].pre.value
    {
      WithinIff(head[ALL_SHAPES[j]].pre.value, base[ALL_SHAPES[j]].pre.value);
    }
  }
}
