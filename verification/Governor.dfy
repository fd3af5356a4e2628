/**
 The frequency governor around a benchmark run: an undo log. The policy of every pinned
 CPU is recorded before the helper changes any of them, and put back afterwards, however
 far the helper got.
 */
module Governor {
  import opened Options

  /** The cpufreq knobs of one CPU; an absent knob is `None`. */
  datatype Policy = Policy(governor: Option<string>, epp: Option<string>)

  type Cpus = map<nat, Policy>

  datatype Knob = Frequency | Preference

  datatype Problem = Problem(knob: Knob, value: string, cpus: seq<nat>)

  /** What `restore` needs of the state file's contents, and what the run added to it. */
  datatype Saved = Saved(restored: bool, pin: seq<nat>, before: Cpus, applied: Option<Cpus>)

  /** The state file. A rewrite that is cut short leaves an empty or partial file, which
      does not parse. */
  datatype File = Absent | Torn | Whole(saved: Saved)

  const PERFORMANCE: string := "performance"

  // ---------------------------------------------------------------- the hardware and the helper

  /** Under the performance governor the preference is forced to match. */
  predicate CoupledOne(p: Policy) {
    p.governor == Some(PERFORMANCE) && p.epp.Some? ==> p.epp == Some(PERFORMANCE)
  }

  ghost predicate Coupled(h: Cpus) {
    forall c :: c in h ==> CoupledOne(h[c])
  }

  /** The values the helper lets through. */
  predicate Accepts(knob: Knob, value: string) {
    match knob
    case Frequency => value == PERFORMANCE || value == "powersave"
    case Preference =>
      value == "default" || value == PERFORMANCE || value == "balance_performance"
      || value == "balance_power" || value == "power"
  }

  /** A write succeeds on a knob that is there; a preference is busy under performance. */
  predicate Writable(h: Cpus, knob: Knob, c: nat) {
    && c in h
    && match knob
       case Frequency => h[c].governor.Some?
       case Preference => h[c].epp.Some? && h[c].governor != Some(PERFORMANCE)
  }

  function Wrote(p: Policy, knob: Knob, value: string): Policy {
    match knob
    case Frequency => Policy(Some(value), if value == PERFORMANCE && p.epp.Some? then Some(PERFORMANCE) else p.epp)
    case Preference => p.(epp := Some(value))
  }

  function WroteAll(h: Cpus, knob: Knob, value: string, list: seq<nat>): Cpus {
    map c | c in h :: if c in list then Wrote(h[c], knob, value) else h[c]
  }

  /** How many CPUs of the list the helper gets to, when it would be stopped at `stop`. */
  function Reach(h: Cpus, knob: Knob, list: seq<nat>, stop: Option<nat>): (n: nat)
    ensures n <= |list|
    ensures n == |list| <==> (forall c :: c in list ==> Writable(h, knob, c)) && (stop.Some? ==> stop.value >= |list|)
  {
    if list == [] || stop == Some(0) || !Writable(h, knob, list[0]) then 0
    else 1 + Reach(h, knob, list[1..], if stop.Some? then Some(stop.value - 1) else None)
  }

  predicate Refuses(knob: Knob, value: string, list: seq<nat>, lastCpu: nat) {
    !Accepts(knob, value) || list == [] || exists c :: c in list && c > lastCpu
  }

  /** What the helper leaves behind: nothing done if it refuses, a prefix of the list
      otherwise. */
  function Helped(h: Cpus, knob: Knob, value: string, list: seq<nat>, stop: Option<nat>, lastCpu: nat): Cpus {
    if Refuses(knob, value, list, lastCpu) then h
    else WroteAll(h, knob, value, list[..Reach(h, knob, list, stop)])
  }

  predicate HelperOk(h: Cpus, knob: Knob, value: string, list: seq<nat>, stop: Option<nat>, lastCpu: nat) {
    !Refuses(knob, value, list, lastCpu) && Reach(h, knob, list, stop) == |list|
  }

  // ---------------------------------------------------------------- records

  /** A snapshot entry: a CPU that is not there has no knobs. */
  function Peek(h: Cpus, c: nat): Policy {
    if c in h then h[c] else Policy(None, None)
  }

  /** The comparison `restore` makes: the preference counts only when it could be written. */
  predicate Differs(now: Policy, was: Policy) {
    now.governor != was.governor || (was.governor != Some(PERFORMANCE) && now.epp != was.epp)
  }

  function Differing(h: Cpus, before: Cpus, pin: seq<nat>): (cs: seq<nat>)
    ensures forall c :: c in cs <==> c in pin && Differs(Peek(h, c), Peek(before, c))
    ensures cs == [] <==> forall c :: c in pin ==> !Differs(Peek(h, c), Peek(before, c))
  {
    if pin == [] then []
    else (if Differs(Peek(h, pin[0]), Peek(before, pin[0])) then [pin[0]] else []) + Differing(h, before, pin[1..])
  }

  /** The same knobs are there. */
  ghost predicate SameKnobs(h: Cpus, before: Cpus, pin: seq<nat>) {
    forall c :: c in pin ==>
      c in h && c in before
      && h[c].governor.Some? && before[c].governor.Some?
      && (h[c].epp.Some? <==> before[c].epp.Some?)
  }

  /** Every changed CPU's record is one the helper can write back. */
  ghost predicate Undoable(h: Cpus, before: Cpus, pin: seq<nat>) {
    forall c :: c in pin && Differs(Peek(h, c), Peek(before, c)) ==> AcceptsRecord(Peek(before, c))
  }

  predicate AcceptsRecord(was: Policy) {
    && (was.governor.Some? ==> Accepts(Frequency, was.governor.value))
    && (was.governor != Some(PERFORMANCE) && was.epp.Some? ==> Accepts(Preference, was.epp.value))
  }

  ghost predicate Sorted(cs: seq<nat>) {
    forall i, j :: 0 <= i < j < |cs| ==> cs[i] < cs[j]
  }

  /** `c` put in its place in a sorted list. */
  function Placed(c: nat, cs: seq<nat>): seq<nat> {
    if cs == [] || c < cs[0] then [c] + cs
    else if c == cs[0] then cs
    else [cs[0]] + Placed(c, cs[1..])
  }

  lemma {:induction false} PlacedHas(c: nat, cs: seq<nat>)
    ensures forall x :: x in Placed(c, cs) <==> x in cs || x == c
  {
    if cs != [] && c > cs[0] {
      PlacedHas(c, cs[1..]);
      assert cs == [cs[0]] + cs[1..];
    }
  }

  lemma {:induction false} PlacedSorts(c: nat, cs: seq<nat>)
    requires Sorted(cs)
    ensures Sorted(Placed(c, cs))
  {
    if cs != [] && c > cs[0] {
      var rest := Placed(c, cs[1..]);
      PlacedSorts(c, cs[1..]);
      PlacedHas(c, cs[1..]);
      forall j | 0 <= j < |rest|
        ensures cs[0] < rest[j]
      {
        assert rest[j] in rest;
      }
    }
  }

  /** `list` is the CPUs with value `v`. */
  ghost predicate Under(cpus: seq<nat>, values: map<nat, Option<string>>, v: string, list: seq<nat>) {
    forall c :: c in list <==> c in cpus && c in values && values[c] == Some(v)
  }

  /** `_group`: the CPUs under each value, sorted, each once; values in order of first
      appearance. */
  method Group(cpus: seq<nat>, values: map<nat, Option<string>>) returns (keys: seq<string>, groups: map<string, seq<nat>>)
    requires forall c :: c in cpus ==> c in values
    ensures forall v :: v in keys <==> v in groups
    ensures forall i, j :: 0 <= i < j < |keys| ==> keys[i] != keys[j]
    ensures forall v :: v in groups ==> groups[v] != [] && Sorted(groups[v])
    ensures forall v :: v in groups ==> Under(cpus, values, v, groups[v])
    ensures forall c :: c in cpus && values[c].Some? ==> values[c].value in groups
  {
    keys, groups := [], map[];
    for i := 0 to |cpus|
      invariant forall v :: v in keys <==> v in groups
      invariant forall i, j :: 0 <= i < j < |keys| ==> keys[i] != keys[j]
      invariant forall v :: v in groups ==> groups[v] != [] && Sorted(groups[v])
      invariant forall v :: v in groups ==> Under(cpus[..i], values, v, groups[v])
      invariant forall c :: c in cpus[..i] && values[c].Some? ==> values[c].value in groups
    {
      assert cpus[..i + 1] == cpus[..i] + [cpus[i]];
      var val := values[cpus[i]];
      if val.Some? {
        var v := val.value;
        if v !in groups {
          keys := keys + [v];
          groups := groups[v := []];
        }
        PlacedHas(cpus[i], groups[v]);
        PlacedSorts(cpus[i], groups[v]);
        groups := groups[v := Placed(cpus[i], groups[v])];
      }
    }
    assert cpus[..|cpus|] == cpus;
  }
}
