/** `apply` and `restore` on a host, and what a run that ends anywhere between them leaves. */
module GovernorRun {
  import opened Options
  import opened Governor

  /** Where the helper is stopped, call by call; `None` is a helper that works. */
  type Faults = (Knob, string) -> Option<nat>

  ghost predicate Works(faults: Faults) {
    forall knob, value :: faults(knob, value) == None
  }

  /** What the record wants written to a knob of `c`. */
  function Wanted(before: Cpus, knob: Knob, c: nat): Option<string> {
    match knob
    case Frequency => Peek(before, c).governor
    case Preference => if Peek(before, c).governor == Some(PERFORMANCE) then None else Peek(before, c).epp
  }

  /** The knob of every listed CPU put back, as far as its value is among `values`. */
  function PutBack(h: Cpus, before: Cpus, knob: Knob, cs: seq<nat>, values: seq<string>): Cpus {
    map c | c in h ::
      if c in cs && Wanted(before, knob, c).Some? && Wanted(before, knob, c).value in values
      then Wrote(h[c], knob, Wanted(before, knob, c).value) else h[c]
  }

  function AllBack(h: Cpus, before: Cpus, knob: Knob, cs: seq<nat>): Cpus {
    map c | c in h ::
      if c in cs && Wanted(before, knob, c).Some? then Wrote(h[c], knob, Wanted(before, knob, c).value) else h[c]
  }

  /** Only the listed CPUs differ, the same knobs are there, and the hardware coupling holds. */
  ghost predicate Frame(h: Cpus, h': Cpus, cs: seq<nat>) {
    && h'.Keys == h.Keys
    && forall c :: c in h ==>
         && (c !in cs ==> h'[c] == h[c])
         && (h'[c].governor.Some? <==> h[c].governor.Some?)
         && (h'[c].epp.Some? <==> h[c].epp.Some?)
         && (CoupledOne(h[c]) ==> CoupledOne(h'[c]))
  }

  lemma HelperFrames(h: Cpus, knob: Knob, value: string, list: seq<nat>, stop: Option<nat>, lastCpu: nat)
    ensures Frame(h, Helped(h, knob, value, list, stop, lastCpu), list)
  {
    var h' := Helped(h, knob, value, list, stop, lastCpu);
    if !Refuses(knob, value, list, lastCpu) {
      var done := list[..Reach(h, knob, list, stop)];
      ReachWritable(h, knob, list, stop);
      forall c | c in h && c in done
        ensures Writable(h, knob, c)
      {
      }
    }
  }

  /** Every CPU the helper gets to is one it can write. */
  lemma {:induction false} ReachWritable(h: Cpus, knob: Knob, list: seq<nat>, stop: Option<nat>)
    ensures forall c :: c in list[..Reach(h, knob, list, stop)] ==> Writable(h, knob, c)
    decreases list
  {
    if !(list == [] || stop == Some(0) || !Writable(h, knob, list[0])) {
      var stop' := if stop.Some? then Some(stop.value - 1) else None;
      ReachWritable(h, knob, list[1..], stop');
      var n := Reach(h, knob, list[1..], stop');
      assert list[..n + 1] == [list[0]] + list[1..][..n];
    }
  }

  lemma FrameJoins(h: Cpus, h1: Cpus, h2: Cpus, cs: seq<nat>, list: seq<nat>)
    requires Frame(h, h1, cs) && Frame(h1, h2, list) && forall c :: c in list ==> c in cs
    ensures Frame(h, h2, cs)
  {
  }

  /** `list` is the CPUs of `cs` whose record wants `v`. */
  ghost predicate IsGroup(before: Cpus, knob: Knob, cs: seq<nat>, v: string, list: seq<nat>) {
    list != [] && forall c :: c in list <==> c in cs && Wanted(before, knob, c) == Some(v)
  }

  /** One more group: what it leaves, and that a working helper takes it. */
  lemma GroupBack(h0: Cpus, before: Cpus, knob: Knob, cs: seq<nat>, done: seq<string>, v: string, list: seq<nat>, lastCpu: nat)
    requires IsGroup(before, knob, cs, v, list) && v !in done
    ensures WroteAll(PutBack(h0, before, knob, cs, done), knob, v, list) == PutBack(h0, before, knob, cs, done + [v])
    ensures Ready(h0, before, knob, cs, lastCpu) ==>
              HelperOk(PutBack(h0, before, knob, cs, done), knob, v, list, None, lastCpu)
  {
    var h := PutBack(h0, before, knob, cs, done);
    forall c | c in h
      ensures WroteAll(h, knob, v, list)[c] == PutBack(h0, before, knob, cs, done + [v])[c]
    {
    }
    if Ready(h0, before, knob, cs, lastCpu) {
      forall c | c in list
        ensures Writable(h, knob, c) && c <= lastCpu && Accepts(knob, v)
      {
        assert Writable(h0, knob, c) && h[c] == h0[c];
      }
      assert list[0] in list;
    }
  }

  lemma GroupIs(before: Cpus, knob: Knob, cs: seq<nat>, v: string, list: seq<nat>)
    requires list != [] && Under(cs, map c | c in cs :: Wanted(before, knob, c), v, list)
    ensures IsGroup(before, knob, cs, v, list)
  {
    var values := map c | c in cs :: Wanted(before, knob, c);
    assert forall c :: c in values ==> values[c] == Wanted(before, knob, c);
  }

  /** Some groups are done; `clean` says that every call so far succeeded. */
  ghost predicate GroupsDone(h0: Cpus, h: Cpus, before: Cpus, knob: Knob, cs: seq<nat>, done: seq<string>, clean: bool) {
    && Frame(h0, h, cs)
    && (clean ==> h == PutBack(h0, before, knob, cs, done) && forall v :: v in done ==> Accepts(knob, v))
  }

  lemma NoGroups(h: Cpus, before: Cpus, knob: Knob, cs: seq<nat>)
    ensures GroupsDone(h, h, before, knob, cs, [], true)
  {
  }

  lemma GroupStep(h0: Cpus, h: Cpus, before: Cpus, knob: Knob, cs: seq<nat>, done: seq<string>, clean: bool,
                  v: string, list: seq<nat>, stop: Option<nat>, lastCpu: nat)
    requires GroupsDone(h0, h, before, knob, cs, done, clean)
    requires IsGroup(before, knob, cs, v, list) && v !in done
    ensures GroupsDone(h0, Helped(h, knob, v, list, stop, lastCpu), before, knob, cs, done + [v],
                       clean && HelperOk(h, knob, v, list, stop, lastCpu))
    ensures clean && stop.None? && Ready(h0, before, knob, cs, lastCpu) ==> HelperOk(h, knob, v, list, stop, lastCpu)
  {
    HelperFrames(h, knob, v, list, stop, lastCpu);
    FrameJoins(h0, h, Helped(h, knob, v, list, stop, lastCpu), cs, list);
    if clean {
      GroupBack(h0, before, knob, cs, done, v, list, lastCpu);
      assert list[..|list|] == list;
    }
  }

  /** The first `n` CPUs of the list are written. */
  ghost predicate Written(h: Cpus, g: Cpus, knob: Knob, value: string, list: seq<nat>, n: nat) {
    && n <= |list|
    && (forall c :: c in list[..n] ==> Writable(h, knob, c))
    && g == WroteAll(h, knob, value, list[..n])
  }

  lemma WriteNext(h: Cpus, g: Cpus, knob: Knob, value: string, list: seq<nat>, n: nat)
    requires n < |list| && Written(h, g, knob, value, list, n)
    ensures var c := list[n];
            && (Writable(g, knob, c) <==> Writable(h, knob, c))
            && (Writable(h, knob, c) ==> Written(h, g[c := Wrote(g[c], knob, value)], knob, value, list, n + 1))
  {
    assert list[..n + 1] == list[..n] + [list[n]];
  }

  /** After `n` CPUs, with `left` more before the helper is stopped. */
  ghost predicate Going(h: Cpus, knob: Knob, list: seq<nat>, stop: Option<nat>, n: nat, left: Option<nat>) {
    n <= |list| && n + Reach(h, knob, list[n..], left) == Reach(h, knob, list, stop)
  }

  lemma ReachNext(h: Cpus, knob: Knob, list: seq<nat>, stop: Option<nat>, n: nat, left: Option<nat>)
    requires n < |list| && Going(h, knob, list, stop, n, left)
    ensures if left == Some(0) || !Writable(h, knob, list[n]) then Reach(h, knob, list, stop) == n
            else Going(h, knob, list, stop, n + 1, if left.Some? then Some(left.value - 1) else None)
  {
    assert list[n..][0] == list[n] && list[n..][1..] == list[n + 1..];
  }

  /** The helper's loop, `n` CPUs in. */
  ghost predicate Writing(h: Cpus, g: Cpus, knob: Knob, value: string, list: seq<nat>, stop: Option<nat>, n: nat, left: Option<nat>) {
    Written(h, g, knob, value, list, n) && Going(h, knob, list, stop, n, left)
  }

  lemma WritingStarts(h: Cpus, knob: Knob, value: string, list: seq<nat>, stop: Option<nat>)
    ensures Writing(h, h, knob, value, list, stop, 0, stop)
  {
    assert list[0..] == list;
  }

  lemma WritingNext(h: Cpus, g: Cpus, knob: Knob, value: string, list: seq<nat>, stop: Option<nat>, n: nat, left: Option<nat>)
    requires n < |list| && Writing(h, g, knob, value, list, stop, n, left)
    ensures if left == Some(0) || !Writable(g, knob, list[n]) then WritingEnds(h, g, knob, value, list, stop, n)
            else Writing(h, g[list[n] := Wrote(g[list[n]], knob, value)], knob, value, list, stop, n + 1,
                         if left.Some? then Some(left.value - 1) else None)
  {
    WriteNext(h, g, knob, value, list, n);
    ReachNext(h, knob, list, stop, n, left);
  }

  ghost predicate WritingEnds(h: Cpus, g: Cpus, knob: Knob, value: string, list: seq<nat>, stop: Option<nat>, n: nat) {
    n == Reach(h, knob, list, stop) && g == WroteAll(h, knob, value, list[..n])
  }

  lemma WritingDone(h: Cpus, g: Cpus, knob: Knob, value: string, list: seq<nat>, stop: Option<nat>, left: Option<nat>)
    requires Writing(h, g, knob, value, list, stop, |list|, left)
    ensures WritingEnds(h, g, knob, value, list, stop, |list|)
  {
  }

  // ---------------------------------------------------------------- what a call may leave behind

  /** The policies and the state file. */
  datatype Disk = Disk(cpus: Cpus, file: File)

  /** What does not change: the last present CPU, and the two checks `apply` makes. */
  datatype Machine = Machine(lastCpu: nat, noTurbo: Option<string>, maxPerf: Option<string>)

  /** How a call ends. `Killed` stands for any end inside a step, a full disk under a
      write included, that leaves no exit code of the call's own. */
  datatype Exit = Killed | Code(n: nat)

  /** Where `apply` is cut short, if at all. */
  datatype ApplyCut = Finishes | InFirstWrite | AfterHelper | InSecondWrite

  /** Where `restore` is cut short, if at all. Between two helper calls is `BeforeWrite`
      with the later ones stopped at once. */
  datatype RestoreCut = Runs | BeforeWrite | InWrite

  datatype Attempt = Attempt(faults: Faults, cut: RestoreCut)

  function Applied(d: Disk, m: Machine, pin: seq<nat>, stop: Option<nat>, cut: ApplyCut): (Disk, Exit) {
    if !MayApply(d.cpus, pin, m.noTurbo, m.maxPerf) then (d, Code(1))
    else
      var state := Saved(false, pin, Snapshot(d.cpus, pin), None);
      var h := Helped(d.cpus, Frequency, PERFORMANCE, pin, stop, m.lastCpu);
      var ok := HelperOk(d.cpus, Frequency, PERFORMANCE, pin, stop, m.lastCpu);
      match cut
      case InFirstWrite => (Disk(d.cpus, Torn), Killed)
      case AfterHelper => (Disk(h, Whole(state)), Killed)
      case InSecondWrite => if ok then (Disk(h, Torn), Killed) else (Disk(h, Whole(state)), Code(1))
      case Finishes =>
        if ok then (Disk(h, Whole(state.(applied := Some(Snapshot(h, pin))))), Code(0))
        else (Disk(h, Whole(state)), Code(1))
  }

  function WroteBack(f: File, restored: bool, cut: RestoreCut): (File, Exit)
    requires f.Whole?
  {
    match cut
    case BeforeWrite => (f, Killed)
    case InWrite => (Torn, Killed)
    case Runs => (Whole(f.saved.(restored := restored)), Code(if restored then 0 else 1))
  }

  /** The contract of `restore`. */
  ghost predicate Restores(d: Disk, m: Machine, a: Attempt, d': Disk, exit: Exit) {
    if !d.file.Whole? || d.file.saved.restored then d' == d && exit == Code(0)
    else
      var pin, before := d.file.saved.pin, d.file.saved.before;
      && Frame(d.cpus, d'.cpus, pin)
      && (exists done :: (d'.file, exit) == WroteBack(d.file, done, a.cut))
      && (exit == Code(0) ==> Undoable(d.cpus, before, pin) && Differing(d'.cpus, before, pin) == [])
      && (Differing(d.cpus, before, pin) == [] ==> d'.cpus == d.cpus)
      && (Works(a.faults) && a.cut.Runs? && SameKnobs(d.cpus, before, pin) && Undoable(d.cpus, before, pin) ==> exit == Code(0))
  }

  class Host {
    var cpus: Cpus
    var file: File
    const lastCpu: nat
    const noTurbo: Option<string>
    const maxPerf: Option<string>

    ghost predicate Valid()
      reads this
    {
      Coupled(cpus) && forall c :: c in cpus ==> c <= lastCpu
    }

    constructor (cpus: Cpus, lastCpu: nat, noTurbo: Option<string>, maxPerf: Option<string>)
      requires Coupled(cpus) && forall c :: c in cpus ==> c <= lastCpu
      ensures Valid() && this.cpus == cpus && file == Absent
      ensures this.lastCpu == lastCpu && this.noTurbo == noTurbo && this.maxPerf == maxPerf
    {
      this.cpus, this.lastCpu, this.noTurbo, this.maxPerf := cpus, lastCpu, noTurbo, maxPerf;
      file := Absent;
    }

    method Helper(knob: Knob, value: string, list: seq<nat>, stop: Option<nat>) returns (ok: bool)
      modifies this`cpus
      ensures cpus == Helped(old(cpus), knob, value, list, stop, lastCpu)
      ensures ok == HelperOk(old(cpus), knob, value, list, stop, lastCpu)
    {
      if Refuses(knob, value, list, lastCpu) {
        return false;
      }
      var n := WriteList(knob, value, list, stop);
      ok := n == |list|;
    }

    /** The helper's writing loop: it stops at the first write that fails. */
    method WriteList(knob: Knob, value: string, list: seq<nat>, stop: Option<nat>) returns (n: nat)
      modifies this`cpus
      ensures WritingEnds(old(cpus), cpus, knob, value, list, stop, n)
    {
      var left := stop;
      n := 0;
      ghost var h := cpus;
      WritingStarts(h, knob, value, list, stop);
      while n < |list|
        invariant n <= |list| && Writing(h, cpus, knob, value, list, stop, n, left)
      {
        WritingNext(h, cpus, knob, value, list, stop, n, left);
        if left == Some(0) || !Writable(cpus, knob, list[n]) {
          return;
        }
        cpus := cpus[list[n] := Wrote(cpus[list[n]], knob, value)];
        n, left := n + 1, if left.Some? then Some(left.value - 1) else None;
      }
      WritingDone(h, cpus, knob, value, list, stop, left);
    }

    /** One of the two loops of `restore`: a helper call for each recorded value. */
    method RestoreKnob(knob: Knob, cs: seq<nat>, before: Cpus, faults: Faults) returns (problems: seq<Problem>)
      modifies this`cpus
      ensures Frame(old(cpus), cpus, cs)
      ensures problems == [] ==> cpus == AllBack(old(cpus), before, knob, cs)
      ensures problems == [] ==> WantsAccepted(before, knob, cs)
      ensures Works(faults) && Ready(old(cpus), before, knob, cs, lastCpu) ==> problems == []
    {
      var keys, groups := Group(cs, map c | c in cs :: Wanted(before, knob, c));
      problems := [];
      ghost var h0 := cpus;
      NoGroups(h0, before, knob, cs);
      for i := 0 to |keys|
        invariant GroupsDone(h0, cpus, before, knob, cs, keys[..i], problems == [])
        invariant Works(faults) && Ready(h0, before, knob, cs, lastCpu) ==> problems == []
      {
        var v := keys[i];
        assert keys[..i + 1] == keys[..i] + [v] && v !in keys[..i];
        GroupIs(before, knob, cs, v, groups[v]);
        GroupStep(h0, cpus, before, knob, cs, keys[..i], problems == [], v, groups[v], faults(knob, v), lastCpu);
        var ok := Helper(knob, v, groups[v], faults(knob, v));
        if !ok {
          problems := problems + [Problem(knob, v, groups[v])];
        }
      }
      assert keys[..|keys|] == keys;
    }

    ghost function Now(): Disk
      reads this
    {
      Disk(cpus, file)
    }

    ghost function Fixed(): Machine {
      Machine(lastCpu, noTurbo, maxPerf)
    }

    /** `apply`. The state file is written before the first helper call, and rewritten
        after the last check. */
    method Apply(pin: seq<nat>, stop: Option<nat>, cut: ApplyCut) returns (exit: Exit)
      requires Valid()
      modifies this`cpus, this`file
      ensures Valid() && (Now(), exit) == Applied(old(Now()), Fixed(), pin, stop, cut)
      ensures exit == Code(0) ==> forall c :: c in pin ==> Peek(cpus, c).governor == Some(PERFORMANCE)
    {
      HelperFrames(cpus, Frequency, PERFORMANCE, pin, stop, lastCpu);
      if !MayApply(cpus, pin, noTurbo, maxPerf) {
        return Code(1);
      }
      var state := Saved(false, pin, Snapshot(cpus, pin), None);
      if cut.InFirstWrite? {
        file := Torn;
        return Killed;
      }
      file := Whole(state);
      var ok := Helper(Frequency, PERFORMANCE, pin, stop);
      if cut.AfterHelper? {
        return Killed;
      }
      exit := Code(1);
      if !ok {
        return;
      }
      assert pin[..|pin|] == pin;
      if forall c :: c in pin ==> Peek(cpus, c).governor == Some(PERFORMANCE) {
        if cut.InSecondWrite? {
          file := Torn;
          return Killed;
        }
        file := Whole(state.(applied := Some(Snapshot(cpus, pin))));
        exit := Code(0);
      }
    }

    /** `restore`. A file that is not there or does not parse means there is nothing to do. */
    method Restore(a: Attempt) returns (exit: Exit, problems: seq<Problem>)
      requires Valid()
      modifies this`cpus, this`file
      ensures Valid() && Restores(old(Now()), Fixed(), a, Now(), exit)
    {
      exit, problems := Code(0), [];
      if !file.Whole? || file.saved.restored {
        return;
      }
      var pin, before := file.saved.pin, file.saved.before;
      var changed := Differing(cpus, before, pin);
      if changed == [] {
        exit := WriteBack(true, a.cut);
        return;
      }
      ghost var h0 := cpus;
      var p := RestoreKnob(Frequency, changed, before, a.faults);
      ghost var h1 := cpus;
      BothReady(h0, h1, before, pin, changed, lastCpu);
      var q := RestoreKnob(Preference, changed, before, a.faults);
      FrameJoins(h0, h1, cpus, changed, changed);
      FrameStays(h0, cpus, changed, pin);
      if p == [] && q == [] {
        BothAccepted(h0, before, pin, changed);
        if SameKnobs(h0, before, pin) {
          BothBack(h0, before, pin, changed);
        }
      }
      problems := p + q;
      var mismatched := Differing(cpus, before, pin);
      exit := WriteBack(problems == [] && mismatched == [], a.cut);
    }

    /** The rewrite at the end of `restore`, and the exit code that follows it. */
    method WriteBack(restored: bool, cut: RestoreCut) returns (exit: Exit)
      requires file.Whole?
      modifies this`file
      ensures (file, exit) == WroteBack(old(file), restored, cut)
    {
      match cut {
        case BeforeWrite => exit := Killed;
        case InWrite =>
          file := Torn;
          exit := Killed;
        case Runs =>
          file := Whole(file.saved.(restored := restored));
          exit := Code(if restored then 0 else 1);
      }
    }
  }

  /** Changes inside the frame keep the knobs of the snapshot. */
  lemma KnobsKept(h: Cpus, h': Cpus, pin: seq<nat>)
    requires Frame(h, h', pin) && forall c :: c in pin ==> Peek(h, c).governor.Some?
    ensures SameKnobs(h', Snapshot(h, pin), pin)
  {
  }

  /** With the hardware coupling, a host that matches the record is the host recorded. */
  lemma BackExactly(h: Cpus, h': Cpus, pin: seq<nat>)
    requires Coupled(h) && Coupled(h') && Frame(h, h', pin)
    requires Differing(h', Snapshot(h, pin), pin) == []
    ensures h' == h
  {
    forall c | c in h
      ensures h'[c] == h[c]
    {
      if c in pin {
        assert !Differs(Peek(h', c), Peek(Snapshot(h, pin), c));
        assert CoupledOne(h[c]) && CoupledOne(h'[c]);
      }
    }
  }

  /** The checks `apply` makes before it touches anything. */
  predicate MayApply(h: Cpus, pin: seq<nat>, noTurbo: Option<string>, maxPerf: Option<string>) {
    && pin != []
    && (forall c :: c in pin ==> Peek(h, c).governor.Some?)
    && (noTurbo == None || noTurbo == Some("0"))
    && (maxPerf == None || maxPerf == Some("100"))
  }

  function Snapshot(h: Cpus, pin: seq<nat>): Cpus {
    map c | c in pin :: Peek(h, c)
  }

  /** Every wanted value can be written now. */
  ghost predicate Ready(h: Cpus, before: Cpus, knob: Knob, cs: seq<nat>, lastCpu: nat) {
    forall c :: c in cs && Wanted(before, knob, c).Some? ==>
      c <= lastCpu && Writable(h, knob, c) && Accepts(knob, Wanted(before, knob, c).value)
  }

  lemma FrameStays(h: Cpus, h': Cpus, cs: seq<nat>, pin: seq<nat>)
    requires Frame(h, h', cs) && forall c :: c in cs ==> c in pin
    ensures Frame(h, h', pin) && (Coupled(h) ==> Coupled(h'))
  {
  }

  lemma BothReady(h0: Cpus, h1: Cpus, before: Cpus, pin: seq<nat>, changed: seq<nat>, lastCpu: nat)
    requires changed == Differing(h0, before, pin) && Frame(h0, h1, changed)
    requires forall c :: c in h0 ==> c <= lastCpu
    ensures SameKnobs(h0, before, pin) && Undoable(h0, before, pin) ==> Ready(h0, before, Frequency, changed, lastCpu)
    ensures SameKnobs(h0, before, pin) && Undoable(h0, before, pin) && h1 == AllBack(h0, before, Frequency, changed) ==>
              Ready(h1, before, Preference, changed, lastCpu)
  {
  }

  ghost predicate WantsAccepted(before: Cpus, knob: Knob, cs: seq<nat>) {
    forall c :: c in cs && Wanted(before, knob, c).Some? ==> Accepts(knob, Wanted(before, knob, c).value)
  }

  /** Every call taken: every changed CPU's record was one the helper accepts. */
  lemma BothAccepted(h0: Cpus, before: Cpus, pin: seq<nat>, changed: seq<nat>)
    requires changed == Differing(h0, before, pin)
    requires WantsAccepted(before, Frequency, changed) && WantsAccepted(before, Preference, changed)
    ensures Undoable(h0, before, pin)
  {
    forall c | c in pin && Differs(Peek(h0, c), Peek(before, c))
      ensures AcceptsRecord(Peek(before, c))
    {
      assert c in changed;
      assert Wanted(before, Frequency, c) == Peek(before, c).governor;
    }
  }

  /** Both knobs written back: every pinned CPU matches its record. */
  lemma BothBack(h0: Cpus, before: Cpus, pin: seq<nat>, changed: seq<nat>)
    requires changed == Differing(h0, before, pin) && SameKnobs(h0, before, pin)
    ensures Differing(AllBack(AllBack(h0, before, Frequency, changed), before, Preference, changed), before, pin) == []
  {
    var h1 := AllBack(h0, before, Frequency, changed);
    var h2 := AllBack(h1, before, Preference, changed);
    forall c | c in pin
      ensures !Differs(Peek(h2, c), Peek(before, c))
    {
      assert c in changed <==> Differs(h0[c], before[c]);
    }
  }
}
