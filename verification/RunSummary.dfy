/**
 Judging a run by the samples taken during it, and the pauses that may excuse some of them.
 */
module RunSummary {
  import opened Options

  const PAUSE_MARGIN_S: real := 1.0
  const RUN_FOREIGN_VOID: real := 1.0
  const RUN_ON_PIN_VOID: real := 0.25
  const RUN_PROCESS_VOID_PCT: real := 100.0
  const WATCH_INTERVAL_S: real := 2.0
  const WATCH_GAP_FACTOR: real := 3.0
  const MAX_GAP: real := WATCH_GAP_FACTOR * WATCH_INTERVAL_S

  // ---------------------------------------------------------------- the pause record

  /** An interval as it was recorded: an end that is missing or no finite number is `None`. */
  datatype Raw = Raw(start: Option<real>, end: Option<real>)

  datatype Interval = Interval(start: real, end: real)

  /** The driver's `hour_guard` object; a member that is not a list is `None`. */
  datatype HourGuard = NotAnObject | HourGuard(pauses: Option<seq<Raw>>, processes: Option<seq<Raw>>)

  datatype Problem =
    | NoObject | PausesNotAList | ProcessesNotAList
    | BadPause(i: nat) | BadProcess(i: nat) | NoProcess | Overlap(i: nat, j: nat)

  predicate Numeric(x: Raw) {
    x.start.Some? && x.end.Some?
  }

  predicate GoodPause(x: Raw) {
    Numeric(x) && x.start.value < x.end.value
  }

  predicate GoodProcess(x: Raw) {
    Numeric(x) && x.start.value <= x.end.value
  }

  /** Open intervals: touching ends do not overlap. */
  predicate Overlaps(a: Raw, b: Raw)
    requires Numeric(a) && Numeric(b)
  {
    a.start.value < b.end.value && b.start.value < a.end.value
  }

  ghost predicate WellFormed(hg: HourGuard) {
    && hg.HourGuard? && hg.pauses.Some? && hg.processes.Some?
    && (forall i :: 0 <= i < |hg.pauses.value| ==> GoodPause(hg.pauses.value[i]))
    && (forall j :: 0 <= j < |hg.processes.value| ==> GoodProcess(hg.processes.value[j]))
  }

  /** A record whose pauses can be believed. */
  ghost predicate Acceptable(hg: HourGuard) {
    && WellFormed(hg)
    && (hg.pauses.value != [] ==> hg.processes.value != [])
    && forall i, j :: 0 <= i < |hg.pauses.value| && 0 <= j < |hg.processes.value| ==>
         !Overlaps(hg.pauses.value[i], hg.processes.value[j])
  }

  /** `pause_problems`. */
  method PauseProblems(hg: HourGuard) returns (why: seq<Problem>)
    ensures why == [] <==> Acceptable(hg)
    ensures WellFormed(hg) && hg.processes.value != [] ==>
              forall p :: p in why <==>
                p.Overlap? && p.i < |hg.pauses.value| && p.j < |hg.processes.value|
                && Overlaps(hg.pauses.value[p.i], hg.processes.value[p.j])
  {
    if hg.NotAnObject? { return [NoObject]; }
    if hg.pauses.None? { return [PausesNotAList]; }
    if hg.processes.None? { return [ProcessesNotAList]; }
    var pauses, procs := hg.pauses.value, hg.processes.value;
    why := IllFormed(pauses, procs);
    if why != [] { return; }
    if pauses != [] && procs == [] { return [NoProcess]; }
    for i := 0 to |pauses|
      invariant forall p :: p in why <==> p.Overlap? && p.i < i && p.j < |procs| && Overlaps(pauses[p.i], procs[p.j])
      invariant why == [] ==> forall k, j :: 0 <= k < i && 0 <= j < |procs| ==> !Overlaps(pauses[k], procs[j])
    {
      for j := 0 to |procs|
        invariant forall p :: p in why <==>
                    p.Overlap? && (p.i < i || (p.i == i && p.j < j)) && p.j < |procs| && Overlaps(pauses[p.i], procs[p.j])
        invariant why == [] ==> forall k, l :: 0 <= k < i && 0 <= l < |procs| ==> !Overlaps(pauses[k], procs[l])
        invariant why == [] ==> forall l :: 0 <= l < j ==> !Overlaps(pauses[i], procs[l])
      {
        if Overlaps(pauses[i], procs[j]) {
          why := why + [Overlap(i, j)];
        }
      }
    }
    if why != [] {
      assert why[0] in why;
    }
  }

  method IllFormed(pauses: seq<Raw>, procs: seq<Raw>) returns (why: seq<Problem>)
    ensures why == [] <==>
              (forall i :: 0 <= i < |pauses| ==> GoodPause(pauses[i]))
              && (forall j :: 0 <= j < |procs| ==> GoodProcess(procs[j]))
  {
    why := [];
    for i := 0 to |pauses|
      invariant why == [] <==> forall k :: 0 <= k < i ==> GoodPause(pauses[k])
    {
      if !GoodPause(pauses[i]) {
        why := why + [BadPause(i)];
      }
    }
    for j := 0 to |procs|
      invariant why == [] <==>
                  (forall i :: 0 <= i < |pauses| ==> GoodPause(pauses[i]))
                  && (forall k :: 0 <= k < j ==> GoodProcess(procs[k]))
    {
      if !GoodProcess(procs[j]) {
        why := why + [BadProcess(j)];
      }
    }
  }

  /** `pause_record`: the pauses, or none. */
  method PauseRecord(hg: HourGuard) returns (pauses: seq<Interval>, usable: bool)
    ensures usable <==> Acceptable(hg)
    ensures pauses == PausesOf(hg)
  {
    var why := PauseProblems(hg);
    usable := why == [];
    if !usable { return [], false; }
    pauses := [];
    for i := 0 to |hg.pauses.value|
      invariant pauses == PausesOf(hg)[..i]
    {
      pauses := pauses + [Interval(hg.pauses.value[i].start.value, hg.pauses.value[i].end.value)];
    }
  }

  ghost function PausesOf(hg: HourGuard): (r: seq<Interval>)
    ensures !Acceptable(hg) ==> r == []
    ensures Acceptable(hg) ==> |r| == |hg.pauses.value|
  {
    if !Acceptable(hg) then []
    else seq(|hg.pauses.value|, i requires 0 <= i < |hg.pauses.value| =>
               Interval(hg.pauses.value[i].start.value, hg.pauses.value[i].end.value))
  }

  // ---------------------------------------------------------------- samples

  datatype Sample = Sample(
    t: Option<real>, window: Option<real>, foreign: real, onPin: real,
    offenders: seq<real>, governors: seq<string>)

  /** Inside one pause with the margin to spare on both sides. */
  predicate InPause(s: Sample, pauses: seq<Interval>) {
    && s.t.Some? && s.window.Some?
    && exists k :: 0 <= k < |pauses|
                   && pauses[k].start <= s.t.value - s.window.value - PAUSE_MARGIN_S
                   && s.t.value + PAUSE_MARGIN_S <= pauses[k].end
  }

  /** No process ran within the margin of the sample's window. */
  ghost predicate Clear(s: Sample, process: Raw)
    requires s.t.Some? && s.window.Some? && Numeric(process)
  {
    process.end.value <= s.t.value - s.window.value - PAUSE_MARGIN_S
    || s.t.value + PAUSE_MARGIN_S <= process.start.value
  }

  /** A sample that is not judged had no measured process near its window. */
  lemma ExcludedIsClear(hg: HourGuard, s: Sample, j: nat)
    requires InPause(s, PausesOf(hg)) && hg.HourGuard? && hg.processes.Some? && j < |hg.processes.value|
    ensures Numeric(hg.processes.value[j]) && Clear(s, hg.processes.value[j])
  {
    var ps := PausesOf(hg);
    var k :| 0 <= k < |ps|
             && ps[k].start <= s.t.value - s.window.value - PAUSE_MARGIN_S
             && s.t.value + PAUSE_MARGIN_S <= ps[k].end;
    assert GoodProcess(hg.processes.value[j]);
    assert !Overlaps(hg.pauses.value[k], hg.processes.value[j]);
  }

  /** `verdict` with the bounds of a run. */
  predicate Quiet(s: Sample) {
    && s.foreign <= RUN_FOREIGN_VOID
    && s.onPin <= RUN_ON_PIN_VOID
    && forall i :: 0 <= i < |s.offenders| ==> s.offenders[i] < RUN_PROCESS_VOID_PCT
  }

  function Max(a: real, b: real): real {
    if a < b then b else a
  }

  /** The time the record says nothing about before sample `i`. */
  function Gap(samples: seq<Sample>, i: nat): real
    requires i < |samples|
  {
    var w := if samples[i].window.Some? then samples[i].window.value else 0.0;
    Max(w, if i > 0 && samples[i - 1].t.Some? && samples[i].t.Some?
           then samples[i].t.value - samples[i - 1].t.value else 0.0)
  }

  function Governors(samples: seq<Sample>): set<string> {
    set i, g | 0 <= i < |samples| && g in samples[i].governors :: g
  }

  ghost predicate Undisturbed(samples: seq<Sample>, pauses: seq<Interval>) {
    && samples != []
    && (forall i :: 0 <= i < |samples| ==> InPause(samples[i], pauses) || Quiet(samples[i]))
    && (forall i :: 0 <= i < |samples| ==> Gap(samples, i) <= MAX_GAP)
    && |Governors(samples)| <= 1
  }

  datatype Void = Loud(i: nat) | Hole(i: nat) | GovernorChanged | NoSample

  /** `cmd_summarize`: the exit code. `record` is `None` where the file cannot be read, and
      `hourGuard` where no pause record was given. */
  method Summarize(record: Option<seq<Sample>>, hourGuard: Option<HourGuard>) returns (code: nat, bad: seq<Void>)
    ensures code == 0 <==>
              record.Some? && Undisturbed(record.value, if hourGuard.Some? then PausesOf(hourGuard.value) else [])
    ensures code == 0 || code == 1
  {
    if record.None? { return 1, []; }
    var samples := record.value;
    var pauses: seq<Interval> := [];
    if hourGuard.Some? {
      var usable;
      pauses, usable := PauseRecord(hourGuard.value);
    }
    bad := [];
    var governors: set<string> := {};
    for i := 0 to |samples|
      invariant bad == [] <==> forall k :: 0 <= k < i ==> InPause(samples[k], pauses) || Quiet(samples[k])
      invariant governors == Governors(samples[..i])
    {
      if !Quiet(samples[i]) && !InPause(samples[i], pauses) {
        bad := bad + [Loud(i)];
      }
      GovernorsNext(samples, i);
      governors := governors + set g | g in samples[i].governors;
    }
    assert samples[..|samples|] == samples;
    for i := 0 to |samples|
      invariant bad == [] <==>
                  (forall k :: 0 <= k < |samples| ==> InPause(samples[k], pauses) || Quiet(samples[k]))
                  && (forall k :: 0 <= k < i ==> Gap(samples, k) <= MAX_GAP)
    {
      if Gap(samples, i) > MAX_GAP {
        bad := bad + [Hole(i)];
      }
    }
    if |governors| > 1 {
      bad := bad + [GovernorChanged];
    }
    if samples == [] {
      bad := bad + [NoSample];
    }
    code := if bad == [] then 0 else 1;
  }

  lemma GovernorsNext(samples: seq<Sample>, i: nat)
    requires i < |samples|
    ensures Governors(samples[..i + 1]) == Governors(samples[..i]) + set g | g in samples[i].governors
  {
    var now, before := samples[..i + 1], samples[..i];
    forall g
      ensures g in Governors(now) <==> g in Governors(before) || g in samples[i].governors
    {
      if g in Governors(now) {
        var k :| 0 <= k < |now| && g in now[k].governors;
        assert k < i ==> before[k] == now[k];
      }
      if g in Governors(before) {
        var k :| 0 <= k < |before| && g in before[k].governors;
        assert now[k] == before[k];
      }
      if g in samples[i].governors {
        assert now[i] == samples[i];
      }
    }
  }

  // ---------------------------------------------------------------- what an accepted run shows

  /** Between its first and its last sample an accepted run has a sample within the longest
      gap after every instant. */
  lemma {:induction false} NoHole(samples: seq<Sample>, x: real, lo: nat, hi: nat)
    requires lo < hi < |samples|
    requires forall i :: 0 <= i < |samples| ==> samples[i].t.Some? && Gap(samples, i) <= MAX_GAP
    requires samples[lo].t.value <= x <= samples[hi].t.value
    ensures exists i :: lo < i <= hi && x <= samples[i].t.value <= x + MAX_GAP
    decreases hi - lo
  {
    if hi == lo + 1 {
      assert Gap(samples, hi) <= MAX_GAP;
      assert samples[hi].t.value - samples[lo].t.value <= MAX_GAP;
    } else if x <= samples[hi - 1].t.value {
      NoHole(samples, x, lo, hi - 1);
    } else {
      NoHole(samples, x, hi - 1, hi);
    }
  }

  /** An accepted run: at every instant of it a sample follows within the longest gap, and
      that sample is quiet or no measured process ran near its window. */
  lemma AcceptedRun(samples: seq<Sample>, hg: HourGuard, x: real)
    requires Undisturbed(samples, PausesOf(hg)) && forall i :: 0 <= i < |samples| ==> samples[i].t.Some?
    requires |samples| > 1 && samples[0].t.value <= x <= samples[|samples| - 1].t.value
    ensures exists i :: 0 < i < |samples| && x <= samples[i].t.value <= x + MAX_GAP
                        && (Quiet(samples[i])
                            || (hg.HourGuard? && hg.processes.Some? && samples[i].window.Some?
                                && forall j :: 0 <= j < |hg.processes.value| ==>
                                     Numeric(hg.processes.value[j]) && Clear(samples[i], hg.processes.value[j])))
  {
    NoHole(samples, x, 0, |samples| - 1);
    var i :| 0 < i <= |samples| - 1 && x <= samples[i].t.value <= x + MAX_GAP;
    if !Quiet(samples[i]) {
      assert InPause(samples[i], PausesOf(hg));
      forall j | 0 <= j < |hg.processes.value|
        ensures Numeric(hg.processes.value[j]) && Clear(samples[i], hg.processes.value[j])
      {
        ExcludedIsClear(hg, samples[i], j);
      }
    }
  }
}
