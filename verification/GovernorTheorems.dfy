/**
 What a zero exit of `restore` means, after an `apply` and any number of restores each cut
 short anywhere: the policies are as recorded exactly when the state file could still be
 read, or nothing was left to undo.
 */
module GovernorTheorems {
  import opened Options
  import opened Governor
  import opened GovernorRun

  /** A run from the disk `d` on, whatever state file is on it: the disk after `apply`, and
      after each attempt to restore. */
  ghost predicate Trace(d: Disk, m: Machine, pin: seq<nat>, stop: Option<nat>, cut: ApplyCut,
                        attempts: seq<Attempt>, ds: seq<Disk>, exits: seq<Exit>)
  {
    && Coupled(d.cpus)
    && |ds| == |attempts| + 1 && |exits| == |attempts|
    && ds[0] == Applied(d, m, pin, stop, cut).0
    && forall k :: 0 <= k < |attempts| ==> Restores(ds[k], m, attempts[k], ds[k + 1], exits[k])
  }

  /** No earlier run's record is left to be undone, or `apply` gets as far as replacing it. */
  predicate Ours(d: Disk, m: Machine, pin: seq<nat>) {
    MayApply(d.cpus, pin, m.noTurbo, m.maxPerf) || !d.file.Whole? || d.file.saved.restored
  }

  /** The file, while it can be read and is not yet undone, holds what the pinned CPUs were. */
  ghost predicate Keeps(h: Cpus, pin: seq<nat>, d: Disk) {
    && Frame(h, d.cpus, pin)
    && (d.file.Absent? ==> d.cpus == h)
    && (d.file.Whole? && d.file.saved.restored ==> d.cpus == h)
    && (d.file.Whole? && !d.file.saved.restored ==>
          && d.file.saved.pin == pin && d.file.saved.before == Snapshot(h, pin)
          && (forall c :: c in pin ==> Peek(h, c).governor.Some?))
  }

  lemma ApplyKeeps(d: Disk, m: Machine, pin: seq<nat>, stop: Option<nat>, cut: ApplyCut)
    requires Coupled(d.cpus) && Ours(d, m, pin)
    ensures Keeps(d.cpus, pin, Applied(d, m, pin, stop, cut).0)
  {
    HelperFrames(d.cpus, Frequency, PERFORMANCE, pin, stop, m.lastCpu);
  }

  lemma FrameCoupled(h: Cpus, h': Cpus, pin: seq<nat>)
    requires Frame(h, h', pin) && Coupled(h)
    ensures Coupled(h')
  {
  }

  /** A zero exit on a readable file: everything is back. */
  lemma ReadableIsBack(h: Cpus, pin: seq<nat>, d: Disk, m: Machine, a: Attempt, d': Disk)
    requires Coupled(h) && Keeps(h, pin, d) && d.file.Whole? && Restores(d, m, a, d', Code(0))
    ensures d'.cpus == h
  {
    if !d.file.saved.restored {
      FrameJoins(h, d.cpus, d'.cpus, pin, pin);
      FrameCoupled(h, d'.cpus, pin);
      BackExactly(h, d'.cpus, pin);
    }
  }

  lemma RestoreKeeps(h: Cpus, pin: seq<nat>, d: Disk, m: Machine, a: Attempt, d': Disk, exit: Exit)
    requires Coupled(h) && Keeps(h, pin, d) && Restores(d, m, a, d', exit)
    ensures Keeps(h, pin, d')
  {
    if d.file.Whole? && !d.file.saved.restored {
      FrameJoins(h, d.cpus, d'.cpus, pin, pin);
      if exit == Code(0) {
        ReadableIsBack(h, pin, d, m, a, d');
      }
    }
  }

  lemma {:induction false} TraceKeeps(d: Disk, m: Machine, pin: seq<nat>, stop: Option<nat>, cut: ApplyCut,
                                      attempts: seq<Attempt>, ds: seq<Disk>, exits: seq<Exit>, k: nat)
    requires Trace(d, m, pin, stop, cut, attempts, ds, exits) && Ours(d, m, pin) && k < |ds|
    ensures Keeps(d.cpus, pin, ds[k])
    decreases k
  {
    if k == 0 {
      ApplyKeeps(d, m, pin, stop, cut);
    } else {
      TraceKeeps(d, m, pin, stop, cut, attempts, ds, exits, k - 1);
      assert Restores(ds[k - 1], m, attempts[k - 1], ds[k - 1 + 1], exits[k - 1]);
      RestoreKeeps(d.cpus, pin, ds[k - 1], m, attempts[k - 1], ds[k], exits[k - 1]);
    }
  }

  /** After any run, a zero exit means every CPU is as it was before, pinned or not, exactly
      when the state file could be read or there was nothing to undo. */
  lemma ZeroExitIff(d: Disk, m: Machine, pin: seq<nat>, stop: Option<nat>, cut: ApplyCut,
                    attempts: seq<Attempt>, ds: seq<Disk>, exits: seq<Exit>, k: nat)
    requires Trace(d, m, pin, stop, cut, attempts, ds, exits) && Ours(d, m, pin) && k < |attempts| && exits[k] == Code(0)
    ensures ds[k + 1].cpus == d.cpus <==> ds[k].file.Whole? || ds[k].cpus == d.cpus
  {
    TraceKeeps(d, m, pin, stop, cut, attempts, ds, exits, k);
    assert Restores(ds[k], m, attempts[k], ds[k + 1], exits[k]);
    if ds[k].file.Whole? {
      ReadableIsBack(d.cpus, pin, ds[k], m, attempts[k], ds[k + 1]);
    }
  }

  /** Unpinned CPUs are never touched. */
  lemma OthersUntouched(d: Disk, m: Machine, pin: seq<nat>, stop: Option<nat>, cut: ApplyCut,
                        attempts: seq<Attempt>, ds: seq<Disk>, exits: seq<Exit>, k: nat, c: nat)
    requires Trace(d, m, pin, stop, cut, attempts, ds, exits) && Ours(d, m, pin) && k < |ds| && c !in pin
    ensures Peek(ds[k].cpus, c) == Peek(d.cpus, c)
  {
    TraceKeeps(d, m, pin, stop, cut, attempts, ds, exits, k);
  }

  /** With a readable file, a working helper and an attempt that runs to its end, records
      the helper accepts are all it takes: the exit is zero and everything is back. */
  lemma AcceptableIsBack(d: Disk, m: Machine, pin: seq<nat>, stop: Option<nat>, cut: ApplyCut,
                         attempts: seq<Attempt>, ds: seq<Disk>, exits: seq<Exit>, k: nat)
    requires Trace(d, m, pin, stop, cut, attempts, ds, exits) && Ours(d, m, pin) && k < |attempts|
    requires ds[k].file.Whole? && Works(attempts[k].faults) && attempts[k].cut.Runs?
    requires forall c :: c in pin ==> AcceptsRecord(Peek(d.cpus, c))
    ensures exits[k] == Code(0) && ds[k + 1].cpus == d.cpus
  {
    TraceKeeps(d, m, pin, stop, cut, attempts, ds, exits, k);
    assert Restores(ds[k], m, attempts[k], ds[k + 1], exits[k]);
    if !ds[k].file.saved.restored {
      KnobsKept(d.cpus, ds[k].cpus, pin);
    }
    ReadableIsBack(d.cpus, pin, ds[k], m, attempts[k], ds[k + 1]);
  }

  /** No rewrite of the file was cut short before attempt `k`. */
  ghost predicate NoTornWrite(cut: ApplyCut, attempts: seq<Attempt>, k: nat)
    requires k <= |attempts|
  {
    !cut.InFirstWrite? && !cut.InSecondWrite? && forall i :: 0 <= i < k ==> !attempts[i].cut.InWrite?
  }

  /** A file that cannot be read was left by an earlier run then, and nothing has changed. */
  lemma {:induction false} TornMeansUnchanged(d: Disk, m: Machine, pin: seq<nat>, stop: Option<nat>, cut: ApplyCut,
                                              attempts: seq<Attempt>, ds: seq<Disk>, exits: seq<Exit>, k: nat)
    requires Trace(d, m, pin, stop, cut, attempts, ds, exits) && k < |ds| && NoTornWrite(cut, attempts, k)
    ensures ds[k].file.Torn? ==> ds[k].cpus == d.cpus
    decreases k
  {
    if k > 0 {
      TornMeansUnchanged(d, m, pin, stop, cut, attempts, ds, exits, k - 1);
      assert Restores(ds[k - 1], m, attempts[k - 1], ds[k - 1 + 1], exits[k - 1]);
    }
  }

  /** Without a torn write a zero exit always means the host is as before, wherever the
      helper was stopped and the calls were cut short otherwise. */
  lemma UntornIsBack(d: Disk, m: Machine, pin: seq<nat>, stop: Option<nat>, cut: ApplyCut,
                     attempts: seq<Attempt>, ds: seq<Disk>, exits: seq<Exit>, k: nat)
    requires Trace(d, m, pin, stop, cut, attempts, ds, exits) && Ours(d, m, pin) && k < |attempts| && exits[k] == Code(0)
    requires NoTornWrite(cut, attempts, k)
    ensures ds[k + 1].cpus == d.cpus
  {
    TornMeansUnchanged(d, m, pin, stop, cut, attempts, ds, exits, k);
    TraceKeeps(d, m, pin, stop, cut, attempts, ds, exits, k);
    ZeroExitIff(d, m, pin, stop, cut, attempts, ds, exits, k);
  }

  /** `apply` killed inside its second write: whatever `restore` is run with, it exits 0
      with the pinned CPU still at `performance`. */
  lemma TornRecord() returns (h: Cpus, m: Machine)
    ensures Coupled(h) && 0 in h && h[0].governor == Some("powersave")
    ensures forall a, d', exit :: Restores(Applied(Disk(h, Absent), m, [0], None, InSecondWrite).0, m, a, d', exit) ==>
              exit == Code(0) && 0 in d'.cpus && d'.cpus[0].governor == Some(PERFORMANCE)
  {
    h, m := map[0 := Policy(Some("powersave"), Some("power"))], Machine(0, None, None);
    assert Peek(h, 0).governor.Some?;
    var list := [0];
    assert Writable(h, Frequency, 0);
    assert list[..1] == list && 0 in list;
    assert HelperOk(h, Frequency, PERFORMANCE, list, None, 0);
  }

  // ---------------------------------------------------------------- a record left behind

  /** Where `apply` refuses and an earlier run's record was never undone, a restore undoes
      that one: a zero exit leaves the host as it was found exactly when it already matched
      that record. */
  lemma LeftoverIff(d: Disk, m: Machine, pin: seq<nat>, stop: Option<nat>, cut: ApplyCut,
                    attempts: seq<Attempt>, ds: seq<Disk>, exits: seq<Exit>)
    requires Trace(d, m, pin, stop, cut, attempts, ds, exits) && !Ours(d, m, pin)
    requires attempts != [] && exits[0] == Code(0)
    ensures Differing(ds[1].cpus, d.file.saved.before, d.file.saved.pin) == []
    ensures ds[1].cpus == d.cpus <==> Differing(d.cpus, d.file.saved.before, d.file.saved.pin) == []
  {
    assert Restores(ds[0], m, attempts[0], ds[0 + 1], exits[0]);
  }

  /** And it can differ: turbo is off, so `apply` refuses, and an earlier run had recorded
      another governor. Every attempt of a working helper then exits 0 with it changed. */
  lemma LeftoverRecord() returns (d: Disk, m: Machine, pin: seq<nat>)
    ensures Coupled(d.cpus) && !Ours(d, m, pin)
    ensures forall stop, cut, a, d', exit ::
              Restores(Applied(d, m, pin, stop, cut).0, m, a, d', exit) && Works(a.faults) && a.cut.Runs? ==>
                exit == Code(0) && d'.cpus != d.cpus
  {
    var was, now := Policy(Some(PERFORMANCE), None), Policy(Some("powersave"), None);
    d := Disk(map[0 := now], Whole(Saved(false, [0], map[0 := was], None)));
    m, pin := Machine(0, Some("1"), None), [0];
    assert Differs(now, was) && 0 in Differing(d.cpus, d.file.saved.before, pin);
  }

  // ---------------------------------------------------------------- the calls themselves

  lemma TwoRestores(d: Disk, m: Machine, pin: seq<nat>, stop: Option<nat>, cut: ApplyCut,
                    first: Attempt, last: Attempt, ds: seq<Disk>, exits: seq<Exit>)
    requires Trace(d, m, pin, stop, cut, [first, last], ds, exits) && Ours(d, m, pin)
    ensures Frame(d.cpus, ds[2].cpus, pin)
    ensures exits[1] == Code(0) ==> (ds[2].cpus == d.cpus <==> ds[1].file.Whole? || ds[1].cpus == d.cpus)
    ensures exits[1] == Code(0) && !cut.InFirstWrite? && !cut.InSecondWrite? && !first.cut.InWrite? ==> ds[2].cpus == d.cpus
    ensures ds[1].file.Whole? && Works(last.faults) && last.cut.Runs? && (forall c :: c in pin ==> AcceptsRecord(Peek(d.cpus, c))) ==>
              exits[1] == Code(0) && ds[2].cpus == d.cpus
  {
    var attempts := [first, last];
    TraceKeeps(d, m, pin, stop, cut, attempts, ds, exits, 2);
    if exits[1] == Code(0) {
      ZeroExitIff(d, m, pin, stop, cut, attempts, ds, exits, 1);
      if !cut.InFirstWrite? && !cut.InSecondWrite? && !first.cut.InWrite? {
        UntornIsBack(d, m, pin, stop, cut, attempts, ds, exits, 1);
      }
    }
    if ds[1].file.Whole? && Works(last.faults) && last.cut.Runs? && forall c :: c in pin ==> AcceptsRecord(Peek(d.cpus, c)) {
      AcceptableIsBack(d, m, pin, stop, cut, attempts, ds, exits, 1);
    }
  }

  lemma TwoCalls(d: Disk, m: Machine, pin: seq<nat>, stop: Option<nat>, cut: ApplyCut,
                 first: Attempt, last: Attempt, d0: Disk, d1: Disk, d2: Disk, e1: Exit, e2: Exit)
    requires Coupled(d.cpus) && Ours(d, m, pin) && d0 == Applied(d, m, pin, stop, cut).0
    requires Restores(d0, m, first, d1, e1) && Restores(d1, m, last, d2, e2)
    ensures Frame(d.cpus, d2.cpus, pin)
    ensures e2 == Code(0) ==> (d2.cpus == d.cpus <==> d1.file.Whole? || d1.cpus == d.cpus)
    ensures e2 == Code(0) && !cut.InFirstWrite? && !cut.InSecondWrite? && !first.cut.InWrite? ==> d2.cpus == d.cpus
    ensures d1.file.Whole? && Works(last.faults) && last.cut.Runs? && (forall c :: c in pin ==> AcceptsRecord(Peek(d.cpus, c))) ==>
              e2 == Code(0) && d2.cpus == d.cpus
  {
    TwoRestores(d, m, pin, stop, cut, first, last, [d0, d1, d2], [e1, e2]);
  }

  /** A benchmark run on a host: `apply`, and two restores. */
  method Bracket(host: Host, pin: seq<nat>, stop: Option<nat>, cut: ApplyCut, first: Attempt, last: Attempt)
    returns (exit: Exit, ghost readable: bool, ghost before: Cpus)
    requires host.Valid() && Ours(host.Now(), host.Fixed(), pin)
    modifies host
    ensures host.Valid() && Frame(old(host.cpus), host.cpus, pin)
    ensures exit == Code(0) ==> (host.cpus == old(host.cpus) <==> readable || before == old(host.cpus))
    ensures exit == Code(0) && !cut.InFirstWrite? && !cut.InSecondWrite? && !first.cut.InWrite? ==> host.cpus == old(host.cpus)
    ensures readable && Works(last.faults) && last.cut.Runs? && (forall c :: c in pin ==> AcceptsRecord(Peek(old(host.cpus), c))) ==>
              exit == Code(0) && host.cpus == old(host.cpus)
  {
    ghost var d, m := host.Now(), host.Fixed();
    var applied := host.Apply(pin, stop, cut);
    ghost var d0 := host.Now();
    var e1, p1 := host.Restore(first);
    ghost var d1 := host.Now();
    readable, before := host.file.Whole?, host.cpus;
    var p2;
    exit, p2 := host.Restore(last);
    TwoCalls(d, m, pin, stop, cut, first, last, d0, d1, host.Now(), e1, exit);
  }
}
