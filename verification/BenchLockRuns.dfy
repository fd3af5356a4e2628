/** Runs of the benchmark lock that go wrong, what exactly keeps them away, and recovery. */
module BenchLockRuns {
  import opened Options
  import opened BenchLock

  // ---------------------------------------------------------------- building runs

  lemma GoesOn(hs: seq<Host>, h': Host, mode: Mode)
    requires Run(hs, mode) && Step(hs[|hs| - 1], h', mode)
    ensures Run(hs + [h'], mode)
  {
    var hs' := hs + [h'];
    forall k | 0 <= k < |hs'| - 1
      ensures Step(hs'[k], hs'[k + 1], mode)
    {
      if k < |hs| - 1 {
        assert Step(hs[k], hs[k + 1], mode);
      }
    }
  }

  lemma Moves(hs: seq<Host>, p: nat, mode: Mode) returns (hs': seq<Host>)
    requires Run(hs, mode) && Alive(hs[|hs| - 1], p) && Allowed(hs[|hs| - 1], p, mode)
    ensures hs' == hs + [Next(hs[|hs| - 1], p, false)] && Run(hs', mode)
  {
    GoesOn(hs, Next(hs[|hs| - 1], p, false), mode);
    hs' := hs + [Next(hs[|hs| - 1], p, false)];
  }

  lemma Spawns(hs: seq<Host>, p: nat, pc: Pc, mode: Mode) returns (hs': seq<Host>)
    requires Run(hs, mode) && !Alive(hs[|hs| - 1], p) && (pc == TryLock || pc == OldMkDir)
    ensures hs' == hs + [Spawned(hs[|hs| - 1], p, pc)] && Run(hs', mode)
  {
    GoesOn(hs, Spawned(hs[|hs| - 1], p, pc), mode);
    hs' := hs + [Spawned(hs[|hs| - 1], p, pc)];
  }

  const IDLE: Host := Host(None, Absent, map[], 0)

  /** A wrapper at `Check` goes on to run its command, the mirror being free. */
  lemma WrapperRuns(hs: seq<Host>, p: nat, mode: Mode) returns (hs': seq<Host>)
    requires Run(hs, mode)
    requires var h := hs[|hs| - 1]; Alive(h, p) && h.procs[p].pc.Reclaim? && !h.mirror.NotADirectory?
    ensures Run(hs', mode)
    ensures var h := hs[|hs| - 1];
            hs'[|hs'| - 1] == At(h, p, Running).(mirror := Dir(Names(p, h.procs[p].born), true, h.procs[p].born))
  {
    var h := hs[|hs| - 1];
    hs' := Moves(hs, p, mode);
    hs' := Moves(hs', p, mode);
    hs' := Moves(hs', p, mode);
    hs' := Moves(hs', p, mode);
    assert hs'[|hs'| - 1].procs == At(h, p, Running).procs;
  }

  // ---------------------------------------------------------------- old and new together

  /** A wrapper has found the mirror free and is about to remove what is there. */
  lemma Looked(mode: Mode) returns (hs: seq<Host>)
    ensures Run(hs, mode) && hs[|hs| - 1] == Host(Some(1), Absent, map[1 := Proc(Reclaim, 0)], 1)
  {
    hs := [IDLE];
    hs := Spawns(hs, 1, TryLock, mode);
    hs := Moves(hs, 1, mode);
    hs := Moves(hs, 1, mode);
  }

  /** An old runner's `mkdir` between a wrapper's look and its removal loses its directory. */
  lemma LookRace(mode: Mode) returns (hs: seq<Host>)
    requires !mode.lookIsAtomic
    ensures Run(hs, mode) && Overlap(hs[|hs| - 1])
  {
    hs := Looked(mode);
    hs := Spawns(hs, 2, OldMkDir, mode);
    hs := Moves(hs, 2, mode);
    hs := Moves(hs, 2, mode);
    hs := Moves(hs, 2, mode);
    hs := WrapperRuns(hs, 1, mode);
    assert RunsCommand(hs[|hs| - 1].procs[1].pc) && RunsCommand(hs[|hs| - 1].procs[2].pc);
  }

  /** An old runner has made its directory, and the directory has grown old. */
  lemma SlowMade(mode: Mode) returns (hs: seq<Host>)
    requires !mode.ownerInTime
    ensures Run(hs, mode) && hs[|hs| - 1] == Host(None, Dir(NoFile, false, 0), map[2 := Proc(OldOpenOwner, 0)], 1)
  {
    hs := [IDLE];
    hs := Spawns(hs, 2, OldMkDir, mode);
    hs := Moves(hs, 2, mode);
    var h := hs[|hs| - 1];
    GoesOn(hs, h.(mirror := h.mirror.(young := false)), mode);
    hs := hs + [h.(mirror := h.mirror.(young := false))];
  }

  /** A wrapper looks at a directory it takes for a leftover while its old-style maker is
      still about to sign it, and both run. */
  lemma Overtakes(hs: seq<Host>, mode: Mode) returns (hs': seq<Host>)
    requires Run(hs, mode)
    requires var h := hs[|hs| - 1];
             && h.flock.None? && h.procs.Keys == {2} && h.procs[2].pc.OldSign? && h.serial == 1
             && h.mirror.Dir? && h.mirror.record.NoPid? && !mode.recordWhole
    ensures Run(hs', mode) && Overlap(hs'[|hs'| - 1])
  {
    hs' := Spawns(hs, 1, TryLock, mode);
    hs' := Moves(hs', 1, mode);
    hs' := Moves(hs', 1, mode);
    hs' := WrapperRuns(hs', 1, mode);
    hs' := Moves(hs', 2, mode);
    assert RunsCommand(hs'[|hs'| - 1].procs[1].pc) && RunsCommand(hs'[|hs'| - 1].procs[2].pc);
  }

  /** An old runner that opens its owner file only after the grace period loses it too. */
  lemma SlowOwner(mode: Mode) returns (hs: seq<Host>)
    requires !mode.ownerInTime
    ensures Run(hs, mode) && Overlap(hs[|hs| - 1])
  {
    hs := SlowMade(mode);
    hs := Spawns(hs, 1, TryLock, mode);
    hs := Moves(hs, 1, mode);
    hs := Moves(hs, 1, mode);
    hs := WrapperRuns(hs, 1, mode);
    hs := Moves(hs, 2, mode);
    hs := Moves(hs, 2, mode);
    assert RunsCommand(hs[|hs| - 1].procs[1].pc) && RunsCommand(hs[|hs| - 1].procs[2].pc);
  }

  /** A wrapper that looks between an old runner's opening its owner file and writing it
      finds no pid there, and takes a young directory of a running process for a leftover. */
  lemma HalfRecord(mode: Mode) returns (hs: seq<Host>)
    requires !mode.recordWhole
    ensures Run(hs, mode) && Overlap(hs[|hs| - 1])
  {
    hs := [IDLE];
    hs := Spawns(hs, 2, OldMkDir, mode);
    hs := Moves(hs, 2, mode);
    hs := Moves(hs, 2, mode);
    hs := Overtakes(hs, mode);
  }

  /** Old and new runners are kept apart in all runs exactly when all three guarantees are
      given. */
  lemma ApartIff(mode: Mode)
    ensures (forall hs, k :: Run(hs, mode) && 0 <= k < |hs| ==> !Overlap(hs[k])) <==> mode == ALL
  {
    if mode == ALL {
      forall hs, k | Run(hs, mode) && 0 <= k < |hs|
        ensures !Overlap(hs[k])
      {
        NeverTogether(hs, k);
      }
    } else {
      var hs;
      if !mode.lookIsAtomic {
        hs := LookRace(mode);
      } else if !mode.ownerInTime {
        hs := SlowOwner(mode);
      } else {
        hs := HalfRecord(mode);
      }
      assert Overlap(hs[|hs| - 1]);
    }
  }

  // ---------------------------------------------------------------- pid reuse

  /** A wrapper killed while it runs leaves a mirror that names the next wrapper to get its
      pid, which does not hold the `flock`. */
  lemma ReusedPid(mode: Mode) returns (hs: seq<Host>)
    ensures Run(hs, mode)
    ensures var h := hs[|hs| - 1];
            && NamesPid(h.mirror, 1) && Alive(h, 1) && !OldStyle(h.procs[1].pc)
            && h.flock == None && h.mirror.record.born != h.procs[1].born
  {
    hs := [IDLE];
    hs := Spawns(hs, 1, TryLock, mode);
    hs := Moves(hs, 1, mode);
    hs := Moves(hs, 1, mode);
    hs := WrapperRuns(hs, 1, mode);
    var h := hs[|hs| - 1];
    GoesOn(hs, Killed(h, 1), mode);
    hs := hs + [Killed(h, 1)];
    hs := Spawns(hs, 1, TryLock, mode);
  }

  /** The process left alone for `n` steps, before its deadline. */
  function Polls(h: Host, p: nat, n: nat): Host
    decreases n
  {
    if n == 0 || !Alive(h, p) then h else Polls(Next(h, p, false), p, n - 1)
  }

  /** Such a wrapper is refused by its own pid for as long as it polls. */
  lemma {:induction false} OwnPidRefuses(h: Host, p: nat, n: nat)
    requires LockInv(h) && Alive(h, p) && NamesPid(h.mirror, p)
    requires h.procs[p].pc.TryLock? || h.procs[p].pc.Check?
    ensures var h' := Polls(h, p, n);
            h'.mirror == h.mirror && Alive(h', p) && (h'.procs[p].pc.TryLock? || h'.procs[p].pc.Check?)
    decreases n
  {
    if n > 0 {
      FlockMove(h, p, false);
      BornMove(h, p, false);
      SignMove(h, p, false);
      OwnPidRefuses(Next(h, p, false), p, n - 1);
    }
  }

  // ---------------------------------------------------------------- recovery

  /** `n` steps of `p` with nothing else running and its deadline already past. */
  function Alone(h: Host, p: nat, n: nat): Host
    decreases n
  {
    if n == 0 || !Alive(h, p) then h else Alone(Next(h, p, true), p, n - 1)
  }

  /** From a free mirror to the command. */
  lemma FreeMirrorRuns(h: Host, p: nat)
    requires Alive(h, p) && h.procs[p].pc.Reclaim? && !h.mirror.NotADirectory?
    ensures Alone(h, p, 4) == At(h, p, Running).(mirror := Dir(Names(p, h.procs[p].born), true, h.procs[p].born))
  {
    var h1 := Next(h, p, true);
    var h2 := Next(h1, p, true);
    var h3 := Next(h2, p, true);
    var h4 := Next(h3, p, true);
    assert Alone(h, p, 4) == Alone(h1, p, 3) == Alone(h2, p, 2) == Alone(h3, p, 1) == Alone(h4, p, 0);
    assert h4.procs == At(h, p, Running).procs;
  }

  /** Left alone, a fresh `acquire` gets both locks on its first pass exactly when no
      descriptor holds the `flock` and nobody, its own pid included, holds the mirror. */
  lemma FirstPassIff(h: Host, p: nat)
    requires LockInv(h) && !Alive(h, p)
    ensures var h0 := Spawned(h, p, TryLock);
            var h' := Alone(h0, p, 6);
            && (Alive(h', p) && h'.procs[p].pc.Running? <==> h.flock.None? && !MirrorHeld(h0))
            && (Alive(h', p) ==> h'.procs[p].pc.Running? && h'.flock == Some(p) && h'.mirror == Dir(Names(p, h.serial), true, h.serial))
  {
    var h0 := Spawned(h, p, TryLock);
    var h1 := Next(h0, p, true);
    assert Alone(h0, p, 6) == Alone(h1, p, 5);
    if h.flock.None? {
      assert MirrorHeld(h1) <==> MirrorHeld(h0);
      var h2 := Next(h1, p, true);
      assert Alone(h1, p, 5) == Alone(h2, p, 4);
      if !MirrorHeld(h0) {
        FreeMirrorRuns(h2, p);
      }
    }
  }

  /** Crash recovery: wherever everything was killed, the next `acquire` succeeds on its
      first pass, exactly unless the path is no directory, or a young directory without an
      owner file, or names the pid the new process was given. */
  lemma RecoversFromCrash(hs: seq<Host>, k: nat, mode: Mode, p: nat)
    requires Run(hs, mode) && k < |hs| && forall q :: !Alive(hs[k], q)
    ensures var m := hs[k].mirror;
            var h' := Alone(Spawned(hs[k], p, TryLock), p, 6);
            && (Alive(h', p) && h'.procs[p].pc.Running? <==>
                  !m.NotADirectory? && !(m.Dir? && m.record.NoFile? && m.young) && !NamesPid(m, p))
            && (Alive(h', p) ==> h'.flock == Some(p) && h'.mirror == Dir(Names(p, hs[k].serial), true, hs[k].serial))
  {
    LockRun(hs, k, mode);
    assert hs[k].flock.Some? ==> Alive(hs[k], hs[k].flock.value);
    FirstPassIff(hs[k], p);
    forall q
      ensures Alive(Spawned(hs[k], p, TryLock), q) <==> q == p
    {
      assert !Alive(hs[k], q);
    }
  }
}
