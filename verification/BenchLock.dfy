/**
 The benchmark lock: a kernel `flock` that new-style wrappers take, plus the old
 `mkdir` lock they keep as a mirror so old-style runners see the host as busy.

 Every process takes its steps one system call at a time and can be killed outright
 before any of them; a kill closes its descriptors, which releases the `flock`, and
 leaves the directory behind. A pid may be given to a new process as soon as its last
 owner is gone.
 */
module BenchLock {
  import opened Options

  /** Program points. A wrapper holds the `flock` from `Check` to `CloseFd`. `into` is the
      directory whose owner file the process has open, if it could open one. */
  datatype Pc =
    | TryLock | Check | Reclaim | MkDir | OpenOwner | Sign(into: Option<nat>)
    | Running | ReleaseCheck | ReleaseRemove | CloseFd
    | OldMkDir | OldOpenOwner | OldSign(into: Option<nat>) | OldRunning | OldRemove
    | Gone

  /** A process; `born` tells the processes that share a pid apart (history). */
  datatype Proc = Proc(pc: Pc, born: nat)

  /** The owner file: not there, there without a pid yet, or signed. `born` is history. */
  datatype Record = NoFile | NoPid | Names(pid: nat, born: nat)

  /** The mirror path. `maker` is the process that made the directory, by birth (history);
      `young` means younger than the grace period. */
  datatype Mirror = Absent | NotADirectory | Dir(record: Record, young: bool, maker: nat)

  datatype Host = Host(flock: Option<nat>, mirror: Mirror, procs: map<nat, Proc>, serial: nat)

  predicate Alive(h: Host, p: nat) {
    p in h.procs && !h.procs[p].pc.Gone?
  }

  predicate HoldsFlock(pc: Pc) {
    pc.Check? || PastCheck(pc)
  }

  predicate PastCheck(pc: Pc) {
    pc.Reclaim? || pc.MkDir? || pc.OpenOwner? || pc.Sign? || pc.Running?
    || pc.ReleaseCheck? || pc.ReleaseRemove? || pc.CloseFd?
  }

  predicate OldStyle(pc: Pc) {
    pc.OldMkDir? || pc.OldOpenOwner? || pc.OldSign? || pc.OldRunning? || pc.OldRemove?
  }

  /** The process has signed its directory. */
  predicate Signed(pc: Pc) {
    pc.Running? || pc.ReleaseCheck? || pc.ReleaseRemove? || pc.OldRunning? || pc.OldRemove?
  }

  /** `mirror_holder`: whether someone holds the old lock. A fresh directory without an
      owner file is being made. A file that names no pid, or one that is not running, is a
      leftover at any age. */
  predicate MirrorHeld(h: Host) {
    match h.mirror
    case Absent => false
    case NotADirectory => true
    case Dir(NoFile, young, _) => young
    case Dir(NoPid, _, _) => false
    case Dir(Names(q, _), _, _) => Alive(h, q)
  }

  function At(h: Host, p: nat, pc: Pc): Host
    requires p in h.procs
  {
    h.(procs := h.procs[p := h.procs[p].(pc := pc)])
  }

  function Unlocked(h: Host): Host {
    h.(flock := None)
  }

  function Removed(m: Mirror): Mirror {
    if m.Dir? then Absent else m
  }

  function DirNow(m: Mirror): Option<nat> {
    if m.Dir? then Some(m.maker) else None
  }

  /** The owner file of the directory there is, if any, is created or truncated. */
  function Emptied(m: Mirror): Mirror {
    if m.Dir? then m.(record := NoPid) else m
  }

  /** A write through a descriptor reaches the file it was opened on, or nothing. */
  function SignedBy(m: Mirror, into: Option<nat>, p: nat, born: nat): Mirror {
    if m.Dir? && into == Some(m.maker) then m.(record := Names(p, born)) else m
  }

  predicate NamesPid(m: Mirror, p: nat) {
    m.Dir? && m.record.Names? && m.record.pid == p
  }

  /** The next system call of `p`. `late`: its deadline has passed. */
  function Next(h: Host, p: nat, late: bool): Host
    requires Alive(h, p)
  {
    var retry := if late then Gone else TryLock;
    var born := h.procs[p].born;
    match h.procs[p].pc
    case TryLock =>
      if h.flock.None? then At(h, p, Check).(flock := Some(p)) else At(h, p, retry)
    case Check =>
      if MirrorHeld(h) then At(Unlocked(h), p, retry) else At(h, p, Reclaim)
    case Reclaim => At(h, p, MkDir).(mirror := Removed(h.mirror))
    case MkDir =>
      if h.mirror.Absent? then At(h, p, OpenOwner).(mirror := Dir(NoFile, true, born))
      else At(Unlocked(h), p, retry)
    case OpenOwner => At(h, p, Sign(DirNow(h.mirror))).(mirror := Emptied(h.mirror))
    case Sign(into) => At(h, p, Running).(mirror := SignedBy(h.mirror, into, p, born))
    case Running => At(h, p, ReleaseCheck)
    case ReleaseCheck => At(h, p, if NamesPid(h.mirror, p) then ReleaseRemove else CloseFd)
    case ReleaseRemove => At(h, p, CloseFd).(mirror := Removed(h.mirror))
    case CloseFd => At(Unlocked(h), p, Gone)
    case OldMkDir =>
      if h.mirror.Absent? then At(h, p, OldOpenOwner).(mirror := Dir(NoFile, true, born)) else At(h, p, Gone)
    case OldOpenOwner => At(h, p, OldSign(DirNow(h.mirror))).(mirror := Emptied(h.mirror))
    case OldSign(into) => At(h, p, OldRunning).(mirror := SignedBy(h.mirror, into, p, born))
    case OldRunning => At(h, p, OldRemove)
    case OldRemove => At(h, p, Gone).(mirror := Removed(h.mirror))
  }

  function Killed(h: Host, p: nat): Host
    requires p in h.procs
  {
    At(if h.flock == Some(p) then Unlocked(h) else h, p, Gone)
  }

  /** A new process under a pid that no running process has. */
  function Spawned(h: Host, p: nat, pc: Pc): Host {
    h.(procs := h.procs[p := Proc(pc, h.serial)], serial := h.serial + 1)
  }

  /** What a deployment guarantees: that no old-style `mkdir` falls between a wrapper's
      look at the mirror and its removal, that an old runner opens its owner file within
      the grace period, and that no wrapper looks between that and its writing it. */
  datatype Mode = Mode(lookIsAtomic: bool, ownerInTime: bool, recordWhole: bool)

  ghost predicate Allowed(h: Host, p: nat, mode: Mode)
    requires Alive(h, p)
  {
    && (mode.lookIsAtomic && h.procs[p].pc.OldMkDir? ==> forall q :: q in h.procs ==> !h.procs[q].pc.Reclaim?)
    && (mode.recordWhole && h.procs[p].pc.Check? ==> forall q :: q in h.procs ==> !h.procs[q].pc.OldSign?)
  }

  ghost predicate MayAge(h: Host, mode: Mode) {
    && h.mirror.Dir?
    && (mode.ownerInTime ==>
          forall q :: q in h.procs && h.procs[q].pc.OldOpenOwner? ==> h.procs[q].born != h.mirror.maker)
  }

  ghost predicate Step(h: Host, h': Host, mode: Mode) {
    || (exists p, late :: Alive(h, p) && Allowed(h, p, mode) && h' == Next(h, p, late))
    || (exists p :: Alive(h, p) && h' == Killed(h, p))
    || (exists p :: !Alive(h, p) && (h' == Spawned(h, p, TryLock) || h' == Spawned(h, p, OldMkDir)))
    || (MayAge(h, mode) && h' == h.(mirror := h.mirror.(young := false)))
  }

  /** Nothing runs at the start; the mirror path may hold a leftover or anything else. */
  ghost predicate Start(h: Host) {
    && h.flock.None? && h.procs == map[]
    && (h.mirror.Dir? ==> h.mirror.maker < h.serial && (h.mirror.record.Names? ==> h.mirror.record.born < h.serial))
  }

  ghost predicate Run(hs: seq<Host>, mode: Mode) {
    && |hs| > 0
    && Start(hs[0])
    && forall k :: 0 <= k < |hs| - 1 ==> Step(hs[k], hs[k + 1], mode)
  }

  // ---------------------------------------------------------------- all runs

  ghost predicate FlockInv(h: Host) {
    && (h.flock.Some? ==> h.flock.value in h.procs)
    && (forall p :: p in h.procs ==> (HoldsFlock(h.procs[p].pc) <==> h.flock == Some(p)))
  }

  ghost predicate BornInv(h: Host) {
    && (forall p :: p in h.procs ==> h.procs[p].born < h.serial)
    && (forall p, q :: p in h.procs && q in h.procs && h.procs[p].born == h.procs[q].born ==> p == q)
    && (h.mirror.Dir? ==> h.mirror.maker < h.serial && (h.mirror.record.Names? ==> h.mirror.record.born < h.serial))
  }

  /** What a signature says of the process it names. */
  ghost predicate SignInv(h: Host) {
    h.mirror.Dir? && h.mirror.record.Names? && Alive(h, h.mirror.record.pid) ==>
      var q := h.procs[h.mirror.record.pid];
      && (h.mirror.record.born == q.born ==> Signed(q.pc))
      && (PastCheck(q.pc) ==> h.mirror.record.born == q.born)
  }

  ghost predicate LockInv(h: Host) {
    FlockInv(h) && BornInv(h) && SignInv(h)
  }

  /** A step moves one process and keeps every other, and every birth. */
  lemma NextKeepsPids(h: Host, p: nat, late: bool)
    requires Alive(h, p)
    ensures var h' := Next(h, p, late);
            && h'.procs.Keys == h.procs.Keys && h'.serial == h.serial && h'.procs[p].born == h.procs[p].born
            && forall q :: q in h.procs && q != p ==> h'.procs[q] == h.procs[q]
  {
  }

  lemma FlockMove(h: Host, p: nat, late: bool)
    requires FlockInv(h) && Alive(h, p)
    ensures FlockInv(Next(h, p, late))
  {
    var h' := Next(h, p, late);
    NextKeepsPids(h, p, late);
    assert h'.flock == if HoldsFlock(h'.procs[p].pc) then Some(p) else if HoldsFlock(h.procs[p].pc) then None else h.flock;
  }

  lemma BornMove(h: Host, p: nat, late: bool)
    requires BornInv(h) && Alive(h, p)
    ensures BornInv(Next(h, p, late))
  {
    var h' := Next(h, p, late);
    NextKeepsPids(h, p, late);
    if h'.mirror.Dir? {
      NextMirror(h, p, late);
    }
    assert forall q :: q in h'.procs ==> h'.procs[q].born == h.procs[q].born;
  }

  /** A step leaves the mirror's maker and signature alone, or makes them the process's own. */
  lemma NextMirror(h: Host, p: nat, late: bool)
    requires Alive(h, p) && Next(h, p, late).mirror.Dir?
    ensures var m, m', born := h.mirror, Next(h, p, late).mirror, h.procs[p].born;
            && (m'.maker == born || (m.Dir? && m'.maker == m.maker))
            && (m'.record.Names? ==> m'.record == Names(p, born) || (m.Dir? && m'.record == m.record))
            && (m'.record.Names? && !(m.Dir? && m'.record == m.record) ==> Signed(Next(h, p, late).procs[p].pc))
  {
  }

  lemma SignMove(h: Host, p: nat, late: bool)
    requires LockInv(h) && Alive(h, p)
    ensures SignInv(Next(h, p, late))
  {
    NextKeepsPids(h, p, late);
    if Next(h, p, late).mirror.Dir? {
      NextMirror(h, p, late);
    }
  }

  lemma SpawnKeeps(h: Host, p: nat, pc: Pc)
    requires LockInv(h) && !Alive(h, p) && (pc == TryLock || pc == OldMkDir)
    ensures LockInv(Spawned(h, p, pc))
  {
  }

  lemma LockStep(h: Host, h': Host, mode: Mode)
    requires LockInv(h) && Step(h, h', mode)
    ensures LockInv(h')
  {
    if p, late :| Alive(h, p) && Allowed(h, p, mode) && h' == Next(h, p, late) {
      FlockMove(h, p, late);
      BornMove(h, p, late);
      SignMove(h, p, late);
    } else if p :| !Alive(h, p) && (h' == Spawned(h, p, TryLock) || h' == Spawned(h, p, OldMkDir)) {
      SpawnKeeps(h, p, if h' == Spawned(h, p, TryLock) then TryLock else OldMkDir);
    }
  }

  lemma {:induction false} LockRun(hs: seq<Host>, k: nat, mode: Mode)
    requires Run(hs, mode) && k < |hs|
    ensures LockInv(hs[k])
    decreases k
  {
    if k > 0 {
      LockRun(hs, k - 1, mode);
      assert Step(hs[k - 1], hs[k - 1 + 1], mode);
      LockStep(hs[k - 1], hs[k], mode);
    }
  }

  /** At most one wrapper is past the `flock`, wherever processes were killed and however
      pids are reused. */
  lemma OneWrapper(hs: seq<Host>, k: nat, mode: Mode, p: nat, q: nat)
    requires Run(hs, mode) && k < |hs| && p in hs[k].procs && q in hs[k].procs
    requires HoldsFlock(hs[k].procs[p].pc) && HoldsFlock(hs[k].procs[q].pc)
    ensures p == q
  {
    LockRun(hs, k, mode);
  }

  /** A mirror that names a running wrapper names the one that holds the `flock`, exactly
      when that very process signed it, and no earlier one under its pid, or is just
      looking at it. */
  lemma MirrorNamesHolder(hs: seq<Host>, k: nat, mode: Mode)
    requires Run(hs, mode) && k < |hs| && hs[k].mirror.Dir? && hs[k].mirror.record.Names?
    requires var q := hs[k].mirror.record.pid; Alive(hs[k], q) && !OldStyle(hs[k].procs[q].pc)
    ensures var r, q := hs[k].mirror.record, hs[k].procs[hs[k].mirror.record.pid];
            hs[k].flock == Some(r.pid) <==> r.born == q.born || q.pc.Check?
  {
    LockRun(hs, k, mode);
  }

  /** Reclaiming never removes the mirror of a running wrapper, not even one that has
      made the directory and not yet signed it. */
  lemma ReclaimSparesWrappers(hs: seq<Host>, k: nat, mode: Mode, p: nat, q: nat)
    requires Run(hs, mode) && k < |hs| && p in hs[k].procs && hs[k].procs[p].pc.Reclaim?
    requires q in hs[k].procs && hs[k].mirror.Dir?
    requires NamesPid(hs[k].mirror, q) || (!hs[k].mirror.record.Names? && hs[k].mirror.maker == hs[k].procs[q].born)
    ensures !HoldsFlock(hs[k].procs[q].pc) || q == p
    ensures NamesPid(hs[k].mirror, q) ==> !HoldsFlock(hs[k].procs[q].pc)
  {
    LockRun(hs, k, mode);
  }

  // ---------------------------------------------------------------- old and new together

  /** What the mirror looks like to process `p`: inside the lock it is p's own. */
  ghost predicate Sees(h: Host, p: nat)
    requires p in h.procs
  {
    var born := h.procs[p].born;
    match h.procs[p].pc
    case Reclaim => h.mirror.Dir? ==> forall q :: Alive(h, q) ==> h.procs[q].born != h.mirror.maker
    case OpenOwner => h.mirror.Dir? && h.mirror.maker == born && h.mirror.record.NoFile?
    case Sign(into) => h.mirror.Dir? && h.mirror.maker == born && h.mirror.record.NoPid? && into == Some(born)
    case Running => h.mirror.Dir? && h.mirror.maker == born && h.mirror.record == Names(p, born)
    case ReleaseCheck => h.mirror.Dir? && h.mirror.maker == born && h.mirror.record == Names(p, born)
    case ReleaseRemove => h.mirror.Dir? && h.mirror.maker == born && h.mirror.record == Names(p, born)
    case OldOpenOwner => h.mirror.Dir? && h.mirror.maker == born && h.mirror.record.NoFile? && h.mirror.young
    case OldSign(into) => h.mirror.Dir? && h.mirror.maker == born && h.mirror.record.NoPid? && into == Some(born)
    case OldRunning => h.mirror.Dir? && h.mirror.maker == born && h.mirror.record == Names(p, born)
    case OldRemove => h.mirror.Dir? && h.mirror.maker == born && h.mirror.record == Names(p, born)
    case _ => true
  }

  /** Inside either lock. */
  predicate Inside(pc: Pc) {
    pc.OpenOwner? || pc.Sign? || pc.OldOpenOwner? || pc.OldSign? || Signed(pc)
  }

  ghost predicate InsideInv(h: Host) {
    forall p :: p in h.procs ==> Sees(h, p)
  }

  /** A directory made by a running process belongs to a process inside the lock. */
  ghost predicate MakerInv(h: Host) {
    h.mirror.Dir? ==> forall q :: Alive(h, q) && h.procs[q].born == h.mirror.maker ==> Inside(h.procs[q].pc)
  }

  const ALL: Mode := Mode(true, true, true)

  /** A wrapper whose look finds the mirror free looks at nobody's directory. */
  lemma LookIsRight(h: Host, p: nat)
    requires LockInv(h) && InsideInv(h) && MakerInv(h) && Alive(h, p) && Allowed(h, p, ALL)
    requires h.procs[p].pc.Check? && !MirrorHeld(h) && h.mirror.Dir?
    ensures forall q :: Alive(h, q) ==> h.procs[q].born != h.mirror.maker
  {
    forall q | Alive(h, q)
      ensures h.procs[q].born != h.mirror.maker
    {
      assert Sees(h, q);
    }
  }

  /** A step that changes the mirror is taken by the only process it concerns. */
  lemma Undisputed(h: Host, p: nat, late: bool, q: nat)
    requires LockInv(h) && InsideInv(h) && MakerInv(h) && Alive(h, p) && Allowed(h, p, ALL)
    requires Next(h, p, late).mirror != h.mirror && q in h.procs && q != p
    ensures !Inside(h.procs[q].pc) && !h.procs[q].pc.Reclaim?
  {
    assert Sees(h, p) && Sees(h, q);
  }

  lemma MoverSees(h: Host, p: nat, late: bool)
    requires LockInv(h) && InsideInv(h) && MakerInv(h) && Alive(h, p) && Allowed(h, p, ALL)
    ensures Sees(Next(h, p, late), p)
  {
    assert Sees(h, p);
    if h.procs[p].pc.Check? && !MirrorHeld(h) && h.mirror.Dir? {
      LookIsRight(h, p);
    }
  }

  lemma OtherSees(h: Host, p: nat, late: bool, q: nat)
    requires LockInv(h) && InsideInv(h) && MakerInv(h) && Alive(h, p) && Allowed(h, p, ALL)
    requires q in h.procs && q != p
    ensures Sees(Next(h, p, late), q)
  {
    var h' := Next(h, p, late);
    assert Sees(h, q) && h'.procs[q] == h.procs[q];
    assert h'.procs[p].born == h.procs[p].born;
    if h'.mirror != h.mirror {
      Undisputed(h, p, late, q);
    }
  }

  lemma MakerMoves(h: Host, p: nat, late: bool)
    requires LockInv(h) && InsideInv(h) && MakerInv(h) && Alive(h, p)
    ensures MakerInv(Next(h, p, late))
  {
    assert Sees(h, p);
    NextKeepsPids(h, p, late);
  }

  lemma TogetherKill(h: Host, p: nat)
    requires LockInv(h) && InsideInv(h) && MakerInv(h) && Alive(h, p)
    ensures InsideInv(Killed(h, p)) && MakerInv(Killed(h, p))
  {
    forall q | q in Killed(h, p).procs
      ensures Sees(Killed(h, p), q)
    {
      assert Sees(h, q);
    }
  }

  lemma TogetherSpawn(h: Host, p: nat, pc: Pc)
    requires LockInv(h) && InsideInv(h) && MakerInv(h) && !Alive(h, p) && (pc == TryLock || pc == OldMkDir)
    ensures InsideInv(Spawned(h, p, pc)) && MakerInv(Spawned(h, p, pc))
  {
    var h' := Spawned(h, p, pc);
    forall q | q in h'.procs
      ensures Sees(h', q)
    {
      assert q == p || Sees(h, q);
    }
  }

  lemma TogetherAge(h: Host)
    requires InsideInv(h) && MakerInv(h) && MayAge(h, ALL)
    ensures InsideInv(h.(mirror := h.mirror.(young := false))) && MakerInv(h.(mirror := h.mirror.(young := false)))
  {
    var h' := h.(mirror := h.mirror.(young := false));
    forall q | q in h'.procs
      ensures Sees(h', q)
    {
      assert Sees(h, q);
    }
  }

  lemma TogetherMove(h: Host, p: nat, late: bool)
    requires LockInv(h) && InsideInv(h) && MakerInv(h) && Alive(h, p) && Allowed(h, p, ALL)
    ensures InsideInv(Next(h, p, late)) && MakerInv(Next(h, p, late))
  {
    var h' := Next(h, p, late);
    NextKeepsPids(h, p, late);
    MoverSees(h, p, late);
    forall q | q in h'.procs
      ensures Sees(h', q)
    {
      if q != p {
        OtherSees(h, p, late, q);
      }
    }
    MakerMoves(h, p, late);
  }

  lemma TogetherStep(h: Host, h': Host)
    requires LockInv(h) && InsideInv(h) && MakerInv(h) && Step(h, h', ALL)
    ensures InsideInv(h') && MakerInv(h')
  {
    if p, late :| Alive(h, p) && Allowed(h, p, ALL) && h' == Next(h, p, late) {
      TogetherMove(h, p, late);
    } else if p :| Alive(h, p) && h' == Killed(h, p) {
      TogetherKill(h, p);
    } else if p :| !Alive(h, p) && (h' == Spawned(h, p, TryLock) || h' == Spawned(h, p, OldMkDir)) {
      TogetherSpawn(h, p, if h' == Spawned(h, p, TryLock) then TryLock else OldMkDir);
    } else {
      TogetherAge(h);
    }
  }

  lemma {:induction false} TogetherRun(hs: seq<Host>, k: nat)
    requires Run(hs, ALL) && k < |hs|
    ensures LockInv(hs[k]) && InsideInv(hs[k]) && MakerInv(hs[k])
    decreases k
  {
    LockRun(hs, k, ALL);
    if k > 0 {
      TogetherRun(hs, k - 1);
      assert Step(hs[k - 1], hs[k - 1 + 1], ALL);
      TogetherStep(hs[k - 1], hs[k]);
    }
  }

  predicate RunsCommand(pc: Pc) {
    pc.Running? || pc.OldRunning?
  }

  /** Two processes, of either style, run their command at once. */
  ghost predicate Overlap(h: Host) {
    exists p, q :: p != q && p in h.procs && q in h.procs && RunsCommand(h.procs[p].pc) && RunsCommand(h.procs[q].pc)
  }

  /** With all three guarantees, nothing ever overlaps. */
  lemma NeverTogether(hs: seq<Host>, k: nat)
    requires Run(hs, ALL) && k < |hs|
    ensures !Overlap(hs[k])
  {
    TogetherRun(hs, k);
    forall p, q | p in hs[k].procs && q in hs[k].procs && RunsCommand(hs[k].procs[p].pc) && RunsCommand(hs[k].procs[q].pc)
      ensures p == q
    {
      assert Sees(hs[k], p) && Sees(hs[k], q);
    }
  }
}
