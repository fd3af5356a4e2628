/**
 What every step of the sync32 protocol keeps.

 The reclamation argument is phrased over allocations, not over times: a reader is
 `Clear` of a parked group when nothing in the tree it sampled is parked there. The
 writer frees a group only after every reader is clear of it, and how each of its
 three counter scans establishes that is spelled out per scan position, because
 readers pin and unpin between any two of the writer's counter loads.
 */
module Sync32Inv {
  import opened Options
  import opened Sync32Tree
  import opened Sync32

  /** `x` is parked in one of the groups `p`. */
  ghost predicate Parked(p: seq<set<nat>>, x: nat) {
    exists j :: 0 <= j < |p| && x in p[j]
  }

  ghost predicate Clear(r: Reader, p: seq<set<nat>>) {
    InWalk(r.ph) ==> forall x :: x in r.mem.cells ==> !Parked(p, x)
  }

  /** Reader `j` may still be in the walk it was in when its counter was recorded. */
  predicate SameWalk(s: State, j: nat)
    requires j < |s.readers| && j < |s.snap|
  {
    Odd(s.snap[j]) && s.readers[j].ctr == s.snap[j]
  }

  // ---------------------------------------------------------------- readers

  /** What holds of a reader however long its walk has lasted. */
  ghost predicate ReaderInv(s: State, r: Reader) {
    && r.ctr < WORD
    && (Odd(r.ctr) <==> !r.ph.Outside?)
    && (r.ph.Pinned? ==> r.ph.req == r.req)
    && (InWalk(r.ph) ==>
          && r.at <= s.ver
          && r.at % 2 == 0
          && Represents(r.mem, r.map_)
          && (s.ver == r.at ==> r.mem == s.mem && r.map_ == s.m)
          && (forall x :: x in r.mem.cells ==> x in s.mem.cells || Parked(s.pending, x)))
  }

  /** The walk goes on as it would alone on the memory it sampled; a word loaded since
      then is still to be validated. */
  ghost predicate Tracks(s: State, r: Reader) {
    InWalk(r.ph) ==> (Validates(r.ph) && s.ver != r.at) || OnTrack(r.mem, r.req, r.ph)
  }

  // ---------------------------------------------------------------- memory

  /** The free list and the empty slots of the table name each other. */
  ghost predicate FreeIsEmpty(table: seq<Slot>, free: seq<nat>) {
    && (forall j :: 0 <= j < |free| ==> free[j] < |table| && table[free[j]].Empty?)
    && (forall j, k :: 0 <= j < k < |free| ==> free[j] != free[k])
    && (forall h :: 0 <= h < |table| && table[h].Empty? ==> h in free)
  }

  ghost predicate ArenaInv(s: State) {
    && s.pendingCap == |s.mem.table| + 2 * HEADROOM
    && |s.pending| <= s.pendingCap
    && FreeIsEmpty(s.mem.table, s.free)
    && (forall x :: x in s.mem.cells ==> x < s.next && !Parked(s.pending, x))
    && (forall x: nat :: Parked(s.pending, x) ==> x < s.next)
  }

  // ---------------------------------------------------------------- reclamation

  /** The sealed prefix: every reader not in its recorded walk is clear of it. */
  ghost predicate SealedInv(s: State) {
    && |s.snap| == |s.readers|
    && s.sealed <= |s.pending|
    && (s.sealed > 0 ==>
          forall j :: 0 <= j < |s.readers| ==> SameWalk(s, j) || Clear(s.readers[j], s.pending[..s.sealed]))
  }

  /** What the counter loads made so far have established. */
  ghost predicate ScanInv(s: State)
    requires SealedInv(s)
  {
    match s.pc
    case Scan(_, _, i) =>
      s.pending != [] && i <= |s.readers| && forall j :: 0 <= j < i ==> Clear(s.readers[j], s.pending)
    case Grace(_, _, i) =>
      && s.sealed > 0 && i <= |s.readers|
      && forall j :: 0 <= j < i ==> Clear(s.readers[j], s.pending[..s.sealed])
    case Seal(_, _, i) =>
      && s.sealed == 0 && i <= |s.readers|
      && forall j :: 0 <= j < i ==> SameWalk(s, j) || Clear(s.readers[j], s.pending)
    case _ => true
  }

  // ---------------------------------------------------------------- the writer

  /** What an operation does to a map, and what it answers, when it is not refused. */
  function Meaning(op: Op, m: map<nat, nat>): (map<nat, nat>, Result)
    requires !op.Reclaim?
  {
    var seen := Lookup(m, op.key);
    match op
    case Insert(k, v) => (m[k := v], Previous(seen))
    case Remove(k) => (m - {k}, Previous(seen))
    case CompareExchange(k, expected, n) =>
      if seen == expected then (Put(m, k, n), Previous(seen)) else (m, Mismatch(seen))
    case Update(k, f) => (Put(m, k, f(seen)), Previous(seen))
    case GetOrInsert(k, v) => if seen.Some? then (m, Previous(seen)) else (m[k := v], Previous(None))
  }

  /** Nothing but the pending list has changed since the operation started. */
  predicate Untouched(s: State) {
    s.m == s.before.m && s.mem == s.before.mem && s.free == s.before.free && s.ver == s.before.ver
  }

  predicate Refusal(res: Result) {
    res.ArenaFull? || res.ReclaimBacklog?
  }

  ghost predicate Fulfilled(s: State, op: Op, res: Result) {
    && !op.Reclaim?
    && !res.Reclaimed?
    && !Refusal(res)
    && (s.m, res) == Meaning(op, s.before.m)
    && (s.ver == s.before.ver || s.ver == s.before.ver + 2)
    && (s.ver == s.before.ver ==> Untouched(s))
  }

  /** What the operation's answer commits to. */
  ghost predicate Committed(s: State, op: Op, res: Result) {
    && (Refusal(res) ==> Untouched(s))
    && (res.ReclaimBacklog? ==> s.sawInside)
    && (res.Reclaimed? ==> op.Reclaim? && Untouched(s))
    && (!Refusal(res) && !res.Reclaimed? ==> Fulfilled(s, op, res))
  }

  /** A mutation still on its way to the bracket. */
  ghost predicate OnTheWay(s: State, op: Op) {
    && !op.Reclaim?
    && Untouched(s)
    && (op.CompareExchange? ==> Lookup(s.m, op.key) == op.expected && op.new_ != op.expected)
    && (op.GetOrInsert? ==> op.key !in s.m)
  }

  ghost predicate WhoInv(s: State, op: Op, who: Caller) {
    match who
    case FromHeadroom => OnTheWay(s, op)
    case FromWrite(res) => Fulfilled(s, op, res)
    case FromUser => op.Reclaim? && Untouched(s)
  }

  ghost predicate PcInv(s: State) {
    match s.pc
    case Idle => true
    case Start(op) => Untouched(s)
    case Headroom(op, retried) => OnTheWay(s, op) && (retried ==> s.sawInside || Spare(s) >= HEADROOM)
    case Room(op) => OnTheWay(s, op) && Spare(s) >= HEADROOM
    case Decide(op) => OnTheWay(s, op) && Spare(s) >= HEADROOM && |s.free| >= HEADROOM
    case Bracket(op, res, allocs, retires, rootOut, lenOut) =>
      && !op.Reclaim?
      && s.m == s.before.m
      && s.ver == s.before.ver + 1
      && (Target(op, s.m), res) == Meaning(op, s.m)
      && res.Previous?
      && allocs <= HEADROOM && retires <= HEADROOM
      && |s.free| + allocs >= HEADROOM
      && Spare(s) + retires >= HEADROOM
      && (lenOut ==> rootOut)
      && (rootOut ==> s.mem.root == s.root)
    case AfterWrite(op, res) => Fulfilled(s, op, res)
    case Scan(op, who, _) => WhoInv(s, op, who)
    case Grace(op, who, _) => WhoInv(s, op, who) && s.sawInside
    case Seal(op, who, _) => WhoInv(s, op, who) && s.sawInside
    case EndReclaim(op, who) => WhoInv(s, op, who) && (s.sawInside || s.pending == [])
    case Return(op, res) => Committed(s, op, res)
    case Panic => false
  }

  ghost predicate WriterInv(s: State) {
    && (Odd(s.ver) <==> s.pc.Bracket?)
    && (!s.pc.Bracket? ==> Represents(s.mem, s.m) && s.root == s.mem.root)
    && PcInv(s)
  }

  ghost predicate Inv(s: State) {
    && WriterInv(s)
    && ArenaInv(s)
    && SealedInv(s)
    && ScanInv(s)
    && (forall i :: 0 <= i < |s.readers| ==> ReaderInv(s, s.readers[i]))
  }

  // ---------------------------------------------------------------- the start

  lemma EmptyRepresents(cap: nat)
    ensures Represents(EmptyMem(cap), map[])
  {
    var mem := EmptyMem(cap);
    forall req: Request
      ensures Finish(mem, Sampled(req)) == Answered(map[], req)
    {
      var ph1 := Solo(mem, Sampled(req));
      var ph2 := Solo(mem, ph1);
      assert Finish(mem, Sampled(req)) == Finish(mem, ph1) == Finish(mem, ph2);
      assert ph2 == Done(Answered(map[], req));
    }
  }

  lemma InitialInv(cap: nat, readers: nat)
    requires cap >= HEADROOM
    ensures Inv(Initial(cap, readers))
  {
    EmptyRepresents(cap);
    var s := Initial(cap, readers);
    forall h | 0 <= h < |s.mem.table| && s.mem.table[h].Empty?
      ensures h in s.free
    {
      assert s.free[cap - 1 - h] == h;
    }
  }

  // ---------------------------------------------------------------- reader steps

  lemma ReaderKeeps(s: State, s': State, i: nat)
    requires Inv(s) && ReaderStep(s, s', i)
    ensures Inv(s')
  {
    ReaderMoves(s, s.readers[i], s'.readers[i]);
    ReaderKeepsReaders(s, s', i);
    ReaderKeepsScan(s, s', i);
    assert WriterInv(s') by { ReaderKeepsWriter(s, s'); }
  }

  lemma ReaderKeepsWriter(s: State, s': State)
    requires WriterInv(s) && s' == s.(readers := s'.readers)
    ensures WriterInv(s')
  {
  }

  lemma ReaderKeepsReaders(s: State, s': State, i: nat)
    requires Inv(s) && i < |s.readers| && i < |s'.readers|
    requires s' == s.(readers := s.readers[i := s'.readers[i]])
    requires ReaderInv(s, s'.readers[i])
    ensures forall j :: 0 <= j < |s'.readers| ==> ReaderInv(s', s'.readers[j])
  {
    forall j | 0 <= j < |s'.readers|
      ensures ReaderInv(s', s'.readers[j])
    {
      assert ReaderInv(s, s'.readers[j]);
    }
  }

  lemma ReaderKeepsScan(s: State, s': State, i: nat)
    requires SealedInv(s) && ScanInv(s) && i < |s.readers| && i < |s'.readers|
    requires s' == s.(readers := s.readers[i := s'.readers[i]])
    requires var r, r' := s.readers[i], s'.readers[i];
             Clear(r', s.pending) || (InWalk(r.ph) && r'.mem == r.mem && r'.ctr == r.ctr)
    ensures SealedInv(s') && ScanInv(s')
  {
    forall j | 0 <= j < |s'.readers|
      ensures Clear(s.readers[j], s.pending) ==> Clear(s'.readers[j], s.pending)
      ensures Clear(s.readers[j], s.pending[..s.sealed]) ==> Clear(s'.readers[j], s.pending[..s.sealed])
      ensures SameWalk(s, j) ==>
                SameWalk(s', j) || (Clear(s'.readers[j], s.pending) && Clear(s'.readers[j], s.pending[..s.sealed]))
    {
      PrefixClear(s'.readers[j], s.pending, s.sealed);
    }
  }

  lemma PrefixClear(r: Reader, p: seq<set<nat>>, n: nat)
    requires n <= |p|
    ensures Clear(r, p) ==> Clear(r, p[..n])
  {
    forall x | Parked(p[..n], x)
      ensures Parked(p, x)
    {
      var j :| 0 <= j < n && x in p[..n][j];
      assert x in p[j];
    }
  }

  /** One reader step keeps that reader's invariant, and either the reader is still
      in the same walk over the same sample, or it is clear of everything parked:
      a walk that starts now samples a tree in which nothing parked occurs. */
  lemma ReaderMoves(s: State, r: Reader, r': Reader)
    requires WriterInv(s) && ArenaInv(s) && ReaderInv(s, r)
    requires Pin(r, r') || Sample(s, r, r') || RacyLoad(s, r, r') || Check(s, r, r') || Unpin(r, r')
    ensures ReaderInv(s, r')
    ensures Clear(r', s.pending) || (InWalk(r.ph) && r'.mem == r.mem && r'.ctr == r.ctr)
  {
    if RacyLoad(s, r, r') || Check(s, r, r') {
      WalkMoves(s, r, r');
    } else if Sample(s, r, r') {
      SampleMoves(s, r, r');
    }
  }

  lemma WalkMoves(s: State, r: Reader, r': Reader)
    requires ReaderInv(s, r) && (RacyLoad(s, r, r') || Check(s, r, r'))
    ensures ReaderInv(s, r') && InWalk(r.ph) && r'.mem == r.mem && r'.ctr == r.ctr
  {
  }

  lemma SampleMoves(s: State, r: Reader, r': Reader)
    requires WriterInv(s) && ArenaInv(s) && ReaderInv(s, r) && Sample(s, r, r')
    ensures ReaderInv(s, r') && Clear(r', s.pending)
  {
  }

  /** A validation that the version has outrun, by a multiple of 2^32, and that passes. */
  predicate Missed(s: State, r: Reader) {
    Validates(r.ph) && s.ver != r.at && SameVersion(s.ver, r.at)
  }

  /** A reader's own step keeps its walk on track unless it is a validation of that kind. */
  lemma StepTracks(s: State, r: Reader, r': Reader)
    requires ReaderInv(s, r) && Tracks(s, r)
    requires Pin(r, r') || Sample(s, r, r') || RacyLoad(s, r, r') || Check(s, r, r') || Unpin(r, r')
    requires r'.ph != r.ph ==> !Missed(s, r)
    ensures Tracks(s, r')
  {
    if (Loads(r.ph) || Validates(r.ph)) && OnTrack(r.mem, r.req, r.ph) {
      SoloOnTrack(r.mem, r.req, r.ph);
    }
  }

  /** The writer's steps and the other readers' only ever move the version on. */
  lemma OthersTrack(s: State, s': State, r: Reader)
    requires ReaderInv(s, r) && Tracks(s, r) && s.ver <= s'.ver
    ensures Tracks(s', r)
  {
  }

  // ---------------------------------------------------------------- writer steps outside the bracket

  lemma BeginKeeps(s: State, s': State)
    requires Inv(s) && Begin(s, s')
    ensures Inv(s')
  {
    ReadersCarryOver(s, s');
  }

  /** Readers see nothing of a step that leaves memory, map, version and the parked
      groups alone. */
  lemma ReadersCarryOver(s: State, s': State)
    requires s'.readers == s.readers && s'.ver == s.ver && s'.m == s.m && s'.mem == s.mem && s'.pending == s.pending
    requires forall i :: 0 <= i < |s.readers| ==> ReaderInv(s, s.readers[i])
    ensures forall i :: 0 <= i < |s'.readers| ==> ReaderInv(s', s'.readers[i])
  {
    forall i | 0 <= i < |s'.readers|
      ensures ReaderInv(s', s'.readers[i])
    {
      assert ReaderInv(s, s.readers[i]);
    }
  }

  /** Freeing the first `n` groups is safe once every reader is clear of them. */
  lemma DrainKeepsReaders(s: State, s': State, n: nat)
    requires n <= |s.pending| && s'.pending == s.pending[n..]
    requires s'.readers == s.readers && s'.ver == s.ver && s'.m == s.m && s'.mem == s.mem
    requires forall i :: 0 <= i < |s.readers| ==> ReaderInv(s, s.readers[i]) && Clear(s.readers[i], s.pending[..n])
    ensures forall i :: 0 <= i < |s'.readers| ==> ReaderInv(s', s'.readers[i])
  {
    forall x | Parked(s.pending, x)
      ensures Parked(s.pending[..n], x) || Parked(s'.pending, x)
    {
      var j :| 0 <= j < |s.pending| && x in s.pending[j];
      if j < n {
        assert x in s.pending[..n][j];
      } else {
        assert x in s'.pending[j - n];
      }
    }
    forall i | 0 <= i < |s'.readers|
      ensures ReaderInv(s', s'.readers[i])
    {
      var r := s.readers[i];
      assert ReaderInv(s, r) && Clear(r, s.pending[..n]);
    }
  }

  lemma DrainKeepsArena(s: State, s': State, n: nat)
    requires ArenaInv(s) && n <= |s.pending| && s'.pending == s.pending[n..]
    requires s'.mem == s.mem && s'.free == s.free && s'.next == s.next && s'.pendingCap == s.pendingCap
    ensures ArenaInv(s')
  {
    forall x: nat | Parked(s'.pending, x)
      ensures Parked(s.pending, x)
    {
      var j :| 0 <= j < |s'.pending| && x in s'.pending[j];
      assert x in s.pending[j + n];
    }
  }

  lemma EnterKeeps(s: State, op: Op, who: Caller)
    requires Inv(s) && !s.pc.Bracket? && WhoInv(s, op, who)
    ensures Inv(EnterReclaim(s, op, who))
  {
    if s.pending == [] {
      EnterEmpty(s, op, who);
    } else {
      PcMoves(s, s.(pc := Scan(op, who, 0)));
    }
  }

  lemma EnterEmpty(s: State, op: Op, who: Caller)
    requires Inv(s) && !s.pc.Bracket? && WhoInv(s, op, who) && s.pending == []
    ensures Inv(s.(sealed := 0, pc := EndReclaim(op, who)))
  {
    ReadersCarryOver(s, s.(sealed := 0, pc := EndReclaim(op, who)));
  }

  lemma ScanKeeps(s: State)
    requires Inv(s) && s.pc.Scan?
    ensures Inv(WriterNext(s))
  {
    if s.pc.i >= |s.readers| {
      ScanDrains(s);
    } else if Odd(s.readers[s.pc.i].ctr) {
      ReadersCarryOver(s, WriterNext(s));
    } else {
      ScanPasses(s);
    }
  }

  /** Every reader was seen outside a walk: everything parked is freed. */
  lemma ScanDrains(s: State)
    requires Inv(s) && s.pc.Scan? && s.pc.i >= |s.readers|
    ensures Inv(WriterNext(s))
  {
    var s' := WriterNext(s);
    assert s.pending[..|s.pending|] == s.pending && s.pending[|s.pending|..] == [];
    DrainKeepsReaders(s, s', |s.pending|);
    DrainKeepsArena(s, s', |s.pending|);
  }

  lemma ScanPasses(s: State)
    requires Inv(s) && s.pc.Scan? && s.pc.i < |s.readers| && !Odd(s.readers[s.pc.i].ctr)
    ensures Inv(WriterNext(s))
  {
    OutsideIsClear(s, s.readers[s.pc.i], s.pending);
    ScanAdvances(s, WriterNext(s));
    PcMoves(s, WriterNext(s));
  }

  /** One more reader is clear of what this scan is about. */
  lemma ScanAdvances(s: State, s': State)
    requires SealedInv(s) && ScanInv(s) && s' == s.(pc := s'.pc)
    requires s.pc.Scan? || s.pc.Grace?
    requires s.pc.i < |s.readers|
    requires s.pc.Scan? ==> Clear(s.readers[s.pc.i], s.pending) && s'.pc == Scan(s.pc.op, s.pc.who, s.pc.i + 1)
    requires s.pc.Grace? ==> Clear(s.readers[s.pc.i], s.pending[..s.sealed]) && s'.pc == Grace(s.pc.op, s.pc.who, s.pc.i + 1)
    ensures SealedInv(s') && ScanInv(s')
  {
  }

  lemma OutsideIsClear(s: State, r: Reader, p: seq<set<nat>>)
    requires ReaderInv(s, r) && !Odd(r.ctr)
    ensures Clear(r, p)
  {
  }

  /** A step that moves only the program counter keeps what the counter does not speak of. */
  lemma PcMoves(s: State, s': State)
    requires Inv(s) && s' == s.(pc := s'.pc) && !s.pc.Bracket? && !s'.pc.Bracket?
    requires PcInv(s') && SealedInv(s') && ScanInv(s')
    ensures Inv(s')
  {
    ReadersCarryOver(s, s');
  }

  lemma GraceKeeps(s: State)
    requires Inv(s) && s.pc.Grace?
    ensures Inv(WriterNext(s))
  {
    if s.pc.i >= |s.readers| {
      GraceDrains(s);
    } else if SameWalk(s, s.pc.i) {
      PcMoves(s, WriterNext(s));
    } else {
      GracePasses(s);
    }
  }

  /** A reader that has left its recorded walk is clear of the sealed prefix. */
  lemma GracePasses(s: State)
    requires Inv(s) && s.pc.Grace? && s.pc.i < |s.readers| && !SameWalk(s, s.pc.i)
    ensures Inv(WriterNext(s))
  {
    assert Clear(s.readers[s.pc.i], s.pending[..s.sealed]);
    ScanAdvances(s, WriterNext(s));
    PcMoves(s, WriterNext(s));
  }

  /** Every reader has left its recorded walk: the sealed prefix is freed. */
  lemma GraceDrains(s: State)
    requires Inv(s) && s.pc.Grace? && s.pc.i >= |s.readers|
    ensures Inv(WriterNext(s))
  {
    var s' := WriterNext(s);
    assert s'.pending == s.pending[s.sealed..];
    DrainKeepsReaders(s, s', s.sealed);
    DrainKeepsArena(s, s', s.sealed);
  }

  lemma SealKeeps(s: State)
    requires Inv(s) && s.pc.Seal?
    ensures Inv(WriterNext(s))
  {
    var s' := WriterNext(s);
    ReadersCarryOver(s, s');
    if s.pc.i >= |s.readers| {
      assert s.pending[..|s.pending|] == s.pending;
    } else {
      assert ReaderInv(s, s.readers[s.pc.i]);
    }
  }

  lemma PutSame(m: map<nat, nat>, k: nat)
    ensures Put(m, k, Lookup(m, k)) == m
  {
  }

  /** Writer steps that only move the program counter. */
  lemma MoveKeeps(s: State, s': State)
    requires Inv(s) && !s.pc.Bracket? && s' == s.(pc := s'.pc)
    requires !s'.pc.Bracket? && !s'.pc.Scan? && !s'.pc.Grace? && !s'.pc.Seal? && PcInv(s')
    ensures Inv(s')
  {
    PcMoves(s, s');
  }

  lemma StartKeeps(s: State)
    requires Inv(s) && s.pc.Start?
    ensures Inv(WriterNext(s))
  {
    var op := s.pc.op;
    if op.Reclaim? {
      EnterKeeps(s, op, FromUser);
    } else {
      PutSame(s.m, op.key);
      MoveKeeps(s, WriterNext(s));
    }
  }

  lemma HeadroomKeeps(s: State)
    requires Inv(s) && (s.pc.Headroom? || s.pc.Room?)
    ensures Inv(WriterNext(s))
  {
    if s.pc.Headroom? && Spare(s) < HEADROOM && !s.pc.retried {
      EnterKeeps(s, s.pc.op, FromHeadroom);
    } else {
      MoveKeeps(s, WriterNext(s));
    }
  }

  lemma EndKeeps(s: State)
    requires Inv(s) && (s.pc.AfterWrite? || s.pc.EndReclaim? || s.pc.Return?)
    ensures Inv(WriterNext(s))
  {
    if s.pc.AfterWrite? && |s.pending| > 0 {
      EnterKeeps(s, s.pc.op, FromWrite(s.pc.res));
    } else {
      MoveKeeps(s, WriterNext(s));
    }
  }

  /** Opening the bracket: from here to the close no walk's sample is current. */
  lemma DecideKeeps(s: State)
    requires Inv(s) && s.pc.Decide?
    ensures Inv(WriterNext(s))
  {
    var s' := WriterNext(s);
    PutSame(s.m, s.pc.op.key);
    if s'.pc.Bracket? {
      forall i | 0 <= i < |s'.readers|
        ensures ReaderInv(s', s'.readers[i])
      {
        assert ReaderInv(s, s.readers[i]);
      }
    } else {
      assert s.pc.op.Insert? ==> s.m[s.pc.op.key := s.pc.op.val] == s.m;
      MoveKeeps(s, s');
    }
  }

  // ---------------------------------------------------------------- writer steps inside the bracket

  lemma PublishKeeps(s: State, s': State)
    requires Inv(s) && Publish(s, s')
    ensures Inv(s')
  {
    PublishKeepsReaders(s, s');
    PublishKeepsRest(s, s');
    if s.pc.lenOut {
      CloseKeepsWriter(s, s');
    } else {
      StoreKeepsWriter(s, s');
    }
  }

  /** The root and the length go out while the bracket is open. */
  lemma StoreKeepsWriter(s: State, s': State)
    requires WriterInv(s) && Publish(s, s') && !s.pc.lenOut
    ensures WriterInv(s')
  {
  }

  /** The bracket closes on the operation's target. */
  lemma CloseKeepsWriter(s: State, s': State)
    requires WriterInv(s) && Publish(s, s') && s.pc.lenOut
    ensures WriterInv(s')
  {
  }

  lemma PublishKeepsRest(s: State, s': State)
    requires ArenaInv(s) && SealedInv(s) && Publish(s, s')
    ensures ArenaInv(s') && SealedInv(s') && ScanInv(s')
  {
  }

  lemma PublishKeepsReaders(s: State, s': State)
    requires Inv(s) && Publish(s, s')
    ensures forall i :: 0 <= i < |s'.readers| ==> ReaderInv(s', s'.readers[i])
  {
    forall i | 0 <= i < |s'.readers|
      ensures ReaderInv(s', s'.readers[i])
    {
      assert ReaderInv(s, s.readers[i]);
    }
  }

  /** Parking a group behind the others keeps every sealed prefix as it was. */
  lemma ParkedAppend(p: seq<set<nat>>, g: set<nat>, x: nat)
    ensures Parked(p + [g], x) <==> Parked(p, x) || x in g
  {
    if Parked(p, x) {
      var j :| 0 <= j < |p| && x in p[j];
      assert x in (p + [g])[j];
    }
    if x in g {
      assert x in (p + [g])[|p|];
    }
  }

  lemma EditKeepsReaders(s: State, s': State, e: Edit)
    requires Inv(s) && MayEdit(s, e) && s' == Edited(s, e) && !s'.pc.Panic?
    ensures forall i :: 0 <= i < |s'.readers| ==> ReaderInv(s', s'.readers[i])
  {
    forall i | 0 <= i < |s'.readers|
      ensures ReaderInv(s', s'.readers[i])
    {
      var r := s.readers[i];
      assert ReaderInv(s, r);
      if InWalk(r.ph) {
        forall x | x in r.mem.cells
          ensures x in s'.mem.cells || Parked(s'.pending, x)
        {
          if e.FreeNode? || e.RetireSub? {
            ParkedAppend(s.pending, e.ids, x);
          }
        }
      }
    }
  }

  lemma TakeKeepsFree(table: seq<Slot>, free: seq<nat>, slot: Slot)
    requires FreeIsEmpty(table, free) && free != [] && slot.Full?
    ensures FreeIsEmpty(table[free[|free| - 1] := slot], free[..|free| - 1])
  {
    var table', free' := table[free[|free| - 1] := slot], free[..|free| - 1];
    forall h | 0 <= h < |table'| && table'[h].Empty?
      ensures h in free'
    {
      var j :| 0 <= j < |free| && free[j] == h;
      assert free'[j] == h;
    }
  }

  lemma PutKeepsFree(table: seq<Slot>, free: seq<nat>, h: nat)
    requires FreeIsEmpty(table, free) && h < |table| && table[h].Full?
    ensures FreeIsEmpty(table[h := Empty], free + [h])
  {
    assert (free + [h])[|free|] == h;
    assert forall j :: 0 <= j < |free| ==> free[j] != h;
    assert forall g :: g in free ==> g in free + [h];
  }

  lemma EditKeepsHandles(s: State, s': State, e: Edit)
    requires FreeIsEmpty(s.mem.table, s.free) && MayEdit(s, e) && s' == Edited(s, e) && !s'.pc.Panic?
    ensures FreeIsEmpty(s'.mem.table, s'.free)
  {
    if e.AllocNode? {
      TakeKeepsFree(s.mem.table, s.free, Full(e.kind, s.next));
    } else if e.FreeNode? {
      PutKeepsFree(s.mem.table, s.free, e.handle);
    }
  }

  lemma EditKeepsParked(s: State, s': State, e: Edit)
    requires ArenaInv(s) && MayEdit(s, e) && s' == Edited(s, e) && !s'.pc.Panic?
    ensures forall x :: x in s'.mem.cells ==> x < s'.next && !Parked(s'.pending, x)
    ensures forall x: nat :: Parked(s'.pending, x) ==> x < s'.next
  {
    if e.FreeNode? || e.RetireSub? {
      forall x: nat
        ensures Parked(s'.pending, x) <==> Parked(s.pending, x) || x in e.ids
      {
        ParkedAppend(s.pending, e.ids, x);
      }
    }
  }

  lemma EditKeepsArena(s: State, s': State, e: Edit)
    requires ArenaInv(s) && MayEdit(s, e) && s' == Edited(s, e) && !s'.pc.Panic?
    ensures ArenaInv(s')
  {
    EditKeepsHandles(s, s', e);
    EditKeepsParked(s, s', e);
  }

  lemma EditKeepsSealed(s: State, s': State, e: Edit)
    requires SealedInv(s) && MayEdit(s, e) && s' == Edited(s, e) && !s'.pc.Panic?
    ensures SealedInv(s')
  {
    assert s.sealed <= |s'.pending| && s'.pending[..s.sealed] == s.pending[..s.sealed];
  }

  /** The headroom found before the bracket opened covers every edit inside it. */
  lemma EditFits(s: State, e: Edit)
    requires Inv(s) && MayEdit(s, e)
    ensures !Edited(s, e).pc.Panic?
  {
  }

  lemma EditKeeps(s: State, s': State, e: Edit)
    requires Inv(s) && MayEdit(s, e) && s' == Edited(s, e)
    ensures Inv(s')
  {
    EditFits(s, e);
    EditKeepsReaders(s, s', e);
    EditKeepsArena(s, s', e);
    EditKeepsSealed(s, s', e);
  }

  // ---------------------------------------------------------------- every step, every run

  lemma WriterKeeps(s: State)
    requires Inv(s) && !s.pc.Idle? && !s.pc.Bracket? && !s.pc.Panic?
    ensures Inv(WriterNext(s))
  {
    match s.pc
    case Start(_) => StartKeeps(s);
    case Headroom(_, _) => HeadroomKeeps(s);
    case Room(_) => HeadroomKeeps(s);
    case Decide(_) => DecideKeeps(s);
    case Scan(_, _, _) => ScanKeeps(s);
    case Grace(_, _, _) => GraceKeeps(s);
    case Seal(_, _, _) => SealKeeps(s);
    case _ => EndKeeps(s);
  }

  lemma StepKeeps(s: State, s': State)
    requires Inv(s) && Step(s, s')
    ensures Inv(s')
  {
    if WriterStep(s, s') {
      if Begin(s, s') {
        BeginKeeps(s, s');
      } else if EngineEdit(s, s') {
        var e: Edit :| MayEdit(s, e) && s' == Edited(s, e);
        EditKeeps(s, s', e);
      } else if Publish(s, s') {
        PublishKeeps(s, s');
      } else {
        WriterKeeps(s);
      }
    } else {
      var i: nat :| ReaderStep(s, s', i);
      ReaderKeeps(s, s', i);
    }
  }

  /** Every state of every run is sound, however often the version word has wrapped. */
  lemma {:induction false} RunInv(tr: seq<State>, k: nat)
    requires Run(tr) && k < |tr|
    ensures Inv(tr[k])
    decreases k
  {
    if k == 0 {
      var cap: nat, readers: nat :| cap >= HEADROOM && tr[0] == Initial(cap, readers);
      InitialInv(cap, readers);
    } else {
      RunInv(tr, k - 1);
      assert StepsAt(tr, k - 1);
      StepKeeps(tr[k - 1], tr[k]);
    }
  }
}
