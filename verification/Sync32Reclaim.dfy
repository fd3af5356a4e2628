/**
 When parked memory is freed. The writer never waits to see a reader outside a walk; it
 frees a group once each reader has been outside one at some instant since the group was
 parked, seen or not.
 */
module Sync32Reclaim {
  import opened Sync32Tree
  import opened Sync32
  import opened Sync32Inv
  import opened Sync32Theorems

  // ---------------------------------------------------------------- one step

  /** The counters, whatever the version word does. */
  ghost predicate Steady(s: State) {
    && |s.snap| == |s.readers|
    && s.sealed <= |s.pending|
    && (forall j :: 0 <= j < |s.readers| ==> (Odd(s.readers[j].ctr) <==> !s.readers[j].ph.Outside?))
    && (s.pc.Scan? || s.pc.Grace? || s.pc.Seal? ==> s.pc.i <= |s.readers|)
    && (s.pc.Grace? ==> s.sealed > 0)
    && (s.pc.Seal? ==> s.sealed == 0)
  }

  lemma OddFlips(c: nat)
    ensures Odd((c + 1) % WORD) <==> !Odd(c)
  {
  }

  lemma ReaderSteady(s: State, s': State, i: nat)
    requires Steady(s) && ReaderStep(s, s', i)
    ensures Steady(s')
  {
    OddFlips(s.readers[i].ctr);
  }

  /** An edit only ever parks, behind everything parked before. */
  lemma EditParks(s: State, s': State)
    requires EngineEdit(s, s')
    ensures s'.readers == s.readers && s'.snap == s.snap && s'.sealed == s.sealed
    ensures s.pending <= s'.pending && (s'.pc.Bracket? || s'.pc.Panic?)
  {
    var e: Edit :| MayEdit(s, e) && s' == Edited(s, e);
  }

  /** The steps before and after the operation, and the publication. */
  lemma MovesOnly(s: State, s': State)
    requires Begin(s, s') || Publish(s, s')
    ensures s'.readers == s.readers && s'.snap == s.snap && s'.sealed == s.sealed && s'.pending == s.pending
    ensures !Counting(s'.pc)
  {
  }

  /** The writer is loading reader counters. */
  predicate Counting(pc: Pc) {
    pc.Scan? || pc.Grace? || pc.Seal?
  }

  lemma NextSteady(s: State)
    requires Steady(s) && !s.pc.Idle? && !s.pc.Bracket? && !s.pc.Panic?
    ensures Steady(WriterNext(s))
  {
    var s' := WriterNext(s);
    assert s'.readers == s.readers && |s'.snap| == |s.snap|;
  }

  lemma WriterSteady(s: State, s': State)
    requires Steady(s) && WriterStep(s, s')
    ensures Steady(s')
  {
    if EngineEdit(s, s') {
      EditParks(s, s');
    } else if Begin(s, s') || Publish(s, s') {
      MovesOnly(s, s');
    } else {
      NextSteady(s);
    }
  }

  /** What is known of reader `j` and the parked allocation `x`; `seen` stands for: the
      reader has been outside a walk since `x` was parked. */
  ghost predicate Owed(s: State, j: nat, x: nat, seen: bool)
    requires Steady(s) && j < |s.readers|
  {
    && (s.pc.Scan? && j < s.pc.i && Parked(s.pending, x) ==> seen)
    && (s.sealed > 0 && Parked(s.pending[..s.sealed], x) ==> SameWalk(s, j) || seen)
    && (s.pc.Grace? && j < s.pc.i && Parked(s.pending[..s.sealed], x) ==> seen)
    && (s.pc.Seal? && j < s.pc.i && Parked(s.pending, x) ==> SameWalk(s, j) || seen)
  }

  /** `seen'` is what a step makes of `seen`. */
  ghost predicate Carries(s': State, j: nat, x: nat, seen: bool, seen': bool)
    requires j < |s'.readers|
  {
    Parked(s'.pending, x) && (seen || s'.readers[j].ph.Outside?) ==> seen'
  }

  lemma PrefixParked(p: seq<set<nat>>, n: nat, x: nat)
    requires n <= |p|
    ensures Parked(p, x) <==> Parked(p[..n], x) || Parked(p[n..], x)
  {
    if Parked(p, x) {
      var j :| 0 <= j < |p| && x in p[j];
      if j < n {
        assert x in p[..n][j];
      } else {
        assert x in p[n..][j - n];
      }
    }
    if Parked(p[..n], x) {
      var j :| 0 <= j < n && x in p[..n][j];
      assert x in p[j];
    }
    if Parked(p[n..], x) {
      var j :| 0 <= j < |p| - n && x in p[n..][j];
      assert x in p[n + j];
    }
  }

  lemma ParkedStays(p: seq<set<nat>>, p': seq<set<nat>>, x: nat)
    requires p <= p' && Parked(p, x)
    ensures Parked(p', x)
  {
    var j :| 0 <= j < |p| && x in p[j];
    assert x in p'[j];
  }

  lemma ReaderOwes(s: State, s': State, i: nat, j: nat, x: nat, seen: bool, seen': bool)
    requires Steady(s) && Steady(s') && ReaderStep(s, s', i) && j < |s.readers|
    requires Owed(s, j, x, seen) && Carries(s', j, x, seen, seen')
    ensures Owed(s', j, x, seen')
  {
    PrefixParked(s.pending, s.sealed, x);
    if j == i {
      OddFlips(s.readers[i].ctr);
    }
  }

  /** Steps that leave the counters, the snapshot and the sealed prefix alone. */
  lemma QuietOwes(s: State, s': State, j: nat, x: nat, seen: bool, seen': bool)
    requires Steady(s) && Steady(s') && j < |s.readers|
    requires s'.readers == s.readers && s'.snap == s.snap && s'.sealed == s.sealed && s.pending <= s'.pending
    requires !Counting(s'.pc)
    requires Owed(s, j, x, seen) && Carries(s', j, x, seen, seen')
    ensures Owed(s', j, x, seen')
  {
    assert s'.pending[..s.sealed] == s.pending[..s.sealed];
    PrefixParked(s'.pending, s.sealed, x);
  }

  lemma ScanOwes(s: State, j: nat, x: nat, seen: bool, seen': bool)
    requires Steady(s) && s.pc.Scan? && j < |s.readers| && Steady(WriterNext(s)) && WriterNext(s).readers == s.readers
    requires Owed(s, j, x, seen) && Carries(WriterNext(s), j, x, seen, seen')
    ensures Owed(WriterNext(s), j, x, seen')
  {
    PrefixParked(s.pending, s.sealed, x);
  }

  lemma GraceOwes(s: State, j: nat, x: nat, seen: bool, seen': bool)
    requires Steady(s) && s.pc.Grace? && j < |s.readers| && Steady(WriterNext(s)) && WriterNext(s).readers == s.readers
    requires Owed(s, j, x, seen) && Carries(WriterNext(s), j, x, seen, seen')
    ensures Owed(WriterNext(s), j, x, seen')
  {
    PrefixParked(s.pending, s.sealed, x);
  }

  lemma SealOwes(s: State, j: nat, x: nat, seen: bool, seen': bool)
    requires Steady(s) && s.pc.Seal? && j < |s.readers| && Steady(WriterNext(s)) && WriterNext(s).readers == s.readers
    requires Owed(s, j, x, seen) && Carries(WriterNext(s), j, x, seen, seen')
    ensures Owed(WriterNext(s), j, x, seen')
  {
    assert s.pending[..|s.pending|] == s.pending;
  }

  lemma RestOwes(s: State, j: nat, x: nat, seen: bool, seen': bool)
    requires Steady(s) && !s.pc.Idle? && !s.pc.Bracket? && !s.pc.Panic? && !Counting(s.pc)
    requires j < |s.readers| && Steady(WriterNext(s)) && WriterNext(s).readers == s.readers
    requires Owed(s, j, x, seen) && Carries(WriterNext(s), j, x, seen, seen')
    ensures Owed(WriterNext(s), j, x, seen')
  {
    RestIs(s);
    PrefixParked(s.pending, s.sealed, x);
  }

  /** Outside the counter loads and the bracket nothing is freed and nothing recorded. */
  lemma RestIs(s: State)
    requires Steady(s) && !s.pc.Idle? && !s.pc.Bracket? && !s.pc.Panic? && !Counting(s.pc)
    ensures var s' := WriterNext(s);
            && s'.readers == s.readers && s'.snap == s.snap && s'.pending == s.pending
            && (s'.sealed == s.sealed || s'.sealed == 0)
            && (Counting(s'.pc) ==> s'.pc.Scan? && s'.pc.i == 0)
  {
  }

  lemma NextOwes(s: State, j: nat, x: nat, seen: bool, seen': bool)
    requires Steady(s) && !s.pc.Idle? && !s.pc.Bracket? && !s.pc.Panic?
    requires j < |s.readers| && Steady(WriterNext(s)) && WriterNext(s).readers == s.readers
    requires Owed(s, j, x, seen) && Carries(WriterNext(s), j, x, seen, seen')
    ensures Owed(WriterNext(s), j, x, seen')
  {
    match s.pc
    case Scan(_, _, _) => ScanOwes(s, j, x, seen, seen');
    case Grace(_, _, _) => GraceOwes(s, j, x, seen, seen');
    case Seal(_, _, _) => SealOwes(s, j, x, seen, seen');
    case _ => RestOwes(s, j, x, seen, seen');
  }

  lemma WriterOwes(s: State, s': State, j: nat, x: nat, seen: bool, seen': bool)
    requires Steady(s) && Steady(s') && WriterStep(s, s') && j < |s.readers| && |s'.readers| == |s.readers|
    requires Owed(s, j, x, seen) && Carries(s', j, x, seen, seen')
    ensures Owed(s', j, x, seen')
  {
    if EngineEdit(s, s') {
      EditParks(s, s');
      QuietOwes(s, s', j, x, seen, seen');
    } else if Begin(s, s') || Publish(s, s') {
      MovesOnly(s, s');
      QuietOwes(s, s', j, x, seen, seen');
    } else {
      WriterKeepsReaders(s, s');
      NextOwes(s, j, x, seen, seen');
    }
  }

  /** What a step frees, every reader has been outside a walk since it was parked. */
  lemma FreedIsPaid(s: State, s': State, j: nat, x: nat, seen: bool)
    requires Steady(s) && Step(s, s') && j < |s.readers| && Owed(s, j, x, seen)
    requires Parked(s.pending, x) && !Parked(s'.pending, x)
    ensures seen
  {
    if WriterStep(s, s') {
      if EngineEdit(s, s') {
        EditParks(s, s');
        ParkedStays(s.pending, s'.pending, x);
      } else if Begin(s, s') || Publish(s, s') {
        MovesOnly(s, s');
      } else {
        PrefixParked(s.pending, s.sealed, x);
      }
    }
  }

  // ---------------------------------------------------------------- every run

  /** Since state `q` the allocation `x` has been parked, and at `q` reader `j` was
      outside any walk. */
  ghost predicate OutsideAt(tr: seq<State>, q: nat, k: nat, j: nat, x: nat) {
    && q <= k < |tr|
    && j < |tr[q].readers| && tr[q].readers[j].ph.Outside?
    && forall m :: q <= m <= k ==> Parked(tr[m].pending, x)
  }

  ghost predicate OutsideSince(tr: seq<State>, k: nat, j: nat, x: nat) {
    exists q :: OutsideAt(tr, q, k, j, x)
  }

  lemma SinceCarries(tr: seq<State>, k: nat, j: nat, x: nat)
    requires 0 < k < |tr| && j < |tr[k].readers|
    ensures Carries(tr[k], j, x, OutsideSince(tr, k - 1, j, x), OutsideSince(tr, k, j, x))
  {
    if Parked(tr[k].pending, x) {
      if OutsideSince(tr, k - 1, j, x) {
        var q :| OutsideAt(tr, q, k - 1, j, x);
        assert OutsideAt(tr, q, k, j, x);
      } else if tr[k].readers[j].ph.Outside? {
        assert OutsideAt(tr, k, k, j, x);
      }
    }
  }

  lemma StepOwes(s: State, s': State, j: nat, x: nat, seen: bool, seen': bool)
    requires Steady(s) && Step(s, s') && j < |s.readers| && |s'.readers| == |s.readers|
    requires Owed(s, j, x, seen) && Carries(s', j, x, seen, seen')
    ensures Steady(s') && Owed(s', j, x, seen')
  {
    if WriterStep(s, s') {
      WriterSteady(s, s');
      WriterOwes(s, s', j, x, seen, seen');
    } else {
      var i: nat :| ReaderStep(s, s', i);
      ReaderSteady(s, s', i);
      ReaderOwes(s, s', i, j, x, seen, seen');
    }
  }

  lemma StartOwes(tr: seq<State>, j: nat, x: nat)
    requires Run(tr) && j < |tr[0].readers|
    ensures Steady(tr[0]) && Owed(tr[0], j, x, OutsideSince(tr, 0, j, x))
  {
  }

  lemma {:induction false} OwedRun(tr: seq<State>, k: nat, j: nat, x: nat)
    requires Run(tr) && k < |tr| && j < |tr[k].readers|
    ensures Steady(tr[k]) && Owed(tr[k], j, x, OutsideSince(tr, k, j, x))
    decreases k
  {
    if k == 0 {
      StartOwes(tr, j, x);
    } else {
      RunSteps(tr, k);
      OwedRun(tr, k - 1, j, x);
      SinceCarries(tr, k, j, x);
      StepOwes(tr[k - 1], tr[k], j, x, OutsideSince(tr, k - 1, j, x), OutsideSince(tr, k, j, x));
    }
  }

  /** In every run, whatever step frees an allocation: each reader was outside a walk at
      an instant between its parking and its freeing. */
  lemma FreedAfterOutside(tr: seq<State>, k: nat, j: nat, x: nat)
    requires Run(tr) && k + 1 < |tr| && j < |tr[k].readers|
    requires Parked(tr[k].pending, x) && !Parked(tr[k + 1].pending, x)
    ensures OutsideSince(tr, k, j, x)
  {
    OwedRun(tr, k, j, x);
    assert StepsAt(tr, k);
    FreedIsPaid(tr[k], tr[k + 1], j, x, OutsideSince(tr, k, j, x));
  }

  // ---------------------------------------------------------------- seen outside

  /** At state `q` the writer's scan loaded the counter of reader `j` and saw it outside a
      walk; what was parked then is what is parked at `k`. */
  ghost predicate SeenAt(tr: seq<State>, q: nat, k: nat, j: nat) {
    && q < k < |tr|
    && tr[q].pc.Scan? && tr[q].pc.i == j && j < |tr[q].readers|
    && !Odd(tr[q].readers[j].ctr) && tr[q + 1].pc.Scan? && tr[q + 1].pc.i == j + 1
    && forall m :: q <= m <= k ==> tr[m].pending == tr[k].pending
  }

  lemma ScanStep(s: State, s': State)
    requires Steady(s) && Step(s, s') && s'.pc.Scan? && s'.pc.i > 0
    ensures s.pc.Scan? && s'.pending == s.pending
    ensures s'.pc == s.pc || (s'.pc.i == s.pc.i + 1 && s.pc.i < |s.readers| && !Odd(s.readers[s.pc.i].ctr))
  {
    if WriterStep(s, s') {
      if EngineEdit(s, s') {
        EditParks(s, s');
      } else if Begin(s, s') || Publish(s, s') {
        MovesOnly(s, s');
      } else if !Counting(s.pc) {
        RestIs(s);
      }
    }
  }

  ghost predicate Saw(tr: seq<State>, k: nat, j: nat) {
    k < |tr| && j < |tr[k].readers| && tr[k].pc.Scan? && j < tr[k].pc.i ==> exists q :: SeenAt(tr, q, k, j)
  }

  lemma SawNext(tr: seq<State>, k: nat, j: nat)
    requires 0 < k < |tr| && Steady(tr[k - 1]) && Step(tr[k - 1], tr[k]) && |tr[k].readers| == |tr[k - 1].readers|
    requires Saw(tr, k - 1, j)
    ensures Saw(tr, k, j)
  {
    if j < |tr[k].readers| && tr[k].pc.Scan? && j < tr[k].pc.i {
      ScanStep(tr[k - 1], tr[k]);
      if tr[k - 1].pc.i == j {
        assert SeenAt(tr, k - 1, k, j);
      } else {
        var q :| SeenAt(tr, q, k - 1, j);
        assert SeenAt(tr, q, k, j);
      }
    }
  }

  /** A scan has seen outside a walk every reader it has gone past. */
  lemma {:induction false} ScanSaw(tr: seq<State>, k: nat, j: nat)
    requires Run(tr) && k < |tr| && j < |tr[k].readers|
    ensures Saw(tr, k, j)
    decreases k
  {
    if k > 0 {
      RunSteps(tr, k);
      OwedRun(tr, k - 1, j, 0);
      ScanSaw(tr, k - 1, j);
      SawNext(tr, k, j);
    }
  }

  /** Only two steps free anything: the end of the all-outside scan and the end of the
      grace check. What the scan frees, it saw each reader outside since the parking. So
      only the grace check can free what a reader was never seen outside of. */
  lemma ScanFreesSeen(tr: seq<State>, k: nat, j: nat, x: nat)
    requires Run(tr) && k + 1 < |tr| && j < |tr[k].readers|
    requires Parked(tr[k].pending, x) && !Parked(tr[k + 1].pending, x)
    ensures tr[k].pc.Scan? || tr[k].pc.Grace?
    ensures tr[k].pc.Scan? ==> exists q: nat :: SeenAt(tr, q, k, j) && Parked(tr[q].pending, x)
  {
    OwedRun(tr, k, j, x);
    RunSteps(tr, k + 1);
    FreeingStep(tr[k], tr[k + 1], x);
    ScanSaw(tr, k, j);
    if tr[k].pc.Scan? {
      var q: nat :| SeenAt(tr, q, k, j);
      assert tr[q].pending == tr[k].pending;
    }
  }

  lemma FreeingStep(s: State, s': State, x: nat)
    requires Steady(s) && Step(s, s') && Parked(s.pending, x) && !Parked(s'.pending, x)
    ensures (s.pc.Scan? || s.pc.Grace?) && s.pc.i == |s.readers|
  {
    if WriterStep(s, s') {
      if EngineEdit(s, s') {
        EditParks(s, s');
        ParkedStays(s.pending, s'.pending, x);
      } else if Begin(s, s') || Publish(s, s') {
        MovesOnly(s, s');
      } else if !Counting(s.pc) {
        RestIs(s);
      }
    }
  }
}
