/** What the sync32 surface promises its callers, over every run. */
module Sync32Theorems {
  import opened Sync32Tree
  import opened Sync32
  import opened Sync32Inv

  // ---------------------------------------------------------------- readers

  lemma WriterKeepsReaders(s: State, s': State)
    requires WriterStep(s, s')
    ensures s'.readers == s.readers
  {
  }

  lemma StepKeepsReaderCount(s: State, s': State)
    requires Step(s, s')
    ensures |s'.readers| == |s.readers|
  {
    if WriterStep(s, s') {
      WriterKeepsReaders(s, s');
    }
  }

  /** Reader `i` has been in one walk from state `p` to state `k`. */
  ghost predicate OneWalk(tr: seq<State>, p: nat, k: nat, i: nat) {
    && p <= k < |tr|
    && forall q :: p <= q <= k ==> i < |tr[q].readers| && InWalk(tr[q].readers[i].ph)
  }

  /** It has been in one walk since state `p`, where it sampled. */
  ghost predicate SampledAt(tr: seq<State>, p: nat, k: nat, i: nat) {
    && OneWalk(tr, p, k, i)
    && tr[p].m == tr[k].readers[i].map_
    && tr[p].ver == tr[k].readers[i].at
  }

  /** The step from state `q` is a validation by reader `i`. */
  ghost predicate ValidatesAt(tr: seq<State>, q: nat, i: nat) {
    && q + 1 < |tr| && i < |tr[q].readers| && i < |tr[q + 1].readers|
    && Validates(tr[q].readers[i].ph) && tr[q + 1].readers[i].ph != tr[q].readers[i].ph
  }

  /** At each validation of the walk reader `i` is in, the version had moved on from the
      walk's sample by a distance that is `allowed`. */
  ghost predicate ValidatesOnly(tr: seq<State>, k: nat, i: nat, allowed: int -> bool) {
    forall q: nat :: q < k && OneWalk(tr, q, k, i) && ValidatesAt(tr, q, i) ==>
      allowed(tr[q].ver - tr[q].readers[i].at)
  }

  /** A distance at which the version word is back where it was. */
  predicate Wraps(d: int) {
    d > 0 && d % WORD == 0
  }

  /** No validation of the walk reader `i` is in fell on such a distance. */
  ghost predicate NeverMissed(tr: seq<State>, k: nat, i: nat) {
    ValidatesOnly(tr, k, i, d => !Wraps(d))
  }

  /** A reader in a walk after a step was in it before, or has just sampled. */
  lemma WalkContinues(s: State, s': State, i: nat)
    requires Step(s, s') && i < |s.readers| && |s'.readers| == |s.readers| && InWalk(s'.readers[i].ph)
    ensures var r, r' := s.readers[i], s'.readers[i];
            || (InWalk(r.ph) && r'.at == r.at && r'.map_ == r.map_)
            || (r'.at == s'.ver && r'.map_ == s'.m)
  {
    if j: nat :| ReaderStep(s, s', j) {
      if j == i {
        var r, r' := s.readers[i], s'.readers[i];
        assert Pin(r, r') || Sample(s, r, r') || RacyLoad(s, r, r') || Check(s, r, r') || Unpin(r, r');
      } else {
        assert s'.readers[i] == s.readers[i];
      }
    } else {
      WriterKeepsReaders(s, s');
    }
  }

  lemma RunSteps(tr: seq<State>, k: nat)
    requires Run(tr) && 0 < k < |tr|
    ensures Step(tr[k - 1], tr[k]) && |tr[k].readers| == |tr[k - 1].readers|
  {
    LastStep(tr, k);
    StepKeepsReaderCount(tr[k - 1], tr[k]);
  }

  lemma NoWalkAtStart(tr: seq<State>, i: nat)
    requires Run(tr) && i < |tr[0].readers|
    ensures !InWalk(tr[0].readers[i].ph)
  {
  }

  lemma SampledStill(tr: seq<State>, p: nat, k: nat, i: nat)
    requires 0 < k < |tr| && SampledAt(tr, p, k - 1, i) && i < |tr[k].readers| && InWalk(tr[k].readers[i].ph)
    requires tr[k].readers[i].at == tr[k - 1].readers[i].at && tr[k].readers[i].map_ == tr[k - 1].readers[i].map_
    ensures SampledAt(tr, p, k, i)
  {
  }

  /** The instant at which the walk reader `i` is in sampled the map. */
  lemma {:induction false} SampleInstant(tr: seq<State>, k: nat, i: nat) returns (p: nat)
    requires Run(tr) && k < |tr| && i < |tr[k].readers| && InWalk(tr[k].readers[i].ph)
    ensures SampledAt(tr, p, k, i)
    decreases k
  {
    p := k;
    if k == 0 {
      NoWalkAtStart(tr, i);
    } else {
      RunSteps(tr, k);
      WalkContinues(tr[k - 1], tr[k], i);
      var r, r' := tr[k - 1].readers[i], tr[k].readers[i];
      if InWalk(r.ph) && r'.at == r.at && r'.map_ == r.map_ {
        p := SampleInstant(tr, k - 1, i);
        SampledStill(tr, p, k, i);
      }
    }
  }

  lemma VersionGrows(s: State, s': State)
    requires Step(s, s')
    ensures s.ver <= s'.ver
  {
    if EngineEdit(s, s') {
      var e: Edit :| MayEdit(s, e) && s' == Edited(s, e);
    }
  }

  /** A version check passes exactly when the version moved on by a multiple of 2^32:
      on an undisturbed walk, or after exactly 2^31 brackets (or twice that, ...). */
  lemma CheckPassesIff(at: nat, ver: nat)
    requires at <= ver
    ensures SameVersion(ver, at) <==> ver == at || Wraps(ver - at)
    ensures ver < at + WORD ==> (SameVersion(ver, at) <==> ver == at)
  {
    var d := ver - at;
    assert ver == at + d;
    assert (at + d) % WORD == (at % WORD + d % WORD) % WORD;
  }

  lemma OneStepTracks(s: State, s': State, i: nat)
    requires Inv(s) && Step(s, s') && i < |s.readers| && |s'.readers| == |s.readers| && Tracks(s, s.readers[i])
    requires s'.readers[i].ph != s.readers[i].ph ==> !Missed(s, s.readers[i])
    ensures Tracks(s', s'.readers[i])
  {
    var r, r' := s.readers[i], s'.readers[i];
    assert ReaderInv(s, r);
    if j: nat :| ReaderStep(s, s', j) {
      if j == i {
        StepTracks(s, r, r');
      } else {
        assert r' == r;
        OthersTrack(s, s', r);
      }
    } else {
      WriterKeepsReaders(s, s');
      VersionGrows(s, s');
      OthersTrack(s, s', r);
    }
  }

  lemma StillNeverMissed(tr: seq<State>, k: nat, i: nat)
    requires 0 < k < |tr| && NeverMissed(tr, k, i) && i < |tr[k].readers| && InWalk(tr[k].readers[i].ph)
    ensures NeverMissed(tr, k - 1, i)
  {
    forall q: nat | q < k - 1 && OneWalk(tr, q, k - 1, i) && ValidatesAt(tr, q, i)
      ensures !Wraps(tr[q].ver - tr[q].readers[i].at)
    {
      assert OneWalk(tr, q, k, i);
    }
  }

  lemma LastNotMissed(tr: seq<State>, k: nat, i: nat)
    requires 0 < k < |tr| && NeverMissed(tr, k, i) && OneWalk(tr, k - 1, k, i)
    requires ReaderInv(tr[k - 1], tr[k - 1].readers[i]) && tr[k].readers[i].ph != tr[k - 1].readers[i].ph
    ensures !Missed(tr[k - 1], tr[k - 1].readers[i])
  {
    var s, r := tr[k - 1], tr[k - 1].readers[i];
    if Missed(s, r) {
      CheckPassesIff(r.at, s.ver);
      assert ValidatesAt(tr, k - 1, i);
    }
  }

  lemma TracksOn(tr: seq<State>, k: nat, i: nat)
    requires Run(tr) && 0 < k < |tr| && NeverMissed(tr, k, i) && OneWalk(tr, k - 1, k, i)
    requires Tracks(tr[k - 1], tr[k - 1].readers[i])
    ensures Tracks(tr[k], tr[k].readers[i])
  {
    RunSteps(tr, k);
    RunInv(tr, k - 1);
    assert ReaderInv(tr[k - 1], tr[k - 1].readers[i]);
    if tr[k].readers[i].ph != tr[k - 1].readers[i].ph {
      LastNotMissed(tr, k, i);
    }
    OneStepTracks(tr[k - 1], tr[k], i);
  }

  lemma BeginsOnTrack(s: State, r: Reader, r': Reader)
    requires !InWalk(r.ph) && (Pin(r, r') || Sample(s, r, r') || RacyLoad(s, r, r') || Check(s, r, r') || Unpin(r, r'))
    ensures InWalk(r'.ph) ==> OnTrack(r'.mem, r'.req, r'.ph)
  {
    assert !Loads(r.ph) && !Validates(r.ph);
  }

  /** A walk that has just sampled is on track. */
  lemma TracksFirst(s: State, s': State, i: nat)
    requires Step(s, s') && i < |s.readers| && |s'.readers| == |s.readers| && !InWalk(s.readers[i].ph)
    ensures Tracks(s', s'.readers[i])
  {
    if j: nat :| ReaderStep(s, s', j) {
      if j == i {
        BeginsOnTrack(s, s.readers[i], s'.readers[i]);
      } else {
        assert s'.readers[i] == s.readers[i];
      }
    } else {
      WriterKeepsReaders(s, s');
    }
  }

  /** Reader `i` is on track at state `k` if it has missed no validation of its walk. */
  ghost predicate TracksAt(tr: seq<State>, k: nat, i: nat) {
    k < |tr| && i < |tr[k].readers| && NeverMissed(tr, k, i) ==> Tracks(tr[k], tr[k].readers[i])
  }

  lemma TracksAtStart(tr: seq<State>, i: nat)
    requires Run(tr)
    ensures TracksAt(tr, 0, i)
  {
    if i < |tr[0].readers| {
      NoWalkAtStart(tr, i);
    }
  }

  lemma TracksAtNext(tr: seq<State>, k: nat, i: nat)
    requires Run(tr) && 0 < k < |tr| && TracksAt(tr, k - 1, i)
    ensures TracksAt(tr, k, i)
  {
    RunSteps(tr, k);
    if i < |tr[k].readers| && NeverMissed(tr, k, i) && InWalk(tr[k].readers[i].ph) {
      if InWalk(tr[k - 1].readers[i].ph) {
        StillNeverMissed(tr, k, i);
        TracksOn(tr, k, i);
      } else {
        TracksFirst(tr[k - 1], tr[k], i);
      }
    }
  }

  /** The walk of reader `i` tracks the memory it sampled, whatever the other readers do
      and however long it lasts, as long as no validation of its own is missed. */
  lemma {:induction false} WalkTracks(tr: seq<State>, k: nat, i: nat)
    requires Run(tr) && k < |tr|
    ensures TracksAt(tr, k, i)
    decreases k
  {
    if k == 0 {
      TracksAtStart(tr, i);
    } else {
      WalkTracks(tr, k - 1, i);
      TracksAtNext(tr, k, i);
    }
  }

  /** Reader `i` has the map's own answer at an instant inside its walk. */
  ghost predicate AnswersRight(tr: seq<State>, k: nat, i: nat)
    requires k < |tr| && i < |tr[k].readers| && tr[k].readers[i].ph.Done?
  {
    exists p: nat :: SampledAt(tr, p, k, i) && tr[k].readers[i].ph.ans == Answered(tr[p].m, tr[k].readers[i].req)
  }

  /** Reader `i` has an answer other than Busy. */
  ghost predicate HasAnswer(tr: seq<State>, k: nat, i: nat) {
    k < |tr| && i < |tr[k].readers| && tr[k].readers[i].ph.Done? && tr[k].readers[i].ph.ans != Busy
  }

  /** A reader's answer other than Busy is the map's own answer at an instant inside
      the walk. */
  lemma ReadsLinearize(tr: seq<State>, k: nat, i: nat)
    requires Run(tr) && HasAnswer(tr, k, i) && NeverMissed(tr, k, i)
    ensures AnswersRight(tr, k, i)
  {
    RunInv(tr, k);
    assert ReaderInv(tr[k], tr[k].readers[i]);
    WalkTracks(tr, k, i);
    var p := SampleInstant(tr, k, i);
  }

  /** Every allocation a walk dereferences is live or still parked. */
  lemma NoUseAfterFree(tr: seq<State>, k: nat, i: nat)
    requires Run(tr) && k < |tr| && i < |tr[k].readers| && NeverMissed(tr, k, i)
    requires tr[k].readers[i].ph.Held? || tr[k].readers[i].ph.HeldSub?
    ensures tr[k].readers[i].ph.id in tr[k].mem.cells || Parked(tr[k].pending, tr[k].readers[i].ph.id)
  {
    RunInv(tr, k);
    assert ReaderInv(tr[k], tr[k].readers[i]);
    WalkTracks(tr, k, i);
  }

  lemma {:induction false} VersionsGrow(tr: seq<State>, q: nat, k: nat)
    requires Run(tr) && q <= k < |tr|
    ensures tr[q].ver <= tr[k].ver
    decreases k
  {
    if q < k {
      VersionsGrow(tr, q, k - 1);
      LastStep(tr, k);
      VersionGrows(tr[k - 1], tr[k]);
    }
  }

  lemma LastStep(tr: seq<State>, k: nat)
    requires Run(tr) && 0 < k < |tr|
    ensures Step(tr[k - 1], tr[k])
  {
    assert StepsAt(tr, k - 1);
  }

  /** Within one walk the sample stays. */
  lemma {:induction false} OneSample(tr: seq<State>, q: nat, k: nat, i: nat)
    requires Run(tr) && OneWalk(tr, q, k, i)
    ensures tr[q].readers[i].at == tr[k].readers[i].at
    decreases k
  {
    if q < k {
      ShorterWalk(tr, q, k, i);
      OneSample(tr, q, k - 1, i);
      RunSteps(tr, k);
      InWalkSamplesOnce(tr[k - 1], tr[k], i);
    }
  }

  lemma ShorterWalk(tr: seq<State>, q: nat, k: nat, i: nat)
    requires OneWalk(tr, q, k, i) && q < k
    ensures OneWalk(tr, q, k - 1, i) && OneWalk(tr, k - 1, k, i)
  {
  }

  lemma InWalkSamplesOnce(s: State, s': State, i: nat)
    requires Step(s, s') && i < |s.readers| && |s'.readers| == |s.readers|
    requires InWalk(s.readers[i].ph) && InWalk(s'.readers[i].ph)
    ensures s'.readers[i].at == s.readers[i].at
  {
    if j: nat :| ReaderStep(s, s', j) {
      if j == i {
        var r, r' := s.readers[i], s'.readers[i];
        assert Pin(r, r') || Sample(s, r, r') || RacyLoad(s, r, r') || Check(s, r, r') || Unpin(r, r');
      } else {
        assert s'.readers[i] == s.readers[i];
      }
    } else {
      WriterKeepsReaders(s, s');
    }
  }

  /** A walk that spans fewer than 2^31 brackets misses nothing. */
  lemma ShortWalkNeverMissed(tr: seq<State>, k: nat, i: nat)
    requires Run(tr) && k < |tr| && i < |tr[k].readers|
    requires InWalk(tr[k].readers[i].ph) ==> tr[k].ver < tr[k].readers[i].at + WORD
    ensures NeverMissed(tr, k, i)
  {
    forall q: nat | q < k && OneWalk(tr, q, k, i) && ValidatesAt(tr, q, i)
      ensures !Wraps(tr[q].ver - tr[q].readers[i].at)
    {
      VersionsGrow(tr, q, k);
      OneSample(tr, q, k, i);
    }
  }

  lemma OddIsNotEven(ver: nat, at: nat)
    requires Odd(ver) && !Odd(at)
    ensures !SameVersion(ver, at)
  {
    WordParity(ver);
    WordParity(at);
  }

  lemma WordParity(n: nat)
    ensures Odd(n % WORD) <==> Odd(n)
  {
    var q := n / WORD;
    assert n == WORD * q + n % WORD;
  }

  /** The version is odd and the sample even, however far apart they are. */
  lemma OpenVersionDiffers(s: State, r: Reader)
    requires WriterInv(s) && ReaderInv(s, r) && s.pc.Bracket? && InWalk(r.ph)
    ensures !SameVersion(s.ver, r.at)
  {
    OddIsNotEven(s.ver, r.at);
  }

  /** A reader that meets an open bracket answers Busy in that very step. */
  lemma OpenBracketIsBusy(s: State, s': State, i: nat)
    requires Inv(s) && s.pc.Bracket? && ReaderStep(s, s', i)
    requires s.readers[i].ph.Pinned? || Validates(s.readers[i].ph)
    ensures s'.readers[i].ph == Done(Busy)
  {
    assert ReaderInv(s, s.readers[i]);
    if Validates(s.readers[i].ph) {
      OpenVersionDiffers(s, s.readers[i]);
    }
  }

  // ---------------------------------------------------------------- the writer

  /** State `p` is where the operation now in progress at `k` started. */
  ghost predicate StartedAt(tr: seq<State>, p: nat, k: nat) {
    && p <= k < |tr|
    && tr[p].pc.Start?
    && tr[k].before == Before(tr[p].m, tr[p].mem, tr[p].free, tr[p].ver)
    && (forall q :: p <= q <= k ==> !tr[q].pc.Idle?)
    && (tr[k].sawInside ==> exists q, i :: p <= q <= k && 0 <= i < |tr[q].readers| && Odd(tr[q].readers[i].ctr))
  }

  lemma OperationContinues(s: State, s': State)
    requires Step(s, s') && !s'.pc.Idle?
    ensures s.pc.Idle? ==>
              || (s'.pc.Start? && !s'.sawInside && s'.before == Before(s'.m, s'.mem, s'.free, s'.ver))
              || s' == s.(readers := s'.readers)
    ensures !s.pc.Idle? ==>
              s'.before == s.before && (s'.sawInside ==>
                s.sawInside || exists i :: 0 <= i < |s.readers| && Odd(s.readers[i].ctr))
  {
  }

  lemma {:induction false} StartInstant(tr: seq<State>, k: nat) returns (p: nat)
    requires Run(tr) && k < |tr| && !tr[k].pc.Idle?
    ensures StartedAt(tr, p, k)
    decreases k
  {
    if k == 0 {
      assert false;
    } else {
      assert StepsAt(tr, k - 1);
      OperationContinues(tr[k - 1], tr[k]);
      if tr[k - 1].pc.Idle? {
        p := k;
      } else {
        p := StartInstant(tr, k - 1);
        if tr[k].sawInside {
          var q, i :| p <= q <= k && 0 <= i < |tr[q].readers| && Odd(tr[q].readers[i].ctr);
        }
      }
    }
  }

  /** A mutation that answers took effect exactly as its sequential meaning says, in
      at most one bracket; a refused one changed nothing. */
  lemma OperationsLinearize(tr: seq<State>, k: nat) returns (p: nat)
    requires Run(tr) && k < |tr| && tr[k].pc.Return? && !tr[k].pc.op.Reclaim?
    ensures StartedAt(tr, p, k)
    ensures Refusal(tr[k].pc.res) ==>
              tr[k].m == tr[p].m && tr[k].mem == tr[p].mem && tr[k].free == tr[p].free && tr[k].ver == tr[p].ver
    ensures !Refusal(tr[k].pc.res) ==>
              && (tr[k].m, tr[k].pc.res) == Meaning(tr[k].pc.op, tr[p].m)
              && tr[k].ver - tr[p].ver in {0, 2}
  {
    RunInv(tr, k);
    p := StartInstant(tr, k);
  }

  /** `ReclaimBacklog` is only ever reported after a reader was seen inside a walk. */
  lemma BacklogMeansStalledReader(tr: seq<State>, k: nat)
    requires Run(tr) && k < |tr| && tr[k].pc.Return? && tr[k].pc.res.ReclaimBacklog?
    ensures exists p: nat, q, i ::
              StartedAt(tr, p, k) && p <= q <= k && 0 <= i < |tr[q].readers| && Odd(tr[q].readers[i].ctr)
  {
    RunInv(tr, k);
    var p := StartInstant(tr, k);
    var q, i :| p <= q <= k && 0 <= i < |tr[q].readers| && Odd(tr[q].readers[i].ctr);
  }

  // ---------------------------------------------------------------- reclamation makes progress

  /** The writer running `n` steps with no reader in between. */
  function Alone(s: State, n: nat): State
    decreases n
  {
    if n == 0 || s.pc.Idle? || s.pc.Bracket? || s.pc.Panic? || |s.snap| != |s.readers| then s
    else Alone(WriterNext(s), n - 1)
  }

  /** With every reader outside a walk, a scan frees everything parked. */
  lemma {:induction false} QuietReadersDrain(s: State)
    requires s.pc.Scan? && s.pc.i <= |s.readers| && |s.snap| == |s.readers|
    requires forall j :: s.pc.i <= j < |s.readers| ==> !Odd(s.readers[j].ctr)
    ensures Alone(s, |s.readers| - s.pc.i + 1)
            == s.(pending := [], sealed := 0, pc := EndReclaim(s.pc.op, s.pc.who))
    decreases |s.readers| - s.pc.i
  {
    var n := |s.readers| - s.pc.i;
    if n == 0 {
      assert Alone(s, 1) == Alone(WriterNext(s), 0);
    } else {
      QuietReadersDrain(WriterNext(s));
    }
  }

  /** A reader that has left its recorded walk no longer holds the sealed prefix back,
      even if it is inside a new one: exactly that prefix is freed. */
  lemma {:induction false} PassedReadersDrain(s: State)
    requires s.pc.Grace? && s.pc.i <= |s.readers| && |s.snap| == |s.readers| && s.sealed <= |s.pending|
    requires forall j :: s.pc.i <= j < |s.readers| ==> !SameWalk(s, j)
    ensures Alone(s, |s.readers| - s.pc.i + 1).pending == s.pending[s.sealed..]
    ensures Alone(s, |s.readers| - s.pc.i + 1).sealed == 0
    decreases |s.readers| - s.pc.i
  {
    var n := |s.readers| - s.pc.i;
    if n == 0 {
      assert Alone(s, 1) == Alone(WriterNext(s), 0);
    } else {
      assert !SameWalk(s, s.pc.i);
      var s' := WriterNext(s);
      forall j | s'.pc.i <= j < |s'.readers|
        ensures !SameWalk(s', j)
      {
        assert !SameWalk(s, j);
      }
      PassedReadersDrain(s');
    }
  }

  /** A reader still in its recorded walk blocks the whole prefix, and nothing is freed. */
  lemma {:induction false} StuckReaderBlocks(s: State, j: nat)
    requires s.pc.Grace? && s.pc.i <= j < |s.readers| && |s.snap| == |s.readers|
    requires SameWalk(s, j) && forall k :: s.pc.i <= k < j ==> !SameWalk(s, k)
    ensures Alone(s, j - s.pc.i + 1) == s.(pc := EndReclaim(s.pc.op, s.pc.who))
    decreases j - s.pc.i
  {
    if s.pc.i == j {
      assert Alone(s, 1) == Alone(WriterNext(s), 0);
    } else {
      assert !SameWalk(s, s.pc.i);
      var s' := WriterNext(s);
      forall k | s'.pc.i <= k < j
        ensures !SameWalk(s', k)
      {
        assert !SameWalk(s, k);
      }
      StuckReaderBlocks(s', j);
    }
  }

  // ---------------------------------------------------------------- capacity

  /** Handles that name a live node. */
  function LiveHandles(table: seq<Slot>): set<nat> {
    set h | 0 <= h < |table| && table[h].Full?
  }

  lemma {:induction false} DistinctCount(q: seq<nat>, n: nat)
    requires n <= |q|
    requires forall j, k :: 0 <= j < k < |q| ==> q[j] != q[k]
    ensures |set j | 0 <= j < n :: q[j]| == n
  {
    if n > 0 {
      DistinctCount(q, n - 1);
      assert (set j | 0 <= j < n :: q[j]) == (set j | 0 <= j < n - 1 :: q[j]) + {q[n - 1]};
      assert q[n - 1] !in (set j | 0 <= j < n - 1 :: q[j]);
    }
  }

  /** The handles of a table of `n` slots. */
  function Handles(n: nat): (r: set<nat>)
    ensures |r| == n
    ensures forall h: nat :: h in r <==> h < n
  {
    if n == 0 then {} else Handles(n - 1) + {n - 1}
  }

  lemma HandlesCount(table: seq<Slot>, free: seq<nat>)
    requires FreeIsEmpty(table, free)
    ensures |LiveHandles(table)| + |free| == |table|
  {
    var freed := set j | 0 <= j < |free| :: free[j];
    DistinctCount(free, |free|);
    forall h: nat
      ensures h in Handles(|table|) <==> h in LiveHandles(table) || h in freed
    {
      if h < |table| && table[h].Empty? {
        assert h in free;
      }
    }
    assert Handles(|table|) == LiveHandles(table) + freed;
    assert LiveHandles(table) !! freed;
  }

  lemma StepKeepsTable(s: State, s': State)
    requires Step(s, s')
    ensures |s'.mem.table| == |s.mem.table|
  {
    if WriterStep(s, s') {
      if EngineEdit(s, s') {
        var e: Edit :| MayEdit(s, e) && s' == Edited(s, e);
      }
    }
  }

  lemma {:induction false} RunKeepsTable(tr: seq<State>, k: nat)
    requires Run(tr) && k < |tr|
    ensures |tr[k].mem.table| == |tr[0].mem.table|
    decreases k
  {
    if k > 0 {
      RunKeepsTable(tr, k - 1);
      RunSteps(tr, k);
      StepKeepsTable(tr[k - 1], tr[k]);
    }
  }

  /** Live nodes and free handles always add up to the capacity the container was made
      with, parked memory never outgrows the pending list, and no admitted mutation runs
      out inside its bracket. */
  lemma CapacityConserved(tr: seq<State>, k: nat)
    requires Run(tr) && k < |tr|
    ensures |tr[k].mem.table| == |tr[0].mem.table|
    ensures |LiveHandles(tr[k].mem.table)| + |tr[k].free| == |tr[0].mem.table|
    ensures |tr[k].pending| <= |tr[0].mem.table| + 2 * HEADROOM
    ensures !tr[k].pc.Panic?
    ensures tr[k].pc.Bracket? ==>
              |tr[k].free| + tr[k].pc.allocs >= HEADROOM && Spare(tr[k]) + tr[k].pc.retires >= HEADROOM
  {
    RunInv(tr, k);
    RunKeepsTable(tr, k);
    HandlesCount(tr[k].mem.table, tr[k].free);
  }
}
