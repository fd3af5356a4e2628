/**
 Where the sync32 promises to readers stop. A walk may be validated while the version
 word is back where the walk sampled it, having wrapped on the way; runs of the same
 state machine show that each such distance breaks the promises, and so exactly which
 validations must not happen.
 */
module Sync32Limits {
  import opened Options
  import opened Sync32Tree
  import opened Sync32
  import opened Sync32Inv
  import opened Sync32Theorems

  // ---------------------------------------------------------------- building runs

  lemma Extend(tr: seq<State>, s': State) returns (tr': seq<State>)
    requires Run(tr) && Step(tr[|tr| - 1], s')
    ensures tr' == tr + [s'] && Run(tr')
  {
    tr' := tr + [s'];
    forall k: nat | k + 1 < |tr'|
      ensures StepsAt(tr', k)
    {
      assert k + 1 < |tr| ==> StepsAt(tr, k);
    }
  }

  /** `tr'` continues the run `tr` without a step of a reader, and its map is always `m` or
      `m'` from there on. */
  ghost predicate Grown(tr: seq<State>, tr': seq<State>, m: map<nat, nat>, m': map<nat, nat>) {
    && Run(tr')
    && 0 < |tr| <= |tr'|
    && tr'[..|tr|] == tr
    && forall q :: |tr| <= q < |tr'| ==> (tr'[q].m == m || tr'[q].m == m') && tr'[q].readers == tr[|tr| - 1].readers
  }

  lemma Grow(tr: seq<State>, cur: seq<State>, s': State, m: map<nat, nat>, m': map<nat, nat>) returns (tr': seq<State>)
    requires Grown(tr, cur, m, m') && Step(cur[|cur| - 1], s') && (s'.m == m || s'.m == m')
    requires s'.readers == cur[|cur| - 1].readers
    ensures Grown(tr, tr', m, m') && |tr'| > 0 && tr'[|tr'| - 1] == s'
    ensures |tr'| == |cur| + 1
  {
    tr' := Extend(cur, s');
    assert tr'[..|tr|] == cur[..|tr|];
    assert cur[|tr| - 1] == cur[..|tr|][|tr| - 1];
  }

  /** A wrapper at rest whose whole tree is its root edge. */
  ghost predicate Resting(s: State) {
    && s.pc.Idle?
    && s.pending == []
    && |s.free| >= HEADROOM
    && s.pendingCap >= HEADROOM
    && |s.snap| == |s.readers| == 1
    && s.mem.cells == map[]
    && (forall h :: 0 <= h < |s.mem.table| ==> s.mem.table[h].Empty?)
    && s.ver % 2 == 0
  }

  /** A map of at most one entry fits in the root edge. */
  function RootFor(m: map<nat, nat>, k: nat): Edge {
    if k in m then Immed(k, m[k]) else NullEdge
  }

  lemma RootRepresents(mem: Mem, m: map<nat, nat>, k: Key32)
    requires m.Keys <= {k} && mem.root == RootFor(m, k) && mem.len == |m|
    requires mem.cells == map[] && forall h :: 0 <= h < |mem.table| ==> mem.table[h].Empty?
    ensures Represents(mem, m)
  {
    forall req: Request
      ensures Finish(mem, Sampled(req)) == Answered(m, req)
    {
      var ph1 := Solo(mem, Sampled(req));
      var ph2 := Solo(mem, ph1);
      assert Finish(mem, Sampled(req)) == Finish(mem, ph1) == Finish(mem, ph2);
      assert ph2 == Done(Answered(m, req));
    }
  }

  /** The state just inside the bracket of an operation started at rest. */
  function Opened(s: State, op: Op): State
    requires !op.Reclaim?
  {
    s.(pc := Bracket(op, Previous(Lookup(s.m, op.key)), 0, 0, false, false), ver := s.ver + 1,
       before := Before(s.m, s.mem, s.free, s.ver), sawInside := false)
  }

  /** From rest into the bracket. */
  lemma Open(tr: seq<State>, op: Op, m': map<nat, nat>) returns (tr': seq<State>)
    requires Run(tr)
    requires var s := tr[|tr| - 1]; s.pc.Idle? && Spare(s) >= HEADROOM && |s.free| >= HEADROOM && |s.snap| == |s.readers|
    requires op.Insert? || op.Remove?
    requires op.Insert? ==> Lookup(tr[|tr| - 1].m, op.key) != Some(op.val)
    ensures Grown(tr, tr', tr[|tr| - 1].m, m') && |tr| < |tr'| && tr'[|tr'| - 1] == Opened(tr[|tr| - 1], op)
  {
    var s0 := tr[|tr| - 1];
    var s1 := s0.(pc := Start(op), before := Before(s0.m, s0.mem, s0.free, s0.ver), sawInside := false);
    assert Begin(s0, s1);
    tr' := Grow(tr, tr, s1, s0.m, m');
    assert WriterNext(s1) == s1.(pc := Headroom(op, false));
    tr' := Grow(tr, tr', s1.(pc := Headroom(op, false)), s0.m, m');
    assert WriterNext(s1.(pc := Headroom(op, false))) == s1.(pc := Room(op));
    tr' := Grow(tr, tr', s1.(pc := Room(op)), s0.m, m');
    assert WriterNext(s1.(pc := Room(op))) == s1.(pc := Decide(op));
    tr' := Grow(tr, tr', s1.(pc := Decide(op)), s0.m, m');
    assert WriterNext(s1.(pc := Decide(op))) == Opened(s0, op);
    tr' := Grow(tr, tr', Opened(s0, op), s0.m, m');
  }

  /** The state at rest again, the target held in the root edge. */
  function Shut(s: State, m': map<nat, nat>, k: nat): State {
    s.(pc := Idle, ver := s.ver + 1, m := m', root := RootFor(m', k),
       mem := s.mem.(root := RootFor(m', k), len := |m'|))
  }

  /** Inside a bracket just opened, with nothing but the root edge in use. */
  ghost predicate JustOpened(s: State, m: map<nat, nat>, k: nat) {
    && s.pc.Bracket? && !s.pc.op.Reclaim?
    && s == s.(pc := Bracket(s.pc.op, s.pc.res, 0, 0, false, false))
    && s.pending == [] && |s.snap| == |s.readers|
    && s.mem.cells == map[] && (forall h :: 0 <= h < |s.mem.table| ==> s.mem.table[h].Empty?)
    && s.m == m && Target(s.pc.op, m).Keys <= {k}
  }

  /** The edit and the two stores of the publication, before the bracket closes. */
  function Published(s: State, m': map<nat, nat>, k: nat): State
    requires s.pc.Bracket?
  {
    s.(root := RootFor(m', k), mem := s.mem.(root := RootFor(m', k), len := |m'|), pc := s.pc.(rootOut := true, lenOut := true))
  }

  lemma PublishBoth(tr: seq<State>, cur: seq<State>, m: map<nat, nat>, k: Key32) returns (tr': seq<State>)
    requires Run(tr) && |cur| > 0 && JustOpened(cur[|cur| - 1], m, k)
    requires Grown(tr, cur, m, Target(cur[|cur| - 1].pc.op, m))
    ensures var s := cur[|cur| - 1]; var m' := Target(s.pc.op, m);
            Grown(tr, tr', m, m') && |tr'| > |cur| && tr'[|tr'| - 1] == Published(s, m', k)
  {
    var s0 := cur[|cur| - 1];
    var m' := Target(s0.pc.op, m);
    var s1 := s0.(root := RootFor(m', k));
    assert MayEdit(s0, SetRoot(RootFor(m', k))) && s1 == Edited(s0, SetRoot(RootFor(m', k)));
    assert EngineEdit(s0, s1);
    tr' := Grow(tr, cur, s1, m, m');
    var s2 := s1.(mem := s1.mem.(root := s1.root), pc := s1.pc.(rootOut := true));
    assert Publish(s1, s2);
    tr' := Grow(tr, tr', s2, m, m');
    var s3 := s2.(mem := s2.mem.(len := |m'|), pc := s2.pc.(lenOut := true));
    assert Publish(s2, s3);
    tr' := Grow(tr, tr', s3, m, m');
  }

  lemma Close(tr: seq<State>, cur: seq<State>, m: map<nat, nat>, k: Key32) returns (tr': seq<State>)
    requires Run(tr) && |cur| > 0 && JustOpened(cur[|cur| - 1], m, k)
    requires Grown(tr, cur, m, Target(cur[|cur| - 1].pc.op, m))
    ensures var s := cur[|cur| - 1]; var m' := Target(s.pc.op, m);
            Grown(tr, tr', m, m') && |tr'| > |cur| && tr'[|tr'| - 1] == Shut(s, m', k)
  {
    tr' := PublishBoth(tr, cur, m, k);
    var op, res, m' := cur[|cur| - 1].pc.op, cur[|cur| - 1].pc.res, Target(cur[|cur| - 1].pc.op, m);
    var s3 := Published(cur[|cur| - 1], m', k);
    RootRepresents(s3.mem, m', k);
    var s4 := s3.(ver := s3.ver + 1, m := m', pc := AfterWrite(op, res));
    assert Publish(s3, s4);
    tr' := Grow(tr, tr', s4, m, m');
    assert WriterNext(s4) == s4.(pc := Return(op, res));
    tr' := Grow(tr, tr', s4.(pc := Return(op, res)), m, m');
    assert WriterNext(s4.(pc := Return(op, res))) == s4.(pc := Idle);
    tr' := Grow(tr, tr', s4.(pc := Idle), m, m');
  }

  /** One whole insert or remove through the writer, with no reader in between.
      The map only ever holds its old and its new content on the way. */
  lemma Perform(tr: seq<State>, op: Op, k: Key32) returns (tr': seq<State>)
    requires Run(tr) && Resting(tr[|tr| - 1])
    requires op.Insert? || op.Remove?
    requires op.Insert? ==> Lookup(tr[|tr| - 1].m, op.key) != Some(op.val)
    requires Target(op, tr[|tr| - 1].m).Keys <= {k}
    ensures Grown(tr, tr', tr[|tr| - 1].m, Target(op, tr[|tr| - 1].m))
    ensures Resting(tr'[|tr'| - 1])
    ensures tr'[|tr'| - 1].m == Target(op, tr[|tr| - 1].m)
    ensures tr'[|tr'| - 1].ver == tr[|tr| - 1].ver + 2
    ensures tr'[|tr'| - 1].readers == tr[|tr| - 1].readers
  {
    var s := tr[|tr| - 1];
    var mid := Open(tr, op, Target(op, s.m));
    tr' := Close(tr, mid, s.m, k);
  }

  lemma GrownTwice(tr: seq<State>, mid: seq<State>, tr': seq<State>, m: map<nat, nat>)
    requires Grown(tr, mid, m, m) && Grown(mid, tr', m, m)
    ensures Grown(tr, tr', m, m)
  {
    assert tr'[..|tr|] == tr'[..|mid|][..|tr|];
    assert mid[|tr| - 1] == mid[..|tr|][|tr| - 1];
    forall q | |tr| <= q < |tr'|
      ensures tr'[q].m == m && tr'[q].readers == tr[|tr| - 1].readers
    {
      if q < |mid| {
        assert tr'[q] == tr'[..|mid|][q];
      }
    }
  }

  /** Any number of brackets that change nothing: removals of an absent key. */
  lemma {:induction false} PerformIdle(tr: seq<State>, k: Key32, absent: Key32, n: nat) returns (tr': seq<State>)
    requires Run(tr) && Resting(tr[|tr| - 1])
    requires tr[|tr| - 1].m.Keys <= {k} && absent != k
    ensures Grown(tr, tr', tr[|tr| - 1].m, tr[|tr| - 1].m)
    ensures Resting(tr'[|tr'| - 1])
    ensures tr'[|tr'| - 1].m == tr[|tr| - 1].m
    ensures tr'[|tr'| - 1].ver == tr[|tr| - 1].ver + 2 * n
    ensures tr'[|tr'| - 1].readers == tr[|tr| - 1].readers
    decreases n
  {
    if n == 0 {
      tr' := tr;
    } else {
      var mid := PerformIdle(tr, k, absent, n - 1);
      assert Target(Remove(absent), tr[|tr| - 1].m) == tr[|tr| - 1].m;
      tr' := Perform(mid, Remove(absent), k);
      GrownTwice(tr, mid, tr', tr[|tr| - 1].m);
    }
  }

  lemma ReaderMove(tr: seq<State>, r': Reader) returns (tr': seq<State>)
    requires Run(tr) && |tr[|tr| - 1].readers| == 1
    requires var s := tr[|tr| - 1]; var r := s.readers[0];
             Pin(r, r') || Sample(s, r, r') || RacyLoad(s, r, r') || Check(s, r, r')
    ensures Run(tr') && tr' == tr + [tr[|tr| - 1].(readers := [r'])]
  {
    var s := tr[|tr| - 1];
    assert s.readers[0 := r'] == [r'];
    assert ReaderStep(s, s.(readers := [r']), 0);
    tr' := Extend(tr, s.(readers := [r']));
  }

  /** Key 7 never holds 6, and reader 0 has validated nothing yet. */
  ghost predicate NeverSix(tr: seq<State>) {
    && (forall q :: 0 <= q < |tr| ==> Lookup(tr[q].m, 7) != Some(6))
    && (forall q: nat :: !ValidatesAt(tr, q, 0))
  }

  lemma StillNeverSix(tr: seq<State>, tr': seq<State>, m: map<nat, nat>, m': map<nat, nat>)
    requires NeverSix(tr) && Grown(tr, tr', m, m') && Lookup(m, 7) != Some(6) && Lookup(m', 7) != Some(6)
    ensures NeverSix(tr')
  {
    forall q | 0 <= q < |tr'|
      ensures Lookup(tr'[q].m, 7) != Some(6)
    {
      if q < |tr| {
        assert tr'[q] == tr'[..|tr|][q];
      }
    }
    forall q: nat
      ensures !ValidatesAt(tr', q, 0)
    {
      assert tr'[|tr| - 1] == tr'[..|tr|][|tr| - 1];
      if q + 1 < |tr| {
        assert tr'[q] == tr'[..|tr|][q] && tr'[q + 1] == tr'[..|tr|][q + 1];
        assert !ValidatesAt(tr, q, 0);
      }
    }
  }

  /** A move of the reader that is no validation. */
  lemma MovesUnvalidated(tr: seq<State>, tr': seq<State>)
    requires NeverSix(tr) && |tr| > 0 && |tr[|tr| - 1].readers| == 1 && |tr'| == |tr| + 1 && tr'[..|tr|] == tr
    requires tr'[|tr|].m == tr[|tr| - 1].m && !Validates(tr[|tr| - 1].readers[0].ph)
    ensures NeverSix(tr')
  {
    forall q | 0 <= q < |tr|
      ensures tr'[q] == tr[q]
    {
      assert tr'[q] == tr'[..|tr|][q];
    }
    forall q: nat
      ensures !ValidatesAt(tr', q, 0)
    {
      assert q + 1 < |tr| ==> !ValidatesAt(tr, q, 0);
    }
  }

  /** The reader samples while the map holds 8 -> 6. */
  lemma EarlySample() returns (tr: seq<State>, at: nat)
    ensures Run(tr) && NeverSix(tr) && Resting(tr[|tr| - 1]) && tr[|tr| - 1].m == map[8 := 6] && tr[|tr| - 1].ver == at
    ensures var r := tr[|tr| - 1].readers[0];
            r.req == Get(7) && r.at == at && r.ph == Sampled(Get(7))
  {
    var t0 := [Initial(HEADROOM, 1)];
    var t1 := Perform(t0, Insert(8, 6), 8);
    StillNeverSix(t0, t1, map[], map[8 := 6]);
    var r0 := t1[|t1| - 1].readers[0];
    var r1 := r0.(ctr := 1, ph := Pinned(Get(7)), req := Get(7));
    var t2 := ReaderMove(t1, r1);
    MovesUnvalidated(t1, t2);
    var s := t2[|t2| - 1];
    at := s.ver;
    tr := ReaderMove(t2, r1.(ph := Sampled(Get(7)), at := at, mem := s.mem, map_ := s.m));
    MovesUnvalidated(t2, tr);
  }

  /** It loads its root, getting `e`, only after the writer has gone on to 7 -> 5. */
  lemma TornLoad(e: Edge) returns (tr: seq<State>, at: nat)
    ensures Run(tr) && NeverSix(tr) && Resting(tr[|tr| - 1])
    ensures tr[|tr| - 1].m == map[7 := 5] && tr[|tr| - 1].ver == at + 4
    ensures tr[|tr| - 1].readers[0].req == Get(7) && tr[|tr| - 1].readers[0].at == at
    ensures tr[|tr| - 1].readers[0].ph == GotEdge(4, 7, e)
  {
    var t3;
    t3, at := EarlySample();
    assert map[8 := 6] - {8} == map[];
    var t4 := Perform(t3, Remove(8), 8);
    StillNeverSix(t3, t4, map[8 := 6], map[]);
    var t5 := Perform(t4, Insert(7, 5), 7);
    StillNeverSix(t4, t5, map[], map[7 := 5]);
    var r2 := t5[|t5| - 1].readers[0];
    var r3 := r2.(ph := GotEdge(4, 7, e));
    assert r3 == r2.(ph := Load(r2.ph, WEdge(e)));
    tr := ReaderMove(t5, r3);
    MovesUnvalidated(t5, tr);
  }

  /** How many brackets make up the rest of the distance. */
  lemma RestOf(d: int) returns (n: nat)
    requires Wraps(d)
    ensures 2 * n + 4 == d
  {
    var q := d / WORD;
    assert d == WORD * q && q > 0;
    n := WORD / 2 * q - 2;
  }

  /** The reader is about to validate that edge, the version having moved on by `d`. */
  lemma Stalled(e: Edge, d: int) returns (tr: seq<State>, at: nat)
    requires Wraps(d)
    ensures Run(tr) && NeverSix(tr) && Resting(tr[|tr| - 1]) && tr[|tr| - 1].ver == at + d
    ensures tr[|tr| - 1].readers[0].req == Get(7) && tr[|tr| - 1].readers[0].at == at
    ensures tr[|tr| - 1].readers[0].ph == GotEdge(4, 7, e) && SameVersion(at + d, at)
  {
    var t1;
    t1, at := TornLoad(e);
    var n := RestOf(d);
    tr := PerformIdle(t1, 7, 9, n);
    StillNeverSix(t1, tr, map[7 := 5], map[7 := 5]);
    CheckPassesIff(at, at + d);
  }

  /** Every validation of reader 0 fell on the distance `d`. */
  ghost predicate ValidatesAtDistance(tr: seq<State>, d: int) {
    forall q: nat :: ValidatesAt(tr, q, 0) ==> tr[q].ver - tr[q].readers[0].at == d
  }

  lemma OneMoreMove(tr: seq<State>, tr': seq<State>, d: int)
    requires ValidatesAtDistance(tr, d) && |tr| > 0 && |tr[|tr| - 1].readers| == 1 && |tr'| == |tr| + 1 && tr'[..|tr|] == tr
    requires tr[|tr| - 1].ver - tr[|tr| - 1].readers[0].at == d
    ensures ValidatesAtDistance(tr', d)
  {
    forall q | 0 <= q < |tr|
      ensures tr'[q] == tr[q]
    {
      assert tr'[q] == tr'[..|tr|][q];
    }
    forall q: nat | ValidatesAt(tr', q, 0)
      ensures tr'[q].ver - tr'[q].readers[0].at == d
    {
      if q + 1 < |tr| {
        assert ValidatesAt(tr, q, 0);
      }
    }
  }

  /** A reader stalled inside one walk across 2^31 brackets, or any multiple of that, can
      validate a torn root edge: here the value word of one map and the key word of a later
      one, answering that key 7 holds 6 in a run in which it never did. */
  lemma StalledAcrossWrap(d: int) returns (tr: seq<State>)
    requires Wraps(d)
    ensures Run(tr) && ValidatesAtDistance(tr, d)
    ensures |tr[|tr| - 1].readers| == 1
    ensures tr[|tr| - 1].readers[0].req == Get(7) && tr[|tr| - 1].readers[0].ph == Done(Found(6))
    ensures forall q :: 0 <= q < |tr| ==> Lookup(tr[q].m, 7) != Some(6)
  {
    var t, at := Stalled(Immed(7, 6), d);
    tr := ReaderMove(t, t[|t| - 1].readers[0].(ph := Done(Found(6))));
    OneMoreMove(t, tr, d);
  }

  /** It can also follow such an edge to an allocation that does not exist. */
  lemma DanglingAcrossWrap(d: int) returns (tr: seq<State>)
    requires Wraps(d)
    ensures Run(tr) && ValidatesAtDistance(tr, d)
    ensures |tr[|tr| - 1].readers| == 1 && tr[|tr| - 1].readers[0].ph.Held?
    ensures var s := tr[|tr| - 1]; s.readers[0].ph.id !in s.mem.cells && s.pending == []
  {
    var t, at := Stalled(Child(KLeaf, 0), d);
    var r := t[|t| - 1].readers[0];
    var t1 := ReaderMove(t, r.(ph := At(4, 7, KLeaf, 0)));
    OneMoreMove(t, t1, d);
    var r1 := r.(ph := At(4, 7, KLeaf, 0));
    var r2 := r.(ph := GotSlot(4, 7, KLeaf, 0));
    assert r2 == r1.(ph := Load(r1.ph, WSlot(Full(KLeaf, 0))));
    var t2 := ReaderMove(t1, r2);
    OneMoreMove(t1, t2, d);
    tr := ReaderMove(t2, r.(ph := Held(4, 7, KLeaf, 0)));
    OneMoreMove(t2, tr, d);
  }

  // ---------------------------------------------------------------- the exact limit

  /** Which distances a walk may be validated at for its answers to be right in every run:
      any set without one at which the version word has wrapped, and no other. */
  lemma AnswersRightIff(allowed: int -> bool)
    ensures (forall tr, k, i :: Run(tr) && HasAnswer(tr, k, i) && ValidatesOnly(tr, k, i, allowed) ==> AnswersRight(tr, k, i))
        <==> (forall d :: Wraps(d) ==> !allowed(d))
  {
    if forall d :: Wraps(d) ==> !allowed(d) {
      forall tr, k, i | Run(tr) && HasAnswer(tr, k, i) && ValidatesOnly(tr, k, i, allowed)
        ensures AnswersRight(tr, k, i)
      {
        ReadsLinearize(tr, k, i);
      }
    } else {
      var d :| Wraps(d) && allowed(d);
      var tr := StalledAcrossWrap(d);
      assert HasAnswer(tr, |tr| - 1, 0) && ValidatesOnly(tr, |tr| - 1, 0, allowed);
      assert !AnswersRight(tr, |tr| - 1, 0);
    }
  }

  /** Reader `i` is about to load from memory that is neither allocated nor parked. */
  ghost predicate Dangles(tr: seq<State>, k: nat, i: nat) {
    && k < |tr| && i < |tr[k].readers|
    && (tr[k].readers[i].ph.Held? || tr[k].readers[i].ph.HeldSub?)
    && tr[k].readers[i].ph.id !in tr[k].mem.cells && !Parked(tr[k].pending, tr[k].readers[i].ph.id)
  }

  /** And the same set for no walk to touch freed memory in any run. */
  lemma NeverDanglesIff(allowed: int -> bool)
    ensures (forall tr, k, i :: Run(tr) && ValidatesOnly(tr, k, i, allowed) ==> !Dangles(tr, k, i))
        <==> (forall d :: Wraps(d) ==> !allowed(d))
  {
    if forall d :: Wraps(d) ==> !allowed(d) {
      forall tr, k, i | Run(tr) && ValidatesOnly(tr, k, i, allowed)
        ensures !Dangles(tr, k, i)
      {
        if Dangles(tr, k, i) {
          NoUseAfterFree(tr, k, i);
        }
      }
    } else {
      var d :| Wraps(d) && allowed(d);
      var tr := DanglingAcrossWrap(d);
      assert ValidatesOnly(tr, |tr| - 1, 0, allowed);
      assert Dangles(tr, |tr| - 1, 0);
    }
  }
}
