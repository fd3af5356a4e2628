/**
 Parked nodes beside the node capacity, and a run in which memory is freed although the
 writer never saw the reader outside a walk.
 */
module Sync32Parked {
  import opened Options
  import opened Sync32Tree
  import opened Sync32
  import opened Sync32Inv
  import opened Sync32Theorems
  import opened Sync32Reclaim
  import opened Sync32Limits

  // ---------------------------------------------------------------- the count

  /** The parked allocations that are nodes, not subarrays. */
  ghost function ParkedNodes(s: State): set<nat> {
    set x | x in s.nodes && Parked(s.pending, x)
  }

  /** Parked nodes come on top of the capacity, one for one: live, parked and free nodes
      add up to it exactly when no node is parked. */
  lemma NodesAddUpIff(tr: seq<State>, k: nat)
    requires Run(tr) && k < |tr|
    ensures var s := tr[k];
            && |LiveHandles(s.mem.table)| + |ParkedNodes(s)| + |s.free| == |tr[0].mem.table| + |ParkedNodes(s)|
            && (|LiveHandles(s.mem.table)| + |ParkedNodes(s)| + |s.free| == |tr[0].mem.table| <==> ParkedNodes(s) == {})
            && (s.pending == [] ==> ParkedNodes(s) == {})
  {
    CapacityConserved(tr, k);
  }

  /** The same with every parked group counted, subarrays included. */
  lemma GroupsAddUpIff(tr: seq<State>, k: nat)
    requires Run(tr) && k < |tr|
    ensures |LiveHandles(tr[k].mem.table)| + |tr[k].pending| + |tr[k].free| == |tr[0].mem.table| <==> tr[k].pending == []
  {
    CapacityConserved(tr, k);
  }

  // ---------------------------------------------------------------- one run

  /** Reader 0 is inside a walk whenever the writer loads its counter. */
  ghost predicate NeverSeenOutside(s: State) {
    && |s.readers| == 1
    && (Counting(s.pc) && s.pc.i == 0 ==> Odd(s.readers[0].ctr))
  }

  ghost predicate Unseen(tr: seq<State>) {
    Run(tr) && forall q :: 0 <= q < |tr| ==> NeverSeenOutside(tr[q])
  }

  lemma Go(tr: seq<State>, s': State) returns (tr': seq<State>)
    requires Unseen(tr) && Step(tr[|tr| - 1], s') && NeverSeenOutside(s')
    ensures Unseen(tr') && tr' == tr + [s']
  {
    tr' := Extend(tr, s');
  }

  /** The writer's next step. */
  lemma GoNext(tr: seq<State>, s': State) returns (tr': seq<State>)
    requires Unseen(tr)
    requires var s := tr[|tr| - 1];
             !s.pc.Idle? && !s.pc.Bracket? && !s.pc.Panic? && |s.snap| == |s.readers| && s' == WriterNext(s)
    requires NeverSeenOutside(s')
    ensures Unseen(tr') && tr' == tr + [s']
  {
    assert WriterStep(tr[|tr| - 1], s');
    tr' := Go(tr, s');
  }

  lemma GoReader(tr: seq<State>, r: Reader) returns (tr': seq<State>)
    requires Unseen(tr)
    requires var s := tr[|tr| - 1]; Pin(s.readers[0], r) || Sample(s, s.readers[0], r) || Unpin(s.readers[0], r)
    requires var s := tr[|tr| - 1]; NeverSeenOutside(s.(readers := [r]))
    ensures Unseen(tr') && tr' == tr + [tr[|tr| - 1].(readers := [r])]
  {
    var s := tr[|tr| - 1];
    assert s.readers[0 := r] == [r];
    assert ReaderStep(s, s.(readers := [r]), 0);
    tr' := Go(tr, s.(readers := [r]));
  }

  lemma GoEdit(tr: seq<State>, e: Edit) returns (tr': seq<State>)
    requires Unseen(tr) && MayEdit(tr[|tr| - 1], e) && NeverSeenOutside(Edited(tr[|tr| - 1], e))
    ensures Unseen(tr') && tr' == tr + [Edited(tr[|tr| - 1], e)]
  {
    assert EngineEdit(tr[|tr| - 1], Edited(tr[|tr| - 1], e));
    tr' := Go(tr, Edited(tr[|tr| - 1], e));
  }

  const OP: Op := Insert(7, 5)
  const RES: Result := Previous(None)

  /** A reader pinned for the `n`th time, its walk over. */
  function Pinned1(ctr: nat): Reader {
    Reader(ctr, Done(Busy), Len, 0, EmptyMem(0), map[])
  }

  /** Inside the bracket of the first insert, the reader inside a walk that found it open. */
  function InBracket(): State {
    Opened(Initial(HEADROOM, 1), OP).(readers := [Pinned1(1)])
  }

  lemma ToStarted() returns (tr: seq<State>)
    ensures Unseen(tr) && tr[0] == Initial(HEADROOM, 1)
    ensures tr[|tr| - 1] == Initial(HEADROOM, 1).(
              pc := Start(OP), before := Before(map[], EmptyMem(HEADROOM), Initial(HEADROOM, 1).free, 0))
  {
    var s0 := Initial(HEADROOM, 1);
    tr := [s0];
    assert Run(tr);
    var s1 := s0.(pc := Start(OP), before := Before(s0.m, s0.mem, s0.free, s0.ver), sawInside := false);
    assert Begin(s0, s1);
    tr := Go(tr, s1);
  }

  lemma ToOpened() returns (tr: seq<State>)
    ensures Unseen(tr) && tr[|tr| - 1] == Opened(Initial(HEADROOM, 1), OP) && tr[0] == Initial(HEADROOM, 1)
  {
    tr := ToStarted();
    var s := tr[|tr| - 1];
    tr := GoNext(tr, s.(pc := Headroom(OP, false)));
    tr := GoNext(tr, s.(pc := Room(OP)));
    tr := GoNext(tr, s.(pc := Decide(OP)));
    tr := GoNext(tr, Opened(Initial(HEADROOM, 1), OP));
  }

  lemma ToBracket() returns (tr: seq<State>)
    ensures Unseen(tr) && tr[|tr| - 1] == InBracket() && tr[0] == Initial(HEADROOM, 1)
  {
    tr := ToOpened();
    var s := tr[|tr| - 1];
    var r := s.readers[0].(ctr := 1, ph := Pinned(Len));
    tr := GoReader(tr, r);
    tr := GoReader(tr, r.(ph := Done(Busy)));
  }

  /** One node made and retired in the bracket, and the key kept in the root edge. */
  function EditedOnce(): State {
    InBracket().(
      root := Immed(7, 5), next := 1, nodes := {0}, pending := [{0}],
      free := Initial(HEADROOM, 1).free,
      pc := Bracket(OP, RES, 1, 1, false, false))
  }

  lemma ToEdited() returns (tr: seq<State>)
    ensures Unseen(tr) && tr[|tr| - 1] == EditedOnce() && tr[0] == Initial(HEADROOM, 1)
  {
    tr := ToBracket();
    var s0 := InBracket();
    var cell := Leaf(map[7 := 5]);
    assert s0.free[HEADROOM - 1] == 0;
    var s1 := Edited(s0, AllocNode(KLeaf, cell));
    tr := GoEdit(tr, AllocNode(KLeaf, cell));
    assert s1.mem.table[0] == Full(KLeaf, 0) && s1.mem.cells == map[0 := cell];
    var s2 := Edited(s1, FreeNode(0, {0}));
    tr := GoEdit(tr, FreeNode(0, {0}));
    assert s2.mem.table == s0.mem.table && s2.mem.cells == map[];
    assert s2.free == s0.free;
    tr := GoEdit(tr, SetRoot(Immed(7, 5)));
  }

  /** At rest after the insert, the retired node still parked. */
  function AtRest(): State {
    var s := EditedOnce();
    s.(mem := s.mem.(root := Immed(7, 5), len := 1), ver := 2, m := map[7 := 5], pc := Idle,
       snap := [1], sealed := 1, sawInside := true)
  }

  lemma ToClosed() returns (tr: seq<State>)
    ensures Unseen(tr) && tr[0] == Initial(HEADROOM, 1)
    ensures tr[|tr| - 1] == AtRest().(pc := AfterWrite(OP, RES), snap := [0], sealed := 0, sawInside := false)
  {
    tr := ToEdited();
    var s0 := EditedOnce();
    var m' := map[7 := 5];
    assert Target(OP, s0.m) == m' && |m'| == 1;
    var s1 := s0.(mem := s0.mem.(root := s0.root), pc := s0.pc.(rootOut := true));
    assert Publish(s0, s1);
    tr := Go(tr, s1);
    var s2 := s1.(mem := s1.mem.(len := 1), pc := s1.pc.(lenOut := true));
    assert Publish(s1, s2);
    tr := Go(tr, s2);
    RootRepresents(s2.mem, m', 7);
    var s3 := s2.(ver := 2, m := m', pc := AfterWrite(OP, RES));
    assert Publish(s2, s3);
    tr := Go(tr, s3);
  }

  lemma ToRest() returns (tr: seq<State>)
    ensures Unseen(tr) && tr[|tr| - 1] == AtRest() && tr[0] == Initial(HEADROOM, 1)
  {
    tr := ToClosed();
    var s := tr[|tr| - 1];
    var who := FromWrite(RES);
    tr := GoNext(tr, s.(pc := Scan(OP, who, 0)));
    s := s.(sawInside := true);
    tr := GoNext(tr, s.(pc := Seal(OP, who, 0)));
    s := s.(snap := [1]);
    tr := GoNext(tr, s.(pc := Seal(OP, who, 1)));
    s := s.(sealed := 1);
    tr := GoNext(tr, s.(pc := EndReclaim(OP, who)));
    tr := GoNext(tr, s.(pc := Return(OP, RES)));
    tr := GoNext(tr, s.(pc := Idle));
  }

  /** At rest between operations, with one node parked: live, parked and free nodes
      exceed the capacity. */
  lemma ParkedIsExtra() returns (tr: seq<State>)
    ensures Run(tr) && tr[|tr| - 1].pc.Idle?
    ensures var s := tr[|tr| - 1];
            |LiveHandles(s.mem.table)| + |ParkedNodes(s)| + |s.free| > |tr[0].mem.table|
  {
    tr := ToRest();
    var s := tr[|tr| - 1];
    assert 0 in s.pending[0];
    assert 0 in ParkedNodes(s);
    NodesAddUpIff(tr, |tr| - 1);
  }

  /** A step that frees a parked node in a run in which every counter the writer ever
      loaded was that of a reader inside a walk. */
  lemma FreedUnseen() returns (tr: seq<State>)
    ensures Run(tr) && |tr| > 1
    ensures Parked(tr[|tr| - 2].pending, 0) && 0 in tr[|tr| - 2].nodes && tr[|tr| - 1].pending == []
    ensures forall q :: 0 <= q < |tr| ==> NeverSeenOutside(tr[q])
  {
    tr := ToRest();
    var s := AtRest();
    tr := GoReader(tr, Pinned1(1).(ctr := 2, ph := Outside));
    tr := GoReader(tr, Pinned1(1).(ctr := 3, ph := Pinned(Len)));
    s := s.(readers := [Pinned1(1).(ctr := 3, ph := Pinned(Len))]);
    var s1 := s.(pc := Start(Reclaim), before := Before(s.m, s.mem, s.free, s.ver), sawInside := false);
    assert Begin(s, s1);
    tr := Go(tr, s1);
    tr := GoNext(tr, s1.(pc := Scan(Reclaim, FromUser, 0)));
    s1 := s1.(sawInside := true);
    tr := GoNext(tr, s1.(pc := Grace(Reclaim, FromUser, 0)));
    tr := GoNext(tr, s1.(pc := Grace(Reclaim, FromUser, 1)));
    assert 0 in s1.pending[0];
    tr := GoNext(tr, s1.(pending := [], sealed := 0, pc := EndReclaim(Reclaim, FromUser)));
  }
}
