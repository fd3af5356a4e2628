/**
 The CPU of processes that came to an end inside the window. Their `/proc` entries are
 gone; all that is left is what their reapers' counters gained, which includes every
 earlier tick of their lives. The attribution takes the earlier part back out.
 */
module ReapedCpu {
  import opened Sums
  import opened HostGuard
  import opened ProcHistory
  import opened HostGuardTheorems

  /** Ticks at the first sample of the processes listed then and not yet reaped. */
  type Base = map<nat, nat>

  function StillListed(base: Base, e: Event): Base {
    if e.Reap? || e.Discard? then base - {e.pid} else base
  }

  function Ticks0(base: Base, pid: nat): nat {
    if pid in base then base[pid] else 0
  }

  /** In-window CPU of the processes outside the run's tree that are reaped: the ticks
      each had when reaped, less those it had at the first sample. */
  ghost function ExitedCpu(k: Kernel, es: seq<Event>, base: Base): int
    requires Legal(k, es)
    decreases |es|
  {
    if es == [] then 0
    else
      (if es[0].Reap? && k[es[0].pid].whose != Own
       then k[es[0].pid].proc.ticks - Ticks0(base, es[0].pid) else 0)
      + ExitedCpu(Apply(k, es[0]), es[1..], StillListed(base, es[0]))
  }

  ghost function BaseAfter(es: seq<Event>, base: Base): Base {
    if es == [] then base else BaseAfter(es[1..], StillListed(base, es[0]))
  }

  /** `base` is what is left of the first sample `a`; a process listed under one of its
      pids that is not the one sampled has another start time. */
  ghost predicate Baseline(k: Kernel, base: Base, a: Table) {
    && (forall pid :: pid in base ==>
          pid in k && pid in a && k[pid].whose != Own
          && k[pid].proc.start == a[pid].start && base[pid] == a[pid].ticks
          && a[pid].ticks <= k[pid].proc.ticks)
    && (forall pid :: pid in k && pid in a && pid !in base && k[pid].whose != Own ==>
          k[pid].proc.start != a[pid].start)
  }

  /** A reused pid has a new start time. */
  predicate NewStarts(es: seq<Event>, a: Table) {
    forall i :: 0 <= i < |es| && es[i].Fork? && es[i].pid in a ==> es[i].start != a[es[i].pid].start
  }

  function ChildOf(k: Kernel): nat -> int {
    (pid: nat) => if pid in k && k[pid].whose != Own then k[pid].proc.child else 0
  }

  function BaseOf(base: Base): nat -> int {
    (pid: nat) => Ticks0(base, pid)
  }

  // ---------------------------------------------------------------- one event

  /** What an event moves in or out of the reaped CPU outside the run's tree: a lifetime
      reaped across its edge, and, where a process vanishes unreaped, the CPU it had
      reaped and its reading at the first sample. */
  function Crosses(k: Kernel, e: Event, base: Base): int
    requires e.Reap? ==> e.pid in k && k[e.pid].proc.ppid in k
    requires e.Discard? ==> e.pid in k
  {
    match e
    case Reap(pid) =>
      (if k[k[pid].proc.ppid].whose != Own then Total(k[pid].proc) else 0)
      - (if k[pid].whose != Own then Total(k[pid].proc) else 0)
    case Discard(pid) => if k[pid].whose != Own then 0 - k[pid].proc.child - Ticks0(base, pid) else 0
    case _ => 0
  }

  ghost function CrossedCpu(k: Kernel, es: seq<Event>, base: Base): int
    requires Legal(k, es)
    decreases |es|
  {
    if es == [] then 0
    else Crosses(k, es[0], base) + CrossedCpu(Apply(k, es[0]), es[1..], StillListed(base, es[0]))
  }

  lemma ChildSame(k: Kernel, e: Event)
    requires Enabled(k, e) && !e.Reap? && !e.Discard?
    ensures Sum(Apply(k, e).Keys, ChildOf(Apply(k, e))) == Sum(k.Keys, ChildOf(k))
  {
    var k' := Apply(k, e);
    if e.Fork? {
      assert k'.Keys == k.Keys + {e.pid};
      SumInsert(k.Keys, ChildOf(k'), e.pid);
    } else {
      assert k'.Keys == k.Keys;
    }
    SumSame(k.Keys, ChildOf(k), ChildOf(k'));
  }

  /** Reaped-children counters outside the run's tree gain the whole lifetime of each
      process reaped there, and lose the counter of each that goes. */
  lemma ChildReap(k: Kernel, e: Event)
    requires Enabled(k, e) && e.Reap?
    ensures Sum(Apply(k, e).Keys, ChildOf(Apply(k, e)))
            == Sum(k.Keys, ChildOf(k)) - ChildOf(k)(e.pid)
               + if k[k[e.pid].proc.ppid].whose != Own then Total(k[e.pid].proc) else 0
  {
    var k' := Apply(k, e);
    var parent := k[e.pid].proc.ppid;
    assert k'.Keys == k.Keys - {e.pid};
    SumPick(k.Keys, ChildOf(k), e.pid);
    SumChange(k'.Keys, ChildOf(k), ChildOf(k'), parent);
  }

  lemma ChildDiscard(k: Kernel, e: Event)
    requires Enabled(k, e) && e.Discard?
    ensures Sum(Apply(k, e).Keys, ChildOf(Apply(k, e))) == Sum(k.Keys, ChildOf(k)) - ChildOf(k)(e.pid)
  {
    var k' := Apply(k, e);
    assert k'.Keys == k.Keys - {e.pid};
    SumPick(k.Keys, ChildOf(k), e.pid);
    SumSame(k'.Keys, ChildOf(k), ChildOf(k'));
  }

  lemma BaseStep(base: Base, e: Event)
    ensures Sum(StillListed(base, e).Keys, BaseOf(StillListed(base, e)))
            == Sum(base.Keys, BaseOf(base)) - if e.Reap? || e.Discard? then Ticks0(base, e.pid) else 0
  {
    var base' := StillListed(base, e);
    if (e.Reap? || e.Discard?) && e.pid in base {
      SumPick(base.Keys, BaseOf(base), e.pid);
      assert base'.Keys == base.Keys - {e.pid};
      SumSame(base'.Keys, BaseOf(base), BaseOf(base'));
    } else {
      assert base' == base;
    }
  }

  /** Reaped-children counters, plus what the remaining first readings will take out. */
  ghost function Potential(k: Kernel, base: Base): int {
    Sum(k.Keys, ChildOf(k)) + Sum(base.Keys, BaseOf(base))
  }

  lemma PotentialStep(k: Kernel, e: Event, base: Base)
    requires Enabled(k, e)
    requires (e.Reap? || e.Discard?) && k[e.pid].whose == Own ==> Ticks0(base, e.pid) == 0
    ensures Potential(Apply(k, e), StillListed(base, e))
            == Potential(k, base) + Crosses(k, e, base)
               + if e.Reap? && k[e.pid].whose != Own then k[e.pid].proc.ticks - Ticks0(base, e.pid) else 0
  {
    BaseStep(base, e);
    match e
    case Reap(_) => ChildReap(k, e);
    case Discard(_) => ChildDiscard(k, e);
    case _ => ChildSame(k, e);
  }

  lemma BaselineStep(k: Kernel, e: Event, base: Base, a: Table)
    requires Enabled(k, e) && Baseline(k, base, a)
    requires e.Fork? && e.pid in a ==> e.start != a[e.pid].start
    ensures Baseline(Apply(k, e), StillListed(base, e), a)
  {
    var k' := Apply(k, e);
    forall pid | pid in k' && pid in k
      ensures k'[pid].whose == k[pid].whose && k'[pid].proc.start == k[pid].proc.start
      ensures k'[pid].proc.ticks >= k[pid].proc.ticks
    {
      SameTask(k, e, pid);
    }
    assert forall pid :: pid in StillListed(base, e) ==> pid in base && !((e.Reap? || e.Discard?) && pid == e.pid);
    PidsChange(k, e);
  }

  /** An event keeps the side and the start time of each process that stays, and never
      takes ticks away. */
  lemma SameTask(k: Kernel, e: Event, pid: nat)
    requires Enabled(k, e) && pid in k && pid in Apply(k, e)
    ensures var t, t' := k[pid], Apply(k, e)[pid];
            t'.whose == t.whose && t'.proc.start == t.proc.start && t'.proc.ticks >= t.proc.ticks
  {
  }

  lemma PidsChange(k: Kernel, e: Event)
    requires Enabled(k, e)
    ensures Apply(k, e).Keys
            == if e.Fork? then k.Keys + {e.pid} else if e.Reap? || e.Discard? then k.Keys - {e.pid} else k.Keys
    ensures e.Fork? ==> Apply(k, e)[e.pid].proc.start == e.start
  {
  }

  // ---------------------------------------------------------------- the window

  /** Everything one event keeps. */
  lemma OneEvent(k: Kernel, es: seq<Event>, base: Base, a: Table)
    requires Legal(k, es) && es != [] && Baseline(k, base, a) && NewStarts(es, a)
    ensures var k', base' := Apply(k, es[0]), StillListed(base, es[0]);
            && Baseline(k', base', a) && NewStarts(es[1..], a)
            && Potential(k', base') + ExitedCpu(k', es[1..], base') + CrossedCpu(k', es[1..], base')
               == Potential(k, base) + ExitedCpu(k, es, base) + CrossedCpu(k, es, base)
            && ExitedCpu(k', es[1..], base') <= ExitedCpu(k, es, base)
  {
    var e := es[0];
    OwnNotInBase(k, e, base, a);
    PotentialStep(k, e, base);
    BaselineStep(k, e, base, a);
  }

  lemma {:induction false} ExitedRun(k: Kernel, es: seq<Event>, base: Base, a: Table)
    requires Legal(k, es) && Baseline(k, base, a) && NewStarts(es, a)
    ensures Baseline(After(k, es), BaseAfter(es, base), a) && BaseAfter(es, base).Keys <= base.Keys
    ensures Potential(After(k, es), BaseAfter(es, base))
            == Potential(k, base) + ExitedCpu(k, es, base) + CrossedCpu(k, es, base)
    ensures ExitedCpu(k, es, base) >= 0
    decreases |es|
  {
    if es != [] {
      OneEvent(k, es, base, a);
      ExitedRun(Apply(k, es[0]), es[1..], StillListed(base, es[0]), a);
    }
  }

  /** In a tame window nothing crosses. */
  lemma {:induction false} TameCrossesNothing(k: Kernel, es: seq<Event>, root: nat, base: Base)
    requires Rooted(k, root) && Legal(k, es) && AllTame(k, es, root)
    ensures CrossedCpu(k, es, base) == 0
    decreases |es|
  {
    if es != [] {
      RootedStep(k, es[0], root);
      TameCrossesNothing(Apply(k, es[0]), es[1..], root, StillListed(base, es[0]));
      OneCrossesNothing(k, es[0], root, base);
    }
  }

  lemma OneCrossesNothing(k: Kernel, e: Event, root: nat, base: Base)
    requires Rooted(k, root) && Enabled(k, e) && Tame(k, e, root)
    ensures Crosses(k, e, base) == 0
  {
  }

  lemma OwnNotInBase(k: Kernel, e: Event, base: Base, a: Table)
    requires Enabled(k, e) && Baseline(k, base, a)
    ensures (e.Reap? || e.Discard?) && k[e.pid].whose == Own ==> Ticks0(base, e.pid) == 0
    ensures e.Reap? ==> Ticks0(base, e.pid) <= k[e.pid].proc.ticks
  {
  }

  /** The first sample's ticks outside the run's tree. */
  function FirstBase(k: Kernel): Base {
    map pid | pid in k && k[pid].whose != Own :: k[pid].proc.ticks
  }

  /** Nothing the attribution visits is the run's. */
  ghost predicate SeesOthers(k: Kernel, k': Kernel, v: set<nat>) {
    && (forall p :: p in k && p in v ==> k[p].whose != Own)
    && (forall p :: p in k' && p in v ==> k'[p].whose != Own)
    && v <= k.Keys + k'.Keys
  }

  /** What a pid adds to the change of potential. */
  function Gain(k: Kernel, k': Kernel, base': Base): nat -> int {
    (pid: nat) => ChildOf(k')(pid) - ChildOf(k)(pid) - (Ticks0(FirstBase(k), pid) - Ticks0(base', pid))
  }

  lemma PartIsGain(k: Kernel, k': Kernel, base': Base, pid: nat, v: set<nat>)
    requires SeesOthers(k, k', v) && pid in v && Baseline(k', base', Sampled(k)) && base'.Keys <= FirstBase(k).Keys
    ensures ReapPart(Sampled(k), Sampled(k'), pid) == Gain(k, k', base')(pid)
  {
    var a, b := Sampled(k), Sampled(k');
    assert pid in k || pid in k';
    assert ChildOf(k)(pid) == if pid in k then k[pid].proc.child else 0;
    assert ChildOf(k')(pid) == if pid in k' then k'[pid].proc.child else 0;
    assert Ticks0(FirstBase(k), pid) == if pid in k then k[pid].proc.ticks else 0;
  }

  lemma SumGain(all: set<nat>, k: Kernel, k': Kernel, base': Base)
    ensures Sum(all, Gain(k, k', base'))
            == Sum(all, ChildOf(k')) - Sum(all, ChildOf(k)) - (Sum(all, BaseOf(FirstBase(k))) - Sum(all, BaseOf(base')))
  {
    var up := (x: nat) => ChildOf(k')(x) - ChildOf(k)(x);
    var down := (x: nat) => BaseOf(FirstBase(k))(x) - BaseOf(base')(x);
    SumMinus(all, ChildOf(k'), ChildOf(k), up);
    SumMinus(all, BaseOf(FirstBase(k)), BaseOf(base'), down);
    SumMinus(all, up, down, Gain(k, k', base'));
  }

  /** Over all pids the gains are the change of potential. */
  lemma GainIsPotential(k: Kernel, k': Kernel, base': Base)
    requires base'.Keys <= FirstBase(k).Keys
    ensures Sum(k.Keys + k'.Keys, Gain(k, k', base')) == Potential(k', base') - Potential(k, FirstBase(k))
  {
    var all := k.Keys + k'.Keys;
    SumGain(all, k, k', base');
    SumOver(k.Keys, all, ChildOf(k));
    SumOver(k'.Keys, all, ChildOf(k'));
    SumOver(FirstBase(k).Keys, all, BaseOf(FirstBase(k)));
    SumOver(base'.Keys, all, BaseOf(base'));
  }

  /** What the pids the attribution skips would have added. */
  ghost function Skipped(k: Kernel, k': Kernel, base': Base, v: set<nat>): int {
    Sum(k.Keys + k'.Keys - v, Gain(k, k', base'))
  }

  /** Over the pids the attribution visits, what it adds up is their gain. */
  lemma VisitedGain(k: Kernel, k': Kernel, base': Base, v: set<nat>)
    requires SeesOthers(k, k', v) && Baseline(k', base', Sampled(k)) && base'.Keys <= FirstBase(k).Keys
    ensures Sum(v, ReapParts(Sampled(k), Sampled(k'))) == Sum(v, Gain(k, k', base'))
  {
    forall pid | pid in v
      ensures ReapParts(Sampled(k), Sampled(k'))(pid) == Gain(k, k', base')(pid)
    {
      PartIsGain(k, k', base', pid, v);
    }
    SumSame(v, ReapParts(Sampled(k), Sampled(k')), Gain(k, k', base'));
  }

  /** What is visited and what is skipped make up the change of potential. */
  lemma SplitGain(k: Kernel, k': Kernel, base': Base, v: set<nat>)
    requires v <= k.Keys + k'.Keys && base'.Keys <= FirstBase(k).Keys
    ensures Sum(v, Gain(k, k', base')) + Skipped(k, k', base', v) == Potential(k', base') - Potential(k, FirstBase(k))
  {
    var all := k.Keys + k'.Keys;
    GainIsPotential(k, k', base');
    SumSplit(all, v, Gain(k, k', base'));
    assert all * v == v;
  }

  /** The pids that are the run's at an end of the window. */
  function RunPids(k: Kernel, k': Kernel): set<nat> {
    Pids(k, Own) + Pids(k', Own)
  }

  /** The general identity, over any legal history and whatever is visited. The
      attribution's `reaped` is the in-window CPU of the processes outside the run's tree
      that were reaped, plus what crossed the tree's edge, plus what is read of the run's
      own pids, less what the other pids would have added had they been visited. */
  lemma ReapedIdentity(k: Kernel, es: seq<Event>, v: set<nat>)
    requires Legal(k, es) && NewStarts(es, Sampled(k)) && v <= k.Keys + After(k, es).Keys
    ensures var k' := After(k, es);
            var base, base', run := FirstBase(k), BaseAfter(es, FirstBase(k)), RunPids(k, k');
            Sum(v, ReapParts(Sampled(k), Sampled(k')))
            == ExitedCpu(k, es, base) + CrossedCpu(k, es, base)
               + Sum(v * run, ReapParts(Sampled(k), Sampled(k'))) - Skipped(k, k', base', v - run)
  {
    var k', base' := After(k, es), BaseAfter(es, FirstBase(k));
    var others := v - RunPids(k, k');
    ExitedRun(k, es, FirstBase(k), Sampled(k));
    SumSplit(v, RunPids(k, k'), ReapParts(Sampled(k), Sampled(k')));
    VisitedGain(k, k', base', others);
    SplitGain(k, k', base', others);
  }

  /** In a tame window the attribution's `reaped` is the in-window CPU of the processes outside
      the run's tree that were reaped, through any chain of reapers, less what skipped
      pids would have added; it is exact exactly when they add nothing. */
  lemma ReapedExact(k: Kernel, es: seq<Event>, root: nat, v: set<nat>)
    requires Rooted(k, root) && Legal(k, es) && AllTame(k, es, root) && NewStarts(es, Sampled(k))
    requires SeesOthers(k, After(k, es), v)
    ensures var k' := After(k, es);
            var r, skipped := Sum(v, ReapParts(Sampled(k), Sampled(k'))), Skipped(k, k', BaseAfter(es, FirstBase(k)), v);
            && r == ExitedCpu(k, es, FirstBase(k)) - skipped
            && (r == ExitedCpu(k, es, FirstBase(k)) <==> skipped == 0)
            && ExitedCpu(k, es, FirstBase(k)) >= 0
  {
    var k', base' := After(k, es), BaseAfter(es, FirstBase(k));
    ExitedRun(k, es, FirstBase(k), Sampled(k));
    TameCrossesNothing(k, es, root, FirstBase(k));
    VisitedGain(k, k', base', v);
    SplitGain(k, k', base', v);
  }

  // ---------------------------------------------------------------- what skipped pids hide

  /** Reaped CPU of foreign processes under skipped pids. */
  function HiddenChildOf(k: Kernel): nat -> int {
    (pid: nat) => if pid in k && k[pid].whose == Foreign then k[pid].proc.child else 0
  }

  ghost function HiddenChild(k: Kernel, skip: set<nat>): int {
    Sum(k.Keys * skip, HiddenChildOf(k))
  }

  /** A pid that is skipped is the run's at an end where it is not foreign. */
  ghost predicate SwapsOnly(k: Kernel, k': Kernel, skip: set<nat>) {
    forall p :: p in skip ==>
      && (p in k ==> k[p].whose != Guard) && (p in k' ==> k'[p].whose != Guard)
      && (p in k && k[p].whose == Foreign ==> p in k' && k'[p].whose == Own)
      && (p in k' && k'[p].whose == Foreign ==> p in k && k[p].whose == Own)
  }

  lemma SkippedGain(k: Kernel, k': Kernel, base': Base, skip: set<nat>, p: nat)
    requires SwapsOnly(k, k', skip) && p in skip && Baseline(k', base', Sampled(k)) && base'.Keys <= FirstBase(k).Keys
    ensures Gain(k, k', base')(p) == HiddenChildOf(k')(p) - AccountOf(k, Foreign)(p)
  {
    var foreign := p in k && k[p].whose == Foreign;
    assert Ticks0(FirstBase(k), p) == if foreign then k[p].proc.ticks else 0;
    assert ChildOf(k)(p) == if foreign then k[p].proc.child else 0;
    assert p !in base';
    assert ChildOf(k')(p) == HiddenChildOf(k')(p);
  }

  /** What skipped pids would have added: the reaped CPU now hidden, less all the CPU hidden
      at the first sample. */
  lemma SkippedIsHidden(k: Kernel, k': Kernel, base': Base, v: set<nat>)
    requires SwapsOnly(k, k', k.Keys + k'.Keys - v) && Baseline(k', base', Sampled(k)) && base'.Keys <= FirstBase(k).Keys
    ensures var skip := k.Keys + k'.Keys - v;
            Skipped(k, k', base', v) == HiddenChild(k', skip) - Hidden(k, skip)
  {
    var skip := k.Keys + k'.Keys - v;
    forall p | p in skip
      ensures Gain(k, k', base')(p) == HiddenChildOf(k')(p) - AccountOf(k, Foreign)(p)
    {
      SkippedGain(k, k', base', skip, p);
    }
    SumMinus(skip, HiddenChildOf(k'), AccountOf(k, Foreign), Gain(k, k', base'));
    SumOver(k'.Keys * skip, skip, HiddenChildOf(k'));
    SumOver(k.Keys * skip, skip, AccountOf(k, Foreign));
  }
}
