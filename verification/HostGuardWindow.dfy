/** One window of the guard, from two samples to the three readings, and what they mean. */
module HostGuardWindow {
  import opened Options
  import opened Sums
  import opened HostGuard
  import opened ProcHistory
  import opened HostGuardTheorems
  import opened ReapedCpu

  datatype Reading = Reading(own: int, foreign: int, onPin: int)

  /** `tree_ticks` as a sum over the tree's members that are still listed. */
  method TreeTicksOf(procs: Table, tree: set<nat>) returns (t: int)
    ensures t == TreeTicks(procs, tree)
  {
    t := 0;
    var rest := tree * procs.Keys;
    while rest != {}
      invariant rest <= tree * procs.Keys
      invariant t + Sum(rest, TotalIn(procs)) == TreeTicks(procs, tree)
    {
      var p :| p in rest;
      SumPick(rest, TotalIn(procs), p);
      t := t + Total(procs[p]);
      rest := rest - {p};
    }
  }

  /** The pids the window treats as its own at either end, and the guard's. */
  function OwnAll(dA: set<nat>, dB: set<nat>, self: set<nat>): set<nat> {
    (dA - self) + (dB - self) + self
  }

  /** The readings of a window, given the descendants of the root at its two ends. */
  ghost predicate IsReading(a: Table, b: Table, dA: set<nat>, dB: set<nat>, w: Setting, intrOn: int, intrOff: int, r: Reading) {
    var v := Visited(a, b, OwnAll(dA, dB, w.self), w.self);
    && r.own == OwnTicks(a, b, dA - w.self, dB - w.self)
    && r.foreign == ClampedSum(a, b, OwnAll(dA, dB, w.self), w) + intrOn + intrOff
    && r.onPin == Sum(v, PinParts(a, b, w)) + Max0(Sum(v, ReapParts(a, b))) + intrOn
  }

  /** `assess`, in ticks. A window below the minimum length is refused. */
  method Assess(a: Table, b: Table, root: nat, w: Setting, dt: real, minWindow: real, intrOn: int, intrOff: int)
    returns (r: Option<Reading>)
    ensures r.None? <==> dt < minWindow
    ensures r.Some? ==> exists dA, dB ::
              IsDescendants(a, root, dA) && IsDescendants(b, root, dB)
              && IsReading(a, b, dA, dB, w, intrOn, intrOff, r.value)
  {
    if dt < minWindow {
      return None;
    }
    var dA := Descendants(a, root);
    var dB := Descendants(b, root);
    var ta := TreeTicksOf(a, dA - w.self);
    var tb := TreeTicksOf(b, dB - w.self);
    var host, foreign, onPin := Attribute(a, b, OwnAll(dA, dB, w.self), w, intrOn, intrOff);
    r := Some(Reading(Max0(tb - ta), foreign, onPin));
    assert IsReading(a, b, dA, dB, w, intrOn, intrOff, r.value);
  }

  lemma {:induction false} GuardStays(k: Kernel, es: seq<Event>, root: nat)
    requires Rooted(k, root) && Legal(k, es) && AllTame(k, es, root)
    ensures Pids(After(k, es), Guard) == Pids(k, Guard)
    decreases |es|
  {
    if es != [] {
      var k' := Apply(k, es[0]);
      forall p
        ensures p in Pids(k', Guard) <==> p in Pids(k, Guard)
      {
      }
      RootedStep(k, es[0], root);
      GuardStays(k', es[1..], root);
    }
  }

  /** A tame window between the guard's two samples, whose descendants are `dA` and `dB`. */
  ghost predicate TameWindow(k: Kernel, es: seq<Event>, root: nat, w: Setting, dA: set<nat>, dB: set<nat>) {
    && Rooted(k, root) && Legal(k, es) && AllTame(k, es, root) && NewStarts(es, Sampled(k))
    && w.self == Pids(k, Guard)
    && IsDescendants(Sampled(k), root, dA) && IsDescendants(Sampled(After(k, es)), root, dB)
  }

  /** The descendants found at the two ends are the run's own processes there. */
  lemma OwnAllIs(k: Kernel, es: seq<Event>, root: nat, self: set<nat>, dA: set<nat>, dB: set<nat>)
    requires Rooted(k, root) && Legal(k, es) && AllTame(k, es, root) && self == Pids(k, Guard)
    requires IsDescendants(Sampled(k), root, dA) && IsDescendants(Sampled(After(k, es)), root, dB)
    ensures Pids(After(k, es), Guard) == self
    ensures dA - self == Pids(k, Own) && dB - self == Pids(After(k, es), Own)
    ensures OwnAll(dA, dB, self) == Pids(k, Own) + Pids(After(k, es), Own) + self
  {
    GuardStays(k, es, root);
    TameRun(k, es, root);
    TreeIsOwn(k, root, dA);
    TreeIsOwn(After(k, es), root, dB);
  }

  lemma WindowOwn(k: Kernel, es: seq<Event>, root: nat, w: Setting, dA: set<nat>, dB: set<nat>)
    requires TameWindow(k, es, root, w, dA, dB)
    ensures OwnTicks(Sampled(k), Sampled(After(k, es)), dA - w.self, dB - w.self) == TicksOf(k, es, Own)
  {
    GuardStays(k, es, root);
    OwnTicksExact(k, es, root, dA, dB);
  }

  lemma WindowForeign(k: Kernel, es: seq<Event>, root: nat, w: Setting, dA: set<nat>, dB: set<nat>)
    requires TameWindow(k, es, root, w, dA, dB)
    ensures var a, b, k', own := Sampled(k), Sampled(After(k, es)), After(k, es), OwnAll(dA, dB, w.self);
            && ForeignSum(a, b, own, w) == TicksOf(k, es, Foreign) - (Hidden(k', own) - Hidden(k, own))
            && ClampedSum(a, b, own, w) >= ForeignSum(a, b, own, w)
  {
    OwnAllIs(k, es, root, w.self, dA, dB);
    ForeignExact(k, es, root, OwnAll(dA, dB, w.self), w);
  }

  /** What the attribution visits and what it skips, by the labels. */
  lemma SeesAndSkips(k: Kernel, k': Kernel, own: set<nat>, self: set<nat>)
    requires self == Pids(k, Guard) == Pids(k', Guard) && own == Pids(k, Own) + Pids(k', Own) + self
    ensures var v := Visited(Sampled(k), Sampled(k'), own, self);
            SeesOthers(k, k', v) && SwapsOnly(k, k', k.Keys + k'.Keys - v)
  {
    forall p
      ensures p in k ==> (p in Pids(k, Guard) <==> k[p].whose == Guard) && (p in Pids(k, Own) <==> k[p].whose == Own)
      ensures p in k' ==> (p in Pids(k', Guard) <==> k'[p].whose == Guard) && (p in Pids(k', Own) <==> k'[p].whose == Own)
    {
    }
  }

  /** The guard's own pids hide nothing. */
  lemma SkippedOrOwn(k: Kernel, k': Kernel, own: set<nat>, self: set<nat>)
    requires self == Pids(k, Guard) == Pids(k', Guard) && self <= own
    ensures var skip := k.Keys + k'.Keys - Visited(Sampled(k), Sampled(k'), own, self);
            Hidden(k, skip) == Hidden(k, own) && HiddenChild(k', skip) == HiddenChild(k', own)
  {
    var skip := k.Keys + k'.Keys - Visited(Sampled(k), Sampled(k'), own, self);
    assert forall p :: p in self && p in k ==> k[p].whose == Guard;
    assert forall p :: p in self && p in k' ==> k'[p].whose == Guard;
    SumOver(k.Keys * skip, k.Keys * own, AccountOf(k, Foreign));
    SumOver(k'.Keys * skip, k'.Keys * own, HiddenChildOf(k'));
  }

  lemma WindowReaped(k: Kernel, es: seq<Event>, root: nat, w: Setting, dA: set<nat>, dB: set<nat>)
    requires TameWindow(k, es, root, w, dA, dB)
    ensures var a, b, k', own := Sampled(k), Sampled(After(k, es)), After(k, es), OwnAll(dA, dB, w.self);
            Sum(Visited(a, b, own, w.self), ReapParts(a, b))
            == ExitedCpu(k, es, FirstBase(k)) - (HiddenChild(k', own) - Hidden(k, own))
  {
    var k', own := After(k, es), OwnAll(dA, dB, w.self);
    var v := Visited(Sampled(k), Sampled(k'), own, w.self);
    OwnAllIs(k, es, root, w.self, dA, dB);
    SeesAndSkips(k, k', own, w.self);
    ExitedRun(k, es, FirstBase(k), Sampled(k));
    ReapedExact(k, es, root, v);
    SkippedIsHidden(k, k', BaseAfter(es, FirstBase(k)), v);
    SkippedOrOwn(k, k', own, w.self);
  }

  /** The readings, off the truth by `grown` on foreign CPU and by `lost` on reaped CPU. */
  ghost predicate Reads(k: Kernel, es: seq<Event>, w: Setting, own: set<nat>, intrOn: int, intrOff: int, r: Reading,
                        grown: int, lost: int)
    requires Legal(k, es)
  {
    var a, b := Sampled(k), Sampled(After(k, es));
    && r.own == TicksOf(k, es, Own)
    && ForeignSum(a, b, own, w) == TicksOf(k, es, Foreign) - grown
    && r.foreign - intrOn - intrOff >= TicksOf(k, es, Foreign) - grown
    && r.onPin - intrOn == Sum(Visited(a, b, own, w.self), PinParts(a, b, w)) + Max0(ExitedCpu(k, es, FirstBase(k)) - lost)
  }

  /** What the sums are worth is what the readings are worth. */
  lemma ReadingIs(k: Kernel, es: seq<Event>, w: Setting, dA: set<nat>, dB: set<nat>, intrOn: int, intrOff: int, r: Reading,
                  grown: int, lost: int)
    requires Legal(k, es) && IsReading(Sampled(k), Sampled(After(k, es)), dA, dB, w, intrOn, intrOff, r)
    requires OwnTicks(Sampled(k), Sampled(After(k, es)), dA - w.self, dB - w.self) == TicksOf(k, es, Own)
    requires var a, b, own := Sampled(k), Sampled(After(k, es)), OwnAll(dA, dB, w.self);
             && ForeignSum(a, b, own, w) == TicksOf(k, es, Foreign) - grown
             && ClampedSum(a, b, own, w) >= ForeignSum(a, b, own, w)
             && Sum(Visited(a, b, own, w.self), ReapParts(a, b)) == ExitedCpu(k, es, FirstBase(k)) - lost
    ensures Reads(k, es, w, OwnAll(dA, dB, w.self), intrOn, intrOff, r, grown, lost)
  {
  }

  /** What a tame window reads: the run's own CPU exactly; foreign CPU less what the hidden
      CPU grew by; and on the pinned sum the CPU of reaped processes, less what the hidden
      pids' counters hold at the end and the hidden processes had used at the start. */
  lemma WindowExact(k: Kernel, es: seq<Event>, root: nat, w: Setting, dA: set<nat>, dB: set<nat>,
                    intrOn: int, intrOff: int, r: Reading) returns (grown: int, lost: int)
    requires TameWindow(k, es, root, w, dA, dB)
    requires IsReading(Sampled(k), Sampled(After(k, es)), dA, dB, w, intrOn, intrOff, r)
    ensures Reads(k, es, w, OwnAll(dA, dB, w.self), intrOn, intrOff, r, grown, lost)
    ensures grown == Hidden(After(k, es), OwnAll(dA, dB, w.self)) - Hidden(k, OwnAll(dA, dB, w.self))
    ensures lost == HiddenChild(After(k, es), OwnAll(dA, dB, w.self)) - Hidden(k, OwnAll(dA, dB, w.self))
  {
    grown := Hidden(After(k, es), OwnAll(dA, dB, w.self)) - Hidden(k, OwnAll(dA, dB, w.self));
    lost := HiddenChild(After(k, es), OwnAll(dA, dB, w.self)) - Hidden(k, OwnAll(dA, dB, w.self));
    WindowOwn(k, es, root, w, dA, dB);
    WindowForeign(k, es, root, w, dA, dB);
    WindowReaped(k, es, root, w, dA, dB);
    ReadingIs(k, es, w, dA, dB, intrOn, intrOff, r, grown, lost);
  }

  /** No pid the run uses at one end is a foreign process's at the other. */
  ghost predicate NoPidSwap(k: Kernel, k': Kernel) {
    Pids(k, Own) !! Pids(k', Foreign) && Pids(k', Own) !! Pids(k, Foreign)
  }

  lemma NoSwapHidesNothing(k: Kernel, k': Kernel, own: set<nat>, self: set<nat>)
    requires self == Pids(k, Guard) == Pids(k', Guard) && own == Pids(k, Own) + Pids(k', Own) + self
    requires NoPidSwap(k, k')
    ensures Hidden(k, own) == 0 && Hidden(k', own) == 0 && HiddenChild(k', own) == 0
  {
    forall p | p in own
      ensures p in k ==> k[p].whose != Foreign
      ensures p in k' ==> k'[p].whose != Foreign
    {
      assert p in k && k[p].whose == Foreign ==> p in Pids(k, Foreign);
      assert p in k' && k'[p].whose == Foreign ==> p in Pids(k', Foreign);
    }
    SumZero(k.Keys * own, AccountOf(k, Foreign));
    SumZero(k'.Keys * own, AccountOf(k', Foreign));
    SumZero(k'.Keys * own, HiddenChildOf(k'));
  }

  lemma WindowClear(k: Kernel, es: seq<Event>, root: nat, w: Setting, dA: set<nat>, dB: set<nat>)
    requires TameWindow(k, es, root, w, dA, dB) && NoPidSwap(k, After(k, es))
    ensures var k', own := After(k, es), OwnAll(dA, dB, w.self);
            Hidden(k, own) == 0 && Hidden(k', own) == 0 && HiddenChild(k', own) == 0 && ExitedCpu(k, es, FirstBase(k)) >= 0
  {
    OwnAllIs(k, es, root, w.self, dA, dB);
    NoSwapHidesNothing(k, After(k, es), OwnAll(dA, dB, w.self), w.self);
    ExitedRun(k, es, FirstBase(k), Sampled(k));
  }

  /** So where no pid is swapped between the run and a foreign process, the guard reads the
      truth, and foreign CPU never too low. */
  lemma UnswappedIsExact(k: Kernel, es: seq<Event>, root: nat, w: Setting, dA: set<nat>, dB: set<nat>,
                         intrOn: int, intrOff: int, r: Reading)
    requires TameWindow(k, es, root, w, dA, dB) && NoPidSwap(k, After(k, es))
    requires IsReading(Sampled(k), Sampled(After(k, es)), dA, dB, w, intrOn, intrOff, r)
    ensures Reads(k, es, w, OwnAll(dA, dB, w.self), intrOn, intrOff, r, 0, 0)
  {
    WindowClear(k, es, root, w, dA, dB);
    WindowOwn(k, es, root, w, dA, dB);
    WindowForeign(k, es, root, w, dA, dB);
    WindowReaped(k, es, root, w, dA, dB);
    ReadingIs(k, es, w, dA, dB, intrOn, intrOff, r, 0, 0);
  }

  // ---------------------------------------------------------------- a window read too low

  /** A child `c` of the run waits to be reaped, and a foreign process `f` runs. */
  ghost predicate AboutToSwap(k: Kernel, root: nat, c: nat, f: nat, start: nat, born: nat) {
    && Rooted(k, root)
    && c in k && c != 0 && c != root && k[c].zombie && k[c].whose == Own && Alive(k, k[c].proc.ppid) && k[c].proc.ppid != c
    && Alive(k, f) && k[f].whose == Foreign
    && start != k[c].proc.start && forall p :: p in k ==> k[p].born < born
  }

  /** The run reaps `c`; `f` forks a process that gets its pid, with a new start time, and
      runs for one tick. */
  ghost function Swapped(k: Kernel, c: nat, f: nat, start: nat, born: nat): Kernel
    requires c in k && f in k && k[c].proc.ppid in k
  {
    var q := k[c].proc.ppid;
    k[q := Reaped(k[q], k[c])][c := Task(Proc(f, 1, 0, start, k[f].proc.kthread, {}), k[f].whose, false, born)]
  }

  lemma SwapHappens(k: Kernel, root: nat, c: nat, f: nat, start: nat, born: nat) returns (es: seq<Event>)
    requires AboutToSwap(k, root, c, f, start, born)
    ensures Legal(k, es) && AllTame(k, es, root) && NewStarts(es, Sampled(k))
    ensures After(k, es) == Swapped(k, c, f, start, born) && TicksOf(k, es, Foreign) == 1
  {
    var q := k[c].proc.ppid;
    var e1, e2, e3 := Reap(c), Fork(f, c, start, born), Tick(c, {});
    var k1 := Apply(k, e1);
    assert f != q && f != c && k1[f] == k[f];
    var k2 := Apply(k1, e2);
    var k3 := Apply(k2, e3);
    assert k3 == Swapped(k, c, f, start, born);
    Before(k2, e3, [], Foreign);
    TameBefore(k2, e3, [], root);
    Before(k1, e2, [e3] + [], Foreign);
    TameBefore(k1, e2, [e3] + [], root);
    Before(k, e1, [e2] + ([e3] + []), Foreign);
    TameBefore(k, e1, [e2] + ([e3] + []), root);
    es := [e1] + ([e2] + ([e3] + []));
  }

  /** What is visited did not change, so it reads as nothing. */
  lemma SwapReadsNothing(k: Kernel, root: nat, c: nat, f: nat, start: nat, born: nat, w: Setting, cls: Class)
    requires AboutToSwap(k, root, c, f, start, born) && w.self == Pids(k, Guard)
    ensures var k' := Swapped(k, c, f, start, born);
            Sum(Visited(Sampled(k), Sampled(k'), Pids(k, Own) + Pids(k', Own) + w.self, w.self),
                HostParts(Sampled(k), Sampled(k'), w, cls)) == 0
  {
    var k' := Swapped(k, c, f, start, born);
    var v := Visited(Sampled(k), Sampled(k'), Pids(k, Own) + Pids(k', Own) + w.self, w.self);
    forall p | p in v
      ensures HostParts(Sampled(k), Sampled(k'), w, cls)(p) == 0
    {
      assert c in Pids(k, Own) && k[c].proc.ppid in Pids(k, Own);
      assert p in k && k'[p] == k[p];
    }
    SumZero(v, HostParts(Sampled(k), Sampled(k'), w, cls));
  }

  /** Whenever that happens the guard reads no foreign CPU at all, clamped or not, although
      a foreign process ran and its start time is new. */
  lemma SwapIsReadTooLow(k: Kernel, root: nat, c: nat, f: nat, start: nat, born: nat, w: Setting) returns (es: seq<Event>)
    requires AboutToSwap(k, root, c, f, start, born) && w.self == Pids(k, Guard)
    ensures Legal(k, es) && AllTame(k, es, root) && NewStarts(es, Sampled(k)) && TicksOf(k, es, Foreign) == 1
    ensures ClampedSum(Sampled(k), Sampled(After(k, es)), Pids(k, Own) + Pids(After(k, es), Own) + w.self, w) == 0
  {
    es := SwapHappens(k, root, c, f, start, born);
    SwapReadsNothing(k, root, c, f, start, born, w, KernelTask);
    SwapReadsNothing(k, root, c, f, start, born, w, RunnerTask);
    SwapReadsNothing(k, root, c, f, start, born, w, UserTask);
  }

  /** And it can happen. */
  lemma SwapCanHappen() returns (k: Kernel)
    ensures AboutToSwap(k, 2, 4, 1, 9, 9)
  {
    k := map[
      1 := Task(Proc(0, 5, 0, 1, false, {}), Foreign, false, 0),
      2 := Task(Proc(1, 7, 0, 2, false, {}), Own, false, 1),
      3 := Task(Proc(1, 3, 0, 3, false, {}), Guard, false, 2),
      4 := Task(Proc(2, 6, 0, 4, false, {}), Own, true, 3)];
  }
}
