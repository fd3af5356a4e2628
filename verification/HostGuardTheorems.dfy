/**
 Two samples recover exactly what ran between them.

 The identities hold for every history. What the guard needs from the host for the
 readings to be exact is spelled out as conditions on the events of the window, each
 about one event at a time.
 */
module HostGuardTheorems {
  import opened Sums
  import opened HostGuard
  import opened ProcHistory

  // ---------------------------------------------------------------- the run's tree

  /** The parent links of the process table. */
  ghost predicate Parented(k: Kernel) {
    && 0 !in k
    && (forall p :: p in k ==> k[p].proc.ppid == 0 || k[p].proc.ppid in k)
    && (forall p :: p in k ==> k[p].proc.ppid != p)
    && (forall p :: p in k && k[p].proc.ppid in k ==> !k[k[p].proc.ppid].zombie)
  }

  /** The run's processes hang together under the root, nothing foreign hangs below
      them, and the guard has no children. */
  ghost predicate Rooted(k: Kernel, root: nat) {
    && Parented(k)
    && root in k && k[root].whose == Own
    && (forall p :: p in k && k[p].whose == Own && p != root ==>
          && k[p].proc.ppid in k
          && k[k[p].proc.ppid].whose == Own
          && k[k[p].proc.ppid].born < k[p].born)
    && (forall p :: p in k && k[p].proc.ppid in k && k[p].whose == Foreign ==> k[k[p].proc.ppid].whose == Foreign)
    && (forall p :: p in k && k[p].proc.ppid in k ==> k[k[p].proc.ppid].whose != Guard)
  }

  /** The guard's demands on one event of the window: no process of the run is orphaned
      out of it and no foreign one into it, every exit is waited for, neither the root
      nor the guard is reaped, and the guard starts nothing. */
  ghost predicate Tame(k: Kernel, e: Event, root: nat) {
    match e
    case Exit(pid, heir) => pid in k && heir in k &&
      ((exists c :: c in k && k[c].proc.ppid == pid) ==> k[heir].whose == k[pid].whose)
    case Fork(parent, _, _, _) => parent in k && k[parent].whose != Guard
    case Reap(pid) => pid in k && pid != root && k[pid].whose != Guard
    case Discard(_) => false
    case Tick(_, _) => true
  }

  ghost predicate AllTame(k: Kernel, es: seq<Event>, root: nat)
    requires Legal(k, es)
    decreases |es|
  {
    es == [] || (Tame(k, es[0], root) && AllTame(Apply(k, es[0]), es[1..], root))
  }

  lemma TameBefore(k: Kernel, e: Event, es: seq<Event>, root: nat)
    requires Enabled(k, e) && Legal(Apply(k, e), es) && Legal(k, [e] + es)
    ensures AllTame(k, [e] + es, root) <==> Tame(k, e, root) && AllTame(Apply(k, e), es, root)
  {
    assert ([e] + es)[0] == e && ([e] + es)[1..] == es;
  }

  lemma RootedStep(k: Kernel, e: Event, root: nat)
    requires Rooted(k, root) && Enabled(k, e) && Tame(k, e, root)
    ensures Rooted(Apply(k, e), root)
  {
    match e
    case Tick(_, _) => TickRooted(k, e, root);
    case Fork(_, _, _, _) => ForkRooted(k, e, root);
    case Exit(_, _) => ExitRooted(k, e, root);
    case Reap(_) => ReapRooted(k, e, root);
  }

  lemma TickRooted(k: Kernel, e: Event, root: nat)
    requires Rooted(k, root) && Enabled(k, e) && e.Tick?
    ensures Rooted(Apply(k, e), root)
  {
  }

  lemma ForkRooted(k: Kernel, e: Event, root: nat)
    requires Rooted(k, root) && Enabled(k, e) && Tame(k, e, root) && e.Fork?
    ensures Rooted(Apply(k, e), root)
  {
    var k' := Apply(k, e);
    forall p | p in k && k[p].proc.ppid in k
      ensures k'[k'[p].proc.ppid] == k[k[p].proc.ppid]
    {
    }
  }

  lemma ReapRooted(k: Kernel, e: Event, root: nat)
    requires Rooted(k, root) && Enabled(k, e) && Tame(k, e, root) && e.Reap?
    ensures Rooted(Apply(k, e), root)
  {
    var k' := Apply(k, e);
    forall p | p in k'
      ensures p in k && k'[p].proc.ppid == k[p].proc.ppid && k'[p].whose == k[p].whose
      ensures k'[p].born == k[p].born && k'[p].zombie == k[p].zombie
      ensures k[p].proc.ppid != e.pid
    {
    }
  }

  lemma ExitRooted(k: Kernel, e: Event, root: nat)
    requires Rooted(k, root) && Enabled(k, e) && Tame(k, e, root) && e.Exit?
    ensures Rooted(Apply(k, e), root)
  {
    var k' := Apply(k, e);
    assert k'.Keys == k.Keys;
    forall p | p in k
      ensures k'[p].whose == k[p].whose && k'[p].born == k[p].born
      ensures k'[p].proc.ppid == if k[p].proc.ppid == e.pid then e.heir else k[p].proc.ppid
      ensures k[p].proc.ppid == e.pid ==> k[e.heir].whose == k[e.pid].whose
    {
    }
  }

  /** The run's tree, as the labels have it. */
  function Pids(k: Kernel, whose: Whose): set<nat> {
    set p | p in k && k[p].whose == whose
  }

  lemma {:induction false} OwnReached(k: Kernel, root: nat, d: set<nat>, p: nat)
    requires Rooted(k, root) && Family(Sampled(k), root, d)
    requires p in k && k[p].whose == Own
    ensures p in d
    decreases k[p].born
  {
    if p != root {
      OwnReached(k, root, d, k[p].proc.ppid);
      assert Sampled(k)[p].ppid in d;
    }
  }

  /** The worklist over parent links finds exactly the run's processes. */
  lemma TreeIsOwn(k: Kernel, root: nat, d: set<nat>)
    requires Rooted(k, root) && IsDescendants(Sampled(k), root, d)
    ensures d - Pids(k, Guard) == Pids(k, Own)
  {
    var kin := Pids(k, Own) + Pids(k, Guard);
    assert Family(Sampled(k), root, kin);
    forall p | p in Pids(k, Own)
      ensures p in d
    {
      OwnReached(k, root, d, p);
    }
  }

  lemma {:induction false} TameRun(k: Kernel, es: seq<Event>, root: nat)
    requires Rooted(k, root) && Legal(k, es) && AllTame(k, es, root)
    ensures Rooted(After(k, es), root)
    ensures FlowOf(k, es, Own) == 0 && FlowOf(k, es, Foreign) == 0
    decreases |es|
  {
    if es != [] {
      RootedStep(k, es[0], root);
      TameRun(Apply(k, es[0]), es[1..], root);
    }
  }

  /** `tree_ticks` of the own tree is the run's account. */
  lemma TreeTicksIsAccount(k: Kernel)
    ensures TreeTicks(Sampled(k), Pids(k, Own)) == Account(k, Own)
  {
    var own := Pids(k, Own);
    assert own * Sampled(k).Keys == own;
    SumSame(own, TotalIn(Sampled(k)), AccountOf(k, Own));
    SumSubset(own, k.Keys, AccountOf(k, Own));
  }

  /** What a set of pids taken for the run's tree gets wrong: the others' CPU in it, less the
      run's left out of it. */
  ghost function Astray(k: Kernel, tree: set<nat>): int {
    Sum(tree * k.Keys - Pids(k, Own), TotalIn(Sampled(k))) - Sum(Pids(k, Own) - tree, TotalIn(Sampled(k)))
  }

  lemma TreeIsAccount(k: Kernel, tree: set<nat>)
    ensures TreeTicks(Sampled(k), tree) == Account(k, Own) + Astray(k, tree)
  {
    var own, f := Pids(k, Own), TotalIn(Sampled(k));
    TreeTicksIsAccount(k);
    assert own * Sampled(k).Keys == own && Sampled(k).Keys == k.Keys;
    SumSplit(tree * k.Keys, own, f);
    SumSplit(own, tree, f);
    assert tree * k.Keys * own == own * tree;
  }

  /** The general identity, whatever sets of pids are taken for the run's tree at the two
      ends: the reading is what the run ran, plus what crossed between the accounts, plus
      what the error of the sets grew by, and the clamp at zero binds exactly when that
      sum is negative. */
  lemma OwnIdentity(k: Kernel, es: seq<Event>, dA: set<nat>, dB: set<nat>)
    requires Legal(k, es)
    ensures var k' := After(k, es);
            var read, ran := OwnTicks(Sampled(k), Sampled(k'), dA, dB), TicksOf(k, es, Own);
            var more := FlowOf(k, es, Own) + (Astray(k', dB) - Astray(k, dA));
            read == Max0(ran + more) && (read == ran <==> more == 0 || (ran == 0 && more < 0))
  {
    TreeGrows(k, es, dA, dB);
    Clamped(TicksOf(k, es, Own), FlowOf(k, es, Own) + (Astray(After(k, es), dB) - Astray(k, dA)));
  }

  lemma TreeGrows(k: Kernel, es: seq<Event>, dA: set<nat>, dB: set<nat>)
    requires Legal(k, es)
    ensures TreeTicks(Sampled(After(k, es)), dB) - TreeTicks(Sampled(k), dA)
            == TicksOf(k, es, Own) + (FlowOf(k, es, Own) + (Astray(After(k, es), dB) - Astray(k, dA)))
  {
    TreeIsAccount(k, dA);
    TreeIsAccount(After(k, es), dB);
    AccountConserved(k, es, Own);
  }

  lemma Clamped(ran: nat, more: int)
    ensures Max0(ran + more) == ran <==> more == 0 || (ran == 0 && more < 0)
  {
  }

  /** The window's own CPU is exactly what the run's processes ran, each counted once,
      whoever reaped them, and the clamp at zero never binds. */
  lemma OwnTicksExact(k: Kernel, es: seq<Event>, root: nat, dA: set<nat>, dB: set<nat>)
    requires Rooted(k, root) && Legal(k, es) && AllTame(k, es, root)
    requires IsDescendants(Sampled(k), root, dA) && IsDescendants(Sampled(After(k, es)), root, dB)
    ensures var k' := After(k, es);
            OwnTicks(Sampled(k), Sampled(k'), dA - Pids(k, Guard), dB - Pids(k', Guard)) == TicksOf(k, es, Own)
  {
    TameRun(k, es, root);
    TreeIsOwn(k, root, dA);
    TreeIsOwn(After(k, es), root, dB);
    TreeTicksIsAccount(k);
    TreeTicksIsAccount(After(k, es));
    AccountConserved(k, es, Own);
  }

  // ---------------------------------------------------------------- foreign load

  /** The unclamped class sums the void rule adds up, the sampler's left out. */
  ghost function ForeignSum(a: Table, b: Table, ownAll: set<nat>, w: Setting): int {
    var v := Visited(a, b, ownAll, w.self);
    Sum(v, HostParts(a, b, w, KernelTask)) + Sum(v, HostParts(a, b, w, RunnerTask)) + Sum(v, HostParts(a, b, w, UserTask))
  }

  /** Foreign CPU behind process ids the attribution skips. */
  ghost function Hidden(k: Kernel, skip: set<nat>): int {
    Sum(k.Keys * skip, AccountOf(k, Foreign))
  }

  /** Over the three judged classes, a process adds its total at the end less its total
      at the start, whether it lived through the window, exited, was born in it, or its
      pid was reused. */
  function NetPart(a: Table, b: Table, w: Setting): nat -> int {
    (pid: nat) => if pid in w.self then 0 else TotalIn(b)(pid) - TotalIn(a)(pid)
  }

  lemma ForeignIsNet(a: Table, b: Table, ownAll: set<nat>, w: Setting)
    ensures ForeignSum(a, b, ownAll, w) == Sum(Visited(a, b, ownAll, w.self), NetPart(a, b, w))
  {
    var v := Visited(a, b, ownAll, w.self);
    var f, g, h := HostParts(a, b, w, KernelTask), HostParts(a, b, w, RunnerTask), HostParts(a, b, w, UserTask);
    var fg := (pid: nat) => f(pid) + g(pid);
    SumPlus(v, f, g, fg);
    forall pid | pid in v
      ensures NetPart(a, b, w)(pid) == fg(pid) + h(pid)
    {
      NetOfClasses(a, b, w, pid);
    }
    SumPlus(v, fg, h, NetPart(a, b, w));
  }

  lemma NetOfClasses(a: Table, b: Table, w: Setting, pid: nat)
    requires pid in a || pid in b
    ensures HostPart(a, b, pid, w, KernelTask) + HostPart(a, b, pid, w, RunnerTask) + HostPart(a, b, pid, w, UserTask)
            == NetPart(a, b, w)(pid)
  {
    var lived := pid in a && pid in b && a[pid].start == b[pid].start;
    if pid in a && !lived {
      OneClass(TaskClass(pid, a[pid], w), Total(a[pid]));
    }
    if pid in b {
      OneClass(TaskClass(pid, b[pid], w), Total(b[pid]) - if lived then Total(a[pid]) else 0);
    }
    ClassParts(a, b, w, pid, KernelTask);
    ClassParts(a, b, w, pid, RunnerTask);
    ClassParts(a, b, w, pid, UserTask);
    assert NetPart(a, b, w)(pid) == if pid in w.self then 0 else TotalIn(b)(pid) - TotalIn(a)(pid);
  }

  lemma ClassParts(a: Table, b: Table, w: Setting, pid: nat, c: Class)
    requires pid in a || pid in b
    ensures var lived := pid in a && pid in b && a[pid].start == b[pid].start;
            HostPart(a, b, pid, w, c)
            == (if pid in b then InClass(TaskClass(pid, b[pid], w), Total(b[pid]) - if lived then Total(a[pid]) else 0, c) else 0)
               - (if pid in a && !lived then InClass(TaskClass(pid, a[pid], w), Total(a[pid]), c) else 0)
  {
  }

  function InClass(cls: Class, x: int, c: Class): int {
    if cls == c then x else 0
  }

  lemma OneClass(cls: Class, x: int)
    ensures InClass(cls, x, KernelTask) + InClass(cls, x, RunnerTask) + InClass(cls, x, UserTask)
            == if cls == SamplerTask then 0 else x
  {
    match cls
    case KernelTask =>
    case RunnerTask =>
    case UserTask =>
    case SamplerTask =>
  }

  /** The foreign account, split into what the attribution sees and what it skips. */
  lemma Visible(k: Kernel, ownAll: set<nat>, all: set<nat>)
    requires k.Keys <= all
    ensures Sum(all - ownAll, AccountOf(k, Foreign)) == Account(k, Foreign) - Hidden(k, ownAll)
  {
    var f := AccountOf(k, Foreign);
    SumSubset(k.Keys - ownAll, all - ownAll, f);
    SumSplit(k.Keys, ownAll, f);
  }

  lemma OthersForeign(k: Kernel, ownAll: set<nat>, pid: nat)
    requires Pids(k, Own) + Pids(k, Guard) <= ownAll && pid !in ownAll
    ensures AccountOf(k, Foreign)(pid) == TotalIn(Sampled(k))(pid)
  {
    if pid in k {
      assert pid !in Pids(k, Own) + Pids(k, Guard);
      match k[pid].whose
      case Own =>
      case Guard =>
      case Foreign =>
    }
  }

  lemma NetIsForeign(k: Kernel, k': Kernel, ownAll: set<nat>, w: Setting)
    requires w.self <= ownAll
    requires Pids(k, Own) + Pids(k, Guard) <= ownAll && Pids(k', Own) + Pids(k', Guard) <= ownAll
    ensures var all := k.Keys + k'.Keys;
            Sum(Visited(Sampled(k), Sampled(k'), ownAll, w.self), NetPart(Sampled(k), Sampled(k'), w))
            == Sum(all - ownAll, AccountOf(k', Foreign)) - Sum(all - ownAll, AccountOf(k, Foreign))
  {
    var a, b := Sampled(k), Sampled(k');
    var all := k.Keys + k'.Keys;
    var v := Visited(a, b, ownAll, w.self);
    assert all - ownAll <= v;
    SumSubset(all - ownAll, v, NetPart(a, b, w));
    forall pid | pid in all - ownAll
      ensures NetPart(a, b, w)(pid) == AccountOf(k', Foreign)(pid) - AccountOf(k, Foreign)(pid)
    {
      OthersForeign(k, ownAll, pid);
      OthersForeign(k', ownAll, pid);
    }
    SumMinus(all - ownAll, AccountOf(k', Foreign), AccountOf(k, Foreign), NetPart(a, b, w));
  }

  /** The general identity. The reading is what foreign processes ran, plus what crossed
      between the accounts, less what hides behind skipped pids. */
  lemma ForeignIdentity(k: Kernel, es: seq<Event>, ownAll: set<nat>, w: Setting)
    requires Legal(k, es) && w.self <= ownAll
    requires Pids(k, Own) + Pids(k, Guard) <= ownAll
    requires Pids(After(k, es), Own) + Pids(After(k, es), Guard) <= ownAll
    ensures var k' := After(k, es);
            ForeignSum(Sampled(k), Sampled(k'), ownAll, w)
            == TicksOf(k, es, Foreign) + FlowOf(k, es, Foreign) - (Hidden(k', ownAll) - Hidden(k, ownAll))
  {
    var k' := After(k, es);
    var all := k.Keys + k'.Keys;
    ForeignIsNet(Sampled(k), Sampled(k'), ownAll, w);
    NetIsForeign(k, k', ownAll, w);
    Visible(k, ownAll, all);
    Visible(k', ownAll, all);
    AccountConserved(k, es, Foreign);
  }

  /** In any legal history the reading is the truth exactly when what crossed between the
      accounts is what the hidden CPU grew by, and too low exactly when it is less. */
  lemma ForeignReadIff(k: Kernel, es: seq<Event>, ownAll: set<nat>, w: Setting)
    requires Legal(k, es) && w.self <= ownAll
    requires Pids(k, Own) + Pids(k, Guard) <= ownAll
    requires Pids(After(k, es), Own) + Pids(After(k, es), Guard) <= ownAll
    ensures var k' := After(k, es);
            var sum, grown := ForeignSum(Sampled(k), Sampled(k'), ownAll, w), Hidden(k', ownAll) - Hidden(k, ownAll);
            && (sum == TicksOf(k, es, Foreign) <==> FlowOf(k, es, Foreign) == grown)
            && (sum < TicksOf(k, es, Foreign) <==> FlowOf(k, es, Foreign) < grown)
  {
    ForeignIdentity(k, es, ownAll, w);
  }

  /** Hidden CPU is that of foreign processes under skipped pids, and there is some exactly
      when one of them has used any. */
  lemma HiddenIff(k: Kernel, skip: set<nat>)
    ensures Hidden(k, skip) >= 0
    ensures Hidden(k, skip) > 0 <==> exists p :: p in skip && p in k && k[p].whose == Foreign && Total(k[p].proc) > 0
  {
    var f, s := AccountOf(k, Foreign), k.Keys * skip;
    SumOfNaturals(s, f);
    assert (exists p :: p in s && f(p) != 0) <==>
             (exists p :: p in skip && p in k && k[p].whose == Foreign && Total(k[p].proc) > 0) by {
      assert forall p :: p in s ==> (f(p) != 0 <==> k[p].whose == Foreign && Total(k[p].proc) > 0);
    }
  }

  lemma ClampsOnlyRaise(x: int, y: int, z: int)
    ensures Max0(x) + Max0(y) + Max0(z) >= x + y + z
  {
  }

  /** The three clamped class sums, as the guard adds them up. */
  ghost function ClampedSum(a: Table, b: Table, ownAll: set<nat>, w: Setting): int {
    var v := Visited(a, b, ownAll, w.self);
    Max0(Sum(v, HostParts(a, b, w, KernelTask))) + Max0(Sum(v, HostParts(a, b, w, RunnerTask)))
    + Max0(Sum(v, HostParts(a, b, w, UserTask)))
  }

  lemma ClampedIsNoLess(a: Table, b: Table, ownAll: set<nat>, w: Setting)
    ensures ClampedSum(a, b, ownAll, w) >= ForeignSum(a, b, ownAll, w)
  {
    var v := Visited(a, b, ownAll, w.self);
    ClampsOnlyRaise(Sum(v, HostParts(a, b, w, KernelTask)), Sum(v, HostParts(a, b, w, RunnerTask)),
                    Sum(v, HostParts(a, b, w, UserTask)));
  }

  /** In a tame window the judged classes add up to the ticks foreign processes ran, less
      what the CPU hidden behind skipped pids grew by: they are exact exactly when it did
      not change, and never too low exactly when it did not grow. */
  lemma ForeignExact(k: Kernel, es: seq<Event>, root: nat, ownAll: set<nat>, w: Setting)
    requires Rooted(k, root) && Legal(k, es) && AllTame(k, es, root) && w.self <= ownAll
    requires Pids(k, Own) + Pids(k, Guard) <= ownAll
    requires Pids(After(k, es), Own) + Pids(After(k, es), Guard) <= ownAll
    ensures var a, b, k' := Sampled(k), Sampled(After(k, es)), After(k, es);
            && ForeignSum(a, b, ownAll, w) == TicksOf(k, es, Foreign) - (Hidden(k', ownAll) - Hidden(k, ownAll))
            && (ForeignSum(a, b, ownAll, w) == TicksOf(k, es, Foreign) <==> Hidden(k', ownAll) == Hidden(k, ownAll))
            && (ForeignSum(a, b, ownAll, w) >= TicksOf(k, es, Foreign) <==> Hidden(k', ownAll) <= Hidden(k, ownAll))
            && ClampedSum(a, b, ownAll, w) >= ForeignSum(a, b, ownAll, w)
  {
    TameRun(k, es, root);
    ForeignIdentity(k, es, ownAll, w);
    ClampedIsNoLess(Sampled(k), Sampled(After(k, es)), ownAll, w);
  }
}
