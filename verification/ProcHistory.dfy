/**
 What the kernel does to the processes between two samples: run them, fork, exit,
 reparent orphans, and add a reaped child's whole lifetime to its reaper.
 */
module ProcHistory {
  import opened Sums
  import opened HostGuard

  /** Whose process it is. A child inherits it. */
  datatype Whose = Own | Foreign | Guard

  /** A process: its `/proc` fields, whose it is, whether it has exited and waits to
      be reaped, and its place in birth order. */
  datatype Task = Task(proc: Proc, whose: Whose, zombie: bool, born: nat)

  type Kernel = map<nat, Task>

  datatype Event =
    | Tick(pid: nat, cpus: set<int>)
    | Fork(parent: nat, pid: nat, start: nat, born: nat)
    | Exit(pid: nat, heir: nat)
    | Reap(pid: nat)
    | Discard(pid: nat)

  predicate Alive(k: Kernel, pid: nat) {
    pid in k && !k[pid].zombie
  }

  /** When an event can happen. A new process is the youngest; orphans go to an older
      one. */
  ghost predicate Enabled(k: Kernel, e: Event) {
    match e
    case Tick(pid, _) => Alive(k, pid)
    case Fork(parent, pid, _, born) => Alive(k, parent) && pid !in k && pid != 0 && forall p :: p in k ==> k[p].born < born
    case Exit(pid, heir) =>
      && Alive(k, pid) && Alive(k, heir) && heir != pid
      && forall c :: c in k && k[c].proc.ppid == pid ==> k[heir].born < k[c].born
    case Reap(pid) => pid in k && k[pid].zombie && Alive(k, k[pid].proc.ppid) && k[pid].proc.ppid != pid
    case Discard(pid) => pid in k && k[pid].zombie
  }

  function Ran(t: Task, cpus: set<int>): Task {
    t.(proc := t.proc.(ticks := t.proc.ticks + 1, cpus := cpus))
  }

  function Reaped(parent: Task, child: Task): Task {
    parent.(proc := parent.proc.(child := parent.proc.child + Total(child.proc)))
  }

  function Apply(k: Kernel, e: Event): Kernel
    requires Enabled(k, e)
  {
    match e
    case Tick(pid, cpus) => k[pid := Ran(k[pid], cpus)]
    case Fork(parent, pid, start, born) =>
      k[pid := Task(Proc(parent, 0, 0, start, k[parent].proc.kthread, {}), k[parent].whose, false, born)]
    case Exit(pid, heir) =>
      map p | p in k ::
        if p == pid then k[p].(zombie := true)
        else if k[p].proc.ppid == pid then k[p].(proc := k[p].proc.(ppid := heir))
        else k[p]
    case Reap(pid) =>
      var parent := k[pid].proc.ppid;
      k[parent := Reaped(k[parent], k[pid])] - {pid}
    case Discard(pid) => k - {pid}
  }

  ghost predicate Legal(k: Kernel, es: seq<Event>)
    decreases |es|
  {
    es == [] || (Enabled(k, es[0]) && Legal(Apply(k, es[0]), es[1..]))
  }

  ghost function After(k: Kernel, es: seq<Event>): Kernel
    requires Legal(k, es)
    decreases |es|
  {
    if es == [] then k else After(Apply(k, es[0]), es[1..])
  }

  /** What a `/proc` scan at this instant lists. */
  function Sampled(k: Kernel): Table {
    map pid | pid in k :: k[pid].proc
  }

  // ---------------------------------------------------------------- what really happened

  /** Ticks the processes of `whose` ran. */
  ghost function TicksOf(k: Kernel, es: seq<Event>, whose: Whose): nat
    requires Legal(k, es)
    decreases |es|
  {
    if es == [] then 0
    else (if es[0].Tick? && k[es[0].pid].whose == whose then 1 else 0) + TicksOf(Apply(k, es[0]), es[1..], whose)
  }

  /** CPU that entered the accounts of `whose` from outside, less what left them: a
      reaped child's lifetime crosses over with its reaper, a discarded one vanishes. */
  ghost function FlowOf(k: Kernel, es: seq<Event>, whose: Whose): int
    requires Legal(k, es)
    decreases |es|
  {
    if es == [] then 0 else Flow(k, es[0], whose) + FlowOf(Apply(k, es[0]), es[1..], whose)
  }

  function Flow(k: Kernel, e: Event, whose: Whose): int
    requires e.Reap? ==> e.pid in k && k[e.pid].proc.ppid in k
    requires e.Discard? ==> e.pid in k
  {
    match e
    case Reap(pid) =>
      (if k[k[pid].proc.ppid].whose == whose then Total(k[pid].proc) else 0)
      - (if k[pid].whose == whose then Total(k[pid].proc) else 0)
    case Discard(pid) => if k[pid].whose == whose then 0 - Total(k[pid].proc) else 0
    case _ => 0
  }

  /** The accounts of `whose`: own ticks plus reaped ticks of every listed process. */
  ghost function Account(k: Kernel, whose: Whose): int {
    Sum(k.Keys, AccountOf(k, whose))
  }

  function AccountOf(k: Kernel, whose: Whose): nat -> int {
    (pid: nat) => if pid in k && k[pid].whose == whose then Total(k[pid].proc) else 0
  }

  lemma ForkStep(k: Kernel, e: Event, whose: Whose)
    requires Enabled(k, e) && e.Fork?
    ensures Account(Apply(k, e), whose) == Account(k, whose)
  {
    var k' := Apply(k, e);
    assert k'.Keys == k.Keys + {e.pid};
    SumInsert(k.Keys, AccountOf(k', whose), e.pid);
    SumSame(k.Keys, AccountOf(k, whose), AccountOf(k', whose));
  }

  lemma ExitStep(k: Kernel, e: Event, whose: Whose)
    requires Enabled(k, e) && e.Exit?
    ensures Account(Apply(k, e), whose) == Account(k, whose)
  {
    var k' := Apply(k, e);
    assert k'.Keys == k.Keys;
    SumSame(k.Keys, AccountOf(k, whose), AccountOf(k', whose));
  }

  lemma ReapStep(k: Kernel, e: Event, whose: Whose)
    requires Enabled(k, e) && e.Reap?
    ensures Account(Apply(k, e), whose) == Account(k, whose) + Flow(k, e, whose)
  {
    var k' := Apply(k, e);
    var parent := k[e.pid].proc.ppid;
    assert k'.Keys == k.Keys - {e.pid};
    SumPick(k.Keys, AccountOf(k, whose), e.pid);
    SumChange(k'.Keys, AccountOf(k, whose), AccountOf(k', whose), parent);
  }

  lemma DiscardStep(k: Kernel, e: Event, whose: Whose)
    requires Enabled(k, e) && e.Discard?
    ensures Account(Apply(k, e), whose) == Account(k, whose) + Flow(k, e, whose)
  {
    var k' := Apply(k, e);
    assert k'.Keys == k.Keys - {e.pid};
    SumPick(k.Keys, AccountOf(k, whose), e.pid);
    SumSame(k'.Keys, AccountOf(k, whose), AccountOf(k', whose));
  }

  /** One event changes the accounts by the tick it ran and by what crossed over. A
      reap inside one group moves a lifetime from one member to another. */
  lemma AccountStep(k: Kernel, e: Event, whose: Whose)
    requires Enabled(k, e)
    ensures Account(Apply(k, e), whose)
            == Account(k, whose) + (if e.Tick? && k[e.pid].whose == whose then 1 else 0) + Flow(k, e, whose)
  {
    match e
    case Tick(pid, _) =>
      assert Apply(k, e).Keys == k.Keys;
      SumChange(k.Keys, AccountOf(k, whose), AccountOf(Apply(k, e), whose), pid);
    case Fork(_, _, _, _) => ForkStep(k, e, whose);
    case Exit(_, _) => ExitStep(k, e, whose);
    case Reap(_) => ReapStep(k, e, whose);
    case Discard(_) => DiscardStep(k, e, whose);
  }

  /** Conservation over every history. */
  lemma {:induction false} AccountConserved(k: Kernel, es: seq<Event>, whose: Whose)
    requires Legal(k, es)
    ensures Account(After(k, es), whose) == Account(k, whose) + TicksOf(k, es, whose) + FlowOf(k, es, whose)
    decreases |es|
  {
    if es != [] {
      AccountStep(k, es[0], whose);
      AccountConserved(Apply(k, es[0]), es[1..], whose);
    }
  }

  /** One event in front of a history. */
  lemma Before(k: Kernel, e: Event, es: seq<Event>, whose: Whose)
    requires Enabled(k, e) && Legal(Apply(k, e), es)
    ensures Legal(k, [e] + es) && After(k, [e] + es) == After(Apply(k, e), es)
    ensures TicksOf(k, [e] + es, whose)
            == TicksOf(Apply(k, e), es, whose) + if e.Tick? && k[e.pid].whose == whose then 1 else 0
  {
    assert ([e] + es)[0] == e && ([e] + es)[1..] == es;
  }
}
