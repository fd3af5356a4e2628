/**
 The host guard's reading of two `/proc` samples: which processes are the run's own
 tree, how much CPU that tree used, and how much everything else used.
 */
module HostGuard {
  import opened Options
  import opened Sums

  /** One `/proc/<pid>/stat` reading; times in ticks. */
  datatype Proc = Proc(ppid: nat, ticks: nat, child: nat, start: nat, kthread: bool, cpus: set<int>)

  type Table = map<nat, Proc>

  datatype Class = KernelTask | RunnerTask | UserTask | SamplerTask

  function Total(p: Proc): nat {
    p.ticks + p.child
  }

  // ---------------------------------------------------------------- the own tree

  /** `s` holds the root and the children of everything it holds. */
  ghost predicate Family(procs: Table, root: nat, s: set<nat>) {
    && root in s
    && forall pid :: pid in procs && procs[pid].ppid in s ==> pid in s
  }

  /** `s` is the root and its descendants: the least family. */
  ghost predicate IsDescendants(procs: Table, root: nat, s: set<nat>) {
    && Family(procs, root, s)
    && forall t: set<nat> :: Family(procs, root, t) ==> s <= t
  }

  /** Who has whom as parent: the dictionary of child lists. */
  ghost predicate IsKids(procs: Table, seen: set<nat>, kids: map<nat, seq<nat>>) {
    && (forall p, i :: p in kids && 0 <= i < |kids[p]| ==> kids[p][i] in seen && kids[p][i] in procs && procs[kids[p][i]].ppid == p)
    && (forall pid :: pid in seen ==> pid in procs && procs[pid].ppid in kids && pid in kids[procs[pid].ppid])
  }

  method Kids(procs: Table) returns (kids: map<nat, seq<nat>>)
    ensures IsKids(procs, procs.Keys, kids)
  {
    kids := map[];
    var rest := procs.Keys;
    while rest != {}
      invariant rest <= procs.Keys
      invariant IsKids(procs, procs.Keys - rest, kids)
    {
      var pid :| pid in rest;
      var p := procs[pid].ppid;
      var was := if p in kids then kids[p] else [];
      kids := kids[p := was + [pid]];
      assert kids[p][|was|] == pid;
      rest := rest - {pid};
    }
    assert procs.Keys - rest == procs.Keys;
  }

  /** The worklist: everything found or waiting belongs to every family, and only the
      children of waiting processes can still be missing. */
  ghost predicate Searching(procs: Table, root: nat, out: set<nat>, stack: seq<nat>) {
    && (root in out || root in stack)
    && (forall x :: x in out || x in stack ==> x in procs.Keys + {root})
    && (forall pid :: pid in procs && procs[pid].ppid in out ==> pid in out || pid in stack)
    && (forall t: set<nat>, x :: Family(procs, root, t) && (x in out || x in stack) ==> x in t)
  }

  function Children(kids: map<nat, seq<nat>>, pid: nat): seq<nat> {
    if pid in kids then kids[pid] else []
  }

  lemma SearchStep(procs: Table, root: nat, kids: map<nat, seq<nat>>, out: set<nat>, stack: seq<nat>, pid: nat)
    requires IsKids(procs, procs.Keys, kids) && Searching(procs, root, out, stack + [pid])
    ensures pid in out ==> Searching(procs, root, out, stack)
    ensures Searching(procs, root, out + {pid}, stack + Children(kids, pid))
    ensures pid in procs.Keys + {root}
  {
    var was, now := stack + [pid], stack + Children(kids, pid);
    assert forall x :: x in was <==> x in stack || x == pid;
    assert forall x :: x in now <==> x in stack || x in Children(kids, pid);
    forall x | x in Children(kids, pid)
      ensures x in procs && procs[x].ppid == pid
    {
      var i :| 0 <= i < |kids[pid]| && kids[pid][i] == x;
    }
    forall t: set<nat>, x | Family(procs, root, t) && (x in out + {pid} || x in now)
      ensures x in t
    {
      assert pid in t;
    }
  }

  method Descendants(procs: Table, root: nat) returns (out: set<nat>)
    ensures IsDescendants(procs, root, out)
  {
    var kids := Kids(procs);
    out := {};
    var stack := [root];
    ghost var all := procs.Keys + {root};
    while stack != []
      invariant Searching(procs, root, out, stack)
      decreases |all - out|, |stack|
    {
      var pid := stack[|stack| - 1];
      assert stack == stack[..|stack| - 1] + [pid];
      stack := stack[..|stack| - 1];
      SearchStep(procs, root, kids, out, stack, pid);
      if pid !in out {
        assert pid in all - out;
        SmallerSet(all - (out + {pid}), all - out);
        out := out + {pid};
        stack := stack + Children(kids, pid);
      }
    }
  }

  lemma SmallerSet(s: set<nat>, t: set<nat>)
    requires s < t
    ensures |s| < |t|
  {
    assert t - s != {} by { assert s + (t - s) == t; }
    var x :| x in t - s;
    assert s <= t - {x};
    SubsetSize(s, t - {x});
  }

  /** CPU of the live members of `tree`, and of what they reaped. */
  ghost function TreeTicks(procs: Table, tree: set<nat>): int {
    Sum(tree * procs.Keys, TotalIn(procs))
  }

  function TotalIn(procs: Table): nat -> int {
    pid => if pid in procs then Total(procs[pid]) else 0
  }

  /** The window's own CPU: `max(0, ...)` of the two tree readings. */
  ghost function OwnTicks(a: Table, b: Table, ownA: set<nat>, ownB: set<nat>): int {
    var d := TreeTicks(b, ownB) - TreeTicks(a, ownA);
    if d < 0 then 0 else d
  }

  // ---------------------------------------------------------------- attribution

  /** What tells the runner's own processes from the rest. */
  datatype Setting = Setting(self: set<nat>, pins: set<int>, runCgroup: string, cgroupOf: nat -> string)

  function TaskClass(pid: nat, p: Proc, w: Setting): Class {
    if pid in w.self then SamplerTask
    else if p.kthread || pid == 2 || p.ppid == 2 then KernelTask
    else if w.runCgroup != "" && w.cgroupOf(pid) == w.runCgroup then RunnerTask
    else UserTask
  }

  /** The reading at the start, unless its process has gone and its pid was reused. */
  function Earlier(a: Table, b: Table, pid: nat): Option<Proc> {
    if pid !in a then None
    else if pid in b && b[pid].start != a[pid].start then None
    else Some(a[pid])
  }

  /** What process `pid` adds to class `c`. */
  function HostPart(a: Table, b: Table, pid: nat, w: Setting, c: Class): int {
    var gone := if pid in a && (Earlier(a, b, pid).None? || pid !in b) && TaskClass(pid, a[pid], w) == c
                then Total(a[pid]) else 0;
    var here := if pid in b && TaskClass(pid, b[pid], w) == c
                then Total(b[pid]) - (if Earlier(a, b, pid).Some? then Total(a[pid]) else 0) else 0;
    here - gone
  }

  /** What process `pid` adds to the CPU of children reaped in the window. */
  function ReapPart(a: Table, b: Table, pid: nat): int {
    var gone := if pid in a && (Earlier(a, b, pid).None? || pid !in b) then Total(a[pid]) else 0;
    var here := if pid in b then b[pid].child - (if Earlier(a, b, pid).Some? then a[pid].child else 0) else 0;
    here - gone
  }

  /** What process `pid` adds on the pinned CPUs, whatever its class. */
  function PinPart(a: Table, b: Table, pid: nat, w: Setting): int {
    if pid in b && (b[pid].cpus * w.pins != {} || (Earlier(a, b, pid).Some? && a[pid].cpus * w.pins != {}))
    then b[pid].ticks - (if Earlier(a, b, pid).Some? then a[pid].ticks else 0)
    else 0
  }

  function Max0(x: int): nat {
    if x < 0 then 0 else x
  }

  function HostParts(a: Table, b: Table, w: Setting, c: Class): nat -> int {
    (pid: nat) => HostPart(a, b, pid, w, c)
  }

  function ReapParts(a: Table, b: Table): nat -> int {
    (pid: nat) => ReapPart(a, b, pid)
  }

  function PinParts(a: Table, b: Table, w: Setting): nat -> int {
    (pid: nat) => PinPart(a, b, pid, w)
  }

  /** The processes the attribution looks at: everything but the own tree, and the
      guard itself. */
  function Visited(a: Table, b: Table, ownAll: set<nat>, self: set<nat>): set<nat> {
    set pid | pid in a.Keys + b.Keys && (pid !in ownAll || pid in self)
  }

  /** Every class has a sum. */
  ghost predicate Full(host: map<Class, int>) {
    forall c :: c in host
  }

  /** One process: its class's sum updated, and what it adds on the pinned CPUs and to
      the reaped CPU. */
  method Charge(a: Table, b: Table, pid: nat, w: Setting, was: map<Class, int>)
    returns (host: map<Class, int>, dOn: int, dReap: int)
    requires pid in a || pid in b
    requires Full(was)
    ensures Full(host)
    ensures forall c :: host[c] == was[c] + HostPart(a, b, pid, w, c)
    ensures dOn == PinPart(a, b, pid, w)
    ensures dReap == ReapPart(a, b, pid)
  {
    host, dOn, dReap := was, 0, 0;
    var pa, pb := Lookup(a, pid), Lookup(b, pid);
    if pa.Some? && pb.Some? && pa.value.start != pb.value.start {
      var cls := TaskClass(pid, pa.value, w);
      host := host[cls := host[cls] - Total(pa.value)];
      dReap := dReap - Total(pa.value);
      pa := None;
    }
    if pb.None? {
      var cls := TaskClass(pid, pa.value, w);
      host := host[cls := host[cls] - Total(pa.value)];
      dReap := dReap - Total(pa.value);
      return;
    }
    var dOwn := pb.value.ticks - (if pa.Some? then pa.value.ticks else 0);
    var dChild := pb.value.child - (if pa.Some? then pa.value.child else 0);
    if dOwn == 0 && dChild == 0 {
      return;
    }
    var cls := TaskClass(pid, pb.value, w);
    host := host[cls := host[cls] + dOwn + dChild];
    dReap := dReap + dChild;
    if pb.value.cpus * w.pins != {} || (pa.Some? && pa.value.cpus * w.pins != {}) {
      dOn := dOwn;
    }
  }

  /** The running sums over the processes handled so far. */
  ghost predicate Tally(a: Table, b: Table, w: Setting, done: set<nat>, host: map<Class, int>, onPin: int, reaped: int) {
    && Full(host)
    && (forall c :: host[c] == Sum(done, HostParts(a, b, w, c)))
    && onPin == Sum(done, PinParts(a, b, w))
    && reaped == Sum(done, ReapParts(a, b))
  }

  const ZEROS: map<Class, int> := map[KernelTask := 0, RunnerTask := 0, UserTask := 0, SamplerTask := 0]

  lemma TallyNone(a: Table, b: Table, w: Setting)
    ensures Tally(a, b, w, {}, ZEROS, 0, 0)
  {
    forall c: Class
      ensures c in ZEROS && ZEROS[c] == 0
    {
      match c
      case KernelTask =>
      case RunnerTask =>
      case UserTask =>
      case SamplerTask =>
    }
  }

  lemma TallyOne(a: Table, b: Table, w: Setting, done: set<nat>, pid: nat,
                 was: map<Class, int>, onPin: int, reaped: int, host: map<Class, int>, onPin': int, reaped': int)
    requires pid !in done && Tally(a, b, w, done, was, onPin, reaped)
    requires Full(host)
    requires forall c :: host[c] == was[c] + HostPart(a, b, pid, w, c)
    requires onPin' == onPin + PinPart(a, b, pid, w) && reaped' == reaped + ReapPart(a, b, pid)
    ensures Tally(a, b, w, done + {pid}, host, onPin', reaped')
  {
    forall c
      ensures host[c] == Sum(done + {pid}, HostParts(a, b, w, c))
    {
      SumInsert(done, HostParts(a, b, w, c), pid);
    }
    SumInsert(done, ReapParts(a, b), pid);
    SumInsert(done, PinParts(a, b, w), pid);
  }

  /** The loop over every process either sample lists. */
  method Totals(a: Table, b: Table, ownAll: set<nat>, w: Setting)
    returns (host: map<Class, int>, onPin: int, reaped: int)
    ensures Tally(a, b, w, Visited(a, b, ownAll, w.self), host, onPin, reaped)
  {
    host, onPin, reaped := ZEROS, 0, 0;
    var rest := a.Keys + b.Keys;
    ghost var done: set<nat> := {};
    TallyNone(a, b, w);
    while rest != {}
      invariant rest <= a.Keys + b.Keys
      invariant done == Visited(a, b, ownAll, w.self) - rest
      invariant Tally(a, b, w, done, host, onPin, reaped)
    {
      var pid :| pid in rest;
      rest := rest - {pid};
      if pid in ownAll && pid !in w.self {
        continue;
      }
      var now, dOn, dReap := Charge(a, b, pid, w, host);
      TallyOne(a, b, w, done, pid, host, onPin, reaped, now, onPin + dOn, reaped + dReap);
      host, onPin, reaped, done := now, onPin + dOn, reaped + dReap, done + {pid};
    }
    assert done == Visited(a, b, ownAll, w.self);
  }

  /** The two sums the void rule reads. Interrupt time is added to both. */
  method Attribute(a: Table, b: Table, ownAll: set<nat>, w: Setting, intrOn: int, intrOff: int)
    returns (host: map<Class, int>, foreignTicks: int, onPinTicks: int)
    ensures Full(host)
    ensures forall c ::
              host[c] == Max0(Sum(Visited(a, b, ownAll, w.self), HostParts(a, b, w, c)))
    ensures foreignTicks == host[KernelTask] + host[RunnerTask] + host[UserTask] + intrOn + intrOff
    ensures onPinTicks == Sum(Visited(a, b, ownAll, w.self), PinParts(a, b, w))
                          + Max0(Sum(Visited(a, b, ownAll, w.self), ReapParts(a, b))) + intrOn
  {
    var sums, onPin, reaped := Totals(a, b, ownAll, w);
    host := map c | c in sums :: Max0(sums[c]);
    foreignTicks := host[KernelTask] + host[RunnerTask] + host[UserTask] + intrOn + intrOff;
    onPinTicks := onPin + Max0(reaped) + intrOn;
  }
}
