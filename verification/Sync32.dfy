/**
 The sync32 protocol as a state machine: one writer, any number of readers, every
 interleaving of their individual loads and stores.

 The concurrency contract of the surface is one hart, where an interrupt or task
 switch may fall between any two instructions, so steps interleave and are never
 reordered. A load made while the version has moved on since the walk's sample may
 be torn and returns anything at all.
 */
module Sync32 {
  import opened Options
  import opened Sync32Tree

  /** Free slots, and spare pending entries, a mutation must find beforehand. */
  const HEADROOM: nat := 128

  /** One reader: its walk counter, its phase, and (history) what it sampled. */
  datatype Reader = Reader(ctr: nat, ph: Phase, req: Request, at: nat, mem: Mem, map_: map<nat, nat>)

  datatype Op =
    | Insert(key: Key32, val: nat)
    | Remove(key: Key32)
    | CompareExchange(key: Key32, expected: Option<nat>, new_: Option<nat>)
    | Update(key: Key32, f: Option<nat> -> Option<nat>)
    | GetOrInsert(key: Key32, val: nat)
    | Reclaim

  datatype Result =
    | Previous(old_: Option<nat>)
    | Mismatch(seen: Option<nat>)
    | ArenaFull
    | ReclaimBacklog
    | Reclaimed(drained: bool)

  /** Who runs `try_reclaim`. */
  datatype Caller = FromHeadroom | FromWrite(res: Result) | FromUser

  /** Where the writer is. */
  datatype Pc =
    | Idle
    | Start(op: Op)
    | Headroom(op: Op, retried: bool)
    | Room(op: Op)
    | Decide(op: Op)
    | Bracket(op: Op, res: Result, allocs: nat, retires: nat, rootOut: bool, lenOut: bool)
    | AfterWrite(op: Op, res: Result)
    | Scan(op: Op, who: Caller, i: nat)
    | Grace(op: Op, who: Caller, i: nat)
    | Seal(op: Op, who: Caller, i: nat)
    | EndReclaim(op: Op, who: Caller)
    | Return(op: Op, res: Result)
    | Panic

  /** What an operation found when it started (history). */
  datatype Before = Before(m: map<nat, nat>, mem: Mem, free: seq<nat>, ver: nat)

  datatype State = State(
    ver: nat,
    m: map<nat, nat>,
    mem: Mem,
    root: Edge,
    free: seq<nat>,
    pending: seq<set<nat>>,
    pendingCap: nat,
    next: nat,
    readers: seq<Reader>,
    pc: Pc,
    snap: seq<nat>,
    sealed: nat,
    before: Before,
    sawInside: bool,
    nodes: set<nat>)

  // ---------------------------------------------------------------- start

  function EmptyMem(cap: nat): Mem {
    Mem(NullEdge, 0, seq(cap, _ => Empty), map[])
  }

  /** `with_capacity` followed by `split`. Low handles are handed out first. */
  function Initial(cap: nat, readers: nat): State
    requires cap >= HEADROOM
  {
    State(0, map[], EmptyMem(cap), NullEdge,
          seq(cap, i requires 0 <= i < cap => cap - 1 - i), [], cap + 2 * HEADROOM, 0,
          seq(readers, _ => Reader(0, Outside, Len, 0, EmptyMem(0), map[])),
          Idle, seq(readers, _ => 0), 0,
          Before(map[], EmptyMem(0), [], 0), false, {})
  }

  // ---------------------------------------------------------------- reader steps

  /** The version word as a reader sees it: the true version modulo 2^32. */
  predicate SameVersion(ver: nat, at: nat) {
    ver % WORD == at % WORD
  }

  ghost predicate ReaderStep(s: State, s': State, i: nat) {
    && i < |s.readers|
    && i < |s'.readers|
    && s' == s.(readers := s.readers[i := s'.readers[i]])
    && var r, r' := s.readers[i], s'.readers[i];
       || Pin(r, r')
       || Sample(s, r, r')
       || RacyLoad(s, r, r')
       || Check(s, r, r')
       || Unpin(r, r')
  }

  ghost predicate Pin(r: Reader, r': Reader) {
    && r.ph.Outside?
    && r'.ph.Pinned?
    && r' == r.(ctr := (r.ctr + 1) % WORD, ph := r'.ph, req := r'.ph.req)
  }

  ghost predicate Sample(s: State, r: Reader, r': Reader) {
    && r.ph.Pinned?
    && r' == if s.ver % 2 == 1 then r.(ph := Done(Busy))
             else r.(ph := Sampled(r.req), at := s.ver, mem := s.mem, map_ := s.m)
  }

  /** A load of a version that has moved on may return any word. */
  ghost predicate RacyLoad(s: State, r: Reader, r': Reader) {
    && Loads(r.ph)
    && exists w: Word :: (s.ver == r.at ==> w == Peek(s.mem, r.ph)) && r' == r.(ph := Load(r.ph, w))
  }

  ghost predicate Check(s: State, r: Reader, r': Reader) {
    && Validates(r.ph)
    && r' == r.(ph := if SameVersion(s.ver, r.at) then Validated(r.ph) else Done(Busy))
  }

  ghost predicate Unpin(r: Reader, r': Reader) {
    && r.ph.Done?
    && r' == r.(ctr := (r.ctr + 1) % WORD, ph := Outside)
  }

  // ---------------------------------------------------------------- writer steps

  /** The map after an operation that stores. */
  function Target(op: Op, m: map<nat, nat>): map<nat, nat> {
    match op
    case Insert(k, v) => m[k := v]
    case Remove(k) => m - {k}
    case CompareExchange(k, _, n) => Put(m, k, n)
    case Update(k, f) => Put(m, k, f(Lookup(m, k)))
    case GetOrInsert(k, v) => m[k := v]
    case Reclaim => m
  }

  /** The first thing each operation does: decide from a read, or go on to the
      headroom check. */
  function Begun(op: Op, m: map<nat, nat>): Pc {
    match op
    case CompareExchange(k, expected, n) =>
      var seen := Lookup(m, k);
      if seen != expected then Return(op, Mismatch(seen))
      else if n == seen then Return(op, Previous(seen))
      else Headroom(op, false)
    case GetOrInsert(k, _) =>
      if k in m then Return(op, Previous(Some(m[k]))) else Headroom(op, false)
    case _ => Headroom(op, false)
  }

  /** After the headroom check: an overwrite that changes nothing opens no
      bracket; a removal always does. */
  function Decided(op: Op, m: map<nat, nat>): Pc {
    var open := Bracket(op, Previous(if op.Reclaim? then None else Lookup(m, op.key)), 0, 0, false, false);
    match op
    case Insert(k, v) => if Lookup(m, k) == Some(v) then Return(op, Previous(Some(v))) else open
    case Update(k, f) =>
      var seen := Lookup(m, k);
      if f(seen) == seen then Return(op, Previous(seen)) else open
    case _ => open
  }

  function Returned(op: Op, who: Caller, drained: bool): Pc {
    match who
    case FromHeadroom => Headroom(op, true)
    case FromWrite(res) => Return(op, res)
    case FromUser => Return(op, Reclaimed(drained))
  }

  /** Entering `try_reclaim`. */
  function EnterReclaim(s: State, op: Op, who: Caller): State {
    if s.pending == [] then s.(sealed := 0, pc := EndReclaim(op, who))
    else s.(pc := Scan(op, who, 0))
  }

  function Spare(s: State): int {
    s.pendingCap - |s.pending|
  }

  predicate Odd(n: nat) {
    n % 2 == 1
  }

  /** The deterministic writer steps: everything outside the bracket. */
  function WriterNext(s: State): State
    requires !s.pc.Idle? && !s.pc.Bracket? && !s.pc.Panic?
    requires |s.snap| == |s.readers|
  {
    match s.pc
    case Start(op) =>
      if op.Reclaim? then EnterReclaim(s, op, FromUser) else s.(pc := Begun(op, s.m))
    case Headroom(op, retried) =>
      if Spare(s) >= HEADROOM then s.(pc := Room(op))
      else if retried then s.(pc := Return(op, ReclaimBacklog))
      else EnterReclaim(s, op, FromHeadroom)
    case Room(op) =>
      s.(pc := if |s.free| < HEADROOM then Return(op, ArenaFull) else Decide(op))
    case Decide(op) =>
      var to := Decided(op, s.m);
      s.(pc := to, ver := if to.Bracket? then s.ver + 1 else s.ver)
    case AfterWrite(op, res) =>
      if |s.pending| > 0 then EnterReclaim(s, op, FromWrite(res)) else s.(pc := Return(op, res))
    case Scan(op, who, i) =>
      if i >= |s.readers| then s.(pending := [], sealed := 0, pc := EndReclaim(op, who))
      else if Odd(s.readers[i].ctr) then
        s.(sawInside := true, pc := if s.sealed > 0 then Grace(op, who, 0) else Seal(op, who, 0))
      else s.(pc := Scan(op, who, i + 1))
    case Grace(op, who, i) =>
      if i >= |s.readers| then
        var rest := s.pending[if s.sealed <= |s.pending| then s.sealed else |s.pending|..];
        s.(pending := rest, sealed := 0, pc := if rest == [] then EndReclaim(op, who) else Seal(op, who, 0))
      else if Odd(s.snap[i]) && s.readers[i].ctr == s.snap[i] then s.(pc := EndReclaim(op, who))
      else s.(pc := Grace(op, who, i + 1))
    case Seal(op, who, i) =>
      if i >= |s.readers| then s.(sealed := |s.pending|, pc := EndReclaim(op, who))
      else s.(snap := s.snap[i := s.readers[i].ctr], pc := Seal(op, who, i + 1))
    case EndReclaim(op, who) => s.(pc := Returned(op, who, s.pending == []))
    case Return(op, res) => s.(pc := Idle)
  }

  /** A caller starts an operation on the one writer handle. */
  ghost predicate Begin(s: State, s': State) {
    && s.pc.Idle?
    && s'.pc.Start?
    && s' == s.(pc := s'.pc, before := Before(s.m, s.mem, s.free, s.ver), sawInside := false)
  }

  /** The engine's edits inside the bracket, one at a time. */
  datatype Edit =
    | AllocNode(kind: Kind, cell: Cell)
    | AllocSub(cell: Cell)
    | Store(id: nat, cell: Cell)
    | FreeNode(handle: nat, ids: set<nat>)
    | RetireSub(ids: set<nat>)
    | SetRoot(edge: Edge)

  function Edited(s: State, e: Edit): State
    requires s.pc.Bracket?
    requires e.FreeNode? ==> e.handle < |s.mem.table|
    requires e.AllocNode? && s.free != [] ==> s.free[|s.free| - 1] < |s.mem.table|
  {
    match e
    case AllocNode(kind, cell) =>
      if s.free == [] then s.(pc := Panic)
      else
        var h := s.free[|s.free| - 1];
        s.(free := s.free[..|s.free| - 1], next := s.next + 1, nodes := s.nodes + {s.next},
           mem := s.mem.(table := s.mem.table[h := Full(kind, s.next)], cells := s.mem.cells[s.next := cell]),
           pc := s.pc.(allocs := s.pc.allocs + 1))
    case AllocSub(cell) =>
      s.(next := s.next + 1, mem := s.mem.(cells := s.mem.cells[s.next := cell]))
    case Store(id, cell) => s.(mem := s.mem.(cells := s.mem.cells[id := cell]))
    case FreeNode(h, ids) =>
      if |s.pending| >= s.pendingCap then s.(pc := Panic)
      else
        s.(free := s.free + [h], pending := s.pending + [ids],
           mem := s.mem.(table := s.mem.table[h := Empty], cells := s.mem.cells - ids),
           pc := s.pc.(retires := s.pc.retires + 1))
    case RetireSub(ids) =>
      if |s.pending| >= s.pendingCap then s.(pc := Panic)
      else
        s.(pending := s.pending + [ids], mem := s.mem.(cells := s.mem.cells - ids),
           pc := s.pc.(retires := s.pc.retires + 1))
    case SetRoot(edge) => s.(root := edge)
  }

  /** What the engine may do: allocate, edit and retire live allocations, at most
      `HEADROOM` of each kind of bookkeeping step per mutation. */
  ghost predicate MayEdit(s: State, e: Edit) {
    && s.pc.Bracket?
    && !s.pc.rootOut
    && match e
       case AllocNode(_, _) => s.pc.allocs < HEADROOM && (s.free != [] ==> s.free[|s.free| - 1] < |s.mem.table|)
       case AllocSub(_) => true
       case Store(id, _) => id in s.mem.cells
       case FreeNode(h, ids) =>
         && s.pc.retires < HEADROOM
         && h < |s.mem.table| && s.mem.table[h].Full? && s.mem.table[h].id in ids
         && ids <= s.mem.cells.Keys
       case RetireSub(ids) => s.pc.retires < HEADROOM && ids <= s.mem.cells.Keys
       case SetRoot(_) => true
  }

  ghost predicate EngineEdit(s: State, s': State) {
    exists e: Edit :: MayEdit(s, e) && s' == Edited(s, e)
  }

  /** Republishing the root, then the length, then closing the bracket. The engine
      left a tree that represents the operation's target. */
  ghost predicate Publish(s: State, s': State) {
    && s.pc.Bracket?
    && if !s.pc.rootOut then s' == s.(mem := s.mem.(root := s.root), pc := s.pc.(rootOut := true))
       else if !s.pc.lenOut then
         s' == s.(mem := s.mem.(len := |Target(s.pc.op, s.m)|), pc := s.pc.(lenOut := true))
       else
         && Represents(s.mem, Target(s.pc.op, s.m))
         && s' == s.(ver := s.ver + 1, m := Target(s.pc.op, s.m), pc := AfterWrite(s.pc.op, s.pc.res))
  }

  ghost predicate WriterStep(s: State, s': State) {
    || Begin(s, s')
    || (!s.pc.Idle? && !s.pc.Bracket? && !s.pc.Panic? && |s.snap| == |s.readers| && s' == WriterNext(s))
    || EngineEdit(s, s')
    || Publish(s, s')
  }

  ghost predicate Step(s: State, s': State) {
    || WriterStep(s, s')
    || exists i: nat :: ReaderStep(s, s', i)
  }

  ghost predicate StepsAt(tr: seq<State>, k: nat) {
    k + 1 < |tr| && Step(tr[k], tr[k + 1])
  }

  /** A run: any interleaving, from a freshly split wrapper. */
  ghost predicate Run(tr: seq<State>) {
    && |tr| > 0
    && (exists cap: nat, readers: nat :: cap >= HEADROOM && tr[0] == Initial(cap, readers))
    && (forall k: nat :: k + 1 < |tr| ==> StepsAt(tr, k))
  }
}
