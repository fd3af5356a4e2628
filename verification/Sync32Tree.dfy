/**
 The memory a sync32 reader walks, and the walk itself.

 A reader never touches the writer's container. It loads the published root
 edge, resolves node handles through the arena's published slot table, and
 dereferences the allocations those slots name. Between any two loads the writer
 may run, so the walk is a small state machine: one `Phase` per load or
 validation, advanced by `Load` with whatever word the load returned and by
 `Validated` when the version check passed.
 */
module Sync32Tree {
  import opened Options

  /** 32-bit words wrap here. */
  const WORD: nat := 0x1_0000_0000

  type Key32 = k: nat | k < 0x1_0000_0000

  datatype Kind = KLeaf | KBitmapLeaf | KBranch | KBitmapBranch

  /** An edge: absent, a key held in the edge itself, or a node handle. */
  datatype Edge =
    | NullEdge
    | Immed(rem: nat, val: nat)
    | Child(kind: Kind, handle: nat)

  /** One entry of the published slot table. `id` names an allocation and is
      never reused, so a dangling `id` is recognisable. */
  datatype Slot = Empty | Full(kind: Kind, id: nat)

  /** What one allocation holds. The two bitmap kinds keep their entries in
      separately allocated, rank-ordered subarrays of 32 digits each. */
  datatype Cell =
    | Leaf(entries: map<nat, nat>)
    | BitmapLeaf(bits: set<nat>, subs: map<nat, nat>)
    | Branch(children: map<nat, Edge>)
    | BitmapBranch(bits: set<nat>, subs: map<nat, nat>)
    | Vals(vals: seq<nat>)
    | Edges(edges: seq<Edge>)

  /** Everything a reader can load: the published root and length, the slot
      table, and the live allocations. */
  datatype Mem = Mem(root: Edge, len: nat, table: seq<Slot>, cells: map<nat, Cell>)

  datatype Request = Get(key: Key32) | Len

  datatype Answer = Found(val: nat) | NotFound | Length(n: nat) | Busy

  /** What a single racy load returned. */
  datatype Word = WEdge(edge: Edge) | WLen(len: nat) | WSlot(slot: Slot) | WCell(cell: Cell)

  /** Where a reader is. `Got*` phases hold a loaded word not yet validated;
      `At`, `Held` and `HeldSub` hold a validated one. */
  datatype Phase =
    | Outside
    | Pinned(req: Request)
    | Sampled(req: Request)
    | GotEdge(kb: nat, rem: nat, edge: Edge)
    | At(kb: nat, rem: nat, kind: Kind, handle: nat)
    | GotSlot(kb: nat, rem: nat, kind: Kind, id: nat)
    | Held(kb: nat, rem: nat, kind: Kind, id: nat)
    | GotSub(kb: nat, rem: nat, kind: Kind, id: nat, rank: nat)
    | HeldSub(kb: nat, rem: nat, kind: Kind, id: nat, rank: nat)
    | GotAnswer(ans: Answer)
    | Done(ans: Answer)

  /** The walk sampled a version and may still use what it loaded. */
  predicate InWalk(ph: Phase) {
    !ph.Outside? && !ph.Pinned? && ph != Done(Busy)
  }

  predicate Loads(ph: Phase) {
    ph.Sampled? || ph.At? || ph.Held? || ph.HeldSub?
  }

  predicate Validates(ph: Phase) {
    ph.GotEdge? || ph.GotSlot? || ph.GotSub? || ph.GotAnswer?
  }

  /** The place a digit occupies inside its 32-digit subarray. */
  ghost function Rank(bits: set<nat>, d: nat): nat {
    |set x | x in bits && x / 32 == d / 32 && x < d|
  }

  function Pow256(n: nat): nat {
    if n == 0 then 1 else 256 * Pow256(n - 1)
  }

  lemma Pow256Positive(n: nat)
    ensures Pow256(n) > 0
  {
  }

  /** The branch digit of a `kb`-byte remainder. */
  function DigitAt(rem: nat, kb: nat): nat
    requires kb > 0
  {
    Pow256Positive(kb - 1);
    rem / Pow256(kb - 1) % 256
  }

  /** The remainder handed to the child. */
  function ChildRem(rem: nat, kb: nat): nat
    requires kb > 0
  {
    Pow256Positive(kb - 1);
    rem % Pow256(kb - 1)
  }

  /** Following a branch. A branch over one-byte remainders has no child level:
      such an edge only arises from torn content. */
  function Descend(kb: nat, rem: nat, e: Edge): Phase {
    if kb <= 1 then GotAnswer(Busy) else GotEdge(kb - 1, ChildRem(rem, kb), e)
  }

  /** The step after loading the node a walk holds. Content of another kind, or a
      digit whose subarray is missing, can only be torn. */
  ghost function LoadCell(kb: nat, rem: nat, kind: Kind, c: Cell): Phase {
    match (kind, c)
    case (KLeaf, Leaf(entries)) =>
      GotAnswer(if rem in entries then Found(entries[rem]) else NotFound)
    case (KBitmapLeaf, BitmapLeaf(bits, subs)) =>
      LoadBits(kb, rem, kind, bits, subs, rem % 256)
    case (KBranch, Branch(children)) =>
      if kb == 0 then Done(Busy)
      else if DigitAt(rem, kb) in children then Descend(kb, rem, children[DigitAt(rem, kb)])
      else GotAnswer(NotFound)
    case (KBitmapBranch, BitmapBranch(bits, subs)) =>
      if kb == 0 then Done(Busy) else LoadBits(kb, rem, kind, bits, subs, DigitAt(rem, kb))
    case _ => Done(Busy)
  }

  ghost function LoadBits(kb: nat, rem: nat, kind: Kind, bits: set<nat>, subs: map<nat, nat>, d: nat): Phase {
    if d !in bits then GotAnswer(NotFound)
    else if d / 32 !in subs then Done(Busy)
    else GotSub(kb, rem, kind, subs[d / 32], Rank(bits, d))
  }

  /** The step after loading from the subarray a walk holds. */
  function LoadSub(kb: nat, rem: nat, kind: Kind, rank: nat, c: Cell): Phase {
    match (kind, c)
    case (KBitmapLeaf, Vals(vals)) =>
      if rank < |vals| then GotAnswer(Found(vals[rank])) else Done(Busy)
    case (KBitmapBranch, Edges(edges)) =>
      if rank < |edges| then Descend(kb, rem, edges[rank]) else Done(Busy)
    case _ => Done(Busy)
  }

  /** One load: the phase after the pending load returned `w`. */
  ghost function Load(ph: Phase, w: Word): Phase
    requires Loads(ph)
  {
    match (ph, w)
    case (Sampled(Get(key)), WEdge(e)) => GotEdge(4, key, e)
    case (Sampled(Len), WLen(n)) => GotAnswer(Length(n))
    case (At(kb, rem, kind, _), WSlot(Full(k, id))) =>
      if k == kind then GotSlot(kb, rem, kind, id) else Done(Busy)
    case (Held(kb, rem, kind, _), WCell(c)) => LoadCell(kb, rem, kind, c)
    case (HeldSub(kb, rem, kind, _, rank), WCell(c)) => LoadSub(kb, rem, kind, rank, c)
    case _ => Done(Busy)
  }

  /** One successful validation: the word just loaded may now be followed. */
  function Validated(ph: Phase): Phase
    requires Validates(ph)
  {
    match ph
    case GotEdge(kb, rem, NullEdge) => Done(NotFound)
    case GotEdge(kb, rem, Immed(r, v)) => Done(if r == rem then Found(v) else NotFound)
    case GotEdge(kb, rem, Child(kind, h)) => At(kb, rem, kind, h)
    case GotSlot(kb, rem, kind, id) => Held(kb, rem, kind, id)
    case GotSub(kb, rem, kind, id, rank) => HeldSub(kb, rem, kind, id, rank)
    case GotAnswer(a) => Done(a)
  }

  /** What the pending load finds in `mem`. A handle outside the table reads as
      an empty slot. */
  function Peek(mem: Mem, ph: Phase): Word
    requires Loads(ph)
  {
    match ph
    case Sampled(Get(_)) => WEdge(mem.root)
    case Sampled(Len) => WLen(mem.len)
    case At(_, _, _, h) => WSlot(if h < |mem.table| then mem.table[h] else Empty)
    case Held(_, _, _, id) => if id in mem.cells then WCell(mem.cells[id]) else WSlot(Empty)
    case HeldSub(_, _, _, id, _) => if id in mem.cells then WCell(mem.cells[id]) else WSlot(Empty)
  }

  /** One step of a reader that runs alone on `mem`. */
  ghost function Solo(mem: Mem, ph: Phase): Phase
    requires Loads(ph) || Validates(ph)
  {
    if Loads(ph) then Load(ph, Peek(mem, ph)) else Validated(ph)
  }

  /** How far a walk still is from its answer. */
  ghost function Distance(ph: Phase): nat {
    match ph
    case Sampled(_) => 60
    case GotEdge(kb, _, _) => 10 * kb + 9
    case At(kb, _, _, _) => 10 * kb + 8
    case GotSlot(kb, _, _, _) => 10 * kb + 7
    case Held(kb, _, _, _) => 10 * kb + 6
    case GotSub(kb, _, _, _, _) => 10 * kb + 5
    case HeldSub(kb, _, _, _, _) => 10 * kb + 4
    case GotAnswer(_) => 1
    case _ => 0
  }

  /** The answer a walk in phase `ph` reaches when it runs alone on `mem`. */
  ghost function Finish(mem: Mem, ph: Phase): Answer
    decreases Distance(ph)
  {
    if Loads(ph) || Validates(ph) then Finish(mem, Solo(mem, ph))
    else if ph.Done? then ph.ans
    else Busy
  }

  /** The answer an abstract map gives. */
  function Answered(m: map<nat, nat>, req: Request): Answer {
    match req
    case Get(key) => if key in m then Found(m[key]) else NotFound
    case Len => Length(|m|)
  }

  /** Every allocation a slot or a node names is live. */
  ghost predicate Closed(mem: Mem) {
    && (forall h :: 0 <= h < |mem.table| && mem.table[h].Full? ==> mem.table[h].id in mem.cells)
    && (forall id, s :: id in mem.cells && s in Subs(mem.cells[id]) ==> Subs(mem.cells[id])[s] in mem.cells)
  }

  function Subs(c: Cell): map<nat, nat> {
    match c
    case BitmapLeaf(_, subs) => subs
    case BitmapBranch(_, subs) => subs
    case _ => map[]
  }

  /** `mem` is a consistent tree holding exactly `m`. */
  ghost predicate Represents(mem: Mem, m: map<nat, nat>) {
    && Closed(mem)
    && (forall req: Request :: Finish(mem, Sampled(req)) == Answered(m, req))
  }

  /** The allocation a phase names, if any. */
  function Names(ph: Phase): Option<nat> {
    match ph
    case GotSlot(_, _, _, id) => Some(id)
    case Held(_, _, _, id) => Some(id)
    case GotSub(_, _, _, id, _) => Some(id)
    case HeldSub(_, _, _, id, _) => Some(id)
    case _ => None
  }

  /** The walk so far read only `mem`: it is heading for the answer a reader
      running alone on `mem` gets, and what it names is allocated there. */
  ghost predicate OnTrack(mem: Mem, req: Request, ph: Phase) {
    && InWalk(ph)
    && Finish(mem, ph) == Finish(mem, Sampled(req))
    && (Names(ph).Some? ==> Names(ph).value in mem.cells)
  }

  /** A step that reads `mem` keeps the walk on track, unless it gives up. */
  lemma SoloOnTrack(mem: Mem, req: Request, ph: Phase)
    requires Closed(mem) && OnTrack(mem, req, ph) && (Loads(ph) || Validates(ph))
    ensures Solo(mem, ph) == Done(Busy) || OnTrack(mem, req, Solo(mem, ph))
  {
    if ph.Held? && Solo(mem, ph).GotSub? {
      var subs := Subs(mem.cells[ph.id]);
      assert exists s :: s in subs && subs[s] == Solo(mem, ph).id;
    }
  }
}
