/**
 Read-modify-write on the metadata of one key of the concurrent blob map: the documented
 increment loop over `compare_exchange_meta`, beside everything else callers may do to
 the key. A refusal keeps the loop from storing what the word loop can store.
 */
module MetaUpdate {
  import opened Options

  const META_MAX: nat := 0xFF_FFFF
  const WORD32: nat := 0x1_0000_0000

  /** A present value: with a metadata field, or a payload stored in its slot word. */
  datatype Slot = Field(meta: nat) | Inline

  datatype Status = Ok | Mismatch | MetaOverflow | NoMetaField

  datatype Thread = Starting | Trying(present: bool, meta: nat) | Ended(status: Status)

  datatype State = State(cell: Option<Slot>, threads: map<nat, Thread>)

  datatype Event =
    | First(t: nat)
    | Try(t: nat, unwritten: nat)
    | Replace(cell: Option<Slot>)

  /** `get_meta`. */
  function Meta(cell: Option<Slot>): Option<nat> {
    match cell
    case None => None
    case Some(Inline) => Some(0)
    case Some(Field(m)) => Some(m)
  }

  /** `compare_exchange_meta`. A refusal is given only where the comparison held. */
  function ExchangeMeta(cell: Option<Slot>, expected: Option<nat>, next: Option<nat>): (r: (Status, Option<Slot>))
    ensures r.0.Mismatch? <==> Meta(cell) != expected
    ensures !r.0.Ok? ==> r.1 == cell
    ensures r.0.Ok? ==> Meta(r.1) == next
  {
    if Meta(cell) != expected then (Mismatch, cell)
    else if next.None? then (Ok, None)
    else if next.value > META_MAX then (MetaOverflow, cell)
    else
      match cell
      case None => (NoMetaField, cell)
      case Some(Inline) => if next.value == 0 then (Ok, cell) else (NoMetaField, cell)
      case Some(Field(_)) => (Ok, Some(Field(next.value)))
  }

  function Expected(th: Thread): Option<nat> {
    if th.Trying? && th.present then Some(th.meta) else None
  }

  ghost predicate Legal(s: State, e: Event) {
    match e
    case First(t) => t in s.threads && s.threads[t].Starting?
    case Try(t, junk) => t in s.threads && s.threads[t].Trying? && junk < WORD32
    case Replace(cell) => MetaFits(cell)
  }

  predicate MetaFits(cell: Option<Slot>) {
    cell.Some? && cell.value.Field? ==> cell.value.meta <= META_MAX
  }

  /** The call of one round, on 32-bit arithmetic. */
  function Tried(cell: Option<Slot>, th: Thread): (Status, Option<Slot>)
    requires th.Trying?
  {
    ExchangeMeta(cell, Expected(th), Some((th.meta + 1) % WORD32))
  }

  function Apply(s: State, e: Event): State
    requires Legal(s, e)
  {
    match e
    case First(t) =>
      var m := Meta(s.cell);
      s.(threads := s.threads[t := Trying(m.Some?, if m.Some? then m.value else 0)])
    case Try(t, junk) =>
      var r, m := Tried(s.cell, s.threads[t]), Meta(s.cell);
      State(r.1, s.threads[t := if !r.0.Mismatch? then Ended(r.0) else Trying(m.Some?, if m.Some? then m.value else junk)])
    case Replace(cell) => s.(cell := cell)
  }

  ghost predicate Run(s: State, es: seq<Event>)
    decreases |es|, 0
  {
    es == [] || (Run(s, es[..|es| - 1]) && Legal(After(s, es[..|es| - 1]), es[|es| - 1]))
  }

  ghost function After(s: State, es: seq<Event>): State
    requires Run(s, es)
    decreases |es|, 1
  {
    if es == [] then s else Apply(After(s, es[..|es| - 1]), es[|es| - 1])
  }

  ghost predicate Fresh(s: State) {
    MetaFits(s.cell) && forall t :: t in s.threads ==> s.threads[t].Starting?
  }

  ghost predicate Inv(s: State) {
    && MetaFits(s.cell)
    && forall t :: t in s.threads && s.threads[t].Trying? ==>
         && s.threads[t].meta < WORD32
         && (s.threads[t].present ==> s.threads[t].meta <= META_MAX)
  }

  lemma {:induction false} RunInv(s: State, es: seq<Event>)
    requires Fresh(s) && Run(s, es)
    ensures Inv(After(s, es))
    decreases |es|
  {
    if es != [] {
      RunInv(s, es[..|es| - 1]);
    }
  }

  /** Every round, in every run, whatever `seen` held: it either adds exactly one to a
      metadata field below its maximum, or changes nothing; an absent key is never made,
      and a round that does not end the loop saw a changed value. */
  lemma RoundsAreIncrements(s: State, es: seq<Event>, t: nat, junk: nat)
    requires Fresh(s) && Run(s, es) && Legal(After(s, es), Try(t, junk))
    ensures var before, after := After(s, es), Apply(After(s, es), Try(t, junk));
            && (after.threads[t] == Ended(Ok) ==>
                  && before.cell.Some? && before.cell.value.Field? && before.cell.value.meta < META_MAX
                  && after.cell == Some(Field(before.cell.value.meta + 1)))
            && (after.threads[t] != Ended(Ok) ==> after.cell == before.cell)
            && (after.threads[t].Trying? ==> Expected(before.threads[t]) != Meta(before.cell))
            && (after.threads[t].Trying? <==> !after.threads[t].Ended?)
  {
    RunInv(s, es);
    var th := After(s, es).threads[t];
    assert th.present ==> (th.meta + 1) % WORD32 == th.meta + 1;
  }

  /** A round on an unchanged value always ends the loop: stored, or refused at the top of
      the range, on a payload without a field, or on an absent key. */
  lemma MatchEnds(s: State, es: seq<Event>, t: nat, junk: nat)
    requires Fresh(s) && Run(s, es) && Legal(After(s, es), Try(t, junk))
    requires Expected(After(s, es).threads[t]) == Meta(After(s, es).cell)
    ensures var before, after := After(s, es), Apply(After(s, es), Try(t, junk));
            && after.threads[t].Ended?
            && (after.threads[t].status.Ok? <==>
                  before.cell.Some? && before.cell.value.Field? && before.cell.value.meta < META_MAX)
            && (before.cell.Some? && before.cell.value.Field? && before.cell.value.meta == META_MAX ==>
                  after.threads[t].status.MetaOverflow?)
            && (before.cell == Some(Inline) ==> after.threads[t].status.NoMetaField?)
            && (before.cell == None ==> after.threads[t].status.NoMetaField? || after.threads[t].status.MetaOverflow?)
  {
    RunInv(s, es);
    var th := After(s, es).threads[t];
    assert th.present ==> (th.meta + 1) % WORD32 == th.meta + 1;
  }
}
