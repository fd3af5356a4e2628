/**
 Read-modify-write on one key of the concurrent map: any number of threads running the
 documented increment loop over `compare_exchange`, beside callers of every other
 operation on the key. Each library call is one step.
 */
module WordUpdate {
  import opened Options

  const WORD: nat := 0x1_0000_0000_0000_0000

  /** The loop's variables. `v` is meaningful only where `present` is, but it is always
      some word, and it is what the next round adds one to. */
  datatype Thread = Starting | Trying(present: bool, v: nat) | Stored

  datatype State = State(cell: Option<nat>, threads: map<nat, Thread>)

  datatype Event =
    | First(t: nat)
    | Try(t: nat, unwritten: nat)
    | GetOrInsert(value: nat)
    | Exchange(expected: Option<nat>, next: Option<nat>)
    | Insert(value: nat)
    | Remove

  function Expected(th: Thread): Option<nat> {
    if th.Trying? && th.present then Some(th.v) else None
  }

  /** `compare_exchange`: what is stored afterwards. */
  function Exchanged(cell: Option<nat>, expected: Option<nat>, next: Option<nat>): Option<nat> {
    if cell == expected then next else cell
  }

  predicate Legal(s: State, e: Event) {
    match e
    case First(t) => t in s.threads && s.threads[t].Starting?
    case Try(t, junk) => t in s.threads && s.threads[t].Trying? && junk < WORD
    case GetOrInsert(v) => v < WORD
    case Exchange(_, next) => next.Some? ==> next.value < WORD
    case Insert(v) => v < WORD
    case Remove => true
  }

  function Apply(s: State, e: Event): State
    requires Legal(s, e)
  {
    match e
    case First(t) =>
      // The count starts at 0, and a read of an absent key writes nothing.
      s.(threads := s.threads[t := Trying(s.cell.Some?, if s.cell.Some? then s.cell.value else 0)])
    case Try(t, junk) =>
      var th := s.threads[t];
      if Wins(s, e) then State(Some((th.v + 1) % WORD), s.threads[t := Stored])
      // The observed word is taken over, but it was written only if the key was there.
      else s.(threads := s.threads[t := Trying(s.cell.Some?, if s.cell.Some? then s.cell.value else junk)])
    case GetOrInsert(v) => s.(cell := Exchanged(s.cell, None, Some(v)))
    case Exchange(expected, next) => s.(cell := Exchanged(s.cell, expected, next))
    case Insert(v) => s.(cell := Some(v))
    case Remove => s.(cell := None)
  }

  predicate Wins(s: State, e: Event) {
    e.Try? && e.t in s.threads && s.threads[e.t].Trying? && Expected(s.threads[e.t]) == s.cell
  }

  ghost predicate Run(s: State, es: seq<Event>)
    decreases |es|, 0
  {
    es == [] || (Run(s, es[..|es| - 1]) && Legal(After(s, es[..|es| - 1]), es[|es| - 1]))
  }

  ghost function After(s: State, es: seq<Event>): State
    requires Run(s, es)
    decreases |es|, 1
  {
    if es == [] then s else Apply(After(s, es[..|es| - 1]), es[|es| - 1])
  }

  ghost predicate Fresh(s: State) {
    && (s.cell.Some? ==> s.cell.value < WORD)
    && forall t :: t in s.threads ==> s.threads[t].Starting?
  }

  /** Words are words. */
  lemma {:induction false} WordsFit(s: State, es: seq<Event>)
    requires Fresh(s) && Run(s, es)
    ensures var s' := After(s, es);
            && (s'.cell.Some? ==> s'.cell.value < WORD)
            && forall t :: t in s'.threads && s'.threads[t].Trying? ==> s'.threads[t].v < WORD
    decreases |es|
  {
    if es != [] {
      WordsFit(s, es[..|es| - 1]);
    }
  }

  // ---------------------------------------------------------------- what the loop is meant to do

  function Count(cell: Option<nat>): nat {
    if cell.Some? then cell.value else 0
  }

  /** One increment, an absent key counting as 0. */
  function Bumped(cell: Option<nat>): Option<nat> {
    Some((Count(cell) + 1) % WORD)
  }

  /** What a step makes of the ideal word: a try that wins in `s` adds one to it. */
  function IdealNext(ideal: Option<nat>, s: State, e: Event): Option<nat> {
    match e
    case First(_) => ideal
    case Try(_, _) => if Wins(s, e) then Bumped(ideal) else ideal
    case GetOrInsert(v) => Exchanged(ideal, None, Some(v))
    case Exchange(expected, next) => Exchanged(ideal, expected, next)
    case Insert(v) => Some(v)
    case Remove => None
  }

  /** The word of a map in which every loop that has stored added one, in one step. */
  ghost function Ideal(s: State, es: seq<Event>): Option<nat>
    requires Run(s, es)
    decreases |es|
  {
    if es == [] then s.cell
    else
      IdealNext(Ideal(s, es[..|es| - 1]), After(s, es[..|es| - 1]), es[|es| - 1])
  }

  /** Step `k` stores from an absent key a count that does not start at 0. */
  ghost predicate StoresLeftover(s: State, es: seq<Event>, k: nat)
    requires k < |es|
  {
    Run(s, es[..k])
    && var before := After(s, es[..k]);
       Wins(before, es[k]) && !before.threads[es[k].t].present && before.threads[es[k].t].v != 0
  }

  /** After `k` steps the map holds the ideal word. */
  ghost predicate Agrees(s: State, es: seq<Event>, k: nat)
    requires k <= |es|
  {
    Run(s, es[..k]) && After(s, es[..k]).cell == Ideal(s, es[..k])
  }

  /** A winning step adds one exactly when it does not start from a leftover. */
  lemma WinBumps(s: State, e: Event)
    requires Legal(s, e) && Wins(s, e) && s.threads[e.t].v < WORD
    ensures Apply(s, e).cell == Bumped(s.cell) <==> s.threads[e.t].present || s.threads[e.t].v == 0
  {
    var v := s.threads[e.t].v;
    assert (v + 1) % WORD == if v + 1 == WORD then 0 else v + 1;
  }

  /** The map follows the ideal one at every step exactly when no store starts from a
      leftover word. */
  lemma {:induction false} IncrementsIff(s: State, es: seq<Event>)
    requires Fresh(s) && Run(s, es)
    ensures (forall k :: 0 <= k <= |es| ==> Agrees(s, es, k))
        <==> (forall k :: 0 <= k < |es| ==> !StoresLeftover(s, es, k))
    decreases |es|
  {
    if es == [] {
      assert es[..0] == es;
    } else {
      var n := |es| - 1;
      var front, e := es[..n], es[n];
      IncrementsIff(s, front);
      forall k | 0 <= k <= n
        ensures Agrees(s, front, k) <==> Agrees(s, es, k)
        ensures k < n ==> (StoresLeftover(s, front, k) <==> StoresLeftover(s, es, k))
      {
        assert front[..k] == es[..k];
      }
      assert es[..|es|] == es && front[..n] == front;
      WordsFit(s, front);
      if Wins(After(s, front), e) {
        WinBumps(After(s, front), e);
      }
      if Agrees(s, es, n) {
        LastAgrees(s, es);
      }
      if forall k :: 0 <= k < |es| ==> !StoresLeftover(s, es, k) {
        assert !StoresLeftover(s, es, n);
        assert forall k :: 0 <= k < n ==> !StoresLeftover(s, front, k);
        assert Agrees(s, front, n);
      }
    }
  }

  lemma LastAgrees(s: State, es: seq<Event>)
    requires Run(s, es) && es != []
    requires Wins(After(s, es[..|es| - 1]), es[|es| - 1]) ==>
               (Apply(After(s, es[..|es| - 1]), es[|es| - 1]).cell == Bumped(After(s, es[..|es| - 1]).cell)
                <==> !StoresLeftover(s, es, |es| - 1))
    requires Agrees(s, es, |es| - 1)
    ensures Agrees(s, es, |es|) <==> !StoresLeftover(s, es, |es| - 1)
  {
    assert es[..|es|] == es;
  }

  // ---------------------------------------------------------------- when the loop is safe

  /** A compare that fails on an absent key leaves `seen` as it was: not 0. */
  ghost predicate LeavesJunk(s: State, es: seq<Event>, k: nat)
    requires k < |es|
  {
    Run(s, es[..k]) && es[k].Try? && es[k].unwritten != 0
    && After(s, es[..k]).cell.None? && !Wins(After(s, es[..k]), es[k])
  }

  ghost predicate NoLeftover(s: State) {
    forall t :: t in s.threads && s.threads[t].Trying? && !s.threads[t].present ==> s.threads[t].v == 0
  }

  lemma {:induction false} NoJunkNoLeftover(s: State, es: seq<Event>)
    requires Fresh(s) && Run(s, es)
    requires forall k :: 0 <= k < |es| ==> !LeavesJunk(s, es, k)
    ensures NoLeftover(After(s, es))
    ensures forall k :: 0 <= k < |es| ==> !StoresLeftover(s, es, k)
    decreases |es|
  {
    if es != [] {
      var n := |es| - 1;
      var front := es[..n];
      forall k | 0 <= k < n
        ensures LeavesJunk(s, front, k) <==> LeavesJunk(s, es, k)
        ensures StoresLeftover(s, front, k) <==> StoresLeftover(s, es, k)
      {
        assert front[..k] == es[..k];
      }
      NoJunkNoLeftover(s, front);
      assert !LeavesJunk(s, es, n);
    }
  }

  /** As long as no compare fails on an absent key with a leftover word in `seen`, every
      loop's store is exactly one increment of the word then present. */
  lemma NoLostUpdate(s: State, es: seq<Event>)
    requires Fresh(s) && Run(s, es)
    requires forall k :: 0 <= k < |es| ==> !LeavesJunk(s, es, k)
    ensures After(s, es).cell == Ideal(s, es)
  {
    NoJunkNoLeftover(s, es);
    IncrementsIff(s, es);
    assert Agrees(s, es, |es|) && es[..|es|] == es;
  }

  /** And where one does, the very next try stores a word that is not an increment. */
  lemma JunkIsStored(s: State, t: nat, junk: nat, again: nat)
    requires Legal(s, Try(t, junk)) && s.cell.None? && !Wins(s, Try(t, junk)) && junk != 0 && again < WORD
    ensures var s' := Apply(s, Try(t, junk));
            && Legal(s', Try(t, again)) && Wins(s', Try(t, again))
            && Apply(s', Try(t, again)).cell == Some((junk + 1) % WORD) != Bumped(s'.cell)
  {
    assert (junk + 1) % WORD != 1;
  }

  lemma Extends(s: State, es: seq<Event>, e: Event)
    requires Run(s, es) && Legal(After(s, es), e)
    ensures Run(s, es + [e]) && After(s, es + [e]) == Apply(After(s, es), e)
    ensures Ideal(s, es + [e]) == IdealNext(Ideal(s, es), After(s, es), e)
  {
    assert (es + [e])[..|es|] == es;
  }

  /** It comes to that from any map with the key present: a thread reads, another removes
      the key, the thread tries twice. The key should count 1 and holds the leftover's
      successor. */
  lemma JunkRun(s: State, t: nat, junk: nat, again: nat) returns (es: seq<Event>)
    requires Fresh(s) && t in s.threads && s.cell.Some? && 0 < junk < WORD && again < WORD
    ensures Run(s, es) && (forall e :: e in es ==> e.First? || e.Try? || e.Remove?)
    ensures Ideal(s, es) == Some(1) && After(s, es).cell == Some((junk + 1) % WORD) != Ideal(s, es)
  {
    es := [];
    Extends(s, es, First(t));
    es := es + [First(t)];
    Extends(s, es, Remove);
    es := es + [Remove];
    Extends(s, es, Try(t, junk));
    JunkIsStored(After(s, es), t, junk, again);
    es := es + [Try(t, junk)];
    Extends(s, es, Try(t, again));
    es := es + [Try(t, again)];
  }

  // ---------------------------------------------------------------- only incrementers

  /** How many loops have stored. */
  ghost function Stores(s: State, es: seq<Event>): nat
    requires Run(s, es)
    decreases |es|
  {
    if es == [] then 0
    else Stores(s, es[..|es| - 1]) + if Wins(After(s, es[..|es| - 1]), es[|es| - 1]) then 1 else 0
  }

  predicate Removes(e: Event) {
    e.Remove? || (e.Exchange? && e.next.None?)
  }

  lemma {:induction false} StaysPresent(s: State, es: seq<Event>)
    requires Fresh(s) && Run(s, es) && forall k :: 0 <= k < |es| ==> !Removes(es[k])
    ensures After(s, es).cell.None? ==>
              s.cell.None?
              && forall t :: t in After(s, es).threads && After(s, es).threads[t].Trying? ==> !After(s, es).threads[t].present
    ensures forall k :: 0 <= k < |es| ==> !LeavesJunk(s, es, k)
    decreases |es|
  {
    if es != [] {
      var n := |es| - 1;
      var front := es[..n];
      StaysPresent(s, front);
      forall k | 0 <= k < n
        ensures LeavesJunk(s, front, k) <==> LeavesJunk(s, es, k)
      {
        assert front[..k] == es[..k];
      }
    }
  }

  /** Threads that only increment: the word is the first one plus the number of stores,
      round the word size, whatever each `seen` held before. */
  lemma {:induction false} CountsEveryStore(s: State, es: seq<Event>)
    requires Fresh(s) && Run(s, es)
    requires forall k :: 0 <= k < |es| ==> es[k].First? || es[k].Try?
    ensures Count(After(s, es).cell) == (Count(s.cell) + Stores(s, es)) % WORD
    ensures After(s, es).cell.Some? <==> s.cell.Some? || Stores(s, es) > 0
    decreases |es|
  {
    if es != [] {
      var n := |es| - 1;
      var front, e := es[..n], es[n];
      CountsEveryStore(s, front);
      StaysPresent(s, es);
      NoLostUpdate(s, es);
      NoLostUpdate(s, front) by {
        StaysPresent(s, front);
      }
      if Wins(After(s, front), e) {
        WrapAdds(Count(s.cell) + Stores(s, front));
      }
    }
  }

  lemma WrapAdds(n: nat)
    ensures (n % WORD + 1) % WORD == (n + 1) % WORD
  {
  }

  // ---------------------------------------------------------------- get_or_insert

  /** How many steps stored into an absent key. */
  ghost function Creations(s: State, es: seq<Event>): nat
    requires Run(s, es)
    decreases |es|
  {
    if es == [] then 0
    else
      var before, e := After(s, es[..|es| - 1]), es[|es| - 1];
      Creations(s, es[..|es| - 1]) + if before.cell.None? && Apply(before, e).cell.Some? then 1 else 0
  }

  /** The call's answer: true where it stored. */
  predicate Claimed(s: State, e: Event) {
    e.GetOrInsert? && s.cell.None?
  }

  ghost function Claims(s: State, es: seq<Event>): nat
    requires Run(s, es)
    decreases |es|
  {
    if es == [] then 0
    else Claims(s, es[..|es| - 1]) + if Claimed(After(s, es[..|es| - 1]), es[|es| - 1]) then 1 else 0
  }

  /** With no remove in between, an absent key is created once: of all the callers racing
      on it at most one is told it stored, and exactly one where they are alone. */
  lemma {:induction false} OneClaim(s: State, es: seq<Event>)
    requires Run(s, es) && s.cell.None? && forall k :: 0 <= k < |es| ==> !Removes(es[k])
    ensures Creations(s, es) == if After(s, es).cell.Some? then 1 else 0
    ensures Claims(s, es) <= Creations(s, es)
    ensures (forall k :: 0 <= k < |es| ==> es[k].GetOrInsert?) && es != [] ==>
              Claims(s, es) == 1 && After(s, es).cell == Some(es[0].value)
    decreases |es|
  {
    if es != [] {
      OneClaim(s, es[..|es| - 1]);
    }
  }

  // ---------------------------------------------------------------- the loop ends

  /** Failed tries of thread `t`. */
  ghost function Fails(s: State, es: seq<Event>, t: nat): nat
    requires Run(s, es)
    decreases |es|
  {
    if es == [] then 0
    else
      var before, e := After(s, es[..|es| - 1]), es[|es| - 1];
      Fails(s, es[..|es| - 1], t) + if e.Try? && e.t == t && !Wins(before, e) then 1 else 0
  }

  /** Steps of the others that changed the word. */
  ghost function Changes(s: State, es: seq<Event>, t: nat): nat
    requires Run(s, es)
    decreases |es|
  {
    if es == [] then 0
    else
      var before, e := After(s, es[..|es| - 1]), es[|es| - 1];
      Changes(s, es[..|es| - 1], t)
      + if !((e.Try? || e.First?) && e.t == t) && Apply(before, e).cell != before.cell then 1 else 0
  }

  /** A try fails only because another step changed the word since the thread last saw it:
      a thread fails no more often than the others change the word. */
  lemma {:induction false} FailsNeedChanges(s: State, es: seq<Event>, t: nat)
    requires Fresh(s) && Run(s, es)
    ensures Fails(s, es, t) <= Changes(s, es, t)
    ensures var s' := After(s, es);
            t in s'.threads && s'.threads[t].Trying? && Expected(s'.threads[t]) != s'.cell ==>
              Fails(s, es, t) < Changes(s, es, t)
    decreases |es|
  {
    if es != [] {
      FailsNeedChanges(s, es[..|es| - 1], t);
    }
  }
}
