/**
 What the windower makes of any stream of marks: it cuts the completed cases, in order,
 into consecutive runs, each run ending at the first case that resolves it.
 */
module WindowerTheorems {
  import opened Options
  import opened Provenance
  import opened Windower

  /** The windower after a stream of marks. */
  function After(ms: seq<Mark>, u: Setup): State {
    if ms == [] then EMPTY else Fed(After(ms[..|ms| - 1], u), ms[|ms| - 1], u)
  }

  // ---------------------------------------------------------------- the stream, read without windows

  /** One completed case: its id and the snapshots its two marks offer. */
  datatype Case = Case(id: string, began: Snap, ended: Snap)

  /** The case that is open after `ms`: a begin counts when none is open, an end when it
      names the open case. */
  function OpenCase(ms: seq<Mark>): Option<Opened> {
    if ms == [] then None
    else
      var before, m := OpenCase(ms[..|ms| - 1]), ms[|ms| - 1];
      match m.kind
      case Begin => if before.None? then Some(Opened(m.id, m.now)) else before
      case End => if before.Some? && before.value.id == m.id then None else before
  }

  function Cases(ms: seq<Mark>): seq<Case> {
    if ms == [] then []
    else
      var before, m := OpenCase(ms[..|ms| - 1]), ms[|ms| - 1];
      Cases(ms[..|ms| - 1])
      + if m.kind.End? && before.Some? && before.value.id == m.id then [Case(m.id, before.value.start, m.now)] else []
  }

  function Ids(cs: seq<Case>): seq<string> {
    seq(|cs|, i requires 0 <= i < |cs| => cs[i].id)
  }

  // ---------------------------------------------------------------- the cut

  /** The window from the start of `run` to the end of its case `i`. */
  function Upto(run: seq<Case>, i: nat, u: Setup): Load
    requires i < |run|
  {
    u.close(run[0].began, run[i].ended)
  }

  /** No case of `run` resolves the window that its first case opened. */
  ghost predicate Unresolved(run: seq<Case>, u: Setup) {
    forall i :: 0 <= i < |run| ==> Merges(Upto(run, i, u), u.minWindow)
  }

  /** `w` is the window of exactly the cases of `run`, closed at the first case that
      resolves it. */
  ghost predicate Fits(w: Window, run: seq<Case>, u: Setup) {
    && |run| > 0
    && w == Window(Ids(run), Upto(run, |run| - 1, u), run[0].began, run[|run| - 1].ended)
    && !Merges(w.load, u.minWindow)
    && Unresolved(run[..|run| - 1], u)
  }

  /** The windows, in order, take up the cases, in order. */
  ghost predicate Cut(ws: seq<Window>, cs: seq<Case>, u: Setup)
    decreases |ws|
  {
    if ws == [] then cs == []
    else
      var n, w := |ws| - 1, ws[|ws| - 1];
      && |w.ids| <= |cs|
      && Fits(w, cs[|cs| - |w.ids|..], u)
      && Cut(ws[..n], cs[..|cs| - |w.ids|], u)
  }

  // ---------------------------------------------------------------- every stream

  ghost predicate LastIs(s: State) {
    && (s.last.Some? <==> s.windows != [])
    && (s.last.Some? ==>
          var w := s.windows[|s.windows| - 1];
          s.last.value == Held(w.ids, w.start))
  }

  /** The waiting cases are `rest`, none of which resolved the window. */
  ghost predicate Holds(s: State, open: Option<Opened>, rest: seq<Case>, u: Setup) {
    && Unresolved(rest, u)
    && match open
       case None =>
         s.open.None? && s.carry == if rest == [] then None else Some(Held(Ids(rest), rest[0].began))
       case Some(o) =>
         && s.carry.None?
         && s.ids == Ids(rest) + [o.id]
         && s.open == Some(Opened(o.id, if rest == [] then o.start else rest[0].began))
  }

  /** The windows are a cut of the cases `done`, and the cases `rest` are waiting. */
  ghost predicate Reads(s: State, open: Option<Opened>, done: seq<Case>, rest: seq<Case>, u: Setup) {
    LastIs(s) && Holds(s, open, rest, u) && Cut(s.windows, done, u)
  }

  lemma BeginReads(s: State, done: seq<Case>, rest: seq<Case>, m: Mark, u: Setup)
    requires Reads(s, None, done, rest, u) && m.kind.Begin?
    ensures Reads(Fed(s, m, u), Some(Opened(m.id, m.now)), done, rest, u)
  {
    if rest == [] {
      assert Ids(rest) + [m.id] == [m.id];
    }
  }

  lemma RunGrows(rest: seq<Case>, c: Case, u: Setup)
    requires Unresolved(rest, u)
    ensures var run := rest + [c];
            && Ids(run) == Ids(rest) + [c.id]
            && run[..|rest|] == rest
            && (Merges(Upto(run, |rest|, u), u.minWindow) ==> Unresolved(run, u))
  {
    var run := rest + [c];
    if Merges(Upto(run, |rest|, u), u.minWindow) {
      forall i | 0 <= i < |run|
        ensures Merges(Upto(run, i, u), u.minWindow)
      {
        if i < |rest| {
          assert Upto(run, i, u) == Upto(rest, i, u);
        }
      }
    }
  }

  lemma EndCarries(s: State, o: Opened, done: seq<Case>, rest: seq<Case>, m: Mark, u: Setup)
    requires Reads(s, Some(o), done, rest, u) && o.id == m.id && m.kind.End?
    requires Merges(u.close(s.open.value.start, m.now), u.minWindow)
    ensures Reads(Fed(s, m, u), None, done, rest + [Case(m.id, o.start, m.now)], u)
  {
    RunGrows(rest, Case(m.id, o.start, m.now), u);
  }

  lemma EndRecords(s: State, o: Opened, done: seq<Case>, rest: seq<Case>, m: Mark, u: Setup)
    requires Reads(s, Some(o), done, rest, u) && o.id == m.id && m.kind.End?
    requires !Merges(u.close(s.open.value.start, m.now), u.minWindow)
    ensures Reads(Fed(s, m, u), None, done + rest + [Case(m.id, o.start, m.now)], [], u)
  {
    var c := Case(m.id, o.start, m.now);
    var run := rest + [c];
    RunGrows(rest, c, u);
    CutGrows(s.windows, done, Window(s.ids, Upto(run, |rest|, u), run[0].began, m.now), run, u);
    assert done + run == done + rest + [c];
  }

  lemma CutGrows(ws: seq<Window>, done: seq<Case>, w: Window, run: seq<Case>, u: Setup)
    requires Cut(ws, done, u) && Fits(w, run, u)
    ensures Cut(ws + [w], done + run, u)
  {
    assert (ws + [w])[..|ws|] == ws;
    assert (done + run)[|done|..] == run && (done + run)[..|done|] == done;
  }

  /** A mark out of turn leaves a finding and changes nothing else. */
  lemma Ignored(s: State, open: Option<Opened>, done: seq<Case>, rest: seq<Case>, m: Mark, u: Setup)
    requires Reads(s, open, done, rest, u)
    requires if m.kind.Begin? then open.Some? else open.None? || open.value.id != m.id
    ensures Reads(Fed(s, m, u), open, done, rest, u)
    ensures |Fed(s, m, u).findings| == |s.findings| + 1
  {
  }

  /** On every stream, whatever is wrong with it, the windows are a cut of the completed
      cases up to the ones still waiting. */
  lemma {:induction false} StreamReads(ms: seq<Mark>, u: Setup) returns (done: seq<Case>, rest: seq<Case>)
    ensures Cases(ms) == done + rest && Reads(After(ms, u), OpenCase(ms), done, rest, u)
  {
    done, rest := [], [];
    if ms != [] {
      var before, m := ms[..|ms| - 1], ms[|ms| - 1];
      done, rest := StreamReads(before, u);
      var s, open := After(before, u), OpenCase(before);
      if m.kind.Begin? && open.None? {
        BeginReads(s, done, rest, m, u);
      } else if m.kind.End? && open.Some? && open.value.id == m.id {
        if Merges(u.close(s.open.value.start, m.now), u.minWindow) {
          EndCarries(s, open.value, done, rest, m, u);
          rest := rest + [Case(m.id, open.value.start, m.now)];
        } else {
          EndRecords(s, open.value, done, rest, m, u);
          done, rest := done + rest + [Case(m.id, open.value.start, m.now)], [];
        }
      } else {
        Ignored(s, open, done, rest, m, u);
      }
    }
  }

  // ---------------------------------------------------------------- nothing is lost

  /** The ids of the windows, one after another. */
  function Named(ws: seq<Window>): seq<string>
    decreases |ws|
  {
    if ws == [] then [] else Named(ws[..|ws| - 1]) + ws[|ws| - 1].ids
  }

  /** The ids in hand: of the open window, or of the carried one. */
  function InHand(s: State): seq<string> {
    if s.open.Some? then s.ids else if s.carry.Some? then s.carry.value.ids else []
  }

  function OpenId(o: Option<Opened>): seq<string> {
    if o.Some? then [o.value.id] else []
  }

  lemma {:induction false} CutNames(ws: seq<Window>, cs: seq<Case>, u: Setup)
    requires Cut(ws, cs, u)
    ensures Named(ws) == Ids(cs)
    decreases |ws|
  {
    if ws != [] {
      var n, k := |ws| - 1, |cs| - |ws[|ws| - 1].ids|;
      CutNames(ws[..n], cs[..k], u);
      assert cs == cs[..k] + cs[k..];
      IdsJoin(cs[..k], cs[k..]);
    }
  }

  lemma IdsJoin(a: seq<Case>, b: seq<Case>)
    ensures Ids(a + b) == Ids(a) + Ids(b)
  {
  }

  /** Every accepted begin is named once, in order: in a window, or in hand. */
  lemma NothingLost(ms: seq<Mark>, u: Setup)
    ensures var s := After(ms, u);
            Named(s.windows) + InHand(s) == Ids(Cases(ms)) + OpenId(OpenCase(ms))
  {
    var done, rest := StreamReads(ms, u);
    CutNames(After(ms, u).windows, done, u);
    IdsJoin(done, rest);
  }

  // ---------------------------------------------------------------- finishing

  /** The last window of a finished record: all the cases that were left, closed at the end. */
  ghost predicate ClosedAtEnd(w: Window, run: seq<Case>, now: Snap, u: Setup) {
    |run| > 0 && w == Window(Ids(run), u.close(run[0].began, now), run[0].began, now)
  }

  ghost predicate CutToEnd(ws: seq<Window>, cs: seq<Case>, now: Snap, u: Setup) {
    && ws != []
    && var n, k := |ws| - 1, |cs| - |ws[|ws| - 1].ids|;
       k >= 0 && Cut(ws[..n], cs[..k], u) && ClosedAtEnd(ws[n], cs[k..], now, u)
  }

  lemma FoldsBack(s: State, done: seq<Case>, rest: seq<Case>, now: Snap, u: Setup)
    requires Reads(s, None, done, rest, u) && rest != []
    ensures CutToEnd(Settled(s, now, u).windows, done + rest, now, u)
  {
    var ws, cs := Settled(s, now, u).windows, done + rest;
    if s.windows == [] {
      assert ws[..0] == [] && cs[..|cs| - |rest|] == [] && cs[|cs| - |rest|..] == rest;
    } else {
      var n := |s.windows| - 1;
      var w := s.windows[n];
      var k := |done| - |w.ids|;
      assert ws[..n] == s.windows[..n] && cs[..k] == done[..k];
      assert cs[k..] == done[k..] + rest;
      IdsJoin(done[k..], rest);
      assert ClosedAtEnd(ws[n], cs[k..], now, u);
    }
  }

  /** A stream that ends with no case open: the finished windows are a cut of all its cases,
      where the last window may be one that was closed at the end instead. */
  lemma FinishedCut(ms: seq<Mark>, now: Snap, u: Setup)
    requires OpenCase(ms).None?
    ensures var s, ws := After(ms, u), Finished(After(ms, u), now, u).windows;
            if s.carry.None? then Cut(ws, Cases(ms), u) else CutToEnd(ws, Cases(ms), now, u)
    ensures Named(Finished(After(ms, u), now, u).windows) == Ids(Cases(ms))
  {
    var done, rest := StreamReads(ms, u);
    var ws := Finished(After(ms, u), now, u).windows;
    if rest == [] {
      assert done + rest == done;
      CutNames(ws, done, u);
    } else {
      FoldsBack(After(ms, u), done, rest, now, u);
      CutToEndNames(ws, Cases(ms), now, u);
    }
  }

  lemma CutToEndNames(ws: seq<Window>, cs: seq<Case>, now: Snap, u: Setup)
    requires CutToEnd(ws, cs, now, u)
    ensures Named(ws) == Ids(cs)
  {
    var n, k := |ws| - 1, |cs| - |ws[|ws| - 1].ids|;
    CutNames(ws[..n], cs[..k], u);
    assert cs == cs[..k] + cs[k..];
    IdsJoin(cs[..k], cs[k..]);
  }

  /** A stream that ends inside a case loses that case, and every case carried into its
      window; all the others are cut as usual. */
  lemma UnclosedDrops(ms: seq<Mark>, now: Snap, u: Setup)
    requires OpenCase(ms).Some?
    ensures var s, f := After(ms, u), Finished(After(ms, u), now, u);
            && Named(f.windows) + s.ids == Ids(Cases(ms)) + [OpenCase(ms).value.id]
            && NeverClosed(OpenCase(ms).value.id) in f.findings
            && exists k :: 0 <= k <= |Cases(ms)| && Cut(f.windows, Cases(ms)[..k], u)
  {
    var done, rest := StreamReads(ms, u);
    NothingLost(ms, u);
    assert Cases(ms)[..|done|] == done;
    var s := After(ms, u);
    assert NeverClosed(OpenCase(ms).value.id) in Settled(s, now, u).findings;
  }
}
