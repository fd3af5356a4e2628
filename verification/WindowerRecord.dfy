/**
 What a finished windower record promises: windows that do not overlap and contain their
 cases, no load figure missing before the last window, and an empty list of findings
 exactly for a well-formed stream.
 */
module WindowerRecord {
  import opened Options
  import opened Provenance
  import opened Windower
  import opened WindowerTheorems

  // ---------------------------------------------------------------- a monotone clock

  /** Every mark is read no earlier than the one before it. */
  ghost predicate Clocked(ms: seq<Mark>) {
    forall i, j :: 0 <= i < j < |ms| ==> ms[i].now.t <= ms[j].now.t
  }

  /** One case after another, each ending no earlier than it began. */
  ghost predicate InOrder(cs: seq<Case>) {
    && (forall i :: 0 <= i < |cs| ==> cs[i].began.t <= cs[i].ended.t)
    && (forall i, j :: 0 <= i < j < |cs| ==> cs[i].ended.t <= cs[j].began.t)
  }

  ghost predicate Before(cs: seq<Case>, t: real) {
    forall i :: 0 <= i < |cs| ==> cs[i].ended.t <= t
  }

  lemma {:induction false} CasesInOrder(ms: seq<Mark>, now: Snap)
    requires Clocked(ms + [Mark(End, "", now)])
    ensures InOrder(Cases(ms)) && Before(Cases(ms), now.t)
    ensures OpenCase(ms).Some? ==>
              Before(Cases(ms), OpenCase(ms).value.start.t) && OpenCase(ms).value.start.t <= now.t
  {
    if ms != [] {
      var before, m := ms[..|ms| - 1], ms[|ms| - 1];
      forall i, j | 0 <= i < j < |ms|
        ensures ms[i].now.t <= ms[j].now.t
      {
        assert (ms + [Mark(End, "", now)])[i] == ms[i] && (ms + [Mark(End, "", now)])[j] == ms[j];
      }
      assert m.now.t <= now.t by {
        assert (ms + [Mark(End, "", now)])[|ms| - 1] == m && (ms + [Mark(End, "", now)])[|ms|].now == now;
      }
      CasesInOrder(before, m.now);
    }
  }

  /** Where the cases of window `i` start among all the cases. */
  function Offset(ws: seq<Window>, i: nat): nat
    requires i <= |ws|
  {
    if i == 0 then 0 else Offset(ws, i - 1) + |ws[i - 1].ids|
  }

  /** Window `i` names the cases from `Offset(ws, i)` on, and they ran inside it. */
  ghost predicate Contains(ws: seq<Window>, i: nat, cs: seq<Case>)
    requires i < |ws|
  {
    && Offset(ws, i) + |ws[i].ids| <= |cs|
    && forall k :: 0 <= k < |ws[i].ids| ==>
         var c := cs[Offset(ws, i) + k];
         ws[i].ids[k] == c.id && ws[i].start.t <= c.began.t && c.ended.t <= ws[i].end.t
  }

  ghost predicate AllContain(ws: seq<Window>, cs: seq<Case>) {
    forall i :: 0 <= i < |ws| ==> Contains(ws, i, cs)
  }

  ghost predicate Disjoint(ws: seq<Window>) {
    && (forall i :: 0 <= i < |ws| ==> ws[i].start.t <= ws[i].end.t)
    && (forall i, j :: 0 <= i < j < |ws| ==> ws[i].end.t <= ws[j].start.t)
  }

  lemma {:induction false} OffsetOfPrefix(ws: seq<Window>, n: nat, i: nat)
    requires i <= n <= |ws|
    ensures Offset(ws[..n], i) == Offset(ws, i)
  {
    if i > 0 {
      OffsetOfPrefix(ws, n, i - 1);
    }
  }

  /** Adds the last window to what is known of the ones before it. */
  lemma LastHolds(ws: seq<Window>, cs: seq<Case>, k: nat)
    requires ws != [] && k <= |cs| && InOrder(cs) && k + |ws[|ws| - 1].ids| == |cs|
    requires Offset(ws, |ws| - 1) == k
    requires AllContain(ws[..|ws| - 1], cs[..k])
    requires var w, run := ws[|ws| - 1], cs[k..];
             && run != [] && w.ids == Ids(run) && w.start == run[0].began
             && cs[|cs| - 1].ended.t <= w.end.t
    ensures AllContain(ws, cs)
  {
    var n := |ws| - 1;
    forall i | 0 <= i < |ws|
      ensures Contains(ws, i, cs)
    {
      if i < n {
        assert Contains(ws[..n], i, cs[..k]);
        OffsetOfPrefix(ws, n, i);
      } else {
        forall j | 0 <= j < |ws[n].ids|
          ensures ws[n].ids[j] == cs[k + j].id && ws[n].start.t <= cs[k + j].began.t && cs[k + j].ended.t <= ws[n].end.t
        {
          assert cs[k..][j] == cs[k + j] && cs[k..][0] == cs[k];
          assert j == 0 || cs[k].ended.t <= cs[k + j].began.t;
          assert k + j == |cs| - 1 || cs[k + j].ended.t <= cs[|cs| - 1].began.t;
        }
      }
    }
  }

  /** The windows are in order and do not overlap, together they name every case, and each
      case ran inside the window that names it. */
  ghost predicate HoldsAll(ws: seq<Window>, cs: seq<Case>) {
    Offset(ws, |ws|) == |cs| && AllContain(ws, cs) && Disjoint(ws)
  }

  /** No window ends after the last case. */
  ghost predicate EndsWith(ws: seq<Window>, cs: seq<Case>) {
    if cs == [] then ws == [] else forall i :: 0 <= i < |ws| ==> ws[i].end.t <= cs[|cs| - 1].ended.t
  }

  lemma DisjointGrows(ws: seq<Window>, t: real)
    requires ws != [] && Disjoint(ws[..|ws| - 1])
    requires forall i :: 0 <= i < |ws| - 1 ==> ws[i].end.t <= t
    requires t <= ws[|ws| - 1].start.t <= ws[|ws| - 1].end.t || (|ws| == 1 && ws[0].start.t <= ws[0].end.t)
    ensures Disjoint(ws)
  {
    var n := |ws| - 1;
    assert forall i :: 0 <= i < n ==> ws[..n][i] == ws[i];
  }

  lemma LastHoldsAll(ws: seq<Window>, cs: seq<Case>, k: nat)
    requires ws != [] && k <= |cs| && InOrder(cs) && k + |ws[|ws| - 1].ids| == |cs|
    requires HoldsAll(ws[..|ws| - 1], cs[..k]) && EndsWith(ws[..|ws| - 1], cs[..k])
    requires var w, run := ws[|ws| - 1], cs[k..];
             && run != [] && w.ids == Ids(run) && w.start == run[0].began
             && cs[|cs| - 1].ended.t <= w.end.t
    ensures HoldsAll(ws, cs)
  {
    var n := |ws| - 1;
    OffsetOfPrefix(ws, n, n);
    LastHolds(ws, cs, k);
    assert cs[k..][0] == cs[k] && cs[k].ended.t <= cs[|cs| - 1].ended.t;
    assert forall i :: 0 <= i < n ==> ws[..n][i] == ws[i];
    DisjointGrows(ws, if k == 0 then ws[n].start.t else cs[k - 1].ended.t);
  }

  lemma {:induction false} CutHolds(ws: seq<Window>, cs: seq<Case>, u: Setup)
    requires Cut(ws, cs, u) && InOrder(cs)
    ensures HoldsAll(ws, cs) && EndsWith(ws, cs)
    decreases |ws|
  {
    if ws != [] {
      var n := |ws| - 1;
      var k := |cs| - |ws[n].ids|;
      CutHolds(ws[..n], cs[..k], u);
      LastHoldsAll(ws, cs, k);
      forall i | 0 <= i < n
        ensures ws[i].end.t <= cs[|cs| - 1].ended.t
      {
        assert ws[i].end.t <= ws[n].start.t;
      }
    }
  }

  lemma CutToEndHolds(ws: seq<Window>, cs: seq<Case>, now: Snap, u: Setup)
    requires CutToEnd(ws, cs, now, u) && InOrder(cs) && Before(cs, now.t)
    ensures HoldsAll(ws, cs)
  {
    var n, k := |ws| - 1, |cs| - |ws[|ws| - 1].ids|;
    CutHolds(ws[..n], cs[..k], u);
    LastHoldsAll(ws, cs, k);
  }

  /** What a monotone clock gives, whatever was merged, carried or folded back: over all the
      cases, or, where the stream ends inside one, over those whose windows were closed. */
  lemma WindowsHold(ms: seq<Mark>, now: Snap, u: Setup)
    requires Clocked(ms + [Mark(End, "", now)])
    ensures var ws := Finished(After(ms, u), now, u).windows;
            if OpenCase(ms).None? then HoldsAll(ws, Cases(ms))
            else exists k :: 0 <= k <= |Cases(ms)| && HoldsAll(ws, Cases(ms)[..k])
  {
    CasesInOrder(ms, now);
    if OpenCase(ms).Some? {
      UnclosedDrops(ms, now, u);
      var k :| 0 <= k <= |Cases(ms)| && Cut(Finished(After(ms, u), now, u).windows, Cases(ms)[..k], u);
      CutHolds(Finished(After(ms, u), now, u).windows, Cases(ms)[..k], u);
      return;
    }
    FinishedCut(ms, now, u);
    if After(ms, u).carry.None? {
      CutHolds(Finished(After(ms, u), now, u).windows, Cases(ms), u);
    } else {
      CutToEndHolds(Finished(After(ms, u), now, u).windows, Cases(ms), now, u);
    }
  }

  // ---------------------------------------------------------------- attribution

  /** The windower as a process window is closed. */
  function PidSetup(ncpu: int, minWindow: real): Setup
    requires ncpu > 0 && minWindow > 0.0
  {
    Setup(minWindow, (a, b) => CloseWindow(a, b, ncpu, minWindow))
  }

  lemma {:induction false} CutAttributes(ws: seq<Window>, cs: seq<Case>, ncpu: int, minWindow: real)
    requires ncpu > 0 && minWindow > 0.0 && Cut(ws, cs, PidSetup(ncpu, minWindow))
    ensures forall i :: 0 <= i < |ws| ==> Attributed(ws[i].load)
    decreases |ws|
  {
    if ws != [] {
      var n := |ws| - 1;
      CutAttributes(ws[..n], cs[..|cs| - |ws[n].ids|], ncpu, minWindow);
      forall i | 0 <= i < |ws|
        ensures Attributed(ws[i].load)
      {
        if i < n {
          assert Attributed(ws[..n][i].load);
        } else {
          assert !Merges(ws[n].load, minWindow);
        }
      }
    }
  }

  /** On every stream, only the last window can be without figures, and only when it was
      closed at the end rather than by a case. */
  lemma OnlyLastUnattributed(ms: seq<Mark>, now: Snap, ncpu: int, minWindow: real)
    requires ncpu > 0 && minWindow > 0.0
    ensures var u := PidSetup(ncpu, minWindow);
            var s := After(ms, u);
            forall i :: 0 <= i < |Finished(s, now, u).windows| ==>
              Attributed(Finished(s, now, u).windows[i].load)
              || (i == |Finished(s, now, u).windows| - 1 && s.carry.Some?)
  {
    var u := PidSetup(ncpu, minWindow);
    var s := After(ms, u);
    var ws := Finished(s, now, u).windows;
    if OpenCase(ms).Some? {
      UnclosedDrops(ms, now, u);
      var k :| 0 <= k <= |Cases(ms)| && Cut(ws, Cases(ms)[..k], u);
      CutAttributes(ws, Cases(ms)[..k], ncpu, minWindow);
    } else {
      FinishedCut(ms, now, u);
      if s.carry.None? {
        CutAttributes(ws, Cases(ms), ncpu, minWindow);
      } else {
        var n := |ws| - 1;
        CutAttributes(ws[..n], Cases(ms)[..|Cases(ms)| - |ws[n].ids|], ncpu, minWindow);
        forall i | 0 <= i < n
          ensures Attributed(ws[i].load)
        {
          assert Attributed(ws[..n][i].load);
        }
      }
    }
  }

  // ---------------------------------------------------------------- no findings

  /** A begin at an even place; at an odd one, the end that closes it. */
  ghost predicate InTurn(ms: seq<Mark>, i: nat)
    requires i < |ms|
  {
    if i % 2 == 0 then ms[i].kind.Begin? else ms[i].kind.End? && ms[i].id == ms[i - 1].id
  }

  ghost predicate Alternates(ms: seq<Mark>) {
    forall i :: 0 <= i < |ms| ==> InTurn(ms, i)
  }

  lemma AlternatesStep(ms: seq<Mark>)
    requires ms != []
    ensures Alternates(ms) <==> Alternates(ms[..|ms| - 1]) && InTurn(ms, |ms| - 1)
  {
    var before := ms[..|ms| - 1];
    forall i | 0 <= i < |before|
      ensures InTurn(before, i) <==> InTurn(ms, i)
    {
    }
    if Alternates(ms) {
      forall i | 0 <= i < |before|
        ensures InTurn(before, i)
      {
        assert InTurn(ms, i);
      }
    }
  }

  /** Pair `i` of a stream, as a case. */
  function PairAt(ms: seq<Mark>, i: nat): Case
    requires 2 * i + 1 < |ms|
  {
    Case(ms[2 * i].id, ms[2 * i].now, ms[2 * i + 1].now)
  }

  ghost predicate IsPairs(cs: seq<Case>, ms: seq<Mark>) {
    |cs| == |ms| / 2 && forall i :: 0 <= i < |cs| ==> cs[i] == PairAt(ms, i)
  }

  lemma PairsGrow(cs: seq<Case>, before: seq<Mark>, m: Mark)
    requires IsPairs(cs, before)
    ensures |before| % 2 == 0 ==> IsPairs(cs, before + [m])
    ensures |before| % 2 == 1 ==>
              IsPairs(cs + [Case(before[|before| - 1].id, before[|before| - 1].now, m.now)], before + [m])
  {
  }

  /** While a stream alternates, its cases are its pairs. */
  lemma {:induction false} PairsAreCases(ms: seq<Mark>)
    requires Alternates(ms)
    ensures OpenCase(ms) == if |ms| % 2 == 0 then None else Some(Opened(ms[|ms| - 1].id, ms[|ms| - 1].now))
    ensures IsPairs(Cases(ms), ms)
  {
    if ms != [] {
      var before, m := ms[..|ms| - 1], ms[|ms| - 1];
      AlternatesStep(ms);
      PairsAreCases(before);
      PairsGrow(Cases(before), before, m);
      assert ms == before + [m];
      assert InTurn(ms, |ms| - 1);
    }
  }

  lemma {:induction false} CleanAlternates(ms: seq<Mark>, u: Setup)
    ensures After(ms, u).findings == [] <==> Alternates(ms)
  {
    if ms != [] {
      var before, m := ms[..|ms| - 1], ms[|ms| - 1];
      CleanAlternates(before, u);
      var done, rest := StreamReads(before, u);
      var s, open := After(before, u), OpenCase(before);
      AlternatesStep(ms);
      if Alternates(before) {
        PairsAreCases(before);
      }
    }
  }

  lemma {:induction false} NoComplaints(ws: seq<Window>)
    ensures Complaints(ws) == [] <==> forall i :: 0 <= i < |ws| ==> Attributed(ws[i].load)
  {
    if ws != [] {
      NoComplaints(ws[..|ws| - 1]);
      assert forall i :: 0 <= i < |ws| - 1 ==> ws[..|ws| - 1][i] == ws[i];
    }
  }

  /** The ids of a stream's begins, one for each pair. */
  function Begun(ms: seq<Mark>): seq<string> {
    seq(|ms| / 2, i requires 0 <= i < |ms| / 2 => ms[2 * i].id)
  }

  lemma PairIds(cs: seq<Case>, ms: seq<Mark>)
    requires IsPairs(cs, ms)
    ensures Ids(cs) == Begun(ms)
  {
  }

  /** No findings: exactly when the stream was a non-empty alternation of begins and their
      ends, and every window came out with figures. */
  lemma CleanIff(ms: seq<Mark>, now: Snap, u: Setup)
    ensures var f := Finished(After(ms, u), now, u);
            f.findings == [] <==>
              && ms != [] && Alternates(ms) && |ms| % 2 == 0
              && forall i :: 0 <= i < |f.windows| ==> Attributed(f.windows[i].load)
  {
    CleanFinish(ms, now, u);
    CleanAlternates(ms, u);
    NoComplaints(Finished(After(ms, u), now, u).windows);
    if Alternates(ms) {
      PairsAreCases(ms);
      if |ms| % 2 == 0 {
        AlternatingNames(ms, now, u);
        assert Finished(After(ms, u), now, u).windows == [] ==> Begun(ms) == [];
        assert ms == [] ==> After(ms, u) == EMPTY;
      }
    }
  }

  /** The windows of an alternating stream name its begins, each once, in order. */
  lemma AlternatingNames(ms: seq<Mark>, now: Snap, u: Setup)
    requires Alternates(ms) && |ms| % 2 == 0
    ensures Named(Finished(After(ms, u), now, u).windows) == Begun(ms)
  {
    PairsAreCases(ms);
    FinishedCut(ms, now, u);
    PairIds(Cases(ms), ms);
  }

  lemma CleanFinish(ms: seq<Mark>, now: Snap, u: Setup)
    ensures var s, f := After(ms, u), Finished(After(ms, u), now, u);
            f.findings == [] <==>
              s.findings == [] && OpenCase(ms).None? && f.windows != [] && Complaints(f.windows) == []
  {
    var done, rest := StreamReads(ms, u);
  }
}
