/**
 The report's sweep: one windowed cell per harness run, and the record that gives every
 cell the load of the window that timed it.
 */
module Sweep {
  import opened Decimal
  import opened Options
  import opened Provenance
  import opened Windower
  import opened WindowerTheorems
  import opened WindowerRecord

  datatype CellRow = CellRow(id: string, pop: nat, dist: string, rounds: nat, variant: string)

  /** A cell of the record; `loadWindow` names a window that covers several cells. */
  datatype OutCell = OutCell(row: CellRow, load: Option<Load>, loadWindow: Option<string>)

  datatype Trouble = Window(finding: Finding) | NoWindow(id: string)

  datatype Status = Ok | Inadmissible

  datatype Record = Record(cells: seq<OutCell>, status: Status, troubles: seq<Trouble>)

  /** What the harness run does: it returns, or it raises. */
  datatype Outcome<T> = Returned(value: T) | Raised(error: string)

  // ---------------------------------------------------------------- cell names

  function CellTail(variant: string, pop: nat, dist: string): string {
    variant + "/pop=" + Dec(pop) + "/dist=" + dist
  }

  function CellId(n: nat, variant: string, pop: nat, dist: string): string {
    "c" + (Dec(n) + ":" + CellTail(variant, pop, dist))
  }

  /** A number ends at the first character that is no digit. */
  lemma DecEnds(m: nat, n: nat, x: string, y: string)
    requires Dec(m) + ":" + x == Dec(n) + ":" + y && |Dec(m)| <= |Dec(n)|
    ensures m == n
  {
    var a, b := Dec(m), Dec(n);
    DecDigits(m);
    DecDigits(n);
    var s := a + ":" + x;
    assert s[|a|] == ':';
    assert forall i :: 0 <= i < |b| ==> s[i] == b[i] by {
      assert s == b + ":" + y;
    }
    assert (a + ":" + x)[..|a|] == a && (b + ":" + y)[..|b|] == b;
    DecInjective(m, n);
  }

  /** The running number alone tells two cells apart, whatever the variant is called. */
  lemma CellIdsDiffer(m: nat, n: nat, v: string, v': string, pop: nat, pop': nat, dist: string, dist': string)
    ensures CellId(m, v, pop, dist) == CellId(n, v', pop', dist') ==> m == n
  {
    var s, t := CellId(m, v, pop, dist), CellId(n, v', pop', dist');
    assert s[1..] == Dec(m) + ":" + CellTail(v, pop, dist);
    assert t[1..] == Dec(n) + ":" + CellTail(v', pop', dist');
    if s == t {
      if |Dec(m)| <= |Dec(n)| {
        DecEnds(m, n, CellTail(v, pop, dist), CellTail(v', pop', dist'));
      } else {
        DecEnds(n, m, CellTail(v', pop', dist'), CellTail(v, pop, dist));
      }
    }
  }

  // ---------------------------------------------------------------- the record

  /** The last window that names `id`. */
  function Naming(ws: seq<Windower.Window>, id: string): Option<Windower.Window>
    decreases |ws|
  {
    if ws == [] then None
    else if id in ws[|ws| - 1].ids then Some(ws[|ws| - 1])
    else Naming(ws[..|ws| - 1], id)
  }

  function Join(ids: seq<string>): string {
    if ids == [] then "" else if |ids| == 1 then ids[0] else ids[0] + "+" + Join(ids[1..])
  }

  function OutOf(row: CellRow, w: Option<Windower.Window>): OutCell {
    match w
    case None => OutCell(row, None, None)
    case Some(x) => OutCell(row, Some(x.load), if |x.ids| > 1 then Some(Join(x.ids)) else None)
  }

  function Uncovered(cells: seq<CellRow>, ws: seq<Windower.Window>): seq<Trouble> {
    if cells == [] then []
    else
      var c := cells[|cells| - 1];
      Uncovered(cells[..|cells| - 1], ws) + if Naming(ws, c.id).None? then [NoWindow(c.id)] else []
  }

  function Carried(fs: seq<Finding>): seq<Trouble> {
    seq(|fs|, i requires 0 <= i < |fs| => Trouble.Window(fs[i]))
  }

  /** `load_record`. */
  method LoadRecord(cells: seq<CellRow>, windows: seq<Windower.Window>, findings: seq<Finding>)
    returns (r: Record)
    ensures |r.cells| == |cells|
    ensures forall i :: 0 <= i < |cells| ==> r.cells[i] == OutOf(cells[i], Naming(windows, cells[i].id))
    ensures r.troubles == Carried(findings) + Uncovered(cells, windows)
    ensures r.status == if r.troubles == [] then Ok else Inadmissible
  {
    var byId: map<string, Windower.Window> := map[];
    for i := 0 to |windows|
      invariant forall id :: Lookup(byId, id) == Naming(windows[..i], id)
    {
      var ids := windows[i].ids;
      ghost var before := byId;
      for j := 0 to |ids|
        invariant forall id :: Lookup(byId, id) == if id in ids[..j] then Some(windows[i]) else Lookup(before, id)
      {
        byId := byId[ids[j] := windows[i]];
        assert ids[..j + 1] == ids[..j] + [ids[j]];
      }
      assert ids[..|ids|] == ids;
      assert windows[..i + 1][..i] == windows[..i];
    }
    assert windows[..|windows|] == windows;
    var out: seq<OutCell> := [];
    var troubles := Carried(findings);
    for i := 0 to |cells|
      invariant |out| == i
      invariant forall k :: 0 <= k < i ==> out[k] == OutOf(cells[k], Naming(windows, cells[k].id))
      invariant troubles == Carried(findings) + Uncovered(cells[..i], windows)
    {
      var c := cells[i];
      assert Lookup(byId, c.id) == Naming(windows, c.id);
      assert cells[..i + 1][..i] == cells[..i];
      if c.id !in byId {
        troubles := troubles + [NoWindow(c.id)];
        out := out + [OutCell(c, None, None)];
      } else {
        var w := byId[c.id];
        out := out + [OutCell(c, Some(w.load), if |w.ids| > 1 then Some(Join(w.ids)) else None)];
      }
    }
    assert cells[..|cells|] == cells;
    r := Record(out, if troubles == [] then Ok else Inadmissible, troubles);
  }

  lemma {:induction false} NamingFinds(ws: seq<Windower.Window>, id: string)
    ensures Naming(ws, id).None? <==> id !in Named(ws)
    ensures Naming(ws, id).Some? ==> Naming(ws, id).value in ws && id in Naming(ws, id).value.ids
    decreases |ws|
  {
    if ws != [] {
      NamingFinds(ws[..|ws| - 1], id);
    }
  }

  lemma {:induction false} AllCovered(cells: seq<CellRow>, ws: seq<Windower.Window>)
    ensures Uncovered(cells, ws) == [] <==> forall i :: 0 <= i < |cells| ==> Naming(ws, cells[i].id).Some?
  {
    if cells != [] {
      var n := |cells| - 1;
      AllCovered(cells[..n], ws);
      assert forall i :: 0 <= i < n ==> cells[..n][i] == cells[i];
    }
  }

  // ---------------------------------------------------------------- the sweep

  class Runs {
    var cells: seq<CellRow>
    const win: Recorder
    ghost var marks: seq<Mark>

    /** The windower has read one begin and one end for every cell, in order. */
    ghost predicate Valid()
      reads this, win
    {
      && win.Valid()
      && win.Fields() == After(marks, win.setup)
      && MarksOf(marks, cells)
    }

    constructor (setup: Setup)
      ensures Valid() && cells == [] && marks == [] && win.setup == setup && fresh(win)
    {
      cells := [];
      win := new Recorder(setup);
      marks := [];
    }

    /** Runs one cell. The window is closed whether the run returns or raises. */
    method Run<T>(pop: nat, dist: string, rounds: nat, variant: string, begin: Snap, outcome: Outcome<T>, end: Snap)
      returns (r: Outcome<T>)
      requires Valid()
      modifies this, win
      ensures Valid() && r == outcome
      ensures cells == old(cells) + [CellRow(CellId(|old(cells)|, variant, pop, dist), pop, dist, rounds, variant)]
      ensures var id := cells[|old(cells)|].id;
              marks == old(marks) + [Mark(Begin, id, begin), Mark(End, id, end)]
    {
      var id := CellId(|cells|, variant, pop, dist);
      var b, e := Mark(Begin, id, begin), Mark(End, id, end);
      PairAdded(marks, b, e, win.setup);
      cells := cells + [CellRow(id, pop, dist, rounds, variant)];
      win.Feed(b);
      // Only this line differs between a run that returns and one that raises.
      r := outcome;
      win.Feed(e);
      marks := marks + [b, e];
    }

    /** `record`: every cell has a window, and the status is the windows' own. */
    method Record(now: Snap) returns (r: Record)
      requires Valid()
      modifies win
      ensures win.windows == Finished(After(marks, win.setup), now, win.setup).windows
      ensures |r.cells| == |cells|
      ensures forall i :: 0 <= i < |cells| ==> CellHas(r.cells[i], cells[i], win.windows)
      ensures r.status.Ok? <==> cells != [] && forall i :: 0 <= i < |win.windows| ==> Attributed(win.windows[i].load)
    {
      win.Finish(now);
      r := LoadRecord(cells, win.windows, win.findings);
      RecordFinds(marks, cells, now, win.setup);
      CellsFound(win.windows, cells);
    }
  }

  ghost predicate Numbered(c: CellRow, i: nat) {
    c.id == CellId(i, c.variant, c.pop, c.dist)
  }

  /** `out` carries the load of the one window that names the cell. */
  ghost predicate CellHas(out: OutCell, row: CellRow, ws: seq<Windower.Window>) {
    exists i :: 0 <= i < |ws| && row.id in ws[i].ids && out == OutOf(row, Some(ws[i]))
                && forall j :: 0 <= j < |ws| && j != i ==> row.id !in ws[j].ids
  }

  lemma PairAdded(ms: seq<Mark>, b: Mark, e: Mark, u: Setup)
    requires Alternates(ms) && |ms| % 2 == 0
    requires b.kind.Begin? && e.kind.End? && e.id == b.id
    ensures Alternates(ms + [b, e])
    ensures After(ms + [b, e], u) == Fed(Fed(After(ms, u), b, u), e, u)
  {
    assert (ms + [b, e])[..|ms| + 1] == ms + [b] && (ms + [b])[..|ms|] == ms;
    AlternatesStep(ms + [b, e]);
    AlternatesStep(ms + [b]);
  }

  ghost predicate Distinct(ids: seq<string>) {
    forall i, j :: 0 <= i < j < |ids| ==> ids[i] != ids[j]
  }

  lemma DistinctParts(front: seq<string>, back: seq<string>, id: string)
    requires Distinct(front + back)
    ensures Distinct(front) && (id !in front || id !in back)
  {
    var all := front + back;
    forall i, j | 0 <= i < j < |front|
      ensures front[i] != front[j]
    {
      assert all[i] == front[i] && all[j] == front[j];
    }
    forall i, j | 0 <= i < |front| && 0 <= j < |back|
      ensures front[i] != back[j]
    {
      assert all[i] == front[i] && all[|front| + j] == back[j];
    }
  }

  /** Where no name comes twice, the window that names a case is the only one. */
  lemma {:induction false} OneWindow(ws: seq<Windower.Window>, i: nat, id: string)
    requires Distinct(Named(ws)) && i < |ws| && id in ws[i].ids
    ensures forall j :: 0 <= j < |ws| && j != i ==> id !in ws[j].ids
    decreases |ws|
  {
    var n := |ws| - 1;
    DistinctParts(Named(ws[..n]), ws[n].ids, id);
    if i < n {
      NamedHas(ws[..n], i, id);
      OneWindow(ws[..n], i, id);
      assert forall j :: 0 <= j < n ==> ws[..n][j] == ws[j];
    } else {
      forall j | 0 <= j < n
        ensures id !in ws[j].ids
      {
        assert ws[..n][j] == ws[j];
        if id in ws[j].ids {
          NamedHas(ws[..n], j, id);
        }
      }
    }
  }

  lemma {:induction false} NamedHas(ws: seq<Windower.Window>, i: nat, id: string)
    requires i < |ws| && id in ws[i].ids
    ensures id in Named(ws)
    decreases |ws|
  {
    if i < |ws| - 1 {
      NamedHas(ws[..|ws| - 1], i, id);
    }
  }

  /** The sweep's marks as the windower sees them. */
  ghost predicate MarksOf(ms: seq<Mark>, cells: seq<CellRow>) {
    && Alternates(ms)
    && |ms| == 2 * |cells|
    && forall i :: 0 <= i < |cells| ==> ms[2 * i].id == cells[i].id && Numbered(cells[i], i)
  }

  lemma CellsDistinct(cells: seq<CellRow>)
    requires forall i :: 0 <= i < |cells| ==> Numbered(cells[i], i)
    ensures forall i, j :: 0 <= i < j < |cells| ==> cells[i].id != cells[j].id
  {
    forall i, j | 0 <= i < j < |cells|
      ensures cells[i].id != cells[j].id
    {
      var c, d := cells[i], cells[j];
      CellIdsDiffer(i, j, c.variant, d.variant, c.pop, d.pop, c.dist, d.dist);
    }
  }

  /** The windows name the cells, each once, in order. */
  ghost predicate NamesCells(ws: seq<Windower.Window>, cells: seq<CellRow>) {
    && Distinct(Named(ws))
    && |Named(ws)| == |cells|
    && forall i :: 0 <= i < |cells| ==> Named(ws)[i] == cells[i].id
  }

  lemma CellsNamed(ms: seq<Mark>, cells: seq<CellRow>, ws: seq<Windower.Window>)
    requires MarksOf(ms, cells) && Named(ws) == Begun(ms)
    ensures NamesCells(ws, cells)
  {
    CellsDistinct(cells);
    assert forall i :: 0 <= i < |cells| ==> Begun(ms)[i] == cells[i].id;
  }

  lemma CellFound(ws: seq<Windower.Window>, row: CellRow)
    requires Distinct(Named(ws)) && row.id in Named(ws)
    ensures Naming(ws, row.id).Some? && CellHas(OutOf(row, Naming(ws, row.id)), row, ws)
  {
    NamingFinds(ws, row.id);
    var k :| 0 <= k < |ws| && ws[k] == Naming(ws, row.id).value;
    OneWindow(ws, k, row.id);
  }

  lemma CellsFound(ws: seq<Windower.Window>, cells: seq<CellRow>)
    requires NamesCells(ws, cells)
    ensures Uncovered(cells, ws) == []
    ensures forall i :: 0 <= i < |cells| ==> CellHas(OutOf(cells[i], Naming(ws, cells[i].id)), cells[i], ws)
  {
    forall i | 0 <= i < |cells|
      ensures Naming(ws, cells[i].id).Some? && CellHas(OutOf(cells[i], Naming(ws, cells[i].id)), cells[i], ws)
    {
      assert Named(ws)[i] == cells[i].id;
      CellFound(ws, cells[i]);
    }
    AllCovered(cells, ws);
  }

  lemma RecordFinds(ms: seq<Mark>, cells: seq<CellRow>, now: Snap, u: Setup)
    requires MarksOf(ms, cells)
    ensures var f := Finished(After(ms, u), now, u);
            && NamesCells(f.windows, cells)
            && (f.findings == [] <==> cells != [] && forall i :: 0 <= i < |f.windows| ==> Attributed(f.windows[i].load))
  {
    AlternatingNames(ms, now, u);
    CellsNamed(ms, cells, Finished(After(ms, u), now, u).windows);
    CleanIff(ms, now, u);
  }
}
