/**
 The windower: a stream of begin and end marks becomes closed load windows. A window too
 short to resolve is carried into the next one; one left over at the end is folded back
 into the last recorded window.
 */
module Windower {
  import opened Options
  import opened Provenance

  datatype Kind = Begin | End

  /** A boundary line, and the snapshot that is there to be taken when it is read. */
  datatype Mark = Mark(kind: Kind, id: string, now: Snap)

  /** A recorded window: the cases it covers, its load, and (history) its two ends. */
  datatype Window = Window(ids: seq<string>, load: Load, start: Snap, end: Snap)

  datatype Finding =
    | OpenedWhileOpen(id: string, other: string)
    | ClosedButOpen(id: string, inside: Option<string>)
    | NeverClosed(id: string)
    | NoBoundary
    | Unattributed(w: Window)

  datatype Held = Held(ids: seq<string>, start: Snap)

  datatype Opened = Opened(id: string, start: Snap)

  /** The fields of the windower. */
  datatype State = State(
    windows: seq<Window>,
    findings: seq<Finding>,
    open: Option<Opened>,
    carry: Option<Held>,
    last: Option<Held>,
    ids: seq<string>)

  const EMPTY: State := State([], [], None, None, None, [])

  /** How the windower is set up: the shortest resolvable window, and how one is closed. */
  datatype Setup = Setup(minWindow: real, close: (Snap, Snap) -> Load)

  /** Too short to resolve, or without a foreign figure. */
  predicate Merges(l: Load, minWindow: real) {
    (l.wall.Some? && l.wall.value < minWindow) || l.foreign.None?
  }

  // ---------------------------------------------------------------- what each call does

  function Fed(s: State, m: Mark, u: Setup): State {
    match m.kind
    case Begin =>
      if s.open.Some? then s.(findings := s.findings + [OpenedWhileOpen(m.id, s.open.value.id)])
      else if s.carry.Some? then
        s.(carry := None, open := Some(Opened(m.id, s.carry.value.start)), ids := s.carry.value.ids + [m.id])
      else s.(open := Some(Opened(m.id, m.now)), ids := [m.id])
    case End =>
      if s.open.None? || s.open.value.id != m.id then
        s.(findings := s.findings + [ClosedButOpen(m.id, if s.open.Some? then Some(s.open.value.id) else None)])
      else
        var start := s.open.value.start;
        var load := u.close(start, m.now);
        if Merges(load, u.minWindow) then s.(open := None, carry := Some(Held(s.ids, start)))
        else s.(open := None, windows := s.windows + [Window(s.ids, load, start, m.now)],
                last := Some(Held(s.ids, start)))
  }

  /** `finish`, up to the last findings: an open window is dropped, a carried one is
      folded back into the last recorded window or recorded as it is. */
  function Settled(s: State, now: Snap, u: Setup): State {
    var s1 := if s.open.None? then s
              else s.(findings := s.findings + [NeverClosed(s.open.value.id)], open := None);
    if s1.carry.None? then s1
    else
      var c := s1.carry.value;
      if s1.last.Some? && s1.windows != [] then
        var ids, start := s1.last.value.ids + c.ids, s1.last.value.start;
        s1.(carry := None,
            windows := s1.windows[..|s1.windows| - 1] + [Window(ids, u.close(start, now), start, now)])
      else s1.(carry := None, windows := s1.windows + [Window(c.ids, u.close(c.start, now), c.start, now)])
  }

  function Complaints(ws: seq<Window>): seq<Finding> {
    if ws == [] then []
    else Complaints(ws[..|ws| - 1]) + if Attributed(ws[|ws| - 1].load) then [] else [Unattributed(ws[|ws| - 1])]
  }

  function Finished(s: State, now: Snap, u: Setup): State {
    var s1 := Settled(s, now, u);
    s1.(findings := s1.findings + (if s1.windows == [] then [NoBoundary] else []) + Complaints(s1.windows))
  }

  // ---------------------------------------------------------------- the class

  class Recorder {
    var windows: seq<Window>
    var findings: seq<Finding>
    var open: Option<Opened>
    var carry: Option<Held>
    var last: Option<Held>
    var ids: seq<string>
    const setup: Setup

    ghost function Fields(): State
      reads this
    {
      State(windows, findings, open, carry, last, ids)
    }

    /** There is a last recorded window exactly when something has been recorded. */
    ghost predicate Valid()
      reads this
    {
      last.Some? <==> windows != []
    }

    constructor (setup: Setup)
      ensures Valid() && this.setup == setup && Fields() == EMPTY
    {
      this.setup := setup;
      windows, findings := [], [];
      open, carry, last := None, None, None;
      ids := [];
    }

    method Feed(m: Mark)
      requires Valid()
      modifies this
      ensures Valid() && Fields() == Fed(old(Fields()), m, setup)
    {
      if m.kind.Begin? {
        if open.Some? {
          findings := findings + [OpenedWhileOpen(m.id, open.value.id)];
          return;
        }
        if carry.Some? {
          var held := carry.value;
          carry := None;
          open := Some(Opened(m.id, held.start));
          ids := held.ids + [m.id];
        } else {
          open := Some(Opened(m.id, m.now));
          ids := [m.id];
        }
        return;
      }
      if open.None? || open.value.id != m.id {
        findings := findings + [ClosedButOpen(m.id, if open.Some? then Some(open.value.id) else None)];
        return;
      }
      var start := open.value.start;
      open := None;
      var load := setup.close(start, m.now);
      var short := load.wall.Some? && load.wall.value < setup.minWindow;
      var unresolved := load.foreign.None?;
      if short || unresolved {
        carry := Some(Held(ids, start));
        return;
      }
      windows := windows + [Window(ids, load, start, m.now)];
      last := Some(Held(ids, start));
    }

    method Finish(now: Snap)
      requires Valid()
      modifies this
      ensures Fields() == Finished(old(Fields()), now, setup)
    {
      Settle(now);
      if windows == [] {
        findings := findings + [NoBoundary];
      }
      Complain();
    }

    method Settle(now: Snap)
      requires Valid()
      modifies this
      ensures Fields() == Settled(old(Fields()), now, setup)
    {
      if open.Some? {
        findings := findings + [NeverClosed(open.value.id)];
        open := None;
      }
      if carry.Some? {
        var held := carry.value;
        carry := None;
        if last.Some? {
          windows := windows[..|windows| - 1];
          held := Held(last.value.ids + held.ids, last.value.start);
        }
        windows := windows + [Window(held.ids, setup.close(held.start, now), held.start, now)];
      }
    }

    method Complain()
      modifies this`findings
      ensures findings == old(findings) + Complaints(windows)
    {
      for i := 0 to |windows|
        invariant findings == old(findings) + Complaints(windows[..i])
      {
        assert windows[..i + 1][..i] == windows[..i];
        if !Attributed(windows[i].load) {
          findings := findings + [Unattributed(windows[i])];
        }
      }
      assert windows[..|windows|] == windows;
    }
  }
}
