/** The load arithmetic of one window: what was busy, what was the runner's own, and the
    rest. A missing operand never becomes a number. */
module Provenance {
  import opened Options

  const MIN_WINDOW_JIFFIES: int := 10

  /** One snapshot: a monotone clock, the host's busy and total jiffies, and the own CPU
      counter. */
  datatype Snap = Snap(t: real, busy: Option<int>, total: Option<int>, cpu: Option<real>)

  /** The load of a closed window. */
  datatype Load = Load(wall: Option<real>, busy: Option<real>, own: Option<real>, foreign: Option<real>)

  /** To `1/k`, halves up. */
  function Round(x: real, k: int): real
    requires k > 0
  {
    (x * k as real + 0.5).Floor as real / k as real
  }

  function BusyCpus(prev: Snap, now: Snap, ncpu: int): Option<real>
    requires ncpu > 0
  {
    match (prev.busy, prev.total, now.busy, now.total)
    case (Some(pb), Some(pt), Some(b), Some(t)) =>
      var dt := t - pt;
      if dt <= 0 || dt < MIN_WINDOW_JIFFIES * ncpu then None
      else Some(Round((b - pb) as real / dt as real * ncpu as real, 100))
    case _ => None
  }

  function OwnBusyCpus(prev: Snap, now: Snap, minWindow: real): Option<real>
    requires minWindow > 0.0
  {
    match (prev.cpu, now.cpu)
    case (Some(pc), Some(c)) =>
      if now.t - prev.t < minWindow then None else Some(Round((c - pc) / (now.t - prev.t), 100))
    case _ => None
  }

  function ForeignBusyCpus(host: Option<real>, own: Option<real>): Option<real> {
    match (host, own)
    case (Some(h), Some(o)) => Some(Round(h - o, 100))
    case _ => None
  }

  /** `pid_window` and `end_cell`: the attribution of a window from `prev` to `now`. */
  function CloseWindow(prev: Snap, now: Snap, ncpu: int, minWindow: real): Load
    requires ncpu > 0 && minWindow > 0.0
  {
    var host, own := BusyCpus(prev, now, ncpu), OwnBusyCpus(prev, now, minWindow);
    Load(Some(Round(now.t - prev.t, 1000)), host, own, ForeignBusyCpus(host, own))
  }

  /** Both figures the record needs are numbers. */
  predicate Attributed(l: Load) {
    l.busy.Some? && l.foreign.Some?
  }
}
