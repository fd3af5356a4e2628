/**
 Ordered navigation over string keys through a caller's buffer: the retry loop of the C++
 wrapper around the calls that report a buffer as too small.
 */
module StringNav {
  import opened Options

  const NUL: char := '\0'

  datatype Status = Ok | NotFound | BufferTooSmall

  datatype Entry = Entry(key: string, value: nat)

  /** What one call writes. */
  datatype Answer = Answer(status: Status, buffer: string, required: nat, value: nat)

  predicate NulFree(key: string) {
    forall i :: 0 <= i < |key| ==> key[i] != NUL
  }

  function Zeros(n: nat): (z: string)
    ensures |z| == n
  {
    seq(n, _ => NUL)
  }

  /** The library call on a map whose nearest entry is `entry`: all of the key with its
      terminator is written, or nothing is. */
  function Navigate(entry: Option<Entry>, buffer: string): Answer {
    match entry
    case None => Answer(NotFound, buffer, 0, 0)
    case Some(e) =>
      var need := |e.key| + 1;
      if need > |buffer| then Answer(BufferTooSmall, buffer, need, 0)
      else Answer(Ok, e.key + [NUL] + buffer[need..], need, e.value)
  }

  /** `strlen`: up to the first terminator. */
  function StrLen(s: string): (n: nat)
    ensures n <= |s|
    ensures forall i :: 0 <= i < n ==> s[i] != NUL
    ensures n < |s| ==> s[n] == NUL
  {
    if s == [] || s[0] == NUL then 0 else 1 + StrLen(s[1..])
  }

  /** `strmap_nav_retry` on an unchanged map: the entry there is, whole, whatever its length
      and the first buffer's; one call, or two where the first buffer was too short. */
  method NavRetry(entry: Option<Entry>, initial: nat) returns (found: Option<Entry>, calls: nat)
    requires entry.Some? ==> NulFree(entry.value.key)
    ensures found == entry
    ensures calls == if entry.Some? && |entry.value.key| + 1 > (if initial == 0 then 64 else initial) then 2 else 1
  {
    var first := if initial == 0 then 64 else initial;
    var len := first;
    calls := 0;
    while true
      invariant (len == first && calls == 0)
                || (entry.Some? && calls == 1 && len == |entry.value.key| + 1 > first)
      decreases 2 - calls
    {
      var a := Navigate(entry, Zeros(len));
      calls := calls + 1;
      match a.status {
        case Ok =>
          var key := a.buffer[..StrLen(a.buffer)];
          WholeKey(entry.value.key, a.buffer, StrLen(a.buffer));
          return Some(Entry(key, a.value)), calls;
        case NotFound =>
          return None, calls;
        case BufferTooSmall =>
          len := if a.required > len then a.required else len * 2;
      }
    }
  }

  lemma WholeKey(key: string, buffer: string, n: nat)
    requires NulFree(key) && |key| < |buffer| && buffer[..|key|] == key && buffer[|key|] == NUL
    requires n <= |buffer| && (forall i :: 0 <= i < n ==> buffer[i] != NUL) && (n < |buffer| ==> buffer[n] == NUL)
    ensures buffer[..n] == key
  {
    assert forall i :: 0 <= i < |key| ==> buffer[i] == key[i];
  }
}
