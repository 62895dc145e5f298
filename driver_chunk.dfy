// Driver policy Chunk: the window spans the N oldest stamps, and capture takes all N of them.

module DriverChunk {
  import opened Dispatches
  import opened DispatchQueues
  import opened Captors

  /// `dry_capture`: PRIMED over the N oldest stamps once N are queued; RETRY, leaving the window untouched, before
  function Window<V>(s: seq<Dispatch<V>>, range: CaptureRange, n: nat): Windowed
    requires n > 0
  {
    if |s| >= n then Windowed(Primed, CaptureRange(s[0].stamp, s[n - 1].stamp)) else Windowed(Retry, range)
  }

  /// `capture`: on PRIMED the N oldest dispatches are moved to the output and popped
  function Capture<V>(s: seq<Dispatch<V>>, range: CaptureRange, n: nat): (r: DriverCaptured<V>)
    requires n > 0
    ensures r.window == Window(s, range, n)
    ensures r.window.state == Primed ==> r.output + r.rest == s && |r.output| == n
    ensures r.window.state != Primed ==> r.output == [] && r.rest == s
  {
    var w := Window(s, range, n);
    if w.state == Primed then DriverCaptured(w, s[..n], s[n..]) else DriverCaptured(w, [], s)
  }

  /// On an ordered queue a chunk's window holds exactly the stamps it outputs, and the next chunk's window lies
  /// strictly after it: chunks tile the queue without overlap
  lemma ChunksTile<V>(s: seq<Dispatch<V>>, range: CaptureRange, n: nat)
    requires n > 0 && Ordered(s) && |s| >= 2 * n
    ensures var r := Capture(s, range, n);
      var r' := Capture(r.rest, r.window.range, n);
      r.window.state == Primed && r'.window.state == Primed
      && r.output + r'.output == s[..2 * n]
      && r.window.range.upper < r'.window.range.lower
      && (forall i :: 0 <= i < n ==> r.window.range.lower <= r.output[i].stamp <= r.window.range.upper)
  {
    var r := Capture(s, range, n);
    assert r.rest == s[n..];
    assert s[n - 1].stamp < s[n].stamp;
    assert s[..2 * n] == s[..n] + s[n..][..n];
    forall i | 0 <= i < n
      ensures r.window.range.lower <= r.output[i].stamp <= r.window.range.upper
    {
      assert r.output[i] == s[i];
      if 0 < i { assert s[0].stamp < s[i].stamp; }
      if i < n - 1 { assert s[i].stamp < s[n - 1].stamp; }
    }
  }

  method CaptureDriver<V>(c: Captor<V>, range: CaptureRange) returns (w: Windowed, output: seq<Dispatch<V>>)
    requires c.policy.Chunk? && c.policy.chunkSize > 0
    modifies c.queue
    ensures DriverCaptured(w, output, c.queue.items) == Capture(old(c.queue.items), range, c.policy.chunkSize)
  {
    var n := c.policy.chunkSize;
    w := Window(c.queue.items, range, n);
    output := [];
    if w.state == Primed {
      output := c.queue.items[..n];
      for i := 0 to n
        invariant c.queue.items == old(c.queue.items)[i..]
      {
        var _ := c.queue.Pop();
      }
    }
  }

  /// `abort(t)`: drops all data stamped before `t`
  method AbortDriver<V>(c: Captor<V>, t: int)
    requires c.policy.Chunk?
    modifies c.queue
    ensures c.queue.items == old(c.queue.items)[LeadingBelow(old(c.queue.items), t)..]
  {
    c.queue.RemoveBefore(t);
  }
}
