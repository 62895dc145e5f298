// Driver policy Next: the window is the single oldest queued stamp, and capture takes that one dispatch.

module DriverNext {
  import opened Dispatches
  import opened DispatchQueues
  import opened Captors

  /// `dry_capture`: PRIMED at the oldest stamp; RETRY, leaving the window untouched, when the queue is empty
  function Window<V>(s: seq<Dispatch<V>>, range: CaptureRange): Windowed
  {
    if s == [] then Windowed(Retry, range) else Windowed(Primed, CaptureRange(s[0].stamp, s[0].stamp))
  }

  /// `capture`: on PRIMED the oldest dispatch is popped into the output
  function Capture<V>(s: seq<Dispatch<V>>, range: CaptureRange): (r: DriverCaptured<V>)
    ensures r.window == Window(s, range)
    ensures r.window.state == Primed ==> r.output + r.rest == s && |r.output| == 1
    ensures r.window.state != Primed ==> r.output == [] && r.rest == s
  {
    var w := Window(s, range);
    if w.state == Primed then DriverCaptured(w, [s[0]], s[1..]) else DriverCaptured(w, [], s)
  }

  /// Next primes exactly when data is queued; it captures the oldest dispatch, whose stamp is the whole window,
  /// and everything left behind is newer than that window
  lemma NextCapturesOldest<V>(s: seq<Dispatch<V>>, range: CaptureRange)
    requires Ordered(s)
    ensures var r := Capture(s, range);
      (r.window.state == Primed <==> s != []) && (r.window.state == Retry <==> s == [])
      && (r.window.state == Retry ==> r.window.range == range)
      && (r.window.state == Primed ==>
            r.window.range.Valid() && r.output == [s[0]]
            && r.window.range.lower == r.output[0].stamp == r.window.range.upper
            && forall i :: 0 <= i < |r.rest| ==> r.rest[i].stamp > r.window.range.upper)
  {
    if s != [] {
      var r := Capture(s, range);
      assert forall i :: 0 <= i < |r.rest| ==> r.rest[i] == s[i + 1];
    }
  }

  method CaptureDriver<V>(c: Captor<V>, range: CaptureRange) returns (w: Windowed, output: seq<Dispatch<V>>)
    requires c.policy.Next?
    modifies c.queue
    ensures DriverCaptured(w, output, c.queue.items) == Capture(old(c.queue.items), range)
  {
    w := Window(c.queue.items, range);
    output := [];
    if w.state == Primed {
      var d := c.queue.Pop();
      output := [d];
    }
  }

  /// `abort(t)`: drops all data stamped before `t`
  method AbortDriver<V>(c: Captor<V>, t: int)
    requires c.policy.Next?
    modifies c.queue
    ensures c.queue.items == old(c.queue.items)[LeadingBelow(old(c.queue.items), t)..]
  {
    c.queue.RemoveBefore(t);
  }
}
