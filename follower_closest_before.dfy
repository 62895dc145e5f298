// Follower policy ClosestBefore: captures the oldest dispatch lying within one period before the window's lower
// stamp minus a delay, keeping it queued; ABORT when the scan meets a dispatch at or after that boundary first.

module FollowerClosestBefore {
  import opened Dispatches
  import opened DispatchQueues
  import opened Captors

  /// `lower - delay`: the capture must be stamped strictly before it
  function Boundary(range: CaptureRange, delay: int): int
  {
    range.lower - delay
  }

  /// Where the scan from the oldest dispatch stops: at or after the boundary (abort), or within one period
  /// before it (capture)
  predicate Stops<V>(d: Dispatch<V>, boundary: int, period: int)
  {
    d.stamp >= boundary || d.stamp + period >= boundary
  }

  /// Index where the scan stops, |s| when it runs off the end
  function FirstStop<V>(s: seq<Dispatch<V>>, boundary: int, period: int): (k: nat)
    ensures k <= |s|
    ensures forall j :: 0 <= j < k ==> !Stops(s[j], boundary, period)
    ensures k < |s| ==> Stops(s[k], boundary, period)
  {
    FindIf(s, (d: Dispatch<V>) => Stops(d, boundary, period))
  }

  lemma FirstStopUnique<V>(s: seq<Dispatch<V>>, boundary: int, period: int, n: nat)
    requires n <= |s|
    requires forall j :: 0 <= j < n ==> !Stops(s[j], boundary, period)
    requires n < |s| ==> Stops(s[n], boundary, period)
    ensures FirstStop(s, boundary, period) == n
  {}

  /// `dry_capture`: ABORT when the scan stops at or after the boundary, PRIMED when it stops within the period
  /// (dropping everything older than that dispatch), RETRY when every dispatch is more than a period too old
  function DryCapture<V>(s: seq<Dispatch<V>>, range: CaptureRange, period: int, delay: int): (r: Captured<V>)
    ensures r.output == []
    ensures r.state in {Primed, Abort, Retry}
    ensures r.state == Primed ==> r.rest != [] && r.rest == s[FirstStop(s, Boundary(range, delay), period)..]
    ensures r.state != Primed ==> r.rest == s
  {
    var boundary := Boundary(range, delay);
    var k := FirstStop(s, boundary, period);
    if k == |s| then Captured(Retry, [], s)
    else if s[k].stamp >= boundary then Captured(Abort, [], s)
    else
      // every dispatch the scan passed over lies more than a period before the boundary, so below s[k]
      LeadingBelowUnique(s, s[k].stamp, k);
      Captured(Primed, [], s[LeadingBelow(s, s[k].stamp)..])
  }

  /// `capture`: the dry capture, then on PRIMED the oldest remaining dispatch is output without removal
  function Capture<V>(s: seq<Dispatch<V>>, range: CaptureRange, period: int, delay: int): (r: Captured<V>)
    ensures r.state in {Primed, Abort, Retry}
    ensures r.state != Primed ==> r.output == [] && r.rest == s
    ensures r.state == Primed ==>
      |r.output| == 1 && 0 < |r.rest| <= |s| && r.rest == s[|s| - |r.rest|..] && r.rest[0] == r.output[0]
      && forall j :: 0 <= j < |s| - |r.rest| ==> s[j].stamp < r.output[0].stamp
  {
    var dry := DryCapture(s, range, period, delay);
    if dry.state == Primed then Captured(Primed, [dry.rest[0]], dry.rest) else dry
  }

  /// On an ordered queue ClosestBefore captures the oldest dispatch in [boundary - period, boundary), dropping
  /// only older data and keeping the capture queued; it aborts exactly when no dispatch lies in that window but
  /// one lies after it, and retries when every dispatch is too old
  lemma ClosestBeforeSelects<V>(s: seq<Dispatch<V>>, range: CaptureRange, period: int, delay: int)
    requires Ordered(s)
    ensures var r := Capture(s, range, period, delay);
      var boundary := Boundary(range, delay);
      var k := FirstStop(s, boundary, period);
      (r.state == Primed ==>
         k < |s| && r.output == [s[k]] && r.rest == s[k..]
         && boundary - period <= s[k].stamp < boundary
         && forall j :: 0 <= j < k ==> s[j].stamp < boundary - period)
      && (r.state == Abort ==>
         r.rest == s && (exists j :: 0 <= j < |s| && s[j].stamp >= boundary)
         && forall j :: 0 <= j < |s| ==> !(boundary - period <= s[j].stamp < boundary))
      && (r.state == Retry ==> r.rest == s && forall j :: 0 <= j < |s| ==> s[j].stamp < boundary - period)
  {
    var boundary := Boundary(range, delay);
    var k := FirstStop(s, boundary, period);
    if k < |s| {
      LeadingBelowAt(s, k);
      forall j | k < j < |s|
        ensures s[j].stamp > s[k].stamp
      {
      }
    }
  }

  /// `dry_capture`, scanning from the oldest dispatch
  method DryCaptureFollower<V>(c: Captor<V>, range: CaptureRange) returns (state: State)
    requires c.policy.ClosestBefore?
    modifies c.queue
    ensures Captured(state, [], c.queue.items) == DryCapture(old(c.queue.items), range, c.policy.period, c.policy.delay)
  {
    var s, period := c.queue.items, c.policy.period;
    var boundary := range.lower - c.policy.delay;
    var i := 0;
    while i < |s| && !(s[i].stamp >= boundary || s[i].stamp + period >= boundary)
      invariant 0 <= i <= |s|
      invariant forall j :: 0 <= j < i ==> !Stops(s[j], boundary, period)
    {
      i := i + 1;
    }
    FirstStopUnique(s, boundary, period, i);
    if i < |s| && s[i].stamp >= boundary {
      return Abort;
    }
    if i < |s| {
      c.queue.RemoveBefore(s[i].stamp);
      return Primed;
    }
    return Retry;
  }

  method CaptureFollower<V>(c: Captor<V>, range: CaptureRange) returns (state: State, output: seq<Dispatch<V>>)
    requires c.policy.ClosestBefore?
    modifies c.queue
    ensures Captured(state, output, c.queue.items) == Capture(old(c.queue.items), range, c.policy.period, c.policy.delay)
  {
    state := DryCaptureFollower(c, range);
    output := [];
    if state == Primed {
      output := [c.queue.items[0]];
    }
  }

  /// `abort(t)`: drops all data stamped before `t - delay - period`
  method AbortFollower<V>(c: Captor<V>, t: int)
    requires c.policy.ClosestBefore?
    modifies c.queue
    ensures c.queue.items
      == old(c.queue.items)[LeadingBelow(old(c.queue.items), t - c.policy.delay - c.policy.period)..]
  {
    c.queue.RemoveBefore(t - c.policy.delay - c.policy.period);
  }
}
