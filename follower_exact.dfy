// Follower policy Exact (legacy): captures the oldest dispatch inside the capture window, after pruning
// everything older than the window.

module FollowerExact {
  import opened Dispatches
  import opened DispatchQueues
  import opened Captors

  /// `capture_follower_impl`: drop every dispatch before `lower`; RETRY if nothing is left, ABORT if the oldest
  /// remaining dispatch is already past `upper`, otherwise PRIMED with that dispatch popped into the output.
  /// The pruning happens whatever the outcome.
  function Capture<V>(s: seq<Dispatch<V>>, range: CaptureRange): (r: Captured<V>)
    ensures r.state in {Primed, Abort, Retry}
    ensures r.state != Primed ==> r.output == [] && r.rest == s[LeadingBelow(s, range.lower)..]
    ensures r.state == Primed ==> r.output + r.rest == s[LeadingBelow(s, range.lower)..] && |r.output| == 1
  {
    var kept := s[LeadingBelow(s, range.lower)..];
    if kept == [] then Captured(Retry, [], kept)
    else if kept[0].stamp > range.upper then Captured(Abort, [], kept)
    else Captured(Primed, [kept[0]], kept[1..])
  }

  /// On an ordered queue Exact is PRIMED exactly when some dispatch lies in [lower, upper], and then outputs the
  /// oldest such dispatch; RETRY means every queued dispatch is older than the window, ABORT that some dispatch
  /// is not but none lies inside it
  lemma ExactSelects<V>(s: seq<Dispatch<V>>, range: CaptureRange)
    requires Ordered(s)
    ensures var r := Capture(s, range);
      (r.state == Retry <==> forall j :: 0 <= j < |s| ==> s[j].stamp < range.lower)
      && (r.state == Primed <==> exists j :: 0 <= j < |s| && range.lower <= s[j].stamp <= range.upper)
      && (r.state == Primed ==>
            range.lower <= r.output[0].stamp <= range.upper
            && r.output[0] in s
            && forall j :: 0 <= j < |s| && range.lower <= s[j].stamp <= range.upper ==> r.output[0].stamp <= s[j].stamp)
  {
    var k := LeadingBelow(s, range.lower);
    LeadingBelowOrdered(s, range.lower);
    var kept := s[k..];
    if kept != [] {
      assert kept[0] == s[k];
      forall j | 0 <= j < |s| && range.lower <= s[j].stamp
        ensures s[k].stamp <= s[j].stamp
      {
        if k < j { assert s[k].stamp < s[j].stamp; }
      }
    }
  }

  method CaptureFollower<V>(c: Captor<V>, range: CaptureRange) returns (state: State, output: seq<Dispatch<V>>)
    requires c.policy.Exact?
    modifies c.queue
    ensures Captured(state, output, c.queue.items) == Capture(old(c.queue.items), range)
  {
    c.queue.RemoveBefore(range.lower);
    output := [];
    if c.queue.Empty() {
      return Retry, output;
    } else if c.queue.OldestStamp() > range.upper {
      return Abort, output;
    }
    var d := c.queue.Pop();
    output := [d];
    return Primed, output;
  }

  /// `abort_follower_impl`: drop every dispatch before `t`
  method AbortFollower<V>(c: Captor<V>, t: int)
    requires c.policy.Exact?
    modifies c.queue
    ensures c.queue.items == old(c.queue.items)[LeadingBelow(old(c.queue.items), t)..]
  {
    c.queue.RemoveBefore(t);
  }
}
