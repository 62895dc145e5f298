// Follower policy AnyBefore: captures whatever is stamped before the window's upper stamp minus a delay, possibly
// nothing, and never waits.

module FollowerAnyBefore {
  import opened Dispatches
  import opened DispatchQueues
  import opened Captors

  /// `upper - delay`: dispatches strictly before it are captured
  function Boundary(range: CaptureRange, delay: int): int
  {
    range.upper - delay
  }

  /// `locate`: always PRIMED, over the leading dispatches stamped before the boundary
  function Location<V>(s: seq<Dispatch<V>>, range: CaptureRange, delay: int): (r: Located)
    ensures r.extraction.Within(|s|)
  {
    Located(Primed, ExtractionRange(0, LeadingBelow(s, Boundary(range, delay))))
  }

  /// On an ordered queue AnyBefore always primes, outputs every dispatch before the boundary (none on an empty
  /// queue) and keeps every dispatch at or after it
  lemma AnyBeforeSplitsAtBoundary<V>(s: seq<Dispatch<V>>, range: CaptureRange, delay: int)
    requires Ordered(s)
    ensures var r := Location(s, range, delay);
      var boundary := Boundary(range, delay);
      var e := Moved(s, r.extraction);
      r.state == Primed && e.output + e.rest == s
      && (s == [] ==> e.output == [])
      && (forall i :: 0 <= i < |s| ==> (s[i].stamp < boundary <==> i < |e.output|))
      && (forall i :: 0 <= i < |e.rest| ==> e.rest[i].stamp >= boundary)
  {
    MovedSplitsAt(s, Boundary(range, delay));
  }

  /// `locate`, scanning from the oldest dispatch
  method LocateFollower<V>(c: Captor<V>, range: CaptureRange) returns (r: Located)
    requires c.policy.AnyBefore?
    ensures r == Location(c.queue.items, range, c.policy.delay)
  {
    var s := c.queue.items;
    var boundary := range.upper - c.policy.delay;
    var i := 0;
    while i < |s| && s[i].stamp < boundary
      invariant 0 <= i <= |s|
      invariant forall j :: 0 <= j < i ==> s[j].stamp < boundary
    {
      i := i + 1;
    }
    LeadingBelowUnique(s, boundary, i);
    r := Located(Primed, ExtractionRange(0, i));
  }

  /// `extract`: moves the selection to the output and drops it with everything older
  method ExtractFollower<V>(c: Captor<V>, er: ExtractionRange) returns (output: seq<Dispatch<V>>)
    requires c.policy.AnyBefore? && er.Within(|c.queue.items|)
    modifies c.queue
    ensures Extracted(output, c.queue.items) == Moved(old(c.queue.items), er)
  {
    output := c.queue.items[er.first..er.last];
    c.queue.RemoveFirstN(er.last);
  }

  /// `abort(t)`: drops all data stamped before `t - delay`
  method AbortFollower<V>(c: Captor<V>, t: int)
    requires c.policy.AnyBefore?
    modifies c.queue
    ensures c.queue.items == old(c.queue.items)[LeadingBelow(old(c.queue.items), t - c.policy.delay)..]
  {
    c.queue.RemoveBefore(t - c.policy.delay);
  }
}
