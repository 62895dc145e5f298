// Follower policy CountBefore: captures the N newest dispatches stamped before the window's upper stamp minus a
// delay, and keeps them queued for the next capture.

module FollowerCountBefore {
  import opened Dispatches
  import opened DispatchQueues
  import opened Captors

  /// `upper - delay`: dispatches strictly before it are candidates
  function Boundary(range: CaptureRange, delay: int): int
  {
    range.upper - delay
  }

  /// `locate`: RETRY on an empty queue; PRIMED over the `count` dispatches just before the boundary once that
  /// many are queued; otherwise ABORT when some dispatch is at or after the boundary, else RETRY
  function Location<V>(s: seq<Dispatch<V>>, range: CaptureRange, count: nat, delay: int): (r: Located)
    ensures r.extraction.Within(|s|)
  {
    if s == [] then Located(Retry, NO_EXTRACTION)
    else
      var k := LeadingBelow(s, Boundary(range, delay));
      if k >= count then Located(Primed, ExtractionRange(k - count, k))
      else if k < |s| then Located(Abort, NO_EXTRACTION)
      else Located(Retry, NO_EXTRACTION)
  }

  /// On an ordered queue CountBefore primes exactly when at least `count` dispatches precede the boundary; it then
  /// outputs the `count` newest of them and keeps everything from the first one output onward. Otherwise it
  /// aborts when a dispatch at or after the boundary shows that no more can arrive before it, and retries when
  /// more still can
  lemma CountBeforeSelects<V>(s: seq<Dispatch<V>>, range: CaptureRange, count: nat, delay: int)
    requires Ordered(s) && count > 0
    ensures var r := Location(s, range, count, delay);
      var boundary := Boundary(range, delay);
      var k := LeadingBelow(s, boundary);
      (forall i :: 0 <= i < |s| ==> (s[i].stamp < boundary <==> i < k))
      && (r.state == Primed <==> k >= count)
      && (r.state == Abort <==> k < count && exists i :: 0 <= i < |s| && s[i].stamp >= boundary)
      && (r.state == Retry <==> k < count && forall i :: 0 <= i < |s| ==> s[i].stamp < boundary)
      && (r.state == Primed ==>
            var e := Copied(s, r.extraction);
            |e.output| == count && e.output == s[k - count..k] && e.rest == s[k - count..]
            && forall i :: 0 <= i < count ==> e.output[i].stamp < boundary)
  {
    LeadingBelowOrdered(s, Boundary(range, delay));
  }

  /// `locate`, counting the dispatches before the boundary from the oldest one
  method LocateFollower<V>(c: Captor<V>, range: CaptureRange) returns (r: Located)
    requires c.policy.CountBefore?
    ensures r == Location(c.queue.items, range, c.policy.count, c.policy.delay)
  {
    var s := c.queue.items;
    if s == [] {
      return Located(Retry, NO_EXTRACTION);
    }
    var boundary := range.upper - c.policy.delay;
    var beforeBoundaryCount := 0;
    while beforeBoundaryCount < |s| && boundary > s[beforeBoundaryCount].stamp
      invariant 0 <= beforeBoundaryCount <= |s|
      invariant forall j :: 0 <= j < beforeBoundaryCount ==> s[j].stamp < boundary
    {
      beforeBoundaryCount := beforeBoundaryCount + 1;
    }
    LeadingBelowUnique(s, boundary, beforeBoundaryCount);
    var atOrAfterBoundary := beforeBoundaryCount < |s|;
    if beforeBoundaryCount >= c.policy.count {
      r := Located(Primed, ExtractionRange(beforeBoundaryCount - c.policy.count, beforeBoundaryCount));
    } else if atOrAfterBoundary {
      r := Located(Abort, NO_EXTRACTION);
    } else {
      r := Located(Retry, NO_EXTRACTION);
    }
  }

  /// `extract`: copies the selection to the output and drops everything older than it
  method ExtractFollower<V>(c: Captor<V>, er: ExtractionRange) returns (output: seq<Dispatch<V>>)
    requires c.policy.CountBefore? && er.Within(|c.queue.items|)
    modifies c.queue
    ensures Extracted(output, c.queue.items) == Copied(old(c.queue.items), er)
  {
    output := c.queue.items[er.first..er.last];
    c.queue.RemoveFirstN(er.first);
  }
}
