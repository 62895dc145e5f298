// Follower policy Before: on PRIMED, captures every dispatch stamped before the window's upper stamp minus a
// delay, waiting until some dispatch at or after that boundary has arrived.

module FollowerBefore {
  import opened Dispatches
  import opened DispatchQueues
  import opened Captors

  /// `upper - delay`: dispatches strictly before it are captured
  function Boundary(range: CaptureRange, delay: int): int
  {
    range.upper - delay
  }

  /// `locate`: RETRY on an empty queue or while the newest stamp is before the boundary; otherwise PRIMED
  /// over the leading dispatches stamped before the boundary
  function Location<V>(s: seq<Dispatch<V>>, range: CaptureRange, delay: int): (r: Located)
    ensures r.extraction.Within(|s|)
  {
    var boundary := Boundary(range, delay);
    if s == [] || s[|s| - 1].stamp < boundary then Located(Retry, NO_EXTRACTION)
    else Located(Primed, ExtractionRange(0, LeadingBelow(s, boundary)))
  }

  /// On an ordered queue Before primes exactly when some dispatch is at or after the boundary; it then outputs
  /// every dispatch before the boundary and keeps every dispatch at or after it, which is at least one
  lemma BeforeSplitsAtBoundary<V>(s: seq<Dispatch<V>>, range: CaptureRange, delay: int)
    requires Ordered(s)
    ensures var r := Location(s, range, delay);
      var boundary := Boundary(range, delay);
      (r.state == Primed <==> exists i :: 0 <= i < |s| && s[i].stamp >= boundary)
      && (r.state != Primed ==> r.state == Retry && !r.extraction.NonEmpty())
      && (r.state == Primed ==>
            var e := Moved(s, r.extraction);
            e.output + e.rest == s && e.rest != []
            && (forall i :: 0 <= i < |e.output| ==> e.output[i].stamp < boundary)
            && (forall i :: 0 <= i < |e.rest| ==> e.rest[i].stamp >= boundary))
  {
    var boundary := Boundary(range, delay);
    if s != [] {
      OrderedBounds(s);
      MovedSplitsAt(s, boundary);
    }
  }

  /// `locate`, scanning from the oldest dispatch
  method LocateFollower<V>(c: Captor<V>, range: CaptureRange) returns (r: Located)
    requires c.policy.Before?
    ensures r == Location(c.queue.items, range, c.policy.delay)
  {
    var s := c.queue.items;
    var boundary := range.upper - c.policy.delay;
    if s == [] || s[|s| - 1].stamp < boundary {
      return Located(Retry, NO_EXTRACTION);
    }
    var i := 0;
    while i < |s| && s[i].stamp < boundary
      invariant 0 <= i <= |s|
      invariant forall j :: 0 <= j < i ==> s[j].stamp < boundary
    {
      i := i + 1;
    }
    LeadingBelowUnique(s, boundary, i);
    r := Located(Primed, ExtractionRange(0, i));
  }

  /// `extract`: moves the selection to the output and drops it with everything older
  method ExtractFollower<V>(c: Captor<V>, er: ExtractionRange) returns (output: seq<Dispatch<V>>)
    requires c.policy.Before? && er.Within(|c.queue.items|)
    modifies c.queue
    ensures Extracted(output, c.queue.items) == Moved(old(c.queue.items), er)
  {
    output := c.queue.items[er.first..er.last];
    c.queue.RemoveFirstN(er.last);
  }

  /// `abort(t)`: drops all data stamped before `t - delay`
  method AbortFollower<V>(c: Captor<V>, t: int)
    requires c.policy.Before?
    modifies c.queue
    ensures c.queue.items == old(c.queue.items)[LeadingBelow(old(c.queue.items), t - c.policy.delay)..]
  {
    c.queue.RemoveBefore(t - c.policy.delay);
  }
}
