// Follower policy Latched: latches the newest dispatch at least a minimum period older than the window's lower
// stamp and keeps reporting it until a newer one qualifies.

module FollowerLatched {
  import opened Dispatches
  import opened DispatchQueues
  import opened Captors

  /// `lower - min_period`: a dispatch at or before it may be latched
  function Boundary(range: CaptureRange, minPeriod: int): int
  {
    range.lower - minPeriod
  }

  /// `locate`: with an empty queue, or one whose oldest dispatch is after the boundary, PRIMED on the latched
  /// dispatch if there is one (else RETRY, resp. ABORT); otherwise PRIMED over the leading dispatches at or before
  /// the boundary
  function Location<V>(s: seq<Dispatch<V>>, range: CaptureRange, minPeriod: int, latched: Option<Dispatch<V>>)
    : (r: Located)
    ensures r.extraction.Within(|s|)
    ensures r.state in {Primed, Retry, Abort}
  {
    var boundary := Boundary(range, minPeriod);
    if s == [] then Located(if latched.Some? then Primed else Retry, NO_EXTRACTION)
    else if s[0].stamp > boundary then Located(if latched.Some? then Primed else Abort, NO_EXTRACTION)
    else Located(Primed, ExtractionRange(0, LeadingAtOrBelow(s, boundary)))
  }

  /// What `extract` outputs, leaves queued and latches
  datatype Latching<V> = Latching(output: seq<Dispatch<V>>, rest: seq<Dispatch<V>>, latched: Option<Dispatch<V>>)

  /// `extract`: a non-empty selection latches its newest dispatch and drops everything older; then the latched
  /// dispatch, if any, is output
  function Extraction<V>(s: seq<Dispatch<V>>, er: ExtractionRange, latched: Option<Dispatch<V>>): (r: Latching<V>)
    requires er.Within(|s|)
    ensures |r.output| <= 1
    ensures r.output != [] <==> er.NonEmpty() || latched.Some?
    ensures |r.rest| <= |s| && r.rest == s[|s| - |r.rest|..]
    ensures er.NonEmpty() ==>
      r.rest != [] && r.rest[0] == s[er.last - 1] && r.output == [r.rest[0]] && r.latched == Some(r.rest[0])
    ensures !er.NonEmpty() ==> r.rest == s && r.latched == latched
    ensures r.latched.Some? ==> r.output == [r.latched.value]
  {
    var l := if er.NonEmpty() then Some(s[er.last - 1]) else latched;
    var rest := if er.NonEmpty() then s[er.last - 1..] else s;
    Latching(if l.Some? then [l.value] else [], rest, l)
  }

  /// On an ordered queue Latched latches the newest dispatch at or before the boundary, keeping it queued, and
  /// when none qualifies falls back on the latched dispatch; whenever it primes it outputs exactly one dispatch
  lemma LatchedSelects<V>(s: seq<Dispatch<V>>, range: CaptureRange, minPeriod: int, latched: Option<Dispatch<V>>)
    requires Ordered(s)
    ensures var r := Location(s, range, minPeriod, latched);
      var boundary := Boundary(range, minPeriod);
      var e := Extraction(s, r.extraction, latched);
      (r.state == Primed ==> |e.output| == 1)
      && (r.state == Retry <==> s == [] && latched.None?)
      && (r.state == Abort <==> s != [] && latched.None? && forall i :: 0 <= i < |s| ==> s[i].stamp > boundary)
      && (r.extraction.NonEmpty() ==>
            var k := r.extraction.last - 1;
            e.latched == Some(s[k]) && e.rest == s[k..] && s[k].stamp <= boundary
            && forall i :: k < i < |s| ==> s[i].stamp > boundary)
      && (!r.extraction.NonEmpty() ==>
            e.rest == s && e.latched == latched && forall i :: 0 <= i < |s| ==> s[i].stamp > boundary)
  {
    if s != [] {
      OrderedBounds(s);
      LeadingAtOrBelowOrdered(s, Boundary(range, minPeriod));
    }
  }

  /// Once a dispatch is latched and no newer dispatch qualifies, every later capture re-emits it unchanged
  lemma LatchedReemits<V>(s: seq<Dispatch<V>>, range: CaptureRange, minPeriod: int, d: Dispatch<V>)
    requires s == [] || s[0] == d
    requires |s| <= 1 || s[1].stamp > Boundary(range, minPeriod)
    ensures var r := Location(s, range, minPeriod, Some(d));
      var e := Extraction(s, r.extraction, Some(d));
      r.state == Primed && e.output == [d] && e.rest == s && e.latched == Some(d)
  {
    var boundary := Boundary(range, minPeriod);
    if s != [] && s[0].stamp <= boundary {
      LeadingAtOrBelowUnique(s, boundary, 1);
    }
  }

  /// `locate`, scanning from the oldest dispatch
  method LocateFollower<V>(c: Captor<V>, range: CaptureRange) returns (r: Located)
    requires c.policy.Latched?
    ensures r == Location(c.queue.items, range, c.policy.minPeriod, c.latched)
  {
    var s := c.queue.items;
    if s == [] {
      return Located(if c.latched.Some? then Primed else Retry, NO_EXTRACTION);
    }
    var boundary := range.lower - c.policy.minPeriod;
    if s[0].stamp > boundary {
      return Located(if c.latched.Some? then Primed else Abort, NO_EXTRACTION);
    }
    var i := 0;
    while i < |s| && s[i].stamp <= boundary
      invariant 0 <= i <= |s|
      invariant forall j :: 0 <= j < i ==> s[j].stamp <= boundary
    {
      i := i + 1;
    }
    LeadingAtOrBelowUnique(s, boundary, i);
    r := Located(Primed, ExtractionRange(0, i));
  }

  method ExtractFollower<V>(c: Captor<V>, er: ExtractionRange) returns (output: seq<Dispatch<V>>)
    requires c.policy.Latched? && er.Within(|c.queue.items|)
    modifies c`latched, c.queue
    ensures Latching(output, c.queue.items, c.latched) == Extraction(old(c.queue.items), er, old(c.latched))
  {
    if er.NonEmpty() {
      var accessIndex := er.last - 1;
      c.latched := Some(c.queue.items[accessIndex]);
      c.queue.RemoveFirstN(accessIndex);
    }
    output := [];
    if c.latched.Some? {
      output := [c.latched.value];
    }
  }

  /// `reset`: forgets the latched dispatch
  method ResetFollower<V>(c: Captor<V>)
    requires c.policy.Latched?
    modifies c`latched
    ensures c.latched == None
  {
    c.latched := None;
  }
}
