// Driver policy Batch: the window spans the N oldest stamps; extraction copies them and drops only the oldest,
// so successive windows slide by one element.

module DriverBatch {
  import opened Dispatches
  import opened DispatchQueues
  import opened Captors

  /// `locate`: PRIMED over the N oldest elements once N are queued; RETRY, leaving the window untouched, before
  function Location<V>(s: seq<Dispatch<V>>, range: CaptureRange, n: nat): (r: DriverLocated)
    requires n > 0
    ensures r.extraction.Within(|s|)
  {
    if |s| >= n then DriverLocated(Primed, CaptureRange(s[0].stamp, s[n - 1].stamp), ExtractionRange(0, n))
    else DriverLocated(Retry, range, NO_EXTRACTION)
  }

  /// `extract`: a non-empty selection is copied to the output, then only the oldest element is popped
  function Extraction<V>(s: seq<Dispatch<V>>, er: ExtractionRange): (r: Extracted<V>)
    requires er.Within(|s|)
    ensures er.NonEmpty() ==> r.output == s[er.first..er.last] && [s[0]] + r.rest == s
    ensures !er.NonEmpty() ==> r.output == [] && r.rest == s
  {
    if er.NonEmpty() then Extracted(s[er.first..er.last], s[1..]) else Extracted([], s)
  }

  /// Batch primes exactly when N elements are queued; the window then spans exactly the N oldest stamps and
  /// the extraction outputs those N elements while keeping all but the oldest
  lemma BatchSelectsOldest<V>(s: seq<Dispatch<V>>, range: CaptureRange, n: nat)
    requires n > 0 && Ordered(s)
    ensures var r := Location(s, range, n);
      (r.state == Primed <==> |s| >= n) && (r.state == Retry <==> |s| < n)
      && (r.state == Retry ==> r.range == range && !r.extraction.NonEmpty())
      && (r.state == Primed ==>
            r.range.Valid()
            && Extraction(s, r.extraction).output == s[..n]
            && Extraction(s, r.extraction).rest == s[1..]
            && forall i :: 0 <= i < |s| ==> (r.range.lower <= s[i].stamp <= r.range.upper <==> i < n))
  {
    var r := Location(s, range, n);
    if r.state == Primed {
      forall i | 0 <= i < |s|
        ensures r.range.lower <= s[i].stamp <= r.range.upper <==> i < n
      {
        if 0 < i { assert s[0].stamp < s[i].stamp; }
        if i < n - 1 { assert s[i].stamp < s[n - 1].stamp; }
        if i > n - 1 { assert s[n - 1].stamp < s[i].stamp; }
      }
    }
  }

  /// Batch windows slide: after an extraction, the next window starts at the second-oldest element and its
  /// output overlaps the previous one in all but the first element
  lemma BatchSlides<V>(s: seq<Dispatch<V>>, range: CaptureRange, n: nat)
    requires n > 0 && |s| >= n + 1
    ensures var r := Location(s, range, n);
      var e := Extraction(s, r.extraction);
      var r' := Location(e.rest, r.range, n);
      r'.state == Primed && r'.range == CaptureRange(s[1].stamp, s[n].stamp)
      && Extraction(e.rest, r'.extraction).output == s[1..n + 1]
      && e.output[1..] == Extraction(e.rest, r'.extraction).output[..n - 1]
  {
    var r := Location(s, range, n);
    var e := Extraction(s, r.extraction);
    assert e.rest == s[1..];
  }

  method ExtractDriver<V>(c: Captor<V>, er: ExtractionRange) returns (output: seq<Dispatch<V>>)
    requires c.policy.Batch? && er.Within(|c.queue.items|)
    modifies c.queue
    ensures Extracted(output, c.queue.items) == Extraction(old(c.queue.items), er)
  {
    output := [];
    if er.NonEmpty() {
      output := c.queue.items[er.first..er.last];
      var _ := c.queue.Pop();
    }
  }

  /// `abort(t)`: drops all data stamped before `t`
  method AbortDriver<V>(c: Captor<V>, t: int)
    requires c.policy.Batch?
    modifies c.queue
    ensures c.queue.items == old(c.queue.items)[LeadingBelow(old(c.queue.items), t)..]
  {
    c.queue.RemoveBefore(t);
  }
}
