// Follower policy MatchedStamp: captures the dispatches whose stamps lie inside the capture window, keeping them
// queued.

module FollowerMatchedStamp {
  import opened Dispatches
  import opened DispatchQueues
  import opened Captors

  predicate InWindow<V>(d: Dispatch<V>, range: CaptureRange)
  {
    range.lower <= d.stamp <= range.upper
  }

  /// The extraction range `locate`'s scan has built after visiting the first `n` dispatches: it starts at the
  /// first match and grows by one on every later match
  function Matches<V>(s: seq<Dispatch<V>>, range: CaptureRange, n: nat): (er: ExtractionRange)
    requires n <= |s|
    ensures er.Within(n)
    decreases n
  {
    if n == 0 then NO_EXTRACTION
    else
      var er := Matches(s, range, n - 1);
      if !InWindow(s[n - 1], range) then er
      else if !er.NonEmpty() then ExtractionRange(n - 1, n)
      else ExtractionRange(er.first, er.last + 1)
  }

  /// On an ordered queue the scan's range selects exactly the dispatches inside the window
  lemma {:induction false} MatchesExactly<V>(s: seq<Dispatch<V>>, range: CaptureRange, n: nat)
    requires Ordered(s) && n <= |s|
    ensures var er := Matches(s, range, n);
      forall j :: 0 <= j < n ==> (er.first <= j < er.last <==> InWindow(s[j], range))
    decreases n
  {
    if n > 0 {
      MatchesExactly(s, range, n - 1);
      var er' := Matches(s, range, n - 1);
      if InWindow(s[n - 1], range) && er'.NonEmpty() {
        assert er'.first <= n - 2;
        assert InWindow(s[er'.first], range);
        assert s[er'.first].stamp <= s[n - 2].stamp < s[n - 1].stamp;
        assert InWindow(s[n - 2], range);
      }
    }
  }

  /// `locate`: RETRY on an empty queue, ABORT when the oldest dispatch is already after the window, otherwise
  /// PRIMED over the matches, or RETRY when there are none
  function Location<V>(s: seq<Dispatch<V>>, range: CaptureRange): (r: Located)
    ensures r.extraction.Within(|s|)
  {
    if s == [] then Located(Retry, NO_EXTRACTION)
    else if s[0].stamp > range.upper then Located(Abort, NO_EXTRACTION)
    else
      var er := Matches(s, range, |s|);
      Located(if er.NonEmpty() then Primed else Retry, er)
  }

  /// On an ordered queue MatchedStamp primes exactly when some dispatch lies in the window, and then outputs
  /// exactly those dispatches, dropping only older data; it aborts exactly when every dispatch is after the window
  lemma MatchedStampSelects<V>(s: seq<Dispatch<V>>, range: CaptureRange)
    requires Ordered(s)
    ensures var r := Location(s, range);
      (r.state == Primed <==> exists j :: 0 <= j < |s| && InWindow(s[j], range))
      && (r.state == Abort <==> s != [] && s[0].stamp > range.upper)
      && (r.state == Primed ==>
            var e := Copied(s, r.extraction);
            e.rest == s[r.extraction.first..]
            && (forall j :: 0 <= j < |s| ==> (r.extraction.first <= j < r.extraction.last <==> InWindow(s[j], range)))
            && forall j :: 0 <= j < |e.output| ==> InWindow(e.output[j], range))
      && (r.state != Primed ==> !r.extraction.NonEmpty())
  {
    var r := Location(s, range);
    if s != [] {
      OrderedBounds(s);
      MatchesExactly(s, range, |s|);
      if r.state == Primed {
        assert InWindow(s[r.extraction.first], range);
        var e := Copied(s, r.extraction);
        forall j | 0 <= j < |e.output|
          ensures InWindow(e.output[j], range)
        {
          assert e.output[j] == s[r.extraction.first + j];
        }
      }
    }
  }

  /// `locate`, a scan over every dispatch from the oldest
  method LocateFollower<V>(c: Captor<V>, range: CaptureRange) returns (r: Located)
    requires c.policy.MatchedStamp?
    ensures r == Location(c.queue.items, range)
  {
    var s := c.queue.items;
    if s == [] {
      return Located(Retry, NO_EXTRACTION);
    } else if s[0].stamp > range.upper {
      return Located(Abort, NO_EXTRACTION);
    }
    var er := NO_EXTRACTION;
    for elementIndex := 0 to |s|
      invariant er == Matches(s, range, elementIndex)
    {
      if s[elementIndex].stamp < range.lower || s[elementIndex].stamp > range.upper {
        continue;
      } else if !er.NonEmpty() {
        er := ExtractionRange(elementIndex, elementIndex + 1);
      } else {
        er := ExtractionRange(er.first, er.last + 1);
      }
    }
    r := Located(if er.NonEmpty() then Primed else Retry, er);
  }

  /// `extract`: copies the selection to the output and drops everything older than it
  method ExtractFollower<V>(c: Captor<V>, er: ExtractionRange) returns (output: seq<Dispatch<V>>)
    requires c.policy.MatchedStamp? && er.Within(|c.queue.items|)
    modifies c.queue
    ensures Extracted(output, c.queue.items) == Copied(old(c.queue.items), er)
  {
    output := c.queue.items[er.first..er.last];
    c.queue.RemoveFirstN(er.first);
  }

  /// `abort(t)`: drops all data stamped before `t`
  method AbortFollower<V>(c: Captor<V>, t: int)
    requires c.policy.MatchedStamp?
    modifies c.queue
    ensures c.queue.items == old(c.queue.items)[LeadingBelow(old(c.queue.items), t)..]
  {
    c.queue.RemoveBefore(t);
  }
}
