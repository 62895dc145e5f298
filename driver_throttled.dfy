// Driver policy Throttled: captures the oldest dispatch at least one throttle period after the last one captured.

module DriverThrottled {
  import opened Dispatches
  import opened DispatchQueues
  import opened Captors

  /// The throttle test of `dry_capture`: nothing captured yet, or at least `period` after the last capture
  predicate Ready<V>(d: Dispatch<V>, previous: int, period: int)
  {
    previous == STAMP_MIN || d.stamp - previous >= period
  }

  /// Index of the first queued dispatch that passes the throttle test, |s| when none does
  function FirstReady<V>(s: seq<Dispatch<V>>, previous: int, period: int): (k: nat)
    ensures k <= |s|
    ensures forall j :: 0 <= j < k ==> !Ready(s[j], previous, period)
    ensures k < |s| ==> Ready(s[k], previous, period)
  {
    FindIf(s, (d: Dispatch<V>) => Ready(d, previous, period))
  }

  lemma FirstReadyUnique<V>(s: seq<Dispatch<V>>, previous: int, period: int, n: nat)
    requires n <= |s|
    requires forall j :: 0 <= j < n ==> !Ready(s[j], previous, period)
    requires n < |s| ==> Ready(s[n], previous, period)
    ensures FirstReady(s, previous, period) == n
  {}

  /// `dry_capture`: PRIMED at the first dispatch that passes the throttle test; RETRY, leaving the window
  /// untouched, when none does
  function Window<V>(s: seq<Dispatch<V>>, range: CaptureRange, previous: int, period: int): Windowed
  {
    var k := FirstReady(s, previous, period);
    if k < |s| then Windowed(Primed, CaptureRange(s[k].stamp, s[k].stamp)) else Windowed(Retry, range)
  }

  /// `capture`: on PRIMED, everything stamped before the window is dropped and the next dispatch is popped
  function Capture<V>(s: seq<Dispatch<V>>, range: CaptureRange, previous: int, period: int): (r: DriverCaptured<V>)
    ensures r.window.state in {Primed, Retry}
    ensures r.window.state == Primed ==>
      |r.output| == 1 && r.window.range.lower == r.window.range.upper
      && r.output + r.rest == s[LeadingBelow(s, r.window.range.lower)..]
      && r.output[0].stamp >= r.window.range.lower
    ensures r.window.state == Retry ==> r.window.range == range && r.output == [] && r.rest == s
  {
    var w := Window(s, range, previous, period);
    if w.state == Primed then
      var kept := s[LeadingBelow(s, w.range.lower)..];
      DriverCaptured(w, [kept[0]], kept[1..])
    else DriverCaptured(w, [], s)
  }

  /// The stamp remembered for the next throttle test
  function NextPrevious(w: Windowed, previous: int): int
  {
    if w.state == Primed then w.range.lower else previous
  }

  /// On an ordered queue a throttled capture outputs the first dispatch that passes the throttle test, leaves
  /// exactly the newer ones, and every dispatch it skips lies within one period of the previous capture
  lemma ThrottledCapturesFirstReady<V>(s: seq<Dispatch<V>>, range: CaptureRange, previous: int, period: int)
    requires Ordered(s)
    ensures var r := Capture(s, range, previous, period);
      var k := FirstReady(s, previous, period);
      (r.window.state == Primed <==> k < |s|)
      && (r.window.state == Primed ==>
            r.output == [s[k]] && r.rest == s[k + 1..]
            && r.window.range == CaptureRange(s[k].stamp, s[k].stamp)
            && (previous != STAMP_MIN ==> s[k].stamp - previous >= period)
            && (forall j :: 0 <= j < k ==> previous != STAMP_MIN && s[j].stamp - previous < period))
  {
    var k := FirstReady(s, previous, period);
    if k < |s| {
      LeadingBelowAt(s, k);
      assert s[k..][0] == s[k] && s[k..][1..] == s[k + 1..];
    }
  }

  /// A fresh (or reset) throttle primes at the oldest dispatch whenever data is queued
  lemma ThrottledFirstCapture<V>(s: seq<Dispatch<V>>, range: CaptureRange, period: int)
    requires s != []
    ensures Window(s, range, STAMP_MIN, period) == Windowed(Primed, CaptureRange(s[0].stamp, s[0].stamp))
  {
    assert Ready(s[0], STAMP_MIN, period);
  }

  /// Throttling at period 100 over stamps 0, 10, 50, 120, 130: the first capture takes 0, the second takes 120,
  /// and a third finds nothing a period after 120
  lemma ThrottledExample()
    ensures var s := [Dispatch(0, 'a'), Dispatch(10, 'b'), Dispatch(50, 'c'), Dispatch(120, 'd'), Dispatch(130, 'e')];
      var range := CaptureRange(0, 0);
      var r1 := Capture(s, range, STAMP_MIN, 100);
      var p1 := NextPrevious(r1.window, STAMP_MIN);
      var r2 := Capture(r1.rest, r1.window.range, p1, 100);
      var p2 := NextPrevious(r2.window, p1);
      var r3 := Capture(r2.rest, r2.window.range, p2, 100);
      r1.output == [Dispatch(0, 'a')] && p1 == 0
      && r2.output == [Dispatch(120, 'd')] && p2 == 120 && r2.rest == [Dispatch(130, 'e')]
      && r3.window.state == Retry && r3.rest == [Dispatch(130, 'e')]
  {
    var s := [Dispatch(0, 'a'), Dispatch(10, 'b'), Dispatch(50, 'c'), Dispatch(120, 'd'), Dispatch(130, 'e')];
    FirstReadyUnique(s, STAMP_MIN, 100, 0);
    LeadingBelowUnique(s, 0, 0);
    var rest1 := [Dispatch(10, 'b'), Dispatch(50, 'c'), Dispatch(120, 'd'), Dispatch(130, 'e')];
    assert s[0..][1..] == rest1;
    FirstReadyUnique(rest1, 0, 100, 2);
    LeadingBelowUnique(rest1, 120, 2);
    var rest2 := [Dispatch(130, 'e')];
    assert rest1[2..][1..] == rest2;
    FirstReadyUnique(rest2, 120, 100, 1);
  }

  /// `dry_capture`, scanning the queue from the oldest dispatch
  method DryCaptureDriver<V>(c: Captor<V>, range: CaptureRange) returns (w: Windowed)
    requires c.policy.Throttled?
    ensures w == Window(c.queue.items, range, c.previousStamp, c.policy.throttlePeriod)
  {
    var s, previous, period := c.queue.items, c.previousStamp, c.policy.throttlePeriod;
    var i := 0;
    while i < |s|
      invariant 0 <= i <= |s|
      invariant forall j :: 0 <= j < i ==> !Ready(s[j], previous, period)
    {
      if previous == STAMP_MIN || s[i].stamp - previous >= period {
        FirstReadyUnique(s, previous, period, i);
        return Windowed(Primed, CaptureRange(s[i].stamp, s[i].stamp));
      }
      i := i + 1;
    }
    FirstReadyUnique(s, previous, period, i);
    w := Windowed(Retry, range);
  }

  method CaptureDriver<V>(c: Captor<V>, range: CaptureRange) returns (w: Windowed, output: seq<Dispatch<V>>)
    requires c.policy.Throttled?
    modifies c`previousStamp, c.queue
    ensures DriverCaptured(w, output, c.queue.items)
      == Capture(old(c.queue.items), range, old(c.previousStamp), c.policy.throttlePeriod)
    ensures c.previousStamp == NextPrevious(w, old(c.previousStamp))
  {
    w := DryCaptureDriver(c, range);
    output := [];
    if w.state == Primed {
      c.queue.RemoveBefore(w.range.lower);
      c.previousStamp := w.range.lower;
      var d := c.queue.Pop();
      output := [d];
    }
  }

  /// `reset`: forgets the last captured stamp
  method ResetDriver<V>(c: Captor<V>)
    requires c.policy.Throttled?
    modifies c`previousStamp
    ensures c.previousStamp == STAMP_MIN
  {
    c.previousStamp := STAMP_MIN;
  }

  /// `abort(t)`: drops all data stamped before `t`
  method AbortDriver<V>(c: Captor<V>, t: int)
    requires c.policy.Throttled?
    modifies c.queue
    ensures c.queue.items == old(c.queue.items)[LeadingBelow(old(c.queue.items), t)..]
  {
    c.queue.RemoveBefore(t);
  }
}
