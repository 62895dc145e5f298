// The driver base: forwarding of every driver operation to its policy, over the captor's policy-visible state.

module Drivers {
  import opened Dispatches
  import opened DispatchQueues
  import opened Captors
  import DriverNext
  import DriverBatch
  import DriverChunk
  import DriverThrottled

  /// Drivers implemented by `dry_capture` and `capture`
  predicate Captures(p: Policy) { p.Next? || p.Chunk? || p.Throttled? }

  /// `capture_policy_impl`, forwarded to `capture_driver_impl`; a Throttled capture also remembers its stamp
  function Capture<V>(v: View<V>, range: CaptureRange): Step<V>
    requires Captures(v.policy) && ConstructionError(v.policy).None?
  {
    match v.policy
    case Next =>
      var r := DriverNext.Capture(v.items, range);
      Step(r.window.state, r.window.range, r.output, v.(items := r.rest))
    case Chunk(n) =>
      var r := DriverChunk.Capture(v.items, range, n);
      Step(r.window.state, r.window.range, r.output, v.(items := r.rest))
    case Throttled(period) =>
      var r := DriverThrottled.Capture(v.items, range, v.previousStamp, period);
      Step(r.window.state, r.window.range, r.output,
           v.(items := r.rest, previousStamp := DriverThrottled.NextPrevious(r.window, v.previousStamp)))
  }

  /// `dry_capture_policy_impl`: the window the capture would establish, changing nothing
  function DryCapture<V>(v: View<V>, range: CaptureRange): Step<V>
    requires Captures(v.policy) && ConstructionError(v.policy).None?
  {
    var w := match v.policy
      case Next => DriverNext.Window(v.items, range)
      case Chunk(n) => DriverChunk.Window(v.items, range, n)
      case Throttled(period) => DriverThrottled.Window(v.items, range, v.previousStamp, period);
    Step(w.state, w.range, [], v)
  }

  /// A driver's dry capture announces exactly the state and window its capture then establishes
  lemma DryCaptureAgrees<V>(v: View<V>, range: CaptureRange)
    requires Captures(v.policy) && ConstructionError(v.policy).None?
    ensures DryCapture(v, range).state == Capture(v, range).state
    ensures DryCapture(v, range).range == Capture(v, range).range
    ensures DryCapture(v, range).after == v
  {}

  /// A PRIMED driver capture output at least one dispatch, all inside the valid window it established, and kept
  /// a suffix of queue `s` lying entirely after that window
  ghost predicate ConsumedWindow<V>(s: seq<Dispatch<V>>, output: seq<Dispatch<V>>, w: CaptureRange,
                                    rest: seq<Dispatch<V>>)
  {
    output != [] && w.Valid()
    && (forall i :: 0 <= i < |output| ==> w.lower <= output[i].stamp <= w.upper)
    && |rest| <= |s| && rest == s[|s| - |rest|..]
    && (forall i :: 0 <= i < |rest| ==> rest[i].stamp > w.upper)
  }

  lemma NextConsumes<V>(s: seq<Dispatch<V>>, range: CaptureRange)
    requires Ordered(s)
    ensures var r := DriverNext.Capture(s, range);
      (r.window.state == Primed || r.window.state == Retry)
      && (r.window.state == Retry ==> r.window.range == range && r.output == [] && r.rest == s)
      && (r.window.state == Primed ==> ConsumedWindow(s, r.output, r.window.range, r.rest))
  {
    DriverNext.NextCapturesOldest(s, range);
    var r := DriverNext.Capture(s, range);
    if r.window.state == Primed {
      assert r.rest == s[1..];
    }
  }

  lemma ChunkConsumes<V>(s: seq<Dispatch<V>>, range: CaptureRange, n: nat)
    requires n > 0 && Ordered(s)
    ensures var r := DriverChunk.Capture(s, range, n);
      (r.window.state == Primed || r.window.state == Retry)
      && (r.window.state == Retry ==> r.window.range == range && r.output == [] && r.rest == s)
      && (r.window.state == Primed ==> ConsumedWindow(s, r.output, r.window.range, r.rest))
  {
    var r := DriverChunk.Capture(s, range, n);
    if r.window.state == Primed {
      assert r.output == s[..n] && r.rest == s[n..];
      PrefixWithin(s, n);
      SliceWithin(s, s[0].stamp, s[n - 1].stamp, n);
      NewerAfter(s, n);
      SliceAbove(s, s[n - 1].stamp, n);
    }
  }

  lemma ThrottledConsumes<V>(s: seq<Dispatch<V>>, range: CaptureRange, previous: int, period: int)
    requires Ordered(s)
    ensures var r := DriverThrottled.Capture(s, range, previous, period);
      (r.window.state == Primed || r.window.state == Retry)
      && (r.window.state == Retry ==> r.window.range == range && r.output == [] && r.rest == s)
      && (r.window.state == Primed ==> ConsumedWindow(s, r.output, r.window.range, r.rest))
  {
    DriverThrottled.ThrottledCapturesFirstReady(s, range, previous, period);
    var k := DriverThrottled.FirstReady(s, previous, period);
    var r := DriverThrottled.Capture(s, range, previous, period);
    if r.window.state == Primed {
      assert r.rest == s[k + 1..];
      NewerAfter(s, k + 1);
      SliceAbove(s, s[k].stamp, k + 1);
    }
  }

  /// On an ordered queue a driver capture either is PRIMED, outputting at least one dispatch, all inside the
  /// window it establishes, and keeping a suffix of the queue that lies entirely after that window; or is RETRY,
  /// leaving window and captor untouched
  lemma CaptureConsumesWindow<V>(v: View<V>, range: CaptureRange)
    requires Captures(v.policy) && ConstructionError(v.policy).None? && Ordered(v.items)
    ensures Capture(v, range).state == Primed || Capture(v, range).state == Retry
    ensures var r := Capture(v, range); r.state == Retry ==> r.range == range && r.output == [] && r.after == v
    ensures var r := Capture(v, range); r.state == Primed ==> ConsumedWindow(v.items, r.output, r.range, r.after.items)
  {
    match v.policy
    case Next => NextConsumes(v.items, range);
    case Chunk(n) => ChunkConsumes(v.items, range, n);
    case Throttled(period) => ThrottledConsumes(v.items, range, v.previousStamp, period);
  }

  /// Batch's `locate_driver_impl`
  function Locate<V>(v: View<V>, range: CaptureRange): (r: DriverLocated)
    requires v.policy.Batch? && v.policy.batchSize > 0
    ensures r.extraction.Within(|v.items|)
  {
    DriverBatch.Location(v.items, range, v.policy.batchSize)
  }

  /// Batch's `extract_driver_impl`
  function Extract<V>(v: View<V>, er: ExtractionRange): Taken<V>
    requires v.policy.Batch? && er.Within(|v.items|)
  {
    var e := DriverBatch.Extraction(v.items, er);
    Taken(e.output, v.(items := e.rest))
  }

  /// Every driver's `abort(t)` removes the data stamped before `t`
  function AbortBound(p: Policy, t: int): Option<int>
  {
    if p.IsDriver() then Some(t) else None
  }

  method CapturePolicy<V>(c: Captor<V>, range: CaptureRange) returns (state: State, range': CaptureRange, output: seq<Dispatch<V>>)
    requires Captures(c.policy) && ConstructionError(c.policy).None?
    modifies c`previousStamp, c.queue
    ensures Step(state, range', output, ViewOf(c)) == Capture(old(ViewOf(c)), range)
  {
    var w: Windowed;
    match c.policy {
      case Next => w, output := DriverNext.CaptureDriver(c, range);
      case Chunk(_) => w, output := DriverChunk.CaptureDriver(c, range);
      case Throttled(_) => w, output := DriverThrottled.CaptureDriver(c, range);
    }
    state, range' := w.state, w.range;
  }

  method DryCapturePolicy<V>(c: Captor<V>, range: CaptureRange) returns (state: State, range': CaptureRange)
    requires Captures(c.policy) && ConstructionError(c.policy).None?
    ensures Step(state, range', [], ViewOf(c)) == DryCapture(ViewOf(c), range)
  {
    var w: Windowed;
    match c.policy {
      case Next => w := DriverNext.Window(c.queue.items, range);
      case Chunk(n) => w := DriverChunk.Window(c.queue.items, range, n);
      case Throttled(_) => w := DriverThrottled.DryCaptureDriver(c, range);
    }
    state, range' := w.state, w.range;
  }

  method LocatePolicy<V>(c: Captor<V>, range: CaptureRange) returns (r: DriverLocated)
    requires c.policy.Batch? && c.policy.batchSize > 0
    ensures r == Locate(ViewOf(c), range)
  {
    r := DriverBatch.Location(c.queue.items, range, c.policy.batchSize);
  }

  method ExtractPolicy<V>(c: Captor<V>, er: ExtractionRange) returns (output: seq<Dispatch<V>>)
    requires c.policy.Batch? && er.Within(|c.queue.items|)
    modifies c.queue
    ensures Taken(output, ViewOf(c)) == Extract(old(ViewOf(c)), er)
  {
    output := DriverBatch.ExtractDriver(c, er);
  }

  /// `abort_policy_impl`, forwarded to the policy
  method AbortPolicy<V>(c: Captor<V>, t: int)
    requires c.policy.IsDriver()
    modifies c.queue
    ensures c.queue.items == old(c.queue.items)[LeadingBelow(old(c.queue.items), t)..]
  {
    match c.policy
    case Next => DriverNext.AbortDriver(c, t);
    case Batch(_) => DriverBatch.AbortDriver(c, t);
    case Chunk(_) => DriverChunk.AbortDriver(c, t);
    case Throttled(_) => DriverThrottled.AbortDriver(c, t);
  }

  /// `reset_policy_impl`, forwarded to the policy: only Throttled holds state to forget
  method ResetPolicy<V>(c: Captor<V>)
    requires c.policy.IsDriver()
    modifies c`previousStamp
    ensures c.previousStamp == if c.policy.Throttled? then STAMP_MIN else old(c.previousStamp)
  {
    if c.policy.Throttled? {
      DriverThrottled.ResetDriver(c);
    }
  }
}
