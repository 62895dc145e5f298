// The captor: a dispatch queue with a capacity limit and a queue monitor, tagged with its capture policy,
// and the outcome types shared by every policy.

module Captors {
  import opened Dispatches
  import opened DispatchQueues

  /// The closed set of capture policies with their parameters
  datatype Policy =
    | Next
    | Batch(batchSize: nat)
    | Chunk(chunkSize: nat)
    | Throttled(throttlePeriod: int)
    | Before(delay: int)
    | AnyBefore(delay: int)
    | ClosestBefore(period: int, delay: int)
    | CountBefore(count: nat, delay: int)
    | Latched(minPeriod: int)
    | MatchedStamp
    | Ranged(delay: int)
    | Exact
  {
    /// Drivers establish the capture window; every other policy follows it
    predicate IsDriver() { Next? || Batch? || Chunk? || Throttled? }

    /// Policies implemented by a locate step and an extract step
    predicate Locates() { Batch? || Before? || AnyBefore? || CountBefore? || Latched? || MatchedStamp? }
  }

  const BATCH_SIZE_ZERO := "'batch_size_' should be greater than zero"
  const CHUNK_SIZE_ZERO := "'chunk_size_' should be greater than zero"
  const COUNT_ZERO := "'count' cannot be 0"

  /// The `std::invalid_argument` a policy constructor throws, if any
  function ConstructionError(p: Policy): (r: Option<string>)
    ensures r.Some? <==> (p.Batch? && p.batchSize == 0) || (p.Chunk? && p.chunkSize == 0) || (p.CountBefore? && p.count == 0)
    ensures p.Batch? && p.batchSize == 0 ==> r == Some(BATCH_SIZE_ZERO)
    ensures p.Chunk? && p.chunkSize == 0 ==> r == Some(CHUNK_SIZE_ZERO)
    ensures p.CountBefore? && p.count == 0 ==> r == Some(COUNT_ZERO)
  {
    match p
    case Batch(n) => if n == 0 then Some(BATCH_SIZE_ZERO) else None
    case Chunk(n) => if n == 0 then Some(CHUNK_SIZE_ZERO) else None
    case CountBefore(n, _) => if n == 0 then Some(COUNT_ZERO) else None
    case _ => None
  }

  /// A queue monitor: `check` may veto a follower's capture; the default one never does
  datatype QueueMonitor<!V> = DefaultMonitor | CustomMonitor(check: (seq<Dispatch<V>>, CaptureRange) -> bool)

  function Check<V>(m: QueueMonitor<V>, s: seq<Dispatch<V>>, range: CaptureRange): bool
  {
    match m
    case DefaultMonitor => true
    case CustomMonitor(check) => check(s, range)
  }

  lemma DefaultMonitorAccepts<V>(s: seq<Dispatch<V>>, range: CaptureRange)
    ensures Check(DefaultMonitor, s, range)
  {}

  /// What a follower's locate step decides
  datatype Located = Located(state: State, extraction: ExtractionRange)

  /// What a driver's locate step decides, with the window it establishes
  datatype DriverLocated = DriverLocated(state: State, range: CaptureRange, extraction: ExtractionRange)

  /// What a driver's dry capture decides, with the window it establishes
  datatype Windowed = Windowed(state: State, range: CaptureRange)

  /// What a driver's capture decides, writes to the output, and the queue it leaves behind
  datatype DriverCaptured<V> = DriverCaptured(window: Windowed, output: seq<Dispatch<V>>, rest: seq<Dispatch<V>>)

  /// What an extraction writes to the output and the queue it leaves behind
  datatype Extracted<V> = Extracted(output: seq<Dispatch<V>>, rest: seq<Dispatch<V>>)

  /// What a capture decides, writes to the output, and the queue it leaves behind
  datatype Captured<V> = Captured(state: State, output: seq<Dispatch<V>>, rest: seq<Dispatch<V>>)

  /// `move(output, er)` then `remove_first_n(er.last)`: the selection leaves the queue along with everything older
  function Moved<V>(s: seq<Dispatch<V>>, er: ExtractionRange): (r: Extracted<V>)
    requires er.Within(|s|)
    ensures |r.output| == er.last - er.first
    ensures r.output + r.rest == s[er.first..]
  {
    Extracted(s[er.first..er.last], s[er.last..])
  }

  /// Moving the leading run below `t` out of an ordered queue splits it at `t`
  lemma MovedSplitsAt<V>(s: seq<Dispatch<V>>, t: int)
    requires Ordered(s)
    ensures var e := Moved(s, ExtractionRange(0, LeadingBelow(s, t))); e.output + e.rest == s
    ensures var e := Moved(s, ExtractionRange(0, LeadingBelow(s, t)));
      forall i :: 0 <= i < |s| ==> (s[i].stamp < t <==> i < |e.output|)
    ensures var e := Moved(s, ExtractionRange(0, LeadingBelow(s, t)));
      forall i :: 0 <= i < |e.rest| ==> e.rest[i].stamp >= t
  {
    var k := LeadingBelow(s, t);
    assert s[..k] + s[k..] == s;
    LeadingBelowOrdered(s, t);
    SuffixAtOrAbove(s, t, k);
    SliceAtOrAbove(s, t, k);
  }

  /// `copy(output, er)` then `remove_first_n(er.first)`: the selection is output and stays queued, everything
  /// older leaves
  function Copied<V>(s: seq<Dispatch<V>>, er: ExtractionRange): (r: Extracted<V>)
    requires er.Within(|s|)
    ensures |r.output| == er.last - er.first
    ensures |r.rest| == |s| - er.first && r.output == r.rest[..er.last - er.first]
    ensures r.output == s[er.first..er.last] && r.rest == s[er.first..]
  {
    Extracted(s[er.first..er.last], s[er.first..])
  }

  /// The queue after `insert_and_limit`'s limiting step: a zero capacity means unlimited
  function Limited<V>(s: seq<Dispatch<V>>, capacity: nat): seq<Dispatch<V>>
  {
    if capacity > 0 then Shrunk(s, capacity) else s
  }

  lemma LimitedKeepsNewest<V>(s: seq<Dispatch<V>>, capacity: nat)
    ensures capacity > 0 ==> |Limited(s, capacity)| <= capacity
    ensures capacity == 0 || |s| <= capacity ==> Limited(s, capacity) == s
    ensures exists k :: 0 <= k <= |s| && Limited(s, capacity) == s[k..]
    ensures Ordered(s) ==> Ordered(Limited(s, capacity))
  {
    ShrunkKeepsNewest(s, capacity);
    if capacity == 0 { assert Limited(s, capacity) == s[0..]; }
  }

  /// Inserting a sequence of dispatches one at a time, limiting after each
  function InsertedAllLimited<V>(s: seq<Dispatch<V>>, ds: seq<Dispatch<V>>, capacity: nat): seq<Dispatch<V>>
    decreases |ds|
  {
    if ds == [] then s else InsertedAllLimited(Limited(Inserted(s, ds[0]), capacity), ds[1..], capacity)
  }

  lemma {:induction false} InsertedAllLimitedOrdered<V>(s: seq<Dispatch<V>>, ds: seq<Dispatch<V>>, capacity: nat)
    requires Ordered(s)
    ensures Ordered(InsertedAllLimited(s, ds, capacity))
    ensures capacity > 0 && |s| <= capacity ==> |InsertedAllLimited(s, ds, capacity)| <= capacity
    decreases |ds|
  {
    if ds != [] {
      InsertedOrdered(s, ds[0]);
      LimitedKeepsNewest(Inserted(s, ds[0]), capacity);
      InsertedAllLimitedOrdered(Limited(Inserted(s, ds[0]), capacity), ds[1..], capacity);
    }
  }

  /// With no capacity limit, inserting one at a time is plain repeated insertion
  lemma {:induction false} InsertedAllUnlimited<V>(s: seq<Dispatch<V>>, ds: seq<Dispatch<V>>)
    ensures InsertedAllLimited(s, ds, 0) == InsertedAll(s, ds)
    decreases |ds|
  {
    if ds != [] {
      InsertedAllUnlimited(Inserted(s, ds[0]), ds[1..]);
    }
  }

  /// A captor's policy-visible state
  datatype View<V> = View(policy: Policy, items: seq<Dispatch<V>>, latched: Option<Dispatch<V>>, previousStamp: int)

  /// What one capture-style call decides: its state, the window it leaves (drivers establish one), its output,
  /// and the captor's policy-visible state afterwards
  datatype Step<V> = Step(state: State, range: CaptureRange, output: seq<Dispatch<V>>, after: View<V>)

  /// What one extraction outputs, and the captor's policy-visible state afterwards
  datatype Taken<V> = Taken(output: seq<Dispatch<V>>, after: View<V>)

  /// A captor: its policy, its dispatch queue, its capacity, its queue monitor and the policy's own state
  class Captor<V> {
    const policy: Policy
    const queue: DispatchQueue<V>
    const monitor: QueueMonitor<V>
    var capacity: nat
    /// The (range, state) pairs handed to the queue monitor's `update`, oldest first
    var monitorLog: seq<(CaptureRange, State)>
    /// Latched: the dispatch last latched
    var latched: Option<Dispatch<V>>
    /// Throttled: the stamp of the last dispatch captured
    var previousStamp: int

    /// A captor over an initial container, with no capacity limit; its policy constructor must not throw
    constructor (policy: Policy, container: seq<Dispatch<V>>, monitor: QueueMonitor<V>)
      requires ConstructionError(policy).None?
      ensures this.policy == policy && this.monitor == monitor
      ensures fresh(queue) && queue.items == container
      ensures capacity == 0 && monitorLog == [] && latched == None && previousStamp == STAMP_MIN
    {
      this.policy := policy;
      this.monitor := monitor;
      queue := new DispatchQueue(container);
      capacity := 0;
      monitorLog := [];
      latched := None;
      previousStamp := STAMP_MIN;
    }

    function Size(): (n: nat)
      reads this, queue
      ensures n == |queue.items|
    {
      queue.Size()
    }

    function GetCapacity(): nat
      reads this
    {
      capacity
    }

    method SetCapacity(n: nat)
      modifies this`capacity
      ensures capacity == n
    {
      capacity := n;
    }

    /// `insert_and_limit`: sorted insertion, then the oldest data is dropped beyond a non-zero capacity
    method InsertAndLimit(d: Dispatch<V>)
      modifies queue
      ensures queue.items == Limited(Inserted(old(queue.items), d), capacity)
      ensures Ordered(old(queue.items)) ==> Ordered(queue.items)
      ensures capacity > 0 ==> |queue.items| <= capacity
    {
      queue.Insert(d);
      if capacity > 0 {
        queue.ShrinkToFit(capacity);
      }
      LimitedKeepsNewest(Inserted(old(queue.items), d), capacity);
      if Ordered(old(queue.items)) {
        InsertedOrdered(old(queue.items), d);
      }
    }

    /// `inject`: adds one dispatch
    method Inject(d: Dispatch<V>)
      modifies queue
      ensures queue.items == Limited(Inserted(old(queue.items), d), capacity)
    {
      InsertAndLimit(d);
    }

    /// `insert(first, last)`: adds a range of dispatches, one at a time, in the given order
    method InsertRange(ds: seq<Dispatch<V>>)
      modifies queue
      ensures queue.items == InsertedAllLimited(old(queue.items), ds, capacity)
      ensures Ordered(old(queue.items)) ==> Ordered(queue.items)
    {
      for i := 0 to |ds|
        invariant InsertedAllLimited(queue.items, ds[i..], capacity) == InsertedAllLimited(old(queue.items), ds, capacity)
      {
        assert ds[i..][1..] == ds[i + 1..];
        InsertAndLimit(ds[i]);
      }
      if Ordered(old(queue.items)) {
        InsertedAllLimitedOrdered(old(queue.items), ds, capacity);
      }
    }

    /// `remove(t)`: drops all data stamped before `t`
    method Remove(t: int)
      modifies queue
      ensures queue.items == old(queue.items)[LeadingBelow(old(queue.items), t)..]
    {
      queue.RemoveBefore(t);
    }

    /// `get_available_stamp_range`: the window spanning the oldest and newest queued stamps; a default window
    /// when the queue is empty
    function AvailableStampRange(): CaptureRange
      reads this, queue
    {
      if queue.Empty() then DefaultRange() else CaptureRange(queue.OldestStamp(), queue.NewestStamp())
    }

    /// `inspect(cb)`: applies `cb` to every queued dispatch, oldest first
    method Inspect<R>(cb: Dispatch<V> -> R) returns (visited: seq<R>)
      ensures |visited| == |queue.items|
      ensures forall i :: 0 <= i < |queue.items| ==> visited[i] == cb(queue.items[i])
    {
      visited := [];
      var i := 0;
      while i < |queue.items|
        invariant 0 <= i <= |queue.items| && |visited| == i
        invariant forall j :: 0 <= j < i ==> visited[j] == cb(queue.items[j])
      {
        visited := visited + [cb(queue.items[i])];
        i := i + 1;
      }
    }

    /// `update_queue_monitor(range, state)`: hands the synchronization outcome to the queue monitor
    method UpdateQueueMonitor(range: CaptureRange, state: State)
      modifies this`monitorLog
      ensures monitorLog == old(monitorLog) + [(range, state)]
    {
      monitorLog := monitorLog + [(range, state)];
    }
  }

  ghost function ViewOf<V>(c: Captor<V>): View<V>
    reads c`latched, c`previousStamp, c.queue`items
  {
    View(c.policy, c.queue.items, c.latched, c.previousStamp)
  }

  /// The available stamp range is not valid exactly when the queue is empty; otherwise it spans every stamp
  lemma AvailableStampRangeSpans<V>(c: Captor<V>)
    requires Ordered(c.queue.items)
    ensures c.AvailableStampRange().Valid() <==> c.queue.items != []
    ensures forall i :: 0 <= i < |c.queue.items| ==>
      c.AvailableStampRange().lower <= c.queue.items[i].stamp <= c.AvailableStampRange().upper
  {
    if c.queue.items != [] {
      OrderedBounds(c.queue.items);
    }
  }
}
