// The follower base: the queue-monitor precondition on capture, and the forwarding of every follower operation
// to its policy.

module Followers {
  import opened Dispatches
  import opened DispatchQueues
  import opened Captors
  import FollowerBefore
  import FollowerAnyBefore
  import FollowerClosestBefore
  import FollowerCountBefore
  import FollowerLatched
  import FollowerMatchedStamp
  import FollowerRanged
  import FollowerExact

  /// Followers implemented by `capture` (and, except the legacy Exact, `dry_capture`)
  predicate Captures(p: Policy) { p.ClosestBefore? || p.Ranged? || p.Exact? }

  predicate DryCaptures(p: Policy) { p.ClosestBefore? || p.Ranged? }

  /// Followers implemented by `locate` and `extract`
  predicate LocatesAndExtracts(p: Policy) { p.Locates() && !p.IsDriver() }

  /// What a queue and window are capturable with: Ranged needs the range it copies not to be reversed
  predicate Admits<V>(p: Policy, s: seq<Dispatch<V>>, range: CaptureRange)
  {
    p.Ranged? ==> FollowerRanged.CopyInOrder(s, range, p.delay)
  }

  /// The follower policy's own `capture_follower_impl`
  function PolicyCapture<V>(p: Policy, s: seq<Dispatch<V>>, range: CaptureRange): (r: Captured<V>)
    requires Captures(p) && Admits(p, s, range)
    ensures r.state in {Primed, Abort, Retry}
  {
    if p.ClosestBefore? then FollowerClosestBefore.Capture(s, range, p.period, p.delay)
    else if p.Ranged? then FollowerRanged.Capture(s, range, p.delay)
    else FollowerExact.Capture(s, range)
  }

  /// `capture_policy_impl`: the policy runs only when the queue monitor accepts the queue and window; otherwise
  /// SKIP_FRAME_QUEUE_PRECONDITION and nothing changes. The legacy Exact follower has no monitor.
  function Capture<V>(v: View<V>, monitor: QueueMonitor<V>, range: CaptureRange): Step<V>
    requires Captures(v.policy) && Admits(v.policy, v.items, range)
  {
    if !v.policy.Exact? && !Check(monitor, v.items, range) then Step(SkipFrameQueuePrecondition, range, [], v)
    else
      var r := PolicyCapture(v.policy, v.items, range);
      Step(r.state, range, r.output, v.(items := r.rest))
  }

  /// The monitor's veto is the only source of SKIP_FRAME_QUEUE_PRECONDITION, and a vetoed capture outputs and
  /// changes nothing; an accepted one ends PRIMED, ABORT or RETRY, changes only the queue, and leaves the window
  lemma MonitorGatesCapture<V>(v: View<V>, monitor: QueueMonitor<V>, range: CaptureRange)
    requires Captures(v.policy) && !v.policy.Exact? && Admits(v.policy, v.items, range)
    ensures var r := Capture(v, monitor, range);
      (r.state == SkipFrameQueuePrecondition <==> !Check(monitor, v.items, range))
      && (r.state == SkipFrameQueuePrecondition ==> r.output == [] && r.after == v)
      && (r.state != SkipFrameQueuePrecondition ==>
            r.state in {Primed, Abort, Retry} && r.after == v.(items := r.after.items))
      && r.range == range
  {}

  /// The default monitor never vetoes
  lemma DefaultMonitorNeverSkips<V>(v: View<V>, range: CaptureRange)
    requires Captures(v.policy) && Admits(v.policy, v.items, range)
    ensures Capture(v, DefaultMonitor, range).state != SkipFrameQueuePrecondition
  {}

  /// `dry_capture_policy_impl`: forwarded to the policy, bypassing the monitor
  function DryCapture<V>(v: View<V>, range: CaptureRange): Step<V>
    requires DryCaptures(v.policy)
  {
    var r := if v.policy.ClosestBefore? then FollowerClosestBefore.DryCapture(v.items, range, v.policy.period, v.policy.delay)
      else FollowerRanged.DryCapture(v.items, range, v.policy.delay);
    Step(r.state, range, [], v.(items := r.rest))
  }

  /// With the monitor accepting, a dry capture decides the same state and leaves the same queue as a capture
  lemma DryCaptureAgrees<V>(v: View<V>, monitor: QueueMonitor<V>, range: CaptureRange)
    requires DryCaptures(v.policy) && Admits(v.policy, v.items, range) && Check(monitor, v.items, range)
    ensures DryCapture(v, range).state == Capture(v, monitor, range).state
    ensures DryCapture(v, range).after == Capture(v, monitor, range).after
    ensures DryCapture(v, range).output == []
  {}

  /// `locate_follower_impl` of the locate-and-extract followers
  function Locate<V>(v: View<V>, range: CaptureRange): (r: Located)
    requires LocatesAndExtracts(v.policy)
    ensures r.extraction.Within(|v.items|)
  {
    match v.policy
    case Before(delay) => FollowerBefore.Location(v.items, range, delay)
    case AnyBefore(delay) => FollowerAnyBefore.Location(v.items, range, delay)
    case CountBefore(count, delay) => FollowerCountBefore.Location(v.items, range, count, delay)
    case Latched(minPeriod) => FollowerLatched.Location(v.items, range, minPeriod, v.latched)
    case MatchedStamp => FollowerMatchedStamp.Location(v.items, range)
  }

  /// `extract_follower_impl`: Before and AnyBefore move their selection out; CountBefore and MatchedStamp copy it
  /// and drop what is older; Latched outputs its latch
  function Extract<V>(v: View<V>, er: ExtractionRange): Taken<V>
    requires LocatesAndExtracts(v.policy) && er.Within(|v.items|)
  {
    if v.policy.Before? || v.policy.AnyBefore? then
      var e := Moved(v.items, er); Taken(e.output, v.(items := e.rest))
    else if v.policy.CountBefore? || v.policy.MatchedStamp? then
      var e := Copied(v.items, er); Taken(e.output, v.(items := e.rest))
    else
      var e := FollowerLatched.Extraction(v.items, er, v.latched); Taken(e.output, v.(items := e.rest, latched := e.latched))
  }

  /// An extraction never grows the queue, keeps a suffix of it, and only Latched touches policy state
  lemma ExtractKeepsSuffix<V>(v: View<V>, er: ExtractionRange)
    requires LocatesAndExtracts(v.policy) && er.Within(|v.items|)
    ensures var t := Extract(v, er);
      (exists k :: 0 <= k <= |v.items| && t.after.items == v.items[k..])
      && t.after.policy == v.policy && t.after.previousStamp == v.previousStamp
      && (!v.policy.Latched? ==> t.after.latched == v.latched && |t.output| == er.last - er.first)
  {
    var t := Extract(v, er);
    if v.policy.Before? || v.policy.AnyBefore? {
      SuffixAt(v.items, er.last, t.after.items);
    } else if v.policy.CountBefore? || v.policy.MatchedStamp? {
      SuffixAt(v.items, er.first, t.after.items);
    } else if er.NonEmpty() {
      SuffixAt(v.items, er.last - 1, t.after.items);
    } else {
      SuffixAt(v.items, 0, t.after.items);
    }
  }

  lemma SuffixAt<T>(s: seq<T>, k: nat, rest: seq<T>)
    requires k <= |s| && rest == s[k..]
    ensures exists j :: 0 <= j <= |s| && rest == s[j..]
  {}

  /// The stamp before which a follower's `abort(t)` removes data; None when it removes nothing
  function AbortBound(p: Policy, t: int): Option<int>
  {
    match p
    case Before(delay) => Some(t - delay)
    case AnyBefore(delay) => Some(t - delay)
    case ClosestBefore(period, delay) => Some(t - delay - period)
    case MatchedStamp => Some(t)
    case Exact => Some(t)
    case _ => None
  }

  method CapturePolicy<V>(c: Captor<V>, range: CaptureRange) returns (state: State, output: seq<Dispatch<V>>)
    requires Captures(c.policy) && Admits(c.policy, c.queue.items, range)
    modifies c.queue
    ensures Step(state, range, output, ViewOf(c)) == Capture(old(ViewOf(c)), c.monitor, range)
  {
    if !c.policy.Exact? && !Check(c.monitor, c.queue.items, range) {
      return SkipFrameQueuePrecondition, [];
    }
    if c.policy.ClosestBefore? {
      state, output := FollowerClosestBefore.CaptureFollower(c, range);
    } else if c.policy.Ranged? {
      state, output := FollowerRanged.CaptureFollower(c, range);
    } else {
      state, output := FollowerExact.CaptureFollower(c, range);
    }
  }

  method DryCapturePolicy<V>(c: Captor<V>, range: CaptureRange) returns (state: State)
    requires DryCaptures(c.policy)
    modifies c.queue
    ensures Step(state, range, [], ViewOf(c)) == DryCapture(old(ViewOf(c)), range)
  {
    if c.policy.ClosestBefore? {
      state := FollowerClosestBefore.DryCaptureFollower(c, range);
    } else {
      state := FollowerRanged.DryCaptureFollower(c, range);
    }
  }

  method LocatePolicy<V>(c: Captor<V>, range: CaptureRange) returns (r: Located)
    requires LocatesAndExtracts(c.policy)
    ensures r == Locate(ViewOf(c), range)
  {
    match c.policy
    case Before(_) => r := FollowerBefore.LocateFollower(c, range);
    case AnyBefore(_) => r := FollowerAnyBefore.LocateFollower(c, range);
    case CountBefore(_, _) => r := FollowerCountBefore.LocateFollower(c, range);
    case Latched(_) => r := FollowerLatched.LocateFollower(c, range);
    case MatchedStamp => r := FollowerMatchedStamp.LocateFollower(c, range);
  }

  method ExtractPolicy<V>(c: Captor<V>, er: ExtractionRange) returns (output: seq<Dispatch<V>>)
    requires LocatesAndExtracts(c.policy) && er.Within(|c.queue.items|)
    modifies c`latched, c.queue
    ensures Taken(output, ViewOf(c)) == Extract(old(ViewOf(c)), er)
  {
    match c.policy
    case Before(_) => output := FollowerBefore.ExtractFollower(c, er);
    case AnyBefore(_) => output := FollowerAnyBefore.ExtractFollower(c, er);
    case CountBefore(_, _) => output := FollowerCountBefore.ExtractFollower(c, er);
    case Latched(_) => output := FollowerLatched.ExtractFollower(c, er);
    case MatchedStamp => output := FollowerMatchedStamp.ExtractFollower(c, er);
  }

  /// `abort_policy_impl`, forwarded to the policy
  method AbortPolicy<V>(c: Captor<V>, t: int)
    requires !c.policy.IsDriver()
    modifies c.queue
    ensures AbortBound(c.policy, t).Some? ==>
      c.queue.items == old(c.queue.items)[LeadingBelow(old(c.queue.items), AbortBound(c.policy, t).value)..]
    ensures AbortBound(c.policy, t).None? ==> c.queue.items == old(c.queue.items)
  {
    match c.policy
    case Before(_) => FollowerBefore.AbortFollower(c, t);
    case AnyBefore(_) => FollowerAnyBefore.AbortFollower(c, t);
    case ClosestBefore(_, _) => FollowerClosestBefore.AbortFollower(c, t);
    case MatchedStamp => FollowerMatchedStamp.AbortFollower(c, t);
    case Exact => FollowerExact.AbortFollower(c, t);
    case CountBefore(_, _) =>
    case Latched(_) =>
    case Ranged(_) =>
  }

  /// `reset_policy_impl`, forwarded to the policy: only Latched holds state to forget
  method ResetPolicy<V>(c: Captor<V>)
    requires !c.policy.IsDriver()
    modifies c`latched
    ensures c.latched == if c.policy.Latched? then None else old(c.latched)
  {
    if c.policy.Latched? {
      FollowerLatched.ResetFollower(c);
    }
  }
}
