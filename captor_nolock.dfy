// The single-threaded captor: `capture`, `dry_capture`, `abort` and `reset` over whichever policy the captor
// carries, evaluated once, with no waiting.

module CaptorNoLock {
  import opened Dispatches
  import opened DispatchQueues
  import opened Captors
  import Drivers
  import Followers

  /// Policies that implement `capture` (the others implement `locate`/`extract`, used by the synchronizer)
  predicate CaptureApi(p: Policy) { Drivers.Captures(p) || Followers.Captures(p) }

  /// What a window must satisfy for a policy's capture to be defined
  predicate Capturable<V>(p: Policy, s: seq<Dispatch<V>>, range: CaptureRange)
  {
    CaptureApi(p) && ConstructionError(p).None? && Followers.Admits(p, s, range)
  }

  /// `capture_impl`: the policy's capture, evaluated exactly once
  function CaptureStep<V>(v: View<V>, monitor: QueueMonitor<V>, range: CaptureRange): Step<V>
    requires Capturable(v.policy, v.items, range)
  {
    if v.policy.IsDriver() then Drivers.Capture(v, range) else Followers.Capture(v, monitor, range)
  }

  /// `dry_capture_impl`: the policy's dry capture (the legacy Exact follower has none)
  function DryCaptureStep<V>(v: View<V>, range: CaptureRange): Step<V>
    requires CaptureApi(v.policy) && ConstructionError(v.policy).None? && !v.policy.Exact?
  {
    if v.policy.IsDriver() then Drivers.DryCapture(v, range) else Followers.DryCapture(v, range)
  }

  /// The stamp before which `abort(t)` removes data, None when the policy's abort removes nothing
  function AbortBound(p: Policy, t: int): Option<int>
  {
    if p.IsDriver() then Drivers.AbortBound(p, t) else Followers.AbortBound(p, t)
  }

  /// `abort_impl`: the policy's abort
  function AbortStep<V>(v: View<V>, t: int): View<V>
  {
    var b := AbortBound(v.policy, t);
    if b.Some? then v.(items := v.items[LeadingBelow(v.items, b.value)..]) else v
  }

  /// `reset_impl`: the policy's reset (Throttled forgets its previous stamp, Latched its latch), then the queue
  /// is cleared
  function ResetStep<V>(v: View<V>): View<V>
  {
    v.(items := [],
       latched := if v.policy.Latched? then None else v.latched,
       previousStamp := if v.policy.Throttled? then STAMP_MIN else v.previousStamp)
  }

  /// Once reset, a captor has nothing to give: every capture and dry capture outputs nothing and ends RETRY (or
  /// SKIP_FRAME_QUEUE_PRECONDITION when the monitor vetoes), and the queue stays empty
  lemma ResetLeavesNothing<V>(v: View<V>, monitor: QueueMonitor<V>, range: CaptureRange)
    requires Capturable(v.policy, v.items, range)
    ensures var r := CaptureStep(ResetStep(v), monitor, range);
      r.output == [] && r.after.items == [] && r.state in {Retry, SkipFrameQueuePrecondition}
      && (Check(monitor, [], range) ==> r.state == Retry)
    ensures !v.policy.Exact? ==>
      var d := DryCaptureStep(ResetStep(v), range); d.state == Retry && d.after.items == []
  {}

  /// On an ordered queue, abort removes exactly the dispatches stamped before the policy's bound and keeps the
  /// rest in order; a policy without a bound keeps everything
  lemma AbortDropsBelowBound<V>(v: View<V>, t: int)
    requires Ordered(v.items)
    ensures var a := AbortStep(v, t);
      a == v.(items := a.items) && Ordered(a.items)
      && (exists k :: 0 <= k <= |v.items| && a.items == v.items[k..])
      && (AbortBound(v.policy, t).None? ==> a.items == v.items)
      && (AbortBound(v.policy, t).Some? ==>
            (forall i :: 0 <= i < |a.items| ==> a.items[i].stamp >= AbortBound(v.policy, t).value)
            && (forall i :: 0 <= i < |v.items| && v.items[i].stamp >= AbortBound(v.policy, t).value ==> v.items[i] in a.items))
  {
    var b := AbortBound(v.policy, t);
    if b.Some? {
      var k := LeadingBelow(v.items, b.value);
      DroppedBelow(v.items, b.value);
      assert AbortStep(v, t).items == v.items[k..];
    } else {
      assert v.items == v.items[0..];
    }
  }

  /// Only the monitor, and only on a follower, can turn a capture into SKIP_FRAME_QUEUE_PRECONDITION
  lemma OnlyFollowersSkip<V>(v: View<V>, monitor: QueueMonitor<V>, range: CaptureRange)
    requires Capturable(v.policy, v.items, range) && Ordered(v.items)
    ensures CaptureStep(v, monitor, range).state == SkipFrameQueuePrecondition <==>
      !v.policy.IsDriver() && !v.policy.Exact? && !Check(monitor, v.items, range)
  {
    if v.policy.IsDriver() {
      Drivers.CaptureConsumesWindow(v, range);
    } else {
      var r := Followers.PolicyCapture(v.policy, v.items, range);
    }
  }

  method Capture<V>(c: Captor<V>, range: CaptureRange) returns (state: State, range': CaptureRange, output: seq<Dispatch<V>>)
    requires Capturable(c.policy, c.queue.items, range)
    modifies c`previousStamp, c.queue
    ensures Step(state, range', output, ViewOf(c)) == CaptureStep(old(ViewOf(c)), c.monitor, range)
  {
    if c.policy.IsDriver() {
      state, range', output := Drivers.CapturePolicy(c, range);
    } else {
      state, output := Followers.CapturePolicy(c, range);
      range' := range;
    }
  }

  method DryCapture<V>(c: Captor<V>, range: CaptureRange) returns (state: State, range': CaptureRange)
    requires CaptureApi(c.policy) && ConstructionError(c.policy).None? && !c.policy.Exact?
    modifies c.queue
    ensures Step(state, range', [], ViewOf(c)) == DryCaptureStep(old(ViewOf(c)), range)
  {
    if c.policy.IsDriver() {
      state, range' := Drivers.DryCapturePolicy(c, range);
    } else {
      state := Followers.DryCapturePolicy(c, range);
      range' := range;
    }
  }

  method Abort<V>(c: Captor<V>, t: int)
    modifies c.queue
    ensures ViewOf(c) == AbortStep(old(ViewOf(c)), t)
  {
    if c.policy.IsDriver() {
      Drivers.AbortPolicy(c, t);
    } else {
      Followers.AbortPolicy(c, t);
    }
  }

  method Reset<V>(c: Captor<V>)
    modifies c`latched, c`previousStamp, c.queue
    ensures ViewOf(c) == ResetStep(old(ViewOf(c)))
  {
    if c.policy.IsDriver() {
      Drivers.ResetPolicy(c);
    } else {
      Followers.ResetPolicy(c);
    }
    c.queue.Clear();
  }
}
