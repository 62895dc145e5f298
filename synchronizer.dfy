// Synchronizer::capture: an all-or-nothing capture across a lead (a driver or a fixed window) and its followers,
// located in order, and extracted only unless the outcome is RETRY; plus `remove`, `abort` and `reset` over the
// same captor sequence.

module Synchronizer {
  import opened Dispatches
  import opened DispatchQueues
  import opened Captors
  import Drivers
  import Followers
  import CaptorNoLock

  /// Synchronization summary: the final state and the window the lead established
  datatype SyncResult = SyncResult(state: State, range: CaptureRange)
  {
    /// `operator bool`: synchronization succeeded
    predicate AsBool() { state == Primed }
  }

  /// A default-constructed result: RETRY over a default window
  function DefaultResult(): (r: SyncResult)
    ensures r.state == Retry && !r.AsBool() && !r.range.Valid()
  {
    SyncResult(Retry, DefaultRange())
  }

  /// The first element of the captor sequence: a fixed window, or a driver captor
  datatype Lead<V> = FixedRange(range: CaptureRange) | Driver(captor: Captor<V>)

  /// The lead's policy-visible state
  datatype LeadView<V> = FixedLead(range: CaptureRange) | DriverLead(view: View<V>)

  /// What locating the lead decides
  datatype LeadLocated = LeadLocated(result: SyncResult, extraction: ExtractionRange)

  /// What locating the followers decides: the final state and each follower's extraction range
  datatype FollowersLocated = FollowersLocated(state: State, extractions: seq<ExtractionRange>)

  /// The whole synchronization: result, what the lead's extraction does (None for a fixed window), what each
  /// follower's does
  datatype Synced<V> = Synced(result: SyncResult, lead: Option<Taken<V>>, followers: seq<Taken<V>>)

  /// A lead with a locate step: a fixed window, or a Batch driver (the only driver that implements `locate`)
  predicate LeadValid<V>(lead: LeadView<V>)
  {
    lead.DriverLead? ==> lead.view.policy.Batch? && lead.view.policy.batchSize > 0
  }

  /// `captor_sequence_valid`: a driver followed by any number of followers, or a fixed window followed by at
  /// least one; every follower here locates and extracts
  predicate SequenceValid<V>(lead: LeadView<V>, views: seq<View<V>>)
  {
    LeadValid(lead) && (lead.FixedLead? ==> |views| > 0)
    && forall k :: 0 <= k < |views| ==> Followers.LocatesAndExtracts(views[k].policy)
  }

  /// LocateHelper on the lead: a fixed window is PRIMED unless it ends before the lower bound (ABORT); a driver
  /// locates from the default window, and a PRIMED window ending before the lower bound becomes
  /// ERROR_DRIVER_LOWER_BOUND_EXCEEDED
  function LocateLead<V>(lead: LeadView<V>, lowerBound: int): (r: LeadLocated)
    requires LeadValid(lead)
    ensures lead.DriverLead? ==> r.extraction.Within(|lead.view.items|)
  {
    match lead
    case FixedLead(range) => LeadLocated(SyncResult(if range.upper < lowerBound then Abort else Primed, range), NO_EXTRACTION)
    case DriverLead(v) =>
      var l := Drivers.Locate(v, DefaultResult().range);
      var state := if l.state == Primed && l.range.upper < lowerBound then ErrorDriverLowerBoundExceeded else l.state;
      LeadLocated(SyncResult(state, l.range), l.extraction)
  }

  /// LocateHelper on the followers, in order: each is located against the lead's window only while the state is
  /// still PRIMED, and takes over the state; the others keep an empty extraction range
  function LocateFollowers<V>(views: seq<View<V>>, range: CaptureRange, state: State): (r: FollowersLocated)
    requires forall k :: 0 <= k < |views| ==> Followers.LocatesAndExtracts(views[k].policy)
    ensures |r.extractions| == |views|
    ensures forall k :: 0 <= k < |views| ==> r.extractions[k].Within(|views[k].items|)
    decreases |views|
  {
    if views == [] then FollowersLocated(state, [])
    else
      var l := if state == Primed then Followers.Locate(views[0], range) else Located(state, NO_EXTRACTION);
      var tail := LocateFollowers(views[1..], range, l.state);
      FollowersLocated(tail.state, [l.extraction] + tail.extractions)
  }

  /// ExtractHelper on the followers: each extracts its own range
  function ExtractAll<V>(views: seq<View<V>>, ers: seq<ExtractionRange>): (r: seq<Taken<V>>)
    requires |ers| == |views|
    requires forall k :: 0 <= k < |views| ==> Followers.LocatesAndExtracts(views[k].policy) && ers[k].Within(|views[k].items|)
    ensures |r| == |views|
  {
    seq(|views|, k requires 0 <= k < |views| => Followers.Extract(views[k], ers[k]))
  }

  /// What a RETRY leaves: no output, nothing changed
  function Untouched<V>(views: seq<View<V>>): (r: seq<Taken<V>>)
    ensures |r| == |views|
  {
    seq(|views|, k requires 0 <= k < |views| => Taken([], views[k]))
  }

  /// `capture`: locate the lead, then the followers; on RETRY return untouched, otherwise extract every captor
  function Sync<V>(lead: LeadView<V>, views: seq<View<V>>, lowerBound: int): (r: Synced<V>)
    requires SequenceValid(lead, views)
    ensures |r.followers| == |views| && (r.lead.Some? <==> lead.DriverLead?)
  {
    var l := LocateLead(lead, lowerBound);
    var f := LocateFollowers(views, l.result.range, l.result.state);
    var result := SyncResult(f.state, l.result.range);
    if f.state == Retry then
      Synced(result, if lead.DriverLead? then Some(Taken([], lead.view)) else None, Untouched(views))
    else
      Synced(result, if lead.DriverLead? then Some(Drivers.Extract(lead.view, l.extraction)) else None,
             ExtractAll(views, f.extractions))
  }

  /// Once the state is not PRIMED no further follower is located: the state is final and every remaining
  /// extraction range is empty
  lemma {:induction false} FailureIsFinal<V>(views: seq<View<V>>, range: CaptureRange, state: State)
    requires forall k :: 0 <= k < |views| ==> Followers.LocatesAndExtracts(views[k].policy)
    requires state != Primed
    ensures var r := LocateFollowers(views, range, state);
      r.state == state && forall k :: 0 <= k < |views| ==> r.extractions[k] == NO_EXTRACTION
    decreases |views|
  {
    if views != [] {
      FailureIsFinal(views[1..], range, state);
    }
  }

  /// Located from PRIMED, the followers end PRIMED exactly when every one of them locates PRIMED against the
  /// window, and each extraction range is then that follower's own
  lemma {:induction false} PrimedIffAllPrimed<V>(views: seq<View<V>>, range: CaptureRange)
    requires forall k :: 0 <= k < |views| ==> Followers.LocatesAndExtracts(views[k].policy)
    ensures var r := LocateFollowers(views, range, Primed);
      (r.state == Primed <==> forall k :: 0 <= k < |views| ==> Followers.Locate(views[k], range).state == Primed)
      && (r.state == Primed ==>
            forall k :: 0 <= k < |views| ==> r.extractions[k] == Followers.Locate(views[k], range).extraction)
    decreases |views|
  {
    if views != [] {
      var l := Followers.Locate(views[0], range);
      var tail := LocateFollowers(views[1..], range, l.state);
      if l.state == Primed {
        PrimedIffAllPrimed(views[1..], range);
        assert forall k :: 1 <= k < |views| ==> views[1..][k - 1] == views[k];
      } else {
        FailureIsFinal(views[1..], range, l.state);
      }
    }
  }

  /// The first follower to locate other than PRIMED decides the final state; the followers before it keep their
  /// own extraction ranges and those after it get empty ones
  lemma {:induction false} FirstFailureDecides<V>(views: seq<View<V>>, range: CaptureRange, n: nat)
    requires forall k :: 0 <= k < |views| ==> Followers.LocatesAndExtracts(views[k].policy)
    requires n < |views| && Followers.Locate(views[n], range).state != Primed
    requires forall k :: 0 <= k < n ==> Followers.Locate(views[k], range).state == Primed
    ensures var r := LocateFollowers(views, range, Primed);
      r.state == Followers.Locate(views[n], range).state
      && (forall k :: 0 <= k <= n ==> r.extractions[k] == Followers.Locate(views[k], range).extraction)
      && (forall k :: n < k < |views| ==> r.extractions[k] == NO_EXTRACTION)
    decreases n
  {
    var l := Followers.Locate(views[0], range);
    if n == 0 {
      FailureIsFinal(views[1..], range, l.state);
    } else {
      FirstFailureDecides(views[1..], range, n - 1);
      assert forall k :: 1 <= k < |views| ==> views[1..][k - 1] == views[k];
    }
  }

  /// A synchronization succeeds exactly when the lead locates PRIMED within the lower bound and every follower
  /// locates PRIMED against the lead's window
  lemma SyncPrimedIff<V>(lead: LeadView<V>, views: seq<View<V>>, lowerBound: int)
    requires SequenceValid(lead, views)
    ensures var l := LocateLead(lead, lowerBound);
      Sync(lead, views, lowerBound).result.AsBool() <==>
        l.result.state == Primed
        && forall k :: 0 <= k < |views| ==> Followers.Locate(views[k], l.result.range).state == Primed
  {
    var l := LocateLead(lead, lowerBound);
    if l.result.state == Primed {
      PrimedIffAllPrimed(views, l.result.range);
    } else {
      FailureIsFinal(views, l.result.range, l.result.state);
    }
  }

  /// RETRY extracts nothing: no captor outputs anything or changes
  lemma SyncRetryTouchesNothing<V>(lead: LeadView<V>, views: seq<View<V>>, lowerBound: int)
    requires SequenceValid(lead, views) && Sync(lead, views, lowerBound).result.state == Retry
    ensures var r := Sync(lead, views, lowerBound);
      (lead.DriverLead? ==> r.lead == Some(Taken([], lead.view)))
      && forall k :: 0 <= k < |views| ==> r.followers[k] == Taken([], views[k])
  {}

  /// A lead that fails the lower-bound guard still has its window extracted, while no follower is located: a
  /// fixed window ends ABORT, a driver ends ERROR_DRIVER_LOWER_BOUND_EXCEEDED with its batch consumed
  lemma LowerBoundGuard<V>(lead: LeadView<V>, views: seq<View<V>>, lowerBound: int)
    requires SequenceValid(lead, views)
    ensures var l := LocateLead(lead, lowerBound);
      var r := Sync(lead, views, lowerBound);
      (lead.FixedLead? ==> (l.result.state == Abort <==> lead.range.upper < lowerBound))
      && (l.result.state in {Abort, ErrorDriverLowerBoundExceeded} ==>
            r.result.state == l.result.state
            && (lead.DriverLead? ==> r.lead == Some(Drivers.Extract(lead.view, l.extraction)))
            && forall k :: 0 <= k < |views| ==> r.followers[k] == Followers.Extract(views[k], NO_EXTRACTION))
  {
    var l := LocateLead(lead, lowerBound);
    if l.result.state != Primed {
      FailureIsFinal(views, l.result.range, l.result.state);
    }
  }

  ghost function LeadViewOf<V>(lead: Lead<V>): LeadView<V>
    reads if lead.Driver? then {lead.captor} else {}, if lead.Driver? then {lead.captor.queue} else {}
  {
    match lead
    case FixedRange(range) => FixedLead(range)
    case Driver(c) => DriverLead(ViewOf(c))
  }

  ghost function ViewsOf<V>(cs: seq<Captor<V>>): (vs: seq<View<V>>)
    reads set c | c in cs, set c | c in cs :: c.queue
    ensures |vs| == |cs| && forall k :: 0 <= k < |cs| ==> vs[k] == ViewOf(cs[k])
  {
    seq(|cs|, k requires 0 <= k < |cs| reads set c | c in cs, set c | c in cs :: c.queue => ViewOf(cs[k]))
  }

  /// Every captor of the sequence, lead first
  function Sequence<V>(lead: Lead<V>, followers: seq<Captor<V>>): seq<Captor<V>>
  {
    (if lead.Driver? then [lead.captor] else []) + followers
  }

  /// Distinct captors over distinct queues
  predicate Distinct<V>(cs: seq<Captor<V>>)
  {
    forall i, j :: 0 <= i < j < |cs| ==> cs[i] != cs[j] && cs[i].queue != cs[j].queue
  }

  /// `captor_sequence_valid` on captors
  predicate Shaped<V>(lead: Lead<V>, followers: seq<Captor<V>>)
  {
    (lead.Driver? ==> lead.captor.policy.Batch? && lead.captor.policy.batchSize > 0)
    && (lead.FixedRange? ==> |followers| > 0)
    && (forall k :: 0 <= k < |followers| ==> Followers.LocatesAndExtracts(followers[k].policy))
  }

  /// The captor sequence the synchronizer accepts: a valid sequence, no captor or queue of it shared
  predicate Accepts<V>(lead: Lead<V>, followers: seq<Captor<V>>)
  {
    Shaped(lead, followers) && Distinct(Sequence(lead, followers))
  }

  /// In a sequence without shared captors or queues, the one at `i` shares nothing with any other
  lemma DistinctAt<V>(cs: seq<Captor<V>>, i: nat)
    requires Distinct(cs) && i < |cs|
    ensures forall k :: 0 <= k < |cs| && k != i ==> cs[k] != cs[i] && cs[k].queue != cs[i].queue
  {
    forall k | 0 <= k < |cs| && k != i ensures cs[k] != cs[i] && cs[k].queue != cs[i].queue {
      if k < i { assert cs[k] != cs[i]; } else { assert cs[i] != cs[k]; }
    }
  }

  /// The queues of the captors in `cs`
  function Queues<V>(cs: seq<Captor<V>>): set<DispatchQueue<V>>
  {
    set c | c in cs :: c.queue
  }

  /// The lead's captor, if it is one
  function LeadCaptor<V>(lead: Lead<V>): set<Captor<V>>
  {
    if lead.Driver? then {lead.captor} else {}
  }

  /// A sequence without shared captors or queues splits into a lead and followers sharing none
  lemma DistinctParts<V>(lead: Lead<V>, followers: seq<Captor<V>>)
    requires Distinct(Sequence(lead, followers))
    ensures Distinct(followers)
    ensures lead.Driver? ==>
      forall k :: 0 <= k < |followers| ==> followers[k] != lead.captor && followers[k].queue != lead.captor.queue
  {
    var cs := Sequence(lead, followers);
    var d := if lead.Driver? then 1 else 0;
    assert forall k :: 0 <= k < |followers| ==> cs[k + d] == followers[k];
    if lead.Driver? {
      assert cs[0] == lead.captor;
    }
  }

  /// The views of an accepted sequence are a valid sequence
  lemma AcceptedIsValid<V>(lead: Lead<V>, followers: seq<Captor<V>>)
    requires Shaped(lead, followers)
    ensures SequenceValid(LeadViewOf(lead), ViewsOf(followers))
  {}

  /// The result of locating `views` from `state`, given that the first `i` steps produced `ers` and left `current`
  ghost predicate LocatedSoFar<V>(views: seq<View<V>>, range: CaptureRange, state: State, i: nat, current: State,
                                  ers: seq<ExtractionRange>)
    requires forall k :: 0 <= k < |views| ==> Followers.LocatesAndExtracts(views[k].policy)
    requires i <= |views|
  {
    var tail := LocateFollowers(views[i..], range, current);
    LocateFollowers(views, range, state) == FollowersLocated(tail.state, ers + tail.extractions)
  }

  /// One more located (or skipped) follower extends what has been located so far
  lemma LocatedStep<V>(views: seq<View<V>>, range: CaptureRange, state: State, i: nat, current: State,
                       ers: seq<ExtractionRange>, l: Located)
    requires forall k :: 0 <= k < |views| ==> Followers.LocatesAndExtracts(views[k].policy)
    requires i < |views| && LocatedSoFar(views, range, state, i, current, ers)
    requires l == if current == Primed then Followers.Locate(views[i], range) else Located(current, NO_EXTRACTION)
    ensures LocatedSoFar(views, range, state, i + 1, l.state, ers + [l.extraction])
  {
    assert views[i..][0] == views[i] && views[i..][1..] == views[i + 1..];
    var tail := LocateFollowers(views[i + 1..], range, l.state);
    assert ers + ([l.extraction] + tail.extractions) == (ers + [l.extraction]) + tail.extractions;
  }

  method LocateFollowersInOrder<V>(followers: seq<Captor<V>>, range: CaptureRange, state: State) returns (f: FollowersLocated)
    requires forall k :: 0 <= k < |followers| ==> Followers.LocatesAndExtracts(followers[k].policy)
    ensures f == LocateFollowers(ViewsOf(followers), range, state)
  {
    ghost var views := ViewsOf(followers);
    var current := state;
    var ers: seq<ExtractionRange> := [];
    assert views[0..] == views;
    for i := 0 to |followers|
      invariant LocatedSoFar(views, range, state, i, current, ers)
    {
      var l := LocateAt(followers, range, i, current);
      LocatedStep(views, range, state, i, current, ers, l);
      current, ers := l.state, ers + [l.extraction];
    }
    assert views[|followers|..] == [];
    f := FollowersLocated(current, ers);
  }

  /// One step of the fold above: the follower at `i` is located while every earlier one has been PRIMED, and
  /// skipped with the failure passed on otherwise
  method LocateAt<V>(followers: seq<Captor<V>>, range: CaptureRange, i: nat, current: State) returns (l: Located)
    requires i < |followers| && Followers.LocatesAndExtracts(followers[i].policy)
    ensures l == if current == Primed then Followers.Locate(ViewsOf(followers)[i], range) else Located(current, NO_EXTRACTION)
  {
    l := Located(current, NO_EXTRACTION);
    if current == Primed {
      l := Followers.LocatePolicy(followers[i], range);
    }
  }

  method ExtractFollowers<V>(followers: seq<Captor<V>>, ers: seq<ExtractionRange>, result: SyncResult)
    returns (outputs: seq<seq<Dispatch<V>>>)
    requires |ers| == |followers| && Distinct(followers)
    requires forall k :: 0 <= k < |followers| ==>
      Followers.LocatesAndExtracts(followers[k].policy) && ers[k].Within(|followers[k].queue.items|)
    modifies followers`latched, followers`monitorLog, Queues(followers)
    ensures |outputs| == |followers|
    ensures forall k :: 0 <= k < |followers| ==>
      Taken(outputs[k], ViewOf(followers[k])) == Followers.Extract(old(ViewOf(followers[k])), ers[k])
    ensures forall k :: 0 <= k < |followers| ==>
      followers[k].monitorLog == old(followers[k].monitorLog) + [(result.range, result.state)]
  {
    ghost var before := ViewsOf(followers);
    ghost var after := seq(|followers|, k requires 0 <= k < |followers| => Followers.Extract(before[k], ers[k]));
    assert forall k :: 0 <= k < |followers| ==> before[k] == ViewOf(followers[k]);
    outputs := [];
    for i := 0 to |followers|
      invariant |outputs| == i
      invariant forall k :: 0 <= k < i ==>
        Taken(outputs[k], ViewOf(followers[k])) == after[k]
        && followers[k].monitorLog == old(followers[k].monitorLog) + [(result.range, result.state)]
      invariant forall k :: i <= k < |followers| ==>
        ViewOf(followers[k]) == before[k] && followers[k].monitorLog == old(followers[k].monitorLog)
    {
      assert ViewOf(followers[i]) == before[i];
      var output := ExtractAt(followers, followers[i], ers[i], result, i);
      outputs := outputs + [output];
    }
    forall k | 0 <= k < |followers|
      ensures Taken(outputs[k], ViewOf(followers[k])) == Followers.Extract(old(ViewOf(followers[k])), ers[k])
    {
      assert after[k] == Followers.Extract(before[k], ers[k]);
    }
  }

  /// One step of the loop above: the follower at `i` is extracted and reported to, every other one is untouched
  method ExtractAt<V>(followers: seq<Captor<V>>, c: Captor<V>, er: ExtractionRange, result: SyncResult, i: nat)
    returns (output: seq<Dispatch<V>>)
    requires Distinct(followers) && i < |followers| && c == followers[i]
    requires Followers.LocatesAndExtracts(c.policy) && er.Within(|c.queue.items|)
    modifies c`latched, c`monitorLog, c.queue
    ensures Taken(output, ViewOf(c)) == Followers.Extract(old(ViewOf(c)), er)
    ensures c.monitorLog == old(c.monitorLog) + [(result.range, result.state)]
    ensures forall k :: 0 <= k < |followers| && k != i ==>
      ViewOf(followers[k]) == old(ViewOf(followers[k])) && followers[k].monitorLog == old(followers[k].monitorLog)
  {
    DistinctAt(followers, i);
    output := ExtractFollower(c, er, result);
  }

  /// ExtractHelper on a follower: extract its range, then report the result to its queue monitor
  method ExtractFollower<V>(c: Captor<V>, er: ExtractionRange, result: SyncResult) returns (output: seq<Dispatch<V>>)
    requires Followers.LocatesAndExtracts(c.policy) && er.Within(|c.queue.items|)
    modifies c`latched, c`monitorLog, c.queue
    ensures Taken(output, ViewOf(c)) == Followers.Extract(old(ViewOf(c)), er)
    ensures c.monitorLog == old(c.monitorLog) + [(result.range, result.state)]
  {
    output := Followers.ExtractPolicy(c, er);
    c.UpdateQueueMonitor(result.range, result.state);
  }

  /// What a capture reports to each queue monitor: nothing on RETRY, otherwise the window and the final state
  function Reported(result: SyncResult): seq<(CaptureRange, State)>
  {
    if result.state == Retry then [] else [(result.range, result.state)]
  }

  /// `capture`: locate the lead, then the followers in order; on RETRY leave every captor as it was, otherwise
  /// extract every captor's range and report the result to its queue monitor
  method Capture<V>(lead: Lead<V>, followers: seq<Captor<V>>, lowerBound: int)
    returns (result: SyncResult, leadOutput: seq<Dispatch<V>>, outputs: seq<seq<Dispatch<V>>>, ghost sync: Synced<V>)
    requires Accepts(lead, followers)
    modifies followers`latched, followers`monitorLog, set c | c in followers :: c.queue
    modifies LeadCaptor(lead)`monitorLog, set c | c in LeadCaptor(lead) :: c.queue
    ensures SequenceValid(old(LeadViewOf(lead)), old(ViewsOf(followers)))
    ensures sync == Sync(old(LeadViewOf(lead)), old(ViewsOf(followers)), lowerBound)
    ensures result == sync.result
    ensures lead.Driver? ==> sync.lead == Some(Taken(leadOutput, ViewOf(lead.captor)))
    ensures lead.FixedRange? ==> leadOutput == []
    ensures |outputs| == |followers| == |sync.followers|
    ensures forall k :: 0 <= k < |followers| ==> sync.followers[k] == Taken(outputs[k], ViewOf(followers[k]))
    ensures lead.Driver? ==> lead.captor.monitorLog == old(lead.captor.monitorLog) + Reported(result)
    ensures forall k :: 0 <= k < |followers| ==>
      followers[k].monitorLog == old(followers[k].monitorLog) + Reported(result)
  {
    var l, f := LocateAll(lead, followers, lowerBound);
    ghost var views := ViewsOf(followers);
    SyncSteps(LeadViewOf(lead), views, lowerBound, l.extraction, f);
    sync := Sync(LeadViewOf(lead), views, lowerBound);
    result := SyncResult(f.state, l.result.range);
    if result.state == Retry {
      leadOutput, outputs := [], seq(|followers|, k => []);
      assert sync.followers == Untouched(views);
      forall k | 0 <= k < |followers| ensures sync.followers[k] == Taken(outputs[k], ViewOf(followers[k])) {
        assert Untouched(views)[k] == Taken([], views[k]);
      }
      return;
    }
    ghost var expected := ExtractAll(views, f.extractions);
    assert sync.followers == expected;
    leadOutput, outputs := ExtractEvery(lead, followers, l.extraction, f.extractions, result);
    forall k | 0 <= k < |followers| ensures sync.followers[k] == Taken(outputs[k], ViewOf(followers[k])) {
      assert expected[k] == Followers.Extract(views[k], f.extractions[k]);
    }
  }

  /// LocateHelper over the whole sequence: the lead, then the followers against its window; nothing changes
  method LocateAll<V>(lead: Lead<V>, followers: seq<Captor<V>>, lowerBound: int) returns (l: LeadLocated, f: FollowersLocated)
    requires Shaped(lead, followers)
    ensures SequenceValid(LeadViewOf(lead), ViewsOf(followers))
    ensures l == LocateLead(LeadViewOf(lead), lowerBound)
    ensures f == LocateFollowers(ViewsOf(followers), l.result.range, l.result.state)
  {
    AcceptedIsValid(lead, followers);
    match lead {
      case FixedRange(r) =>
        l := LeadLocated(SyncResult(if r.upper < lowerBound then Abort else Primed, r), NO_EXTRACTION);
      case Driver(c) =>
        var d := Drivers.LocatePolicy(c, DefaultResult().range);
        var state := if d.state == Primed && d.range.upper < lowerBound then ErrorDriverLowerBoundExceeded else d.state;
        l := LeadLocated(SyncResult(state, d.range), d.extraction);
    }
    f := LocateFollowersInOrder(followers, l.result.range, l.result.state);
  }

  /// ExtractHelper over the whole sequence: every captor extracts its range and reports `result` to its monitor
  method ExtractEvery<V>(lead: Lead<V>, followers: seq<Captor<V>>, er: ExtractionRange, ers: seq<ExtractionRange>,
                         result: SyncResult)
    returns (leadOutput: seq<Dispatch<V>>, outputs: seq<seq<Dispatch<V>>>)
    requires Accepts(lead, followers) && |ers| == |followers|
    requires lead.Driver? ==> er.Within(|lead.captor.queue.items|)
    requires forall k :: 0 <= k < |followers| ==> ers[k].Within(|followers[k].queue.items|)
    modifies followers`latched, followers`monitorLog, set c | c in followers :: c.queue
    modifies LeadCaptor(lead)`monitorLog, set c | c in LeadCaptor(lead) :: c.queue
    ensures lead.Driver? ==> Taken(leadOutput, ViewOf(lead.captor)) == Drivers.Extract(old(ViewOf(lead.captor)), er)
    ensures lead.Driver? ==> lead.captor.monitorLog == old(lead.captor.monitorLog) + [(result.range, result.state)]
    ensures lead.FixedRange? ==> leadOutput == []
    ensures |outputs| == |followers|
    ensures forall k :: 0 <= k < |followers| ==>
      Taken(outputs[k], ViewOf(followers[k])) == Followers.Extract(old(ViewOf(followers[k])), ers[k])
    ensures forall k :: 0 <= k < |followers| ==>
      followers[k].monitorLog == old(followers[k].monitorLog) + [(result.range, result.state)]
  {
    DistinctParts(lead, followers);
    ghost var before := ViewsOf(followers);
    leadOutput := [];
    if lead.Driver? {
      leadOutput := ExtractLead(lead.captor, er, result);
      assert lead.captor !in followers && lead.captor.queue !in set c | c in followers :: c.queue;
    }
    assert forall k :: 0 <= k < |followers| ==> ViewOf(followers[k]) == before[k];
    assert forall k :: 0 <= k < |followers| ==> followers[k].monitorLog == old(followers[k].monitorLog);
    ghost var leadAfter := if lead.Driver? then Some(Taken(leadOutput, ViewOf(lead.captor))) else None;
    ghost var leadLog := if lead.Driver? then lead.captor.monitorLog else [];
    outputs := ExtractFollowers(followers, ers, result);
    assert lead.Driver? ==> leadAfter == Some(Taken(leadOutput, ViewOf(lead.captor)));
    assert lead.Driver? ==> leadLog == lead.captor.monitorLog;
  }

  /// The steps `Sync` is made of: the lead's locate, the followers' locate from its result, then either nothing
  /// (RETRY) or every extraction
  lemma SyncSteps<V>(lead: LeadView<V>, views: seq<View<V>>, lowerBound: int, er: ExtractionRange, f: FollowersLocated)
    requires SequenceValid(lead, views) && LocateLead(lead, lowerBound).extraction == er
    requires f == LocateFollowers(views, LocateLead(lead, lowerBound).result.range, LocateLead(lead, lowerBound).result.state)
    ensures Sync(lead, views, lowerBound).result == SyncResult(f.state, LocateLead(lead, lowerBound).result.range)
    ensures f.state == Retry ==>
      Sync(lead, views, lowerBound).lead == (if lead.DriverLead? then Some(Taken([], lead.view)) else None)
      && Sync(lead, views, lowerBound).followers == Untouched(views)
    ensures f.state != Retry ==>
      Sync(lead, views, lowerBound).lead == (if lead.DriverLead? then Some(Drivers.Extract(lead.view, er)) else None)
      && Sync(lead, views, lowerBound).followers == ExtractAll(views, f.extractions)
  {}

  /// ExtractHelper on a driver lead: extract its range, then report the result to its queue monitor
  method ExtractLead<V>(c: Captor<V>, er: ExtractionRange, result: SyncResult) returns (output: seq<Dispatch<V>>)
    requires c.policy.Batch? && er.Within(|c.queue.items|)
    modifies c`monitorLog, c.queue
    ensures Taken(output, ViewOf(c)) == Drivers.Extract(old(ViewOf(c)), er)
    ensures c.monitorLog == old(c.monitorLog) + [(result.range, result.state)]
  {
    output := Drivers.ExtractPolicy(c, er);
    c.UpdateQueueMonitor(result.range, result.state);
  }

  /// `remove`: only a driver's queue drops the dispatches before `t`; followers and a fixed window are untouched
  method RemoveAll<V>(lead: Lead<V>, followers: seq<Captor<V>>, t: int)
    requires Shaped(lead, followers)
    modifies if lead.Driver? then {lead.captor.queue} else {}
    ensures lead.Driver? ==> lead.captor.queue.items == old(lead.captor.queue.items)[LeadingBelow(old(lead.captor.queue.items), t)..]
  {
    if lead.Driver? {
      lead.captor.Remove(t);
    }
  }

  /// `abort`: every captor of the sequence aborts at `t`
  method AbortAll<V>(lead: Lead<V>, followers: seq<Captor<V>>, t: int)
    requires Accepts(lead, followers)
    modifies set c | c in Sequence(lead, followers) :: c.queue
    ensures forall k :: 0 <= k < |Sequence(lead, followers)| ==>
      ViewOf(Sequence(lead, followers)[k]) == CaptorNoLock.AbortStep(old(ViewOf(Sequence(lead, followers)[k])), t)
  {
    var cs := Sequence(lead, followers);
    ghost var before := ViewsOf(cs);
    ghost var after := seq(|cs|, k requires 0 <= k < |cs| => CaptorNoLock.AbortStep(before[k], t));
    for i := 0 to |cs|
      invariant forall k :: 0 <= k < i ==> ViewOf(cs[k]) == after[k]
      invariant forall k :: i <= k < |cs| ==> ViewOf(cs[k]) == before[k]
    {
      DistinctAt(cs, i);
      CaptorNoLock.Abort(cs[i], t);
    }
  }

  /// `reset`: every captor of the sequence is reset
  method ResetAll<V>(lead: Lead<V>, followers: seq<Captor<V>>)
    requires Accepts(lead, followers)
    modifies Sequence(lead, followers)`latched, Sequence(lead, followers)`previousStamp,
      set c | c in Sequence(lead, followers) :: c.queue
    ensures forall k :: 0 <= k < |Sequence(lead, followers)| ==>
      ViewOf(Sequence(lead, followers)[k]) == CaptorNoLock.ResetStep(old(ViewOf(Sequence(lead, followers)[k])))
  {
    var cs := Sequence(lead, followers);
    ghost var before := ViewsOf(cs);
    ghost var after := seq(|cs|, k requires 0 <= k < |cs| => CaptorNoLock.ResetStep(before[k]));
    for i := 0 to |cs|
      invariant forall k :: 0 <= k < i ==> ViewOf(cs[k]) == after[k]
      invariant forall k :: i <= k < |cs| ==> ViewOf(cs[k]) == before[k]
    {
      DistinctAt(cs, i);
      CaptorNoLock.Reset(cs[i]);
    }
  }
}
