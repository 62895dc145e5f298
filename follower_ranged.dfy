// Follower policy Ranged: captures the dispatches spanning the capture window shifted by a delay, together with
// the one just before it and the one just after it.

module FollowerRanged {
  import opened Dispatches
  import opened DispatchQueues
  import opened Captors

  /// `find_after_first`: index of the first dispatch at or after `lower - delay`
  function AfterFirst<V>(s: seq<Dispatch<V>>, range: CaptureRange, delay: int): (i: nat)
    ensures i <= |s|
    ensures forall j :: 0 <= j < i ==> s[j].stamp < range.lower - delay
    ensures i < |s| ==> s[i].stamp >= range.lower - delay
  {
    LeadingBelow(s, range.lower - delay)
  }

  /// `find_before_last`: index of the first dispatch after `upper - delay`, searching from `afterFirst` (from the
  /// oldest dispatch when `afterFirst` is the end)
  function BeforeLast<V>(s: seq<Dispatch<V>>, range: CaptureRange, delay: int, afterFirst: nat): (j: nat)
    requires afterFirst <= |s|
    ensures var start := if afterFirst == |s| then 0 else afterFirst;
      start <= j <= |s|
      && (forall i :: start <= i < j ==> s[i].stamp <= range.upper - delay)
      && (j < |s| ==> s[j].stamp > range.upper - delay)
  {
    FirstAboveFrom(s, range.upper - delay, if afterFirst == |s| then 0 else afterFirst)
  }

  /// `dry_capture`: RETRY on an empty queue; ABORT when no dispatch precedes `lower - delay`; RETRY while no
  /// dispatch follows `upper - delay`; otherwise PRIMED, dropping everything older than the dispatch just before
  /// the window
  function DryCapture<V>(s: seq<Dispatch<V>>, range: CaptureRange, delay: int): (r: Captured<V>)
    ensures r.output == [] && r.state in {Primed, Abort, Retry}
    ensures r.state != Primed ==> r.rest == s
  {
    if s == [] then Captured(Retry, [], s)
    else
      var af := AfterFirst(s, range, delay);
      if af == 0 then Captured(Abort, [], s)
      else if BeforeLast(s, range, delay, af) == |s| then Captured(Retry, [], s)
      else Captured(Primed, [], s[LeadingBelow(s, s[af - 1].stamp)..])
  }

  /// The iterator range `capture` copies, [after_first - 1, before_last + 1), is not reversed. It can be
  /// reversed only when no dispatch is at or after `lower - delay` and one lies after `upper - delay` more than
  /// one place before the end, which needs `upper < lower`.
  predicate CopyInOrder<V>(s: seq<Dispatch<V>>, range: CaptureRange, delay: int)
  {
    var af := AfterFirst(s, range, delay);
    af <= BeforeLast(s, range, delay, af) + 2
  }

  /// A valid window never reverses the copy
  lemma ValidCopiesInOrder<V>(s: seq<Dispatch<V>>, range: CaptureRange, delay: int)
    requires range.Valid()
    ensures CopyInOrder(s, range, delay)
  {}

  /// `capture`: the same decision and pruning as the dry capture, and on PRIMED the output runs from the dispatch
  /// just before the window through the dispatch just after it
  function Capture<V>(s: seq<Dispatch<V>>, range: CaptureRange, delay: int): (r: Captured<V>)
    requires CopyInOrder(s, range, delay)
    ensures r.state == DryCapture(s, range, delay).state && r.rest == DryCapture(s, range, delay).rest
    ensures r.state != Primed ==> r.output == []
  {
    if s == [] then Captured(Retry, [], s)
    else
      var af := AfterFirst(s, range, delay);
      if af == 0 then Captured(Abort, [], s)
      else
        var bl := BeforeLast(s, range, delay, af);
        if bl == |s| then Captured(Retry, [], s)
        else Captured(Primed, s[af - 1..bl + 1], s[LeadingBelow(s, s[af - 1].stamp)..])
  }

  /// On an ordered queue and a valid window, Ranged aborts exactly when the oldest dispatch is already at or after
  /// `lower - delay`, and retries exactly when the queue is empty or nothing has come after `upper - delay` yet
  lemma RangedStates<V>(s: seq<Dispatch<V>>, range: CaptureRange, delay: int)
    requires Ordered(s) && range.Valid()
    ensures var r := Capture(s, range, delay);
      (r.state == Abort <==> s != [] && s[0].stamp >= range.lower - delay)
      && (r.state == Retry <==>
            s == [] || (s[0].stamp < range.lower - delay && forall j :: 0 <= j < |s| ==> s[j].stamp <= range.upper - delay))
  {
    if s != [] {
      var af := AfterFirst(s, range, delay);
      var bl := BeforeLast(s, range, delay, af);
      LeadingAtOrBelowOrdered(s, range.upper - delay);
      if 0 < af < |s| && bl == |s| {
        assert forall j :: 0 <= j < |s| ==> s[j].stamp <= range.upper - delay by {
          forall j | 0 <= j < |s| ensures s[j].stamp <= range.upper - delay {
            if j < af { assert s[j].stamp < range.lower - delay; }
          }
        }
      }
    }
  }

  /// A reversed window can still capture: with no delay, window (10, 5) over stamps 4 and 12 primes and outputs
  /// both, while the dry capture decides the same
  lemma RangedReversedExample(a: int, b: int)
    ensures var s := [Dispatch(4, a), Dispatch(12, b)];
      var r := Capture(s, CaptureRange(10, 5), 0);
      r.state == Primed && r.output == s && r.rest == s
      && DryCapture(s, CaptureRange(10, 5), 0).state == Primed
  {
    var s := [Dispatch(4, a), Dispatch(12, b)];
    LeadingBelowUnique(s, 10, 1);
    LeadingBelowUnique(s, 4, 0);
  }

  /// `out` brackets the window [lo, hi] within queue `s`: it starts with the newest dispatch before the window,
  /// ends with the oldest one after it, and in between holds exactly the dispatches inside the window
  ghost predicate Brackets<V>(s: seq<Dispatch<V>>, lo: int, hi: int, out: seq<Dispatch<V>>)
  {
    |out| >= 2 && out[0].stamp < lo && out[|out| - 1].stamp > hi
    && (forall j :: 1 <= j < |out| - 1 ==> lo <= out[j].stamp <= hi)
    && (forall j :: 0 <= j < |s| && s[j].stamp < lo ==> s[j].stamp <= out[0].stamp)
    && (forall j :: 0 <= j < |s| && s[j].stamp > hi ==> s[j].stamp >= out[|out| - 1].stamp)
    && (forall j :: 0 <= j < |s| && lo <= s[j].stamp <= hi ==> s[j] in out)
  }

  /// The slice [af - 1, bl + 1) of an ordered queue, where af is the first index at or after `lo` and bl the
  /// first index after `hi`, brackets the window [lo, hi]
  lemma BracketShape<V>(s: seq<Dispatch<V>>, lo: int, hi: int, af: nat, bl: nat, out: seq<Dispatch<V>>)
    requires Ordered(s) && lo <= hi && 0 < af <= bl < |s| && out == s[af - 1..bl + 1]
    requires forall j :: 0 <= j < af ==> s[j].stamp < lo
    requires s[af].stamp >= lo
    requires forall j :: af <= j < bl ==> s[j].stamp <= hi
    requires s[bl].stamp > hi
    ensures Brackets(s, lo, hi, out)
  {
    BracketIndices(s, lo, hi, af, bl);
    BracketSlice(s, lo, hi, af, bl, out);
  }

  /// Over an ordered queue the stamps below `lo` are exactly those before af, the ones above `hi` exactly those
  /// from bl on, and the dispatches at af - 1 and bl are the nearest to the window on either side
  lemma BracketIndices<V>(s: seq<Dispatch<V>>, lo: int, hi: int, af: nat, bl: nat)
    requires Ordered(s) && lo <= hi && 0 < af <= bl < |s|
    requires forall j :: 0 <= j < af ==> s[j].stamp < lo
    requires s[af].stamp >= lo
    requires forall j :: af <= j < bl ==> s[j].stamp <= hi
    requires s[bl].stamp > hi
    ensures forall j :: 0 <= j < |s| && s[j].stamp < lo ==> s[j].stamp <= s[af - 1].stamp
    ensures forall j :: 0 <= j < |s| && s[j].stamp > hi ==> s[j].stamp >= s[bl].stamp
    ensures forall j :: 0 <= j < |s| && s[j].stamp <= hi ==> j < bl
    ensures forall j :: af <= j < |s| ==> s[j].stamp >= lo
  {
    forall j | 0 <= j < |s| && s[j].stamp < lo ensures s[j].stamp <= s[af - 1].stamp {
      if j < af - 1 { assert s[j].stamp < s[af - 1].stamp; }
    }
    forall j | 0 <= j < |s| && s[j].stamp > hi ensures s[j].stamp >= s[bl].stamp {
      if j > bl { assert s[bl].stamp < s[j].stamp; }
    }
  }

  lemma BracketSlice<V>(s: seq<Dispatch<V>>, lo: int, hi: int, af: nat, bl: nat, out: seq<Dispatch<V>>)
    requires 0 < af <= bl < |s| && out == s[af - 1..bl + 1]
    requires forall j :: 0 <= j < af ==> s[j].stamp < lo
    requires forall j :: af <= j < |s| ==> s[j].stamp >= lo
    requires forall j :: af <= j < bl ==> s[j].stamp <= hi
    requires s[bl].stamp > hi
    requires forall j :: 0 <= j < |s| && s[j].stamp <= hi ==> j < bl
    ensures |out| == bl - af + 2 && out[0] == s[af - 1] && out[|out| - 1] == s[bl]
    ensures forall j :: 1 <= j < |out| - 1 ==> lo <= out[j].stamp <= hi
    ensures forall j :: 0 <= j < |s| && lo <= s[j].stamp <= hi ==> s[j] in out
  {
    forall j | 1 <= j < |out| - 1 ensures lo <= out[j].stamp <= hi {
      assert out[j] == s[af - 1 + j];
    }
    forall j | 0 <= j < |s| && lo <= s[j].stamp <= hi ensures s[j] in out {
      assert out[j - af + 1] == s[j];
    }
  }

  /// On an ordered queue and a valid window, Ranged's PRIMED output brackets the window shifted back by the delay
  lemma RangedBrackets<V>(s: seq<Dispatch<V>>, range: CaptureRange, delay: int)
    requires Ordered(s) && range.Valid() && Capture(s, range, delay).state == Primed
    ensures Brackets(s, range.lower - delay, range.upper - delay, Capture(s, range, delay).output)
  {
    var af, bl := PrimedIndices(s, range, delay);
    BracketShape(s, range.lower - delay, range.upper - delay, af, bl, Capture(s, range, delay).output);
  }

  /// A PRIMED Ranged capture copies rather than moves: the queue left behind starts with the whole output, so
  /// the dispatch before the window stays available to the next capture
  lemma RangedKeepsOutput<V>(s: seq<Dispatch<V>>, range: CaptureRange, delay: int)
    requires Ordered(s) && range.Valid() && Capture(s, range, delay).state == Primed
    ensures var r := Capture(s, range, delay); |r.output| <= |r.rest| && r.rest[..|r.output|] == r.output
  {
    var af, bl := PrimedIndices(s, range, delay);
    var r := Capture(s, range, delay);
    OutputKept(s, af, bl, r.output, r.rest);
  }

  lemma OutputKept<V>(s: seq<Dispatch<V>>, af: nat, bl: nat, output: seq<Dispatch<V>>, rest: seq<Dispatch<V>>)
    requires Ordered(s) && 0 < af <= bl < |s| && output == s[af - 1..bl + 1]
    requires rest == s[LeadingBelow(s, s[af - 1].stamp)..]
    ensures |output| <= |rest| && rest[..|output|] == output
  {
    LeadingBelowAt(s, af - 1);
    SliceOfSuffix(s, af - 1, bl + 1);
  }

  lemma SliceOfSuffix<T>(s: seq<T>, i: nat, j: nat)
    requires i <= j <= |s|
    ensures |s[i..]| >= j - i && s[i..][..j - i] == s[i..j]
  {}

  /// A PRIMED capture outputs [af - 1, bl + 1), where af is the first index at or after the shifted lower bound
  /// and bl the first after the shifted upper bound, and keeps the queue from the dispatch at af - 1 on
  lemma PrimedIndices<V>(s: seq<Dispatch<V>>, range: CaptureRange, delay: int) returns (af: nat, bl: nat)
    requires range.Valid() && Capture(s, range, delay).state == Primed
    ensures 0 < af <= bl < |s| && Capture(s, range, delay).output == s[af - 1..bl + 1]
    ensures Capture(s, range, delay).rest == s[LeadingBelow(s, s[af - 1].stamp)..]
    ensures forall j :: 0 <= j < af ==> s[j].stamp < range.lower - delay
    ensures s[af].stamp >= range.lower - delay
    ensures forall j :: af <= j < bl ==> s[j].stamp <= range.upper - delay
    ensures s[bl].stamp > range.upper - delay
  {
    af := AfterFirst(s, range, delay);
    bl := BeforeLast(s, range, delay, af);
    assert s != [] && 0 < af && bl < |s|;
    assert af < |s|;
  }

  method DryCaptureFollower<V>(c: Captor<V>, range: CaptureRange) returns (state: State)
    requires c.policy.Ranged?
    modifies c.queue
    ensures Captured(state, [], c.queue.items) == DryCapture(old(c.queue.items), range, c.policy.delay)
  {
    var s := c.queue.items;
    if s == [] {
      return Retry;
    }
    var afterFirst := AfterFirst(s, range, c.policy.delay);
    if afterFirst == 0 {
      return Abort;
    } else if BeforeLast(s, range, c.policy.delay, afterFirst) == |s| {
      return Retry;
    }
    c.queue.RemoveBefore(s[afterFirst - 1].stamp);
    return Primed;
  }

  method CaptureFollower<V>(c: Captor<V>, range: CaptureRange) returns (state: State, output: seq<Dispatch<V>>)
    requires c.policy.Ranged? && CopyInOrder(c.queue.items, range, c.policy.delay)
    modifies c.queue
    ensures Captured(state, output, c.queue.items) == Capture(old(c.queue.items), range, c.policy.delay)
  {
    var s := c.queue.items;
    output := [];
    if s == [] {
      return Retry, output;
    }
    var afterFirst := AfterFirst(s, range, c.policy.delay);
    if afterFirst == 0 {
      return Abort, output;
    }
    var beforeLast := BeforeLast(s, range, c.policy.delay, afterFirst);
    if beforeLast == |s| {
      return Retry, output;
    }
    output := s[afterFirst - 1..beforeLast + 1];
    c.queue.RemoveBefore(s[afterFirst - 1].stamp);
    return Primed, output;
  }
}
