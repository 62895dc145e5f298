// The stamp-ordered dispatch queue: sorted insertion that drops duplicate stamps, removal of old data,
// capacity shrinking and the `before`/`rbefore` lookups.

module DispatchQueues {
  import opened Dispatches

  /// Stamps strictly increase from the oldest (front) to the newest (back) element
  ghost predicate Ordered<V>(s: seq<Dispatch<V>>)
  {
    forall i, j :: 0 <= i < j < |s| ==> s[i].stamp < s[j].stamp
  }

  /// `std::find_if` from the front: the index of the first element satisfying `p`, or |s| when there is none
  function FindIf<V>(s: seq<Dispatch<V>>, p: Dispatch<V> -> bool): (k: nat)
    ensures k <= |s|
    ensures forall j :: 0 <= j < k ==> !p(s[j])
    ensures k < |s| ==> p(s[k])
  {
    if s == [] || p(s[0]) then 0 else 1 + FindIf(s[1..], p)
  }

  /// Number of leading elements stamped strictly before `t`
  function LeadingBelow<V>(s: seq<Dispatch<V>>, t: int): (k: nat)
    ensures k <= |s|
    ensures forall j :: 0 <= j < k ==> s[j].stamp < t
    ensures k < |s| ==> s[k].stamp >= t
  {
    FirstAtOrAboveFrom(s, t, 0)
  }

  /// Index of the first element at or after `start` stamped at or after `t`, or |s|
  function FirstAtOrAboveFrom<V>(s: seq<Dispatch<V>>, t: int, start: nat): (j: nat)
    requires start <= |s|
    ensures start <= j <= |s|
    ensures forall i :: start <= i < j ==> s[i].stamp < t
    ensures j < |s| ==> s[j].stamp >= t
    decreases |s| - start
  {
    if start == |s| || s[start].stamp >= t then start else FirstAtOrAboveFrom(s, t, start + 1)
  }

  /// Number of leading elements stamped at or before `t`
  function LeadingAtOrBelow<V>(s: seq<Dispatch<V>>, t: int): (k: nat)
    ensures k <= |s|
    ensures forall j :: 0 <= j < k ==> s[j].stamp <= t
    ensures k < |s| ==> s[k].stamp > t
  {
    FirstAboveFrom(s, t, 0)
  }

  /// Index of the first element at or after `start` stamped after `t`, or |s|
  function FirstAboveFrom<V>(s: seq<Dispatch<V>>, t: int, start: nat): (j: nat)
    requires start <= |s|
    ensures start <= j <= |s|
    ensures forall i :: start <= i < j ==> s[i].stamp <= t
    ensures j < |s| ==> s[j].stamp > t
    decreases |s| - start
  {
    if start == |s| || s[start].stamp > t then start else FirstAboveFrom(s, t, start + 1)
  }

  /// The leading run below `t` is determined by its two boundary facts
  lemma LeadingBelowUnique<V>(s: seq<Dispatch<V>>, t: int, n: nat)
    requires n <= |s|
    requires forall j :: 0 <= j < n ==> s[j].stamp < t
    requires n < |s| ==> s[n].stamp >= t
    ensures LeadingBelow(s, t) == n
  {}

  lemma LeadingAtOrBelowUnique<V>(s: seq<Dispatch<V>>, t: int, n: nat)
    requires n <= |s|
    requires forall j :: 0 <= j < n ==> s[j].stamp <= t
    requires n < |s| ==> s[n].stamp > t
    ensures LeadingAtOrBelow(s, t) == n
  {}

  /// On an ordered queue the leading run below `t` is exactly the set of elements below `t`
  lemma LeadingBelowOrdered<V>(s: seq<Dispatch<V>>, t: int)
    requires Ordered(s)
    ensures forall j :: 0 <= j < |s| ==> (s[j].stamp < t <==> j < LeadingBelow(s, t))
  {}

  lemma LeadingAtOrBelowOrdered<V>(s: seq<Dispatch<V>>, t: int)
    requires Ordered(s)
    ensures forall j :: 0 <= j < |s| ==> (s[j].stamp <= t <==> j < LeadingAtOrBelow(s, t))
  {}

  /// In an ordered queue everything from an element stamped at or after `t` on is stamped at or after `t`
  lemma SuffixAtOrAbove<V>(s: seq<Dispatch<V>>, t: int, k: nat)
    requires Ordered(s) && k <= |s| && (k < |s| ==> s[k].stamp >= t)
    ensures forall i :: k <= i < |s| ==> s[i].stamp >= t
  {
    forall i | k < i < |s| ensures s[i].stamp >= t {
      assert s[k].stamp < s[i].stamp;
    }
  }

  lemma SliceAtOrAbove<V>(s: seq<Dispatch<V>>, t: int, k: nat)
    requires k <= |s| && forall i :: k <= i < |s| ==> s[i].stamp >= t
    ensures forall i :: 0 <= i < |s[k..]| ==> s[k..][i].stamp >= t
  {
    forall i | 0 <= i < |s| - k ensures s[k..][i].stamp >= t {
      assert s[k..][i] == s[k + i];
    }
  }

  /// Everything from index k on in an ordered queue is strictly newer than the dispatch at k - 1
  lemma NewerAfter<V>(s: seq<Dispatch<V>>, k: nat)
    requires Ordered(s) && 0 < k <= |s|
    ensures forall i :: k <= i < |s| ==> s[i].stamp > s[k - 1].stamp
  {}

  lemma SliceAbove<V>(s: seq<Dispatch<V>>, t: int, k: nat)
    requires k <= |s| && forall i :: k <= i < |s| ==> s[i].stamp > t
    ensures forall i :: 0 <= i < |s[k..]| ==> s[k..][i].stamp > t
  {
    forall i | 0 <= i < |s| - k ensures s[k..][i].stamp > t {
      assert s[k..][i] == s[k + i];
    }
  }

  /// The first n stamps of an ordered queue lie between its oldest stamp and the n-th
  lemma PrefixWithin<V>(s: seq<Dispatch<V>>, n: nat)
    requires Ordered(s) && 0 < n <= |s|
    ensures forall i :: 0 <= i < n ==> s[0].stamp <= s[i].stamp <= s[n - 1].stamp
  {
    forall i | 0 <= i < n ensures s[0].stamp <= s[i].stamp <= s[n - 1].stamp {
      if 0 < i { assert s[0].stamp < s[i].stamp; }
      if i < n - 1 { assert s[i].stamp < s[n - 1].stamp; }
    }
  }

  lemma SliceWithin<V>(s: seq<Dispatch<V>>, lo: int, hi: int, n: nat)
    requires n <= |s| && forall i :: 0 <= i < n ==> lo <= s[i].stamp <= hi
    ensures forall i :: 0 <= i < |s[..n]| ==> lo <= s[..n][i].stamp <= hi
  {
    forall i | 0 <= i < n ensures lo <= s[..n][i].stamp <= hi {
      assert s[..n][i] == s[i];
    }
  }

  /// In an ordered queue the oldest and newest stamps bound every stamp
  lemma OrderedBounds<V>(s: seq<Dispatch<V>>)
    requires Ordered(s) && s != []
    ensures forall i :: 0 <= i < |s| ==> s[0].stamp <= s[i].stamp <= s[|s| - 1].stamp
  {
    forall i | 0 <= i < |s|
      ensures s[0].stamp <= s[i].stamp <= s[|s| - 1].stamp
    {
      if 0 < i { assert s[0].stamp < s[i].stamp; }
      if i < |s| - 1 { assert s[i].stamp < s[|s| - 1].stamp; }
    }
  }

  /// In an ordered queue, exactly `k` elements precede the element at index `k`
  lemma LeadingBelowAt<V>(s: seq<Dispatch<V>>, k: nat)
    requires Ordered(s) && k < |s|
    ensures LeadingBelow(s, s[k].stamp) == k
  {
    LeadingBelowUnique(s, s[k].stamp, k);
  }

  /// The queue after inserting `d`: placed after every older element, dropped when its stamp is already queued.
  /// Follows `insert`: append when newer than the back, otherwise walk backwards from the back.
  function Inserted<V>(s: seq<Dispatch<V>>, d: Dispatch<V>): seq<Dispatch<V>>
    decreases |s|
  {
    if s == [] then [d]
    else if s[|s| - 1].stamp < d.stamp then s + [d]
    else if s[|s| - 1].stamp == d.stamp then s
    else Inserted(s[..|s| - 1], d) + [s[|s| - 1]]
  }

  /// Insertion never loses an element and adds at most `d`
  lemma {:induction false} InsertedElements<V>(s: seq<Dispatch<V>>, d: Dispatch<V>)
    ensures forall x :: x in s ==> x in Inserted(s, d)
    ensures forall x :: x in Inserted(s, d) ==> x in s || x == d
    ensures |Inserted(s, d)| == |s| || |Inserted(s, d)| == |s| + 1
    decreases |s|
  {
    if s != [] && s[|s| - 1].stamp > d.stamp {
      var init := s[..|s| - 1];
      InsertedElements(init, d);
      assert s == init + [s[|s| - 1]];
    }
  }

  /// After an insertion `d`'s stamp is always queued: either `d` went in or its stamp was already there
  lemma {:induction false} InsertedStamps<V>(s: seq<Dispatch<V>>, d: Dispatch<V>)
    ensures exists j :: 0 <= j < |Inserted(s, d)| && Inserted(s, d)[j].stamp == d.stamp
    decreases |s|
  {
    var r := Inserted(s, d);
    if s == [] {
      assert r[0].stamp == d.stamp;
    } else if s[|s| - 1].stamp < d.stamp {
      assert r[|s|].stamp == d.stamp;
    } else if s[|s| - 1].stamp == d.stamp {
      assert r[|s| - 1].stamp == d.stamp;
    } else {
      var init := s[..|s| - 1];
      InsertedStamps(init, d);
      var j :| 0 <= j < |Inserted(init, d)| && Inserted(init, d)[j].stamp == d.stamp;
      assert r[j] == Inserted(init, d)[j];
    }
  }

  /// Insertion keeps the queue ordered, whatever order the data arrives in
  lemma {:induction false} InsertedOrdered<V>(s: seq<Dispatch<V>>, d: Dispatch<V>)
    requires Ordered(s)
    ensures Ordered(Inserted(s, d))
    decreases |s|
  {
    if s != [] && s[|s| - 1].stamp > d.stamp {
      var init := s[..|s| - 1];
      var last := s[|s| - 1];
      InsertedOrdered(init, d);
      InsertedElements(init, d);
      var r := Inserted(init, d);
      assert Inserted(s, d) == r + [last];
      forall i | 0 <= i < |r|
        ensures r[i].stamp < last.stamp
      {
        assert r[i] in r;
        if r[i] in init {
          var k :| 0 <= k < |init| && init[k] == r[i];
          assert s[k] == r[i];
        }
      }
    }
  }

  /// Inserting a dispatch whose stamp is already queued leaves the queue unchanged: the first value wins
  lemma {:induction false} InsertedDuplicate<V>(s: seq<Dispatch<V>>, d: Dispatch<V>, i: nat)
    requires Ordered(s) && i < |s| && s[i].stamp == d.stamp
    ensures Inserted(s, d) == s
    decreases |s|
  {
    if i < |s| - 1 {
      assert s[i].stamp < s[|s| - 1].stamp;
      var init := s[..|s| - 1];
      assert init[i] == s[i];
      InsertedDuplicate(init, d, i);
      assert s == init + [s[|s| - 1]];
    }
  }

  /// Inserting a dispatch with a new stamp places it right after every older element
  lemma {:induction false} InsertedFresh<V>(s: seq<Dispatch<V>>, d: Dispatch<V>)
    requires Ordered(s)
    requires forall j :: 0 <= j < |s| ==> s[j].stamp != d.stamp
    ensures var k := LeadingBelow(s, d.stamp); Inserted(s, d) == s[..k] + [d] + s[k..]
    decreases |s|
  {
    var k := LeadingBelow(s, d.stamp);
    if s == [] {
    } else if s[|s| - 1].stamp < d.stamp {
      LeadingBelowUnique(s, d.stamp, |s|);
      assert s[..k] == s && s[k..] == [];
    } else {
      OrderedPrefix(s, |s| - 1);
      InsertedFresh(s[..|s| - 1], d);
      FreshBehindNewest(s, d, LeadingBelow(s[..|s| - 1], d.stamp));
    }
  }

  /// The inductive step of InsertedFresh: `d` goes behind a newer newest element
  lemma FreshBehindNewest<V>(s: seq<Dispatch<V>>, d: Dispatch<V>, k: nat)
    requires s != [] && s[|s| - 1].stamp > d.stamp
    requires k == LeadingBelow(s[..|s| - 1], d.stamp)
    requires Inserted(s[..|s| - 1], d) == s[..|s| - 1][..k] + [d] + s[..|s| - 1][k..]
    ensures LeadingBelow(s, d.stamp) == k && Inserted(s, d) == s[..k] + [d] + s[k..]
  {
    LeadingBelowBeforeNewer(s, d.stamp, k);
    assert Inserted(s, d) == Inserted(s[..|s| - 1], d) + [s[|s| - 1]];
    SpliceBeforeNewest(s, d, k);
  }

  lemma OrderedPrefix<V>(s: seq<Dispatch<V>>, n: nat)
    requires Ordered(s) && n <= |s|
    ensures Ordered(s[..n])
  {
    var p := s[..n];
    forall i, j | 0 <= i < j < |p| ensures p[i].stamp < p[j].stamp {
      assert p[i] == s[i] && p[j] == s[j];
    }
  }

  lemma OrderedSuffix<V>(s: seq<Dispatch<V>>, k: nat)
    requires Ordered(s) && k <= |s|
    ensures Ordered(s[k..])
  {
    var p := s[k..];
    forall i, j | 0 <= i < j < |p| ensures p[i].stamp < p[j].stamp {
      assert p[i] == s[k + i] && p[j] == s[k + j];
    }
  }

  lemma SuffixHolds<V>(s: seq<Dispatch<V>>, k: nat)
    requires k <= |s|
    ensures forall i :: k <= i < |s| ==> s[i] in s[k..]
  {
    forall i | k <= i < |s| ensures s[i] in s[k..] {
      assert s[k..][i - k] == s[i];
    }
  }

  /// Removing the leading run below `t` from an ordered queue keeps it ordered, keeps only dispatches at or
  /// after `t`, and keeps every one of them
  lemma DroppedBelow<V>(s: seq<Dispatch<V>>, t: int)
    requires Ordered(s)
    ensures Ordered(s[LeadingBelow(s, t)..])
    ensures var r := s[LeadingBelow(s, t)..]; forall i :: 0 <= i < |r| ==> r[i].stamp >= t
    ensures forall i :: 0 <= i < |s| && s[i].stamp >= t ==> s[i] in s[LeadingBelow(s, t)..]
  {
    var k := LeadingBelow(s, t);
    OrderedSuffix(s, k);
    LeadingBelowOrdered(s, t);
    SuffixAtOrAbove(s, t, k);
    SliceAtOrAbove(s, t, k);
    SuffixHolds(s, k);
  }

  /// When the newest element is newer than `t`, the leading run below `t` is the same without it
  lemma LeadingBelowBeforeNewer<V>(s: seq<Dispatch<V>>, t: int, k: nat)
    requires s != [] && s[|s| - 1].stamp > t && k == LeadingBelow(s[..|s| - 1], t)
    ensures LeadingBelow(s, t) == k
  {
    var init := s[..|s| - 1];
    forall j | 0 <= j < k ensures s[j].stamp < t {
      assert s[j] == init[j];
    }
    if k < |init| {
      assert s[k] == init[k];
    }
    LeadingBelowUnique(s, t, k);
  }

  lemma SpliceBeforeNewest<T>(s: seq<T>, x: T, k: nat)
    requires s != [] && k <= |s| - 1
    ensures (s[..|s| - 1][..k] + [x] + s[..|s| - 1][k..]) + [s[|s| - 1]] == s[..k] + [x] + s[k..]
  {
    assert s[..|s| - 1][..k] == s[..k];
    assert s[..|s| - 1][k..] + [s[|s| - 1]] == s[k..];
  }

  /// Inserting a sequence of dispatches one after another
  function InsertedAll<V>(s: seq<Dispatch<V>>, ds: seq<Dispatch<V>>): seq<Dispatch<V>>
    decreases |ds|
  {
    if ds == [] then s else InsertedAll(Inserted(s, ds[0]), ds[1..])
  }

  lemma {:induction false} InsertedAllOrdered<V>(s: seq<Dispatch<V>>, ds: seq<Dispatch<V>>)
    requires Ordered(s)
    ensures Ordered(InsertedAll(s, ds))
    decreases |ds|
  {
    if ds != [] {
      InsertedOrdered(s, ds[0]);
      InsertedAllOrdered(Inserted(s, ds[0]), ds[1..]);
    }
  }

  /// The queue after `shrink_to_fit(n)`: the oldest elements are dropped until at most `n` are left
  function Shrunk<V>(s: seq<Dispatch<V>>, n: nat): seq<Dispatch<V>>
  {
    if |s| > n then s[|s| - n..] else s
  }

  lemma ShrunkKeepsNewest<V>(s: seq<Dispatch<V>>, n: nat)
    ensures |Shrunk(s, n)| == if |s| > n then n else |s|
    ensures exists k :: 0 <= k <= |s| && Shrunk(s, n) == s[k..]
    ensures Ordered(s) ==> Ordered(Shrunk(s, n))
  {
    if |s| > n { assert Shrunk(s, n) == s[|s| - n..]; } else { assert Shrunk(s, n) == s[0..]; }
  }

  /// `rbefore(t)`: the index of the newest element stamped before `t`, found from the back; None is `rend()`
  function RBefore<V>(s: seq<Dispatch<V>>, t: int): (r: Option<nat>)
    ensures r.Some? ==> r.value < |s| && s[r.value].stamp < t
    ensures r.Some? ==> forall j :: r.value < j < |s| ==> s[j].stamp >= t
    ensures r.None? ==> forall j :: 0 <= j < |s| ==> s[j].stamp >= t
    decreases |s|
  {
    if s == [] then None
    else if s[|s| - 1].stamp < t then Some(|s| - 1)
    else RBefore(s[..|s| - 1], t)
  }

  /// `before(t)` as written: the iterator just before the first element stamped at or after `t`, except that
  /// when no such element exists it returns `end()`. Positions are offsets from `begin()`: |s| is `end()`,
  /// -1 is `std::prev(begin())`, which has undefined behaviour.
  function BeforeAsWritten<V>(s: seq<Dispatch<V>>, t: int): int
  {
    var after := LeadingBelow(s, t);
    if after == |s| then |s| else after - 1
  }

  /// When every queued stamp is before `t`, `before(t)` as written returns `end()` instead of the newest element
  lemma BeforeAsWrittenMissesNewest()
    ensures var s := [Dispatch(5, 'a'), Dispatch(6, 'b'), Dispatch(7, 'c')];
      BeforeAsWritten(s, 8) == |s| && RBefore(s, 8) == Some(2)
  {
    var s := [Dispatch(5, 'a'), Dispatch(6, 'b'), Dispatch(7, 'c')];
    LeadingBelowUnique(s, 8, 3);
  }

  /// When the oldest stamp is already at or after `t`, `before(t)` as written steps before `begin()`
  lemma BeforeAsWrittenBeforeBegin()
    ensures BeforeAsWritten([Dispatch(5, 'a')], 5) == -1
  {
    assert LeadingBelow([Dispatch(5, 'a')], 5) == 0;
  }

  /// `before(t)` corrected: the index of the newest element stamped before `t`, None when there is none
  function BeforeIndex<V>(s: seq<Dispatch<V>>, t: int): (r: Option<nat>)
    ensures r.Some? ==> r.value < |s| && s[r.value].stamp < t
    ensures r.Some? ==> r.value + 1 == |s| || s[r.value + 1].stamp >= t
    ensures r.None? ==> s == [] || s[0].stamp >= t
  {
    var after := LeadingBelow(s, t);
    if after == 0 then None else Some(after - 1)
  }

  /// On an ordered queue the corrected `before` and `rbefore` find the same element
  lemma BeforeIndexIsRBefore<V>(s: seq<Dispatch<V>>, t: int)
    requires Ordered(s)
    ensures BeforeIndex(s, t) == RBefore(s, t)
  {
    LeadingBelowOrdered(s, t);
  }

  /// The library's own `before`/`rbefore` cases: on stamps 5, 6, 7 both find 5 for 6 and 6 for 7, and on an
  /// empty queue they return `end()` and `rend()`; none of these reaches the two cases where `before` goes wrong
  lemma BeforeOnLibraryCases()
    ensures var s := [Dispatch(5, 8), Dispatch(6, 9), Dispatch(7, 10)];
      BeforeAsWritten(s, 6) == 0 && BeforeAsWritten(s, 7) == 1 && RBefore(s, 6) == Some(0) && RBefore(s, 7) == Some(1)
      && BeforeIndex(s, 6) == Some(0) && BeforeIndex(s, 7) == Some(1)
    ensures var e: seq<Dispatch<int>> := []; BeforeAsWritten(e, 6) == 0 && RBefore(e, 6) == None
  {
    var s := [Dispatch(5, 8), Dispatch(6, 9), Dispatch(7, 10)];
    LeadingBelowUnique(s, 6, 1);
    LeadingBelowUnique(s, 7, 2);
    assert s[..2] == [Dispatch(5, 8), Dispatch(6, 9)];
    assert s[..2][..1] == [Dispatch(5, 8)];
  }

  /// A queue of dispatches, ordered by stamp from oldest (front) to newest (back)
  class DispatchQueue<V> {
    var items: seq<Dispatch<V>>

    constructor (container: seq<Dispatch<V>>)
      ensures items == container
    {
      items := container;
    }

    function Size(): (n: nat)
      reads this
      ensures n == |items|
    {
      |items|
    }

    predicate Empty()
      reads this
    {
      Size() == 0
    }

    function OldestStamp(): int
      reads this
      requires items != []
    {
      items[0].stamp
    }

    function NewestStamp(): int
      reads this
      requires items != []
    {
      items[|items| - 1].stamp
    }

    /// `insert`: sorted insertion that drops a dispatch whose stamp is already queued
    method Insert(d: Dispatch<V>)
      modifies this
      ensures items == Inserted(old(items), d)
    {
      if |items| == 0 || items[|items| - 1].stamp < d.stamp {
        items := items + [d];
        return;
      }
      var i := |items| - 1;
      assert items[..i + 1] == items;
      while items[i].stamp > d.stamp
        invariant 0 <= i < |items| && items == old(items)
        invariant Inserted(items, d) == Inserted(items[..i + 1], d) + items[i + 1..]
        decreases i
      {
        if i == 0 {
          assert Inserted(items[..1], d) == [d] + [items[0]];
          assert [items[0]] + items[1..] == items;
          items := [d] + items;
          return;
        }
        assert items[..i + 1][..i] == items[..i];
        assert Inserted(items[..i + 1], d) == Inserted(items[..i], d) + [items[i]];
        assert [items[i]] + items[i + 1..] == items[i..];
        i := i - 1;
      }
      if items[i].stamp != d.stamp {
        assert items[..i + 1] + [d] + items[i + 1..] == Inserted(items[..i + 1], d) + items[i + 1..];
        items := items[..i + 1] + [d] + items[i + 1..];
      }
    }

    /// `pop`: removes and returns the oldest element
    method Pop() returns (d: Dispatch<V>)
      requires items != []
      modifies this
      ensures d == old(items)[0] && items == old(items)[1..]
    {
      d := items[0];
      items := items[1..];
    }

    method Clear()
      modifies this
      ensures items == []
    {
      items := [];
    }

    /// `remove_before(t)`: drops every leading element stamped before `t`
    method RemoveBefore(t: int)
      modifies this
      ensures items == old(items)[LeadingBelow(old(items), t)..]
    {
      ghost var n := 0;
      while items != [] && items[0].stamp < t
        invariant 0 <= n <= |old(items)| && items == old(items)[n..]
        invariant forall j :: 0 <= j < n ==> old(items)[j].stamp < t
        decreases |items|
      {
        items := items[1..];
        n := n + 1;
      }
      LeadingBelowUnique(old(items), t, n);
    }

    /// `remove_at_before(t)`: drops every leading element stamped at or before `t`
    method RemoveAtBefore(t: int)
      modifies this
      ensures items == old(items)[LeadingAtOrBelow(old(items), t)..]
    {
      ghost var n := 0;
      while items != [] && items[0].stamp <= t
        invariant 0 <= n <= |old(items)| && items == old(items)[n..]
        invariant forall j :: 0 <= j < n ==> old(items)[j].stamp <= t
        decreases |items|
      {
        items := items[1..];
        n := n + 1;
      }
      LeadingAtOrBelowUnique(old(items), t, n);
    }

    /// `shrink_to_fit(n)`: drops the oldest elements until at most `n` are left
    method ShrinkToFit(n: nat)
      modifies this
      ensures items == Shrunk(old(items), n)
    {
      ghost var k := 0;
      while |items| > n
        invariant 0 <= k <= |old(items)| && items == old(items)[k..]
        invariant k > 0 ==> |items| >= n
        decreases |items|
      {
        items := items[1..];
        k := k + 1;
      }
      if k == 0 { assert items == old(items); }
    }

    /// `remove_first_n(n)`: drops the `n` oldest elements
    method RemoveFirstN(n: nat)
      requires n <= |items|
      modifies this
      ensures items == old(items)[n..]
    {
      items := items[n..];
    }
  }
}
