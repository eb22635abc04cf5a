/**
 * Elapsed time of overlapping intervals: the length of their union, whatever their order and however they overlap.
 */
module Intervals {
  import opened Wrappers
  import opened Sorting

  /** Milliseconds; half open. A clock set back leaves `finish` before `start`. */
  datatype Interval = Interval(start: int, finish: int)

  predicate StartsBefore(a: Interval, b: Interval) {
    a.start - b.start < 0
  }

  predicate Covers(interval: Interval, t: int) {
    interval.start <= t < interval.finish
  }

  function Span(from: int, to: int): (span: set<int>)
    ensures forall t :: t in span <==> from <= t < to
    decreases if from < to then to - from else 0
  {
    if from < to then Span(from, to - 1) + {to - 1} else {}
  }

  /** Every millisecond that some interval covers. */
  function Covered(intervals: seq<Interval>): (covered: set<int>)
    ensures forall t :: t in covered <==> exists i :: 0 <= i < |intervals| && Covers(intervals[i], t)
  {
    if intervals == [] then {}
    else
      var n := |intervals| - 1;
      Covered(intervals[..n]) + Span(intervals[n].start, intervals[n].finish)
  }

  function Longer(a: int, b: int): int {
    if a < b then b else a
  }

  lemma {:induction false} SpanSize(from: int, to: int)
    ensures |Span(from, to)| == Longer(0, to - from)
    decreases if from < to then to - from else 0
  {
    if from < to {
      SpanSize(from, to - 1);
    }
  }

  /** `end` is the latest finish so far. */
  ghost predicate IsEnd(intervals: seq<Interval>, end: Option<int>) {
    && (end.None? <==> intervals == [])
    && (end.Some? ==> exists i :: 0 <= i < |intervals| && intervals[i].finish == end.value)
    && (forall i :: 0 <= i < |intervals| ==> end.Some? && intervals[i].finish <= end.value)
  }

  /** Where the uncovered part of the next interval begins. */
  function From(start: int, end: Option<int>): int {
    if end.None? then start else Longer(start, end.value)
  }

  lemma {:induction false} CoveredAppend(intervals: seq<Interval>, next: Interval)
    ensures Covered(intervals + [next]) == Covered(intervals) + Span(next.start, next.finish)
  {
    assert (intervals + [next])[..|intervals|] == intervals;
  }

  lemma {:induction false} CoveredBeforeEnd(intervals: seq<Interval>, end: Option<int>, t: int)
    requires IsEnd(intervals, end) && t in Covered(intervals)
    ensures end.Some? && t < end.value
  {
    var i :| 0 <= i < |intervals| && Covers(intervals[i], t);
  }

  /** What lies between the start of the next interval and the latest finish is covered already. */
  lemma {:induction false} CoveredUpToEnd(intervals: seq<Interval>, end: int, start: int, t: int)
    requires IsEnd(intervals, Some(end)) && start <= t < end
    requires forall i :: 0 <= i < |intervals| ==> intervals[i].start <= start
    ensures t in Covered(intervals)
  {
    var i :| 0 <= i < |intervals| && intervals[i].finish == end;
    assert Covers(intervals[i], t);
  }

  /** Of an interval that starts no earlier than the others, exactly the part from their latest finish on is new. */
  lemma {:induction false} NewPart(intervals: seq<Interval>, next: Interval, end: Option<int>)
    requires IsEnd(intervals, end)
    requires forall i :: 0 <= i < |intervals| ==> intervals[i].start <= next.start
    ensures Covered(intervals + [next]) == Covered(intervals) + Span(From(next.start, end), next.finish)
    ensures Covered(intervals) !! Span(From(next.start, end), next.finish)
  {
    var already, whole, added := Covered(intervals), Span(next.start, next.finish),
        Span(From(next.start, end), next.finish);
    CoveredAppend(intervals, next);
    forall t | t in whole ensures t in already || t in added {
      if end.Some? && t < end.value {
        CoveredUpToEnd(intervals, end.value, next.start, t);
      }
    }
    forall t | t in already ensures t !in added {
      CoveredBeforeEnd(intervals, end, t);
    }
    assert already + whole == already + added;
  }

  lemma {:induction false} CoveredGrows(intervals: seq<Interval>, next: Interval, end: Option<int>)
    requires IsEnd(intervals, end)
    requires forall i :: 0 <= i < |intervals| ==> intervals[i].start <= next.start
    ensures |Covered(intervals + [next])| == |Covered(intervals)| + Longer(0, next.finish - From(next.start, end))
  {
    NewPart(intervals, next, end);
    SpanSize(From(next.start, end), next.finish);
  }

  lemma {:induction false} CoveredIgnoresOrder(a: seq<Interval>, b: seq<Interval>)
    requires multiset(a) == multiset(b)
    ensures Covered(a) == Covered(b)
  {
    CoveredByMembers(a, b);
    CoveredByMembers(b, a);
  }

  lemma {:induction false} CoveredByMembers(a: seq<Interval>, b: seq<Interval>)
    requires multiset(a) == multiset(b)
    ensures Covered(a) <= Covered(b)
  {
    forall t | t in Covered(a) ensures t in Covered(b) {
      var i :| 0 <= i < |a| && Covers(a[i], t);
      assert a[i] in multiset(b);
      var j :| 0 <= j < |b| && b[j] == a[i];
    }
  }

  lemma ByStart()
    ensures StrictWeakOrder(StartsBefore)
  {
  }

  /** Math.round: halves go up. */
  function RoundedSeconds(milliseconds: int): int {
    (milliseconds + 500) / 1000
  }

  function LaterEnd(end: Option<int>, finish: int): int {
    if end.None? then finish else Longer(end.value, finish)
  }

  lemma EndMoves(intervals: seq<Interval>, next: Interval, end: Option<int>)
    requires IsEnd(intervals, end)
    ensures IsEnd(intervals + [next], Some(LaterEnd(end, next.finish)))
  {
    var all := intervals + [next];
    var n := |intervals|;
    if end.Some? && next.finish < end.value {
      var i :| 0 <= i < n && intervals[i].finish == end.value;
      assert all[i].finish == end.value;
    } else {
      assert all[n].finish == LaterEnd(end, next.finish);
    }
  }

  /** One round of the loop, for the intervals sorted by start. */
  lemma LoopStep(sorted: seq<Interval>, k: nat, end: Option<int>)
    requires k < |sorted| && Sorted(StartsBefore, sorted) && IsEnd(sorted[..k], end)
    ensures |Covered(sorted[..k + 1])|
        == |Covered(sorted[..k])| + Longer(0, sorted[k].finish - From(sorted[k].start, end))
    ensures IsEnd(sorted[..k + 1], Some(LaterEnd(end, sorted[k].finish)))
  {
    assert sorted[..k + 1] == sorted[..k] + [sorted[k]];
    forall i | 0 <= i < k ensures sorted[..k][i].start <= sorted[k].start {
      assert !StartsBefore(sorted[k], sorted[i]);
    }
    CoveredGrows(sorted[..k], sorted[k], end);
    EndMoves(sorted[..k], sorted[k], end);
  }

  lemma SortedByStart(intervals: seq<Interval>) returns (sorted: seq<Interval>)
    ensures sorted == Sort(StartsBefore, intervals) && Sorted(StartsBefore, sorted)
    ensures Covered(sorted) == Covered(intervals)
  {
    sorted := Sort(StartsBefore, intervals);
    SortKeepsElements(StartsBefore, intervals);
    ByStart();
    SortSorts(StartsBefore, intervals);
    CoveredIgnoresOrder(intervals, sorted);
  }

  /** The total is the number of milliseconds covered, whatever the intervals and their order. */
  method IntervalSeconds(intervals: seq<Interval>) returns (total: int, seconds: int)
    ensures total == |Covered(intervals)|
    ensures seconds * 1000 - 500 <= total < seconds * 1000 + 500
  {
    var end: Option<int> := None;
    var sorted := Sort(StartsBefore, intervals);
    ghost var same := SortedByStart(intervals);
    total := 0;
    for k := 0 to |sorted|
      invariant IsEnd(sorted[..k], end)
      invariant total == |Covered(sorted[..k])|
    {
      LoopStep(sorted, k, end);
      total := total + Longer(0, sorted[k].finish - From(sorted[k].start, end));
      end := Some(LaterEnd(end, sorted[k].finish));
    }
    assert sorted[..|sorted|] == sorted;
    seconds := RoundedSeconds(total);
  }

  /** Concurrent work is not counted twice: an interval inside another adds nothing. */
  lemma {:induction false} NestedAddsNothing(intervals: seq<Interval>, outer: nat, inner: Interval)
    requires outer < |intervals| && intervals[outer].start <= inner.start && inner.finish <= intervals[outer].finish
    ensures Covered(intervals + [inner]) == Covered(intervals)
  {
    var all := intervals + [inner];
    forall t | t in Covered(all) ensures t in Covered(intervals) {
      var i :| 0 <= i < |all| && Covers(all[i], t);
      if i < |intervals| {
        assert all[i] == intervals[i];
      } else {
        assert Covers(intervals[outer], t);
      }
    }
    forall t | t in Covered(intervals) ensures t in Covered(all) {
      var i :| 0 <= i < |intervals| && Covers(intervals[i], t);
      assert all[i] == intervals[i];
    }
  }
}
