/** Merging time intervals: packages/domain/speech_metrics.py, lines 10-50. */
module Intervals {
  import opened Sorting

  datatype Span = Span(start: int, end: int)

  /** The source's Interval: construction with end before start raises. */
  type Interval = s: Span | s.start <= s.end witness Span(0, 0)

  function Duration(iv: Interval): nat { iv.end - iv.start }

  function Max(a: int, b: int): int { if a < b then b else a }

  predicate ByStartEnd(a: Interval, b: Interval) {
    a.start < b.start || (a.start == b.start && a.end <= b.end)
  }

  /** One round of the merging loop: extend the last interval, or open a new one. */
  function Absorb(merged: seq<Interval>, current: Interval): seq<Interval> {
    if merged == [] then [current]
    else
      var last := merged[|merged| - 1];
      if current.start <= last.end
      then merged[..|merged| - 1] + [Span(last.start, Max(last.end, current.end))]
      else merged + [current]
  }

  function Merge(sorted: seq<Interval>): seq<Interval> {
    if sorted == [] then []
    else Absorb(Merge(sorted[..|sorted| - 1]), sorted[|sorted| - 1])
  }

  function Union(ivs: seq<Interval>): seq<Interval> { Merge(Sort(ByStartEnd, ivs)) }

  function Sum(ivs: seq<Interval>): nat {
    if ivs == [] then 0 else Sum(ivs[..|ivs| - 1]) + Duration(ivs[|ivs| - 1])
  }

  function TotalDuration(ivs: seq<Interval>): nat { Sum(Union(ivs)) }

  /** The milliseconds an interval, and a list of intervals, covers: the reference meaning. */
  predicate Contains(iv: Interval, t: int) { iv.start <= t < iv.end }

  function Milliseconds(iv: Interval): set<int> { set t | iv.start <= t < iv.end && Contains(iv, t) }

  function Covered(ivs: seq<Interval>): set<int> {
    set iv, t | iv in ivs && t in Milliseconds(iv) :: t
  }

  /** Sorted, with a strictly positive gap between neighbours. */
  ghost predicate Separated(ivs: seq<Interval>) {
    forall i, j :: 0 <= i < j < |ivs| ==> ivs[i].end < ivs[j].start
  }

  ghost predicate AllPositive(ivs: seq<Interval>) {
    forall i :: 0 <= i < |ivs| ==> ivs[i].start < ivs[i].end
  }

  method UnionIntervals(intervals: seq<Interval>) returns (merged: seq<Interval>)
    ensures merged == Union(intervals)
    ensures Separated(merged) && Covered(merged) == Covered(intervals)
  {
    UnionCorrect(intervals);
    if intervals == [] { return []; }
    var sorted := Sort(ByStartEnd, intervals);
    SortIsOrdered(intervals);
    merged := [sorted[0]];
    MergeOne(sorted);
    for i := 1 to |sorted|
      invariant merged == Merge(sorted[..i]) && merged != []
    {
      MergeStep(sorted, i);
      merged := AbsorbNext(merged, sorted[i]);
    }
    assert sorted[..|sorted|] == sorted;
  }

  method AbsorbNext(merged: seq<Interval>, current: Interval) returns (next: seq<Interval>)
    requires merged != []
    ensures next == Absorb(merged, current) && next != []
  {
    var last := merged[|merged| - 1];
    if current.start <= last.end {
      next := merged[|merged| - 1 := Span(last.start, Max(last.end, current.end))];
    } else {
      next := merged + [current];
    }
  }

  lemma {:induction false} MergeOne(sorted: seq<Interval>)
    requires sorted != []
    ensures Merge(sorted[..1]) == [sorted[0]]
  {
    assert sorted[..1][..0] == [];
    assert Merge([]) == [];
  }

  lemma {:induction false} MergeStep(sorted: seq<Interval>, i: nat)
    requires i < |sorted|
    ensures Merge(sorted[..i + 1]) == Absorb(Merge(sorted[..i]), sorted[i])
  {
    assert sorted[..i + 1][..i] == sorted[..i];
  }

  method TotalDurationMs(intervals: seq<Interval>) returns (total: nat)
    ensures total == TotalDuration(intervals) == |Covered(intervals)|
  {
    var merged := UnionIntervals(intervals);
    total := 0;
    for i := 0 to |merged|
      invariant total == Sum(merged[..i])
    {
      assert merged[..i + 1][..i] == merged[..i];
      total := total + Duration(merged[i]);
    }
    assert merged[..|merged|] == merged;
    DurationIsCardinality(intervals);
  }

  // ---------------------------------------------------------------- proofs

  lemma OrderIsTotal()
    ensures TotalPreorder(ByStartEnd) && Antisymmetric(ByStartEnd)
  {
  }

  lemma SortIsOrdered(ivs: seq<Interval>)
    ensures SortedBy(ByStartEnd, Sort(ByStartEnd, ivs))
    ensures |Sort(ByStartEnd, ivs)| == |ivs|
    ensures forall iv :: iv in Sort(ByStartEnd, ivs) <==> iv in ivs
  {
    OrderIsTotal();
    SortSorts(ByStartEnd, ivs);
  }

  lemma CoveredSplit(ivs: seq<Interval>)
    requires ivs != []
    ensures Covered(ivs) == Covered(ivs[..|ivs| - 1]) + Milliseconds(ivs[|ivs| - 1])
  {
    var n := |ivs| - 1;
    forall t | t in Covered(ivs) ensures t in Covered(ivs[..n]) + Milliseconds(ivs[n]) {
      var iv :| iv in ivs && t in Milliseconds(iv);
      assert iv == ivs[n] || iv in ivs[..n];
    }
    forall t | t in Milliseconds(ivs[n]) ensures t in Covered(ivs) { assert ivs[n] in ivs; }
    forall t | t in Covered(ivs[..n]) ensures t in Covered(ivs) {
      var iv :| iv in ivs[..n] && t in Milliseconds(iv);
      assert iv in ivs;
    }
  }

  lemma AbsorbCovers(merged: seq<Interval>, current: Interval)
    requires merged != [] ==> merged[|merged| - 1].start <= current.start
    ensures Covered(Absorb(merged, current)) == Covered(merged) + Milliseconds(current)
  {
    CoveredSplit(Absorb(merged, current));
    if merged == [] {
      assert Absorb(merged, current)[..0] == [];
    } else {
      CoveredSplit(merged);
      var n := |merged| - 1;
      if current.start <= merged[n].end {
        assert Absorb(merged, current)[..n] == merged[..n];
        assert Milliseconds(Span(merged[n].start, Max(merged[n].end, current.end)))
            == Milliseconds(merged[n]) + Milliseconds(current);
      } else {
        assert Absorb(merged, current)[..n + 1] == merged;
      }
    }
  }

  lemma AbsorbSeparates(merged: seq<Interval>, current: Interval)
    requires Separated(merged)
    requires merged != [] ==> merged[|merged| - 1].start <= current.start
    ensures Separated(Absorb(merged, current))
    ensures AllPositive(merged) && current.start < current.end ==> AllPositive(Absorb(merged, current))
  {
    if merged != [] {
      var n := |merged| - 1;
      var after := Absorb(merged, current);
      assert forall i :: 0 <= i < n ==> after[i] == merged[i] && merged[i].end < merged[n].start;
    }
  }

  lemma {:induction false} MergeStarts(sorted: seq<Interval>)
    requires SortedBy(ByStartEnd, sorted)
    ensures sorted != [] ==> Merge(sorted) != []
    ensures sorted != [] ==> Merge(sorted)[|Merge(sorted)| - 1].start <= sorted[|sorted| - 1].start
  {
    if sorted != [] {
      var n := |sorted| - 1;
      MergeStarts(sorted[..n]);
      if n > 0 {
        assert ByStartEnd(sorted[n - 1], sorted[n]);
      }
    }
  }

  lemma {:induction false} MergeInOrder(sorted: seq<Interval>)
    requires SortedBy(ByStartEnd, sorted) && sorted != []
    ensures
      var merged := Merge(sorted[..|sorted| - 1]);
      merged != [] ==> merged[|merged| - 1].start <= sorted[|sorted| - 1].start
  {
    var n := |sorted| - 1;
    MergeStarts(sorted[..n]);
    if n > 0 {
      assert ByStartEnd(sorted[n - 1], sorted[n]);
    } else {
      assert sorted[..n] == [];
    }
  }

  lemma {:induction false} MergeCorrect(sorted: seq<Interval>)
    requires SortedBy(ByStartEnd, sorted)
    ensures Separated(Merge(sorted)) && Covered(Merge(sorted)) == Covered(sorted)
    ensures AllPositive(sorted) ==> AllPositive(Merge(sorted))
  {
    if sorted != [] {
      var n := |sorted| - 1;
      MergeCorrect(sorted[..n]);
      MergeInOrder(sorted);
      AbsorbSeparates(Merge(sorted[..n]), sorted[n]);
      AbsorbCovers(Merge(sorted[..n]), sorted[n]);
      CoveredSplit(sorted);
    }
  }

  /** Merging yields a separated list covering exactly the same milliseconds. */
  lemma UnionCorrect(ivs: seq<Interval>)
    ensures Separated(Union(ivs)) && Covered(Union(ivs)) == Covered(ivs)
    ensures AllPositive(ivs) ==> AllPositive(Union(ivs))
    ensures ivs != [] ==> Union(ivs) != []
  {
    var s := Sort(ByStartEnd, ivs);
    SortIsOrdered(ivs);
    MergeCorrect(s);
    MergeStarts(s);
    assert Covered(s) == Covered(ivs);
    if AllPositive(ivs) {
      forall i | 0 <= i < |s| ensures s[i].start < s[i].end {
        assert s[i] in ivs;
      }
    }
  }

  lemma {:induction false} MillisecondsSize(iv: Interval)
    ensures |Milliseconds(iv)| == Duration(iv)
    decreases Duration(iv)
  {
    if iv.start < iv.end {
      var shorter: Interval := Span(iv.start, iv.end - 1);
      MillisecondsSize(shorter);
      OneLonger(iv.start, iv.end - 1);
    } else {
      assert Milliseconds(iv) == {};
    }
  }

  lemma {:induction false} OneLonger(start: int, end: int)
    requires start <= end
    ensures |Milliseconds(Span(start, end + 1))| == |Milliseconds(Span(start, end))| + 1
  {
    var shorter: Interval := Span(start, end);
    var longer: Interval := Span(start, end + 1);
    assert Milliseconds(longer) == Milliseconds(shorter) + {end};
    assert end !in Milliseconds(shorter);
  }

  lemma {:induction false} SumIsCardinality(ivs: seq<Interval>)
    requires Separated(ivs)
    ensures Sum(ivs) == |Covered(ivs)|
  {
    if ivs != [] {
      var n := |ivs| - 1;
      SumIsCardinality(ivs[..n]);
      CoveredSplit(ivs);
      MillisecondsSize(ivs[n]);
      forall t | t in Covered(ivs[..n]) ensures t !in Milliseconds(ivs[n]) {
        var iv :| iv in ivs[..n] && t in Milliseconds(iv);
      }
      assert Covered(ivs[..n]) !! Milliseconds(ivs[n]);
    }
  }

  /** The talk time reported is the number of distinct milliseconds spoken. */
  lemma DurationIsCardinality(ivs: seq<Interval>)
    ensures TotalDuration(ivs) == |Covered(ivs)|
  {
    UnionCorrect(ivs);
    SumIsCardinality(Union(ivs));
  }

  lemma SubsetSize<T>(a: set<T>, b: set<T>)
    requires a <= b
    ensures |a| <= |b|
  {
    assert b == a + (b - a);
  }

  /** Order and repetition do not matter, and more intervals never mean less time. */
  lemma DurationMonotone(a: seq<Interval>, b: seq<Interval>)
    requires forall iv :: iv in a ==> iv in b
    ensures TotalDuration(a) <= TotalDuration(b)
    ensures (forall iv :: iv in b ==> iv in a) ==> TotalDuration(a) == TotalDuration(b)
  {
    DurationIsCardinality(a);
    DurationIsCardinality(b);
    assert Covered(a) <= Covered(b);
    SubsetSize(Covered(a), Covered(b));
    if forall iv :: iv in b ==> iv in a {
      assert Covered(a) == Covered(b);
    }
  }

  /** Concatenation obeys inclusion-exclusion: the double count is exactly the shared time. */
  lemma DurationInclusionExclusion(a: seq<Interval>, b: seq<Interval>)
    ensures TotalDuration(a + b) + |Covered(a) * Covered(b)| == TotalDuration(a) + TotalDuration(b)
  {
    DurationIsCardinality(a);
    DurationIsCardinality(b);
    DurationIsCardinality(a + b);
    assert Covered(a + b) == Covered(a) + Covered(b);
  }

  lemma CoveredAt(ivs: seq<Interval>, i: nat, t: int)
    requires i < |ivs| && ivs[i].start <= t < ivs[i].end
    ensures t in Covered(ivs)
  {
    assert ivs[i] in ivs && t in Milliseconds(ivs[i]);
  }

  lemma {:induction false} CoverageIsCanonicalSuffix(a: seq<Interval>, b: seq<Interval>)
    requires Separated(a) && Separated(b) && AllPositive(a) && AllPositive(b)
    requires Covered(a) == Covered(b)
    ensures a == b
  {
    if a == [] {
      if b != [] { CoveredAt(b, 0, b[0].start); }
    } else {
      CoveredAt(a, |a| - 1, a[|a| - 1].end - 1);
      assert b != [];
      LastsAgree(a, b);
      Apart(a);
      Apart(b);
      CoverageIsCanonicalSuffix(a[..|a| - 1], b[..|b| - 1]);
      assert a == a[..|a| - 1] + [a[|a| - 1]] && b == b[..|b| - 1] + [b[|b| - 1]];
    }
  }

  lemma {:induction false} LastsAgree(a: seq<Interval>, b: seq<Interval>)
    requires Separated(a) && Separated(b) && AllPositive(a) && AllPositive(b)
    requires Covered(a) == Covered(b) && a != [] && b != []
    ensures a[|a| - 1] == b[|b| - 1]
  {
    var x, y := a[|a| - 1], b[|b| - 1];
    CoveredAt(a, |a| - 1, x.end - 1);
    CoveredAt(b, |b| - 1, y.end - 1);
    LastReach(a);
    LastReach(b);
    assert x.end == y.end;
    if x.start < y.start { CoveredAt(a, |a| - 1, y.start - 1); JustBefore(b); }
    if y.start < x.start { CoveredAt(b, |b| - 1, x.start - 1); JustBefore(a); }
  }

  lemma LastReach(a: seq<Interval>)
    requires a != [] && Separated(a)
    ensures forall t :: t in Covered(a) ==> t < a[|a| - 1].end
  {
  }

  lemma JustBefore(a: seq<Interval>)
    requires a != [] && Separated(a)
    ensures a[|a| - 1].start - 1 !in Covered(a)
  {
    var before := a[|a| - 1].start - 1;
    forall iv | iv in a ensures before !in Milliseconds(iv) {
      var i :| 0 <= i < |a| && a[i] == iv;
      assert i < |a| - 1 ==> a[i].end < a[|a| - 1].start;
    }
  }

  lemma Apart(a: seq<Interval>)
    requires a != [] && Separated(a)
    ensures Covered(a[..|a| - 1]) == Covered(a) - Milliseconds(a[|a| - 1])
  {
    CoveredSplit(a);
    assert forall iv :: iv in a[..|a| - 1] ==> iv.end < a[|a| - 1].start;
    assert Covered(a[..|a| - 1]) !! Milliseconds(a[|a| - 1]);
  }

  /** For non-empty intervals the merged list is a normal form of the covered set: two lists merge
      to the same result exactly when they cover the same milliseconds. */
  lemma UnionIsCanonical(a: seq<Interval>, b: seq<Interval>)
    requires AllPositive(a) && AllPositive(b)
    ensures Union(a) == Union(b) <==> Covered(a) == Covered(b)
  {
    UnionCorrect(a);
    UnionCorrect(b);
    if Covered(a) == Covered(b) {
      CoverageIsCanonicalSuffix(Union(a), Union(b));
    }
  }
}
