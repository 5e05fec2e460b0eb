/** Repeated failures inside a rolling window:
    packages/infrastructure/database/repositories/analytics_repository.py, lines 272-328. */
module RepeatOffences {
  import opened Wrappers
  import opened Sorting

  datatype Row = Row(agent: Option<string>, decidedAt: int, failed: seq<string>)

  type Key = (string, string)  // agent, check

  datatype Offence = Offence(key: Key, occurrences: nat, windowStart: int, windowEnd: int)

  /** Times are in microseconds, the resolution of a Python datetime. */
  const DAY := 86_400_000_000

  predicate LeqInt(a: int, b: int) { a <= b }

  predicate MoreFirst(a: Offence, b: Offence) { a.occurrences >= b.occurrences }

  // ---------------------------------------------------------------- what is counted

  function Within(lo: int, hi: int): int -> bool { (x: int) => lo <= x <= hi }

  function CountIn(moments: seq<int>, lo: int, hi: int): nat { |Filter(Within(lo, hi), moments)| }

  /** The closed window of a given length that opens at t. */
  function CountFrom(moments: seq<int>, t: int, window: int): nat { CountIn(moments, t, t + window) }

  function Repeated(failed: seq<string>, check: string, at: int): seq<int> {
    if failed == [] then []
    else Repeated(failed[..|failed| - 1], check, at) + if failed[|failed| - 1] == check then [at] else []
  }

  predicate ByAgent(row: Row, agent: string) { row.agent == Some(agent) && agent != "" }

  /** Every failure of a check by an agent, one entry per failure. */
  function Moments(rows: seq<Row>, k: Key): seq<int> {
    if rows == [] then []
    else
      var row := rows[|rows| - 1];
      Moments(rows[..|rows| - 1], k) + if ByAgent(row, k.0) then Repeated(row.failed, k.1, row.decidedAt) else []
  }

  function Lookup(occurrences: map<Key, seq<int>>, k: Key): seq<int> {
    if k in occurrences then occurrences[k] else []
  }

  ghost predicate Occurs(occurrences: map<Key, seq<int>>, rows: seq<Row>) {
    forall k :: Lookup(occurrences, k) == Moments(rows, k) && (k in occurrences ==> occurrences[k] != [])
  }

  /** A key is repeated when some closed window of the given length holds enough failures. */
  ghost predicate Repeats(rows: seq<Row>, k: Key, window: int, threshold: int) {
    Moments(rows, k) != [] && exists t :: CountFrom(Moments(rows, k), t, window) >= threshold
  }

  // ---------------------------------------------------------------- the scan

  /** Moves the start of the window up until it reaches back no further than allowed. */
  method MoveStart(moments: seq<int>, from: nat, endIndex: nat, window: int) returns (startIndex: nat)
    requires from <= endIndex < |moments| && window >= 0
    requires forall k :: 0 <= k < from ==> moments[endIndex] - moments[k] > window
    ensures from <= startIndex <= endIndex && moments[endIndex] - moments[startIndex] <= window
    ensures forall k :: 0 <= k < startIndex ==> moments[endIndex] - moments[k] > window
  {
    startIndex := from;
    while moments[endIndex] - moments[startIndex] > window
      invariant from <= startIndex <= endIndex
      invariant forall k :: 0 <= k < startIndex ==> moments[endIndex] - moments[k] > window
      decreases endIndex - startIndex
    {
      startIndex := startIndex + 1;
    }
  }

  /** The stretch from a to b is as long as any, and is what will be reported. */
  ghost predicate Reports(moments: seq<int>, n: nat, window: int, a: nat, b: nat, best: nat, start: int, end: int)
    requires n <= |moments|
  {
    && a <= b < n && best == b - a + 1 && start == moments[a] && end == moments[b] && end - start <= window
  }

  /** Two pointers, one pass: the busiest window, and no more moves of its start than there are moments. */
  method BusiestWindow(moments: seq<int>, window: int)
    returns (best: nat, start: int, end: int, ghost advances: nat)
    requires moments != [] && SortedBy(LeqInt, moments) && window >= 0
    ensures start <= end <= start + window && CountIn(moments, start, end) == best > 0
    ensures forall t :: CountFrom(moments, t, window) <= best
    ensures advances < |moments|
  {
    best, start, end := 0, 0, 0;
    var startIndex := 0;
    ghost var a, b := 0, 0;
    for endIndex := 0 to |moments|
      invariant startIndex <= endIndex && (endIndex > 0 ==> startIndex < endIndex)
      invariant forall k :: 0 <= k < startIndex ==> moments[endIndex - 1] - moments[k] > window
      invariant SpansBounded(moments, endIndex, window, best)
      invariant if endIndex == 0 then best == 0 else Reports(moments, endIndex, window, a, b, best, start, end)
    {
      assert endIndex > 0 ==> LeqInt(moments[endIndex - 1], moments[endIndex]);
      startIndex := MoveStart(moments, startIndex, endIndex, window);
      var count := endIndex - startIndex + 1;
      if count > best {
        SpansLoosen(moments, endIndex, window, best, count);
        best := count;
        start, end := moments[startIndex], moments[endIndex];
        a, b := startIndex, endIndex;
      }
      SpansGrow(moments, endIndex, window, startIndex, best);
    }
    advances := startIndex;
    WindowsBounded(moments, window, best);
    WindowHolds(moments, a, b, window, best);
    assert a < b ==> LeqInt(start, end);
  }

  method CollectOccurrences(rows: seq<Row>) returns (occurrences: map<Key, seq<int>>)
    ensures Occurs(occurrences, rows)
  {
    occurrences := map[];
    for i := 0 to |rows|
      invariant Occurs(occurrences, rows[..i])
    {
      var row := rows[i];
      assert rows[..i + 1][..i] == rows[..i];
      assert rows[..i + 1] == rows[..i] + [row];
      if row.agent.Some? && row.agent.value != "" {
        occurrences := AddFailures(occurrences, rows[..i], row);
      } else {
        forall k { MomentsAppend(rows[..i], row, k); }
      }
    }
    assert rows[..|rows|] == rows;
  }

  method AddFailures(before: map<Key, seq<int>>, ghost seen: seq<Row>, row: Row) returns (after: map<Key, seq<int>>)
    requires Occurs(before, seen) && row.agent.Some? && row.agent.value != ""
    ensures Occurs(after, seen + [row])
  {
    after := before;
    NoFailures(before, seen, row);
    for j := 0 to |row.failed|
      invariant Occurs(after, seen + [row.(failed := row.failed[..j])])
    {
      var key := (row.agent.value, row.failed[j]);
      OneMoreFailure(after, seen, row, j);
      after := after[key := Lookup(after, key) + [row.decidedAt]];
    }
    assert row.failed[..|row.failed|] == row.failed;
  }

  /** The busiest window of one agent and check, reported when it is busy enough. */
  method Flag(rows: seq<Row>, key: Key, moments: seq<int>, window: int, threshold: int) returns (found: Option<Offence>)
    requires moments == Moments(rows, key) != [] && window >= 0
    ensures found.Some? <==> Repeats(rows, key, window, threshold)
    ensures found.Some? ==> found.value.key == key && Busiest(found.value, moments, window)
  {
    var sorted := Sort(LeqInt, moments);
    SortSorts(LeqInt, moments);
    var best, start, end, advances := BusiestWindow(sorted, window);
    var o := Offence(key, best, start, end);
    BusiestTransfers(o, sorted, moments, window);
    BusiestDecides(o, moments, window, threshold);
    found := if best >= threshold then Some(o) else None;
  }

  method FindRepeatOffences(rows: seq<Row>, windowDays: nat, threshold: int) returns (offences: seq<Offence>)
    ensures forall k :: Reported(offences, k) <==> Repeats(rows, k, windowDays * DAY, threshold)
    ensures forall o :: o in offences ==> Busiest(o, Moments(rows, o.key), windowDays * DAY)
    ensures OnePerKey(offences)
    ensures SortedBy(MoreFirst, offences)
  {
    var occurrences := CollectOccurrences(rows);
    var window := windowDays * DAY;
    offences := [];
    var todo := occurrences.Keys;
    while todo != {}
      invariant todo <= occurrences.Keys
      invariant Flagged(offences, rows, todo, window, threshold)
      decreases todo
    {
      var key :| key in todo;
      assert Lookup(occurrences, key) == Moments(rows, key);
      var found := Flag(rows, key, occurrences[key], window, threshold);
      FlaggedNext(offences, rows, todo, window, threshold, key, found);
      offences := if found.Some? then offences + [found.value] else offences;
      todo := todo - {key};
    }
    assert Flagged(offences, rows, {}, window, threshold);
    offences := SortOffences(offences, rows, window, threshold);
  }

  method SortOffences(found: seq<Offence>, ghost rows: seq<Row>, ghost window: int, ghost threshold: int)
    returns (offences: seq<Offence>)
    requires Flagged(found, rows, {}, window, threshold)
    ensures Flagged(offences, rows, {}, window, threshold) && SortedBy(MoreFirst, offences)
  {
    SortSorts(MoreFirst, found);
    offences := Sort(MoreFirst, found);
    SameReports(found, offences);
    KeysStayDistinct(found, offences);
  }

  predicate Reported(offences: seq<Offence>, k: Key) { exists i :: 0 <= i < |offences| && offences[i].key == k }

  predicate OnePerKey(offences: seq<Offence>) {
    forall i, j :: 0 <= i < j < |offences| ==> offences[i].key != offences[j].key
  }

  /** The reports are right for every key that is not still to do. */
  ghost predicate Flagged(offences: seq<Offence>, rows: seq<Row>, todo: set<Key>, window: int, threshold: int) {
    && (forall k :: k !in todo ==> (Reported(offences, k) <==> Repeats(rows, k, window, threshold)))
    && (forall k :: k in todo ==> !Reported(offences, k))
    && (forall o :: o in offences ==> Busiest(o, Moments(rows, o.key), window))
    && OnePerKey(offences)
  }

  /** An offence reports a window that holds exactly its count, and no window holds more. */
  ghost predicate Busiest(o: Offence, moments: seq<int>, window: int) {
    && o.windowStart <= o.windowEnd <= o.windowStart + window
    && CountIn(moments, o.windowStart, o.windowEnd) == o.occurrences
    && forall t :: CountFrom(moments, t, window) <= o.occurrences
  }

  // ---------------------------------------------------------------- proofs

  lemma {:induction false} MomentsAppend(seen: seq<Row>, row: Row, k: Key)
    ensures Moments(seen + [row], k)
         == Moments(seen, k) + if ByAgent(row, k.0) then Repeated(row.failed, k.1, row.decidedAt) else []
  {
    assert (seen + [row])[..|seen|] == seen;
  }

  lemma NoFailures(occurrences: map<Key, seq<int>>, seen: seq<Row>, row: Row)
    requires Occurs(occurrences, seen)
    ensures Occurs(occurrences, seen + [row.(failed := row.failed[..0])])
  {
    forall k ensures Moments(seen + [row.(failed := row.failed[..0])], k) == Moments(seen, k) {
      MomentsAppend(seen, row.(failed := row.failed[..0]), k);
    }
  }

  lemma {:induction false} OneMoreFailure(occurrences: map<Key, seq<int>>, seen: seq<Row>, row: Row, j: nat)
    requires j < |row.failed| && row.agent.Some? && row.agent.value != ""
    requires Occurs(occurrences, seen + [row.(failed := row.failed[..j])])
    ensures
      var key := (row.agent.value, row.failed[j]);
      Occurs(occurrences[key := Lookup(occurrences, key) + [row.decidedAt]], seen + [row.(failed := row.failed[..j + 1])])
  {
    var key := (row.agent.value, row.failed[j]);
    var after := occurrences[key := Lookup(occurrences, key) + [row.decidedAt]];
    forall k ensures Lookup(after, k) == Moments(seen + [row.(failed := row.failed[..j + 1])], k)
                  && (k in after ==> after[k] != [])
    {
      MomentsGrow(seen, row, j, k);
      assert Lookup(occurrences, k) == Moments(seen + [row.(failed := row.failed[..j])], k);
    }
  }

  lemma {:induction false} MomentsGrow(seen: seq<Row>, row: Row, j: nat, k: Key)
    requires j < |row.failed|
    ensures Moments(seen + [row.(failed := row.failed[..j + 1])], k)
         == Moments(seen + [row.(failed := row.failed[..j])], k)
          + if ByAgent(row, k.0) && row.failed[j] == k.1 then [row.decidedAt] else []
  {
    MomentsAppend(seen, row.(failed := row.failed[..j]), k);
    MomentsAppend(seen, row.(failed := row.failed[..j + 1]), k);
    assert row.failed[..j + 1][..j] == row.failed[..j];
    if ByAgent(row, k.0) {
      Associate(Moments(seen, k), Repeated(row.failed[..j], k.1, row.decidedAt),
                if row.failed[j] == k.1 then [row.decidedAt] else []);
    }
  }

  lemma Associate(a: seq<int>, b: seq<int>, c: seq<int>)
    ensures a + (b + c) == a + b + c
  {
  }

  /** Among the first n moments, any stretch that fits the window has at most best members. */
  ghost predicate SpansBounded(moments: seq<int>, n: nat, window: int, best: nat)
    requires n <= |moments|
  {
    forall i, j :: 0 <= i <= j < n && moments[j] - moments[i] <= window ==> j - i + 1 <= best
  }

  lemma SpansLoosen(moments: seq<int>, n: nat, window: int, best: nat, more: nat)
    requires n <= |moments| && best <= more && SpansBounded(moments, n, window, best)
    ensures SpansBounded(moments, n, window, more)
  {
  }

  lemma SpansGrow(moments: seq<int>, n: nat, window: int, startIndex: nat, best: nat)
    requires startIndex <= n < |moments| && best >= n - startIndex + 1
    requires forall k :: 0 <= k < startIndex ==> moments[n] - moments[k] > window
    requires SpansBounded(moments, n, window, best)
    ensures SpansBounded(moments, n + 1, window, best)
  {
  }

  lemma FilterShorter<T>(p: T -> bool, s: seq<T>)
    ensures |Filter(p, s)| <= |s|
  {
  }

  lemma {:induction false} FilterAll<T>(p: T -> bool, s: seq<T>)
    requires forall i :: 0 <= i < |s| ==> p(s[i])
    ensures Filter(p, s) == s
  {
    if s != [] {
      assert forall i :: 0 <= i < |s[1..]| ==> s[1..][i] == s[i + 1];
      FilterAll(p, s[1..]);
    }
  }

  lemma {:induction false} SplitCount(p: int -> bool, s: seq<int>, i: nat, j: nat)
    requires i <= j < |s|
    ensures |Filter(p, s)| == |Filter(p, s[..i])| + |Filter(p, s[i..j + 1])| + |Filter(p, s[j + 1..])|
  {
    assert s == s[..i] + (s[i..j + 1] + s[j + 1..]);
    FilterAppend(p, s[..i], s[i..j + 1] + s[j + 1..]);
    FilterAppend(p, s[i..j + 1], s[j + 1..]);
  }

  lemma LastIn(s: seq<int>, p: int -> bool) returns (j: nat)
    requires Filter(p, s) != []
    ensures j < |s| && p(s[j]) && forall k :: j < k < |s| ==> !p(s[k])
  {
    FilterNone(p, s);
    j :| 0 <= j < |s| && p(s[j]);
    var k := j + 1;
    while k < |s|
      invariant j < k <= |s| && p(s[j])
      invariant forall m :: j < m < k ==> !p(s[m])
    {
      if p(s[k]) { j := k; }
      k := k + 1;
    }
  }

  lemma FirstIn(s: seq<int>, p: int -> bool) returns (i: nat)
    requires Filter(p, s) != []
    ensures i < |s| && p(s[i]) && forall k :: 0 <= k < i ==> !p(s[k])
  {
    FilterNone(p, s);
    i := 0;
    while !p(s[i])
      invariant i < |s| && forall k :: 0 <= k < i ==> !p(s[k])
      invariant exists k :: i <= k < |s| && p(s[k])
      decreases |s| - i
    {
      i := i + 1;
    }
  }

  lemma WindowsBounded(moments: seq<int>, window: int, best: nat)
    requires SortedBy(LeqInt, moments) && SpansBounded(moments, |moments|, window, best)
    ensures forall t :: CountFrom(moments, t, window) <= best
  {
    forall t ensures CountFrom(moments, t, window) <= best {
      var p := Within(t, t + window);
      if Filter(p, moments) != [] {
        var i := FirstIn(moments, p);
        var j := LastIn(moments, p);
        assert i <= j;
        SplitCount(p, moments, i, j);
        FilterNone(p, moments[..i]);
        FilterNone(p, moments[j + 1..]);
        FilterShorter(p, moments[i..j + 1]);
      }
    }
  }

  lemma {:induction false} WindowHolds(moments: seq<int>, a: nat, b: nat, window: int, best: nat)
    requires SortedBy(LeqInt, moments) && a <= b < |moments| && best == b - a + 1
    requires moments[b] - moments[a] <= window
    requires forall t :: CountFrom(moments, t, window) <= best
    ensures CountIn(moments, moments[a], moments[b]) == best
  {
    StretchCounts(moments, a, b);
    WiderCounts(moments, moments[a], moments[b], moments[a] + window);
    assert CountFrom(moments, moments[a], window) <= best;
  }

  lemma {:induction false} StretchCounts(moments: seq<int>, a: nat, b: nat)
    requires SortedBy(LeqInt, moments) && a <= b < |moments|
    ensures CountIn(moments, moments[a], moments[b]) >= b - a + 1
  {
    var p := Within(moments[a], moments[b]);
    forall k | a <= k <= b ensures p(moments[k]) {
      assert k == a || LeqInt(moments[a], moments[k]);
      assert k == b || LeqInt(moments[k], moments[b]);
    }
    SplitCount(p, moments, a, b);
    FilterAll(p, moments[a..b + 1]);
  }

  lemma {:induction false} WiderCounts(s: seq<int>, lo: int, hi: int, higher: int)
    requires hi <= higher
    ensures CountIn(s, lo, hi) <= CountIn(s, lo, higher)
  {
    if s != [] {
      WiderCounts(s[1..], lo, hi, higher);
    }
  }

  lemma SameCounts(a: seq<int>, b: seq<int>, window: int)
    requires multiset(a) == multiset(b)
    ensures forall lo, hi :: CountIn(a, lo, hi) == CountIn(b, lo, hi)
    ensures forall t :: CountFrom(a, t, window) == CountFrom(b, t, window)
  {
    forall lo, hi ensures CountIn(a, lo, hi) == CountIn(b, lo, hi) {
      FilterMultiset(Within(lo, hi), a, b);
    }
  }

  lemma BusiestTransfers(o: Offence, a: seq<int>, b: seq<int>, window: int)
    requires multiset(a) == multiset(b) && Busiest(o, a, window)
    ensures Busiest(o, b, window)
  {
    SameCounts(a, b, window);
  }

  lemma BusiestDecides(o: Offence, moments: seq<int>, window: int, threshold: int)
    requires Busiest(o, moments, window)
    ensures o.occurrences >= threshold <==> exists t :: CountFrom(moments, t, window) >= threshold
  {
    WiderCounts(moments, o.windowStart, o.windowEnd, o.windowStart + window);
    assert CountFrom(moments, o.windowStart, window) >= o.occurrences;
  }

  lemma FlaggedNext(offences: seq<Offence>, rows: seq<Row>, todo: set<Key>, window: int, threshold: int,
                    key: Key, found: Option<Offence>)
    requires Flagged(offences, rows, todo, window, threshold) && key in todo
    requires found.Some? <==> Repeats(rows, key, window, threshold)
    requires found.Some? ==> found.value.key == key && Busiest(found.value, Moments(rows, key), window)
    ensures Flagged(if found.Some? then offences + [found.value] else offences, rows, todo - {key}, window, threshold)
  {
    if found.Some? {
      ReportMore(offences, found.value);
    }
  }

  lemma ReportMore(offences: seq<Offence>, o: Offence)
    ensures forall k :: Reported(offences + [o], k) <==> Reported(offences, k) || k == o.key
    ensures OnePerKey(offences) && !Reported(offences, o.key) ==> OnePerKey(offences + [o])
    ensures forall x :: x in offences + [o] <==> x in offences || x == o
  {
    var more := offences + [o];
    assert more[|offences|].key == o.key;
    forall k ensures Reported(more, k) <==> Reported(offences, k) || k == o.key {
      if i :| 0 <= i < |offences| && offences[i].key == k { assert more[i].key == k; }
    }
  }

  lemma SameReports(a: seq<Offence>, b: seq<Offence>)
    requires forall x :: x in a <==> x in b
    ensures forall k :: Reported(a, k) <==> Reported(b, k)
  {
    forall k ensures Reported(a, k) <==> Reported(b, k) {
      if i :| 0 <= i < |a| && a[i].key == k { assert a[i] in b; }
      if i :| 0 <= i < |b| && b[i].key == k { assert b[i] in a; }
    }
  }

  function HasKey(k: Key): Offence -> bool { (o: Offence) => o.key == k }

  lemma KeysStayDistinct(a: seq<Offence>, b: seq<Offence>)
    requires multiset(a) == multiset(b) && OnePerKey(a)
    ensures OnePerKey(b)
  {
    forall i, j | 0 <= i < j < |b| ensures b[i].key != b[j].key {
      var p := HasKey(b[i].key);
      FilterMultiset(p, a, b);
      FilterTwo(p, a);
      FilterTwo(p, b);
    }
  }
}
