/** Date-effective check versions: packages/domain/check_library.py, lines 93-183. */
module CheckLibrary {
  import opened Wrappers
  import opened Sorting

  /** A version in force from a date to an inclusive end date, or indefinitely. */
  datatype Version = Version(id: string, number: int, from: int, to: Option<int>)

  datatype ResolutionError = OverlappingPeriods | NoApplicableVersion | MultipleVersions

  datatype CreationError = InvalidEffectivePeriod

  predicate Proper(v: Version) { v.to.None? || v.from <= v.to.value }

  function Create(id: string, number: int, from: int, to: Option<int>): Result<Version, CreationError> {
    if to.Some? && to.value < from then Err(InvalidEffectivePeriod) else Ok(Version(id, number, from, to))
  }

  predicate InForce(v: Version, date: int) { v.from <= date && (v.to.None? || date <= v.to.value) }

  function On(date: int): Version -> bool { (v: Version) => InForce(v, date) }

  predicate ByFrom(a: Version, b: Version) { a.from <= b.from }

  predicate EndsBefore(a: Version, b: Version) { a.to.Some? && a.to.value < b.from }

  /** What the code checks: neighbours after sorting by start date. */
  ghost predicate NeighboursApart(versions: seq<Version>) {
    var s := Sort(ByFrom, versions);
    forall i :: 0 <= i < |s| - 1 ==> EndsBefore(s[i], s[i + 1])
  }

  /** What the check is for: no date on which two versions are in force. */
  ghost predicate NeverTwoInForce(versions: seq<Version>) {
    forall date :: |Filter(On(date), versions)| <= 1
  }

  ghost function Resolution(versions: seq<Version>, date: int): Result<Version, ResolutionError> {
    var matches := Filter(On(date), versions);
    if !NeighboursApart(versions) then Err(OverlappingPeriods)
    else if matches == [] then Err(NoApplicableVersion)
    else if |matches| > 1 then Err(MultipleVersions)
    else Ok(matches[0])
  }

  method ValidateNonOverlapping(versions: seq<Version>) returns (ok: bool)
    ensures ok <==> NeighboursApart(versions)
  {
    var s := Sort(ByFrom, versions);
    var i := 0;
    while i + 1 < |s|
      invariant 0 <= i
      invariant forall k :: 0 <= k < i && k + 1 < |s| ==> EndsBefore(s[k], s[k + 1])
    {
      if s[i].to.None? || s[i].to.value >= s[i + 1].from {
        assert !EndsBefore(s[i], s[i + 1]);
        return false;
      }
      i := i + 1;
    }
    return true;
  }

  method Resolve(versions: seq<Version>, date: int) returns (r: Result<Version, ResolutionError>)
    ensures r == Resolution(versions, date)
  {
    var ok := ValidateNonOverlapping(versions);
    if !ok { return Err(OverlappingPeriods); }
    var matches := [];
    for i := 0 to |versions|
      invariant matches == Filter(On(date), versions[..i])
    {
      var v := versions[i];
      FilterAppend(On(date), versions[..i], [v]);
      assert versions[..i + 1] == versions[..i] + [v];
      if v.from <= date {
        if v.to.None? || date <= v.to.value {
          matches := matches + [v];
        }
      }
    }
    assert versions[..|versions|] == versions;
    if matches == [] { return Err(NoApplicableVersion); }
    if |matches| > 1 { return Err(MultipleVersions); }
    return Ok(matches[0]);
  }

  lemma AllApart(versions: seq<Version>)
    requires NeighboursApart(versions)
    ensures
      var s := Sort(ByFrom, versions);
      forall i, j :: 0 <= i < j < |s| ==> EndsBefore(s[i], s[j])
  {
    var s := Sort(ByFrom, versions);
    SortSorts(ByFrom, versions);
    forall i, j | 0 <= i < j < |s| ensures EndsBefore(s[i], s[j]) {
      assert EndsBefore(s[i], s[i + 1]);
      assert i + 1 == j || ByFrom(s[i + 1], s[j]);
    }
  }

  /** Checking neighbours is enough: validated versions are pairwise disjoint, with no assumption on
      how they were built. */
  lemma ValidatedNeverTwo(versions: seq<Version>)
    requires NeighboursApart(versions)
    ensures NeverTwoInForce(versions)
  {
    var s := Sort(ByFrom, versions);
    SortSorts(ByFrom, versions);
    AllApart(versions);
    forall date ensures |Filter(On(date), versions)| <= 1 {
      FilterMultiset(On(date), s, versions);
      FilterTwo(On(date), s);
    }
  }

  /** And it demands no more than that of versions made by Create: it accepts them exactly when no
      date has two in force. */
  lemma ValidatedIffNeverTwo(versions: seq<Version>)
    requires forall v :: v in versions ==> Proper(v)
    ensures NeighboursApart(versions) <==> NeverTwoInForce(versions)
  {
    if NeighboursApart(versions) {
      ValidatedNeverTwo(versions);
    } else {
      var s := Sort(ByFrom, versions);
      SortSorts(ByFrom, versions);
      var i :| 0 <= i < |s| - 1 && !EndsBefore(s[i], s[i + 1]);
      var date := s[i + 1].from;
      assert ByFrom(s[i], s[i + 1]);
      assert s[i + 1] in versions;
      assert On(date)(s[i]) && On(date)(s[i + 1]);
      FilterTwo(On(date), s);
      FilterMultiset(On(date), s, versions);
    }
  }

  /** The "multiple matches" error cannot happen, and a resolved version is the only one in force. */
  lemma ResolutionUnambiguous(versions: seq<Version>, date: int)
    ensures Resolution(versions, date) != Err(MultipleVersions)
    ensures Resolution(versions, date).Ok? ==>
        exists i :: 0 <= i < |versions| && versions[i] == Resolution(versions, date).value && InForce(versions[i], date)
                 && forall j :: 0 <= j < |versions| && InForce(versions[j], date) ==> j == i
  {
    if NeighboursApart(versions) {
      ValidatedNeverTwo(versions);
      assert |Filter(On(date), versions)| <= 1;
      FilterIn(On(date), versions);
      FilterTwo(On(date), versions);
      if Filter(On(date), versions) != [] {
        var v := Filter(On(date), versions)[0];
        assert v in Filter(On(date), versions);
        var i :| 0 <= i < |versions| && versions[i] == v;
        forall j | 0 <= j < |versions| && InForce(versions[j], date) ensures j == i {
          assert On(date)(versions[i]) && On(date)(versions[j]);
        }
      }
    }
  }

  /** For versions made by Create the answer does not depend on the order they are listed in. */
  lemma ResolutionIgnoresOrder(a: seq<Version>, b: seq<Version>, date: int)
    requires multiset(a) == multiset(b) && forall v :: v in a ==> Proper(v)
    ensures Resolution(a, date) == Resolution(b, date)
  {
    SameMembers(a, b);
    ValidatedIffNeverTwo(a);
    ValidatedIffNeverTwo(b);
    forall d ensures |Filter(On(d), a)| == |Filter(On(d), b)| {
      FilterMultiset(On(d), a, b);
    }
    if NeighboursApart(a) && NeighboursApart(b) {
      AcceptedAlike(a, b, date);
    }
  }

  lemma AcceptedAlike(a: seq<Version>, b: seq<Version>, date: int)
    requires multiset(a) == multiset(b) && NeighboursApart(a) && NeighboursApart(b)
    ensures Resolution(a, date) == Resolution(b, date)
  {
    FilterMultiset(On(date), a, b);
    ResolutionUnambiguous(a, date);
    ResolutionUnambiguous(b, date);
    var m, n := Filter(On(date), a), Filter(On(date), b);
    if |m| == 1 {
      assert m == [m[0]] && n == [n[0]];
      assert n[0] in multiset(n);
      assert n[0] in multiset(m);
    }
  }

  // ---------------------------------------------------------------- when order matters

  /** A period that ends before it starts, beside a proper one with the same start date. */
  ghost predicate MixedStart(versions: seq<Version>) {
    exists a, b :: a in versions && b in versions && Proper(a) && !Proper(b) && a.from == b.from
  }

  ghost predicate SameInEveryOrder(versions: seq<Version>) {
    forall w, date :: multiset(w) == multiset(versions) ==> Resolution(w, date) == Resolution(versions, date)
  }

  /** Versions that are accepted in one order resolve alike in every order exactly when no inverted period shares its
      start date with a proper one. */
  lemma OrderMattersIff(versions: seq<Version>)
    requires NeighboursApart(versions)
    ensures SameInEveryOrder(versions) <==> !MixedStart(versions)
  {
    if !MixedStart(versions) {
      forall w, date | multiset(w) == multiset(versions) ensures Resolution(w, date) == Resolution(versions, date) {
        StaysAccepted(versions, w);
        AcceptedAlike(w, versions, date);
      }
    } else {
      var a, b :| a in versions && b in versions && Proper(a) && !Proper(b) && a.from == b.from;
      var w := BringForward(versions, a, b);
      RejectedAhead(a, b, w[2..]);
      assert w == [a, b] + w[2..];
      ResolutionUnambiguous(versions, 0);
      assert Resolution(w, 0) != Resolution(versions, 0);
    }
  }

  lemma StaysAccepted(versions: seq<Version>, w: seq<Version>)
    requires NeighboursApart(versions) && !MixedStart(versions) && multiset(w) == multiset(versions)
    ensures NeighboursApart(w)
  {
    var t := Sort(ByFrom, w);
    SortSorts(ByFrom, w);
    forall i | 0 <= i < |t| - 1 ensures EndsBefore(t[i], t[i + 1]) {
      assert ByFrom(t[i], t[i + 1]);
      if Proper(t[i]) {
        SameMembers(t, versions);
        assert t[i] in versions && t[i + 1] in versions;
        if t[i].from == t[i + 1].from {
          TwoInForce(versions, t, i);
        } else {
          ApartInAnyOrder(versions, t[i], t[i + 1]);
        }
      }
    }
  }

  lemma TwoInForce(versions: seq<Version>, t: seq<Version>, i: nat)
    requires multiset(t) == multiset(versions) && i + 1 < |t| && t[i].from == t[i + 1].from
    requires Proper(t[i]) && Proper(t[i + 1])
    ensures !NeighboursApart(versions)
  {
    var date := t[i].from;
    assert On(date)(t[i]) && On(date)(t[i + 1]);
    FilterTwo(On(date), t);
    FilterMultiset(On(date), t, versions);
    if NeighboursApart(versions) {
      ValidatedNeverTwo(versions);
    }
  }

  lemma ApartInAnyOrder(versions: seq<Version>, x: Version, y: Version)
    requires NeighboursApart(versions) && x in versions && y in versions && x.from < y.from
    ensures EndsBefore(x, y)
  {
    var s := Sort(ByFrom, versions);
    SortSorts(ByFrom, versions);
    AllApart(versions);
    EarlierEndsBefore(s, x, y);
  }

  lemma {:induction false} EarlierEndsBefore(s: seq<Version>, x: Version, y: Version)
    requires forall i, j :: 0 <= i < j < |s| ==> EndsBefore(s[i], s[j])
    requires SortedBy(ByFrom, s) && x in s && y in s && x.from < y.from
    ensures EndsBefore(x, y)
  {
    var i :| 0 <= i < |s| && s[i] == x;
    var j :| 0 <= j < |s| && s[j] == y;
    assert forall p, q :: 0 <= p < q < |s| ==> s[p].from <= s[q].from;
  }

  /** The same versions with two given ones in front. */
  lemma BringForward(versions: seq<Version>, a: Version, b: Version) returns (w: seq<Version>)
    requires a in versions && b in versions && a != b
    ensures |w| >= 2 && w[0] == a && w[1] == b && multiset(w) == multiset(versions)
  {
    var rest := TakeOut(versions, a);
    assert b in multiset(versions) && b in multiset(rest);
    var others := TakeOut(rest, b);
    w := [a] + ([b] + others);
  }

  lemma TakeOut(versions: seq<Version>, a: Version) returns (rest: seq<Version>)
    requires a in versions
    ensures multiset(versions) == multiset(rest) + multiset{a}
  {
    var i :| 0 <= i < |versions| && versions[i] == a;
    WithoutOne(versions, i);
    rest := versions[..i] + versions[i + 1..];
  }

  lemma {:induction false} InsertTwo(a: Version, b: Version, s: seq<Version>) returns (k: nat)
    requires a.from == b.from
    ensures
      var t := Insert(ByFrom, a, Insert(ByFrom, b, s));
      k + 1 < |t| && t[k] == a && t[k + 1] == b
  {
    if s == [] || ByFrom(b, s[0]) {
      k := 0;
    } else {
      var i := InsertTwo(a, b, s[1..]);
      assert Insert(ByFrom, b, s)[1..] == Insert(ByFrom, b, s[1..]);
      k := i + 1;
    }
  }

  lemma RejectedAhead(a: Version, b: Version, rest: seq<Version>)
    requires Proper(a) && a.from == b.from
    ensures !NeighboursApart([a, b] + rest)
  {
    var w := [a, b] + rest;
    assert w[1..] == [b] + rest && ([b] + rest)[1..] == rest;
    var k := InsertTwo(a, b, Sort(ByFrom, rest));
    assert Sort(ByFrom, w) == Insert(ByFrom, a, Insert(ByFrom, b, Sort(ByFrom, rest)));
    assert !EndsBefore(a, b);
  }

  /** Such a list: one inverted period sharing its start date with a proper one. */
  lemma InvertedPeriodBreaksOrder()
    ensures
      var versions := [Version("x", 1, 20, Some(3)), Version("y", 2, 20, Some(30))];
      NeighboursApart(versions) && !SameInEveryOrder(versions)
  {
    var x, y := Version("x", 1, 20, Some(3)), Version("y", 2, 20, Some(30));
    SortPair(x, y);
    assert x in [x, y] && y in [x, y];
    assert MixedStart([x, y]);
    OrderMattersIff([x, y]);
  }

  lemma SortPair(a: Version, b: Version)
    requires ByFrom(a, b)
    ensures Sort(ByFrom, [a, b]) == [a, b]
  {
    assert [a, b][1..] == [b] && [b][1..] == [];
    assert Sort(ByFrom, [b]) == Insert(ByFrom, b, Sort(ByFrom, [])) == [b];
  }

  lemma CreateGuards(id: string, number: int, from: int, to: Option<int>)
    ensures match Create(id, number, from, to)
            case Ok(v) => Proper(v) && exists date :: InForce(v, date)
            case Err(_) => forall date :: !InForce(Version(id, number, from, to), date)
  {
    if Create(id, number, from, to).Ok? {
      assert InForce(Create(id, number, from, to).value, from);
    }
  }
}
