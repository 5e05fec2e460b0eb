/** Python's stable `sorted`, as a function, with the facts its callers rely on. */
module Sorting {

  ghost predicate TotalPreorder<T(!new)>(le: (T, T) -> bool) {
    && (forall a, b :: le(a, b) || le(b, a))
    && (forall a, b, c :: le(a, b) && le(b, c) ==> le(a, c))
  }

  ghost predicate Antisymmetric<T(!new)>(le: (T, T) -> bool) {
    forall a, b :: le(a, b) && le(b, a) ==> a == b
  }

  ghost predicate SortedBy<T>(le: (T, T) -> bool, s: seq<T>) {
    forall i, j :: 0 <= i < j < |s| ==> le(s[i], s[j])
  }

  function Insert<T>(le: (T, T) -> bool, x: T, s: seq<T>): seq<T> {
    if s == [] || le(x, s[0]) then [x] + s else [s[0]] + Insert(le, x, s[1..])
  }

  function Sort<T>(le: (T, T) -> bool, s: seq<T>): seq<T> {
    if s == [] then [] else Insert(le, s[0], Sort(le, s[1..]))
  }

  function Filter<T>(p: T -> bool, s: seq<T>): seq<T> {
    if s == [] then []
    else (if p(s[0]) then [s[0]] else []) + Filter(p, s[1..])
  }

  lemma {:induction false} InsertPermutes<T>(le: (T, T) -> bool, x: T, s: seq<T>)
    ensures multiset(Insert(le, x, s)) == multiset(s) + multiset{x}
  {
    if s != [] && !le(x, s[0]) {
      InsertPermutes(le, x, s[1..]);
      assert s == [s[0]] + s[1..];
    }
  }

  lemma {:induction false} SortPermutes<T>(le: (T, T) -> bool, s: seq<T>)
    ensures multiset(Sort(le, s)) == multiset(s)
  {
    if s != [] {
      SortPermutes(le, s[1..]);
      InsertPermutes(le, s[0], Sort(le, s[1..]));
      assert s == [s[0]] + s[1..];
    }
  }

  lemma SameMembers<T(!new)>(a: seq<T>, b: seq<T>)
    requires multiset(a) == multiset(b)
    ensures |a| == |b| && forall x :: x in a <==> x in b
  {
    assert |a| == |multiset(a)| == |multiset(b)| == |b|;
    forall x ensures x in a <==> x in b {
      assert x in a <==> x in multiset(a);
    }
  }

  lemma {:induction false} InsertSorts<T(!new)>(le: (T, T) -> bool, x: T, s: seq<T>)
    requires TotalPreorder(le) && SortedBy(le, s)
    ensures SortedBy(le, Insert(le, x, s))
  {
    if s != [] && !le(x, s[0]) {
      InsertSorts(le, x, s[1..]);
      InsertPermutes(le, x, s[1..]);
      var r := Insert(le, x, s[1..]);
      forall j | 0 <= j < |r| ensures le(s[0], r[j]) {
        assert r[j] in multiset(r);
        assert r[j] == x || r[j] in s[1..];
      }
    }
  }

  lemma {:induction false} SortIsSorted<T(!new)>(le: (T, T) -> bool, s: seq<T>)
    requires TotalPreorder(le)
    ensures SortedBy(le, Sort(le, s))
  {
    if s != [] {
      SortIsSorted(le, s[1..]);
      InsertSorts(le, s[0], Sort(le, s[1..]));
    }
  }

  lemma SortSorts<T(!new)>(le: (T, T) -> bool, s: seq<T>)
    requires TotalPreorder(le)
    ensures SortedBy(le, Sort(le, s))
    ensures multiset(Sort(le, s)) == multiset(s)
    ensures |Sort(le, s)| == |s|
    ensures forall x :: x in Sort(le, s) <==> x in s
  {
    SortIsSorted(le, s);
    SortPermutes(le, s);
    SameMembers(Sort(le, s), s);
  }

  lemma HeadsAgree<T(!new)>(le: (T, T) -> bool, a: seq<T>, b: seq<T>)
    requires TotalPreorder(le) && Antisymmetric(le)
    requires SortedBy(le, a) && SortedBy(le, b) && multiset(a) == multiset(b) && a != []
    ensures b != [] && a[0] == b[0]
  {
    assert a[0] in multiset(b);
    var j :| 0 <= j < |b| && b[j] == a[0];
    assert b[0] in multiset(a);
    var i :| 0 <= i < |a| && a[i] == b[0];
    assert i != 0 ==> le(a[0], a[i]);
    assert j != 0 ==> le(b[0], b[j]);
  }

  /** Two sorted lists with the same elements are the same list when ties are equalities. */
  lemma {:induction false} SortedUnique<T(!new)>(le: (T, T) -> bool, a: seq<T>, b: seq<T>)
    requires TotalPreorder(le) && Antisymmetric(le)
    requires SortedBy(le, a) && SortedBy(le, b) && multiset(a) == multiset(b)
    ensures a == b
  {
    if a == [] {
      assert |b| == |multiset(b)| == 0;
    } else {
      HeadsAgree(le, a, b);
      SameTails(a, b);
      assert SortedBy(le, a[1..]) && SortedBy(le, b[1..]);
      SortedUnique(le, a[1..], b[1..]);
      assert a == [a[0]] + a[1..] && b == [b[0]] + b[1..];
    }
  }

  lemma SameTails<T>(a: seq<T>, b: seq<T>)
    requires multiset(a) == multiset(b) && a != [] && b != [] && a[0] == b[0]
    ensures multiset(a[1..]) == multiset(b[1..])
  {
    assert a == [a[0]] + a[1..] && b == [b[0]] + b[1..];
    assert multiset(a[1..]) == multiset(a) - multiset{a[0]};
    assert multiset(b[1..]) == multiset(b) - multiset{b[0]};
  }

  lemma FilterIn<T(!new)>(p: T -> bool, s: seq<T>)
    ensures forall x :: x in Filter(p, s) <==> x in s && p(x)
  {
    if s != [] {
      FilterIn(p, s[1..]);
      assert s == [s[0]] + s[1..];
    }
  }

  lemma FilterCons<T>(p: T -> bool, x: T, s: seq<T>)
    ensures Filter(p, [x] + s) == (if p(x) then [x] else []) + Filter(p, s)
  {
    assert ([x] + s)[1..] == s;
  }

  lemma InsertFront<T(!new)>(le: (T, T) -> bool, p: T -> bool, x: T, s: seq<T>)
    requires forall y :: y in s ==> le(x, y)
    ensures Insert(le, x, Filter(p, s)) == [x] + Filter(p, s)
  {
    FilterIn(p, s);
    assert Filter(p, s) != [] ==> Filter(p, s)[0] in Filter(p, s);
  }

  lemma {:induction false} InsertFilter<T(!new)>(le: (T, T) -> bool, p: T -> bool, x: T, s: seq<T>)
    requires TotalPreorder(le) && SortedBy(le, s)
    ensures Filter(p, Insert(le, x, s))
         == if p(x) then Insert(le, x, Filter(p, s)) else Filter(p, s)
  {
    if s == [] || le(x, s[0]) {
      forall y | y in s ensures le(x, y) {
        var i :| 0 <= i < |s| && s[i] == y;
        assert i == 0 || le(s[0], s[i]);
      }
      InsertFront(le, p, x, s);
      FilterCons(p, x, s);
    } else {
      var tail := s[1..];
      assert s == [s[0]] + tail;
      InsertFilter(le, p, x, tail);
      FilterCons(p, s[0], Insert(le, x, tail));
      var kept := if p(s[0]) then [s[0]] else [];
      assert Filter(p, s) == kept + Filter(p, tail);
      assert Filter(p, Insert(le, x, s)) == kept + Filter(p, Insert(le, x, tail));
      if p(s[0]) && p(x) {
        assert Filter(p, s)[0] == s[0] && Filter(p, s)[1..] == Filter(p, tail);
        assert Insert(le, x, Filter(p, s)) == [s[0]] + Insert(le, x, Filter(p, tail));
      } else if !p(s[0]) {
        assert kept == [];
        assert [] + Filter(p, tail) == Filter(p, tail);
      }
    }
  }

  /** Filtering a stably sorted list is sorting the filtered list. */
  lemma {:induction false} SortFilter<T(!new)>(le: (T, T) -> bool, p: T -> bool, s: seq<T>)
    requires TotalPreorder(le)
    ensures Filter(p, Sort(le, s)) == Sort(le, Filter(p, s))
  {
    if s != [] {
      var tail := s[1..];
      SortFilter(le, p, tail);
      SortSorts(le, tail);
      InsertFilter(le, p, s[0], Sort(le, tail));
      assert s == [s[0]] + tail;
      if p(s[0]) {
        assert Filter(p, s) == [s[0]] + Filter(p, tail);
        assert Filter(p, s)[1..] == Filter(p, tail);
      } else {
        assert [] + Filter(p, tail) == Filter(p, tail);
      }
    }
  }

  lemma {:induction false} FilterAppend<T>(p: T -> bool, a: seq<T>, b: seq<T>)
    ensures Filter(p, a + b) == Filter(p, a) + Filter(p, b)
  {
    if a == [] {
      assert a + b == b;
    } else {
      var t := a[1..];
      FilterAppend(p, t, b);
      FilterCons(p, a[0], t);
      FilterCons(p, a[0], t + b);
      assert a + b == [a[0]] + (t + b) && a == [a[0]] + t;
      var kept := if p(a[0]) then [a[0]] else [];
      assert kept + (Filter(p, t) + Filter(p, b)) == (kept + Filter(p, t)) + Filter(p, b);
    }
  }

  lemma {:induction false} FilterFilter<T(!new)>(p: T -> bool, q: T -> bool, r: T -> bool, s: seq<T>)
    requires forall x :: r(x) <==> p(x) && q(x)
    ensures Filter(p, Filter(q, s)) == Filter(r, s)
  {
    if s != [] {
      var t := s[1..];
      FilterFilter(p, q, r, t);
      FilterCons(p, s[0], Filter(q, t));
      var kept := if q(s[0]) then [s[0]] else [];
      assert Filter(q, s) == kept + Filter(q, t);
      assert !q(s[0]) ==> kept + Filter(q, t) == Filter(q, t);
      assert !r(s[0]) ==> Filter(r, s) == Filter(r, t);
      assert q(s[0]) && !p(s[0]) ==> Filter(p, [s[0]] + Filter(q, t)) == Filter(p, Filter(q, t));
    }
  }

  /** Taking the first element of one list out of an equal-as-multiset other list. */
  lemma RemoveHead<T>(a: seq<T>, b: seq<T>) returns (j: nat)
    requires multiset(a) == multiset(b) && a != []
    ensures j < |b| && b[j] == a[0] && multiset(a[1..]) == multiset(b[..j] + b[j + 1..])
  {
    j := FindHead(a, b);
    TailWithout(a);
    WithoutOne(b, j);
  }

  lemma {:induction false} FindHead<T>(a: seq<T>, b: seq<T>) returns (j: nat)
    requires multiset(a) == multiset(b) && a != []
    ensures j < |b| && b[j] == a[0]
  {
    assert a[0] in multiset(b);
    j :| 0 <= j < |b| && b[j] == a[0];
  }

  lemma TailWithout<T>(a: seq<T>)
    requires a != []
    ensures multiset(a[1..]) == multiset(a) - multiset{a[0]}
  {
    assert a == [a[0]] + a[1..];
  }

  lemma WithoutOne<T>(s: seq<T>, j: nat)
    requires j < |s|
    ensures multiset(s[..j] + s[j + 1..]) == multiset(s) - multiset{s[j]}
  {
    assert s == s[..j] + ([s[j]] + s[j + 1..]);
  }

  lemma {:induction false} FilterSplit<T>(p: T -> bool, s: seq<T>, j: nat)
    requires j < |s|
    ensures Filter(p, s) == Filter(p, s[..j]) + ((if p(s[j]) then [s[j]] else []) + Filter(p, s[j + 1..]))
    ensures Filter(p, s[..j] + s[j + 1..]) == Filter(p, s[..j]) + Filter(p, s[j + 1..])
  {
    assert s == s[..j] + ([s[j]] + s[j + 1..]);
    FilterAppend(p, s[..j], [s[j]] + s[j + 1..]);
    FilterCons(p, s[j], s[j + 1..]);
    FilterAppend(p, s[..j], s[j + 1..]);
  }

  lemma {:induction false} FilterPermutes<T>(p: T -> bool, a: seq<T>, b: seq<T>)
    requires multiset(a) == multiset(b)
    ensures multiset(Filter(p, a)) == multiset(Filter(p, b))
  {
    if a == [] {
      assert |b| == |multiset(b)| == 0;
    } else {
      var j := RemoveHead(a, b);
      FilterPermutes(p, a[1..], b[..j] + b[j + 1..]);
      FilterSplit(p, b, j);
    }
  }

  lemma FilterMultiset<T(!new)>(p: T -> bool, a: seq<T>, b: seq<T>)
    requires multiset(a) == multiset(b)
    ensures multiset(Filter(p, a)) == multiset(Filter(p, b))
    ensures |Filter(p, a)| == |Filter(p, b)|
  {
    FilterPermutes(p, a, b);
    SameMembers(Filter(p, a), Filter(p, b));
  }

  lemma {:induction false} FilterNone<T>(p: T -> bool, s: seq<T>)
    ensures Filter(p, s) != [] <==> exists i :: 0 <= i < |s| && p(s[i])
  {
    if s != [] {
      FilterNone(p, s[1..]);
      if p(s[0]) {
        assert Filter(p, s) != [];
      } else {
        assert Filter(p, s) == Filter(p, s[1..]);
        if i :| 0 <= i < |s| && p(s[i]) { assert p(s[1..][i - 1]); }
      }
    }
  }

  lemma {:induction false} FilterTwo<T>(p: T -> bool, s: seq<T>)
    ensures |Filter(p, s)| >= 2 <==> exists i, j :: 0 <= i < j < |s| && p(s[i]) && p(s[j])
  {
    if s != [] {
      var t := s[1..];
      FilterTwo(p, t);
      FilterNone(p, t);
      if i, j :| 0 <= i < j < |s| && p(s[i]) && p(s[j]) {
        assert p(t[j - 1]);
        assert i > 0 ==> p(t[i - 1]);
      }
      if i, j :| 0 <= i < j < |t| && p(t[i]) && p(t[j]) {
        assert p(s[i + 1]) && p(s[j + 1]);
      }
      if i :| 0 <= i < |t| && p(t[i]) {
        assert p(s[i + 1]);
      }
    }
  }

  // ---------------------------------------------------------------- strings

  /** Python's ordering of str: code point by code point. */
  predicate StringLe(a: string, b: string) {
    a == [] || (b != [] && (a[0] < b[0] || (a[0] == b[0] && StringLe(a[1..], b[1..]))))
  }

  lemma {:induction false} StringTotal(a: string, b: string)
    ensures StringLe(a, b) || StringLe(b, a)
    ensures StringLe(a, b) && StringLe(b, a) ==> a == b
  {
    if a != [] && b != [] && a[0] == b[0] {
      StringTotal(a[1..], b[1..]);
      assert a == [a[0]] + a[1..] && b == [b[0]] + b[1..];
    }
  }

  lemma {:induction false} StringTransitive(a: string, b: string, c: string)
    requires StringLe(a, b) && StringLe(b, c)
    ensures StringLe(a, c)
  {
    if a != [] && a[0] == b[0] == c[0] {
      StringTransitive(a[1..], b[1..], c[1..]);
    }
  }
}
