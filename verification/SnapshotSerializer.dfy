/** The canonical form behind a snapshot's content hash:
    packages/application/services/snapshot_serializer.py, lines 14-61. */
module SnapshotSerializer {
  import opened Wrappers
  import opened Sorting

  /** A dictionary key: its printed form, and what tells it apart from keys that print alike (1 and "1"). */
  datatype Key = Key(printed: string, kind: nat)

  datatype Scalar = Text(text: string) | Number(n: int) | Nothing | Stamp(second: int)

  datatype Value =
    | Plain(scalar: Scalar)
    | Enumeration(member: Scalar)
    | Decimal(printed: string)
    | Moment(micros: int, offset: Option<int>)  // wall clock, and its distance from UTC when known
    | List(items: seq<Value>)
    | Dict(entries: seq<Entry>)
    | Unordered

  datatype Entry = Entry(key: Key, value: Value)

  const SECOND := 1_000_000

  const TEXT_KEY := 0

  predicate EntryLe(a: Entry, b: Entry) { StringLe(a.key.printed, b.key.printed) }

  /** Building a dictionary from sorted entries: of keys that print alike the last one wins. */
  function Collapse(sorted: seq<Entry>): seq<Entry> {
    if |sorted| < 2 then sorted
    else if sorted[0].key.printed == sorted[1].key.printed then Collapse(sorted[1..])
    else [sorted[0]] + Collapse(sorted[1..])
  }

  predicate HoldsSet(v: Value) {
    match v
    case List(items) => exists i :: 0 <= i < |items| && HoldsSet(items[i])
    case Dict(entries) => exists i :: 0 <= i < |entries| && HoldsSet(entries[i].value)
    case Unordered => true
    case _ => false
  }

  function AllSome<T>(s: seq<Option<T>>): Option<seq<T>> {
    if exists i :: 0 <= i < |s| && s[i].None? then None
    else Some(seq(|s|, i requires 0 <= i < |s| => s[i].value))
  }

  function NormalizeEntry(e: Entry): Option<Entry> {
    match Normalize(e.value)
    case Some(v) => Some(Entry(Key(e.key.printed, TEXT_KEY), v))
    case None => None
  }

  /** The canonical form, or nothing when a set is met on the way. */
  function Normalize(v: Value): Option<Value> {
    match v
    case Unordered => None
    case Enumeration(member) => Some(Plain(member))
    case Decimal(printed) => Some(Plain(Text(printed)))
    case Moment(micros, offset) => Some(Plain(Stamp((micros - offset.GetOr(0)) / SECOND)))
    case Dict(entries) =>
      (match AllSome(seq(|entries|, i requires 0 <= i < |entries| => NormalizeEntry(entries[i])))
       case Some(normal) => Some(Dict(Collapse(Sort(EntryLe, normal))))
       case None => None)
    case List(items) =>
      (match AllSome(seq(|items|, i requires 0 <= i < |items| => Normalize(items[i])))
       case Some(normal) => Some(List(normal))
       case None => None)
    case Plain(_) => Some(v)
  }

  /** A set anywhere is refused, and nothing else is. */
  lemma {:induction false} RefusedIffHoldsSet(v: Value)
    ensures Normalize(v).None? <==> HoldsSet(v)
  {
    match v
    case List(items) =>
      forall i | 0 <= i < |items| ensures Normalize(items[i]).None? <==> HoldsSet(items[i]) {
        RefusedIffHoldsSet(items[i]);
      }
      ListParts(items);
    case Dict(entries) =>
      forall i | 0 <= i < |entries| ensures NormalizeEntry(entries[i]).None? <==> HoldsSet(entries[i].value) {
        RefusedIffHoldsSet(entries[i].value);
      }
      DictParts(entries);
    case _ =>
  }

  lemma ListParts(items: seq<Value>)
    ensures Normalize(List(items)).None? <==> exists i :: 0 <= i < |items| && Normalize(items[i]).None?
    ensures Normalize(List(items)).Some? ==>
      && Normalize(List(items)).value.List?
      && var normal := Normalize(List(items)).value.items;
         |normal| == |items| && forall i :: 0 <= i < |items| ==> Normalize(items[i]) == Some(normal[i])
  {
    var all := seq(|items|, i requires 0 <= i < |items| => Normalize(items[i]));
    assert forall i :: 0 <= i < |items| ==> all[i] == Normalize(items[i]);
  }

  ghost predicate AreNormal(entries: seq<Entry>, normal: seq<Entry>) {
    |normal| == |entries| && forall i :: 0 <= i < |entries| ==> NormalizeEntry(entries[i]) == Some(normal[i])
  }

  lemma DictParts(entries: seq<Entry>)
    ensures Normalize(Dict(entries)).None? <==> exists i :: 0 <= i < |entries| && NormalizeEntry(entries[i]).None?
    ensures Normalize(Dict(entries)).Some? ==>
      exists normal :: AreNormal(entries, normal) && Normalize(Dict(entries)).value == Dict(Collapse(Sort(EntryLe, normal)))
  {
    var all := seq(|entries|, i requires 0 <= i < |entries| => NormalizeEntry(entries[i]));
    assert forall i :: 0 <= i < |entries| ==> all[i] == NormalizeEntry(entries[i]);
    if AllSome(all).Some? {
      assert AreNormal(entries, AllSome(all).value);
    }
  }

  // ---------------------------------------------------------------- sameness of content

  /** No two keys of one dictionary print alike. */
  predicate DistinctKeys(entries: seq<Entry>) {
    forall i, j :: 0 <= i < j < |entries| ==> entries[i].key.printed != entries[j].key.printed
  }

  predicate WellKeyed(v: Value) {
    match v
    case List(items) => forall i :: 0 <= i < |items| ==> WellKeyed(items[i])
    case Dict(entries) => DistinctKeys(entries) && forall i :: 0 <= i < |entries| ==> WellKeyed(entries[i].value)
    case _ => true
  }

  /** What a leaf says: enumerations by their value, decimals by their digits, moments to the second in UTC. */
  function Says(v: Value): Option<Scalar> {
    match v
    case Plain(scalar) => Some(scalar)
    case Enumeration(member) => Some(member)
    case Decimal(printed) => Some(Text(printed))
    case Moment(micros, offset) => Some(Stamp((micros - offset.GetOr(0)) / SECOND))
    case _ => None
  }

  /** The same content: lists in order, dictionaries in any order, at every depth. */
  predicate SameContent(a: Value, b: Value)
    decreases a
  {
    match a
    case List(xs) => b.List? && |b.items| == |xs| && forall i :: 0 <= i < |xs| ==> SameContent(xs[i], b.items[i])
    case Dict(xs) =>
      && b.Dict? && |b.entries| == |xs|
      && forall i :: 0 <= i < |xs| ==> exists j ::
           0 <= j < |b.entries| && b.entries[j].key.printed == xs[i].key.printed && SameContent(xs[i].value, b.entries[j].value)
    case _ => Says(a).Some? && Says(a) == Says(b)
  }

  // ---------------------------------------------------------------- sorted dictionaries

  predicate StrictlySorted(s: seq<Entry>) {
    forall i, j :: 0 <= i < j < |s| ==> EntryLe(s[i], s[j]) && s[i].key.printed != s[j].key.printed
  }

  lemma EntryOrder()
    ensures TotalPreorder(EntryLe)
  {
    forall a: Entry, b: Entry ensures EntryLe(a, b) || EntryLe(b, a) {
      StringTotal(a.key.printed, b.key.printed);
    }
    forall a: Entry, b: Entry, c: Entry | EntryLe(a, b) && EntryLe(b, c) ensures EntryLe(a, c) {
      StringTransitive(a.key.printed, b.key.printed, c.key.printed);
    }
  }

  function HasKey(key: string): Entry -> bool { (e: Entry) => e.key.printed == key }

  lemma SortingIsStrict(s: seq<Entry>)
    requires DistinctKeys(s)
    ensures StrictlySorted(Sort(EntryLe, s))
    ensures forall e :: e in Sort(EntryLe, s) <==> e in s
    ensures |Sort(EntryLe, s)| == |s|
  {
    EntryOrder();
    SortSorts(EntryLe, s);
    var t := Sort(EntryLe, s);
    forall i, j | 0 <= i < j < |t| ensures t[i].key.printed != t[j].key.printed {
      FilterMultiset(HasKey(t[i].key.printed), s, t);
      FilterTwo(HasKey(t[i].key.printed), s);
      FilterTwo(HasKey(t[i].key.printed), t);
    }
  }

  lemma {:induction false} NothingCollapses(s: seq<Entry>)
    requires StrictlySorted(s)
    ensures Collapse(s) == s
  {
    if |s| >= 2 {
      NothingCollapses(s[1..]);
    }
  }

  lemma {:induction false} StrictUnique(a: seq<Entry>, b: seq<Entry>)
    requires StrictlySorted(a) && StrictlySorted(b)
    requires forall e :: e in a <==> e in b
    ensures a == b
  {
    assert b != [] ==> b[0] in b;
    if a != [] {
      assert a[0] in b && b[0] in a;
      StringTotal(a[0].key.printed, b[0].key.printed);
      assert a[0] == b[0];
      forall e ensures e in a[1..] <==> e in b[1..] {
        InTail(a, e);
        InTail(b, e);
      }
      StrictUnique(a[1..], b[1..]);
    }
  }

  lemma InTail(s: seq<Entry>, e: Entry)
    requires s != [] && StrictlySorted(s)
    ensures e in s[1..] <==> e in s && e != s[0]
  {
    assert s == [s[0]] + s[1..];
  }

  lemma {:induction false} Cardinality(s: seq<Entry>)
    requires DistinctKeys(s)
    ensures |set e | e in s| == |s|
  {
    if s == [] {
      assert (set e | e in s) == {};
    } else {
      Cardinality(s[1..]);
      assert s == [s[0]] + s[1..];
      assert (set e | e in s) == {s[0]} + set e | e in s[1..];
      assert s[0] !in s[1..];
    }
  }

  /** Equally long lists of distinct keys, one within the other, hold the same entries. */
  lemma SameEntries(a: seq<Entry>, b: seq<Entry>)
    requires DistinctKeys(a) && DistinctKeys(b) && |a| == |b|
    requires forall e :: e in a ==> e in b
    ensures forall e :: e in b ==> e in a
  {
    var x, y := set e | e in a, set e | e in b;
    Cardinality(a);
    Cardinality(b);
    if e :| e in b && e !in a {
      SubsetIsSmaller(x, y, e);
    }
  }

  lemma SubsetIsSmaller(x: set<Entry>, y: set<Entry>, e: Entry)
    requires x <= y && e in y && e !in x
    ensures |x| < |y|
  {
    assert y == x + (y - x) && |y| == |x| + |y - x|;
  }

  lemma SortedForms(a: seq<Entry>, b: seq<Entry>)
    requires DistinctKeys(a) && DistinctKeys(b)
    ensures Collapse(Sort(EntryLe, a)) == Collapse(Sort(EntryLe, b)) <==>
      |a| == |b| && forall e :: e in a ==> e in b
  {
    SortingIsStrict(a);
    SortingIsStrict(b);
    NothingCollapses(Sort(EntryLe, a));
    NothingCollapses(Sort(EntryLe, b));
    if |a| == |b| && forall e :: e in a ==> e in b {
      SameEntries(a, b);
      StrictUnique(Sort(EntryLe, a), Sort(EntryLe, b));
    }
    if Sort(EntryLe, a) == Sort(EntryLe, b) {
      forall e | e in a ensures e in b {
        assert e in Sort(EntryLe, a);
      }
    }
  }

  /** Two snapshots have the same canonical form exactly when they have the same content: the order in which
      dictionaries were filled never shows, and nothing else is forgotten. */
  lemma {:induction false} SameFormIffSameContent(a: Value, b: Value)
    requires Normalize(a).Some? && Normalize(b).Some? && WellKeyed(a) && WellKeyed(b)
    ensures Normalize(a) == Normalize(b) <==> SameContent(a, b)
    decreases a
  {
    if a.List? && b.List? {
      ListParts(a.items);
      ListParts(b.items);
      forall i | 0 <= i < |a.items| && i < |b.items|
        ensures Normalize(a.items[i]) == Normalize(b.items[i]) <==> SameContent(a.items[i], b.items[i])
      {
        SameFormIffSameContent(a.items[i], b.items[i]);
      }
      ListForms(a.items, b.items);
    } else if a.Dict? && b.Dict? {
      DictParts(a.entries);
      DictParts(b.entries);
      var x :| AreNormal(a.entries, x) && Normalize(a).value == Dict(Collapse(Sort(EntryLe, x)));
      var y :| AreNormal(b.entries, y) && Normalize(b).value == Dict(Collapse(Sort(EntryLe, y)));
      forall i, j | 0 <= i < |x| && 0 <= j < |y|
        ensures x[i] == y[j] <==> SameEntry(a.entries[i], b.entries[j])
      {
        SameFormIffSameContent(a.entries[i].value, b.entries[j].value);
      }
      NormalKeys(a.entries, x);
      NormalKeys(b.entries, y);
      SortedForms(x, y);
      DictForms(a.entries, b.entries, x, y);
    } else {
      FormOfLeaf(a);
      FormOfLeaf(b);
    }
  }

  predicate SameEntry(a: Entry, b: Entry) { b.key.printed == a.key.printed && SameContent(a.value, b.value) }

  lemma NormalKeys(entries: seq<Entry>, normal: seq<Entry>)
    requires AreNormal(entries, normal) && DistinctKeys(entries)
    ensures DistinctKeys(normal)
  {
    assert forall i :: 0 <= i < |entries| ==> normal[i].key.printed == entries[i].key.printed;
  }

  lemma DictForms(a: seq<Entry>, b: seq<Entry>, x: seq<Entry>, y: seq<Entry>)
    requires |x| == |a| && |y| == |b|
    requires forall i, j :: 0 <= i < |x| && 0 <= j < |y| ==> (x[i] == y[j] <==> SameEntry(a[i], b[j]))
    ensures SameContent(Dict(a), Dict(b)) <==> |x| == |y| && forall e :: e in x ==> e in y
  {
    if |x| == |y| && forall e :: e in x ==> e in y {
      forall i | 0 <= i < |a| ensures exists j :: 0 <= j < |b| && SameEntry(a[i], b[j]) {
        assert x[i] in y;
      }
    }
    if SameContent(Dict(a), Dict(b)) {
      forall e | e in x ensures e in y {
        var i :| 0 <= i < |x| && x[i] == e;
        var j :| 0 <= j < |b| && b[j].key.printed == a[i].key.printed && SameContent(a[i].value, b[j].value);
        assert x[i] == y[j];
      }
    }
  }

  lemma ListForms(a: seq<Value>, b: seq<Value>)
    requires Normalize(List(a)).Some? && Normalize(List(b)).Some?
    requires forall i :: 0 <= i < |a| && i < |b| ==> (Normalize(a[i]) == Normalize(b[i]) <==> SameContent(a[i], b[i]))
    ensures Normalize(List(a)) == Normalize(List(b)) <==> SameContent(List(a), List(b))
  {
    ListParts(a);
    ListParts(b);
    var x, y := Normalize(List(a)).value.items, Normalize(List(b)).value.items;
    if |a| == |b| && forall i :: 0 <= i < |a| ==> SameContent(a[i], b[i]) {
      assert forall i :: 0 <= i < |a| ==> x[i] == y[i];
      assert x == y;
    }
    if x == y {
      assert forall i :: 0 <= i < |a| ==> Normalize(a[i]) == Normalize(b[i]);
    }
  }

  lemma FormOfLeaf(v: Value)
    requires Normalize(v).Some?
    ensures if v.List? then Normalize(v).value.List? && Says(v).None?
            else if v.Dict? then Normalize(v).value.Dict? && Says(v).None?
            else Says(v).Some? && Normalize(v).value == Plain(Says(v).value)
  {
    if v.List? { ListParts(v.items); }
    if v.Dict? { DictParts(v.entries); }
  }

  // ---------------------------------------------------------------- normalising twice

  lemma SortedStays(s: seq<Entry>)
    requires StrictlySorted(s)
    ensures Collapse(Sort(EntryLe, s)) == s
  {
    SortingIsStrict(s);
    StrictUnique(Sort(EntryLe, s), s);
    NothingCollapses(s);
  }

  lemma {:induction false} CollapseIsStrict(s: seq<Entry>)
    requires SortedBy(EntryLe, s)
    ensures StrictlySorted(Collapse(s)) && forall e :: e in Collapse(s) ==> e in s
    ensures s != [] ==> Collapse(s) != [] && Collapse(s)[0].key.printed == s[0].key.printed
  {
    if |s| >= 2 {
      var t := s[1..];
      CollapseIsStrict(t);
      assert s == [s[0]] + t;
      if s[0].key.printed != t[0].key.printed {
        var c := Collapse(t);
        forall j | 0 <= j < |c| ensures EntryLe(s[0], c[j]) && s[0].key.printed != c[j].key.printed {
          assert c[j] in t;
          StringTotal(s[0].key.printed, c[j].key.printed);
          FirstIsLeast(t, c[j]);
          StringTotal(s[0].key.printed, t[0].key.printed);
          assert EntryLe(s[0], s[1]);
          BetweenDiffers(s[0].key.printed, t[0].key.printed, c[j].key.printed);
        }
      }
    }
  }

  lemma FirstIsLeast(s: seq<Entry>, e: Entry)
    requires SortedBy(EntryLe, s) && e in s
    ensures EntryLe(s[0], e)
  {
    EntryOrder();
    assert EntryLe(e, e);
  }

  lemma BetweenDiffers(a: string, b: string, c: string)
    requires StringLe(a, b) && StringLe(b, c) && a != b
    ensures StringLe(a, c) && a != c
  {
    StringTransitive(a, b, c);
    StringTotal(a, b);
  }

  /** A canonical form is its own canonical form. */
  lemma {:induction false} NormalizeIsIdempotent(v: Value)
    requires Normalize(v).Some?
    ensures Normalize(Normalize(v).value) == Normalize(v)
  {
    if v.List? {
      ListParts(v.items);
      var normal := Normalize(v).value.items;
      forall i | 0 <= i < |normal| ensures Normalize(normal[i]) == Some(normal[i]) {
        NormalizeIsIdempotent(v.items[i]);
      }
      ListParts(normal);
      assert Normalize(List(normal)).Some? ==> Normalize(List(normal)).value.items == normal;
    } else if v.Dict? {
      DictParts(v.entries);
      var x :| AreNormal(v.entries, x) && Normalize(v).value == Dict(Collapse(Sort(EntryLe, x)));
      forall i | 0 <= i < |x| ensures NormalizeEntry(x[i]) == Some(x[i]) {
        NormalizeIsIdempotent(v.entries[i].value);
      }
      DictStays(x);
    } else {
      FormOfLeaf(v);
    }
  }

  lemma DictStays(x: seq<Entry>)
    requires forall i :: 0 <= i < |x| ==> NormalizeEntry(x[i]) == Some(x[i])
    ensures Normalize(Dict(Collapse(Sort(EntryLe, x)))) == Some(Dict(Collapse(Sort(EntryLe, x))))
  {
    EntryOrder();
    SortSorts(EntryLe, x);
    CollapseIsStrict(Sort(EntryLe, x));
    var c := Collapse(Sort(EntryLe, x));
    forall i | 0 <= i < |c| ensures NormalizeEntry(c[i]) == Some(c[i]) {
      assert c[i] in x;
    }
    DictParts(c);
    var y :| AreNormal(c, y) && Normalize(Dict(c)).value == Dict(Collapse(Sort(EntryLe, y)));
    assert y == c;
    SortedStays(c);
  }

  // ---------------------------------------------------------------- keys that print alike

  lemma {:induction false} LastSurvives(s: seq<Entry>, key: string)
    requires Filter(HasKey(key), s) != []
    ensures Last(Filter(HasKey(key), s)) in Collapse(s)
  {
    if |s| >= 2 {
      var t := s[1..];
      FilterCons(HasKey(key), s[0], t);
      assert s == [s[0]] + t;
      if Filter(HasKey(key), t) != [] {
        LastSurvives(t, key);
      } else {
        FilterNone(HasKey(key), t);
        assert !HasKey(key)(t[0]);
      }
    }
  }

  function Last(s: seq<Entry>): Entry
    requires s != []
  {
    s[|s| - 1]
  }

  lemma {:induction false} AlikeStay(s: seq<Entry>, key: string)
    requires forall e :: e in s ==> e.key.printed == key
    ensures Sort(EntryLe, s) == s
  {
    if s != [] {
      assert s[0] in s && s == [s[0]] + s[1..];
      AlikeStay(s[1..], key);
      StringTotal(key, key);
      assert s[1..] != [] ==> s[1..][0] in s;
    }
  }

  /** Sorting keeps entries of one printed key in the order they were filled in. */
  lemma KeyOrderKept(x: seq<Entry>, key: string)
    ensures Filter(HasKey(key), Sort(EntryLe, x)) == Filter(HasKey(key), x)
  {
    EntryOrder();
    SortFilter(EntryLe, HasKey(key), x);
    FilterIn(HasKey(key), x);
    AlikeStay(Filter(HasKey(key), x), key);
  }

  lemma OnePerKey(s: seq<Entry>, e: Entry, f: Entry)
    requires StrictlySorted(s) && e in s && f in s && e.key.printed == f.key.printed
    ensures e == f
  {
  }

  function Form(x: seq<Entry>): seq<Entry> { Collapse(Sort(EntryLe, x)) }

  lemma FormIsStrict(x: seq<Entry>)
    ensures StrictlySorted(Form(x)) && forall e :: e in Form(x) ==> e in x
  {
    EntryOrder();
    SortSorts(EntryLe, x);
    CollapseIsStrict(Sort(EntryLe, x));
  }

  lemma LastIsIn(x: seq<Entry>, key: string)
    requires Filter(HasKey(key), x) != []
    ensures Last(Filter(HasKey(key), x)) in Form(x) && Last(Filter(HasKey(key), x)) in x
    ensures Last(Filter(HasKey(key), x)).key.printed == key
  {
    KeyOrderKept(x, key);
    LastSurvives(Sort(EntryLe, x), key);
    FilterIn(HasKey(key), x);
    assert Last(Filter(HasKey(key), x)) in Filter(HasKey(key), x);
  }

  /** A dictionary's form holds, for each printed key, the last entry filled in under it, and nothing else. */
  lemma LastOneWins(x: seq<Entry>, e: Entry)
    ensures e in Form(x) <==>
      Filter(HasKey(e.key.printed), x) != [] && e == Last(Filter(HasKey(e.key.printed), x))
  {
    var key := e.key.printed;
    FormIsStrict(x);
    FilterIn(HasKey(key), x);
    if e in Form(x) {
      assert e in Filter(HasKey(key), x);
    }
    if Filter(HasKey(key), x) != [] {
      LastIsIn(x, key);
      if e in Form(x) { OnePerKey(Form(x), e, Last(Filter(HasKey(key), x))); }
    }
  }

  /** Entries whose keys print alike have the same content. */
  ghost predicate AlikeAgree(entries: seq<Entry>) {
    forall i, j :: 0 <= i < |entries| && 0 <= j < |entries| && entries[i].key.printed == entries[j].key.printed
      ==> NormalizeEntry(entries[i]) == NormalizeEntry(entries[j])
  }

  ghost predicate FormFixed(entries: seq<Entry>) {
    forall other :: multiset(other) == multiset(entries) ==> Normalize(Dict(other)) == Normalize(Dict(entries))
  }

  lemma NormalMembers(entries: seq<Entry>, x: seq<Entry>, n: Entry)
    requires AreNormal(entries, x)
    ensures n in x <==> exists e :: e in entries && NormalizeEntry(e) == Some(n)
  {
    if n in x {
      var i :| 0 <= i < |x| && x[i] == n;
      assert entries[i] in entries;
    }
    if e :| e in entries && NormalizeEntry(e) == Some(n) {
      var i :| 0 <= i < |entries| && entries[i] == e;
      assert x[i] == n;
    }
  }

  lemma SameNormals(a: seq<Entry>, b: seq<Entry>, x: seq<Entry>, y: seq<Entry>)
    requires multiset(a) == multiset(b) && AreNormal(a, x) && AreNormal(b, y)
    ensures forall n :: n in x <==> n in y
  {
    SameMembers(a, b);
    forall n ensures n in x <==> n in y {
      NormalMembers(a, x, n);
      NormalMembers(b, y, n);
    }
  }

  lemma AgreeingNormals(entries: seq<Entry>, x: seq<Entry>, e: Entry, f: Entry)
    requires AreNormal(entries, x) && AlikeAgree(entries) && e in x && f in x && e.key.printed == f.key.printed
    ensures e == f
  {
    var i :| 0 <= i < |x| && x[i] == e;
    var j :| 0 <= j < |x| && x[j] == f;
    assert entries[i].key.printed == entries[j].key.printed;
  }

  lemma FormWithin(a: seq<Entry>, x: seq<Entry>, y: seq<Entry>, z: seq<Entry>, e: Entry)
    requires AreNormal(a, x) && AlikeAgree(a) && e in Form(y)
    requires forall n :: (n in y <==> n in x) && (n in z <==> n in x)
    ensures e in Form(z)
  {
    var key := e.key.printed;
    FormIsStrict(y);
    FilterIn(HasKey(key), z);
    assert e in Filter(HasKey(key), z);
    LastIsIn(z, key);
    AgreeingNormals(a, x, e, Last(Filter(HasKey(key), z)));
  }

  lemma AgreementFixes(a: seq<Entry>, b: seq<Entry>, x: seq<Entry>, y: seq<Entry>)
    requires multiset(a) == multiset(b) && AreNormal(a, x) && AreNormal(b, y) && AlikeAgree(a)
    ensures Form(x) == Form(y)
  {
    SameNormals(a, b, x, y);
    FormIsStrict(x);
    FormIsStrict(y);
    forall e ensures e in Form(x) <==> e in Form(y) {
      if e in Form(x) { FormWithin(a, x, x, y, e); }
      if e in Form(y) { FormWithin(a, x, y, x, e); }
    }
    StrictUnique(Form(x), Form(y));
  }

  /** Filled in last, an entry is in the form. */
  lemma FiledLast(entries: seq<Entry>, i: nat) returns (other: seq<Entry>)
    requires i < |entries| && Normalize(Dict(entries)).Some?
    ensures multiset(other) == multiset(entries)
    ensures Normalize(Dict(other)).Some? && NormalizeEntry(entries[i]).Some?
    ensures NormalizeEntry(entries[i]).value in Normalize(Dict(other)).value.entries
  {
    var rest := entries[..i] + entries[i + 1..];
    WithoutOne(entries, i);
    other := rest + [entries[i]];
    SameMembers(other, entries);
    AllNormal(entries, other);
    LastFiled(rest, entries[i]);
  }

  lemma LastFiled(rest: seq<Entry>, e: Entry)
    requires Normalize(Dict(rest + [e])).Some? && NormalizeEntry(e).Some?
    ensures Normalize(Dict(rest + [e])).value.Dict?
    ensures NormalizeEntry(e).value in Normalize(Dict(rest + [e])).value.entries
  {
    var other := rest + [e];
    DictParts(other);
    var y :| AreNormal(other, y) && Normalize(Dict(other)).value == Dict(Collapse(Sort(EntryLe, y)));
    assert other[|rest|] == e;
    assert y == y[..|rest|] + [NormalizeEntry(e).value];
    LastIsLast(y[..|rest|], NormalizeEntry(e).value);
  }

  lemma {:induction false} LastIsLast(x: seq<Entry>, n: Entry)
    ensures n in Form(x + [n])
  {
    var key := n.key.printed;
    FilterAppend(HasKey(key), x, [n]);
    FilterCons(HasKey(key), n, []);
    assert Filter(HasKey(key), x + [n]) == Filter(HasKey(key), x) + [n];
    LastIsIn(x + [n], key);
  }

  lemma AllNormal(a: seq<Entry>, b: seq<Entry>)
    requires Normalize(Dict(a)).Some? && forall e :: e in b ==> e in a
    ensures Normalize(Dict(b)).Some? && forall e :: e in a ==> NormalizeEntry(e).Some?
  {
    DictParts(a);
    DictParts(b);
    forall e | e in a ensures NormalizeEntry(e).Some? {
      var i :| 0 <= i < |a| && a[i] == e;
    }
    forall i | 0 <= i < |b| ensures NormalizeEntry(b[i]).Some? {
      assert b[i] in b;
    }
  }

  /** The form of a dictionary is the same in whatever order it was filled exactly when it is refused for a set, or
      keys that print alike hold the same content. */
  lemma OrderShowsIff(entries: seq<Entry>)
    ensures FormFixed(entries) <==> Normalize(Dict(entries)).None? || AlikeAgree(entries)
  {
    if Normalize(Dict(entries)).None? {
      forall other | multiset(other) == multiset(entries) ensures Normalize(Dict(other)) == Normalize(Dict(entries)) {
        SameMembers(other, entries);
        if Normalize(Dict(other)).Some? { AllNormal(other, entries); }
      }
    } else if AlikeAgree(entries) {
      forall other | multiset(other) == multiset(entries) ensures Normalize(Dict(other)) == Normalize(Dict(entries)) {
        AgreementFixesForm(entries, other);
      }
    } else if FormFixed(entries) {
      var i, j :| 0 <= i < |entries| && 0 <= j < |entries| && entries[i].key.printed == entries[j].key.printed
               && NormalizeEntry(entries[i]) != NormalizeEntry(entries[j]);
      var first := FiledLast(entries, i);
      var second := FiledLast(entries, j);
      BothIn(entries, NormalizeEntry(entries[i]).value, NormalizeEntry(entries[j]).value);
    }
  }

  lemma AgreementFixesForm(entries: seq<Entry>, other: seq<Entry>)
    requires Normalize(Dict(entries)).Some? && AlikeAgree(entries) && multiset(other) == multiset(entries)
    ensures Normalize(Dict(other)) == Normalize(Dict(entries))
  {
    SameMembers(other, entries);
    AllNormal(entries, other);
    DictParts(entries);
    DictParts(other);
    var x :| AreNormal(entries, x) && Normalize(Dict(entries)).value == Dict(Collapse(Sort(EntryLe, x)));
    var y :| AreNormal(other, y) && Normalize(Dict(other)).value == Dict(Collapse(Sort(EntryLe, y)));
    AgreementFixes(entries, other, x, y);
  }

  lemma BothIn(entries: seq<Entry>, e: Entry, f: Entry)
    requires Normalize(Dict(entries)).Some? && Normalize(Dict(entries)).value.Dict?
    requires e in Normalize(Dict(entries)).value.entries && f in Normalize(Dict(entries)).value.entries
    requires e.key.printed == f.key.printed
    ensures e == f
  {
    DictParts(entries);
    var x :| AreNormal(entries, x) && Normalize(Dict(entries)).value == Dict(Collapse(Sort(EntryLe, x)));
    FormIsStrict(x);
    OnePerKey(Form(x), e, f);
  }

  /** Such a dictionary: two keys that print alike, 1 and "1" say, with different numbers. */
  lemma AlikeKeysLoseOrder(k: string, m: nat, n: nat)
    requires m != n
    ensures !FormFixed([Entry(Key(k, m), Plain(Number(1))), Entry(Key(k, n), Plain(Number(2)))])
  {
    var entries := [Entry(Key(k, m), Plain(Number(1))), Entry(Key(k, n), Plain(Number(2)))];
    DictParts(entries);
    assert NormalizeEntry(entries[0]) != NormalizeEntry(entries[1]);
    OrderShowsIff(entries);
  }
}
