/** What every module needs: options, safe integers, total orders, and sorted listings of finite sets.

    `Array.prototype.sort()` without a comparator orders strings by UTF-16 code units, so a
    `string` here is a sequence of code units. `localeCompare` depends on the host's locale;
    every module that uses it takes it as a parameter that is a total order. */
module Ordering {

  datatype Option<+T> = None | Some(value: T)

  /** `Number.MAX_SAFE_INTEGER`. */
  const MAX_SAFE_INTEGER := 9007199254740991

  ghost predicate Injective<A(!new), B>(f: A -> B) {
    forall a, b :: f(a) == f(b) ==> a == b
  }

  function Flatten<T>(parts: seq<seq<T>>): seq<T> {
    if parts == [] then [] else Flatten(parts[..|parts| - 1]) + parts[|parts| - 1]
  }

  ghost predicate TotalPreorder<T(!new)>(le: (T, T) -> bool) {
    && (forall x, y :: le(x, y) || le(y, x))
    && (forall x, y, z :: le(x, y) && le(y, z) ==> le(x, z))
  }

  ghost predicate AntisymmetricOn<T>(le: (T, T) -> bool, members: set<T>) {
    forall x, y :: x in members && y in members && le(x, y) && le(y, x) ==> x == y
  }

  ghost predicate TotalOrder<T(!new)>(le: (T, T) -> bool) {
    TotalPreorder(le) && forall x, y :: le(x, y) && le(y, x) ==> x == y
  }

  /** Code-unit order of two strings. */
  predicate CodeUnitLe(a: string, b: string) {
    a == [] || (b != [] && (a[0] < b[0] || (a[0] == b[0] && CodeUnitLe(a[1..], b[1..]))))
  }

  /** `a` is a prefix of `b`, or has the smaller code unit where they first differ. */
  ghost predicate ReadsBefore(a: string, b: string) {
    a <= b || exists i :: FirstSmaller(a, b, i)
  }

  predicate FirstSmaller(a: string, b: string, i: int) {
    0 <= i < |a| && i < |b| && a[..i] == b[..i] && a[i] < b[i]
  }

  lemma {:induction false} CodeUnitMeaning(a: string, b: string)
    ensures CodeUnitLe(a, b) <==> ReadsBefore(a, b)
  {
    if a != [] && b != [] {
      CodeUnitMeaning(a[1..], b[1..]);
      if a[0] < b[0] {
        assert FirstSmaller(a, b, 0);
      } else if a[0] == b[0] {
        if a[1..] <= b[1..] { assert a == [a[0]] + a[1..] && b == [b[0]] + b[1..]; }
        if a <= b { assert a[1..] == b[1..][..|a| - 1]; }
        if i :| FirstSmaller(a[1..], b[1..], i) {
          assert a[..i + 1] == [a[0]] + a[1..][..i] && b[..i + 1] == [b[0]] + b[1..][..i];
          assert FirstSmaller(a, b, i + 1);
        }
        if i :| FirstSmaller(a, b, i) {
          if i == 0 {
          } else {
            assert a[1..][..i - 1] == a[..i][1..] && b[1..][..i - 1] == b[..i][1..];
            assert FirstSmaller(a[1..], b[1..], i - 1);
          }
        }
      } else {
        DifferentHeads(a, b);
      }
    }
  }

  lemma DifferentHeads(a: string, b: string)
    requires a != [] && b != [] && a[0] > b[0]
    ensures !ReadsBefore(a, b)
  {
    forall i: nat ensures !FirstSmaller(a, b, i) {
      if i > 0 && i <= |a| && i <= |b| { assert a[..i][0] != b[..i][0]; }
    }
  }

  lemma {:induction false} CodeUnitAntisymmetric(a: string, b: string)
    requires CodeUnitLe(a, b) && CodeUnitLe(b, a)
    ensures a == b
  {
    if a != [] && b != [] {
      CodeUnitAntisymmetric(a[1..], b[1..]);
      assert a == [a[0]] + a[1..] && b == [b[0]] + b[1..];
    }
  }

  lemma {:induction false} CodeUnitTotal(a: string, b: string)
    ensures CodeUnitLe(a, b) || CodeUnitLe(b, a)
  {
    if a != [] && b != [] { CodeUnitTotal(a[1..], b[1..]); }
  }

  lemma {:induction false} CodeUnitTransitive(a: string, b: string, c: string)
    requires CodeUnitLe(a, b) && CodeUnitLe(b, c)
    ensures CodeUnitLe(a, c)
  {
    if a != [] && a[0] == b[0] == c[0] { CodeUnitTransitive(a[1..], b[1..], c[1..]); }
  }

  lemma CodeUnitOrder()
    ensures TotalOrder(CodeUnitLe)
  {
    forall a, b ensures CodeUnitLe(a, b) || CodeUnitLe(b, a) { CodeUnitTotal(a, b); }
    forall a, b | CodeUnitLe(a, b) && CodeUnitLe(b, a) ensures a == b { CodeUnitAntisymmetric(a, b); }
    forall a, b, c | CodeUnitLe(a, b) && CodeUnitLe(b, c) ensures CodeUnitLe(a, c) { CodeUnitTransitive(a, b, c); }
  }

  ghost predicate Sorted<T>(le: (T, T) -> bool, s: seq<T>) {
    forall i, j :: 0 <= i < j < |s| ==> le(s[i], s[j])
  }

  ghost predicate Distinct<T>(s: seq<T>) {
    forall i, j :: 0 <= i < j < |s| ==> s[i] != s[j]
  }

  function Elements<T>(s: seq<T>): set<T> {
    set x | x in s
  }

  /** `s` lists each member of `members` once, in order. */
  ghost predicate Lists<T>(le: (T, T) -> bool, s: seq<T>, members: set<T>) {
    Sorted(le, s) && Distinct(s) && Elements(s) == members
  }

  lemma EmptyListing<T>(le: (T, T) -> bool, s: seq<T>, members: set<T>)
    requires Lists(le, s, members)
    ensures s == [] <==> members == {}
  {
    assert members == Elements(s);
    assert |s| > 0 ==> s[0] in Elements(s);
  }

  lemma {:induction false} ListingUnique<T(!new)>(le: (T, T) -> bool, s: seq<T>, t: seq<T>, members: set<T>)
    requires TotalPreorder(le) && AntisymmetricOn(le, members)
    requires Lists(le, s, members) && Lists(le, t, members)
    ensures s == t
    decreases |s|
  {
    EmptyListing(le, s, members);
    EmptyListing(le, t, members);
    if members != {} {
      assert s[0] in members && t[0] in members;
      var i :| 0 <= i < |t| && t[i] == s[0];
      var j :| 0 <= j < |s| && s[j] == t[0];
      assert s[0] == t[0];
      TailListing(le, s, members);
      TailListing(le, t, members);
      ListingUnique(le, s[1..], t[1..], members - {s[0]});
    }
  }

  lemma TailListing<T>(le: (T, T) -> bool, s: seq<T>, members: set<T>)
    requires Lists(le, s, members) && s != []
    ensures Lists(le, s[1..], members - {s[0]})
  {
    forall x | x in members - {s[0]} ensures x in s[1..] {
      var i :| 0 <= i < |s| && s[i] == x;
      assert s[1..][i - 1] == x;
    }
  }

  /** Stable insertion sort: the result of sorting `s` by `le`. */
  function Insert<T>(le: (T, T) -> bool, x: T, s: seq<T>): (r: seq<T>)
    ensures multiset(r) == multiset{x} + multiset(s)
  {
    if s == [] || le(x, s[0]) then [x] + s
    else
      assert s == [s[0]] + s[1..];
      [s[0]] + Insert(le, x, s[1..])
  }

  function SortBy<T>(le: (T, T) -> bool, s: seq<T>): (r: seq<T>)
    ensures multiset(r) == multiset(s)
  {
    if s == [] then []
    else
      assert s == [s[0]] + s[1..];
      Insert(le, s[0], SortBy(le, s[1..]))
  }

  lemma {:induction false} InsertSorted<T(!new)>(le: (T, T) -> bool, x: T, s: seq<T>)
    requires TotalPreorder(le) && Sorted(le, s)
    ensures Sorted(le, Insert(le, x, s))
  {
    if s != [] && !le(x, s[0]) {
      InsertSorted(le, x, s[1..]);
      var r := Insert(le, x, s[1..]);
      forall y | y in r ensures le(s[0], y) {
        assert y in multiset(r);
        assert y == x || y in s[1..];
      }
    }
  }

  lemma {:induction false} SortSorted<T(!new)>(le: (T, T) -> bool, s: seq<T>)
    requires TotalPreorder(le)
    ensures Sorted(le, SortBy(le, s))
  {
    if s != [] {
      SortSorted(le, s[1..]);
      InsertSorted(le, s[0], SortBy(le, s[1..]));
    }
  }

  lemma {:induction false} DistinctCounts<T>(s: seq<T>)
    ensures Distinct(s) <==> forall x :: x in multiset(s) ==> multiset(s)[x] == 1
  {
    if s != [] {
      var t := s[1..];
      assert s == [s[0]] + t;
      DistinctCounts(t);
      if s[0] in t {
        var j :| 0 <= j < |t| && t[j] == s[0];
        assert s[j + 1] == s[0] && !Distinct(s);
        assert multiset(s)[s[0]] >= 2;
      } else if Distinct(t) {
        assert Distinct(s);
        assert forall x :: x in multiset(s) ==> multiset(s)[x] == 1;
      } else {
        var i, j :| 0 <= i < j < |t| && t[i] == t[j];
        assert s[i + 1] == s[j + 1];
        var x :| x in multiset(t) && multiset(t)[x] != 1;
        assert multiset(s)[x] != 1;
      }
    }
  }

  lemma {:induction false} DistinctSize<T>(s: seq<T>)
    requires Distinct(s)
    ensures |Elements(s)| == |s|
  {
    if s != [] {
      DistinctSize(s[1..]);
      assert Elements(s) == {s[0]} + Elements(s[1..]);
    }
  }

  /** Sorting duplicate-free contents gives the listing of their set. */
  lemma SortLists<T(!new)>(le: (T, T) -> bool, s: seq<T>)
    requires TotalPreorder(le) && Distinct(s)
    ensures Lists(le, SortBy(le, s), Elements(s))
    ensures |SortBy(le, s)| == |s|
  {
    SortSorted(le, s);
    DistinctCounts(s);
    DistinctCounts(SortBy(le, s));
    assert forall x :: x in SortBy(le, s) <==> x in multiset(SortBy(le, s));
    assert |multiset(SortBy(le, s))| == |multiset(s)|;
  }

  lemma InsertMember<T>(s: seq<T>, x: T, members: set<T>)
    requires Distinct(s) && Elements(s) == members && x !in members
    ensures Distinct([x] + s) && Elements([x] + s) == members + {x}
  {
    assert x !in s by { assert x !in Elements(s); }
    forall y | y in members ensures y in [x] + s { assert y in Elements(s); }
    forall y | y in s ensures y in members { assert y in Elements(s); }
  }

  /** Lists a finite set in order. */
  method ListSet<T(!new, ==)>(le: (T, T) -> bool, members: set<T>) returns (s: seq<T>)
    requires TotalPreorder(le)
    ensures Lists(le, s, members) && |s| == |members|
  {
    s := [];
    var rest := members;
    while rest != {}
      invariant rest <= members && Distinct(s) && Elements(s) == members - rest && |s| == |members| - |rest|
      decreases rest
    {
      var x :| x in rest;
      InsertMember(s, x, members - rest);
      s, rest := [x] + s, rest - {x};
    }
    SortLists(le, s);
    s := SortBy(le, s);
  }

  /** Every finite set has a listing. */
  lemma {:induction false} ListingExists<T(!new)>(le: (T, T) -> bool, members: set<T>) returns (s: seq<T>)
    requires TotalPreorder(le)
    ensures Lists(le, s, members)
  {
    s := [];
    var rest := members;
    while rest != {}
      invariant rest <= members && Distinct(s) && Elements(s) == members - rest
      decreases rest
    {
      var x :| x in rest;
      InsertMember(s, x, members - rest);
      s, rest := [x] + s, rest - {x};
    }
    SortLists(le, s);
    s := SortBy(le, s);
  }

  /** The listing of a finite set; for a total order there is only one. */
  ghost function Listing<T(!new)>(le: (T, T) -> bool, members: set<T>): (s: seq<T>)
    requires TotalPreorder(le)
    ensures Lists(le, s, members)
  {
    ListingCanBeChosen(le, members);
    var s :| Lists(le, s, members);
    s
  }

  lemma ListingCanBeChosen<T(!new)>(le: (T, T) -> bool, members: set<T>)
    requires TotalPreorder(le)
    ensures exists s :: Lists(le, s, members)
  {
    var s := ListingExists(le, members);
  }
}
