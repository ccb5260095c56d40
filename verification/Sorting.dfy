/**
 * Orders and sorting.
 *
 * Strings compare lexicographically by code point, as Rust's `String` does. `Sort` is the stable
 * sort that stands for the standard library's `sort_by`; `Ascending` lists a set of strings in
 * order, which is how a `BTreeMap` or `BTreeSet` is iterated.
 */
module Sorting {
  import opened Sequences

  // ---------- the order on strings ----------

  predicate Le(a: string, b: string)
    decreases |a|
  {
    a == [] || (b != [] && (a[0] < b[0] || (a[0] == b[0] && Le(a[1..], b[1..]))))
  }

  predicate Lt(a: string, b: string) {
    a != b && Le(a, b)
  }

  lemma {:induction false} LeReflexive(a: string)
    ensures Le(a, a)
    decreases |a|
  {
    if a != [] {
      LeReflexive(a[1..]);
    }
  }

  lemma {:induction false} LeTotal(a: string, b: string)
    ensures Le(a, b) || Le(b, a)
    decreases |a|
  {
    if a != [] && b != [] && a[0] == b[0] {
      LeTotal(a[1..], b[1..]);
    }
  }

  lemma {:induction false} LeAntisymmetric(a: string, b: string)
    requires Le(a, b) && Le(b, a)
    ensures a == b
    decreases |a|
  {
    if a != [] {
      LeAntisymmetric(a[1..], b[1..]);
      assert a == [a[0]] + a[1..] && b == [b[0]] + b[1..];
    }
  }

  lemma {:induction false} LeTransitive(a: string, b: string, c: string)
    requires Le(a, b) && Le(b, c)
    ensures Le(a, c)
    decreases |a|
  {
    if a != [] && a[0] == b[0] == c[0] {
      LeTransitive(a[1..], b[1..], c[1..]);
    }
  }

  // ---------- sets of strings in ascending order ----------

  predicate StrictlyAscending(s: seq<string>) {
    forall i, j :: 0 <= i < j < |s| ==> Lt(s[i], s[j])
  }

  lemma {:induction false} LeastExists(s: set<string>) returns (least: string)
    requires s != {}
    ensures least in s && forall y :: y in s ==> Le(least, y)
  {
    var x :| x in s;
    if s == {x} {
      LeReflexive(x);
      return x;
    }
    var rest := LeastExists(s - {x});
    LeTotal(x, rest);
    LeReflexive(x);
    if Le(x, rest) {
      forall y | y in s ensures Le(x, y) {
        if y != x { LeTransitive(x, rest, y); }
      }
      return x;
    }
    return rest;
  }

  function Least(s: set<string>): (least: string)
    requires s != {}
    ensures least in s && forall y :: y in s ==> Le(least, y)
  {
    assert exists x :: x in s && forall y :: y in s ==> Le(x, y) by {
      var x := LeastExists(s);
    }
    assert forall x, y | x in s && y in s && Le(x, y) && Le(y, x) :: x == y by {
      forall x, y | x in s && y in s && Le(x, y) && Le(y, x) ensures x == y {
        LeAntisymmetric(x, y);
      }
    }
    var x :| x in s && forall y :: y in s ==> Le(x, y);
    x
  }

  function Ascending(s: set<string>): (r: seq<string>)
    ensures forall x :: x in r <==> x in s
    ensures StrictlyAscending(r)
  {
    if s == {} then [] else
      var least := Least(s);
      var rest := Ascending(s - {least});
      assert forall j :: 0 <= j < |rest| ==> rest[j] in rest;
      [least] + rest
  }

  lemma {:induction false} AscendingUnique(r: seq<string>, s: set<string>)
    requires StrictlyAscending(r)
    requires forall x :: x in r <==> x in s
    ensures r == Ascending(s)
  {
    if r == [] {
      assert s == {} by { assert forall x :: x !in s; }
    } else {
      assert r[0] in r;
      var least := Least(s);
      assert least in r;
      var i :| 0 <= i < |r| && r[i] == least;
      if i > 0 {
        assert Lt(r[0], r[i]);
        LeAntisymmetric(r[0], r[i]);
      }
      forall x ensures x in r[1..] <==> x in s - {least} {
        if x in r[1..] {
          var j :| 1 <= j < |r| && r[j] == x;
          assert Lt(r[0], r[j]);
          assert x in r;
        }
        if x in s - {least} {
          var j :| 0 <= j < |r| && r[j] == x;
          assert x == r[1..][j - 1];
        }
      }
      AscendingUnique(r[1..], s - {least});
    }
  }

  lemma AscendingDistinct(s: set<string>)
    ensures Distinct(Ascending(s)) && Set(Ascending(s)) == s
  {
    var r := Ascending(s);
    forall i, j | 0 <= i < j < |r| ensures r[i] != r[j] {
      assert Lt(r[i], r[j]);
    }
  }

  /** The keys of a `BTreeMap`, for a loop whose result does not depend on their order. */
  method InOrder(s: set<string>) returns (r: seq<string>)
    ensures Distinct(r) && Set(r) == s
  {
    r := Ascending(s);
    AscendingDistinct(s);
  }

  // ---------- sorting by a comparison ----------

  ghost predicate TotalPreorder<T(!new)>(le: (T, T) -> bool) {
    && (forall x, y :: le(x, y) || le(y, x))
    && (forall x, y, z :: le(x, y) && le(y, z) ==> le(x, z))
  }

  ghost predicate Sorted<T>(le: (T, T) -> bool, s: seq<T>) {
    forall i, j :: 0 <= i < j < |s| ==> le(s[i], s[j])
  }

  function Insert<T>(le: (T, T) -> bool, x: T, s: seq<T>): seq<T> {
    if s == [] then [x]
    else if le(x, s[0]) then [x] + s
    else [s[0]] + Insert(le, x, s[1..])
  }

  /** Stable: an element stays before every equal element that follows it. */
  function Sort<T>(le: (T, T) -> bool, s: seq<T>): seq<T> {
    if s == [] then [] else Insert(le, s[0], Sort(le, s[1..]))
  }

  lemma {:induction false} InsertPermutes<T>(le: (T, T) -> bool, x: T, s: seq<T>)
    ensures multiset(Insert(le, x, s)) == multiset(s) + multiset{x}
  {
    if s != [] && !le(x, s[0]) {
      InsertPermutes(le, x, s[1..]);
      assert s == [s[0]] + s[1..];
    }
  }

  lemma {:induction false} SortPermutes<T>(le: (T, T) -> bool, s: seq<T>)
    ensures multiset(Sort(le, s)) == multiset(s)
    ensures |Sort(le, s)| == |s|
  {
    if s != [] {
      SortPermutes(le, s[1..]);
      InsertPermutes(le, s[0], Sort(le, s[1..]));
      assert s == [s[0]] + s[1..];
    }
    assert |multiset(Sort(le, s))| == |multiset(s)|;
  }

  lemma SortMembers<T>(le: (T, T) -> bool, s: seq<T>, x: T)
    ensures x in Sort(le, s) <==> x in s
  {
    SortPermutes(le, s);
    assert x in Sort(le, s) <==> x in multiset(Sort(le, s));
    assert x in s <==> x in multiset(s);
  }

  lemma {:induction false} InsertSorted<T(!new)>(le: (T, T) -> bool, x: T, s: seq<T>)
    requires TotalPreorder(le) && Sorted(le, s)
    ensures Sorted(le, Insert(le, x, s))
  {
    if s != [] && !le(x, s[0]) {
      InsertSorted(le, x, s[1..]);
      var r := Insert(le, x, s[1..]);
      InsertPermutes(le, x, s[1..]);
      forall j | 0 <= j < |r| ensures le(s[0], r[j]) {
        assert r[j] in multiset(r);
        if r[j] != x { assert r[j] in s[1..]; }
      }
    } else if s != [] {
      forall j | 0 <= j < |s| ensures le(x, s[j]) {
        if j > 0 { assert le(s[0], s[j]); }
      }
    }
  }

  lemma {:induction false} SortSorts<T(!new)>(le: (T, T) -> bool, s: seq<T>)
    requires TotalPreorder(le)
    ensures Sorted(le, Sort(le, s))
  {
    if s != [] {
      SortSorts(le, s[1..]);
      InsertSorted(le, s[0], Sort(le, s[1..]));
    }
  }

  lemma SortedHeadsAgree<T>(le: (T, T) -> bool, s: seq<T>, t: seq<T>)
    requires s != [] && t != []
    requires Sorted(le, s) && Sorted(le, t)
    requires s[0] in t && t[0] in s
    requires forall x, y :: x in s && y in s && le(x, y) && le(y, x) ==> x == y
    ensures s[0] == t[0]
  {
    var i :| 0 <= i < |t| && t[i] == s[0];
    var j :| 0 <= j < |s| && s[j] == t[0];
    if i > 0 && j > 0 {
      assert le(t[0], t[i]) && le(s[0], s[j]);
    }
  }

  lemma TailMultiset<T>(s: seq<T>)
    requires s != []
    ensures multiset(s[1..]) == multiset(s) - multiset{s[0]}
  {
    assert s == [s[0]] + s[1..];
  }

  /** Two sorted arrangements of the same elements agree when no two of them tie. */
  lemma {:induction false} SortedUnique<T>(le: (T, T) -> bool, s: seq<T>, t: seq<T>)
    requires Sorted(le, s) && Sorted(le, t)
    requires multiset(s) == multiset(t)
    requires forall x, y :: x in s && y in s && le(x, y) && le(y, x) ==> x == y
    ensures s == t
  {
    assert |s| == |multiset(s)| == |multiset(t)| == |t|;
    if s != [] {
      assert s[0] in multiset(t) && t[0] in multiset(s);
      SortedHeadsAgree(le, s, t);
      TailMultiset(s);
      TailMultiset(t);
      SortedUnique(le, s[1..], t[1..]);
      assert s == [s[0]] + s[1..] && t == [t[0]] + t[1..];
    }
  }

  lemma SortedIsFixed<T(!new)>(le: (T, T) -> bool, s: seq<T>, t: seq<T>)
    requires TotalPreorder(le) && Sorted(le, t)
    requires multiset(s) == multiset(t)
    requires forall x, y :: x in t && y in t && le(x, y) && le(y, x) ==> x == y
    ensures Sort(le, s) == t
  {
    SortSorts(le, s);
    SortPermutes(le, s);
    SortedUnique(le, t, Sort(le, s));
  }
}
