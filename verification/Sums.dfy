/** Finite sums of reals over sequences without repetition. */
module Sums {
  import opened Sequences

  ghost function Sum<T>(f: T -> real, s: seq<T>): real {
    if s == [] then 0.0 else Sum(f, Init(s)) + f(Last(s))
  }

  lemma {:induction false} SumSame<T>(f: T -> real, g: T -> real, s: seq<T>)
    requires forall x :: x in s ==> f(x) == g(x)
    ensures Sum(f, s) == Sum(g, s)
  {
    if s != [] {
      Snoc(s);
      SumSame(f, g, Init(s));
    }
  }

  lemma {:induction false} SumAdds<T>(f: T -> real, g: T -> real, h: T -> real, s: seq<T>)
    requires forall x :: x in s ==> f(x) == g(x) + h(x)
    ensures Sum(f, s) == Sum(g, s) + Sum(h, s)
  {
    if s != [] {
      Snoc(s);
      SumAdds(f, g, h, Init(s));
    }
  }

  lemma {:induction false} SumConcat<T>(f: T -> real, s: seq<T>, t: seq<T>)
    ensures Sum(f, s + t) == Sum(f, s) + Sum(f, t)
  {
    if t == [] {
      assert s + t == s;
    } else {
      assert Init(s + t) == s + Init(t) && Last(s + t) == Last(t);
      SumConcat(f, s, Init(t));
    }
  }

  lemma SumOne<T>(f: T -> real, x: T)
    ensures Sum(f, [x]) == f(x)
  {
    assert Init([x]) == [] && Last([x]) == x;
  }

  lemma SumRemove<T>(f: T -> real, s: seq<T>, i: nat)
    requires i < |s|
    ensures Sum(f, s) == Sum(f, Without(s, i)) + f(s[i])
  {
    var before, after := s[..i], s[i + 1..];
    assert s == (before + [s[i]]) + after;
    SumConcat(f, before + [s[i]], after);
    SumConcat(f, before, [s[i]]);
    SumConcat(f, before, after);
    SumOne(f, s[i]);
  }

  lemma WithoutMembers<T>(s: seq<T>, i: nat)
    requires i < |s| && Distinct(s)
    ensures Distinct(Without(s, i))
    ensures forall x :: x in Without(s, i) <==> x in s && x != s[i]
  {
    var rest := Without(s, i);
    assert forall k :: 0 <= k < |rest| ==> rest[k] == s[if k < i then k else k + 1];
    forall x | x in s && x != s[i] ensures x in rest {
      var k :| 0 <= k < |s| && s[k] == x;
      assert x == rest[if k < i then k else k - 1];
    }
  }

  /** Terms outside `s` that are zero do not change the sum. */
  lemma {:induction false} SumExtend<T>(f: T -> real, s: seq<T>, t: seq<T>)
    requires Distinct(s) && Distinct(t)
    requires forall x :: x in s ==> x in t
    requires forall x :: x in t && x !in s ==> f(x) == 0.0
    ensures Sum(f, s) == Sum(f, t)
    decreases |t|
  {
    if t == [] {
      assert s == [] by { assert forall i :: 0 <= i < |s| ==> s[i] in s; }
    } else {
      Snoc(t);
      var x := Last(t);
      assert x !in Init(t);
      if x in s {
        var i :| 0 <= i < |s| && s[i] == x;
        SumRemove(f, s, i);
        WithoutMembers(s, i);
        SumExtend(f, Without(s, i), Init(t));
      } else {
        SumExtend(f, s, Init(t));
      }
    }
  }

  /** A term that is zero except at one member of `s`. */
  lemma {:induction false} SumSingle<T>(f: T -> real, s: seq<T>, x: T)
    requires Distinct(s) && x in s
    requires forall y :: y in s && y != x ==> f(y) == 0.0
    ensures Sum(f, s) == f(x)
  {
    SumExtend(f, [x], s);
    assert Init([x]) == [] && Last([x]) == x;
  }
}
