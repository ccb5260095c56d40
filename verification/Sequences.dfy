/** Sequence helpers; the recursive ones peel the last element, as the loops they specify do. */
module Sequences {
  import opened Wrappers

  function Init<T>(s: seq<T>): seq<T>
    requires s != []
  {
    s[..|s| - 1]
  }

  function Last<T>(s: seq<T>): T
    requires s != []
  {
    s[|s| - 1]
  }

  predicate Distinct<T(==)>(s: seq<T>) {
    forall i, j :: 0 <= i < j < |s| ==> s[i] != s[j]
  }

  function Set<T>(s: seq<T>): set<T> {
    set x | x in s
  }

  lemma PrefixStep<T>(s: seq<T>, i: nat)
    requires i < |s|
    ensures s[..i + 1] == s[..i] + [s[i]]
    ensures Init(s[..i + 1]) == s[..i] && Last(s[..i + 1]) == s[i]
  {
  }

  lemma WholePrefix<T>(s: seq<T>)
    ensures s[..|s|] == s
  {
  }

  lemma Snoc<T>(s: seq<T>)
    requires s != []
    ensures s == Init(s) + [Last(s)]
    ensures forall x :: x in s <==> x in Init(s) || x == Last(s)
  {
    assert s == Init(s) + [Last(s)];
  }

  lemma HasMember<T>(s: seq<T>)
    ensures s == [] || exists x :: x in s
  {
    if s != [] {
      assert s[0] in s;
    }
  }

  /** `s` without its element at `i`. */
  function Without<T>(s: seq<T>, i: nat): seq<T>
    requires i < |s|
  {
    s[..i] + s[i + 1..]
  }

  /** The value of the last element under this key; "" when there is none. */
  function LastSeen<T>(s: seq<T>, key: T -> string, value: T -> string, k: string): string {
    if s == [] then ""
    else if key(Last(s)) == k then value(Last(s))
    else LastSeen(Init(s), key, value, k)
  }

  lemma {:induction false} LastSeenIsLast<T>(s: seq<T>, key: T -> string, value: T -> string, k: string)
    requires exists i :: 0 <= i < |s| && key(s[i]) == k
    ensures exists i :: 0 <= i < |s| && key(s[i]) == k && value(s[i]) == LastSeen(s, key, value, k)
                        && forall j :: i < j < |s| ==> key(s[j]) != k
  {
    Snoc(s);
    if key(Last(s)) != k {
      var before := Init(s);
      var i :| 0 <= i < |s| && key(s[i]) == k;
      assert before[i] == s[i];
      LastSeenIsLast(before, key, value, k);
      var n :| 0 <= n < |before| && key(before[n]) == k && value(before[n]) == LastSeen(before, key, value, k)
               && forall j :: n < j < |before| ==> key(before[j]) != k;
      assert s[n] == before[n];
      assert forall j :: n < j < |s| - 1 ==> s[j] == before[j];
    } else {
      assert key(s[|s| - 1]) == k;
    }
  }

  /** The distinct elements of `s`, in first-seen order. */
  function FirstSeen<T(==)>(s: seq<T>): seq<T> {
    if s == [] then []
    else
      var seen := FirstSeen(Init(s));
      if Last(s) in seen then seen else seen + [Last(s)]
  }

  lemma {:induction false} FirstSeenMembers<T>(s: seq<T>)
    ensures Distinct(FirstSeen(s))
    ensures forall x :: x in FirstSeen(s) <==> x in s
  {
    if s != [] {
      FirstSeenMembers(Init(s));
      Snoc(s);
    }
  }

  lemma FirstSeenNext<T>(s: seq<T>)
    requires s != []
    ensures FirstSeen(s) == FirstSeen(Init(s)) + (if Last(s) in FirstSeen(Init(s)) then [] else [Last(s)])
  {
  }

  lemma {:induction false} FirstSeenDistinct<T>(s: seq<T>)
    requires Distinct(s)
    ensures FirstSeen(s) == s
  {
    if s != [] {
      Snoc(s);
      FirstSeenDistinct(Init(s));
      assert Last(s) !in Init(s);
    }
  }

  function Find<K, V>(m: map<K, V>, k: K): Option<V> {
    if k in m then Some(m[k]) else None
  }

  /** The values found at `keys`, in order; absent keys are skipped. */
  function Gather<K, V>(m: map<K, V>, keys: seq<K>): seq<V> {
    if keys == [] then []
    else
      Gather(m, Init(keys)) + (if Last(keys) in m then [m[Last(keys)]] else [])
  }

  lemma {:induction false} GatherAgrees<K, V>(m: map<K, V>, n: map<K, V>, keys: seq<K>)
    requires forall k :: k in keys ==> (k in m <==> k in n) && (k in m ==> m[k] == n[k])
    ensures Gather(m, keys) == Gather(n, keys)
  {
    if keys != [] {
      Snoc(keys);
      GatherAgrees(m, n, Init(keys));
    }
  }

  lemma {:induction false} GatherMembers<K, V>(m: map<K, V>, keys: seq<K>, v: V)
    ensures v in Gather(m, keys) <==> exists k :: k in keys && k in m && m[k] == v
  {
    if keys != [] {
      Snoc(keys);
      GatherMembers(m, Init(keys), v);
    }
  }

  lemma {:induction false} GatherAll<K, V>(m: map<K, V>, keys: seq<K>)
    requires forall k :: k in keys ==> k in m
    ensures |Gather(m, keys)| == |keys|
    ensures forall i :: 0 <= i < |keys| ==> Gather(m, keys)[i] == m[keys[i]]
  {
    if keys != [] {
      Snoc(keys);
      GatherAll(m, Init(keys));
    }
  }

  lemma {:induction false} DistinctCounts<T>(s: seq<T>)
    requires Distinct(s)
    ensures forall x :: multiset(s)[x] == if x in s then 1 else 0
  {
    if s != [] {
      Snoc(s);
      DistinctCounts(Init(s));
      assert Last(s) !in Init(s);
    }
  }

  lemma {:induction false} CountsDistinct<T>(s: seq<T>)
    requires forall x :: multiset(s)[x] <= 1
    ensures Distinct(s)
  {
    if s != [] {
      Snoc(s);
      forall x ensures multiset(Init(s))[x] <= 1 {
        assert multiset(s)[x] == multiset(Init(s))[x] + if x == Last(s) then 1 else 0;
      }
      CountsDistinct(Init(s));
      assert multiset(s)[Last(s)] == multiset(Init(s))[Last(s)] + 1;
      assert Last(s) !in Init(s);
      assert forall i :: 0 <= i < |s| - 1 ==> s[i] in Init(s);
    }
  }

  lemma SameMembersSameMultiset<T>(s: seq<T>, t: seq<T>)
    requires Distinct(s) && Distinct(t)
    requires forall x :: x in s <==> x in t
    ensures multiset(s) == multiset(t)
  {
    DistinctCounts(s);
    DistinctCounts(t);
  }
}
