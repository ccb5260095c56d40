/** What a filtering loop selects, said position by position. */
module Selection {
  import opened Sequences
  import opened Wrappers

  /** How many elements of `s` are picked. */
  function Count<S, T>(s: seq<S>, pick: S -> Option<T>): nat {
    if s == [] then 0 else Count(Init(s), pick) + (if pick(Last(s)).Some? then 1 else 0)
  }

  /** `t` holds one value per picked element of `s`, each after those picked before it. */
  ghost predicate Selects<S, T>(s: seq<S>, t: seq<T>, pick: S -> Option<T>) {
    && |t| == Count(s, pick)
    && forall n :: 0 <= n < |s| && pick(s[n]).Some? ==>
         Count(s[..n], pick) < |t| && t[Count(s[..n], pick)] == pick(s[n]).value
  }

  lemma SelectsNone<S, T>(pick: S -> Option<T>)
    ensures Selects([], [], pick)
  {
  }

  /** One more element adds its value at the end, or nothing. */
  lemma SelectsNext<S, T>(s: seq<S>, t: seq<T>, pick: S -> Option<T>)
    requires s != [] && Selects(Init(s), t, pick)
    ensures Selects(s, t + (if pick(Last(s)).Some? then [pick(Last(s)).value] else []), pick)
  {
    var now := t + (if pick(Last(s)).Some? then [pick(Last(s)).value] else []);
    forall n | 0 <= n < |s| && pick(s[n]).Some?
      ensures Count(s[..n], pick) < |now| && now[Count(s[..n], pick)] == pick(s[n]).value {
      if n < |s| - 1 {
        assert Init(s)[..n] == s[..n] && Init(s)[n] == s[n];
      } else {
        assert s[..n] == Init(s);
      }
    }
  }

  /** The k-th value comes from a picked element with k picked before it. */
  lemma {:induction false} PickedAt<S, T>(s: seq<S>, pick: S -> Option<T>, k: nat) returns (n: nat)
    requires k < Count(s, pick)
    ensures n < |s| && pick(s[n]).Some? && Count(s[..n], pick) == k
  {
    if k < Count(Init(s), pick) {
      n := PickedAt(Init(s), pick, k);
      assert Init(s)[..n] == s[..n];
    } else {
      n := |s| - 1;
      assert s[..n] == Init(s);
    }
  }

  /** So a selection is determined by what it picks from. */
  lemma SelectsUnique<S, T>(s: seq<S>, t: seq<T>, u: seq<T>, pick: S -> Option<T>)
    requires Selects(s, t, pick) && Selects(s, u, pick)
    ensures t == u
  {
    forall k | 0 <= k < |t| ensures t[k] == u[k] {
      var n := PickedAt(s, pick, k);
    }
  }

  lemma SelectsMembers<S, T>(s: seq<S>, t: seq<T>, pick: S -> Option<T>, x: T)
    requires Selects(s, t, pick)
    ensures x in t <==> exists y :: y in s && pick(y) == Some(x)
  {
    if x in t {
      var k :| 0 <= k < |t| && t[k] == x;
      var n := PickedAt(s, pick, k);
      assert s[n] in s;
    }
    if y :| y in s && pick(y) == Some(x) {
      var n :| 0 <= n < |s| && s[n] == y;
      assert t[Count(s[..n], pick)] == x;
    }
  }

  /** Gathering selects what is found, in the order asked for. */
  lemma {:induction false} GatherSelects<K, V>(m: map<K, V>, keys: seq<K>)
    ensures Selects(keys, Gather(m, keys), (k: K) => Find(m, k))
  {
    if keys != [] {
      GatherSelects(m, Init(keys));
      SelectsNext(keys, Gather(m, Init(keys)), (k: K) => Find(m, k));
    }
  }

  // ---------- selecting twice ----------

  function Select<S, T>(s: seq<S>, pick: S -> Option<T>): seq<T> {
    if s == [] then []
    else Select(Init(s), pick) + (if pick(Last(s)).Some? then [pick(Last(s)).value] else [])
  }

  lemma {:induction false} SelectSelects<S, T>(s: seq<S>, pick: S -> Option<T>)
    ensures Selects(s, Select(s, pick), pick)
  {
    if s != [] {
      SelectSelects(Init(s), pick);
      SelectsNext(s, Select(Init(s), pick), pick);
    }
  }

  lemma SelectConcat<S, T>(s: seq<S>, x: S, pick: S -> Option<T>)
    ensures Select(s + [x], pick) == Select(s, pick) + (if pick(x).Some? then [pick(x).value] else [])
  {
    assert Init(s + [x]) == s && Last(s + [x]) == x;
  }

  lemma {:induction false} SelectSelected<S, T, U>(
    s: seq<S>, pick: S -> Option<T>, again: T -> Option<U>, both: S -> Option<U>)
    requires forall x :: both(x) == if pick(x).Some? then again(pick(x).value) else None
    ensures Select(Select(s, pick), again) == Select(s, both)
  {
    if s != [] {
      SelectSelected(Init(s), pick, again, both);
      if pick(Last(s)).Some? {
        SelectConcat(Select(Init(s), pick), pick(Last(s)).value, again);
      } else {
        assert Select(Init(s), pick) + [] == Select(Init(s), pick);
      }
    }
  }

  /** Selecting from a selection selects from what was selected from. */
  lemma SelectsCompose<S, T, U>(
    s: seq<S>, t: seq<T>, u: seq<U>, pick: S -> Option<T>, again: T -> Option<U>, both: S -> Option<U>)
    requires Selects(s, t, pick) && Selects(t, u, again)
    requires forall x :: both(x) == if pick(x).Some? then again(pick(x).value) else None
    ensures Selects(s, u, both)
  {
    SelectSelects(s, pick);
    SelectsUnique(s, t, Select(s, pick), pick);
    SelectSelects(t, again);
    SelectsUnique(t, u, Select(t, again), again);
    SelectSelected(s, pick, again, both);
    SelectSelects(s, both);
  }
}
