/**
 * Concurrent cached calls. Each access to the cache takes its lock, but a call checks and writes under
 * separate ones, so calls interleave between their check and their write.
 */
module ConcurrentCache {
  import opened SemanticCache
  import opened Sequences
  import opened Wrappers

  /** A call checks its slot; if it missed, it later finishes with what its inner step produced. */
  datatype Act<K, V> =
    | Checks(call: nat, slot: Slot<K>)
    | Finishes(call: nat, inner: Option<V>)

  /** The entries, and the calls that missed and have not finished. */
  datatype Flight<K(==), V> = Flight(entries: map<Slot<K>, V>, missed: map<nat, Slot<K>>)

  function TakeAct<K(==), V>(f: Flight<K, V>, act: Act<K, V>): Flight<K, V> {
    match act
    case Checks(call, slot) => if slot in f.entries then f else f.(missed := f.missed[call := slot])
    case Finishes(call, inner) =>
      if call !in f.missed then f
      else
        Flight(if inner.Some? then f.entries[f.missed[call] := inner.value] else f.entries, f.missed - {call})
  }

  function Fly<K(==), V>(f: Flight<K, V>, acts: seq<Act<K, V>>): Flight<K, V> {
    if acts == [] then f else TakeAct(Fly(f, Init(acts)), Last(acts))
  }

  /** At position `i`, a call that missed `slot` finishes with an output. */
  ghost predicate SucceedsAt<K(!new), V(!new)>(f: Flight<K, V>, acts: seq<Act<K, V>>, i: nat, slot: Slot<K>) {
    && i < |acts| && acts[i].Finishes? && acts[i].inner.Some?
    && var before := Fly(f, acts[..i]);
       acts[i].call in before.missed && before.missed[acts[i].call] == slot
  }

  /** At position `i` the call checks the slot. */
  ghost predicate ChecksAt<K(!new), V(!new)>(acts: seq<Act<K, V>>, i: nat, call: nat, slot: Slot<K>) {
    i < |acts| && acts[i] == Checks(call, slot)
  }

  /** A call waiting on a slot checked it, and missed, at some earlier position. */
  lemma {:induction false} MissedSince<K(!new), V(!new)>(f: Flight<K, V>, acts: seq<Act<K, V>>, i: nat, call: nat)
    requires f.missed == map[] && i <= |acts|
    requires call in Fly(f, acts[..i]).missed
    ensures exists p: nat :: p < i && ChecksAt(acts, p, call, Fly(f, acts[..i]).missed[call])
                             && Fly(f, acts[..i]).missed[call] !in Fly(f, acts[..p]).entries
  {
    if i > 0 {
      PrefixStep(acts, i - 1);
      var before, slot := Fly(f, acts[..i - 1]), Fly(f, acts[..i]).missed[call];
      if acts[i - 1] == Checks(call, slot) && slot !in before.entries {
        assert ChecksAt(acts, i - 1, call, slot);
      } else {
        MissedSince(f, acts, i - 1, call);
      }
    }
  }

  /** An entry never goes away. */
  lemma {:induction false} EntryStays<K, V>(f: Flight<K, V>, acts: seq<Act<K, V>>, i: nat, j: nat, slot: Slot<K>)
    requires i <= j <= |acts| && slot in Fly(f, acts[..i]).entries
    ensures slot in Fly(f, acts[..j]).entries
    decreases j - i
  {
    if i < j {
      PrefixStep(acts, j - 1);
      EntryStays(f, acts, i, j - 1, slot);
    }
  }

  // ---------- when a call succeeds ----------

  /** The call finishing at `j` checked this slot, once, at `p`, and did nothing else before. */
  ghost predicate CallAt<K(!new), V(!new)>(acts: seq<Act<K, V>>, p: nat, j: nat, slot: Slot<K>) {
    && p < j < |acts| && acts[j].Finishes?
    && acts[p] == Checks(acts[j].call, slot)
    && forall k :: 0 <= k < j && k != p ==> acts[k].call != acts[j].call
  }

  /** Before its check a call waits for nothing. */
  lemma {:induction false} NotWaitingBefore<K, V>(f: Flight<K, V>, acts: seq<Act<K, V>>, n: nat, call: nat)
    requires n <= |acts| && call !in f.missed
    requires forall k :: 0 <= k < n ==> acts[k].call != call
    ensures call !in Fly(f, acts[..n]).missed
  {
    if n > 0 {
      PrefixStep(acts, n - 1);
      NotWaitingBefore(f, acts, n - 1, call);
    }
  }

  /** From its check to its finish a call waits exactly when it missed. */
  lemma {:induction false} WaitsExactlyWhenMissed<K(!new), V(!new)>(
    f: Flight<K, V>, acts: seq<Act<K, V>>, p: nat, n: nat, j: nat, slot: Slot<K>)
    requires CallAt(acts, p, j, slot) && p < n <= j && acts[j].call !in f.missed
    ensures Find(Fly(f, acts[..n]).missed, acts[j].call)
         == if slot in Fly(f, acts[..p]).entries then None else Some(slot)
    decreases n
  {
    PrefixStep(acts, n - 1);
    if n == p + 1 {
      NotWaitingBefore(f, acts, p, acts[j].call);
    } else {
      WaitsExactlyWhenMissed(f, acts, p, n - 1, j, slot);
    }
  }

  /** A call with an output succeeds exactly when its slot was empty at its check. */
  lemma CallSucceedsExactlyWhen<K(!new), V(!new)>(
    f: Flight<K, V>, acts: seq<Act<K, V>>, p: nat, j: nat, slot: Slot<K>)
    requires CallAt(acts, p, j, slot) && acts[j].inner.Some? && acts[j].call !in f.missed
    ensures SucceedsAt(f, acts, j, slot) <==> slot !in Fly(f, acts[..p]).entries
  {
    WaitsExactlyWhenMissed(f, acts, p, j, j, slot);
  }

  ghost predicate FirstSuccess<K(!new), V(!new)>(f: Flight<K, V>, acts: seq<Act<K, V>>, i: nat, slot: Slot<K>) {
    SucceedsAt(f, acts, i, slot) && slot !in Fly(f, acts[..i]).entries
  }

  /**
   * After the first success on a slot, at `i`, a further call with an output succeeds too if and only if
   * it had checked the slot before `i`, that is, if the two calls overlap.
   */
  lemma FurtherSuccessExactlyWhen<K(!new), V(!new)>(
    f: Flight<K, V>, acts: seq<Act<K, V>>, i: nat, p: nat, j: nat, slot: Slot<K>)
    requires f.missed == map[] && FirstSuccess(f, acts, i, slot) && i < j
    requires CallAt(acts, p, j, slot) && acts[j].inner.Some?
    ensures SucceedsAt(f, acts, j, slot) <==> p < i
  {
    CallSucceedsExactlyWhen(f, acts, p, j, slot);
    PrefixStep(acts, i);
    assert p != i;
    if p < i {
      if slot in Fly(f, acts[..p]).entries {
        EntryStays(f, acts, p, i, slot);
      }
    } else {
      EntryStays(f, acts, i + 1, p, slot);
    }
  }

  // ---------- when the step succeeds at most once ----------

  /** Every call checks one slot, once, before it finishes. */
  ghost predicate WellCalled<K(!new), V(!new)>(acts: seq<Act<K, V>>) {
    forall j :: 0 <= j < |acts| && acts[j].Finishes? ==> exists p: nat, slot :: CallAt(acts, p, j, slot)
  }

  ghost predicate AtMostOnce<K(!new), V(!new)>(f: Flight<K, V>, acts: seq<Act<K, V>>, slot: Slot<K>) {
    forall i: nat, j: nat :: SucceedsAt(f, acts, i, slot) && SucceedsAt(f, acts, j, slot) ==> i == j
  }

  /** A call with an output checked the slot before the first success and finished after it. */
  ghost predicate Overlaps<K(!new), V(!new)>(f: Flight<K, V>, acts: seq<Act<K, V>>, slot: Slot<K>) {
    exists i: nat, p: nat, j: nat ::
      FirstSuccess(f, acts, i, slot) && CallAt(acts, p, j, slot) && acts[j].inner.Some? && p < i < j
  }

  /** An entry that was not there to begin with was written by a first success. */
  lemma {:induction false} EntryHasFirstSuccess<K(!new), V(!new)>(
    f: Flight<K, V>, acts: seq<Act<K, V>>, n: nat, slot: Slot<K>)
    requires n <= |acts| && slot !in f.entries && slot in Fly(f, acts[..n]).entries
    ensures exists i: nat :: i < n && FirstSuccess(f, acts, i, slot)
  {
    PrefixStep(acts, n - 1);
    if slot in Fly(f, acts[..n - 1]).entries {
      EntryHasFirstSuccess(f, acts, n - 1, slot);
    } else {
      assert FirstSuccess(f, acts, n - 1, slot);
    }
  }

  /** A successful finish belongs to a call that checked that slot. */
  lemma SuccessIsCall<K(!new), V(!new)>(f: Flight<K, V>, acts: seq<Act<K, V>>, j: nat, slot: Slot<K>)
    returns (p: nat)
    requires f.missed == map[] && WellCalled(acts) && SucceedsAt(f, acts, j, slot)
    ensures CallAt(acts, p, j, slot)
  {
    var at: nat, checked :| CallAt(acts, at, j, checked);
    MissedSince(f, acts, j, acts[j].call);
    var q: nat :| q < j && ChecksAt(acts, q, acts[j].call, slot);
    assert q == at;
    p := at;
  }

  /**
   * Over every interleaving, from an empty slot, the inner step succeeds at most once if and only if no
   * call with an output overlaps the first that succeeded.
   */
  lemma AtMostOnceExactlyWhen<K(!new), V(!new)>(f: Flight<K, V>, acts: seq<Act<K, V>>, slot: Slot<K>)
    requires f.missed == map[] && slot !in f.entries && WellCalled(acts)
    ensures AtMostOnce(f, acts, slot) <==> !Overlaps(f, acts, slot)
  {
    hide FirstSuccess, WellCalled, Fly;
    if Overlaps(f, acts, slot) {
      var i: nat, p: nat, j: nat :|
        FirstSuccess(f, acts, i, slot) && CallAt(acts, p, j, slot) && acts[j].inner.Some? && p < i < j;
      FurtherSuccessExactlyWhen(f, acts, i, p, j, slot);
      FirstSucceeds(f, acts, i, slot);
    } else {
      forall a: nat, b: nat | SucceedsAt(f, acts, a, slot) && SucceedsAt(f, acts, b, slot) ensures a == b {
        if a < b {
          OnlyOverlapSucceedsAgain(f, acts, a, b, slot);
        } else if b < a {
          OnlyOverlapSucceedsAgain(f, acts, b, a, slot);
        }
      }
    }
  }

  lemma FirstSucceeds<K(!new), V(!new)>(f: Flight<K, V>, acts: seq<Act<K, V>>, i: nat, slot: Slot<K>)
    requires FirstSuccess(f, acts, i, slot)
    ensures SucceedsAt(f, acts, i, slot)
  {
  }

  lemma OnlyOverlapSucceedsAgain<K(!new), V(!new)>(
    f: Flight<K, V>, acts: seq<Act<K, V>>, a: nat, b: nat, slot: Slot<K>)
    requires f.missed == map[] && slot !in f.entries && WellCalled(acts)
    requires a < b && SucceedsAt(f, acts, a, slot) && SucceedsAt(f, acts, b, slot)
    ensures Overlaps(f, acts, slot)
  {
    PrefixStep(acts, a);
    EntryHasFirstSuccess(f, acts, a + 1, slot);
    var i: nat :| i < a + 1 && FirstSuccess(f, acts, i, slot);
    var p := SuccessIsCall(f, acts, b, slot);
    FurtherSuccessExactlyWhen(f, acts, i, p, b, slot);
  }

  // ---------- an example ----------

  /** Two calls that check before either writes both run the step, and the later output replaces the earlier. */
  lemma OverlapRunsTwice<K(!new), V(!new)>(slot: Slot<K>, first: V, second: V)
    ensures var acts := [Checks(0, slot), Checks(1, slot), Finishes(0, Some(first)), Finishes(1, Some(second))];
            var start: Flight<K, V> := Flight(map[], map[]);
            && SucceedsAt(start, acts, 2, slot) && SucceedsAt(start, acts, 3, slot)
            && Fly(start, acts).entries == map[slot := second]
  {
    var acts := [Checks(0, slot), Checks(1, slot), Finishes(0, Some(first)), Finishes(1, Some(second))];
    var start: Flight<K, V> := Flight(map[], map[]);
    OverlapFlight(slot, first, second);
    assert acts[..4] == acts;
    PrefixStep(acts, 3);
    hide Fly;
    assert acts[2].call in Fly(start, acts[..2]).missed && acts[3].call in Fly(start, acts[..3]).missed;
  }

  lemma OverlapFlight<K(!new), V(!new)>(slot: Slot<K>, first: V, second: V)
    ensures var acts := [Checks(0, slot), Checks(1, slot), Finishes(0, Some(first)), Finishes(1, Some(second))];
            var start: Flight<K, V> := Flight(map[], map[]);
            && Fly(start, acts[..2]) == Flight(map[], map[0 := slot, 1 := slot])
            && Fly(start, acts[..3]) == Flight(map[slot := first], map[1 := slot])
            && Fly(start, acts[..4]).entries == map[slot := second]
  {
    var acts := [Checks(0, slot), Checks(1, slot), Finishes(0, Some(first)), Finishes(1, Some(second))];
    var start: Flight<K, V> := Flight(map[], map[]);
    assert acts[..0] == [];
    PrefixStep(acts, 0);
    PrefixStep(acts, 1);
    PrefixStep(acts, 2);
    PrefixStep(acts, 3);
    assert Fly(start, acts[..1]) == Flight(map[], map[0 := slot]);
    assert Fly(start, acts[..2]) == Flight(map[], map[0 := slot, 1 := slot]);
    assert Fly(start, acts[..3]) == Flight(map[slot := first], map[1 := slot]);
  }
}
