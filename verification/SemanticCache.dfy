/**
 * The semantic cache: a step's output is frozen per (kind, version, key), so a non-deterministic and
 * possibly failing step answers the same on every later run.
 */
module SemanticCache {
  import opened Sequences
  import opened Wrappers

  datatype Slot<K> = Slot(kind: string, version: string, key: K)

  /** What a cached call leaves: the entries, the answer (none when the inner step failed), and whether it ran. */
  datatype Served<K(==), V> = Served(entries: map<Slot<K>, V>, answer: Option<V>, called: bool)

  /** `inner` is what the inner step would produce if it ran now; none stands for a panic. */
  function Serve<K(==), V>(entries: map<Slot<K>, V>, slot: Slot<K>, inner: Option<V>): Served<K, V> {
    if slot in entries then Served(entries, Some(entries[slot]), false)
    else
      match inner
      case None => Served(entries, None, true)
      case Some(out) => Served(entries[slot := out], Some(out), true)
  }

  class InMemoryCache<K(==), V> {
    var entries: map<Slot<K>, V>

    constructor ()
      ensures entries == map[]
    {
      entries := map[];
    }

    method Get(slot: Slot<K>) returns (hit: Option<V>)
      ensures hit == if slot in entries then Some(entries[slot]) else None
    {
      hit := if slot in entries then Some(entries[slot]) else None;
    }

    method Put(slot: Slot<K>, value: V)
      modifies this
      ensures entries == old(entries)[slot := value]
    {
      entries := entries[slot := value];
    }
  }

  /** A step memoised in a cache under a fixed kind and version. */
  class Cached<K(==), V> {
    const cache: InMemoryCache<K, V>
    const kind: string
    const version: string

    constructor (cache: InMemoryCache<K, V>, kind: string, version: string)
      ensures this.cache == cache && this.kind == kind && this.version == version
    {
      this.cache := cache;
      this.kind := kind;
      this.version := version;
    }

    method Run(key: K, inner: Option<V>) returns (answer: Option<V>, called: bool)
      modifies cache
      ensures Served(cache.entries, answer, called) == Serve(old(cache.entries), Slot(kind, version, key), inner)
    {
      var slot := Slot(kind, version, key);
      var hit := cache.Get(slot);
      if hit.Some? {
        return hit, false;
      }
      called := true;
      answer := inner;
      match inner {
        case None =>
        case Some(out) => cache.Put(slot, out);
      }
    }
  }

  // ---------- runs ----------

  datatype Use<K, V> =
    | Call(slot: Slot<K>, inner: Option<V>)
    | Prune(keep: string)

  /** The durable cache's reclaim: delete every entry of another version. */
  function Pruned<K(==), V>(entries: map<Slot<K>, V>, keep: string): map<Slot<K>, V> {
    map s | s in entries && s.version == keep :: entries[s]
  }

  function Step<K(==), V>(entries: map<Slot<K>, V>, use: Use<K, V>): map<Slot<K>, V> {
    match use
    case Call(slot, inner) => Serve(entries, slot, inner).entries
    case Prune(keep) => Pruned(entries, keep)
  }

  function AfterUses<K(==), V>(entries: map<Slot<K>, V>, uses: seq<Use<K, V>>): map<Slot<K>, V> {
    if uses == [] then entries else Step(AfterUses(entries, Init(uses)), Last(uses))
  }

  /** No prune of this run drops the version. */
  ghost predicate Keeps<K, V>(uses: seq<Use<K, V>>, version: string) {
    forall u :: u in uses && u.Prune? ==> u.keep == version
  }

  /** The answer to the call at position `i` of a run. */
  function AnswerAt<K(==), V>(entries: map<Slot<K>, V>, uses: seq<Use<K, V>>, i: nat): Served<K, V>
    requires i < |uses| && uses[i].Call?
  {
    Serve(AfterUses(entries, uses[..i]), uses[i].slot, uses[i].inner)
  }

  /** Once frozen, an entry stays as it is while its version is kept. */
  lemma {:induction false} EntryPersists<K, V>(
    entries: map<Slot<K>, V>, uses: seq<Use<K, V>>, i: nat, j: nat, slot: Slot<K>)
    requires i <= j <= |uses| && Keeps(uses, slot.version)
    requires slot in AfterUses(entries, uses[..i])
    ensures slot in AfterUses(entries, uses[..j])
    ensures AfterUses(entries, uses[..j])[slot] == AfterUses(entries, uses[..i])[slot]
    decreases j - i
  {
    if i < j {
      EntryPersists(entries, uses, i, j - 1, slot);
      PrefixStep(uses, j - 1);
      assert uses[j - 1] in uses;
    }
  }

  /** A call that gets an answer leaves that answer in its slot. */
  lemma AnswerIsStored<K, V>(entries: map<Slot<K>, V>, uses: seq<Use<K, V>>, i: nat)
    requires i < |uses| && uses[i].Call?
    requires AnswerAt(entries, uses, i).answer.Some?
    ensures uses[i].slot in AfterUses(entries, uses[..i + 1])
    ensures AfterUses(entries, uses[..i + 1])[uses[i].slot] == AnswerAt(entries, uses, i).answer.value
  {
    PrefixStep(uses, i);
  }

  /**
   * Frozen: after a call has been answered, every later call to the slot gets that same answer without
   * running the inner step, whatever that step would say now. So the inner step succeeds at most once.
   */
  lemma LaterCallsRepeatTheAnswer<K, V>(entries: map<Slot<K>, V>, uses: seq<Use<K, V>>, i: nat, j: nat)
    requires i < j < |uses| && uses[i].Call? && uses[j].Call? && uses[j].slot == uses[i].slot
    requires Keeps(uses, uses[i].slot.version)
    requires AnswerAt(entries, uses, i).answer.Some?
    ensures AnswerAt(entries, uses, j).answer == AnswerAt(entries, uses, i).answer
    ensures !AnswerAt(entries, uses, j).called
  {
    AnswerIsStored(entries, uses, i);
    EntryPersists(entries, uses, i + 1, j, uses[i].slot);
  }

  /** Positions of a run where the inner step of `slot` ran and succeeded. */
  ghost function Successes<K(!new), V(!new)>(entries: map<Slot<K>, V>, uses: seq<Use<K, V>>, slot: Slot<K>): set<nat> {
    set i: nat | i < |uses| && uses[i].Call? && uses[i].slot == slot
                 && AnswerAt(entries, uses, i).called && uses[i].inner.Some?
  }

  /** Over every sequential run that keeps the version, the inner step succeeds at most once per slot. */
  lemma AtMostOneSuccess<K(!new), V(!new)>(entries: map<Slot<K>, V>, uses: seq<Use<K, V>>, slot: Slot<K>)
    requires Keeps(uses, slot.version)
    ensures |Successes(entries, uses, slot)| <= 1
  {
    var all := Successes(entries, uses, slot);
    forall i, j | i in all && j in all ensures i == j {
      if i < j {
        LaterCallsRepeatTheAnswer(entries, uses, i, j);
      } else if j < i {
        LaterCallsRepeatTheAnswer(entries, uses, j, i);
      }
    }
    AtMostOneElement(all);
  }

  lemma AtMostOneElement<T>(s: set<T>)
    requires forall x, y :: x in s && y in s ==> x == y
    ensures |s| <= 1
  {
    if s != {} {
      var x :| x in s;
      assert s == {x};
    }
  }

  /** Opening the cache at a version changes no answer that the version can give. */
  lemma PruneKeepsVersion<K, V>(entries: map<Slot<K>, V>, slot: Slot<K>, inner: Option<V>)
    ensures Serve(Pruned(entries, slot.version), slot, inner).answer == Serve(entries, slot, inner).answer
    ensures Serve(Pruned(entries, slot.version), slot, inner).called == Serve(entries, slot, inner).called
  {
  }

  /** What the first call to exactly this slot, of this kind and version, that got an answer was told. */
  function FirstAnswer<K(==), V>(uses: seq<Use<K, V>>, slot: Slot<K>): Option<V> {
    if uses == [] then None
    else
      var earlier := FirstAnswer(Init(uses), slot);
      if earlier.Some? then earlier
      else if Last(uses).Call? && Last(uses).slot == slot then Last(uses).inner
      else None
  }

  /**
   * From an empty cache, over every run that keeps the version, a slot holds the first successful output
   * of its own calls and nothing else: no call of another kind, version or key ever answers it.
   */
  lemma {:induction false} SlotHoldsItsFirstAnswer<K, V>(uses: seq<Use<K, V>>, slot: Slot<K>)
    requires Keeps(uses, slot.version)
    ensures var entries := AfterUses(map[], uses);
            (if slot in entries then Some(entries[slot]) else None) == FirstAnswer(uses, slot)
  {
    if uses != [] {
      Snoc(uses);
      SlotHoldsItsFirstAnswer(Init(uses), slot);
    }
  }

  /**
   * So, from an empty cache, a call runs the inner step exactly when no earlier call of its slot got an
   * answer; it is then told what the step says, and otherwise that first answer.
   */
  lemma StepRunsExactlyWhen<K, V>(uses: seq<Use<K, V>>, i: nat)
    requires i < |uses| && uses[i].Call? && Keeps(uses, uses[i].slot.version)
    ensures var earlier := FirstAnswer(uses[..i], uses[i].slot);
            && (AnswerAt(map[], uses, i).called <==> earlier.None?)
            && AnswerAt(map[], uses, i).answer == if earlier.Some? then earlier else uses[i].inner
  {
    assert Keeps(uses[..i], uses[i].slot.version) by {
      assert forall u :: u in uses[..i] ==> u in uses;
    }
    SlotHoldsItsFirstAnswer(uses[..i], uses[i].slot);
  }
}
