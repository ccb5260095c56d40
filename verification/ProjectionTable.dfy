/**
 * The durable projection cache: a table keyed by (version, key), without the step's kind. Used by steps
 * of one kind it answers as the in-memory cache does.
 */
module ProjectionTable {
  import opened SemanticCache
  import opened Sequences
  import opened Wrappers

  datatype RowKey<K> = RowKey(version: string, key: K)

  type Rows<K(==), V> = map<RowKey<K>, V>

  /** The table as a step of this kind sees it. */
  function OfKind<K(==), V>(rows: Rows<K, V>, kind: string): map<Slot<K>, V> {
    map k | k in rows :: Slot(kind, k.version, k.key) := rows[k]
  }

  function Kept<K(==), V>(rows: Rows<K, V>, keep: string): Rows<K, V> {
    map k | k in rows && k.version == keep :: rows[k]
  }

  class SqliteProjectionCache<K(==), V> {
    var rows: Rows<K, V>

    constructor (rows: Rows<K, V>)
      ensures this.rows == rows
    {
      this.rows := rows;
    }

    method Get(slot: Slot<K>) returns (hit: Option<V>)
      ensures hit == if slot in OfKind(rows, slot.kind) then Some(OfKind(rows, slot.kind)[slot]) else None
    {
      var key := RowKey(slot.version, slot.key);
      hit := if key in rows then Some(rows[key]) else None;
      OfKindAt(rows, slot);
    }

    method Put(slot: Slot<K>, value: V)
      modifies this
      ensures rows == old(rows)[RowKey(slot.version, slot.key) := value]
      ensures OfKind(rows, slot.kind) == OfKind(old(rows), slot.kind)[slot := value]
    {
      rows := rows[RowKey(slot.version, slot.key) := value];
      PutIsPut(old(rows), slot, value);
    }

    /** Delete every row of another version; returns how many there were. */
    method PruneSuperseded(keep: string) returns (reclaimed: nat)
      modifies this
      ensures rows == Kept(old(rows), keep)
      ensures reclaimed == |old(rows)| - |rows|
    {
      PruneShrinks(rows, keep);
      var kept := map k | k in rows && k.version == keep :: rows[k];
      reclaimed := |rows| - |kept|;
      rows := kept;
    }
  }

  lemma OfKindAt<K, V>(rows: Rows<K, V>, slot: Slot<K>)
    ensures slot in OfKind(rows, slot.kind) <==> RowKey(slot.version, slot.key) in rows
    ensures slot in OfKind(rows, slot.kind) ==>
      OfKind(rows, slot.kind)[slot] == rows[RowKey(slot.version, slot.key)]
  {
    if RowKey(slot.version, slot.key) in rows {
      assert slot == Slot(slot.kind, slot.version, slot.key);
    }
  }

  lemma PutIsPut<K, V>(rows: Rows<K, V>, slot: Slot<K>, value: V)
    ensures OfKind(rows[RowKey(slot.version, slot.key) := value], slot.kind)
         == OfKind(rows, slot.kind)[slot := value]
  {
    var now := rows[RowKey(slot.version, slot.key) := value];
    forall s: Slot<K> | s.kind == slot.kind
      ensures s in OfKind(now, s.kind) <==> s in OfKind(rows, s.kind) || s == slot
      ensures s in OfKind(now, s.kind) ==>
        OfKind(now, s.kind)[s] == if s == slot then value else OfKind(rows, s.kind)[s]
    {
      OfKindAt(now, s);
      OfKindAt(rows, s);
    }
  }

  lemma PruneIsPruned<K, V>(rows: Rows<K, V>, keep: string, kind: string)
    ensures OfKind(Kept(rows, keep), kind) == Pruned(OfKind(rows, kind), keep)
  {
  }

  lemma PruneShrinks<K, V>(rows: Rows<K, V>, keep: string)
    ensures |Kept(rows, keep)| <= |rows|
  {
    SubsetSize(Kept(rows, keep).Keys, rows.Keys);
    assert |Kept(rows, keep).Keys| == |Kept(rows, keep)| && |rows.Keys| == |rows|;
  }

  lemma {:induction false} SubsetSize<T>(a: set<T>, b: set<T>)
    requires a <= b
    ensures |a| <= |b|
  {
    if a != {} {
      var x :| x in a;
      SubsetSize(a - {x}, b - {x});
    }
  }

  // ---------- runs ----------

  /** A cached call over the table: the rows it leaves, the answer, and whether the inner step ran. */
  function ServeRow<K(==), V>(rows: Rows<K, V>, slot: Slot<K>, inner: Option<V>): (Rows<K, V>, Option<V>, bool) {
    var key := RowKey(slot.version, slot.key);
    if key in rows then (rows, Some(rows[key]), false)
    else if inner.Some? then (rows[key := inner.value], inner, true)
    else (rows, None, true)
  }

  function RowsAfter<K(==), V>(rows: Rows<K, V>, uses: seq<Use<K, V>>): Rows<K, V> {
    if uses == [] then rows
    else
      match Last(uses)
      case Call(slot, inner) => ServeRow(RowsAfter(rows, Init(uses)), slot, inner).0
      case Prune(keep) => Kept(RowsAfter(rows, Init(uses)), keep)
  }

  ghost predicate OneKind<K, V>(uses: seq<Use<K, V>>, kind: string) {
    forall u :: u in uses && u.Call? ==> u.slot.kind == kind
  }

  lemma ServeRowRefines<K, V>(rows: Rows<K, V>, slot: Slot<K>, inner: Option<V>)
    ensures var (now, answer, called) := ServeRow(rows, slot, inner);
            Served(OfKind(now, slot.kind), answer, called) == Serve(OfKind(rows, slot.kind), slot, inner)
  {
    OfKindAt(rows, slot);
    if inner.Some? {
      PutIsPut(rows, slot, inner.value);
    }
  }

  /** Over every run of calls and prunes by steps of one kind, the table is the in-memory cache. */
  lemma {:induction false} TableRefinesCache<K, V>(rows: Rows<K, V>, uses: seq<Use<K, V>>, kind: string)
    requires OneKind(uses, kind)
    ensures OfKind(RowsAfter(rows, uses), kind) == AfterUses(OfKind(rows, kind), uses)
  {
    if uses != [] {
      Snoc(uses);
      TableRefinesCache(rows, Init(uses), kind);
      var was := RowsAfter(rows, Init(uses));
      match Last(uses) {
        case Call(slot, inner) => ServeRowRefines(was, slot, inner);
        case Prune(keep) => PruneIsPruned(was, keep, kind);
      }
    }
  }

  /** So each call of such a run gets the in-memory cache's answer, and runs the step exactly when it would. */
  lemma TableAnswersAsCache<K, V>(rows: Rows<K, V>, uses: seq<Use<K, V>>, kind: string, i: nat)
    requires OneKind(uses, kind) && i < |uses| && uses[i].Call?
    ensures var (now, answer, called) := ServeRow(RowsAfter(rows, uses[..i]), uses[i].slot, uses[i].inner);
            answer == AnswerAt(OfKind(rows, kind), uses, i).answer
            && called == AnswerAt(OfKind(rows, kind), uses, i).called
  {
    assert uses[i] in uses;
    assert forall u :: u in uses[..i] ==> u in uses;
    TableRefinesCache(rows, uses[..i], kind);
    ServeRowRefines(RowsAfter(rows, uses[..i]), uses[i].slot, uses[i].inner);
  }

  /** No two kinds are called with the same version and key. */
  ghost predicate KindsApart<K, V>(uses: seq<Use<K, V>>) {
    forall u, w :: u in uses && w in uses && u.Call? && w.Call? ==>
      (u.slot.version == w.slot.version && u.slot.key == w.slot.key ==> u.slot == w.slot)
  }

  /** The table and the in-memory cache hold the same for every slot of the run. */
  ghost predicate SameFor<K, V>(rows: Rows<K, V>, entries: map<Slot<K>, V>, uses: seq<Use<K, V>>) {
    forall u :: u in uses && u.Call? ==> Find(rows, RowKey(u.slot.version, u.slot.key)) == Find(entries, u.slot)
  }

  /** A run over several kinds keeps the table and the in-memory cache alike, as long as they stay apart. */
  lemma {:induction false} KindsApartRefine<K, V>(
    rows: Rows<K, V>, entries: map<Slot<K>, V>, uses: seq<Use<K, V>>, i: nat)
    requires KindsApart(uses) && SameFor(rows, entries, uses) && i <= |uses|
    ensures SameFor(RowsAfter(rows, uses[..i]), AfterUses(entries, uses[..i]), uses)
  {
    if i > 0 {
      PrefixStep(uses, i - 1);
      KindsApartRefine(rows, entries, uses, i - 1);
      assert uses[i - 1] in uses;
    }
  }

  /**
   * So when no two kinds are called with the same version and key, each call gets the in-memory cache's
   * answer, and runs the step exactly when it would.
   */
  lemma KindsApartAnswerAsCache<K, V>(rows: Rows<K, V>, entries: map<Slot<K>, V>, uses: seq<Use<K, V>>, i: nat)
    requires KindsApart(uses) && SameFor(rows, entries, uses) && i < |uses| && uses[i].Call?
    ensures var (now, answer, called) := ServeRow(RowsAfter(rows, uses[..i]), uses[i].slot, uses[i].inner);
            answer == AnswerAt(entries, uses, i).answer && called == AnswerAt(entries, uses, i).called
  {
    KindsApartRefine(rows, entries, uses, i);
    assert uses[i] in uses;
  }

  /**
   * Two kinds share rows: with an empty cache, the table's second call is answered by the other kind's
   * first, where the in-memory cache would run the step.
   */
  lemma KindsShareRows<K, V>(slot: Slot<K>, kind: string, first: V, second: Option<V>)
    requires kind != slot.kind
    ensures var rows := ServeRow(map[], slot, Some(first)).0;
            ServeRow(rows, slot.(kind := kind), second).1 == Some(first)
    ensures var entries := Serve(map[], slot, Some(first)).entries;
            Serve(entries, slot.(kind := kind), second).answer == second
  {
  }
}
