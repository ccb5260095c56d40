/**
 * Version-gated schema migration: each step commits together with its version bump, so an open that
 * dies between or inside steps leaves the last committed state for the next open.
 */
module Migration {
  import opened Sequences
  import opened Sorting
  import opened SqliteLog
  import opened Wrappers

  /** A database file: its single version counter, the message table if any, and the other tables. */
  datatype Db = Db(version: nat, messages: Option<Table>, tables: set<string>)

  datatype Step =
    | CreateMessages
    | RebuildMessages
    | CreateTable(name: string)

  const MESSAGE_STEPS := [CreateMessages, RebuildMessages]

  datatype Status = Done | Failed | Crashed

  function Numbered(arranged: Table): (t: Table)
    ensures |t| == |arranged|
    ensures forall i :: 0 <= i < |t| ==> t[i] == LogRow(i + 1, arranged[i].message)
  {
    seq(|arranged|, i requires 0 <= i < |arranged| => LogRow(i + 1, arranged[i].message))
  }

  /** The order ROW_NUMBER() may give the rows: ascending, ties in any order. */
  ghost predicate Arrangement(t: Table, arranged: Table) {
    multiset(arranged) == multiset(t) && Sorted(BySeq, arranged)
  }

  /** The effect of one step's statements; none when they fail, which rolls the step back. */
  function ApplyStep(db: Db, step: Step, arranged: Table): Option<Db> {
    match step
    case CreateMessages => Some(if db.messages.None? then db.(messages := Some([])) else db)
    case RebuildMessages => if db.messages.None? then None else Some(db.(messages := Some(Numbered(arranged))))
    case CreateTable(name) => Some(db.(tables := db.tables + {name}))
  }

  /** Run the steps from `i` on; the process dies once `commits` transactions have committed. */
  function MigrateFrom(db: Db, steps: seq<Step>, i: nat, commits: nat, arranged: Table): (Db, Status)
    requires i <= |steps|
    decreases |steps| - i
  {
    if i == |steps| then (db, Done)
    else if i < db.version then MigrateFrom(db, steps, i + 1, commits, arranged)
    else if commits == 0 then (db, Crashed)
    else
      match ApplyStep(db, steps[i], arranged)
      case None => (db, Failed)
      case Some(stepped) => MigrateFrom(stepped.(version := i + 1), steps, i + 1, commits - 1, arranged)
  }

  class Connection {
    var db: Db

    constructor (db: Db)
      ensures this.db == db
    {
      this.db := db;
    }

    method Migrate(steps: seq<Step>, commits: nat, arranged: Table) returns (status: Status)
      modifies this
      ensures (db, status) == MigrateFrom(old(db), steps, 0, commits, arranged)
    {
      var current := db.version;
      var left := commits;
      for i := 0 to |steps|
        invariant current <= i ==> db.version == current || db.version == i
        invariant i <= current ==> db.version == current
        invariant MigrateFrom(old(db), steps, 0, commits, arranged) == MigrateFrom(db, steps, i, left, arranged)
      {
        if i < current {
          continue;
        }
        if left == 0 {
          return Crashed;
        }
        match ApplyStep(db, steps[i], arranged) {
          case None => return Failed;
          case Some(stepped) => db := stepped.(version := i + 1);
        }
        left := left - 1;
      }
      status := Done;
    }
  }

  // ---------- renumbering ----------

  /** Wherever `u` holds the messages of `x` and `y`, the first stands before the second. */
  ghost predicate StaysBefore(u: Table, x: LogRow, y: LogRow) {
    forall p, q :: p in u && q in u && p.message.id == x.message.id && q.message.id == y.message.id ==>
      p.seqno < q.seqno
  }

  /** Two rows whose old numbers differed stand in the same order under the new numbers. */
  ghost predicate KeepsOrder(t: Table, u: Table) {
    forall x, y :: x in t && y in t && x.seqno < y.seqno ==> StaysBefore(u, x, y)
  }

  lemma PairKeepsOrder(t: Table, arranged: Table, x: LogRow, y: LogRow, p: LogRow, q: LogRow)
    requires Arrangement(t, arranged)
    requires forall i, j :: 0 <= i < j < |t| ==> t[i].message.id != t[j].message.id
    requires x in t && y in t && x.seqno < y.seqno && p in Numbered(arranged) && q in Numbered(arranged)
    requires p.message.id == x.message.id && q.message.id == y.message.id
    ensures p.seqno < q.seqno
  {
    RowPlace(t, arranged, x, p);
    RowPlace(t, arranged, y, q);
    var i, j := p.seqno - 1, q.seqno - 1;
    assert j < i ==> BySeq(arranged[j], arranged[i]);
  }

  lemma RebuildKeepsOrder(t: Table, arranged: Table)
    requires Arrangement(t, arranged)
    requires forall i, j :: 0 <= i < j < |t| ==> t[i].message.id != t[j].message.id
    ensures KeepsOrder(t, Numbered(arranged))
  {
    hide Arrangement, Numbered;
    var u := Numbered(arranged);
    forall x, y | x in t && y in t && x.seqno < y.seqno ensures StaysBefore(u, x, y) {
      forall p, q | p in u && q in u && p.message.id == x.message.id && q.message.id == y.message.id
        ensures p.seqno < q.seqno {
        PairKeepsOrder(t, arranged, x, y, p, q);
      }
    }
  }

  /** The rebuilt table numbers its rows 1..n and keeps every (id, payload) row and no other. */
  lemma RebuildRenumbers(t: Table, arranged: Table)
    requires Arrangement(t, arranged)
    requires forall i, j :: 0 <= i < j < |t| ==> t[i].message.id != t[j].message.id
    ensures WellNumbered(Numbered(arranged))
    ensures multiset(Payloads(Numbered(arranged))) == multiset(Payloads(t))
  {
    ArrangementIds(t, arranged);
    NumberedPayloads(arranged);
    PayloadsPermute(arranged, t);
    hide Payloads, Arrangement;
  }

  lemma NumberedPayloads(arranged: Table)
    ensures Payloads(Numbered(arranged)) == Payloads(arranged)
  {
  }

  lemma ArrangementIds(t: Table, arranged: Table)
    requires Arrangement(t, arranged)
    requires forall i, j :: 0 <= i < j < |t| ==> t[i].message.id != t[j].message.id
    ensures |arranged| == |t|
    ensures forall r :: r in arranged <==> r in t
    ensures forall i, j :: 0 <= i < j < |arranged| ==> arranged[i].message.id != arranged[j].message.id
  {
    assert |multiset(arranged)| == |multiset(t)|;
    assert forall r :: r in arranged <==> r in multiset(arranged);
    assert forall r :: r in t <==> r in multiset(t);
    DistinctCounts(t);
    CountsDistinct(arranged);
    forall i, j | 0 <= i < j < |arranged| ensures arranged[i].message.id != arranged[j].message.id {
      assert arranged[i] in t && arranged[j] in t && arranged[i] != arranged[j];
      var a :| 0 <= a < |t| && t[a] == arranged[i];
      var b :| 0 <= b < |t| && t[b] == arranged[j];
      assert a != b;
    }
  }

  /** A rebuilt row stands where its old row was arranged. */
  lemma RowPlace(t: Table, arranged: Table, x: LogRow, x': LogRow)
    requires Arrangement(t, arranged) && x in t && x' in Numbered(arranged)
    requires forall i, j :: 0 <= i < j < |t| ==> t[i].message.id != t[j].message.id
    requires x'.message.id == x.message.id
    ensures 1 <= x'.seqno <= |arranged| && arranged[x'.seqno - 1] == x
  {
    ArrangementIds(t, arranged);
    var i :| 0 <= i < |arranged| && Numbered(arranged)[i] == x';
    assert x in arranged;
    var j :| 0 <= j < |arranged| && arranged[j] == x;
    assert i == j;
  }

  lemma PayloadsConcat(s: Table, t: Table)
    ensures Payloads(s + t) == Payloads(s) + Payloads(t)
  {
  }

  lemma WithoutPayloads(t: Table, i: nat)
    requires i < |t|
    ensures multiset(Without(t, i)) == multiset(t) - multiset{t[i]}
    ensures multiset(Payloads(t)) == multiset(Payloads(Without(t, i))) + multiset{t[i].message}
  {
    var before, after := t[..i], t[i + 1..];
    assert t == (before + [t[i]]) + after;
    PayloadsConcat(before + [t[i]], after);
    PayloadsConcat(before, [t[i]]);
    PayloadsConcat(before, after);
    assert Payloads([t[i]]) == [t[i].message];
  }

  lemma {:induction false} PayloadsPermute(s: Table, t: Table)
    requires multiset(s) == multiset(t)
    ensures multiset(Payloads(s)) == multiset(Payloads(t))
  {
    hide Payloads;
    assert |multiset(s)| == |s| && |multiset(t)| == |t|;
    if s != [] {
      assert s[0] in multiset(t);
      var i :| 0 <= i < |t| && t[i] == s[0];
      WithoutPayloads(s, 0);
      WithoutPayloads(t, i);
      PayloadsPermute(Without(s, 0), Without(t, i));
    } else {
      assert t == [];
    }
  }

  // ---------- crashes and reopenings of the message log ----------

  /** One open of the message log: how many transactions commit before it dies, and its tie order. */
  datatype Open = Open(commits: nat, arranged: Table)

  function Opened(db: Db, o: Open): (Db, Status) {
    MigrateFrom(db, MESSAGE_STEPS, 0, o.commits, o.arranged)
  }

  function AfterOpens(db: Db, opens: seq<Open>): Db {
    if opens == [] then db else Opened(AfterOpens(db, Init(opens)), Last(opens)).0
  }

  /** The rows a rebuild would find. */
  function RowsOf(db: Db): Table {
    if db.messages.None? then [] else db.messages.value
  }

  /** Each open numbers the rows it finds in some ascending order. */
  ghost predicate ValidOpens(db: Db, opens: seq<Open>) {
    opens != [] ==>
      ValidOpens(db, Init(opens)) && Arrangement(RowsOf(AfterOpens(db, Init(opens))), Last(opens).arranged)
  }

  lemma OpenedIs(db: Db, o: Open)
    ensures db.version >= 2 ==> Opened(db, o) == (db, Done)
    ensures db.version == 1 && db.messages.Some? ==>
      Opened(db, o) == if o.commits == 0 then (db, Crashed)
                       else (Db(2, Some(Numbered(o.arranged)), db.tables), Done)
    ensures db.version == 1 && db.messages.None? && o.commits > 0 ==> Opened(db, o) == (db, Failed)
    ensures db.version == 0 ==>
      Opened(db, o) == if o.commits == 0 then (db, Crashed)
                       else if o.commits == 1 then (Db(1, Some(RowsOf(db)), db.tables), Crashed)
                       else (Db(2, Some(Numbered(o.arranged)), db.tables), Done)
  {
    var mid := Db(1, Some(RowsOf(db)), db.tables);
    assert MigrateFrom(db, MESSAGE_STEPS, 2, o.commits, o.arranged) == (db, Done);
    if db.version == 0 && o.commits > 0 {
      assert MigrateFrom(db, MESSAGE_STEPS, 0, o.commits, o.arranged)
          == MigrateFrom(mid, MESSAGE_STEPS, 1, o.commits - 1, o.arranged);
    }
  }

  /** The states a crashed migration can be left in. */
  ghost predicate Reached(start: Db, now: Db) {
    || now == start
    || now == Db(1, Some(RowsOf(start)), start.tables)
    || exists arranged :: Arrangement(RowsOf(start), arranged) && now == Db(2, Some(Numbered(arranged)), start.tables)
  }

  lemma {:induction false} OpensReach(start: Db, opens: seq<Open>)
    requires start.version == 0 && ValidOpens(start, opens)
    ensures Reached(start, AfterOpens(start, opens))
  {
    if opens != [] {
      OpensReach(start, Init(opens));
      OpenedIs(AfterOpens(start, Init(opens)), Last(opens));
    }
  }

  /**
   * Crash safety: from a fresh or legacy database, after any opens that died anywhere, an open that
   * survives leaves exactly what one uninterrupted open leaves, for some order of the tied rows.
   */
  lemma MigrationSurvivesCrashes(start: Db, opens: seq<Open>)
    requires start.version == 0 && ValidOpens(start, opens)
    requires opens != [] && Last(opens).commits >= 2
    ensures exists arranged ::
      Arrangement(RowsOf(start), arranged) && (AfterOpens(start, opens), Done) == Opened(start, Open(2, arranged))
    ensures AfterOpens(start, opens).version == 2
  {
    var before := AfterOpens(start, Init(opens));
    var last := Last(opens);
    OpensReach(start, Init(opens));
    OpenedIs(before, last);
    var arranged: Table;
    if before.version == 2 {
      arranged :| Arrangement(RowsOf(start), arranged) && before == Db(2, Some(Numbered(arranged)), start.tables);
    } else {
      arranged := last.arranged;
      assert Arrangement(RowsOf(start), arranged);
    }
    OpenedIs(start, Open(2, arranged));
    assert (AfterOpens(start, opens), Done) == Opened(start, Open(2, arranged));
  }

  /** No row is lost, and the surviving log is well numbered, whatever the legacy numbers were. */
  lemma MigrationKeepsRows(start: Db, opens: seq<Open>)
    requires start.version == 0 && ValidOpens(start, opens)
    requires opens != [] && Last(opens).commits >= 2
    requires forall i, j :: 0 <= i < j < |RowsOf(start)| ==> RowsOf(start)[i].message.id != RowsOf(start)[j].message.id
    ensures var now := AfterOpens(start, opens);
            && now.messages.Some?
            && WellNumbered(now.messages.value)
            && multiset(Payloads(now.messages.value)) == multiset(Payloads(RowsOf(start)))
            && KeepsOrder(RowsOf(start), now.messages.value)
            && now.tables == start.tables
  {
    hide KeepsOrder;
    MigrationSurvivesCrashes(start, opens);
    var arranged :| Arrangement(RowsOf(start), arranged)
                    && (AfterOpens(start, opens), Done) == Opened(start, Open(2, arranged));
    OpenedIs(start, Open(2, arranged));
    RebuildRenumbers(RowsOf(start), arranged);
    RebuildKeepsOrder(RowsOf(start), arranged);
  }

  /** Reopening a migrated database changes nothing. */
  lemma ReopenIsStable(db: Db, steps: seq<Step>, i: nat, commits: nat, arranged: Table)
    requires i <= |steps| <= db.version
    ensures MigrateFrom(db, steps, i, commits, arranged) == (db, Done)
    decreases |steps| - i
  {
  }

  // ---------- one counter per file, several stores on the file ----------

  /** A store with a single step gets its table exactly when the counter was still zero, or it had it. */
  lemma OneStepStoreTable(db: Db, name: string, arranged: Table)
    ensures var (now, status) := MigrateFrom(db, [CreateTable(name)], 0, 1, arranged);
            && status == Done
            && (name in now.tables <==> name in db.tables || db.version == 0)
  {
    var created := db.(tables := db.tables + {name}, version := 1);
    assert MigrateFrom(created, [CreateTable(name)], 1, 0, arranged) == (created, Done);
    assert MigrateFrom(db, [CreateTable(name)], 1, 1, arranged) == (db, Done);
  }

  /** The message log gets its table exactly when the counter was still zero, or it had it. */
  lemma MessageLogTable(db: Db, arranged: Table)
    ensures var (now, status) := Opened(db, Open(2, arranged));
            && (now.messages.Some? <==> db.messages.Some? || db.version == 0)
            && (status == Failed <==> db.version == 1 && db.messages.None?)
  {
    OpenedIs(db, Open(2, arranged));
  }

  // ---------- several stores on one file ----------

  /** An undisturbed open of the message log, or of a store with a single step. */
  datatype StoreOpen = OpensLog(arranged: Table) | OpensStore(name: string)

  function OpenedStore(db: Db, o: StoreOpen): Db {
    match o
    case OpensLog(arranged) => Opened(db, Open(2, arranged)).0
    case OpensStore(name) => MigrateFrom(db, [CreateTable(name)], 0, 1, []).0
  }

  function AfterStores(db: Db, opens: seq<StoreOpen>): Db {
    if opens == [] then db else OpenedStore(AfterStores(db, Init(opens)), Last(opens))
  }

  /** What one open adds: its own table, and only while the counter is zero. */
  lemma OpenedStoreIs(db: Db, o: StoreOpen)
    ensures var now := OpenedStore(db, o);
            && now.version >= 1
            && now.tables == db.tables + (if db.version == 0 && o.OpensStore? then {o.name} else {})
            && (now.messages.Some? <==> db.messages.Some? || (db.version == 0 && o.OpensLog?))
  {
    match o {
      case OpensLog(arranged) => OpenedIs(db, Open(2, arranged));
      case OpensStore(name) => OneStepIs(db, name);
    }
  }

  lemma OneStepIs(db: Db, name: string)
    ensures MigrateFrom(db, [CreateTable(name)], 0, 1, [])
         == (if db.version == 0 then Db(1, db.messages, db.tables + {name}) else db, Done)
  {
    if db.version == 0 {
      var now := Db(1, db.messages, db.tables + {name});
      assert MigrateFrom(now, [CreateTable(name)], 1, 0, []) == (now, Done);
    } else {
      ReopenIsStable(db, [CreateTable(name)], 0, 1, []);
    }
  }

  /**
   * Over any sequence of store opens on one file, only the first gets its table, and only if the file's
   * counter was zero; every other store has its table exactly when it was there before.
   */
  lemma {:induction false} OnlyFirstStoreGetsTable(db: Db, opens: seq<StoreOpen>)
    ensures var now, first := AfterStores(db, opens), db.version == 0 && opens != [];
            && now.tables == db.tables + (if first && opens[0].OpensStore? then {opens[0].name} else {})
            && (now.messages.Some? <==> db.messages.Some? || (first && opens[0].OpensLog?))
            && (opens != [] ==> now.version >= 1)
  {
    if opens != [] {
      hide OpenedStore;
      OnlyFirstStoreGetsTable(db, Init(opens));
      OpenedStoreIs(AfterStores(db, Init(opens)), Last(opens));
    }
  }

  const NEW_FILE := Db(0, None, {})

  /**
   * On one new file, opening the message log first skips the trace store's only step: the open reports
   * success, and the table is missing.
   */
  lemma TracesAfterLogHaveNoTable()
    ensures var log := Opened(NEW_FILE, Open(2, []));
            var (now, status) := MigrateFrom(log.0, [CreateTable("routing_traces")], 0, 1, []);
            log.1 == Done && status == Done && "routing_traces" !in now.tables
  {
    OpenedIs(NEW_FILE, Open(2, []));
    OneStepStoreTable(Opened(NEW_FILE, Open(2, [])).0, "routing_traces", []);
  }

  /** In the other order the message log fails to open at all. */
  lemma LogAfterTracesFails()
    ensures var traces := MigrateFrom(NEW_FILE, [CreateTable("routing_traces")], 0, 1, []);
            traces.1 == Done && Opened(traces.0, Open(2, [])).1 == Failed
  {
    var created := Db(1, None, {"routing_traces"});
    assert MigrateFrom(created, [CreateTable("routing_traces")], 1, 0, []) == (created, Done);
    OpenedIs(created, Open(2, []));
  }
}
