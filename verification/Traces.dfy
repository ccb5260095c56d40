/** The routing trace table with its most-recent-N cap, pruned on every write. */
module Traces {
  import opened Domain
  import opened Routing
  import opened Sequences
  import opened Wrappers

  datatype TraceRow = TraceRow(rowid: nat, trace: RoutingTrace)

  /** The table in rowid order. */
  type TraceTable = seq<TraceRow>

  // ---------- the statements ----------

  function IndexOf(t: TraceTable, id: MessageId): (r: Option<nat>)
    ensures r.Some? ==> r.value < |t| && t[r.value].trace.messageId == id
    ensures r.None? ==> forall i :: 0 <= i < |t| ==> t[i].trace.messageId != id
  {
    if t == [] then None
    else if Last(t).trace.messageId == id then Some(|t| - 1)
    else IndexOf(Init(t), id)
  }

  /** A new row gets one more than the largest rowid; an overwritten row keeps its own. */
  function Stored(t: TraceTable, trace: RoutingTrace): TraceTable {
    match IndexOf(t, trace.messageId)
    case Some(i) => t[i := t[i].(trace := trace)]
    case None => t + [TraceRow(if t == [] then 1 else Last(t).rowid + 1, trace)]
  }

  /** How many rows have a larger rowid. */
  function Newer(t: TraceTable, rowid: nat): nat {
    if t == [] then 0 else Newer(Init(t), rowid) + (if Last(t).rowid > rowid then 1 else 0)
  }

  /** Keep a row when it is among the `cap` largest rowids of `all`. */
  function KeepNewest(t: TraceTable, all: TraceTable, cap: nat): TraceTable {
    if t == [] then []
    else KeepNewest(Init(t), all, cap) + (if Newer(all, Last(t).rowid) < cap then [Last(t)] else [])
  }

  function Capped(t: TraceTable, cap: Option<nat>): TraceTable {
    if cap.None? then t else KeepNewest(t, t, cap.value)
  }

  function UpsertTraceRow(t: TraceTable, cap: Option<nat>, trace: RoutingTrace): TraceTable {
    Capped(Stored(t, trace), cap)
  }

  class SqliteRoutingTraceStore {
    var rows: TraceTable
    const maxTraces: Option<nat>

    constructor (rows: TraceTable, maxTraces: Option<nat>)
      ensures this.rows == rows && this.maxTraces == maxTraces
    {
      this.rows := rows;
      this.maxTraces := maxTraces;
    }

    method Upsert(trace: RoutingTrace)
      modifies this
      ensures rows == UpsertTraceRow(old(rows), maxTraces, trace)
    {
      rows := Stored(rows, trace);
      if maxTraces.Some? {
        rows := KeepNewest(rows, rows, maxTraces.value);
      }
    }

    method Get(id: MessageId) returns (trace: Option<RoutingTrace>)
      ensures trace.Some? <==> exists i :: 0 <= i < |rows| && rows[i].trace.messageId == id
      ensures trace.Some? ==> trace.value.messageId == id && Holds(rows, trace.value)
    {
      var at := IndexOf(rows, id);
      trace := if at.Some? then Some(rows[at.value].trace) else None;
    }
  }

  // ---------- the invariant ----------

  /** Rowids ascend and ids are unique. */
  ghost predicate WellFormed(t: TraceTable) {
    && (forall i, j :: 0 <= i < j < |t| ==> t[i].rowid < t[j].rowid)
    && (forall i, j :: 0 <= i < j < |t| ==> t[i].trace.messageId != t[j].trace.messageId)
  }

  lemma StoredKeepsForm(t: TraceTable, trace: RoutingTrace)
    requires WellFormed(t)
    ensures WellFormed(Stored(t, trace))
  {
    hide IndexOf;
    match IndexOf(t, trace.messageId) {
      case Some(i) =>
        forall k | 0 <= k < |t| && k != i ensures t[k].trace.messageId != trace.messageId {
          assert t[k].trace.messageId != t[i].trace.messageId;
        }
      case None =>
    }
  }

  lemma {:induction false} NewerCounts(t: TraceTable, i: nat, n: nat)
    requires WellFormed(t) && i < |t| && n <= |t|
    ensures Newer(t[..n], t[i].rowid) == if n <= i then 0 else n - 1 - i
  {
    if n > 0 {
      PrefixStep(t, n - 1);
      NewerCounts(t, i, n - 1);
      assert t[n - 1].rowid > t[i].rowid <==> n - 1 > i;
    }
  }

  /** The last `n` rows, or all of them. */
  function Newest<T>(t: seq<T>, n: nat): seq<T> {
    if |t| <= n then t else t[|t| - n..]
  }

  lemma SliceStep<T>(s: seq<T>, from: nat, i: nat)
    requires from <= i < |s|
    ensures s[from..i + 1] == s[from..i] + [s[i]]
  {
  }

  /** How many rows are too old for the cap. */
  function Excess(t: TraceTable, cap: nat): nat {
    if |t| <= cap then 0 else |t| - cap
  }

  lemma RowIsKept(t: TraceTable, cap: nat, i: nat)
    requires WellFormed(t) && i < |t|
    ensures Newer(t, t[i].rowid) < cap <==> Excess(t, cap) <= i
  {
    NewerCounts(t, i, |t|);
    WholePrefix(t);
  }

  lemma {:induction false} KeepNewestIs(t: TraceTable, cap: nat, n: nat)
    requires WellFormed(t) && n <= |t|
    ensures KeepNewest(t[..n], t, cap) == if n <= Excess(t, cap) then [] else t[Excess(t, cap)..n]
  {
    if n > 0 {
      KeepNewestIs(t, cap, n - 1);
      RowIsKept(t, cap, n - 1);
      PrefixStep(t, n - 1);
      hide WellFormed, Newer, Excess;
      if Excess(t, cap) < n {
        SliceStep(t, Excess(t, cap), n - 1);
      }
    }
  }

  /** The delete statement keeps exactly the newest rows. */
  lemma CapKeepsNewest(t: TraceTable, cap: nat)
    requires WellFormed(t)
    ensures Capped(t, Some(cap)) == Newest(t, cap)
    ensures WellFormed(Capped(t, Some(cap)))
  {
    KeepNewestIs(t, cap, |t|);
    WholePrefix(t);
  }

  // ---------- single writes ----------

  ghost predicate Holds(t: TraceTable, trace: RoutingTrace) {
    exists i :: 0 <= i < |t| && t[i].trace == trace
  }

  /** The just-written row stands last when it is new and in its old place when it is not. */
  function PlaceOf(t: TraceTable, id: MessageId): nat {
    match IndexOf(t, id)
    case Some(i) => i
    case None => |t|
  }

  /**
   * The just-written trace survives the prune exactly when fewer than `cap` rows are newer than it:
   * always for a new id with a positive cap, but an overwritten id keeps its age.
   */
  lemma WrittenTraceSurvives(t: TraceTable, cap: nat, trace: RoutingTrace)
    requires WellFormed(t)
    ensures Holds(UpsertTraceRow(t, Some(cap), trace), trace) <==>
            |Stored(t, trace)| - 1 - PlaceOf(t, trace.messageId) < cap
  {
    hide Stored, PlaceOf, Capped, Newest;
    StoredKeepsForm(t, trace);
    WrittenPlace(t, trace);
    CapKeepsNewest(Stored(t, trace), cap);
    SuffixHolds(Stored(t, trace), cap, trace, PlaceOf(t, trace.messageId));
  }

  lemma WrittenPlace(t: TraceTable, trace: RoutingTrace)
    ensures var s, at := Stored(t, trace), PlaceOf(t, trace.messageId); at < |s| && s[at].trace == trace
  {
    hide IndexOf;
  }

  lemma SuffixHolds(s: TraceTable, cap: nat, trace: RoutingTrace, at: nat)
    requires WellFormed(s) && at < |s| && s[at].trace == trace
    ensures Holds(Newest(s, cap), trace) <==> |s| - 1 - at < cap
  {
    var kept := Newest(s, cap);
    var skip := |s| - |kept|;
    assert forall i :: 0 <= i < |kept| ==> kept[i] == s[skip + i];
    if i :| 0 <= i < |kept| && kept[i].trace == trace {
      assert s[skip + i].trace.messageId == s[at].trace.messageId;
    }
    if at >= skip {
      assert kept[at - skip].trace == trace;
    }
  }

  /** So with at most `cap` rows to begin with and a positive cap it always survives. */
  lemma WrittenTraceIsKept(t: TraceTable, cap: nat, trace: RoutingTrace)
    requires WellFormed(t) && |t| <= cap && cap >= 1
    ensures Holds(UpsertTraceRow(t, Some(cap), trace), trace)
  {
    hide Holds, UpsertTraceRow, IndexOf;
    WrittenTraceSurvives(t, cap, trace);
  }

  /** With more rows than the cap, as after running uncapped, overwriting an old id loses the write. */
  lemma OverwriteCanBeLost(a: RoutingTrace, b: RoutingTrace)
    requires a.messageId != b.messageId
    ensures var t := [TraceRow(1, a), TraceRow(2, b)];
            WellFormed(t) && !Holds(UpsertTraceRow(t, Some(1), a), a)
  {
    var t := [TraceRow(1, a), TraceRow(2, b)];
    assert Init(t) == [TraceRow(1, a)] && Last(t) == TraceRow(2, b);
    assert IndexOf(Init(t), a.messageId) == Some(0);
    WrittenTraceSurvives(t, 1, a);
  }

  // ---------- whole runs ----------

  function TraceIds(t: TraceTable): (ids: seq<MessageId>)
    ensures |ids| == |t|
    ensures forall i :: 0 <= i < |t| ==> ids[i] == t[i].trace.messageId
  {
    seq(|t|, i requires 0 <= i < |t| => t[i].trace.messageId)
  }

  /** The reference: the most recently inserted ids; writing a present id does not refresh its age. */
  function RecentIds(recent: seq<MessageId>, cap: nat, id: MessageId): seq<MessageId> {
    if id in recent then recent else Newest(recent + [id], cap)
  }

  function RecentAfter(cap: nat, written: seq<RoutingTrace>): seq<MessageId> {
    if written == [] then [] else RecentIds(RecentAfter(cap, Init(written)), cap, Last(written).messageId)
  }

  function TableAfter(cap: nat, written: seq<RoutingTrace>): TraceTable {
    if written == [] then [] else UpsertTraceRow(TableAfter(cap, Init(written)), Some(cap), Last(written))
  }

  lemma StoredIds(t: TraceTable, trace: RoutingTrace)
    ensures TraceIds(Stored(t, trace)) ==
            if trace.messageId in TraceIds(t) then TraceIds(t) else TraceIds(t) + [trace.messageId]
  {
    hide IndexOf;
    var at := IndexOf(t, trace.messageId);
    if at.Some? {
      assert TraceIds(t)[at.value] == trace.messageId;
    }
  }

  lemma NewestIds(t: TraceTable, cap: nat)
    ensures TraceIds(Newest(t, cap)) == Newest(TraceIds(t), cap)
  {
  }

  lemma CapStep(t: TraceTable, cap: nat, trace: RoutingTrace)
    requires WellFormed(t) && |t| <= cap
    ensures var now := UpsertTraceRow(t, Some(cap), trace);
            && WellFormed(now)
            && |now| <= cap
            && TraceIds(now) == RecentIds(TraceIds(t), cap, trace.messageId)
            && (cap >= 1 ==> Holds(now, trace))
  {
    hide Stored, Capped, Holds, TraceIds;
    StoredKeepsForm(t, trace);
    CapKeepsNewest(Stored(t, trace), cap);
    StoredIds(t, trace);
    NewestIds(Stored(t, trace), cap);
    if cap >= 1 {
      WrittenTraceIsKept(t, cap, trace);
    }
  }

  /**
   * From empty, under any run of writes, the table holds exactly the `cap` most recently inserted ids,
   * in insertion order, never more than `cap` rows, and, with a positive cap, the trace just written.
   */
  lemma {:induction false} CapHoldsOverRuns(cap: nat, written: seq<RoutingTrace>)
    ensures WellFormed(TableAfter(cap, written))
    ensures |TableAfter(cap, written)| <= cap
    ensures TraceIds(TableAfter(cap, written)) == RecentAfter(cap, written)
    ensures written != [] && cap >= 1 ==> Holds(TableAfter(cap, written), Last(written))
  {
    hide UpsertTraceRow, Holds, WellFormed, RecentIds;
    if written != [] {
      CapHoldsOverRuns(cap, Init(written));
      CapStep(TableAfter(cap, Init(written)), cap, Last(written));
    } else {
      NoRows();
    }
  }

  /** `trace` is the last one written under its id. */
  ghost predicate LastWritten(written: seq<RoutingTrace>, trace: RoutingTrace) {
    exists i :: 0 <= i < |written| && written[i] == trace
                && forall j :: i < j < |written| ==> written[j].messageId != trace.messageId
  }

  lemma LastWrittenNext(written: seq<RoutingTrace>, trace: RoutingTrace)
    requires written != []
    requires trace == Last(written)
             || (trace.messageId != Last(written).messageId && LastWritten(Init(written), trace))
    ensures LastWritten(written, trace)
  {
    if trace == Last(written) {
      assert written[|written| - 1] == trace;
    } else {
      var before := Init(written);
      var i :| 0 <= i < |before| && before[i] == trace
               && forall j :: i < j < |before| ==> before[j].messageId != trace.messageId;
      assert written[i] == trace && forall j :: i < j < |written| - 1 ==> written[j] == before[j];
    }
  }

  /** Storing a trace replaces the one under its id and leaves every other as it is. */
  lemma StoredHolds(t: TraceTable, trace: RoutingTrace, x: RoutingTrace)
    requires WellFormed(t)
    ensures Holds(Stored(t, trace), x) <==> x == trace || (Holds(t, x) && x.messageId != trace.messageId)
  {
    hide IndexOf;
    var now := Stored(t, trace);
    var at := PlaceOf(t, trace.messageId);
    WrittenPlace(t, trace);
    if Holds(now, x) && x != trace {
      var i :| 0 <= i < |now| && now[i].trace == x;
      assert i != at && t[i].trace == x;
    }
    if Holds(t, x) && x.messageId != trace.messageId {
      var i :| 0 <= i < |t| && t[i].trace == x;
      assert now[i].trace == x;
    }
  }

  /** Without a cap a write replaces the trace under its id and keeps every other. */
  lemma UncappedKeepsAll(t: TraceTable, trace: RoutingTrace, x: RoutingTrace)
    requires WellFormed(t)
    ensures Holds(UpsertTraceRow(t, None, trace), x) <==>
            x == trace || (Holds(t, x) && x.messageId != trace.messageId)
  {
    hide Stored, Holds;
    StoredHolds(t, trace, x);
  }

  /** Whatever is retained is, of its id, the trace written last. */
  lemma {:induction false} RetainedIsLastWritten(cap: nat, written: seq<RoutingTrace>, x: RoutingTrace)
    requires Holds(TableAfter(cap, written), x)
    ensures LastWritten(written, x)
  {
    hide Stored, LastWritten;
    if written != [] {
      var before, stored := TableAfter(cap, Init(written)), Stored(TableAfter(cap, Init(written)), Last(written));
      CapHoldsOverRuns(cap, Init(written));
      StoredKeepsForm(before, Last(written));
      CapKeepsNewest(stored, cap);
      NewestHolds(stored, cap, x);
      StoredHolds(before, Last(written), x);
      if x != Last(written) {
        RetainedIsLastWritten(cap, Init(written), x);
      }
      LastWrittenNext(written, x);
    }
  }

  lemma NewestHolds(t: TraceTable, cap: nat, x: RoutingTrace)
    requires Holds(Newest(t, cap), x)
    ensures Holds(t, x)
  {
    var kept := Newest(t, cap);
    var i :| 0 <= i < |kept| && kept[i].trace == x;
    assert t[|t| - |kept| + i].trace == x;
  }

  lemma NoRows()
    ensures WellFormed([]) && TraceIds([]) == []
  {
  }
}
