/**
 * The SQLite message log: a table of rows with a unique id and a sequence number, each statement
 * atomic. It refines the in-memory log, whatever physical order the rows are in.
 */
module SqliteLog {
  import opened Domain
  import opened Log
  import opened Sequences
  import opened Sorting
  import opened Wrappers

  datatype LogRow = LogRow(seqno: int, message: MessageEnvelope)

  /** The rows in physical order; the primary key is the message's id. */
  type Table = seq<LogRow>

  // ---------- the statements ----------

  predicate BySeq(a: LogRow, b: LogRow) {
    a.seqno <= b.seqno
  }

  /** COALESCE(MAX(seq), 0). */
  function MaxSeq(t: Table): int {
    if t == [] then 0
    else if |t| == 1 then t[0].seqno
    else if MaxSeq(Init(t)) < Last(t).seqno then Last(t).seqno
    else MaxSeq(Init(t))
  }

  predicate HasId(t: Table, id: MessageId) {
    exists i :: 0 <= i < |t| && t[i].message.id == id
  }

  function WithPayload(r: LogRow, m: MessageEnvelope): LogRow {
    if r.message.id == m.id then r.(message := m) else r
  }

  function Rewritten(t: Table, m: MessageEnvelope): (r: Table)
    ensures |r| == |t|
    ensures forall i :: 0 <= i < |t| ==> r[i] == WithPayload(t[i], m)
  {
    if t == [] then [] else [WithPayload(t[0], m)] + Rewritten(t[1..], m)
  }

  /** INSERT ... ON CONFLICT(id) DO UPDATE SET payload: a new id gets the next number. */
  function Upserted(t: Table, m: MessageEnvelope): Table {
    if HasId(t, m.id) then Rewritten(t, m) else t + [LogRow(MaxSeq(t) + 1, m)]
  }

  function Payloads(t: Table): (r: seq<MessageEnvelope>)
    ensures |r| == |t|
    ensures forall i :: 0 <= i < |t| ==> r[i] == t[i].message
  {
    seq(|t|, i requires 0 <= i < |t| => t[i].message)
  }

  /** SELECT payload FROM messages ORDER BY seq. */
  function SelectAll(t: Table): seq<MessageEnvelope> {
    Payloads(Sort(BySeq, t))
  }

  function Where(t: Table, c: ConversationId): Table {
    if t == [] then []
    else Where(Init(t), c) + (if Last(t).message.conversation.id == c then [Last(t)] else [])
  }

  /** ... WHERE conversation.id = ?1 ORDER BY seq. */
  function SelectWhere(t: Table, c: ConversationId): seq<MessageEnvelope> {
    Payloads(Sort(BySeq, Where(t, c)))
  }

  /** MIN(seq) of a group. */
  function MinSeq(t: Table, c: ConversationId): int {
    if t == [] then 0
    else
      var rest := MinSeq(Init(t), c);
      var r := Last(t);
      if r.message.conversation.id != c then rest
      else if Where(Init(t), c) == [] || r.seqno < rest then r.seqno
      else rest
  }

  /** SELECT conversation.id ... GROUP BY cid ORDER BY MIN(seq). */
  function SelectConversations(t: Table): seq<ConversationId> {
    Sort((a, b) => MinSeq(t, a) <= MinSeq(t, b), ConversationIds(Payloads(t)))
  }

  // ---------- the invariant ----------

  /** Ids are unique, and the sequence numbers are exactly 1..n, once each. */
  ghost predicate WellNumbered(t: Table) {
    && (forall i, j :: 0 <= i < j < |t| ==> t[i].message.id != t[j].message.id)
    && (forall i, j :: 0 <= i < j < |t| ==> t[i].seqno != t[j].seqno)
    && (forall i :: 0 <= i < |t| ==> 1 <= t[i].seqno <= |t|)
  }

  /** The table in sequence order. */
  ghost function Ordered(t: Table): Table {
    Sort(BySeq, t)
  }

  lemma BySeqIsTotalPreorder()
    ensures TotalPreorder(BySeq)
  {
  }

  lemma RowsTieOnlyWithThemselves(t: Table)
    requires WellNumbered(t)
    ensures forall x, y :: x in t && y in t && BySeq(x, y) && BySeq(y, x) ==> x == y
  {
  }

  lemma OrderedPermutes(t: Table)
    requires WellNumbered(t)
    ensures multiset(Ordered(t)) == multiset(t) && |Ordered(t)| == |t|
    ensures Sorted(BySeq, Ordered(t))
    ensures forall r :: r in Ordered(t) <==> r in t
    ensures Distinct(Ordered(t))
  {
    BySeqIsTotalPreorder();
    SortSorts(BySeq, t);
    SortPermutes(BySeq, t);
    forall r ensures r in Ordered(t) <==> r in t {
      SortMembers(BySeq, t, r);
    }
    DistinctCounts(t);
    CountsDistinct(Ordered(t));
  }

  /** Strictly ascending numbers within 1..n leave no gap. */
  lemma {:induction false} AscendingFillsRange(s: seq<int>, i: nat)
    requires forall a, b :: 0 <= a < b < |s| ==> s[a] < s[b]
    requires forall a :: 0 <= a < |s| ==> 1 <= s[a] <= |s|
    requires i < |s|
    ensures s[i] == i + 1
  {
    AtLeast(s, i);
    AtMost(s, i);
  }

  lemma {:induction false} AtLeast(s: seq<int>, i: nat)
    requires forall a, b :: 0 <= a < b < |s| ==> s[a] < s[b]
    requires forall a :: 0 <= a < |s| ==> 1 <= s[a]
    requires i < |s|
    ensures s[i] >= i + 1
  {
    if i > 0 {
      AtLeast(s, i - 1);
      assert s[i - 1] < s[i];
    }
  }

  lemma {:induction false} AtMost(s: seq<int>, i: nat)
    requires forall a, b :: 0 <= a < b < |s| ==> s[a] < s[b]
    requires forall a :: 0 <= a < |s| ==> s[a] <= |s|
    requires i < |s|
    ensures s[i] <= i + 1
    decreases |s| - i
  {
    if i + 1 < |s| {
      AtMost(s, i + 1);
      assert s[i] < s[i + 1];
    }
  }

  /** In sequence order, the i-th row carries number i + 1. */
  lemma OrderedNumbers(t: Table)
    requires WellNumbered(t)
    ensures |Ordered(t)| == |t|
    ensures forall i :: 0 <= i < |t| ==> Ordered(t)[i].seqno == i + 1
  {
    OrderedPermutes(t);
    var o := Ordered(t);
    var s := seq(|o|, i requires 0 <= i < |o| => o[i].seqno);
    forall a, b | 0 <= a < b < |s| ensures s[a] < s[b] {
      assert o[a] in t && o[b] in t && o[a] != o[b];
      if s[a] == s[b] {
        RowsTieOnlyWithThemselves(t);
      }
      assert BySeq(o[a], o[b]);
    }
    forall a | 0 <= a < |s| ensures 1 <= s[a] <= |s| {
      assert o[a] in t;
    }
    forall i | 0 <= i < |t| ensures o[i].seqno == i + 1 {
      AscendingFillsRange(s, i);
    }
  }

  lemma OrderedIdsDistinct(t: Table)
    requires WellNumbered(t)
    ensures DistinctIds(SelectAll(t))
  {
    OrderedPermutes(t);
    var o := Ordered(t);
    forall i, j | 0 <= i < j < |o| ensures o[i].message.id != o[j].message.id {
      assert o[i] in t && o[j] in t && o[i] != o[j];
      var a :| 0 <= a < |t| && t[a] == o[i];
      var b :| 0 <= b < |t| && t[b] == o[j];
      assert a != b;
    }
  }

  // ---------- append refines append ----------

  lemma {:induction false} InsertRewritten(r: LogRow, t: Table, m: MessageEnvelope)
    ensures Insert(BySeq, WithPayload(r, m), Rewritten(t, m)) == Rewritten(Insert(BySeq, r, t), m)
  {
    if t != [] && !BySeq(r, t[0]) {
      InsertRewritten(r, t[1..], m);
    } else {
      assert ([r] + t)[1..] == t;
    }
  }

  /** Rewriting payloads does not move rows. */
  lemma {:induction false} SortRewritten(t: Table, m: MessageEnvelope)
    ensures Sort(BySeq, Rewritten(t, m)) == Rewritten(Sort(BySeq, t), m)
  {
    if t != [] {
      assert Rewritten(t, m)[1..] == Rewritten(t[1..], m);
      SortRewritten(t[1..], m);
      InsertRewritten(t[0], Sort(BySeq, t[1..]), m);
    }
  }

  lemma {:induction false} MaxSeqBounds(t: Table)
    ensures forall i :: 0 <= i < |t| ==> t[i].seqno <= MaxSeq(t)
    ensures t != [] ==> exists i :: 0 <= i < |t| && t[i].seqno == MaxSeq(t)
  {
    if |t| > 1 {
      MaxSeqBounds(Init(t));
      if MaxSeq(Init(t)) >= Last(t).seqno {
        var i :| 0 <= i < |Init(t)| && Init(t)[i].seqno == MaxSeq(Init(t));
        assert t[i].seqno == MaxSeq(t);
      } else {
        assert t[|t| - 1].seqno == MaxSeq(t);
      }
    } else if |t| == 1 {
      assert t[0].seqno == MaxSeq(t);
    }
  }

  /** The next number is one more than the number of rows. */
  lemma NextNumber(t: Table)
    requires WellNumbered(t)
    ensures MaxSeq(t) == |t|
  {
    MaxSeqBounds(t);
    OrderedNumbers(t);
    OrderedPermutes(t);
    if t != [] {
      var top := Ordered(t)[|t| - 1];
      assert top in t;
      var i :| 0 <= i < |t| && t[i] == top;
    }
  }

  lemma NumberedIsSorted(o: Table)
    requires forall i :: 0 <= i < |o| ==> o[i].seqno == i + 1
    ensures Sorted(BySeq, o)
    ensures forall x, y :: x in o && y in o && BySeq(x, y) && BySeq(y, x) ==> x == y
  {
    forall x, y | x in o && y in o && BySeq(x, y) && BySeq(y, x) ensures x == y {
      var i :| 0 <= i < |o| && o[i] == x;
      var j :| 0 <= j < |o| && o[j] == y;
      assert i == j;
    }
  }

  lemma SortAppendsLargest(t: Table, r: LogRow)
    requires WellNumbered(t) && r.seqno == |t| + 1
    ensures Sort(BySeq, t + [r]) == Sort(BySeq, t) + [r]
  {
    OrderedPermutes(t);
    OrderedNumbers(t);
    BySeqIsTotalPreorder();
    hide WellNumbered, Distinct;
    var o := Ordered(t) + [r];
    forall i | 0 <= i < |o| ensures o[i].seqno == i + 1 {
    }
    NumberedIsSorted(o);
    SortedIsFixed(BySeq, t + [r], o);
  }

  lemma HasIdIsInLog(t: Table, id: MessageId)
    requires WellNumbered(t)
    ensures HasId(t, id) <==> id in Ids(SelectAll(t))
  {
    OrderedPermutes(t);
    var o := Ordered(t);
    if i :| 0 <= i < |t| && t[i].message.id == id {
      assert t[i] in o;
      var j :| 0 <= j < |o| && o[j] == t[i];
      assert Ids(SelectAll(t))[j] == id;
    }
    if id in Ids(SelectAll(t)) {
      var j :| 0 <= j < |o| && Ids(SelectAll(t))[j] == id;
      assert o[j] in t;
      var i :| 0 <= i < |t| && t[i] == o[j];
    }
  }

  lemma RewriteKeepsNumbers(t: Table, u: Table)
    requires WellNumbered(t) && |u| == |t|
    requires forall i :: 0 <= i < |t| ==> u[i].seqno == t[i].seqno && u[i].message.id == t[i].message.id
    ensures WellNumbered(u)
  {
  }

  lemma NewRowKeepsNumbers(t: Table, m: MessageEnvelope)
    requires WellNumbered(t) && !HasId(t, m.id)
    ensures WellNumbered(t + [LogRow(|t| + 1, m)])
  {
  }

  lemma AppendKeepsNumbers(t: Table, m: MessageEnvelope)
    requires WellNumbered(t)
    ensures WellNumbered(Upserted(t, m))
  {
    NextNumber(t);
    hide MaxSeq, WellNumbered, HasId;
    if HasId(t, m.id) {
      RewriteKeepsNumbers(t, Rewritten(t, m));
    } else {
      NewRowKeepsNumbers(t, m);
    }
  }

  lemma RewriteReadsBack(t: Table, m: MessageEnvelope)
    requires DistinctIds(SelectAll(t)) && m.id in Ids(SelectAll(t))
    ensures Payloads(Sort(BySeq, Rewritten(t, m))) == Appended(SelectAll(t), m)
  {
    SortRewritten(t, m);
    var log: MessageLog := SelectAll(t);
    hide Sort, Rewritten, BySeq;
    assert Payloads(Rewritten(Sort(BySeq, t), m)) == Appended(log, m);
  }

  lemma NewRowReadsBack(t: Table, m: MessageEnvelope)
    requires WellNumbered(t) && DistinctIds(SelectAll(t)) && m.id !in Ids(SelectAll(t))
    ensures SelectAll(t + [LogRow(|t| + 1, m)]) == Appended(SelectAll(t), m)
  {
    SortAppendsLargest(t, LogRow(|t| + 1, m));
    hide WellNumbered, Sort, BySeq;
    assert Payloads(Sort(BySeq, t) + [LogRow(|t| + 1, m)]) == SelectAll(t) + [m];
  }

  lemma AppendReadsBack(t: Table, m: MessageEnvelope)
    requires WellNumbered(t) && DistinctIds(SelectAll(t))
    ensures SelectAll(Upserted(t, m)) == Appended(SelectAll(t), m)
  {
    HasIdIsInLog(t, m.id);
    NextNumber(t);
    hide WellNumbered, HasId, MaxSeq, Appended, Sort;
    if HasId(t, m.id) {
      RewriteReadsBack(t, m);
    } else {
      NewRowReadsBack(t, m);
    }
  }

  lemma AppendKeepsRowNumbers(t: Table, m: MessageEnvelope)
    ensures |t| <= |Upserted(t, m)|
    ensures forall i :: 0 <= i < |t| ==> Upserted(t, m)[i].seqno == t[i].seqno
  {
  }

  /**
   * One append statement is one append of the in-memory log, keeps the numbers 1..n, and a re-append
   * keeps its row's number.
   */
  lemma AppendRefines(t: Table, m: MessageEnvelope)
    requires WellNumbered(t)
    ensures WellNumbered(Upserted(t, m))
    ensures DistinctIds(SelectAll(t)) && SelectAll(Upserted(t, m)) == Appended(SelectAll(t), m)
    ensures |t| <= |Upserted(t, m)|
    ensures forall i :: 0 <= i < |t| ==> Upserted(t, m)[i].seqno == t[i].seqno
  {
    AppendKeepsNumbers(t, m);
    OrderedIdsDistinct(t);
    AppendKeepsRowNumbers(t, m);
    hide WellNumbered, Upserted, SelectAll;
    AppendReadsBack(t, m);
  }

  function UpsertedAll(t: Table, ms: seq<MessageEnvelope>): Table {
    if ms == [] then t else Upserted(UpsertedAll(t, Init(ms)), Last(ms))
  }

  /**
   * Over every interleaving of appends by any writers, the numbers are exactly 1..n and the log reads
   * back as the in-memory log after the same appends.
   */
  lemma {:induction false} AppendsRefine(t: Table, ms: seq<MessageEnvelope>)
    requires WellNumbered(t)
    ensures WellNumbered(UpsertedAll(t, ms))
    ensures DistinctIds(SelectAll(t)) && SelectAll(UpsertedAll(t, ms)) == AppendedAll(SelectAll(t), ms)
  {
    OrderedIdsDistinct(t);
    if ms != [] {
      AppendsRefine(t, Init(ms));
      AppendRefines(UpsertedAll(t, Init(ms)), Last(ms));
    }
  }

  // ---------- the overridden reads ----------

  lemma {:induction false} WhereCounts(t: Table, c: ConversationId, r: LogRow)
    ensures multiset(Where(t, c))[r] == if r.message.conversation.id == c then multiset(t)[r] else 0
  {
    if t != [] {
      Snoc(t);
      WhereCounts(Init(t), c, r);
    }
  }

  lemma {:induction false} WhereSorted(t: Table, c: ConversationId)
    requires Sorted(BySeq, t)
    ensures Sorted(BySeq, Where(t, c))
    ensures forall r :: r in Where(t, c) ==> r in t
  {
    if t != [] {
      Snoc(t);
      WhereSorted(Init(t), c);
      forall r | r in Where(Init(t), c) ensures BySeq(r, Last(t)) {
        var i :| 0 <= i < |Init(t)| && Init(t)[i] == r;
        assert t[i] == r;
      }
    }
  }

  lemma {:induction false} WherePayloads(t: Table, c: ConversationId)
    ensures Payloads(Where(t, c)) == MessagesFor(Payloads(t), c)
  {
    if t != [] {
      WherePayloads(Init(t), c);
      assert Init(Payloads(t)) == Payloads(Init(t)) && Last(Payloads(t)) == Last(t).message;
    }
  }

  /** Filtering in SQL reads what filtering the whole log reads. */
  lemma SelectWhereRefines(t: Table, c: ConversationId)
    requires WellNumbered(t)
    ensures SelectWhere(t, c) == MessagesFor(SelectAll(t), c)
  {
    var o := Ordered(t);
    OrderedPermutes(t);
    BySeqIsTotalPreorder();
    WhereSorted(o, c);
    forall r ensures multiset(Where(t, c))[r] == multiset(Where(o, c))[r] {
      WhereCounts(t, c, r);
      WhereCounts(o, c, r);
    }
    RowsTieOnlyWithThemselves(t);
    SortedIsFixed(BySeq, Where(t, c), Where(o, c));
    WherePayloads(o, c);
  }

  /** MIN(seq) is attained in the group and bounds it. */
  lemma {:induction false} MinSeqBounds(t: Table, c: ConversationId)
    ensures forall r :: r in t && r.message.conversation.id == c ==> MinSeq(t, c) <= r.seqno
    ensures Where(t, c) == [] <==> forall r :: r in t ==> r.message.conversation.id != c
    ensures Where(t, c) != [] ==>
      exists r :: r in t && r.message.conversation.id == c && r.seqno == MinSeq(t, c)
  {
    if t != [] {
      Snoc(t);
      MinSeqBounds(Init(t), c);
      assert Last(t) in t;
    }
  }

  /** Where in first-seen order a value first stands. */
  function FirstIndex<T(==)>(s: seq<T>, x: T): (i: nat)
    requires x in s
    ensures i < |s| && s[i] == x
    ensures forall j :: 0 <= j < i ==> s[j] != x
  {
    if s[0] == x then 0 else
      assert s == [s[0]] + s[1..];
      1 + FirstIndex(s[1..], x)
  }

  lemma FirstSeenElement<T>(s: seq<T>, i: nat)
    requires i < |FirstSeen(s)|
    ensures FirstSeen(s)[i] in s
  {
    FirstSeenMembers(s);
    assert FirstSeen(s)[i] in FirstSeen(s);
  }

  lemma {:induction false} FirstSeenInOrder<T>(s: seq<T>, i: nat, j: nat)
    requires i < j < |FirstSeen(s)|
    ensures FirstSeen(s)[i] in s && FirstSeen(s)[j] in s
    ensures FirstIndex(s, FirstSeen(s)[i]) < FirstIndex(s, FirstSeen(s)[j])
  {
    FirstSeenElement(s, i);
    FirstSeenElement(s, j);
    FirstSeenMembers(Init(s));
    Snoc(s);
    var seen := FirstSeen(Init(s));
    FirstSeenElement(Init(s), i);
    FirstIndexInit(s, seen[i]);
    if j < |seen| {
      FirstSeenElement(Init(s), j);
      FirstIndexInit(s, seen[j]);
      FirstSeenInOrder(Init(s), i, j);
    } else {
      assert FirstSeen(s)[j] == Last(s) && Last(s) !in Init(s);
      assert forall k :: 0 <= k < |s| - 1 ==> s[k] in Init(s);
    }
  }

  lemma FirstIndexInit<T>(s: seq<T>, x: T)
    requires s != [] && x in Init(s)
    ensures x in s && FirstIndex(s, x) == FirstIndex(Init(s), x)
  {
    var i := FirstIndex(Init(s), x);
    assert s[i] == x;
    var k := FirstIndex(s, x);
    assert k <= i;
    assert Init(s)[k] == s[k];
  }

  /** A conversation's smallest number is where it is first seen. */
  lemma MinSeqIsFirstSeen(t: Table, c: ConversationId)
    requires WellNumbered(t) && c in ConversationColumn(SelectAll(t))
    ensures MinSeq(t, c) == FirstIndex(ConversationColumn(SelectAll(t)), c) + 1
  {
    var o := Ordered(t);
    var column := ConversationColumn(SelectAll(t));
    OrderedPermutes(t);
    OrderedNumbers(t);
    MinSeqBounds(t, c);
    var first := FirstIndex(column, c);
    assert o[first] in t && o[first].message.conversation.id == c;
    var r :| r in t && r.message.conversation.id == c && r.seqno == MinSeq(t, c);
    var k :| 0 <= k < |o| && o[k] == r;
    assert column[k] == c;
  }

  /** Grouping in SQL and ordering by MIN(seq) lists the conversations in first-seen order. */
  lemma SelectConversationsRefines(t: Table)
    requires WellNumbered(t)
    ensures SelectConversations(t) == ConversationIds(SelectAll(t))
  {
    var log := SelectAll(t);
    var cs, wanted := ConversationIds(Payloads(t)), ConversationIds(log);
    var le := (a: ConversationId, b: ConversationId) => MinSeq(t, a) <= MinSeq(t, b);
    var column := ConversationColumn(log);
    FirstSeenMembers(column);
    forall i, j | 0 <= i < j < |wanted| ensures MinSeq(t, wanted[i]) < MinSeq(t, wanted[j]) {
      FirstSeenInOrder(column, i, j);
      MinSeqIsFirstSeen(t, wanted[i]);
      MinSeqIsFirstSeen(t, wanted[j]);
    }
    SameConversations(t);
    ConversationIdsMembers(Payloads(t));
    ConversationIdsMembers(log);
    SameMembersSameMultiset(cs, wanted);
    forall a, b | a in wanted && b in wanted && le(a, b) && le(b, a) ensures a == b {
      var i :| 0 <= i < |wanted| && wanted[i] == a;
      var j :| 0 <= j < |wanted| && wanted[j] == b;
      assert i == j;
    }
    SortedIsFixed(le, cs, wanted);
  }

  lemma SameConversations(t: Table)
    requires WellNumbered(t)
    ensures forall c :: c in ConversationIds(Payloads(t)) <==> c in ConversationIds(SelectAll(t))
  {
    OrderedPermutes(t);
    ConversationIdsMembers(Payloads(t));
    ConversationIdsMembers(SelectAll(t));
    forall m ensures m in Payloads(t) <==> m in SelectAll(t) {
      PayloadMembers(t, m);
      PayloadMembers(Ordered(t), m);
    }
  }

  lemma PayloadMembers(t: Table, m: MessageEnvelope)
    ensures m in Payloads(t) <==> exists r :: r in t && r.message == m
  {
    if m in Payloads(t) {
      var i :| 0 <= i < |t| && Payloads(t)[i] == m;
      assert t[i] in t;
    }
    if r :| r in t && r.message == m {
      var i :| 0 <= i < |t| && t[i] == r;
      assert Payloads(t)[i] == m;
    }
  }

  // ---------- the store ----------

  class SqliteMessageStore {
    var table: Table

    ghost predicate Valid()
      reads this
    {
      WellNumbered(table)
    }

    ghost function Contents(): (log: MessageLog)
      reads this
      requires Valid()
    {
      OrderedIdsDistinct(table);
      SelectAll(table)
    }

    constructor (table: Table)
      requires WellNumbered(table)
      ensures Valid() && this.table == table
    {
      this.table := table;
    }

    method Append(message: MessageEnvelope)
      requires Valid()
      modifies this
      ensures Valid()
      ensures Contents() == Appended(old(Contents()), message)
    {
      AppendRefines(table, message);
      table := Upserted(table, message);
    }

    method Get(id: MessageId) returns (message: Option<MessageEnvelope>)
      requires Valid()
      ensures message.None? <==> id !in Ids(Contents())
      ensures message.Some? ==> message.value in Contents() && message.value.id == id
    {
      HasIdIsInLog(table, id);
      OrderedPermutes(table);
      message := None;
      for i := 0 to |table|
        invariant message.None? ==> forall k :: 0 <= k < i ==> table[k].message.id != id
        invariant message.Some? ==>
                    message.value.id == id && exists k :: 0 <= k < i && table[k].message == message.value
      {
        if table[i].message.id == id {
          message := Some(table[i].message);
        }
      }
      if message.Some? {
        PayloadMembers(Ordered(table), message.value);
      }
    }

    method All() returns (log: seq<MessageEnvelope>)
      requires Valid()
      ensures log == Contents()
    {
      log := SelectAll(table);
    }

    method GetConversationIds() returns (ids: seq<ConversationId>)
      requires Valid()
      ensures ids == ConversationIds(Contents())
    {
      SelectConversationsRefines(table);
      ids := SelectConversations(table);
    }

    method GetMessagesFor(c: ConversationId) returns (messages: seq<MessageEnvelope>)
      requires Valid()
      ensures messages == MessagesFor(Contents(), c)
    {
      SelectWhereRefines(table, c);
      messages := SelectWhere(table, c);
    }
  }
}
