/**
 * The message log: the source of truth that replay re-derives from.
 *
 * A log value lists its messages in append order, one per id. `Appended` is what one `append`
 * does to that list; `InMemoryMessageStore` implements it with an id list and a map, and its two
 * derived reads are the loops a durable adapter may override.
 */
module Log {
  import opened Domain
  import opened Selection
  import opened Sequences
  import opened Wrappers

  predicate DistinctIds(log: seq<MessageEnvelope>) {
    forall i, j :: 0 <= i < j < |log| ==> log[i].id != log[j].id
  }

  type MessageLog = l: seq<MessageEnvelope> | DistinctIds(l)

  function Ids(log: seq<MessageEnvelope>): (ids: seq<MessageId>)
    ensures |ids| == |log|
    ensures forall i :: 0 <= i < |log| ==> ids[i] == log[i].id
  {
    seq(|log|, i requires 0 <= i < |log| => log[i].id)
  }

  /** Replace the message with this id where it stands, or add the message at the end. */
  function Appended(log: MessageLog, m: MessageEnvelope): (r: MessageLog)
    ensures m in r
    ensures forall x :: x in r <==> x == m || (x in log && x.id != m.id)
    ensures Ids(log) <= Ids(r) && |r| <= |log| + 1
    ensures forall i :: 0 <= i < |log| && log[i].id != m.id ==> r[i] == log[i]
  {
    if m.id in Ids(log) then
      var r := seq(|log|, i requires 0 <= i < |log| => if log[i].id == m.id then m else log[i]);
      assert m in r by {
        var i :| 0 <= i < |log| && Ids(log)[i] == m.id;
        assert r[i] == m;
      }
      assert forall x | x in log && x.id != m.id :: x in r by {
        forall x | x in log && x.id != m.id ensures x in r {
          var i :| 0 <= i < |log| && log[i] == x;
          assert r[i] == x;
        }
      }
      assert Ids(r) == Ids(log);
      r
    else
      assert forall i :: 0 <= i < |log| ==> Ids(log)[i] in Ids(log);
      log + [m]
  }

  function AppendedAll(log: MessageLog, ms: seq<MessageEnvelope>): MessageLog {
    if ms == [] then log else Appended(AppendedAll(log, Init(ms)), Last(ms))
  }

  function ConversationColumn(log: seq<MessageEnvelope>): (cs: seq<ConversationId>)
    ensures |cs| == |log|
    ensures forall i :: 0 <= i < |log| ==> cs[i] == log[i].conversation.id
  {
    seq(|log|, i requires 0 <= i < |log| => log[i].conversation.id)
  }

  /** The distinct conversations of the log, in first-seen order. */
  function ConversationIds(log: seq<MessageEnvelope>): seq<ConversationId> {
    FirstSeen(ConversationColumn(log))
  }

  function MessagesFor(log: seq<MessageEnvelope>, c: ConversationId): seq<MessageEnvelope> {
    if log == [] then []
    else
      MessagesFor(Init(log), c) + (if Last(log).conversation.id == c then [Last(log)] else [])
  }

  lemma ConversationIdsStep(log: seq<MessageEnvelope>)
    requires log != []
    ensures ConversationIds(log) ==
            var seen := ConversationIds(Init(log));
            if Last(log).conversation.id in seen then seen else seen + [Last(log).conversation.id]
  {
    assert Init(ConversationColumn(log)) == ConversationColumn(Init(log));
  }

  lemma ConversationIdsMembers(log: seq<MessageEnvelope>)
    ensures Distinct(ConversationIds(log))
    ensures forall c :: c in ConversationIds(log) <==> exists m :: m in log && m.conversation.id == c
  {
    var cs := ConversationColumn(log);
    FirstSeenMembers(cs);
    forall c ensures c in cs <==> exists m :: m in log && m.conversation.id == c {
      if c in cs {
        var i :| 0 <= i < |cs| && cs[i] == c;
        assert log[i] in log;
      }
      if m :| m in log && m.conversation.id == c {
        var i :| 0 <= i < |log| && log[i] == m;
        assert cs[i] == c;
      }
    }
  }

  lemma {:induction false} MessagesForMembers(log: seq<MessageEnvelope>, c: ConversationId)
    ensures forall m :: m in MessagesFor(log, c) <==> m in log && m.conversation.id == c
  {
    if log != [] {
      MessagesForMembers(Init(log), c);
      Snoc(log);
    }
  }

  lemma {:induction false} MessagesForDistinct(log: seq<MessageEnvelope>, c: ConversationId)
    requires DistinctIds(log)
    ensures DistinctIds(MessagesFor(log, c))
  {
    if log != [] {
      MessagesForDistinct(Init(log), c);
      MessagesForMembers(Init(log), c);
      var before := MessagesFor(Init(log), c);
      forall i | 0 <= i < |before| ensures before[i].id != Last(log).id {
        assert before[i] in Init(log);
        var j :| 0 <= j < |Init(log)| && Init(log)[j] == before[i];
        assert log[j].id != log[|log| - 1].id;
      }
    }
  }

  /** A conversation's messages are exactly those of the log, in its order. */
  lemma {:induction false} MessagesForSelects(log: seq<MessageEnvelope>, c: ConversationId)
    ensures Selects(log, MessagesFor(log, c), (m: MessageEnvelope) => if m.conversation.id == c then Some(m) else None)
  {
    if log != [] {
      MessagesForSelects(Init(log), c);
      SelectsNext(log, MessagesFor(Init(log), c),
                  (m: MessageEnvelope) => if m.conversation.id == c then Some(m) else None);
    }
  }

  /** The messages with one of these ids. */
  function Having(ms: seq<MessageEnvelope>, ids: set<MessageId>): seq<MessageEnvelope> {
    if ms == [] then []
    else Having(Init(ms), ids) + (if Last(ms).id in ids then [Last(ms)] else [])
  }

  lemma {:induction false} HavingAgrees(ms: seq<MessageEnvelope>, a: set<MessageId>, b: set<MessageId>)
    requires forall m :: m in ms ==> (m.id in a <==> m.id in b)
    ensures Having(ms, a) == Having(ms, b)
  {
    if ms != [] {
      Snoc(ms);
      HavingAgrees(Init(ms), a, b);
    }
  }

  lemma {:induction false} HavingAll(ms: seq<MessageEnvelope>, ids: set<MessageId>)
    ensures |Having(ms, ids)| <= |ms|
    ensures (forall m :: m in ms ==> m.id in ids) ==> Having(ms, ids) == ms
    ensures (exists m :: m in ms && m.id !in ids) ==> |Having(ms, ids)| < |ms|
  {
    if ms != [] {
      Snoc(ms);
      HavingAll(Init(ms), ids);
    }
  }

  lemma {:induction false} HavingMembers(ms: seq<MessageEnvelope>, ids: set<MessageId>, m: MessageEnvelope)
    ensures m in Having(ms, ids) <==> m in ms && m.id in ids
  {
    if ms != [] {
      Snoc(ms);
      HavingMembers(Init(ms), ids, m);
    }
  }

  lemma {:induction false} HavingSelects(ms: seq<MessageEnvelope>, ids: set<MessageId>)
    ensures Selects(ms, Having(ms, ids), (m: MessageEnvelope) => if m.id in ids then Some(m) else None)
  {
    if ms != [] {
      HavingSelects(Init(ms), ids);
      SelectsNext(ms, Having(Init(ms), ids), (m: MessageEnvelope) => if m.id in ids then Some(m) else None);
    }
  }

  // ---------- what a run of appends leaves ----------

  /** `m` is the last message under its id. */
  ghost predicate LatestIn(ms: seq<MessageEnvelope>, m: MessageEnvelope) {
    exists i :: 0 <= i < |ms| && ms[i] == m && forall j :: i < j < |ms| ==> ms[j].id != m.id
  }

  /** After any run of appends the log holds, of each id, the message appended last. */
  lemma {:induction false} AppendedAllLatest(log: MessageLog, ms: seq<MessageEnvelope>, m: MessageEnvelope)
    ensures m in AppendedAll(log, ms) <==> LatestIn(log + ms, m)
  {
    if ms == [] {
      assert log + ms == log;
      if m in log {
        var i :| 0 <= i < |log| && log[i] == m;
      }
    } else {
      hide Appended;
      AppendedAllLatest(log, Init(ms), m);
      assert log + ms == (log + Init(ms)) + [Last(ms)];
      LatestNext(log + Init(ms), Last(ms), m);
    }
  }

  lemma LatestNext(ms: seq<MessageEnvelope>, last: MessageEnvelope, m: MessageEnvelope)
    ensures LatestIn(ms + [last], m) <==> m == last || (LatestIn(ms, m) && m.id != last.id)
  {
    var more := ms + [last];
    if m == last {
      assert more[|ms|] == m;
    }
    if LatestIn(ms, m) && m.id != last.id {
      var i :| 0 <= i < |ms| && ms[i] == m && forall j :: i < j < |ms| ==> ms[j].id != m.id;
      assert more[i] == m && forall j :: i < j < |more| ==> more[j].id != m.id;
    }
    if LatestIn(more, m) && m != last {
      var i :| 0 <= i < |more| && more[i] == m && forall j :: i < j < |more| ==> more[j].id != m.id;
      assert i < |ms| && more[|ms|] == last;
      assert ms[i] == m && forall j :: i < j < |ms| ==> ms[j] == more[j];
    }
  }

  /** ... in the order in which the ids were first appended. */
  lemma {:induction false} AppendedAllOrder(log: MessageLog, ms: seq<MessageEnvelope>)
    ensures Ids(AppendedAll(log, ms)) == FirstSeen(Ids(log) + Ids(ms))
  {
    if ms == [] {
      assert Ids(log) + Ids(ms) == Ids(log);
      FirstSeenDistinct(Ids(log));
    } else {
      hide Appended, FirstSeen;
      AppendedAllOrder(log, Init(ms));
      var all := Ids(log) + Ids(ms);
      assert Ids(ms) == Ids(Init(ms)) + [Last(ms).id];
      assert Init(all) == Ids(log) + Ids(Init(ms)) && Last(all) == Last(ms).id;
      AppendedOrder(AppendedAll(log, Init(ms)), Last(ms));
      FirstSeenNext(all);
    }
  }

  lemma AppendedOrder(log: MessageLog, m: MessageEnvelope)
    ensures Ids(Appended(log, m)) == if m.id in Ids(log) then Ids(log) else Ids(log) + [m.id]
  {
    var now := Appended(log, m);
    if m.id in Ids(log) {
      assert |now| == |log| && forall i :: 0 <= i < |log| ==> now[i].id == log[i].id;
    }
  }

  /** The in-memory log: an ordered id list and a map. */
  class InMemoryMessageStore {
    var order: seq<MessageId>
    var byId: map<MessageId, MessageEnvelope>

    ghost predicate Valid()
      reads this
    {
      && Distinct(order)
      && (forall id :: id in order <==> id in byId)
      && (forall id :: id in byId ==> byId[id].id == id)
    }

    ghost function Contents(): (log: MessageLog)
      reads this
      requires Valid()
    {
      seq(|order|, i requires 0 <= i < |order| && order[i] in byId reads this => byId[order[i]])
    }

    constructor ()
      ensures Valid() && Contents() == []
    {
      order := [];
      byId := map[];
    }

    method Append(message: MessageEnvelope)
      requires Valid()
      modifies this
      ensures Valid()
      ensures Contents() == Appended(old(Contents()), message)
    {
      ghost var was := Contents();
      assert Ids(was) == order;
      if message.id !in byId {
        order := order + [message.id];
      }
      byId := byId[message.id := message];
      assert Contents() == Appended(was, message);
    }

    method Get(id: MessageId) returns (message: Option<MessageEnvelope>)
      requires Valid()
      ensures message.None? <==> id !in Ids(Contents())
      ensures message.Some? ==> message.value in Contents() && message.value.id == id
    {
      assert Ids(Contents()) == order;
      if id in byId {
        message := Some(byId[id]);
        assert exists i :: 0 <= i < |order| && order[i] == id && Contents()[i] == byId[id];
      } else {
        message := None;
      }
    }

    method All() returns (log: seq<MessageEnvelope>)
      requires Valid()
      ensures log == Contents()
    {
      log := [];
      for i := 0 to |order|
        invariant log == Contents()[..i]
      {
        log := log + [byId[order[i]]];
      }
    }

    method GetConversationIds() returns (seen: seq<ConversationId>)
      requires Valid()
      ensures seen == ConversationIds(Contents())
    {
      var log := All();
      seen := [];
      for i := 0 to |log|
        invariant seen == ConversationIds(log[..i])
      {
        PrefixStep(log, i);
        ConversationIdsStep(log[..i + 1]);
        if log[i].conversation.id !in seen {
          seen := seen + [log[i].conversation.id];
        }
      }
      WholePrefix(log);
    }

    method GetMessagesFor(c: ConversationId) returns (messages: seq<MessageEnvelope>)
      requires Valid()
      ensures messages == MessagesFor(Contents(), c)
    {
      var log := All();
      messages := [];
      for i := 0 to |log|
        invariant messages == MessagesFor(log[..i], c)
      {
        PrefixStep(log, i);
        if log[i].conversation.id == c {
          messages := messages + [log[i]];
        }
      }
      WholePrefix(log);
    }
  }
}
