/**
 * Where the cache is narrower than its prose: a row's key covers one conversation's ids and bodies, so a
 * hit can carry hints and developers that a fresh replay would no longer derive.
 */
module Staleness {
  import opened Coherence
  import opened Confluence
  import opened DeveloperFreshness
  import opened DerivedOutput
  import opened Domain
  import opened EndToEnd
  import opened HintFreshness
  import opened Log
  import opened Pipeline
  import opened Sequences
  import opened Wrappers

  // ---------- every log has a run ----------

  /** Each payload delivered once, in order. */
  function Once(ps: seq<Payload>): (r: seq<Attempt>)
    ensures |r| == |ps| && forall i :: 0 <= i < |ps| ==> r[i] == Attempt(ps[i], None)
  {
    seq(|ps|, i requires 0 <= i < |ps| => Attempt(ps[i], None))
  }

  function PlainRun(log: seq<MessageEnvelope>): Run {
    [Once(StagePayloads(log, 0)), Once(StagePayloads(log, 1)), Once(StagePayloads(log, 2)),
     Once(StagePayloads(log, 3)), Once(StagePayloads(log, 4)), Once(StagePayloads(log, 5))]
  }

  lemma OnceMembers(ps: seq<Payload>, a: Attempt)
    ensures a in Once(ps) <==> a.budget.None? && a.payload in ps
  {
    if a.budget.None? && a.payload in ps {
      var i :| 0 <= i < |ps| && ps[i] == a.payload;
      assert Once(ps)[i] == a;
    }
  }

  /** The undisturbed run is a full run: replays are possible on every log. */
  lemma PlainRunIsFull(log: MessageLog)
    ensures FullRun(log, PlainRun(log))
  {
    hide StagePayloads, Once;
    var run := PlainRun(log);
    forall k, a: Attempt | 0 <= k < 6 && a in run[k] ensures a.payload in StagePayloads(log, k) {
      OnceMembers(StagePayloads(log, k), a);
    }
    forall k, p | 1 <= k < 6 && p in StagePayloads(log, k) ensures Completes(run[k], p) {
      OnceMembers(StagePayloads(log, k), Attempt(p, None));
    }
    forall m | m in log ensures m.id in Projected(run) {
      MessagePayloadOf(log, m);
      OnceMembers(StagePayloads(log, 0), Attempt(ProcessMessage(m), None));
      assert Attempt(ProcessMessage(m), None) in run[0];
    }
  }

  lemma MessagePayloadOf(log: seq<MessageEnvelope>, m: MessageEnvelope)
    requires m in log
    ensures ProcessMessage(m) in StagePayloads(log, 0)
  {
    var i :| 0 <= i < |log| && log[i] == m;
    assert MessagePayloads(log)[i] == ProcessMessage(m);
  }

  // ---------- a hit with stale hints ----------

  /** Every message is an issue about "auth", fully confident. */
  const AUTH_PORTS := Ports(
    (id, body) => Projection(id, Issue, ["auth"], [], 1.0),
    (c, ps) => Scope(c, [], [], "", 0.0),
    (c, s, ps) => WarmupDocument(c, [], [], [], [], ""))

  const FIRST := MessageEnvelope("m-1", Manual, Author("a", "a"), Conversation("c-1", None), "x")
  const SECOND := MessageEnvelope("m-2", Manual, Author("b", "b"), Conversation("c-2", None), "x")

  lemma FirstAppends()
    ensures Appended([], FIRST) == [FIRST]
    ensures Appended([FIRST], SECOND) == [FIRST, SECOND]
  {
    var none: MessageLog := [];
    assert FIRST.id !in Ids(none);
    var one: MessageLog := [FIRST];
    assert Ids(one) == ["m-1"];
    assert SECOND.id !in Ids(one);
  }

  lemma FirstLogs()
    ensures Appended([], FIRST) == [FIRST]
    ensures Appended([FIRST], SECOND) == [FIRST, SECOND]
    ensures MessagesFor([FIRST], "c-1") == [FIRST]
    ensures MessagesFor([FIRST, SECOND], "c-1") == [FIRST]
    ensures "c-1" in ConversationIds([FIRST]) && "c-1" in ConversationIds([FIRST, SECOND])
  {
    FirstAppends();
    hide Appended, ConversationIds;
    assert Init([FIRST]) == [] && Last([FIRST]) == FIRST;
    assert Init([FIRST, SECOND]) == [FIRST] && Last([FIRST, SECOND]) == SECOND;
    SessionNonEmpty([FIRST], "c-1");
    SessionNonEmpty([FIRST, SECOND], "c-1");
  }

  /** Who the derived hint of "m-1" lists, in any log where it is alone in "c-1". */
  lemma FirstHintLists(log: MessageLog, a: AuthorId)
    requires FIRST in log && MessagesFor(log, "c-1") == [FIRST]
    ensures Fresh(AUTH_PORTS, log, "c-1").Some?
    ensures |Fresh(AUTH_PORTS, log, "c-1").value.hints| == 1
    ensures ListsReviewer(Fresh(AUTH_PORTS, log, "c-1").value.hints[0].reviewers, a)
            <==> WroteOnTopicOf(AUTH_PORTS, log, Set(Ids(log)), a, FIRST)
  {
    hide Derived, MessagesFor, ConversationIds, WroteOnTopicOf, ListsReviewer, AUTH_PORTS, Hint.HintOf,
         LogContributions;
    var all := Set(Ids(log));
    SessionNonEmpty(log, "c-1");
    InLog(log, "c-1", FIRST);
    HavingAll([FIRST], all);
    DerivedHints(AUTH_PORTS, log, all, "c-1");
    DerivedHint(AUTH_PORTS, log, all, FIRST);
    ReviewersEndToEnd(AUTH_PORTS, log, all, FIRST);
    assert HintsFor(AUTH_PORTS, LogContributions(AUTH_PORTS, log, all), [FIRST])[0]
        == Derived(AUTH_PORTS, log, all).hints[FIRST.id];
  }

  /** A reviewer gained by a later log shows up in the hint. */
  lemma HintsDiffer(was: MessageLog, now: MessageLog, a: AuthorId)
    requires FIRST in was && MessagesFor(was, "c-1") == [FIRST]
    requires FIRST in now && MessagesFor(now, "c-1") == [FIRST]
    requires !WroteOnTopicOf(AUTH_PORTS, was, Set(Ids(was)), a, FIRST)
    requires WroteOnTopicOf(AUTH_PORTS, now, Set(Ids(now)), a, FIRST)
    ensures Fresh(AUTH_PORTS, was, "c-1").Some? && Fresh(AUTH_PORTS, now, "c-1").Some?
    ensures Fresh(AUTH_PORTS, was, "c-1").value.hints != Fresh(AUTH_PORTS, now, "c-1").value.hints
  {
    hide Fresh, MessagesFor, ConversationIds, WroteOnTopicOf, ListsReviewer;
    FirstHintLists(was, a);
    FirstHintLists(now, a);
  }

  lemma SecondWrites()
    ensures !WroteOnTopicOf(AUTH_PORTS, [FIRST], Set(Ids([FIRST])), "b", FIRST)
    ensures WroteOnTopicOf(AUTH_PORTS, [FIRST, SECOND], Set(Ids([FIRST, SECOND])), "b", FIRST)
  {
    assert SECOND in [FIRST, SECOND] && Ids([FIRST, SECOND])[1] == SECOND.id;
    assert "auth" in Project(AUTH_PORTS, SECOND).topics;
    assert Wrote(AUTH_PORTS, [FIRST, SECOND], Set(Ids([FIRST, SECOND])), "b", "auth");
    assert "auth" in Project(AUTH_PORTS, FIRST).topics;
  }

  /** Append, replay, append again. */
  function AppendAfterReplay(version: string, next: MessageEnvelope): seq<Event> {
    [Ingested(FIRST), Replays(Job(version, AUTH_PORTS, PlainRun([FIRST]), {})), Ingested(next)]
  }

  /** As long as the text of "c-1" stays, its row is still hit, and says what it said before. */
  lemma RowIsStillHit(version: string, next: MessageEnvelope, log: MessageLog)
    requires log == Appended([FIRST], next)
    requires SameText([FIRST], MessagesFor(log, "c-1"))
    ensures var events := AppendAfterReplay(version, next);
            var w := After(NEW_WORLD, events);
            var k := KeyFor(version, log, "c-1");
            && ValidHistory(NEW_WORLD, events)
            && w.log == log && k in w.rows && Some(w.rows[k]) == Fresh(AUTH_PORTS, [FIRST], "c-1")
  {
    hide Fresh, Projected, PlainRun, Populated, RunStages, MessagesFor, Content, ConversationIds, Appended, SameText;
    var events := AppendAfterReplay(version, next);
    var job := Job(version, AUTH_PORTS, PlainRun([FIRST]), {});
    assert Init(events) == [Ingested(FIRST), Replays(job)];
    assert Init(Init(events)) == [Ingested(FIRST)];
    assert Init([Ingested(FIRST)]) == [];
    FirstLogs();
    PlainRunIsFull([FIRST]);
    assert ValidHistory(NEW_WORLD, [Ingested(FIRST)]);
    var first := World([FIRST], map[]);
    assert After(NEW_WORLD, []) == NEW_WORLD;
    assert After(NEW_WORLD, [Ingested(FIRST)]) == first;
    assert After(NEW_WORLD, Init(events)) == Repopulated(first, job);
    assert ValidHistory(NEW_WORLD, Init(events));
    ReplayMakesExact(first, job);
    var w := After(NEW_WORLD, events);
    assert w.rows == Repopulated(first, job).rows;
    ContentDecides([FIRST], MessagesFor(log, "c-1"));
    assert KeyFor(version, log, "c-1") == KeyFor(version, [FIRST], "c-1");
  }

  /** An append elsewhere leaves the row of "c-1" hit, with hints that have gone stale. */
  lemma HintsCanGoStale(version: string)
    ensures ValidHistory(NEW_WORLD, AppendAfterReplay(version, SECOND))
    ensures var w := After(NEW_WORLD, AppendAfterReplay(version, SECOND));
            var k := KeyFor(version, w.log, "c-1");
            && k in w.rows
            && Fresh(AUTH_PORTS, w.log, "c-1").Some?
            && w.rows[k].hints != Fresh(AUTH_PORTS, w.log, "c-1").value.hints
  {
    hide Fresh, ValidHistory, After, MessagesFor, Content, ConversationIds, Appended;
    FirstLogs();
    RowIsStillHit(version, SECOND, [FIRST, SECOND]);
    SecondWrites();
    HintsDiffer([FIRST], [FIRST, SECOND], "b");
  }

  /** The first message again, under another author. */
  const REATTRIBUTED := FIRST.(author := Author("b", "b"))

  /** An edit in place of the author alone is not hashed: the row is still hit, with the old developers. */
  lemma DevelopersCanGoStale(version: string)
    ensures ValidHistory(NEW_WORLD, AppendAfterReplay(version, REATTRIBUTED))
    ensures var w := After(NEW_WORLD, AppendAfterReplay(version, REATTRIBUTED));
            var k := KeyFor(version, w.log, "c-1");
            && k in w.rows
            && Fresh(AUTH_PORTS, w.log, "c-1").Some?
            && w.rows[k].developers != Fresh(AUTH_PORTS, w.log, "c-1").value.developers
  {
    hide DerivedOf, ValidHistory, After, MessagesFor, Content, ConversationIds, Appended, SameParticipants, SameScores;
    FirstLogs();
    ReattributedLogs();
    RowIsStillHit(version, REATTRIBUTED, [REATTRIBUTED]);
    SessionNonEmpty([REATTRIBUTED], "c-1");
    DevelopersEqual(AUTH_PORTS, [FIRST], Set(Ids([FIRST])), [REATTRIBUTED], Set(Ids([REATTRIBUTED])), "c-1");
    OtherAuthor();
  }

  lemma ReattributedLogs()
    ensures Appended([FIRST], REATTRIBUTED) == [REATTRIBUTED]
    ensures MessagesFor([REATTRIBUTED], "c-1") == [REATTRIBUTED]
  {
    assert Ids([FIRST])[0] == REATTRIBUTED.id;
    assert Init([REATTRIBUTED]) == [] && Last([REATTRIBUTED]) == REATTRIBUTED;
    assert MessagesFor([], "c-1") == [];
  }

  lemma OtherAuthor()
    ensures !SameParticipants([FIRST], [REATTRIBUTED])
  {
    assert FIRST.author.id in AuthorsOf([FIRST]);
  }
}
