/**
 * When a hit's developers are still what a fresh replay derives. A row's key covers the conversation's
 * ids and bodies; its developers also depend on who wrote them and on the skill index.
 */
module DeveloperFreshness {
  import opened Coherence
  import opened Confluence
  import opened DerivedOutput
  import opened Developers
  import opened Domain
  import opened EndToEnd
  import opened Log
  import opened LogScores
  import opened Pipeline
  import opened Sequences
  import opened Sorting
  import opened Wrappers

  /** The same authors under the same last-seen names. */
  ghost predicate SameParticipants(ms: seq<MessageEnvelope>, ns: seq<MessageEnvelope>) {
    && AuthorsOf(ms) == AuthorsOf(ns)
    && forall a :: a in AuthorsOf(ms) ==> AuthorName(ms, a) == AuthorName(ns, a)
  }

  /** The author's score on a topic of the session, if they contributed to it anywhere. */
  ghost function SessionScore(
    ports: Ports, log: MessageLog, projected: set<MessageId>, c: ConversationId, a: AuthorId, t: Topic): Option<real>
  {
    if SessionTopic(ports, log, projected, c, t) && Wrote(ports, log, projected, a, t)
    then Some(LogScore(ports, log, projected, a, t))
    else None
  }

  /** Every author of the conversation has the same scores on the topics of the session. */
  ghost predicate SameScores(
    ports: Ports, was: MessageLog, projected: set<MessageId>, now: MessageLog, all: set<MessageId>, c: ConversationId)
  {
    forall a, t :: a in AuthorsOf(MessagesFor(was, c)) ==>
      SessionScore(ports, was, projected, c, a, t) == SessionScore(ports, now, all, c, a, t)
  }

  /** A derived snapshot shows exactly its developer's session scores. */
  lemma SnapshotShowsScores(
    ports: Ports, log: MessageLog, projected: set<MessageId>, c: ConversationId, d: DeveloperSnapshot, t: Topic)
    requires SnapshotHolds(ports, log, projected, c, d)
    ensures forall x ::
      TopicWeight(t, x) in d.topics <==> SessionScore(ports, log, projected, c, d.author, t) == Some(x)
  {
    hide SessionTopic, Wrote, LogScore, StrictlyRankedTopics;
    forall x ensures TopicWeight(t, x) in d.topics <==> SessionScore(ports, log, projected, c, d.author, t) == Some(x) {
      var w := TopicWeight(t, x);
      assert w.topic == t && w.weight == x;
    }
  }

  /** Two snapshots of one developer list the same topics exactly when the scores are the same. */
  lemma TopicsAgree(
    ports: Ports, was: MessageLog, projected: set<MessageId>, now: MessageLog, all: set<MessageId>, c: ConversationId,
    d: DeveloperSnapshot, e: DeveloperSnapshot)
    requires SnapshotHolds(ports, was, projected, c, d) && SnapshotHolds(ports, now, all, c, e)
    requires d.author == e.author
    ensures d.topics == e.topics <==>
            forall t ::
              SessionScore(ports, was, projected, c, d.author, t) == SessionScore(ports, now, all, c, d.author, t)
  {
    assert StrictlyRankedTopics(d.topics) && StrictlyRankedTopics(e.topics);
    hide SnapshotHolds, SessionScore, StrictlyRankedTopics;
    if d.topics == e.topics {
      forall t
        ensures SessionScore(ports, was, projected, c, d.author, t) == SessionScore(ports, now, all, c, d.author, t)
      {
        SnapshotShowsScores(ports, was, projected, c, d, t);
        SnapshotShowsScores(ports, now, all, c, e, t);
        var x, y := SessionScore(ports, was, projected, c, d.author, t), SessionScore(ports, now, all, c, d.author, t);
        assert x.Some? ==> TopicWeight(t, x.value) in d.topics;
        assert y.Some? ==> TopicWeight(t, y.value) in e.topics;
      }
    }
    if forall t ::
         SessionScore(ports, was, projected, c, d.author, t) == SessionScore(ports, now, all, c, d.author, t)
    {
      forall w: TopicWeight ensures w in d.topics <==> w in e.topics {
        assert w == TopicWeight(w.topic, w.weight);
        SnapshotShowsScores(ports, was, projected, c, d, w.topic);
        SnapshotShowsScores(ports, now, all, c, e, w.topic);
      }
      TopicsUnique(d.topics, e.topics);
    }
  }

  lemma DevelopersOf(ports: Ports, log: MessageLog, projected: set<MessageId>, c: ConversationId)
    requires c in ConversationIds(log)
    ensures DerivedOf(ports, log, projected, c).Some?
    ensures var found := DerivedOf(ports, log, projected, c).value.developers;
            && found.Some? && found.value.conversation == c
            && var ds := found.value.developers;
               && (forall i, j :: 0 <= i < j < |ds| ==> Lt(ds[i].author, ds[j].author))
               && (forall a :: ListsDeveloper(ds, a) <==> a in AuthorsOf(MessagesFor(log, c)))
               && (forall d :: d in ds ==>
                     && SnapshotHolds(ports, log, projected, c, d)
                     && d.displayName == AuthorName(MessagesFor(log, c), d.author))
  {
    hide MessagesFor, ConversationIds, SnapshotHolds, LocalPart, Having, ListsDeveloper;
    DerivedIsLocal(ports, log, projected, c);
    DevelopersEndToEnd(ports, log, projected, c);
    DevelopersKeyed(ports, log, projected, c);
    forall a ensures TookPart(log, c, a) <==> a in AuthorsOf(MessagesFor(log, c)) {
      MessagesForMembers(log, c);
    }
  }

  lemma DevelopersKeyed(ports: Ports, log: MessageLog, projected: set<MessageId>, c: ConversationId)
    requires c in Derived(ports, log, projected).developers
    ensures Derived(ports, log, projected).developers[c].conversation == c
  {
    hide Projections, Skills, LogContributions, Participants, SessionTopics, Hints;
  }

  /** Developers of two derivations are equal exactly when participants and their scores are. */
  lemma DevelopersEqual(
    ports: Ports, was: MessageLog, projected: set<MessageId>, now: MessageLog, all: set<MessageId>, c: ConversationId)
    requires c in ConversationIds(was) && c in ConversationIds(now)
    ensures DerivedOf(ports, was, projected, c).Some? && DerivedOf(ports, now, all, c).Some?
    ensures DerivedOf(ports, was, projected, c).value.developers == DerivedOf(ports, now, all, c).value.developers <==>
            && SameParticipants(MessagesFor(was, c), MessagesFor(now, c))
            && SameScores(ports, was, projected, now, all, c)
  {
    hide DerivedOf, MessagesFor, ConversationIds, SnapshotHolds, SessionScore, AuthorsOf, AuthorName;
    DevelopersOf(ports, was, projected, c);
    DevelopersOf(ports, now, all, c);
    var ms, ns := MessagesFor(was, c), MessagesFor(now, c);
    var xs := DerivedOf(ports, was, projected, c).value.developers.value.developers;
    var ys := DerivedOf(ports, now, all, c).value.developers.value.developers;
    if xs == ys {
      forall a | a in AuthorsOf(ms)
        ensures AuthorName(ms, a) == AuthorName(ns, a)
        ensures forall t :: SessionScore(ports, was, projected, c, a, t) == SessionScore(ports, now, all, c, a, t)
      {
        assert ListsDeveloper(xs, a);
        var d :| d in xs && d.author == a;
        TopicsAgree(ports, was, projected, now, all, c, d, d);
      }
      forall a ensures a in AuthorsOf(ms) <==> a in AuthorsOf(ns) {
        assert ListsDeveloper(xs, a) <==> ListsDeveloper(ys, a);
      }
    }
    if SameParticipants(ms, ns) && SameScores(ports, was, projected, now, all, c) {
      forall d ensures d in xs <==> d in ys {
        if d in xs {
          assert ListsDeveloper(xs, d.author);
          assert ListsDeveloper(ys, d.author);
          var e :| e in ys && e.author == d.author;
          TopicsAgree(ports, was, projected, now, all, c, d, e);
        }
        if d in ys {
          assert ListsDeveloper(ys, d.author);
          assert ListsDeveloper(xs, d.author);
          var e :| e in xs && e.author == d.author;
          TopicsAgree(ports, was, projected, now, all, c, e, d);
        }
      }
      DevelopersUnique(xs, ys);
    }
  }

  /**
   * After any history, a hit's developers are what a fresh replay of the current log derives if and only
   * if, since the moment the row was derived, the conversation still has the same authors under the same
   * names, and each has the same scores on the topics of the session.
   */
  lemma HitDevelopersAreFreshExactlyWhen(
    ports: Ports, events: seq<Event>, i: nat, version: string, c: ConversationId)
    requires ValidHistory(NEW_WORLD, events) && Follows(ports, version, events)
    requires var w := After(NEW_WORLD, events);
             var k := KeyFor(version, w.log, c);
             k in w.rows && DerivedAt(events, i, k, w.rows[k])
    ensures var w, was := After(NEW_WORLD, events), After(NEW_WORLD, events[..i]);
            var hit := w.rows[KeyFor(version, w.log, c)];
            && JobOf(was, events[i]).Some? && |JobOf(was, events[i]).value.run| == 6
            && Fresh(ports, w.log, c).Some?
            && (hit.developers == Fresh(ports, w.log, c).value.developers <==>
                  && SameParticipants(MessagesFor(was.log, c), MessagesFor(w.log, c))
                  && SameScores(ports, was.log, Projected(JobOf(was, events[i]).value.run), w.log, Set(Ids(w.log)), c))
  {
    hide ValidHistory, After, MessagesFor, Content, ConversationIds, SameParticipants, SameScores, Having, LocalPart,
         ProjectedIn, DerivedOf, Follows;
    var w, was := After(NEW_WORLD, events), After(NEW_WORLD, events[..i]);
    MomentIsLocal(ports, events, i, w.log, version, c, w.rows[KeyFor(version, w.log, c)]);
    MomentKeepsText(events, i, w.log, version, c, w.rows[KeyFor(version, w.log, c)]);
    DevelopersEqual(ports, was.log, Projected(JobOf(was, events[i]).value.run), w.log, Set(Ids(w.log)), c);
  }
}
