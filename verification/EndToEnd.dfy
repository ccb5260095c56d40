/** What the derived developers and reviewers say about the messages of the log. */
module EndToEnd {
  import opened Confluence
  import opened Developers
  import opened Domain
  import opened Hint
  import opened Log
  import opened LogScores
  import opened Pipeline
  import opened Ranking
  import opened Sequences
  import opened Skill
  import opened SkillLaws
  import opened Sorting
  import opened Wrappers

  // ---------- statements about the log ----------

  /** `a` wrote, in any conversation, a projected message on topic `t`. */
  ghost predicate Wrote(ports: Ports, log: seq<MessageEnvelope>, projected: set<MessageId>, a: AuthorId, t: Topic) {
    exists m :: m in log && m.id in projected && m.author.id == a && t in Project(ports, m).topics
  }

  /** A projected message of conversation `c` is on topic `t`. */
  ghost predicate SessionTopic(
    ports: Ports, log: seq<MessageEnvelope>, projected: set<MessageId>, c: ConversationId, t: Topic)
  {
    exists m :: m in log && m.id in projected && m.conversation.id == c && t in Project(ports, m).topics
  }

  /** `a` wrote a message of conversation `c`. */
  ghost predicate TookPart(log: seq<MessageEnvelope>, c: ConversationId, a: AuthorId) {
    exists m :: m in log && m.conversation.id == c && m.author.id == a
  }

  ghost predicate ListsParticipant(ps: seq<Participant>, a: AuthorId) {
    exists p :: p in ps && p.author == a
  }

  ghost predicate ListsDeveloper(ds: seq<DeveloperSnapshot>, a: AuthorId) {
    exists d :: d in ds && d.author == a
  }

  ghost predicate ListsReviewer(cs: seq<ExpertCandidate>, a: AuthorId) {
    exists c :: c in cs && c.author == a
  }

  /** `a` wrote on one of the topics of `m`'s projection. */
  ghost predicate WroteOnTopicOf(
    ports: Ports, log: seq<MessageEnvelope>, projected: set<MessageId>, a: AuthorId, m: MessageEnvelope)
  {
    exists t :: t in Project(ports, m).topics && Wrote(ports, log, projected, a, t)
  }

  // ---------- the joins ----------

  lemma {:induction false} ContributionsMembers(
    projections: map<MessageId, Projection>, entries: seq<SkillEntry>, c: SkillContribution)
    ensures c in Contributions(projections, entries) <==>
            exists e :: e in entries && e.message in projections
                        && c == SkillContribution(e.author, e.displayName, projections[e.message].topics,
                                                  projections[e.message].confidence)
  {
    if entries != [] {
      Snoc(entries);
      ContributionsMembers(projections, Init(entries), c);
    }
  }

  lemma EntryOf(log: seq<MessageEnvelope>, m: MessageEnvelope)
    requires m in log
    ensures SkillEntry(m.author.id, m.author.displayName, m.id) in Entries(log)
  {
    var i :| 0 <= i < |log| && log[i] == m;
    assert Entries(log)[i] == SkillEntry(m.author.id, m.author.displayName, m.id);
  }

  lemma ContributedWasWritten(ports: Ports, log: MessageLog, projected: set<MessageId>, a: AuthorId, t: Topic)
    requires Contributed(LogContributions(ports, log, projected), a, t)
    ensures Wrote(ports, log, projected, a, t)
  {
    var ps := Projections(ports, log, projected);
    var cs := LogContributions(ports, log, projected);
    hide Projections, Contributions, Project;
    var c :| c in cs && c.author == a && t in c.topics;
    ContributionsMembers(ps, Entries(log), c);
    var e :| e in Entries(log) && e.message in ps && c.author == e.author && c.topics == ps[e.message].topics;
    var i :| 0 <= i < |log| && Entries(log)[i] == e;
    ProjectedIds(ports, log, projected);
    ProjectionAt(ports, log, projected, log[i]);
    assert log[i] in log;
  }

  lemma WrittenContributes(ports: Ports, log: MessageLog, projected: set<MessageId>, a: AuthorId, t: Topic)
    requires Wrote(ports, log, projected, a, t)
    ensures Contributed(LogContributions(ports, log, projected), a, t)
  {
    var ps := Projections(ports, log, projected);
    hide Projections, Contributions, Project;
    var m :| m in log && m.id in projected && m.author.id == a && t in Project(ports, m).topics;
    ProjectionAt(ports, log, projected, m);
    EntryOf(log, m);
    var e := SkillEntry(a, m.author.displayName, m.id);
    var c := SkillContribution(a, m.author.displayName, ps[m.id].topics, ps[m.id].confidence);
    assert e in Entries(log) && e.message in ps;
    ContributionsMembers(ps, Entries(log), c);
  }

  lemma ContributedIsWrote(ports: Ports, log: MessageLog, projected: set<MessageId>, a: AuthorId, t: Topic)
    ensures Contributed(LogContributions(ports, log, projected), a, t) <==> Wrote(ports, log, projected, a, t)
  {
    hide LogContributions, Contributed, Wrote;
    if Contributed(LogContributions(ports, log, projected), a, t) {
      ContributedWasWritten(ports, log, projected, a, t);
    }
    if Wrote(ports, log, projected, a, t) {
      WrittenContributes(ports, log, projected, a, t);
    }
  }

  lemma IdsInMembers(log: seq<MessageEnvelope>, c: ConversationId, id: MessageId)
    ensures id in IdsIn(log, c) <==> exists m :: m in log && m.conversation.id == c && m.id == id
  {
    MessagesForMembers(log, c);
    var ms := MessagesFor(log, c);
    if id in Ids(ms) {
      var i :| 0 <= i < |ms| && Ids(ms)[i] == id;
      assert ms[i] in ms;
    }
    if m :| m in log && m.conversation.id == c && m.id == id {
      var i :| 0 <= i < |ms| && ms[i] == m;
      assert Ids(ms)[i] == id;
    }
  }

  lemma {:induction false} AllTopicsMembers(ps: seq<Projection>, t: Topic)
    ensures t in AllTopics(ps) <==> exists p :: p in ps && t in p.topics
  {
    if ps != [] {
      Snoc(ps);
      AllTopicsMembers(Init(ps), t);
    }
  }

  lemma SessionTopicsMembers(ports: Ports, log: MessageLog, projected: set<MessageId>, c: ConversationId, t: Topic)
    ensures Distinct(SessionTopics(Projections(ports, log, projected), IdsIn(log, c)))
    ensures t in SessionTopics(Projections(ports, log, projected), IdsIn(log, c))
            <==> SessionTopic(ports, log, projected, c, t)
  {
    var projections := Projections(ports, log, projected);
    var ps := Gather(projections, IdsIn(log, c));
    FirstSeenMembers(AllTopics(ps));
    AllTopicsMembers(ps, t);
    if p :| p in ps && t in p.topics {
      GatherMembers(projections, IdsIn(log, c), p);
      var id :| id in IdsIn(log, c) && id in projections && projections[id] == p;
      IdsInMembers(log, c, id);
      var m :| m in log && m.conversation.id == c && m.id == id;
      ProjectedIds(ports, log, projected);
      ProjectionAt(ports, log, projected, m);
    }
    if m :| m in log && m.id in projected && m.conversation.id == c && t in Project(ports, m).topics {
      ProjectionAt(ports, log, projected, m);
      IdsInMembers(log, c, m.id);
      GatherMembers(projections, IdsIn(log, c), Project(ports, m));
    }
  }

  // ---------- gathering ownerships ----------

  lemma SkillsMembers(cs: seq<SkillContribution>, ts: seq<Topic>, o: TopicOwnership)
    ensures o in Gather(Skills(cs), ts) <==> o.topic in ts && o.topic in Topics(cs) && o == Ownership(cs, o.topic)
  {
    GatherMembers(Skills(cs), ts, o);
    assert forall t :: t in Skills(cs) ==> Skills(cs)[t] == Ownership(cs, t) && Ownership(cs, t).topic == t;
    if o.topic in ts && o.topic in Topics(cs) && o == Ownership(cs, o.topic) {
      assert o.topic in Skills(cs);
    }
  }

  lemma {:induction false} GatherDistinctTopics(cs: seq<SkillContribution>, ts: seq<Topic>)
    requires Distinct(ts)
    ensures DistinctTopics(Gather(Skills(cs), ts))
  {
    if ts != [] {
      Snoc(ts);
      GatherDistinctTopics(cs, Init(ts));
      var before := Gather(Skills(cs), Init(ts));
      assert Last(ts) !in Init(ts);
      forall i | 0 <= i < |before| ensures before[i].topic != Last(ts) {
        SkillsMembers(cs, Init(ts), before[i]);
      }
    }
  }

  /** The skill index finds an author on a topic exactly when they contributed to it. */
  lemma FindExpert(cs: seq<SkillContribution>, a: AuthorId, t: Topic)
    ensures CandidateBy(Ownership(cs, t).candidates, a)
         == if Contributed(cs, a, t) then Some(Expert(cs, a, t)) else None
  {
    hide Ownership, Expert;
    OwnershipRanking(cs, t);
    FindMembers(Ownership(cs, t).candidates, a);
    ExpertAuthor(cs, a, t);
  }

  lemma ExpertAuthor(cs: seq<SkillContribution>, a: AuthorId, t: Topic)
    ensures Expert(cs, a, t).author == a && Expert(cs, a, t).displayName == NameOf(cs, a)
  {
  }

  // ---------- developers ----------

  /** What the snapshot of one developer must say. */
  ghost predicate SnapshotHolds(
    ports: Ports, log: MessageLog, projected: set<MessageId>, c: ConversationId, d: DeveloperSnapshot)
  {
    && StrictlyRankedTopics(d.topics)
    && forall w :: w in d.topics <==>
         && SessionTopic(ports, log, projected, c, w.topic)
         && Wrote(ports, log, projected, d.author, w.topic)
         && w.weight == LogScore(ports, log, projected, d.author, w.topic)
  }

  lemma SnapshotMeaning(
    ports: Ports, log: MessageLog, projected: set<MessageId>, c: ConversationId, p: Participant,
    os: seq<TopicOwnership>)
    requires os == Gather(Skills(LogContributions(ports, log, projected)),
                          SessionTopics(Projections(ports, log, projected), IdsIn(log, c)))
    ensures SnapshotHolds(ports, log, projected, c, Snapshot(p, os))
  {
    hide Skills, Ownership, Snapshot, ScoreOf, LogScore, Expert, SessionTopics, IdsIn, Projections, LogContributions;
    var cs := LogContributions(ports, log, projected);
    var ts := SessionTopics(Projections(ports, log, projected), IdsIn(log, c));
    var d := Snapshot(p, os);
    SessionTopicsMembers(ports, log, projected, c, "");
    GatherDistinctTopics(cs, ts);
    SnapshotTopics(p, os);
    SnapshotAuthor(p, os);
    forall w ensures w in d.topics <==>
        && SessionTopic(ports, log, projected, c, w.topic)
        && Wrote(ports, log, projected, p.author, w.topic)
        && w.weight == LogScore(ports, log, projected, p.author, w.topic)
    {
      SessionTopicsMembers(ports, log, projected, c, w.topic);
      ContributedIsWrote(ports, log, projected, p.author, w.topic);
      ScoreIsLogScore(ports, log, projected, p.author, w.topic);
      FindExpert(cs, p.author, w.topic);
      if Contributed(cs, p.author, w.topic) {
        ScoreIsShare(cs, w.topic, p.author);
      }
      var o := Ownership(cs, w.topic);
      OwnershipTopic(cs, w.topic);
      SkillsMembers(cs, ts, o);
      if x :| x in os && x.topic == w.topic {
        SkillsMembers(cs, ts, x);
      }
    }
  }

  lemma SnapshotAuthor(p: Participant, os: seq<TopicOwnership>)
    ensures Snapshot(p, os).author == p.author && Snapshot(p, os).displayName == p.displayName
  {
  }

  lemma OwnershipTopic(cs: seq<SkillContribution>, t: Topic)
    ensures Ownership(cs, t).topic == t
    ensures forall a :: Contributed(cs, a, t) ==> t in Topics(cs)
  {
  }

  lemma ParticipantsMembers(log: seq<MessageEnvelope>, c: ConversationId)
    ensures var ps := Participants(log, c);
            && (forall i, j :: 0 <= i < j < |ps| ==> ps[i].author != ps[j].author)
            && (forall a :: ListsParticipant(ps, a) <==> TookPart(log, c, a))
            && (forall p :: p in ps ==> p.displayName == AuthorName(MessagesFor(log, c), p.author))
  {
    var ms := MessagesFor(log, c);
    var ps := Participants(log, c);
    var authors := Ascending(AuthorsOf(ms));
    MessagesForMembers(log, c);
    AscendingDistinct(AuthorsOf(ms));
    forall a ensures ListsParticipant(ps, a) <==> TookPart(log, c, a) {
      if p :| p in ps && p.author == a {
        var i :| 0 <= i < |ps| && ps[i] == p;
        assert authors[i] in AuthorsOf(ms);
      }
      if m :| m in log && m.conversation.id == c && m.author.id == a {
        assert a in authors;
        var i :| 0 <= i < |authors| && authors[i] == a;
        assert ps[i] in ps;
      }
    }
  }

  /** The participant's name is the one on their last message of the conversation. */
  lemma AuthorNameIsLastSeen(ms: seq<MessageEnvelope>, a: AuthorId)
    requires a in AuthorsOf(ms)
    ensures exists i :: 0 <= i < |ms| && ms[i].author.id == a && ms[i].author.displayName == AuthorName(ms, a)
                        && forall j :: i < j < |ms| ==> ms[j].author.id != a
  {
    LastSeenIsLast(ms, (m: MessageEnvelope) => m.author.id, (m: MessageEnvelope) => m.author.displayName, a);
  }

  /**
   * End to end, developers: exactly the distinct authors of the conversation's messages, once each in
   * ascending order; each holds exactly the session topics they wrote on in any conversation, weighted
   * by their share of the largest weight on the topic, and ranked by weight then topic.
   */
  lemma DevelopersEndToEnd(ports: Ports, log: MessageLog, projected: set<MessageId>, c: ConversationId)
    requires c in ConversationIds(log)
    ensures c in Derived(ports, log, projected).developers
    ensures var ds := Derived(ports, log, projected).developers[c].developers;
            && (forall i, j :: 0 <= i < j < |ds| ==> Lt(ds[i].author, ds[j].author))
            && (forall a :: ListsDeveloper(ds, a) <==> TookPart(log, c, a))
            && (forall d :: d in ds ==>
                  SnapshotHolds(ports, log, projected, c, d)
                  && d.displayName == AuthorName(MessagesFor(log, c), d.author))
  {
    hide Skills, LogContributions, Projections, Participants, IdsIn, SnapshotHolds, BuildDevelopers, Derived,
         MessagesFor, AuthorName, SessionTopics, TookPart;
    var ps := Participants(log, c);
    var os := Gather(Skills(LogContributions(ports, log, projected)),
                     SessionTopics(Projections(ports, log, projected), IdsIn(log, c)));
    var ds := BuildDevelopers(c, ps, os).developers;
    DerivedDevelopers(ports, log, projected, c);
    ParticipantsMembers(log, c);
    DevelopersAreParticipants(c, ps, os);
    forall a ensures ListsDeveloper(ds, a) <==> ListsParticipant(ps, a) {
      SnapshotsList(ps, os, ds, a);
    }
    forall d | d in ds
      ensures SnapshotHolds(ports, log, projected, c, d)
              && d.displayName == AuthorName(MessagesFor(log, c), d.author) {
      var p :| p in ps && d == Snapshot(p, os);
      SnapshotMeaning(ports, log, projected, c, p, os);
      SnapshotAuthor(p, os);
    }
  }

  lemma SnapshotsList(ps: seq<Participant>, os: seq<TopicOwnership>, ds: seq<DeveloperSnapshot>, a: AuthorId)
    requires forall d :: d in ds <==> exists p :: p in ps && d == Snapshot(p, os)
    ensures ListsDeveloper(ds, a) <==> ListsParticipant(ps, a)
  {
    if p :| p in ps && p.author == a {
      assert Snapshot(p, os) in ds;
    }
  }

  lemma DerivedDevelopers(ports: Ports, log: MessageLog, projected: set<MessageId>, c: ConversationId)
    requires c in ConversationIds(log)
    ensures var d := Derived(ports, log, projected);
            && c in d.developers
            && d.developers[c] == BuildDevelopers(c, Participants(log, c),
                 Gather(Skills(LogContributions(ports, log, projected)),
                        SessionTopics(Projections(ports, log, projected), IdsIn(log, c))))
  {
    hide Skills, LogContributions, Projections, Participants, IdsIn, BuildDevelopers, SessionTopics, Hints;
  }

  // ---------- reviewers ----------

  lemma {:induction false} PoolMembers(os: seq<TopicOwnership>, topics: set<Topic>, c: ExpertCandidate)
    ensures c in Pool(os, topics) <==> exists o :: o in os && o.topic in topics && c in o.candidates
  {
    if os != [] {
      Snoc(os);
      PoolMembers(Init(os), topics, c);
    }
  }

  /** The pool of a projection's ownerships mentions exactly the contributors to its topics. */
  lemma PoolAuthorsContributed(cs: seq<SkillContribution>, ts: seq<Topic>, a: AuthorId)
    ensures a in PoolAuthors(Pool(Gather(Skills(cs), ts), Set(ts))) <==>
            exists t :: t in ts && Contributed(cs, a, t)
  {
    hide Skills, Ownership, Expert, Contributed;
    var os := Gather(Skills(cs), ts);
    if c :| c in Pool(os, Set(ts)) && c.author == a {
      PoolMembers(os, Set(ts), c);
      var o :| o in os && o.topic in Set(ts) && c in o.candidates;
      SkillsMembers(cs, ts, o);
      OwnershipRanking(cs, o.topic);
    }
    if t :| t in ts && Contributed(cs, a, t) {
      OwnershipTopic(cs, t);
      SkillsMembers(cs, ts, Ownership(cs, t));
      OwnershipRanking(cs, t);
      ExpertAuthor(cs, a, t);
      PoolMembers(os, Set(ts), Expert(cs, a, t));
      assert Expert(cs, a, t) in Pool(os, Set(ts));
    }
  }

  lemma DerivedHint(ports: Ports, log: MessageLog, projected: set<MessageId>, m: MessageEnvelope)
    requires m in log && m.id in projected
    ensures var d := Derived(ports, log, projected);
            && Project(ports, m).messageId == m.id
            && m.id in d.hints
            && d.hints[m.id] == HintOf(
                 Project(ports, m),
                 Gather(Skills(LogContributions(ports, log, projected)), Project(ports, m).topics))
  {
    hide Skills, LogContributions, HintOf;
    ProjectionAt(ports, log, projected, m);
  }

  // ---------- the reviewers' scores ----------

  /** The author's normalised scores on the listed topics, added up with multiplicity. */
  function TopicTotal(cs: seq<SkillContribution>, a: AuthorId, ts: seq<Topic>): real {
    if ts == [] then 0.0 else TopicTotal(cs, a, Init(ts)) + ScoreOf(cs, a, Last(ts))
  }

  lemma ScoreOfRange(cs: seq<SkillContribution>, a: AuthorId, t: Topic)
    ensures 0.0 <= ScoreOf(cs, a, t) <= 1.0
    ensures !Contributed(cs, a, t) ==> ScoreOf(cs, a, t) == 0.0
  {
    if Contributed(cs, a, t) {
      ContributorsMembers(cs, t, WeightRow(cs, a, t));
      ShareWithin(Weight(cs, a, t), TopWeight(cs, t));
    } else {
      WeightZero(cs, a, t);
    }
  }

  /** In the pool of a projection's ownerships an author's scores add up to their total, under one name. */
  lemma {:induction false} PoolTotals(cs: seq<SkillContribution>, ts: seq<Topic>, topics: set<Topic>, a: AuthorId)
    requires forall t :: t in ts ==> t in topics
    ensures var pool := Pool(Gather(Skills(cs), ts), topics);
            && ScoreSum(pool, a) == TopicTotal(cs, a, ts)
            && (a in PoolAuthors(pool) ==> LastName(pool, a) == NameOf(cs, a))
  {
    if ts != [] {
      Snoc(ts);
      PoolTotals(cs, Init(ts), topics, a);
      PoolStep(cs, ts, topics);
      hide Pool, Gather, Skills, Ownership, ScoreOf, NameOf, LastName, ScoreSum, PoolAuthors;
      OwnershipAdds(cs, Last(ts), Pool(Gather(Skills(cs), Init(ts)), topics), a);
    }
  }

  lemma OwnershipAdds(cs: seq<SkillContribution>, t: Topic, pool: seq<ExpertCandidate>, a: AuthorId)
    ensures var more := pool + Ownership(cs, t).candidates;
            && ScoreSum(more, a) == ScoreSum(pool, a) + ScoreOf(cs, a, t)
            && (a in PoolAuthors(more) <==> a in PoolAuthors(pool) || Contributed(cs, a, t))
            && LastName(more, a) == if Contributed(cs, a, t) then NameOf(cs, a) else LastName(pool, a)
  {
    hide Ownership, ScoreOf, NameOf, LastName, ScoreSum, Contributed;
    var candidates := Ownership(cs, t).candidates;
    OwnershipRanking(cs, t);
    ScoreOfRange(cs, a, t);
    ExpertAuthor(cs, a, t);
    AppendOnce(pool, candidates, Expert(cs, a, t));
    assert PoolAuthors(pool + candidates) == PoolAuthors(pool) + PoolAuthors(candidates);
    if Contributed(cs, a, t) {
      ScoreIsShare(cs, t, a);
      assert Expert(cs, a, t) in candidates;
    }
  }

  lemma PoolStep(cs: seq<SkillContribution>, ts: seq<Topic>, topics: set<Topic>)
    requires ts != [] && Last(ts) in topics
    ensures Pool(Gather(Skills(cs), ts), topics)
         == Pool(Gather(Skills(cs), Init(ts)), topics) + Ownership(cs, Last(ts)).candidates
  {
    hide Ownership;
    var t, before := Last(ts), Gather(Skills(cs), Init(ts));
    OwnershipTopic(cs, t);
    if t in Topics(cs) {
      PoolSnoc(before, Ownership(cs, t), topics);
      assert Gather(Skills(cs), ts) == before + [Ownership(cs, t)];
    } else {
      NoCandidates(cs, t);
      assert Gather(Skills(cs), ts) == before;
    }
  }

  lemma PoolSnoc(os: seq<TopicOwnership>, o: TopicOwnership, topics: set<Topic>)
    requires o.topic in topics
    ensures Pool(os + [o], topics) == Pool(os, topics) + o.candidates
  {
    assert Init(os + [o]) == os && Last(os + [o]) == o;
  }

  lemma NoCandidates(cs: seq<SkillContribution>, t: Topic)
    requires t !in Topics(cs)
    ensures Ownership(cs, t).candidates == []
  {
    hide Ownership;
    var candidates := Ownership(cs, t).candidates;
    OwnershipRanking(cs, t);
    HasMember(candidates);
  }

  lemma {:induction false} TotalIsLogTotal(
    ports: Ports, log: MessageLog, projected: set<MessageId>, a: AuthorId, ts: seq<Topic>)
    ensures TopicTotal(LogContributions(ports, log, projected), a, ts) == LogTotal(ports, log, projected, a, ts)
  {
    if ts != [] {
      hide LogContributions, ScoreOf, LogScore;
      TotalIsLogTotal(ports, log, projected, a, Init(ts));
      ScoreIsLogScore(ports, log, projected, a, Last(ts));
    }
  }

  /** What the reviewers of a message must be. */
  ghost predicate ReviewersHold(
    ports: Ports, log: MessageLog, projected: set<MessageId>, m: MessageEnvelope, reviewers: seq<ExpertCandidate>)
  {
    var ts := Project(ports, m).topics;
    var top := TopLogTotal(ports, log, projected, log, ts);
    && (top > 0.0 ==> reviewers != [] && reviewers[0].score == 1.0)
    && forall c :: c in reviewers <==>
         && WroteOnTopicOf(ports, log, projected, c.author, m)
         && c.displayName == LogName(log, projected, c.author)
         && c.score == Share(LogTotal(ports, log, projected, c.author, ts), top)
  }

  /**
   * End to end, reviewers: exactly the authors who wrote on one of the message's topics anywhere in the
   * log, each scoring the sum of their topic scores over the largest such sum, strictly ranked, the human
   * hint being the head. So a message with a topic lists its own author.
   */
  lemma ReviewersEndToEnd(ports: Ports, log: MessageLog, projected: set<MessageId>, m: MessageEnvelope)
    requires m in log && m.id in projected
    ensures m.id in Derived(ports, log, projected).hints
    ensures var h := Derived(ports, log, projected).hints[m.id];
            && h.messageId == m.id
            && StrictlyRanked(h.reviewers)
            && (forall i, j :: 0 <= i < j < |h.reviewers| ==> h.reviewers[i].author != h.reviewers[j].author)
            && ReviewersHold(ports, log, projected, m, h.reviewers)
            && h.humanHint == (if h.reviewers == [] then None else Some(h.reviewers[0]))
            && (Project(ports, m).topics != [] ==>
                  h.humanHint.Some? && ListsReviewer(h.reviewers, m.author.id))
    ensures forall a :: ListsReviewer(Derived(ports, log, projected).hints[m.id].reviewers, a)
                        <==> WroteOnTopicOf(ports, log, projected, a, m)
  {
    hide Skills, LogContributions, Projections, Wrote, Reviewers, Pool, Derived, Project, Share, ReviewersHold;
    var cs := LogContributions(ports, log, projected);
    var ts := Project(ports, m).topics;
    var pool := Pool(Gather(Skills(cs), ts), Set(ts));
    DerivedHint(ports, log, projected, m);
    ReviewersRanking(pool);
    ReviewersAre(ports, log, projected, m);
    forall a ensures ListsReviewer(Reviewers(pool), a) <==> WroteOnTopicOf(ports, log, projected, a, m) {
      ReviewerListed(ports, log, projected, m, Reviewers(pool), a);
    }
    if ts != [] {
      OwnTopic(ports, log, projected, m, ts[0]);
      assert ts[0] in ts;
      assert WroteOnTopicOf(ports, log, projected, m.author.id, m);
      assert ListsReviewer(Reviewers(pool), m.author.id);
    }
  }

  /** In the pool of a projection's ownerships, the sums, names and maximum are those read off the log. */
  lemma PoolReadsLog(ports: Ports, log: MessageLog, projected: set<MessageId>, ts: seq<Topic>, a: AuthorId)
    ensures var pool := Pool(Gather(Skills(LogContributions(ports, log, projected)), ts), Set(ts));
            && ScoreSum(pool, a) == LogTotal(ports, log, projected, a, ts)
            && (a in PoolAuthors(pool) <==> exists t :: t in ts && Wrote(ports, log, projected, a, t))
            && (a in PoolAuthors(pool) ==> LastName(pool, a) == LogName(log, projected, a))
  {
    hide Skills, LogContributions, Contributed, Wrote, Pool, LogName, NameOf, LogTotal, TopicTotal;
    var cs := LogContributions(ports, log, projected);
    PoolTotals(cs, ts, Set(ts), a);
    TotalIsLogTotal(ports, log, projected, a, ts);
    NameIsLogName(ports, log, projected, a);
    PoolAuthorsContributed(cs, ts, a);
    forall t ensures Contributed(cs, a, t) <==> Wrote(ports, log, projected, a, t) {
      ContributedIsWrote(ports, log, projected, a, t);
    }
  }

  lemma TopSumReadsLog(ports: Ports, log: MessageLog, projected: set<MessageId>, ts: seq<Topic>)
    ensures var pool := Pool(Gather(Skills(LogContributions(ports, log, projected)), ts), Set(ts));
            TopSum(pool) == TopLogTotal(ports, log, projected, log, ts)
  {
    hide Skills, LogContributions, Pool, LogTotal, TopLogTotal, TopSum, ScoreSum;
    var pool := Pool(Gather(Skills(LogContributions(ports, log, projected)), ts), Set(ts));
    forall a ensures ScoreSum(pool, a) == LogTotal(ports, log, projected, a, ts) {
      PoolReadsLog(ports, log, projected, ts, a);
    }
    TopSumIsLargest(pool);
    TopLogTotalIsLargest(ports, log, projected, ts);
  }

  lemma ReviewersAre(ports: Ports, log: MessageLog, projected: set<MessageId>, m: MessageEnvelope)
    ensures var ts := Project(ports, m).topics;
            var pool := Pool(Gather(Skills(LogContributions(ports, log, projected)), ts), Set(ts));
            ReviewersHold(ports, log, projected, m, Reviewers(pool))
  {
    hide Skills, LogContributions, Wrote, Reviewers, Pool, Project, LogName, LogTotal, TopLogTotal, Share, TopSum;
    var ts := Project(ports, m).topics;
    var pool := Pool(Gather(Skills(LogContributions(ports, log, projected)), ts), Set(ts));
    ReviewersRanking(pool);
    TopSumReadsLog(ports, log, projected, ts);
    forall a
      ensures ScoreSum(pool, a) == LogTotal(ports, log, projected, a, ts)
      ensures a in PoolAuthors(pool) <==> WroteOnTopicOf(ports, log, projected, a, m)
      ensures a in PoolAuthors(pool) ==> LastName(pool, a) == LogName(log, projected, a)
    {
      PoolReadsLog(ports, log, projected, ts, a);
    }
  }

  lemma ReviewerListed(
    ports: Ports, log: MessageLog, projected: set<MessageId>, m: MessageEnvelope, reviewers: seq<ExpertCandidate>,
    a: AuthorId)
    requires ReviewersHold(ports, log, projected, m, reviewers)
    ensures ListsReviewer(reviewers, a) <==> WroteOnTopicOf(ports, log, projected, a, m)
  {
    hide Project, WroteOnTopicOf, LogName, LogTotal, TopLogTotal, Share;
    var ts := Project(ports, m).topics;
    var top := TopLogTotal(ports, log, projected, log, ts);
    if WroteOnTopicOf(ports, log, projected, a, m) {
      LogTotalRange(ports, log, projected, a, ts);
      TopLogTotalIsLargest(ports, log, projected, ts);
      ShareWithin(LogTotal(ports, log, projected, a, ts), top);
      assert ExpertCandidate(
          a, LogName(log, projected, a), Share(LogTotal(ports, log, projected, a, ts), top)) in reviewers;
    }
  }

  lemma {:induction false} TotalsFollowScores(
    ports: Ports, log: MessageLog, projected: set<MessageId>, a: AuthorId, b: AuthorId, ts: seq<Topic>)
    requires forall t :: t in ts ==> LogScore(ports, log, projected, b, t) <= LogScore(ports, log, projected, a, t)
    ensures LogTotal(ports, log, projected, b, ts) <= LogTotal(ports, log, projected, a, ts)
    ensures (exists t :: t in ts && LogScore(ports, log, projected, b, t) < LogScore(ports, log, projected, a, t)) ==>
              LogTotal(ports, log, projected, b, ts) < LogTotal(ports, log, projected, a, ts)
  {
    if ts != [] {
      hide LogScore;
      Snoc(ts);
      TotalsFollowScores(ports, log, projected, a, b, Init(ts));
    }
  }

  /**
   * Who is stronger across the topics is recommended first: an author scoring at least as much on every
   * topic of the message, and more on one, is a reviewer and stands before the other.
   */
  lemma StrongerReviewerFirst(
    ports: Ports, log: MessageLog, projected: set<MessageId>, m: MessageEnvelope, a: AuthorId, b: AuthorId)
    requires m in log && m.id in projected
    requires var ts := Project(ports, m).topics;
             && (forall t :: t in ts ==>
                   LogScore(ports, log, projected, b, t) <= LogScore(ports, log, projected, a, t))
             && (exists t :: t in ts && LogScore(ports, log, projected, b, t) < LogScore(ports, log, projected, a, t))
    ensures m.id in Derived(ports, log, projected).hints
    ensures var reviewers := Derived(ports, log, projected).hints[m.id].reviewers;
            && ListsReviewer(reviewers, a)
            && forall i, j :: 0 <= i < |reviewers| && 0 <= j < |reviewers| ==>
                 (reviewers[i].author == a && reviewers[j].author == b ==> i < j)
  {
    hide Derived, Project, LogScore, LogTotal, TopLogTotal, LogName, Share, WroteOnTopicOf, ListsReviewer, Contributed,
         ScoreOf, LogContributions;
    var ts := Project(ports, m).topics;
    ReviewersEndToEnd(ports, log, projected, m);
    var reviewers := Derived(ports, log, projected).hints[m.id].reviewers;
    TotalsFollowScores(ports, log, projected, a, b, ts);
    LogTotalRange(ports, log, projected, b, ts);
    TopLogTotalIsLargest(ports, log, projected, ts);
    SharesFollowTotals(
      LogTotal(ports, log, projected, b, ts), LogTotal(ports, log, projected, a, ts),
      TopLogTotal(ports, log, projected, log, ts));
    forall i, j | 0 <= i < |reviewers| && 0 <= j < |reviewers|
      ensures reviewers[i].author == a && reviewers[j].author == b ==> i < j {
      assert reviewers[i] in reviewers && reviewers[j] in reviewers;
    }
    var t :| t in ts && LogScore(ports, log, projected, b, t) < LogScore(ports, log, projected, a, t);
    LogScoreRange(ports, log, projected, b, t);
    ScoreIsLogScore(ports, log, projected, a, t);
    ScoreOfRange(LogContributions(ports, log, projected), a, t);
    ContributedIsWrote(ports, log, projected, a, t);
    WroteOnTopic(ports, log, projected, a, m, t);
  }

  lemma SharesFollowTotals(low: real, high: real, top: real)
    requires 0.0 <= low < high <= top
    ensures Share(low, top) < Share(high, top)
  {
    DivideMonotone(low, high, top);
  }

  lemma WroteOnTopic(
    ports: Ports, log: seq<MessageEnvelope>, projected: set<MessageId>, a: AuthorId, m: MessageEnvelope, t: Topic)
    requires t in Project(ports, m).topics && Wrote(ports, log, projected, a, t)
    ensures WroteOnTopicOf(ports, log, projected, a, m)
  {
  }

  // ---------- the skill index ----------

  /**
   * End to end, skills: a topic has an ownership exactly when somebody wrote on it; its candidates are
   * exactly those who did, once each, strictly ranked, each under the name on their last projected
   * message and scoring their share of the largest weight.
   */
  lemma SkillsEndToEnd(ports: Ports, log: MessageLog, projected: set<MessageId>, t: Topic)
    ensures var skills := Derived(ports, log, projected).skills;
            && (t in skills <==> exists a :: Wrote(ports, log, projected, a, t))
            && (t in skills ==>
                  && skills[t].topic == t
                  && StrictlyRanked(skills[t].candidates)
                  && forall c :: c in skills[t].candidates <==>
                       && Wrote(ports, log, projected, c.author, t)
                       && c.displayName == LogName(log, projected, c.author)
                       && c.score == LogScore(ports, log, projected, c.author, t))
  {
    hide LogContributions, Contributed, Wrote, Projections, Ownership, Expert, LogName, LogScore, ScoreOf, Hints,
         SessionScope, SessionWarmup, SessionDevelopersOf, NameOf;
    var cs := LogContributions(ports, log, projected);
    OwnershipRanking(cs, t);
    OwnershipTopic(cs, t);
    TopicHasContributor(cs, t);
    forall a
      ensures Contributed(cs, a, t) <==> Wrote(ports, log, projected, a, t)
      ensures Contributed(cs, a, t) ==> Expert(cs, a, t).score == LogScore(ports, log, projected, a, t)
      ensures Expert(cs, a, t).author == a && Expert(cs, a, t).displayName == LogName(log, projected, a)
    {
      ContributedIsWrote(ports, log, projected, a, t);
      ExpertAuthor(cs, a, t);
      NameIsLogName(ports, log, projected, a);
      ScoreIsLogScore(ports, log, projected, a, t);
      if Contributed(cs, a, t) {
        ScoreIsShare(cs, t, a);
      }
    }
  }

  lemma TopicHasContributor(cs: seq<SkillContribution>, t: Topic)
    ensures t in Topics(cs) <==> exists a :: Contributed(cs, a, t)
  {
    if t in Topics(cs) {
      var c :| c in cs && t in c.topics;
      assert Contributed(cs, c.author, t);
    }
  }

  lemma OwnTopic(ports: Ports, log: MessageLog, projected: set<MessageId>, m: MessageEnvelope, t: Topic)
    requires m in log && m.id in projected && t in Project(ports, m).topics
    ensures Wrote(ports, log, projected, m.author.id, t)
  {
  }

  lemma {:induction false} GatherRepeats(skills: map<Topic, TopicOwnership>, ts: seq<Topic>, t: Topic)
    requires t in skills && forall x :: x in ts ==> x == t
    ensures Gather(skills, ts) == Repeat(skills[t], |ts|)
  {
    if ts != [] {
      Snoc(ts);
      assert Last(ts) in ts;
      GatherRepeats(skills, Init(ts), t);
      assert Repeat(skills[t], |ts|) == Repeat(skills[t], |ts| - 1) + [skills[t]];
    }
  }

  /** In the pipeline, a message on a single topic gets that topic's ranked candidates as reviewers. */
  lemma SingleTopicHint(ports: Ports, log: MessageLog, projected: set<MessageId>, m: MessageEnvelope, t: Topic)
    requires m in log && m.id in projected && Set(Project(ports, m).topics) == {t}
    ensures var d := Derived(ports, log, projected);
            && m.id in d.hints && t in d.skills
            && d.hints[m.id].reviewers == d.skills[t].candidates
  {
    hide LogContributions, Projections, Contributed, Ownership, HintOf;
    var cs := LogContributions(ports, log, projected);
    var ts := Project(ports, m).topics;
    DerivedHint(ports, log, projected, m);
    assert t in Set(ts) && ts != [];
    OwnTopic(ports, log, projected, m, t);
    ContributedIsWrote(ports, log, projected, m.author.id, t);
    OwnershipTopic(cs, t);
    assert forall x :: x in ts ==> x in Set(ts);
    GatherRepeats(Skills(cs), ts, t);
    HintAgreesWithOwnership(cs, t, Project(ports, m), |ts|);
  }
}
