/**
 * When a hit's hints are still what a fresh replay derives. A row's key covers the conversation's ids
 * and bodies; its hints also depend on the skill index over the whole log.
 */
module HintFreshness {
  import opened Coherence
  import opened Confluence
  import opened DerivedOutput
  import opened Domain
  import opened EndToEnd
  import opened Hint
  import opened Log
  import opened LogScores
  import opened Pipeline
  import opened Ranking
  import opened Sequences
  import opened Skill
  import opened SkillLaws

  // ---------- what the reviewers of a topic list depend on ----------

  /** The author contributed to one of the topics. */
  ghost predicate OnTopics(cs: seq<SkillContribution>, a: AuthorId, ts: seq<Topic>) {
    exists t :: t in ts && Contributed(cs, a, t)
  }

  /** The largest total on the topics. */
  function TopTotal(cs: seq<SkillContribution>, ts: seq<Topic>): real {
    TopSum(Pool(Gather(Skills(cs), ts), Set(ts)))
  }

  lemma PoolSums(cs: seq<SkillContribution>, ts: seq<Topic>, a: AuthorId)
    ensures var pool := Pool(Gather(Skills(cs), ts), Set(ts));
            && ScoreSum(pool, a) == TopicTotal(cs, a, ts)
            && (a in PoolAuthors(pool) <==> OnTopics(cs, a, ts))
            && (a in PoolAuthors(pool) ==> LastName(pool, a) == NameOf(cs, a))
  {
    hide Pool, Gather, Skills, ScoreSum, NameOf, LastName, PoolAuthors, TopicTotal, Contributed;
    PoolTotals(cs, ts, Set(ts), a);
    PoolAuthorsContributed(cs, ts, a);
  }

  /** Two contribution lists rank the same reviewers on these topics. */
  ghost predicate SameRanking(cs: seq<SkillContribution>, ds: seq<SkillContribution>, ts: seq<Topic>) {
    forall a ::
      && (OnTopics(cs, a, ts) <==> OnTopics(ds, a, ts))
      && (OnTopics(cs, a, ts) ==>
            && NameOf(cs, a) == NameOf(ds, a)
            && Share(TopicTotal(cs, a, ts), TopTotal(cs, ts)) == Share(TopicTotal(ds, a, ts), TopTotal(ds, ts)))
  }

  /** Two pools rank the same reviewers exactly when their authors, names and shares are the same. */
  lemma ReviewersEqual(p: seq<ExpertCandidate>, q: seq<ExpertCandidate>)
    ensures Reviewers(p) == Reviewers(q) <==>
            forall a ::
              && (a in PoolAuthors(p) <==> a in PoolAuthors(q))
              && (a in PoolAuthors(p) ==>
                    && LastName(p, a) == LastName(q, a)
                    && Share(ScoreSum(p, a), TopSum(p)) == Share(ScoreSum(q, a), TopSum(q)))
  {
    hide Reviewers, PoolAuthors, LastName, ScoreSum, Share, TopSum, StrictlyRanked;
    ReviewersRanking(p);
    ReviewersRanking(q);
    if Reviewers(p) == Reviewers(q) {
      forall a
        ensures (a in PoolAuthors(p) <==> a in PoolAuthors(q))
        ensures a in PoolAuthors(p) ==>
                  && LastName(p, a) == LastName(q, a)
                  && Share(ScoreSum(p, a), TopSum(p)) == Share(ScoreSum(q, a), TopSum(q))
      {
        ReviewerOf(p, a);
        ReviewerOf(q, a);
      }
    }
    if forall a ::
         && (a in PoolAuthors(p) <==> a in PoolAuthors(q))
         && (a in PoolAuthors(p) ==>
               LastName(p, a) == LastName(q, a) && Share(ScoreSum(p, a), TopSum(p)) == Share(ScoreSum(q, a), TopSum(q)))
    {
      SameMembersSameRanking(p, q);
    }
  }

  /** An author of the pool is listed, with their name and share, and only so. */
  lemma ReviewerOf(pool: seq<ExpertCandidate>, a: AuthorId)
    ensures a in PoolAuthors(pool) <==> exists c :: c in Reviewers(pool) && c.author == a
    ensures forall c :: c in Reviewers(pool) && c.author == a ==>
              c.displayName == LastName(pool, a) && c.score == Share(ScoreSum(pool, a), TopSum(pool))
  {
    hide Reviewers, PoolAuthors, LastName, ScoreSum, TopSum, StrictlyRanked;
    ReviewersRanking(pool);
    if a in PoolAuthors(pool) {
      ScoreSumNonNegative(pool, a);
      TopSumIsLargest(pool);
      ShareWithin(ScoreSum(pool, a), TopSum(pool));
      assert ExpertCandidate(a, LastName(pool, a), Share(ScoreSum(pool, a), TopSum(pool))) in Reviewers(pool);
    }
  }

  lemma SameMembersSameRanking(p: seq<ExpertCandidate>, q: seq<ExpertCandidate>)
    requires forall c :: c in Reviewers(p) <==> c in Reviewers(q)
    ensures Reviewers(p) == Reviewers(q)
  {
    hide PoolRows, PoolAuthors, StrictlyRanked;
    var rows := PoolRows(q, Sorting.Ascending(PoolAuthors(q)));
    PoolRowsMembers(q, Row("", "", 0.0));
    ReviewersRanking(p);
    forall c ensures c in Reviewers(p) <==> exists row :: row in rows && c == Candidate(row, MaxWeight(rows)) {
      RankedMembers(rows, c);
    }
    RankingUnique(rows, Reviewers(p));
  }

  lemma HintsEqual(cs: seq<SkillContribution>, ds: seq<SkillContribution>, p: Projection)
    ensures HintOf(p, Gather(Skills(cs), p.topics)) == HintOf(p, Gather(Skills(ds), p.topics))
            <==> SameRanking(cs, ds, p.topics)
  {
    hide Pool, Gather, Skills, Reviewers, ScoreSum, NameOf, LastName, PoolAuthors, TopicTotal, OnTopics, Share,
         TopSum, Set;
    var ts := p.topics;
    var x, y := Pool(Gather(Skills(cs), ts), Set(ts)), Pool(Gather(Skills(ds), ts), Set(ts));
    ReviewersEqual(x, y);
    forall a
      ensures ScoreSum(x, a) == TopicTotal(cs, a, ts) && ScoreSum(y, a) == TopicTotal(ds, a, ts)
      ensures a in PoolAuthors(x) <==> OnTopics(cs, a, ts)
      ensures a in PoolAuthors(y) <==> OnTopics(ds, a, ts)
      ensures a in PoolAuthors(x) ==> LastName(x, a) == NameOf(cs, a)
      ensures a in PoolAuthors(y) ==> LastName(y, a) == NameOf(ds, a)
    {
      PoolSums(cs, ts, a);
      PoolSums(ds, ts, a);
    }
  }

  // ---------- a conversation's hints ----------

  /** The hints of a list of messages, from one contribution list. */
  function HintsFor(ports: Ports, cs: seq<SkillContribution>, ms: seq<MessageEnvelope>): (r: seq<RoutingHint>)
    ensures |r| == |ms|
    ensures forall i :: 0 <= i < |ms| ==>
              r[i] == HintOf(Project(ports, ms[i]), Gather(Skills(cs), Project(ports, ms[i]).topics))
  {
    if ms == [] then []
    else
      var p := Project(ports, Last(ms));
      HintsFor(ports, cs, Init(ms)) + [HintOf(p, Gather(Skills(cs), p.topics))]
  }

  lemma {:induction false} GatherHints(
    ports: Ports, log: MessageLog, projected: set<MessageId>, ms: seq<MessageEnvelope>)
    requires forall m :: m in ms ==> m in log
    ensures Gather(Derived(ports, log, projected).hints, Ids(ms))
         == HintsFor(ports, LogContributions(ports, log, projected), Having(ms, projected))
  {
    hide Derived, LogContributions, Project, HintOf, Skills;
    if ms != [] {
      Snoc(ms);
      var m := Last(ms);
      assert m in log && Init(Ids(ms)) == Ids(Init(ms)) && Last(Ids(ms)) == m.id;
      GatherHints(ports, log, projected, Init(ms));
      if m.id in projected {
        DerivedHint(ports, log, projected, m);
        var before := Having(Init(ms), projected);
        assert Init(before + [m]) == before && Last(before + [m]) == m;
      } else {
        NoHint(ports, log, projected, m.id);
      }
    }
  }

  lemma NoHint(ports: Ports, log: MessageLog, projected: set<MessageId>, id: MessageId)
    requires id !in projected
    ensures id !in Derived(ports, log, projected).hints
  {
    hide Projections, Skills, LogContributions;
    ProjectedIds(ports, log, projected);
  }

  lemma DerivedHints(ports: Ports, log: MessageLog, projected: set<MessageId>, c: ConversationId)
    requires c in ConversationIds(log)
    ensures DerivedOf(ports, log, projected, c).Some?
    ensures DerivedOf(ports, log, projected, c).value.hints
         == HintsFor(ports, LogContributions(ports, log, projected), Having(MessagesFor(log, c), projected))
  {
    hide Derived, LogContributions, MessagesFor, ConversationIds, Having, HintsFor, LocalPart;
    DerivedIsLocal(ports, log, projected, c);
    forall m | m in MessagesFor(log, c) ensures m in log {
      InLog(log, c, m);
    }
    GatherHints(ports, log, projected, MessagesFor(log, c));
  }

  /** Hints of two texts that say the same, position by position. */
  lemma HintListsEqual(
    ports: Ports, cs: seq<SkillContribution>, ds: seq<SkillContribution>, ms: seq<MessageEnvelope>,
    ns: seq<MessageEnvelope>)
    requires SameText(ms, ns)
    ensures HintsFor(ports, cs, ms) == HintsFor(ports, ds, ns) <==>
            forall m :: m in ns ==> SameRanking(cs, ds, Project(ports, m).topics)
  {
    hide HintOf, SameRanking, Gather, Skills;
    forall i | 0 <= i < |ns|
      ensures Project(ports, ms[i]) == Project(ports, ns[i])
      ensures HintsFor(ports, cs, ms)[i] == HintsFor(ports, ds, ns)[i]
              <==> SameRanking(cs, ds, Project(ports, ns[i]).topics)
    {
      HintsEqual(cs, ds, Project(ports, ns[i]));
    }
    if HintsFor(ports, cs, ms) == HintsFor(ports, ds, ns) {
      forall m | m in ns ensures SameRanking(cs, ds, Project(ports, m).topics) {
        var i :| 0 <= i < |ns| && ns[i] == m;
        assert HintsFor(ports, cs, ms)[i] == HintsFor(ports, ds, ns)[i];
      }
    }
    if forall m :: m in ns ==> SameRanking(cs, ds, Project(ports, m).topics) {
      forall i | 0 <= i < |ns| ensures HintsFor(ports, cs, ms)[i] == HintsFor(ports, ds, ns)[i] {
        assert ns[i] in ns;
      }
    }
  }

  // ---------- read off the log ----------

  /** The author wrote a projected message on one of the topics. */
  ghost predicate WroteOn(
    ports: Ports, log: seq<MessageEnvelope>, projected: set<MessageId>, a: AuthorId, ts: seq<Topic>)
  {
    exists t :: t in ts && Wrote(ports, log, projected, a, t)
  }

  /** The author's share of the largest total over the topics. */
  function TotalShare(
    ports: Ports, log: seq<MessageEnvelope>, projected: set<MessageId>, a: AuthorId, ts: seq<Topic>): real
  {
    Share(LogTotal(ports, log, projected, a, ts), TopLogTotal(ports, log, projected, log, ts))
  }

  /** Two logs agree on the reviewers of these topics: who wrote on them, under which name, with which share. */
  ghost predicate SameReviewers(
    ports: Ports, was: MessageLog, projected: set<MessageId>, now: MessageLog, all: set<MessageId>, ts: seq<Topic>)
  {
    forall a ::
      && (WroteOn(ports, was, projected, a, ts) <==> WroteOn(ports, now, all, a, ts))
      && (WroteOn(ports, was, projected, a, ts) ==>
            && LogName(was, projected, a) == LogName(now, all, a)
            && TotalShare(ports, was, projected, a, ts) == TotalShare(ports, now, all, a, ts))
  }

  lemma RankingReadsLog(ports: Ports, log: MessageLog, projected: set<MessageId>, a: AuthorId, ts: seq<Topic>)
    ensures var cs := LogContributions(ports, log, projected);
            && (OnTopics(cs, a, ts) <==> WroteOn(ports, log, projected, a, ts))
            && NameOf(cs, a) == LogName(log, projected, a)
            && Share(TopicTotal(cs, a, ts), TopTotal(cs, ts)) == TotalShare(ports, log, projected, a, ts)
  {
    hide LogContributions, Contributed, Wrote, NameOf, LogName, TopicTotal, LogTotal, TopLogTotal, TopSum, Share,
         Pool, Gather;
    forall t
      ensures Contributed(LogContributions(ports, log, projected), a, t) <==> Wrote(ports, log, projected, a, t) {
      ContributedIsWrote(ports, log, projected, a, t);
    }
    NameIsLogName(ports, log, projected, a);
    TotalIsLogTotal(ports, log, projected, a, ts);
    TopSumReadsLog(ports, log, projected, ts);
  }

  lemma SameRankingIsSameReviewers(
    ports: Ports, was: MessageLog, projected: set<MessageId>, now: MessageLog, all: set<MessageId>, ts: seq<Topic>)
    ensures SameRanking(LogContributions(ports, was, projected), LogContributions(ports, now, all), ts)
            <==> SameReviewers(ports, was, projected, now, all, ts)
  {
    hide LogContributions, OnTopics, WroteOn, NameOf, LogName, TopicTotal, TopTotal, TotalShare, Share;
    forall a
      ensures OnTopics(LogContributions(ports, was, projected), a, ts) <==> WroteOn(ports, was, projected, a, ts)
      ensures OnTopics(LogContributions(ports, now, all), a, ts) <==> WroteOn(ports, now, all, a, ts)
      ensures NameOf(LogContributions(ports, was, projected), a) == LogName(was, projected, a)
      ensures NameOf(LogContributions(ports, now, all), a) == LogName(now, all, a)
      ensures Share(TopicTotal(LogContributions(ports, was, projected), a, ts),
                    TopTotal(LogContributions(ports, was, projected), ts)) == TotalShare(ports, was, projected, a, ts)
      ensures Share(TopicTotal(LogContributions(ports, now, all), a, ts),
                    TopTotal(LogContributions(ports, now, all), ts)) == TotalShare(ports, now, all, a, ts)
    {
      RankingReadsLog(ports, was, projected, a, ts);
      RankingReadsLog(ports, now, all, a, ts);
    }
  }

  /**
   * After any history, a hit's hints are what a fresh replay of the current log derives if and only if
   * the hit reports no message as unprojected and, for every message of the conversation, the log of the
   * moment the row was derived and the current log agree on who wrote on its topics, under which name,
   * and with which share of the largest total.
   */
  lemma HitHintsAreFreshExactlyWhen(
    ports: Ports, events: seq<Event>, i: nat, version: string, c: ConversationId)
    requires ValidHistory(NEW_WORLD, events) && Follows(ports, version, events)
    requires var w := After(NEW_WORLD, events);
             var k := KeyFor(version, w.log, c);
             k in w.rows && DerivedAt(events, i, k, w.rows[k])
    ensures var w, was := After(NEW_WORLD, events), After(NEW_WORLD, events[..i]);
            var hit := w.rows[KeyFor(version, w.log, c)];
            && JobOf(was, events[i]).Some? && |JobOf(was, events[i]).value.run| == 6
            && Fresh(ports, w.log, c).Some?
            && (hit.hints == Fresh(ports, w.log, c).value.hints <==>
                  && Missing(w.log, c, hit) == []
                  && forall m :: m in MessagesFor(w.log, c) ==>
                       SameReviewers(ports, was.log, Projected(JobOf(was, events[i]).value.run),
                                     w.log, Set(Ids(w.log)), Project(ports, m).topics))
  {
    hide ValidHistory, After, MessagesFor, Content, ConversationIds, LogContributions, SameReviewers, SameRanking,
         Having,
         LocalPart, ProjectedIn, DerivedOf, Missing, Project, Follows;
    var w, was := After(NEW_WORLD, events), After(NEW_WORLD, events[..i]);
    var hit := w.rows[KeyFor(version, w.log, c)];
    MomentIsLocal(ports, events, i, w.log, version, c, hit);
    MomentKeepsText(events, i, w.log, version, c, hit);
    var projected, all := Projected(JobOf(was, events[i]).value.run), Set(Ids(w.log));
    DerivedHints(ports, was.log, projected, c);
    DerivedHints(ports, w.log, all, c);
    FreshnessOfHints(ports, LogContributions(ports, was.log, projected), LogContributions(ports, w.log, all),
                     MessagesFor(was.log, c), MessagesFor(w.log, c), projected);
    forall m | m in MessagesFor(w.log, c)
      ensures m.id in all
      ensures SameRanking(LogContributions(ports, was.log, projected), LogContributions(ports, w.log, all),
                          Project(ports, m).topics)
              <==> SameReviewers(ports, was.log, projected, w.log, all, Project(ports, m).topics)
    {
      InLog(w.log, c, m);
      SameRankingIsSameReviewers(ports, was.log, projected, w.log, all, Project(ports, m).topics);
    }
    HavingAll(MessagesFor(w.log, c), all);
  }

  lemma FreshnessOfHints(
    ports: Ports, cs: seq<SkillContribution>, ds: seq<SkillContribution>, ms: seq<MessageEnvelope>,
    ns: seq<MessageEnvelope>, projected: set<MessageId>)
    requires SameText(ms, ns)
    ensures HintsFor(ports, cs, Having(ms, projected)) == HintsFor(ports, ds, ns) <==>
            && Outside(Ids(ms), projected) == []
            && forall m :: m in ns ==> SameRanking(cs, ds, Project(ports, m).topics)
  {
    hide SameRanking, Project;
    HavingAll(ms, projected);
    OutsideNone(Ids(ms), projected);
    if m :| m in ms && m.id !in projected {
      var i :| 0 <= i < |ms| && ms[i] == m;
      assert Ids(ms)[i] == m.id;
    } else {
      forall id | id in Ids(ms) ensures id in projected {
        var i :| 0 <= i < |ms| && ms[i].id == id;
        assert ms[i] in ms;
      }
      HintListsEqual(ports, cs, ds, ms, ns);
    }
  }
}
