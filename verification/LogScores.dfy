/**
 * The skill matrix read off the log: what each author's weight, score and name are, in terms of the
 * messages and their projections alone.
 */
module LogScores {
  import opened Confluence
  import opened Domain
  import opened Log
  import opened Pipeline
  import opened Ranking
  import opened Selection
  import opened Sequences
  import opened Skill
  import opened SkillLaws
  import opened Wrappers

  // ---------- the definitions ----------

  /** Each projected message of the author on the topic counts its confidence, once per listing. */
  function LogWeight(ports: Ports, ms: seq<MessageEnvelope>, projected: set<MessageId>, a: AuthorId, t: Topic): real {
    if ms == [] then 0.0
    else
      var m := Last(ms);
      LogWeight(ports, Init(ms), projected, a, t)
      + (if m.id in projected && m.author.id == a
         then Project(ports, m).confidence * (multiset(Project(ports, m).topics)[t] as real)
         else 0.0)
  }

  /** The largest weight on the topic among the authors of `ms`. */
  function TopLogWeight(
    ports: Ports, log: seq<MessageEnvelope>, projected: set<MessageId>, ms: seq<MessageEnvelope>, t: Topic): real
  {
    if ms == [] then 0.0
    else
      Max(TopLogWeight(ports, log, projected, Init(ms), t), LogWeight(ports, log, projected, Last(ms).author.id, t))
  }

  /** The author's share of the largest weight on the topic. */
  function LogScore(ports: Ports, log: seq<MessageEnvelope>, projected: set<MessageId>, a: AuthorId, t: Topic): real {
    Share(LogWeight(ports, log, projected, a, t), TopLogWeight(ports, log, projected, log, t))
  }

  /** The scores on the listed topics added up, with multiplicity. */
  function LogTotal(
    ports: Ports, log: seq<MessageEnvelope>, projected: set<MessageId>, a: AuthorId, ts: seq<Topic>): real
  {
    if ts == [] then 0.0
    else LogTotal(ports, log, projected, a, Init(ts)) + LogScore(ports, log, projected, a, Last(ts))
  }

  /** The name on the author's last projected message. */
  function LogName(log: seq<MessageEnvelope>, projected: set<MessageId>, a: AuthorId): string {
    AuthorName(Having(log, projected), a)
  }

  // ---------- they are the skill builder's ----------

  /** What a projected message contributes. */
  function Contribution(ports: Ports, m: MessageEnvelope): SkillContribution {
    SkillContribution(m.author.id, m.author.displayName, Project(ports, m).topics, Project(ports, m).confidence)
  }

  /** The skill job makes one contribution of each entry whose message is projected, in order, repeats included. */
  lemma {:induction false} ContributionsAre(projections: map<MessageId, Projection>, entries: seq<SkillEntry>)
    ensures Selects(
              entries, Contributions(projections, entries),
              (e: SkillEntry) =>
                if e.message in projections
                then Some(SkillContribution(e.author, e.displayName, projections[e.message].topics,
                                            projections[e.message].confidence))
                else None)
  {
    if entries != [] {
      ContributionsAre(projections, Init(entries));
      SelectsNext(
        entries, Contributions(projections, Init(entries)),
        (e: SkillEntry) =>
          if e.message in projections
          then Some(SkillContribution(e.author, e.displayName, projections[e.message].topics,
                                      projections[e.message].confidence))
          else None);
    }
  }

  lemma NextContribution(
    ports: Ports, log: MessageLog, projected: set<MessageId>, ms: seq<MessageEnvelope>)
    requires ms != [] && forall m :: m in ms ==> m in log
    ensures var ps := Projections(ports, log, projected);
            Contributions(ps, Entries(ms))
            == Contributions(ps, Entries(Init(ms)))
               + (if Last(ms).id in projected then [Contribution(ports, Last(ms))] else [])
  {
    hide Projections, Project;
    var m := Last(ms);
    assert m in log && Init(Entries(ms)) == Entries(Init(ms));
    assert Last(Entries(ms)) == SkillEntry(m.author.id, m.author.displayName, m.id);
    ProjectedIds(ports, log, projected);
    if m.id in projected {
      ProjectionAt(ports, log, projected, m);
    }
  }

  /** The skill stage gets one contribution per projected message, in log order, repeats included. */
  lemma {:induction false} EntriesSelect(
    ports: Ports, log: MessageLog, projected: set<MessageId>, ms: seq<MessageEnvelope>)
    requires forall m :: m in ms ==> m in log
    ensures Selects(ms, Contributions(Projections(ports, log, projected), Entries(ms)),
                    (m: MessageEnvelope) => if m.id in projected then Some(Contribution(ports, m)) else None)
  {
    hide Projections, Contribution;
    if ms != [] {
      Snoc(ms);
      NextContribution(ports, log, projected, ms);
      EntriesSelect(ports, log, projected, Init(ms));
      SelectsNext(ms, Contributions(Projections(ports, log, projected), Entries(Init(ms))),
                  (m: MessageEnvelope) => if m.id in projected then Some(Contribution(ports, m)) else None);
    }
  }

  lemma ContributionsSelect(ports: Ports, log: MessageLog, projected: set<MessageId>)
    ensures Selects(log, LogContributions(ports, log, projected),
                    (m: MessageEnvelope) => if m.id in projected then Some(Contribution(ports, m)) else None)
  {
    EntriesSelect(ports, log, projected, log);
  }

  lemma ContributionGain(ports: Ports, m: MessageEnvelope, a: AuthorId, t: Topic)
    ensures GainFor(Contribution(ports, m), a, t)
         == if m.author.id == a
            then Project(ports, m).confidence * (multiset(Project(ports, m).topics)[t] as real)
            else 0.0
  {
    var p := Project(ports, m);
    GainCounts(p.topics, p.confidence, t);
    TimesIsProduct(p.confidence, multiset(p.topics)[t]);
  }

  lemma WeightNext(cs: seq<SkillContribution>, c: SkillContribution, a: AuthorId, t: Topic)
    ensures Weight(cs + [c], a, t) == Weight(cs, a, t) + GainFor(c, a, t)
  {
    assert Init(cs + [c]) == cs && Last(cs + [c]) == c;
  }

  lemma {:induction false} EntriesWeigh(
    ports: Ports, log: MessageLog, projected: set<MessageId>, ms: seq<MessageEnvelope>, a: AuthorId, t: Topic)
    requires forall m :: m in ms ==> m in log
    ensures Weight(Contributions(Projections(ports, log, projected), Entries(ms)), a, t)
         == LogWeight(ports, ms, projected, a, t)
  {
    hide Projections, Contribution, Project, GainFor;
    if ms != [] {
      Snoc(ms);
      NextContribution(ports, log, projected, ms);
      EntriesWeigh(ports, log, projected, Init(ms), a, t);
      hide Contributions, Weight;
      var before := Contributions(Projections(ports, log, projected), Entries(Init(ms)));
      WeightNext(before, Contribution(ports, Last(ms)), a, t);
      ContributionGain(ports, Last(ms), a, t);
      assert before + [] == before;
    }
  }

  /** The weight behind an ownership is what the author's projected messages add up to. */
  lemma WeightIsLogWeight(ports: Ports, log: MessageLog, projected: set<MessageId>, a: AuthorId, t: Topic)
    ensures Weight(LogContributions(ports, log, projected), a, t) == LogWeight(ports, log, projected, a, t)
    ensures LogWeight(ports, log, projected, a, t) >= 0.0
  {
    EntriesWeigh(ports, log, projected, log, a, t);
    WeightNonNegative(LogContributions(ports, log, projected), a, t);
  }

  lemma {:induction false} EntriesName(
    ports: Ports, log: MessageLog, projected: set<MessageId>, ms: seq<MessageEnvelope>, a: AuthorId)
    requires forall m :: m in ms ==> m in log
    ensures NameOf(Contributions(Projections(ports, log, projected), Entries(ms)), a) == LogName(ms, projected, a)
  {
    hide Projections, Project;
    if ms != [] {
      Snoc(ms);
      NextContribution(ports, log, projected, ms);
      EntriesName(ports, log, projected, Init(ms), a);
      var cs, c := Contributions(Projections(ports, log, projected), Entries(Init(ms))), Contribution(ports, Last(ms));
      var before := Having(Init(ms), projected);
      hide Contributions;
      assert Init(cs + [c]) == cs && Last(cs + [c]) == c;
      assert Init(before + [Last(ms)]) == before && Last(before + [Last(ms)]) == Last(ms);
      assert cs + [] == cs && before + [] == before;
    }
  }

  lemma NameIsLogName(ports: Ports, log: MessageLog, projected: set<MessageId>, a: AuthorId)
    ensures NameOf(LogContributions(ports, log, projected), a) == LogName(log, projected, a)
  {
    EntriesName(ports, log, projected, log, a);
  }

  /** The name is the one on the author's last projected message. */
  lemma LogNameIsLastSeen(log: seq<MessageEnvelope>, projected: set<MessageId>, a: AuthorId)
    requires exists m :: m in log && m.id in projected && m.author.id == a
    ensures exists i :: 0 <= i < |log| && log[i].id in projected && log[i].author.id == a
                        && log[i].author.displayName == LogName(log, projected, a)
                        && forall j :: i < j < |log| && log[j].id in projected ==> log[j].author.id != a
  {
    LastProjected(log, projected, a);
  }

  lemma {:induction false} LastProjected(ms: seq<MessageEnvelope>, projected: set<MessageId>, a: AuthorId)
    requires exists m :: m in ms && m.id in projected && m.author.id == a
    ensures exists i :: 0 <= i < |ms| && ms[i].id in projected && ms[i].author.id == a
                        && ms[i].author.displayName == LogName(ms, projected, a)
                        && forall j :: i < j < |ms| && ms[j].id in projected ==> ms[j].author.id != a
  {
    Snoc(ms);
    var last, before := Last(ms), Having(Init(ms), projected);
    assert Init(before + [last]) == before && Last(before + [last]) == last && before + [] == before;
    if last.id in projected && last.author.id == a {
      assert ms[|ms| - 1] == last;
    } else {
      LastProjected(Init(ms), projected, a);
      var i :| 0 <= i < |Init(ms)| && Init(ms)[i].id in projected && Init(ms)[i].author.id == a
               && Init(ms)[i].author.displayName == LogName(Init(ms), projected, a)
               && forall j :: i < j < |Init(ms)| && Init(ms)[j].id in projected ==> Init(ms)[j].author.id != a;
      assert ms[i] == Init(ms)[i];
      assert forall j :: i < j < |ms| - 1 ==> ms[j] == Init(ms)[j];
    }
  }

  // ---------- the largest weight ----------

  lemma {:induction false} TopLogBounds(
    ports: Ports, log: seq<MessageEnvelope>, projected: set<MessageId>, ms: seq<MessageEnvelope>, t: Topic)
    ensures TopLogWeight(ports, log, projected, ms, t) >= 0.0
    ensures forall m :: m in ms ==>
              LogWeight(ports, log, projected, m.author.id, t) <= TopLogWeight(ports, log, projected, ms, t)
    ensures TopLogWeight(ports, log, projected, ms, t) == 0.0
            || exists a :: LogWeight(ports, log, projected, a, t) == TopLogWeight(ports, log, projected, ms, t)
  {
    hide LogWeight;
    if ms != [] {
      Snoc(ms);
      TopLogBounds(ports, log, projected, Init(ms), t);
    }
  }

  lemma {:induction false} NobodysWeight(
    ports: Ports, ms: seq<MessageEnvelope>, projected: set<MessageId>, a: AuthorId, t: Topic)
    requires forall m :: m in ms ==> m.author.id != a
    ensures LogWeight(ports, ms, projected, a, t) == 0.0
  {
    if ms != [] {
      Snoc(ms);
      NobodysWeight(ports, Init(ms), projected, a, t);
    }
  }

  /** The largest weight bounds every author's and is one of them, or zero. */
  lemma TopLogWeightIsLargest(ports: Ports, log: MessageLog, projected: set<MessageId>, t: Topic)
    ensures var top := TopLogWeight(ports, log, projected, log, t);
            && top >= 0.0
            && (forall a :: LogWeight(ports, log, projected, a, t) <= top)
            && (top == 0.0 || exists a :: LogWeight(ports, log, projected, a, t) == top)
  {
    hide LogWeight, TopLogWeight;
    TopLogBounds(ports, log, projected, log, t);
    forall a ensures LogWeight(ports, log, projected, a, t) <= TopLogWeight(ports, log, projected, log, t) {
      if m :| m in log && m.author.id == a {
      } else {
        NobodysWeight(ports, log, projected, a, t);
      }
    }
  }

  lemma TopWeightIsLargest(cs: seq<SkillContribution>, t: Topic)
    ensures TopWeight(cs, t) >= 0.0
    ensures forall a :: Weight(cs, a, t) <= TopWeight(cs, t)
    ensures TopWeight(cs, t) == 0.0 || exists a :: Weight(cs, a, t) == TopWeight(cs, t)
  {
    hide Contributors, Weight;
    var rows := Contributors(cs, t);
    forall a ensures Weight(cs, a, t) <= TopWeight(cs, t) {
      ContributorsMembers(cs, t, WeightRow(cs, a, t));
      if !Contributed(cs, a, t) {
        WeightZero(cs, a, t);
      }
    }
    MaxWeightAttained(rows);
    if row :| row in rows && row.weight == MaxWeight(rows) {
      ContributorsMembers(cs, t, row);
      assert Weight(cs, row.author, t) == TopWeight(cs, t);
    }
  }

  /** A score of the skill index is the author's share of the largest weight read off the log. */
  lemma ScoreIsLogScore(ports: Ports, log: MessageLog, projected: set<MessageId>, a: AuthorId, t: Topic)
    ensures ScoreOf(LogContributions(ports, log, projected), a, t) == LogScore(ports, log, projected, a, t)
  {
    hide LogContributions, Weight, LogWeight, TopWeight, TopLogWeight, Share;
    var cs := LogContributions(ports, log, projected);
    forall b ensures Weight(cs, b, t) == LogWeight(ports, log, projected, b, t) {
      WeightIsLogWeight(ports, log, projected, b, t);
    }
    TopWeightIsLargest(cs, t);
    TopLogWeightIsLargest(ports, log, projected, t);
  }

  // ---------- totals over several topics ----------

  /** The largest total over the topics among the authors of `ms`. */
  function TopLogTotal(
    ports: Ports, log: seq<MessageEnvelope>, projected: set<MessageId>, ms: seq<MessageEnvelope>, ts: seq<Topic>): real
  {
    if ms == [] then 0.0
    else
      Max(TopLogTotal(ports, log, projected, Init(ms), ts), LogTotal(ports, log, projected, Last(ms).author.id, ts))
  }

  lemma LogScoreRange(ports: Ports, log: MessageLog, projected: set<MessageId>, a: AuthorId, t: Topic)
    ensures 0.0 <= LogScore(ports, log, projected, a, t) <= 1.0
    ensures (forall m :: m in log ==> m.author.id != a) ==> LogScore(ports, log, projected, a, t) == 0.0
  {
    hide LogWeight, TopLogWeight;
    WeightIsLogWeight(ports, log, projected, a, t);
    TopLogWeightIsLargest(ports, log, projected, t);
    ShareWithin(LogWeight(ports, log, projected, a, t), TopLogWeight(ports, log, projected, log, t));
    if forall m :: m in log ==> m.author.id != a {
      NobodysWeight(ports, log, projected, a, t);
    }
  }

  lemma {:induction false} LogTotalRange(
    ports: Ports, log: MessageLog, projected: set<MessageId>, a: AuthorId, ts: seq<Topic>)
    ensures LogTotal(ports, log, projected, a, ts) >= 0.0
    ensures (forall m :: m in log ==> m.author.id != a) ==> LogTotal(ports, log, projected, a, ts) == 0.0
  {
    if ts != [] {
      hide LogScore;
      LogTotalRange(ports, log, projected, a, Init(ts));
      LogScoreRange(ports, log, projected, a, Last(ts));
    }
  }

  lemma {:induction false} TopTotalBounds(
    ports: Ports, log: seq<MessageEnvelope>, projected: set<MessageId>, ms: seq<MessageEnvelope>, ts: seq<Topic>)
    ensures TopLogTotal(ports, log, projected, ms, ts) >= 0.0
    ensures forall m :: m in ms ==>
              LogTotal(ports, log, projected, m.author.id, ts) <= TopLogTotal(ports, log, projected, ms, ts)
    ensures TopLogTotal(ports, log, projected, ms, ts) == 0.0
            || exists a :: LogTotal(ports, log, projected, a, ts) == TopLogTotal(ports, log, projected, ms, ts)
  {
    hide LogTotal;
    if ms != [] {
      Snoc(ms);
      TopTotalBounds(ports, log, projected, Init(ms), ts);
    }
  }

  /** The largest total bounds every author's and is one of them, or zero. */
  lemma TopLogTotalIsLargest(ports: Ports, log: MessageLog, projected: set<MessageId>, ts: seq<Topic>)
    ensures var top := TopLogTotal(ports, log, projected, log, ts);
            && top >= 0.0
            && (forall a :: LogTotal(ports, log, projected, a, ts) <= top)
            && (top == 0.0 || exists a :: LogTotal(ports, log, projected, a, ts) == top)
  {
    hide LogTotal, TopLogTotal;
    TopTotalBounds(ports, log, projected, log, ts);
    forall a ensures LogTotal(ports, log, projected, a, ts) <= TopLogTotal(ports, log, projected, log, ts) {
      if m :| m in log && m.author.id == a {
      } else {
        LogTotalRange(ports, log, projected, a, ts);
      }
    }
  }
}
