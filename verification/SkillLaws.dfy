/** What the skill index means: transpose, conservation, order independence, ranking. */
module SkillLaws {
  import opened Domain
  import opened Ranking
  import opened Sequences
  import opened Skill
  import opened Sorting
  import opened Sums

  // ---------- weights ----------

  /** `value` added up `n` times. */
  function Times(value: real, n: nat): real {
    if n == 0 then 0.0 else Times(value, n - 1) + value
  }

  lemma {:induction false} TimesIsProduct(value: real, n: nat)
    ensures Times(value, n) == value * (n as real)
  {
    if n > 0 {
      TimesIsProduct(value, n - 1);
    }
  }

  /** A contribution counts its confidence once per occurrence of the topic. */
  lemma {:induction false} GainCounts(topics: seq<Topic>, confidence: real, t: Topic)
    ensures Gain(topics, confidence, t) == Times(confidence, multiset(topics)[t])
  {
    if topics != [] {
      Snoc(topics);
      GainCounts(Init(topics), confidence, t);
    }
  }

  lemma {:induction false} GainNonNegative(topics: seq<Topic>, confidence: real, t: Topic)
    requires confidence >= 0.0
    ensures Gain(topics, confidence, t) >= 0.0
  {
    if topics != [] {
      GainNonNegative(Init(topics), confidence, t);
    }
  }

  lemma {:induction false} WeightNonNegative(cs: seq<SkillContribution>, a: AuthorId, t: Topic)
    ensures Weight(cs, a, t) >= 0.0
  {
    if cs != [] {
      WeightNonNegative(Init(cs), a, t);
      GainNonNegative(Last(cs).topics, Last(cs).confidence, t);
    }
  }

  /** The author contributed to the topic: some contribution of theirs carries it. */
  ghost predicate Contributed(cs: seq<SkillContribution>, a: AuthorId, t: Topic) {
    exists c :: c in cs && c.author == a && t in c.topics
  }

  lemma {:induction false} RowsMembers(
    cs: seq<SkillContribution>, authors: seq<AuthorId>, t: Topic, row: Row)
    ensures row in Rows(cs, authors, t) <==>
            row.author in authors && t in Touched(cs, row.author) && row == WeightRow(cs, row.author, t)
  {
    if authors != [] {
      Snoc(authors);
      RowsMembers(cs, Init(authors), t, row);
    }
  }

  lemma {:induction false} RowsDistinct(cs: seq<SkillContribution>, authors: seq<AuthorId>, t: Topic)
    requires Distinct(authors)
    ensures DistinctAuthors(Rows(cs, authors, t))
  {
    if authors != [] {
      Snoc(authors);
      RowsDistinct(cs, Init(authors), t);
      var rows := Rows(cs, Init(authors), t);
      forall i | 0 <= i < |rows| ensures rows[i].author != Last(authors) {
        RowsMembers(cs, Init(authors), t, rows[i]);
      }
    }
  }

  /** A topic's rows are exactly its contributors, once each, with their weights. */
  lemma ContributorsMembers(cs: seq<SkillContribution>, t: Topic, row: Row)
    ensures row in Contributors(cs, t) <==>
            Contributed(cs, row.author, t) && row == WeightRow(cs, row.author, t)
    ensures row in Contributors(cs, t) ==> row.weight >= 0.0
  {
    RowsMembers(cs, Ascending(Authors(cs)), t, row);
    WeightNonNegative(cs, row.author, t);
    if Contributed(cs, row.author, t) {
      assert row.author in Authors(cs) && t in Touched(cs, row.author);
    }
  }

  lemma ContributorsDistinct(cs: seq<SkillContribution>, t: Topic)
    ensures DistinctAuthors(Contributors(cs, t))
    ensures forall row :: row in Contributors(cs, t) ==> row.weight >= 0.0
  {
    AscendingDistinct(Authors(cs));
    RowsDistinct(cs, Ascending(Authors(cs)), t);
    forall row | row in Contributors(cs, t) ensures row.weight >= 0.0 {
      ContributorsMembers(cs, t, row);
    }
  }

  /** The display name is the one on the author's last contribution. */
  lemma NameIsLastSeen(cs: seq<SkillContribution>, a: AuthorId)
    requires a in Authors(cs)
    ensures exists i :: 0 <= i < |cs| && cs[i].author == a && cs[i].displayName == NameOf(cs, a)
                        && forall j :: i < j < |cs| ==> cs[j].author != a
  {
    LastSeenIsLast(cs, (c: SkillContribution) => c.author, (c: SkillContribution) => c.displayName, a);
  }

  // ---------- ranking ----------

  /** The largest weight any author has on a topic. */
  function TopWeight(cs: seq<SkillContribution>, t: Topic): real {
    MaxWeight(Contributors(cs, t))
  }

  function ScoreOf(cs: seq<SkillContribution>, a: AuthorId, t: Topic): real {
    Share(Weight(cs, a, t), TopWeight(cs, t))
  }

  function Expert(cs: seq<SkillContribution>, a: AuthorId, t: Topic): ExpertCandidate {
    Candidate(WeightRow(cs, a, t), TopWeight(cs, t))
  }

  /**
   * Each topic's candidates are exactly its contributors, once each, in strict rank order; scores
   * are the normalised weights and order as the weights do; the head scores 1 when any weight is positive.
   */
  lemma OwnershipRanking(cs: seq<SkillContribution>, t: Topic)
    ensures var ranked := Ownership(cs, t).candidates;
            && StrictlyRanked(ranked)
            && (forall c :: c in ranked <==> Contributed(cs, c.author, t) && c == Expert(cs, c.author, t))
            && (forall i, j :: 0 <= i < j < |ranked| ==> ranked[i].author != ranked[j].author)
            && (TopWeight(cs, t) > 0.0 ==> ranked != [] && ranked[0].score == 1.0)
            && (TopWeight(cs, t) == 0.0 ==> forall c :: c in ranked ==> c.score == 0.0)
  {
    var rows := Contributors(cs, t);
    ContributorsDistinct(cs, t);
    RankedIsStrict(rows);
    if TopWeight(cs, t) > 0.0 {
      HeadScoresOne(rows);
    }
    forall c ensures c in Ranked(rows) <==> Contributed(cs, c.author, t) && c == Expert(cs, c.author, t) {
      RankedMembers(rows, c);
      ContributorsMembers(cs, t, WeightRow(cs, c.author, t));
      if c in Ranked(rows) {
        var row :| row in rows && c == Candidate(row, MaxWeight(rows));
        ContributorsMembers(cs, t, row);
      }
    }
  }

  lemma ScoresFollowWeights(cs: seq<SkillContribution>, t: Topic, a: AuthorId, b: AuthorId)
    requires Contributed(cs, a, t) && Contributed(cs, b, t)
    ensures Expert(cs, a, t).score < Expert(cs, b, t).score <==> Weight(cs, a, t) < Weight(cs, b, t)
  {
    ContributorsMembers(cs, t, WeightRow(cs, a, t));
    ContributorsMembers(cs, t, WeightRow(cs, b, t));
    ScoresOrderAsWeights(Contributors(cs, t), WeightRow(cs, a, t), WeightRow(cs, b, t));
  }

  lemma ScoreIsShare(cs: seq<SkillContribution>, t: Topic, a: AuthorId)
    requires Contributed(cs, a, t)
    ensures Expert(cs, a, t).score == ScoreOf(cs, a, t)
  {
    ContributorsMembers(cs, t, WeightRow(cs, a, t));
    ShareWithin(Weight(cs, a, t), TopWeight(cs, t));
  }

  // ---------- transpose ----------

  /** `a` appears under `t` in the profiles with weight `w`. */
  ghost predicate InProfiles(index: SkillIndex, a: AuthorId, t: Topic, w: real) {
    exists p :: p in index.profiles && p.author == a && TopicWeight(t, w) in p.topics
  }

  ghost predicate InOwnerships(index: SkillIndex, a: AuthorId, t: Topic) {
    exists o, c :: o in index.ownerships && o.topic == t && c in o.candidates && c.author == a
  }

  lemma TopicWeightMembers(cs: seq<SkillContribution>, a: AuthorId, ts: seq<Topic>, t: Topic, w: real)
    ensures TopicWeight(t, w) in TopicWeights(cs, a, ts) <==> t in ts && w == Weight(cs, a, t)
  {
    var tw := TopicWeights(cs, a, ts);
    if t in ts && w == Weight(cs, a, t) {
      var j :| 0 <= j < |ts| && ts[j] == t;
      assert tw[j] == TopicWeight(t, w);
    }
  }

  lemma ProfilesMembers(cs: seq<SkillContribution>, authors: seq<AuthorId>, p: DeveloperProfile)
    ensures p in Profiles(cs, authors) <==> p.author in authors && p == Profile(cs, p.author)
  {
    var ps := Profiles(cs, authors);
    if p.author in authors && p == Profile(cs, p.author) {
      var i :| 0 <= i < |authors| && authors[i] == p.author;
      assert ps[i] == p;
    }
  }

  lemma ProfileMembers(cs: seq<SkillContribution>, a: AuthorId, t: Topic, w: real)
    ensures InProfiles(Index(cs), a, t, w) <==> Contributed(cs, a, t) && w == Weight(cs, a, t)
  {
    TopicWeightMembers(cs, a, Ascending(Touched(cs, a)), t, w);
    ProfilesMembers(cs, Ascending(Authors(cs)), Profile(cs, a));
    if InProfiles(Index(cs), a, t, w) {
      var p :| p in Index(cs).profiles && p.author == a && TopicWeight(t, w) in p.topics;
      ProfilesMembers(cs, Ascending(Authors(cs)), p);
    }
    if Contributed(cs, a, t) {
      assert a in Authors(cs) && t in Touched(cs, a);
    }
  }

  lemma OwnershipMembers(cs: seq<SkillContribution>, o: TopicOwnership)
    ensures o in Index(cs).ownerships <==> o.topic in Topics(cs) && o == Ownership(cs, o.topic)
  {
    var ts := Ascending(Topics(cs));
    if o in Index(cs).ownerships {
      var i :| 0 <= i < |ts| && Index(cs).ownerships[i] == o;
      assert ts[i] in ts;
    }
    if o.topic in Topics(cs) && o == Ownership(cs, o.topic) {
      assert o.topic in ts;
      var i :| 0 <= i < |ts| && ts[i] == o.topic;
      assert Index(cs).ownerships[i] == o;
    }
  }

  /** The index lists one ownership per topic, in ascending order. */
  lemma OwnershipsInOrder(cs: seq<SkillContribution>)
    ensures var os := Index(cs).ownerships;
            && (forall i, j :: 0 <= i < j < |os| ==> Lt(os[i].topic, os[j].topic))
            && (forall t :: t in Topics(cs) <==> exists o :: o in os && o.topic == t)
  {
    hide Ownership, Topics, Profiles;
    var ts, os := Ascending(Topics(cs)), Index(cs).ownerships;
    forall t ensures Ownership(cs, t).topic == t {
      OwnedTopic(cs, t);
    }
    forall t ensures t in Topics(cs) <==> exists o :: o in os && o.topic == t {
      if t in Topics(cs) {
        var i :| 0 <= i < |ts| && ts[i] == t;
        assert os[i] in os;
      }
      if o :| o in os && o.topic == t {
        var i :| 0 <= i < |os| && os[i] == o;
        assert ts[i] in ts;
      }
    }
  }

  /**
   * The index lists one profile per author, in ascending order, under their last-seen name, with their
   * topics in ascending order.
   */
  lemma ProfilesInOrder(cs: seq<SkillContribution>)
    ensures var ps := Index(cs).profiles;
            && (forall i, j :: 0 <= i < j < |ps| ==> Lt(ps[i].author, ps[j].author))
            && (forall a :: a in Authors(cs) <==> exists p :: p in ps && p.author == a)
            && (forall p :: p in ps ==>
                  && p.displayName == NameOf(cs, p.author)
                  && (forall i, j :: 0 <= i < j < |p.topics| ==> Lt(p.topics[i].topic, p.topics[j].topic)))
  {
    hide Ownerships, NameOf, TopicWeights, Authors, Profile;
    var authors, ps := Ascending(Authors(cs)), Index(cs).profiles;
    forall a ensures Profile(cs, a).author == a && Profile(cs, a).displayName == NameOf(cs, a) {
      ProfileSays(cs, a);
    }
    forall a ensures a in Authors(cs) <==> exists p :: p in ps && p.author == a {
      if a in Authors(cs) {
        var i :| 0 <= i < |authors| && authors[i] == a;
        assert ps[i] in ps;
      }
      if p :| p in ps && p.author == a {
        var i :| 0 <= i < |ps| && ps[i] == p;
        assert authors[i] in authors;
      }
    }
    forall p | p in ps ensures p == Profile(cs, p.author) {
      ProfilesMembers(cs, authors, p);
    }
    forall p | p in ps
      ensures forall i, j :: 0 <= i < j < |p.topics| ==> Lt(p.topics[i].topic, p.topics[j].topic) {
      ProfileSays(cs, p.author);
    }
  }

  lemma ProfileSays(cs: seq<SkillContribution>, a: AuthorId)
    ensures var p := Profile(cs, a);
            && p.author == a && p.displayName == NameOf(cs, a)
            && (forall i, j :: 0 <= i < j < |p.topics| ==> Lt(p.topics[i].topic, p.topics[j].topic))
  {
    hide NameOf, Touched, Weight;
  }

  lemma OwnedTopic(cs: seq<SkillContribution>, t: Topic)
    ensures Ownership(cs, t).topic == t
  {
  }

  /** Ownerships are the exact transpose of profiles. */
  lemma OwnershipsTransposeProfiles(cs: seq<SkillContribution>, a: AuthorId, t: Topic)
    ensures InOwnerships(Index(cs), a, t) <==> InProfiles(Index(cs), a, t, Weight(cs, a, t))
    ensures InOwnerships(Index(cs), a, t) <==> Contributed(cs, a, t)
  {
    ProfileMembers(cs, a, t, Weight(cs, a, t));
    OwnershipRanking(cs, t);
    if InOwnerships(Index(cs), a, t) {
      var o, c :| o in Index(cs).ownerships && o.topic == t && c in o.candidates && c.author == a;
      OwnershipMembers(cs, o);
    }
    if Contributed(cs, a, t) {
      assert t in Topics(cs);
      OwnershipMembers(cs, Ownership(cs, t));
      assert Expert(cs, a, t) in Ownership(cs, t).candidates;
    }
  }

  // ---------- conservation ----------

  function SumTopicWeights(ts: seq<TopicWeight>): real {
    if ts == [] then 0.0 else SumTopicWeights(Init(ts)) + Last(ts).weight
  }

  function SumProfiles(ps: seq<DeveloperProfile>): real {
    if ps == [] then 0.0 else SumProfiles(Init(ps)) + SumTopicWeights(Last(ps).topics)
  }

  /** What the contributions bring in: each its confidence per listed topic. */
  function Contribution(cs: seq<SkillContribution>): real {
    if cs == [] then 0.0
    else Contribution(Init(cs)) + Times(Last(cs).confidence, |Last(cs).topics|)
  }

  lemma {:induction false} SumTopicWeightsIsSum(
    cs: seq<SkillContribution>, a: AuthorId, ts: seq<Topic>, f: Topic -> real)
    requires forall t :: f(t) == Weight(cs, a, t)
    ensures SumTopicWeights(TopicWeights(cs, a, ts)) == Sum(f, ts)
  {
    if ts != [] {
      SumTopicWeightsIsSum(cs, a, Init(ts), f);
      assert Init(TopicWeights(cs, a, ts)) == TopicWeights(cs, a, Init(ts));
    }
  }

  /** The weight an author holds over the topics `ts`. */
  ghost function Held(cs: seq<SkillContribution>, a: AuthorId, ts: seq<Topic>): real {
    Sum(t => Weight(cs, a, t), ts)
  }

  lemma HeldByTouched(cs: seq<SkillContribution>, a: AuthorId, ts: seq<Topic>)
    requires Distinct(ts) && forall t :: t in Topics(cs) ==> t in ts
    ensures SumTopicWeights(Profile(cs, a).topics) == Held(cs, a, ts)
  {
    var f := t => Weight(cs, a, t);
    var touched := Ascending(Touched(cs, a));
    SumTopicWeightsIsSum(cs, a, touched, f);
    AscendingDistinct(Touched(cs, a));
    forall t | t !in touched ensures f(t) == 0.0 {
      WeightZero(cs, a, t);
    }
    assert forall t :: t in touched ==> t in Topics(cs);
    SumExtend(f, touched, ts);
  }

  lemma {:induction false} SumProfilesIsSum(
    cs: seq<SkillContribution>, authors: seq<AuthorId>, ts: seq<Topic>, f: AuthorId -> real)
    requires Distinct(ts) && forall t :: t in Topics(cs) ==> t in ts
    requires forall a :: f(a) == Held(cs, a, ts)
    ensures SumProfiles(Profiles(cs, authors)) == Sum(f, authors)
  {
    if authors != [] {
      SumProfilesIsSum(cs, Init(authors), ts, f);
      assert Init(Profiles(cs, authors)) == Profiles(cs, Init(authors));
      HeldByTouched(cs, Last(authors), ts);
    }
  }

  lemma {:induction false} GainsSum(topics: seq<Topic>, confidence: real, ts: seq<Topic>, f: Topic -> real)
    requires Distinct(ts) && forall t :: t in topics ==> t in ts
    requires forall t :: f(t) == Gain(topics, confidence, t)
    ensures Sum(f, ts) == Times(confidence, |topics|)
  {
    if topics == [] {
      SumSame(f, t => 0.0, ts);
      SumExtend(t => 0.0, [], ts);
    } else {
      Snoc(topics);
      var g := t => Gain(Init(topics), confidence, t);
      var h := t => if Last(topics) == t then confidence else 0.0;
      GainsSum(Init(topics), confidence, ts, g);
      SumSingle(h, ts, Last(topics));
      SumAdds(f, g, h, ts);
    }
  }

  lemma {:induction false} HeldTotals(
    cs: seq<SkillContribution>, authors: seq<AuthorId>, ts: seq<Topic>, f: AuthorId -> real)
    requires Distinct(authors) && forall a :: a in Authors(cs) ==> a in authors
    requires Distinct(ts) && forall t :: t in Topics(cs) ==> t in ts
    requires forall a :: f(a) == Held(cs, a, ts)
    ensures Sum(f, authors) == Contribution(cs)
  {
    if cs == [] {
      forall a ensures f(a) == 0.0 {
        var w := t => Weight(cs, a, t);
        SumExtend(w, [], ts);
      }
      SumExtend(f, [], authors);
    } else {
      Snoc(cs);
      assert Last(cs) in cs && Last(cs).author in Authors(cs);
      assert forall t :: t in Last(cs).topics ==> t in Topics(cs);
      var g := a => Held(Init(cs), a, ts);
      var h := a => HeldGain(Last(cs), a, ts);
      forall a ensures f(a) == g(a) + h(a) {
        HeldStep(cs, a, ts);
      }
      SumAdds(f, g, h, authors);
      HeldTotals(Init(cs), authors, ts, g);
      GainTotals(Last(cs), authors, ts, h);
    }
  }

  ghost function HeldGain(c: SkillContribution, a: AuthorId, ts: seq<Topic>): real {
    Sum(t => GainFor(c, a, t), ts)
  }

  lemma HeldStep(cs: seq<SkillContribution>, a: AuthorId, ts: seq<Topic>)
    requires cs != []
    ensures Held(cs, a, ts) == Held(Init(cs), a, ts) + HeldGain(Last(cs), a, ts)
  {
    var c := Last(cs);
    SumAdds(t => Weight(cs, a, t), t => Weight(Init(cs), a, t), t => GainFor(c, a, t), ts);
  }

  lemma GainTotals(c: SkillContribution, authors: seq<AuthorId>, ts: seq<Topic>, h: AuthorId -> real)
    requires Distinct(authors) && c.author in authors
    requires Distinct(ts) && forall t :: t in c.topics ==> t in ts
    requires forall a :: h(a) == HeldGain(c, a, ts)
    ensures Sum(h, authors) == Times(c.confidence, |c.topics|)
  {
    forall a | a != c.author ensures h(a) == 0.0 {
      SumExtend(t => GainFor(c, a, t), [], ts);
    }
    SumSingle(h, authors, c.author);
    GainsSum(c.topics, c.confidence, ts, t => GainFor(c, c.author, t));
  }

  /** Conservation: all weights together are the confidence brought in, once per listed topic. */
  lemma WeightsAreConserved(cs: seq<SkillContribution>)
    ensures SumProfiles(Index(cs).profiles) == Contribution(cs)
  {
    var authors, ts := Ascending(Authors(cs)), Ascending(Topics(cs));
    AscendingDistinct(Authors(cs));
    AscendingDistinct(Topics(cs));
    var f := a => Held(cs, a, ts);
    SumProfilesIsSum(cs, authors, ts, f);
    HeldTotals(cs, authors, ts, f);
  }

  // ---------- order independence ----------

  lemma {:induction false} WeightConcat(
    cs: seq<SkillContribution>, ds: seq<SkillContribution>, a: AuthorId, t: Topic)
    ensures Weight(cs + ds, a, t) == Weight(cs, a, t) + Weight(ds, a, t)
  {
    if ds == [] {
      assert cs + ds == cs;
    } else {
      assert Init(cs + ds) == cs + Init(ds) && Last(cs + ds) == Last(ds);
      WeightConcat(cs, Init(ds), a, t);
    }
  }

  lemma WeightWithout(cs: seq<SkillContribution>, i: nat, a: AuthorId, t: Topic)
    requires i < |cs|
    ensures Weight(cs, a, t) == Weight(Without(cs, i), a, t) + GainFor(cs[i], a, t)
  {
    hide GainFor;
    assert cs == cs[..i] + [cs[i]] + cs[i + 1..];
    WeightConcat(cs[..i] + [cs[i]], cs[i + 1..], a, t);
    WeightConcat(cs[..i], [cs[i]], a, t);
    WeightConcat(cs[..i], cs[i + 1..], a, t);
    assert Init([cs[i]]) == [] && Last([cs[i]]) == cs[i];
  }

  lemma WithoutMultiset<T>(s: seq<T>, i: nat)
    requires i < |s|
    ensures multiset(Without(s, i)) == multiset(s) - multiset{s[i]}
  {
    assert s == s[..i] + [s[i]] + s[i + 1..];
  }

  lemma {:induction false} WeightPermutes(
    cs: seq<SkillContribution>, ds: seq<SkillContribution>, a: AuthorId, t: Topic)
    requires multiset(cs) == multiset(ds)
    ensures Weight(cs, a, t) == Weight(ds, a, t)
  {
    assert |multiset(cs)| == |cs| && |multiset(ds)| == |ds|;
    if cs != [] {
      hide GainFor;
      Snoc(cs);
      assert Last(cs) in multiset(ds);
      var i :| 0 <= i < |ds| && ds[i] == Last(cs);
      WithoutMultiset(ds, i);
      WeightWithout(ds, i, a, t);
      hide Without;
      WeightPermutes(Init(cs), Without(ds, i), a, t);
    }
  }

  /** Equal but for the display name. */
  ghost predicate SameRank(x: ExpertCandidate, y: ExpertCandidate) {
    x.author == y.author && x.score == y.score
  }

  ghost predicate SameRanks(xs: seq<ExpertCandidate>, ys: seq<ExpertCandidate>) {
    |xs| == |ys| && forall i :: 0 <= i < |xs| ==> SameRank(xs[i], ys[i])
  }

  lemma {:induction false} InsertParallel(
    x: ExpertCandidate, y: ExpertCandidate, xs: seq<ExpertCandidate>, ys: seq<ExpertCandidate>)
    requires SameRank(x, y) && SameRanks(xs, ys)
    ensures SameRanks(Insert(RankBefore, x, xs), Insert(RankBefore, y, ys))
  {
    if xs != [] && !RankBefore(x, xs[0]) {
      InsertParallel(x, y, xs[1..], ys[1..]);
    }
  }

  lemma {:induction false} SortParallel(xs: seq<ExpertCandidate>, ys: seq<ExpertCandidate>)
    requires SameRanks(xs, ys)
    ensures SameRanks(Sort(RankBefore, xs), Sort(RankBefore, ys))
  {
    if xs != [] {
      SortParallel(xs[1..], ys[1..]);
      InsertParallel(xs[0], ys[0], Sort(RankBefore, xs[1..]), Sort(RankBefore, ys[1..]));
    }
  }

  ghost predicate SameWeights(xs: seq<Row>, ys: seq<Row>) {
    |xs| == |ys| && forall i :: 0 <= i < |xs| ==> xs[i].author == ys[i].author && xs[i].weight == ys[i].weight
  }

  lemma {:induction false} MaxWeightParallel(xs: seq<Row>, ys: seq<Row>)
    requires SameWeights(xs, ys)
    ensures MaxWeight(xs) == MaxWeight(ys)
  {
    if xs != [] {
      MaxWeightParallel(Init(xs), Init(ys));
    }
  }

  lemma {:induction false} RowsParallel(
    cs: seq<SkillContribution>, ds: seq<SkillContribution>, authors: seq<AuthorId>, t: Topic)
    requires multiset(cs) == multiset(ds)
    requires forall a :: Touched(cs, a) == Touched(ds, a)
    ensures SameWeights(Rows(cs, authors, t), Rows(ds, authors, t))
  {
    if authors != [] {
      RowsParallel(cs, ds, Init(authors), t);
      WeightPermutes(cs, ds, Last(authors), t);
    }
  }

  /** Reordering the contributions changes no weight, no score and no ranking position. */
  lemma OrderIndependence(cs: seq<SkillContribution>, ds: seq<SkillContribution>, t: Topic)
    requires multiset(cs) == multiset(ds)
    ensures Topics(cs) == Topics(ds) && Authors(cs) == Authors(ds)
    ensures forall a :: Weight(cs, a, t) == Weight(ds, a, t)
    ensures SameRanks(Ownership(cs, t).candidates, Ownership(ds, t).candidates)
  {
    assert forall c :: c in cs <==> c in multiset(cs);
    assert forall c :: c in ds <==> c in multiset(ds);
    forall a ensures Weight(cs, a, t) == Weight(ds, a, t) {
      WeightPermutes(cs, ds, a, t);
    }
    assert Authors(cs) == Authors(ds);
    RowsParallel(cs, ds, Ascending(Authors(cs)), t);
    var xs, ys := Contributors(cs, t), Contributors(ds, t);
    MaxWeightParallel(xs, ys);
    SortParallel(Candidates(xs, MaxWeight(xs)), Candidates(ys, MaxWeight(ys)));
  }
}
