/**
 * The message-based skill builder: the author-by-topic matrix of confidence-weighted involvement,
 * its transpose, and the ranking of each topic's contributors.
 */
module Skill {
  import opened Domain
  import opened Ranking
  import opened Sequences
  import opened Sorting

  // ---------- what the matrix is ----------

  /** One contribution adds its confidence once per occurrence of the topic. */
  function Gain(topics: seq<Topic>, confidence: real, t: Topic): real {
    if topics == [] then 0.0
    else Gain(Init(topics), confidence, t) + (if Last(topics) == t then confidence else 0.0)
  }

  function GainFor(c: SkillContribution, a: AuthorId, t: Topic): real {
    if c.author == a then Gain(c.topics, c.confidence, t) else 0.0
  }

  /** The weight of an author on a topic, summed over all contributions. */
  function Weight(cs: seq<SkillContribution>, a: AuthorId, t: Topic): real {
    if cs == [] then 0.0 else Weight(Init(cs), a, t) + GainFor(Last(cs), a, t)
  }

  function Authors(cs: seq<SkillContribution>): set<AuthorId> {
    set c | c in cs :: c.author
  }

  function Touched(cs: seq<SkillContribution>, a: AuthorId): set<Topic> {
    set c, t | c in cs && c.author == a && t in c.topics :: t
  }

  function Topics(cs: seq<SkillContribution>): set<Topic> {
    set c, t | c in cs && t in c.topics :: t
  }

  /** The author's last-seen display name. */
  function NameOf(cs: seq<SkillContribution>, a: AuthorId): string {
    LastSeen(cs, (c: SkillContribution) => c.author, (c: SkillContribution) => c.displayName, a)
  }

  function WeightRow(cs: seq<SkillContribution>, a: AuthorId, t: Topic): Row {
    Row(a, NameOf(cs, a), Weight(cs, a, t))
  }

  /** The contributors to `t` among `authors`, in that order. */
  function Rows(cs: seq<SkillContribution>, authors: seq<AuthorId>, t: Topic): seq<Row> {
    if authors == [] then []
    else
      Rows(cs, Init(authors), t)
      + (if t in Touched(cs, Last(authors)) then [WeightRow(cs, Last(authors), t)] else [])
  }

  function Contributors(cs: seq<SkillContribution>, t: Topic): seq<Row> {
    Rows(cs, Ascending(Authors(cs)), t)
  }

  function Ownership(cs: seq<SkillContribution>, t: Topic): TopicOwnership {
    TopicOwnership(t, Ranked(Contributors(cs, t)))
  }

  function Ownerships(cs: seq<SkillContribution>, ts: seq<Topic>): (r: seq<TopicOwnership>)
    ensures |r| == |ts|
    ensures forall i :: 0 <= i < |ts| ==> r[i] == Ownership(cs, ts[i])
  {
    if ts == [] then [] else Ownerships(cs, Init(ts)) + [Ownership(cs, Last(ts))]
  }

  function TopicWeights(cs: seq<SkillContribution>, a: AuthorId, ts: seq<Topic>): (r: seq<TopicWeight>)
    ensures |r| == |ts|
    ensures forall i :: 0 <= i < |ts| ==> r[i] == TopicWeight(ts[i], Weight(cs, a, ts[i]))
  {
    if ts == [] then []
    else TopicWeights(cs, a, Init(ts)) + [TopicWeight(Last(ts), Weight(cs, a, Last(ts)))]
  }

  function Profile(cs: seq<SkillContribution>, a: AuthorId): DeveloperProfile {
    DeveloperProfile(a, NameOf(cs, a), TopicWeights(cs, a, Ascending(Touched(cs, a))))
  }

  function Profiles(cs: seq<SkillContribution>, authors: seq<AuthorId>): (r: seq<DeveloperProfile>)
    ensures |r| == |authors|
    ensures forall i :: 0 <= i < |authors| ==> r[i] == Profile(cs, authors[i])
  {
    if authors == [] then [] else Profiles(cs, Init(authors)) + [Profile(cs, Last(authors))]
  }

  function Index(cs: seq<SkillContribution>): SkillIndex {
    SkillIndex(
      Profiles(cs, Ascending(Authors(cs))),
      Ownerships(cs, Ascending(Topics(cs))))
  }

  // ---------- the loops ----------

  datatype Tally = Tally(displayName: string, weights: map<Topic, real>)

  ghost predicate TallyOf(cs: seq<SkillContribution>, a: AuthorId, tally: Tally) {
    && tally.displayName == NameOf(cs, a)
    && tally.weights.Keys == Touched(cs, a)
    && forall t :: t in tally.weights ==> tally.weights[t] == Weight(cs, a, t)
  }

  ghost predicate Tallied(cs: seq<SkillContribution>, perAuthor: map<AuthorId, Tally>) {
    && perAuthor.Keys == Authors(cs)
    && forall a :: a in perAuthor ==> TallyOf(cs, a, perAuthor[a])
  }

  method AddTopics(weights: map<Topic, real>, topics: seq<Topic>, confidence: real)
    returns (sums: map<Topic, real>)
    ensures sums.Keys == weights.Keys + Set(topics)
    ensures forall t :: t in sums ==>
      sums[t] == (if t in weights then weights[t] else 0.0) + Gain(topics, confidence, t)
  {
    sums := weights;
    for i := 0 to |topics|
      invariant sums.Keys == weights.Keys + Set(topics[..i])
      invariant forall t :: t in sums ==>
        sums[t] == (if t in weights then weights[t] else 0.0) + Gain(topics[..i], confidence, t)
    {
      PrefixStep(topics, i);
      var topic := topics[i];
      if topic !in sums {
        GainZero(topics[..i], confidence, topic);
      }
      var before := if topic in sums then sums[topic] else 0.0;
      sums := sums[topic := before + confidence];
    }
    WholePrefix(topics);
  }

  method TallyAuthors(cs: seq<SkillContribution>) returns (perAuthor: map<AuthorId, Tally>)
    ensures Tallied(cs, perAuthor)
  {
    perAuthor := map[];
    for i := 0 to |cs|
      invariant Tallied(cs[..i], perAuthor)
    {
      PrefixStep(cs, i);
      var c := cs[i];
      var weights := if c.author in perAuthor then perAuthor[c.author].weights else map[];
      var sums := AddTopics(weights, c.topics, c.confidence);
      ghost var was := perAuthor;
      perAuthor := perAuthor[c.author := Tally(c.displayName, sums)];
      TallyStep(cs[..i], c, was, sums);
      assert cs[..i + 1] == cs[..i] + [c];
    }
    WholePrefix(cs);
  }

  /** One author's topics in ascending order, with the tallied weights. */
  method ListProfile(ghost cs: seq<SkillContribution>, a: AuthorId, tally: Tally) returns (profile: DeveloperProfile)
    requires TallyOf(cs, a, tally)
    ensures profile == Profile(cs, a)
  {
    var topics := Ascending(tally.weights.Keys);
    var weights := [];
    for j := 0 to |topics|
      invariant weights == TopicWeights(cs, a, topics[..j])
    {
      PrefixStep(topics, j);
      assert topics[j] in topics;
      weights := weights + [TopicWeight(topics[j], tally.weights[topics[j]])];
    }
    WholePrefix(topics);
    profile := DeveloperProfile(a, tally.displayName, weights);
  }

  method Build(cs: seq<SkillContribution>) returns (index: SkillIndex)
    ensures index == Index(cs)
  {
    var perAuthor := TallyAuthors(cs);
    var authors := Ascending(perAuthor.Keys);
    var profiles := [];
    for i := 0 to |authors|
      invariant profiles == Profiles(cs, authors[..i])
    {
      PrefixStep(authors, i);
      assert authors[i] in authors;
      var profile := ListProfile(cs, authors[i], perAuthor[authors[i]]);
      profiles := profiles + [profile];
    }
    WholePrefix(authors);
    var perTopic := Transpose(cs, perAuthor, authors);
    TopicsAreTouched(cs);
    assert perTopic.Keys == Topics(cs);
    var ts := Ascending(perTopic.Keys);
    var ownerships := [];
    for i := 0 to |ts|
      invariant ownerships == Ownerships(cs, ts[..i])
    {
      PrefixStep(ts, i);
      assert ts[i] in ts;
      var candidates := RankRows(perTopic[ts[i]]);
      ownerships := ownerships + [TopicOwnership(ts[i], candidates)];
    }
    WholePrefix(ts);
    index := SkillIndex(profiles, ownerships);
  }

  function Entry(perTopic: map<Topic, seq<Row>>, t: Topic): seq<Row> {
    if t in perTopic then perTopic[t] else []
  }

  function RowOf(a: AuthorId, tally: Tally, t: Topic): Row
    requires t in tally.weights
  {
    Row(a, tally.displayName, tally.weights[t])
  }

  /** `pushed` is `perTopic` with the author's row added under each topic of `done`. */
  ghost predicate PushedFor(
    perTopic: map<Topic, seq<Row>>, pushed: map<Topic, seq<Row>>, a: AuthorId, tally: Tally, done: set<Topic>)
    requires done <= tally.weights.Keys
  {
    && pushed.Keys == perTopic.Keys + done
    && forall t :: t in pushed ==>
      pushed[t] == if t in done then Entry(perTopic, t) + [RowOf(a, tally, t)] else perTopic[t]
  }

  lemma NothingPushed(perTopic: map<Topic, seq<Row>>, a: AuthorId, tally: Tally)
    ensures PushedFor(perTopic, perTopic, a, tally, {})
  {
  }

  lemma PushStep(
    perTopic: map<Topic, seq<Row>>, pushed: map<Topic, seq<Row>>, a: AuthorId, tally: Tally, done: set<Topic>,
    topic: Topic)
    requires done <= tally.weights.Keys && PushedFor(perTopic, pushed, a, tally, done)
    requires topic in tally.weights && topic !in done
    ensures PushedFor(perTopic, pushed[topic := Entry(pushed, topic) + [RowOf(a, tally, topic)]],
                      a, tally, done + {topic})
  {
  }

  /** Push one author's row onto every topic they touch; the order of `topics` does not matter. */
  method PushRows(a: AuthorId, tally: Tally, topics: seq<Topic>, perTopic: map<Topic, seq<Row>>)
    returns (pushed: map<Topic, seq<Row>>)
    requires Distinct(topics) && Set(topics) == tally.weights.Keys
    ensures PushedFor(perTopic, pushed, a, tally, tally.weights.Keys)
  {
    hide PushedFor, RowOf;
    pushed := perTopic;
    ghost var done: set<Topic> := {};
    NothingPushed(perTopic, a, tally);
    for j := 0 to |topics|
      invariant done == Set(topics[..j]) <= tally.weights.Keys
      invariant PushedFor(perTopic, pushed, a, tally, done)
    {
      assert topics[j] in Set(topics) && topics[j] !in done;
      PushStep(perTopic, pushed, a, tally, done, topics[j]);
      pushed := pushed[topics[j] := Entry(pushed, topics[j]) + [RowOf(a, tally, topics[j])]];
      done := done + {topics[j]};
      PrefixStep(topics, j);
      assert done == Set(topics[..j + 1]);
    }
    WholePrefix(topics);
  }

  /** `perTopic` is the transpose of the tallies of `authors`. */
  ghost predicate Transposed(
    cs: seq<SkillContribution>, authors: seq<AuthorId>, perTopic: map<Topic, seq<Row>>)
  {
    && (forall t :: t in perTopic <==> exists a :: a in authors && t in Touched(cs, a))
    && (forall t :: t in perTopic ==> perTopic[t] == Rows(cs, authors, t))
  }

  lemma TransposedRows(
    cs: seq<SkillContribution>, authors: seq<AuthorId>, a: AuthorId, tally: Tally,
    perTopic: map<Topic, seq<Row>>, pushed: map<Topic, seq<Row>>, t: Topic)
    requires Transposed(cs, authors, perTopic) && TallyOf(cs, a, tally)
    requires PushedFor(perTopic, pushed, a, tally, tally.weights.Keys) && t in pushed
    ensures pushed[t] == Rows(cs, authors + [a], t)
  {
    if t !in perTopic { RowsEmpty(cs, authors, t); }
    RowsSnoc(cs, authors, a, t);
    hide Rows, Touched, Weight;
    assert t in tally.weights ==> RowOf(a, tally, t) == WeightRow(cs, a, t);
  }

  lemma RowsSnoc(cs: seq<SkillContribution>, authors: seq<AuthorId>, a: AuthorId, t: Topic)
    ensures Rows(cs, authors + [a], t)
         == Rows(cs, authors, t) + (if t in Touched(cs, a) then [WeightRow(cs, a, t)] else [])
  {
    assert Init(authors + [a]) == authors && Last(authors + [a]) == a;
  }

  lemma TransposeStep(
    cs: seq<SkillContribution>, authors: seq<AuthorId>, a: AuthorId, tally: Tally,
    perTopic: map<Topic, seq<Row>>, pushed: map<Topic, seq<Row>>)
    requires Transposed(cs, authors, perTopic) && TallyOf(cs, a, tally)
    requires PushedFor(perTopic, pushed, a, tally, tally.weights.Keys)
    ensures Transposed(cs, authors + [a], pushed)
  {
    hide Rows, Touched;
    var more := authors + [a];
    Snoc(more);
    forall t ensures t in pushed <==> exists b :: b in more && t in Touched(cs, b) {
      TransposedTopics(cs, authors, a, tally, perTopic, pushed, t);
    }
    forall t | t in pushed ensures pushed[t] == Rows(cs, more, t) {
      TransposedRows(cs, authors, a, tally, perTopic, pushed, t);
    }
  }

  lemma TransposedTopics(
    cs: seq<SkillContribution>, authors: seq<AuthorId>, a: AuthorId, tally: Tally,
    perTopic: map<Topic, seq<Row>>, pushed: map<Topic, seq<Row>>, t: Topic)
    requires Transposed(cs, authors, perTopic) && TallyOf(cs, a, tally)
    requires PushedFor(perTopic, pushed, a, tally, tally.weights.Keys)
    ensures t in pushed <==> exists b :: b in authors + [a] && t in Touched(cs, b)
  {
    hide Rows, Touched;
    if t in Touched(cs, a) {
      assert a in authors + [a];
    } else if b :| b in authors && t in Touched(cs, b) {
      assert b in authors + [a];
    }
  }

  /** Invert author -> topic -> weight into topic -> contributors. */
  method Transpose(ghost cs: seq<SkillContribution>, perAuthor: map<AuthorId, Tally>, authors: seq<AuthorId>)
    returns (perTopic: map<Topic, seq<Row>>)
    requires Tallied(cs, perAuthor)
    requires forall a :: a in authors <==> a in perAuthor
    ensures Transposed(cs, authors, perTopic)
  {
    perTopic := map[];
    for i := 0 to |authors|
      invariant Transposed(cs, authors[..i], perTopic)
    {
      var tally := perAuthor[authors[i]];
      var topics := InOrder(tally.weights.Keys);
      ghost var before := perTopic;
      perTopic := PushRows(authors[i], tally, topics, perTopic);
      TransposeStep(cs, authors[..i], authors[i], tally, before, perTopic);
      PrefixStep(authors, i);
    }
    WholePrefix(authors);
  }

  // ---------- steps the loops take ----------

  lemma {:induction false} GainZero(topics: seq<Topic>, confidence: real, t: Topic)
    requires t !in topics
    ensures Gain(topics, confidence, t) == 0.0
  {
    if topics != [] {
      Snoc(topics);
      GainZero(Init(topics), confidence, t);
    }
  }

  lemma {:induction false} WeightZero(cs: seq<SkillContribution>, a: AuthorId, t: Topic)
    requires t !in Touched(cs, a)
    ensures Weight(cs, a, t) == 0.0
  {
    if cs != [] {
      Snoc(cs);
      WeightZero(Init(cs), a, t);
      if Last(cs).author == a {
        GainZero(Last(cs).topics, Last(cs).confidence, t);
      }
    }
  }

  lemma TouchedStep(cs: seq<SkillContribution>, c: SkillContribution, a: AuthorId)
    ensures Authors(cs + [c]) == Authors(cs) + {c.author}
    ensures Touched(cs + [c], a) == Touched(cs, a) + (if c.author == a then Set(c.topics) else {})
    ensures a !in Authors(cs) ==> Touched(cs, a) == {}
    ensures Init(cs + [c]) == cs && Last(cs + [c]) == c
  {
    var all := cs + [c];
    assert forall x :: x in all <==> x in cs || x == c;
    assert Touched(all, a) >= Touched(cs, a);
    assert c in all;
  }

  lemma TallyStep(
    cs: seq<SkillContribution>, c: SkillContribution, was: map<AuthorId, Tally>, sums: map<Topic, real>)
    requires Tallied(cs, was)
    requires var weights := if c.author in was then was[c.author].weights else map[];
             && sums.Keys == weights.Keys + Set(c.topics)
             && forall t :: t in sums ==>
               sums[t] == (if t in weights then weights[t] else 0.0) + Gain(c.topics, c.confidence, t)
    ensures Tallied(cs + [c], was[c.author := Tally(c.displayName, sums)])
  {
    var now := was[c.author := Tally(c.displayName, sums)];
    TouchedStep(cs, c, c.author);
    OwnTallyStep(cs, c, was, sums);
    hide Touched, Weight, NameOf, Authors, Gain;
    forall a | a in now ensures TallyOf(cs + [c], a, now[a]) {
      if a != c.author {
        OtherTallyStep(cs, c, a, was[a]);
      }
    }
  }

  lemma OwnTallyStep(
    cs: seq<SkillContribution>, c: SkillContribution, was: map<AuthorId, Tally>, sums: map<Topic, real>)
    requires Tallied(cs, was)
    requires var weights := if c.author in was then was[c.author].weights else map[];
             && sums.Keys == weights.Keys + Set(c.topics)
             && forall t :: t in sums ==>
               sums[t] == (if t in weights then weights[t] else 0.0) + Gain(c.topics, c.confidence, t)
    ensures TallyOf(cs + [c], c.author, Tally(c.displayName, sums))
  {
    TouchedStep(cs, c, c.author);
    hide Touched, Authors, Gain;
    forall t | t in sums ensures sums[t] == Weight(cs + [c], c.author, t) {
      assert Weight(cs + [c], c.author, t) == Weight(cs, c.author, t) + Gain(c.topics, c.confidence, t);
      if t !in Touched(cs, c.author) {
        WeightZero(cs, c.author, t);
      }
    }
  }

  lemma OtherTallyStep(cs: seq<SkillContribution>, c: SkillContribution, a: AuthorId, tally: Tally)
    requires a != c.author && TallyOf(cs, a, tally)
    ensures TallyOf(cs + [c], a, tally)
  {
    TouchedStep(cs, c, a);
    hide Touched, Gain;
  }

  lemma {:induction false} RowsEmpty(cs: seq<SkillContribution>, authors: seq<AuthorId>, t: Topic)
    requires forall a :: a in authors ==> t !in Touched(cs, a)
    ensures Rows(cs, authors, t) == []
  {
    if authors != [] {
      Snoc(authors);
      RowsEmpty(cs, Init(authors), t);
    }
  }

  lemma TopicsAreTouched(cs: seq<SkillContribution>)
    ensures forall t :: t in Topics(cs) <==> exists a :: a in Authors(cs) && t in Touched(cs, a)
  {
    forall t | t in Topics(cs) ensures exists a :: a in Authors(cs) && t in Touched(cs, a) {
      var c :| c in cs && t in c.topics;
      assert c.author in Authors(cs) && t in Touched(cs, c.author);
    }
  }
}
