/** The skill-derived routing hinter: sum scores across topics, normalise, rank. */
module Hint {
  import opened Domain
  import opened Ranking
  import opened Sequences
  import opened Skill
  import opened SkillLaws
  import opened Sorting
  import opened Wrappers

  // ---------- what the hint is ----------

  /** The candidates of the ownerships whose topic is among `topics`, one ownership after another. */
  function Pool(os: seq<TopicOwnership>, topics: set<Topic>): seq<ExpertCandidate> {
    if os == [] then []
    else
      Pool(Init(os), topics) + (if Last(os).topic in topics then Last(os).candidates else [])
  }

  function ScoreSum(pool: seq<ExpertCandidate>, a: AuthorId): real {
    if pool == [] then 0.0
    else ScoreSum(Init(pool), a) + (if Last(pool).author == a then Last(pool).score else 0.0)
  }

  function LastName(pool: seq<ExpertCandidate>, a: AuthorId): string {
    LastSeen(pool, (c: ExpertCandidate) => c.author, (c: ExpertCandidate) => c.displayName, a)
  }

  function PoolAuthors(pool: seq<ExpertCandidate>): set<AuthorId> {
    set c | c in pool :: c.author
  }

  function PoolRows(pool: seq<ExpertCandidate>, authors: seq<AuthorId>): (rows: seq<Row>)
    ensures |rows| == |authors|
    ensures forall i :: 0 <= i < |authors| ==>
      rows[i] == Row(authors[i], LastName(pool, authors[i]), ScoreSum(pool, authors[i]))
  {
    if authors == [] then []
    else
      PoolRows(pool, Init(authors))
      + [Row(Last(authors), LastName(pool, Last(authors)), ScoreSum(pool, Last(authors)))]
  }

  function Reviewers(pool: seq<ExpertCandidate>): seq<ExpertCandidate> {
    Ranked(PoolRows(pool, Ascending(PoolAuthors(pool))))
  }

  function HintOf(projection: Projection, os: seq<TopicOwnership>): RoutingHint {
    var reviewers := Reviewers(Pool(os, Set(projection.topics)));
    RoutingHint(projection.messageId, reviewers, if reviewers == [] then None else Some(reviewers[0]))
  }

  // ---------- the loops ----------

  datatype Total = Total(displayName: string, score: real)

  ghost predicate Totalled(pool: seq<ExpertCandidate>, totals: map<AuthorId, Total>) {
    && totals.Keys == PoolAuthors(pool)
    && forall a :: a in totals ==> totals[a] == Total(LastName(pool, a), ScoreSum(pool, a))
  }

  lemma {:induction false} ScoreSumZero(pool: seq<ExpertCandidate>, a: AuthorId)
    requires a !in PoolAuthors(pool)
    ensures ScoreSum(pool, a) == 0.0
  {
    if pool != [] {
      Snoc(pool);
      ScoreSumZero(Init(pool), a);
    }
  }

  lemma TotalStep(pool: seq<ExpertCandidate>, c: ExpertCandidate, totals: map<AuthorId, Total>)
    requires Totalled(pool, totals)
    ensures var before := if c.author in totals then totals[c.author].score else 0.0;
            Totalled(pool + [c], totals[c.author := Total(c.displayName, before + c.score)])
  {
    var more := pool + [c];
    assert Init(more) == pool && Last(more) == c;
    Snoc(more);
    if c.author !in totals {
      ScoreSumZero(pool, c.author);
    }
  }

  lemma TotalNext(
    pool: seq<ExpertCandidate>, cs: seq<ExpertCandidate>, j: nat, totals: map<AuthorId, Total>)
    requires j < |cs| && Totalled(pool + cs[..j], totals)
    ensures var before := if cs[j].author in totals then totals[cs[j].author].score else 0.0;
            Totalled(pool + cs[..j + 1], totals[cs[j].author := Total(cs[j].displayName, before + cs[j].score)])
  {
    TotalStep(pool + cs[..j], cs[j], totals);
    assert pool + cs[..j + 1] == (pool + cs[..j]) + [cs[j]];
  }

  lemma NothingTotalled(os: seq<TopicOwnership>, topics: set<Topic>)
    ensures Totalled(Pool(os[..0], topics), map[])
  {
  }

  lemma TotalledMeans(pool: seq<ExpertCandidate>, totals: map<AuthorId, Total>)
    requires Totalled(pool, totals)
    ensures totals.Keys == PoolAuthors(pool)
    ensures forall a :: a in totals ==> totals[a] == Total(LastName(pool, a), ScoreSum(pool, a))
  {
  }

  lemma PoolNext(os: seq<TopicOwnership>, i: nat, topics: set<Topic>)
    requires i < |os|
    ensures Pool(os[..i + 1], topics)
         == Pool(os[..i], topics) + (if os[i].topic in topics then os[i].candidates else [])
  {
    PrefixStep(os, i);
  }

  method BuildHint(projection: Projection, os: seq<TopicOwnership>) returns (hint: RoutingHint)
    ensures hint == HintOf(projection, os)
  {
    hide Totalled, Pool, Set;
    var topics := Set(projection.topics);
    var totals: map<AuthorId, Total> := map[];
    NothingTotalled(os, topics);
    for i := 0 to |os|
      invariant Totalled(Pool(os[..i], topics), totals)
    {
      PoolNext(os, i, topics);
      if os[i].topic in topics {
        ghost var pool := Pool(os[..i], topics);
        var candidates := os[i].candidates;
        assert pool + candidates[..0] == pool;
        for j := 0 to |candidates|
          invariant Totalled(pool + candidates[..j], totals)
        {
          TotalNext(pool, candidates, j, totals);
          var author := candidates[j].author;
          var before := if author in totals then totals[author].score else 0.0;
          totals := totals[author := Total(candidates[j].displayName, before + candidates[j].score)];
        }
        WholePrefix(candidates);
      } else {
        assert Pool(os[..i + 1], topics) == Pool(os[..i], topics);
      }
    }
    WholePrefix(os);
    ghost var pool := Pool(os, topics);
    TotalledMeans(pool, totals);
    var authors := Ascending(totals.Keys);
    var rows := [];
    for i := 0 to |authors|
      invariant rows == PoolRows(pool, authors[..i])
    {
      PrefixStep(authors, i);
      assert authors[i] in authors;
      rows := rows + [Row(authors[i], totals[authors[i]].displayName, totals[authors[i]].score)];
    }
    WholePrefix(authors);
    var reviewers := RankRows(rows);
    hint := RoutingHint(projection.messageId, reviewers, if reviewers == [] then None else Some(reviewers[0]));
  }

  // ---------- what the hint means ----------

  lemma {:induction false} ScoreSumNonNegative(pool: seq<ExpertCandidate>, a: AuthorId)
    ensures ScoreSum(pool, a) >= 0.0
  {
    if pool != [] {
      ScoreSumNonNegative(Init(pool), a);
    }
  }

  lemma PoolRowsMembers(pool: seq<ExpertCandidate>, row: Row)
    ensures row in PoolRows(pool, Ascending(PoolAuthors(pool))) <==>
            row.author in PoolAuthors(pool)
            && row == Row(row.author, LastName(pool, row.author), ScoreSum(pool, row.author))
    ensures DistinctAuthors(PoolRows(pool, Ascending(PoolAuthors(pool))))
  {
    var authors := Ascending(PoolAuthors(pool));
    AscendingDistinct(PoolAuthors(pool));
    var rows := PoolRows(pool, authors);
    if row in rows {
      var i :| 0 <= i < |rows| && rows[i] == row;
      assert authors[i] in authors;
    }
    if row.author in PoolAuthors(pool)
       && row == Row(row.author, LastName(pool, row.author), ScoreSum(pool, row.author))
    {
      var i :| 0 <= i < |authors| && authors[i] == row.author;
      assert rows[i] == row;
    }
  }

  /** The largest summed score. */
  function TopSum(pool: seq<ExpertCandidate>): real {
    MaxWeight(PoolRows(pool, Ascending(PoolAuthors(pool))))
  }

  lemma TopSumIsLargest(pool: seq<ExpertCandidate>)
    ensures TopSum(pool) >= 0.0 && forall a :: ScoreSum(pool, a) <= TopSum(pool)
    ensures TopSum(pool) == 0.0 || exists a :: ScoreSum(pool, a) == TopSum(pool)
  {
    var rows := PoolRows(pool, Ascending(PoolAuthors(pool)));
    forall a ensures ScoreSum(pool, a) <= TopSum(pool) {
      if a in PoolAuthors(pool) {
        PoolRowsMembers(pool, Row(a, LastName(pool, a), ScoreSum(pool, a)));
      } else {
        ScoreSumZero(pool, a);
      }
    }
    MaxWeightAttained(rows);
    if row :| row in rows && row.weight == MaxWeight(rows) {
      PoolRowsMembers(pool, row);
      assert ScoreSum(pool, row.author) == TopSum(pool);
    }
  }

  /**
   * The reviewers are exactly the authors in the pool, once each, in strict rank order, each scoring
   * their share of the largest summed score.
   */
  lemma ReviewersRanking(pool: seq<ExpertCandidate>)
    ensures StrictlyRanked(Reviewers(pool))
    ensures forall c :: c in Reviewers(pool) <==>
              c.author in PoolAuthors(pool) && c.displayName == LastName(pool, c.author)
              && c.score == Share(ScoreSum(pool, c.author), TopSum(pool))
    ensures TopSum(pool) > 0.0 ==> Reviewers(pool) != [] && Reviewers(pool)[0].score == 1.0
    ensures forall i, j :: 0 <= i < j < |Reviewers(pool)| ==> Reviewers(pool)[i].author != Reviewers(pool)[j].author
  {
    hide PoolRows, PoolAuthors, LastName, ScoreSum, MaxWeight, Share;
    var rows := PoolRows(pool, Ascending(PoolAuthors(pool)));
    PoolRowsMembers(pool, Row("", "", 0.0));
    RankedIsStrict(rows);
    forall row | row in rows ensures row.weight >= 0.0 {
      PoolRowsMembers(pool, row);
      ScoreSumNonNegative(pool, row.author);
    }
    if TopSum(pool) > 0.0 {
      HeadScoresOne(rows);
    }
    forall c ensures c in Reviewers(pool) <==>
              c.author in PoolAuthors(pool) && c.displayName == LastName(pool, c.author)
              && c.score == Share(ScoreSum(pool, c.author), TopSum(pool)) {
      var row := Row(c.author, LastName(pool, c.author), ScoreSum(pool, c.author));
      PoolRowsMembers(pool, row);
      RankedMembers(rows, c);
      ScoreSumNonNegative(pool, c.author);
      if row in rows {
        ShareInRange(rows, row);
      }
      if r :| r in rows && c == Candidate(r, MaxWeight(rows)) {
        PoolRowsMembers(pool, r);
      }
    }
  }

  // ---------- agreement with the skill index ----------

  /** `o` listed `n` times. */
  function Repeat<T>(o: T, n: nat): seq<T> {
    seq(n, i => o)
  }

  lemma {:induction false} RepeatedPool(o: TopicOwnership, n: nat, topics: set<Topic>, c: ExpertCandidate)
    requires o.topic in topics && c in o.candidates
    requires forall i, j :: 0 <= i < j < |o.candidates| ==> o.candidates[i].author != o.candidates[j].author
    ensures ScoreSum(Pool(Repeat(o, n), topics), c.author) == Times(c.score, n)
    ensures n > 0 ==> LastName(Pool(Repeat(o, n), topics), c.author) == c.displayName
    ensures forall a :: a in PoolAuthors(Pool(Repeat(o, n), topics)) <==> n > 0 && a in PoolAuthors(o.candidates)
  {
    if n > 0 {
      RepeatedPool(o, n - 1, topics, c);
      assert Init(Repeat(o, n)) == Repeat(o, n - 1) && Last(Repeat(o, n)) == o;
      var pool := Pool(Repeat(o, n - 1), topics);
      AppendOnce(pool, o.candidates, c);
      assert PoolAuthors(pool + o.candidates) == PoolAuthors(pool) + PoolAuthors(o.candidates);
    }
  }

  /** Appending a list that mentions an author once adds that candidate's score. */
  lemma {:induction false} AppendOnce(pool: seq<ExpertCandidate>, cs: seq<ExpertCandidate>, c: ExpertCandidate)
    requires forall i, j :: 0 <= i < j < |cs| ==> cs[i].author != cs[j].author
    ensures c in cs ==> ScoreSum(pool + cs, c.author) == ScoreSum(pool, c.author) + c.score
    ensures c in cs ==> LastName(pool + cs, c.author) == c.displayName
    ensures c.author !in PoolAuthors(cs) ==>
              ScoreSum(pool + cs, c.author) == ScoreSum(pool, c.author)
              && LastName(pool + cs, c.author) == LastName(pool, c.author)
  {
    if cs == [] {
      assert pool + cs == pool;
    } else {
      assert Init(pool + cs) == pool + Init(cs) && Last(pool + cs) == Last(cs);
      Snoc(cs);
      AppendOnce(pool, Init(cs), c);
      if c in cs && Last(cs) != c {
        assert c in Init(cs);
        assert Last(cs).author != c.author;
      }
      if Last(cs) == c {
        assert c.author !in PoolAuthors(Init(cs));
      }
    }
  }

  lemma {:induction false} TimesMonotone(x: real, y: real, n: nat)
    ensures x <= y ==> Times(x, n) <= Times(y, n)
    ensures x == 0.0 ==> Times(x, n) == 0.0
    ensures n > 0 && x == 1.0 ==> Times(x, n) > 0.0
  {
    if n > 0 {
      TimesMonotone(x, y, n - 1);
    }
  }

  lemma ScaledShare(x: real, n: nat)
    requires n > 0 && 0.0 <= x <= 1.0
    ensures Share(Times(x, n), Times(1.0, n)) == x
  {
    TimesMonotone(1.0, 1.0, n);
    TimesIsProduct(x, n);
    TimesIsProduct(1.0, n);
    assert x * (n as real) / (n as real) == x;
  }

  /** The largest summed score: n when somebody scores 1, and 0 when nobody scores. */
  lemma RepeatedMax(o: TopicOwnership, n: nat, topics: set<Topic>, rows: seq<Row>)
    requires n > 0 && o.topic in topics && o.candidates != []
    requires forall i, j :: 0 <= i < j < |o.candidates| ==> o.candidates[i].author != o.candidates[j].author
    requires rows == PoolRows(Pool(Repeat(o, n), topics), Ascending(PoolAuthors(Pool(Repeat(o, n), topics))))
    ensures o.candidates[0].score == 1.0 ==> MaxWeight(rows) == Times(1.0, n)
    ensures (forall c :: c in o.candidates ==> c.score == 0.0) ==> MaxWeight(rows) == 0.0
  {
    var pool := Pool(Repeat(o, n), topics);
    forall row | row in rows ensures exists c :: c in o.candidates && row.weight == Times(c.score, n) {
      PoolRowsMembers(pool, row);
      RepeatedPool(o, n, topics, o.candidates[0]);
      var c :| c in o.candidates && c.author == row.author;
      RepeatedPool(o, n, topics, c);
    }
    forall c | c in o.candidates ensures Times(c.score, n) <= Times(1.0, n) {
      TimesMonotone(c.score, 1.0, n);
    }
    MaxWeightAttained(rows);
    TimesMonotone(0.0, 1.0, n);
    if o.candidates[0].score == 1.0 {
      var c := o.candidates[0];
      RepeatedPool(o, n, topics, c);
      var row := Row(c.author, LastName(pool, c.author), ScoreSum(pool, c.author));
      assert c.author in PoolAuthors(o.candidates);
      PoolRowsMembers(pool, row);
    }
  }

  /**
   * The hinter and the skill index never disagree: over one topic, however often the projection
   * repeats it, the reviewers are that topic's ranked candidates, scores and order included.
   */
  lemma HintAgreesWithOwnership(cs: seq<SkillContribution>, t: Topic, projection: Projection, n: nat)
    requires t in Topics(cs) && n > 0
    requires Set(projection.topics) == {t}
    ensures HintOf(projection, Repeat(Ownership(cs, t), n)).reviewers == Ownership(cs, t).candidates
  {
    var o := Ownership(cs, t);
    OwnershipRanking(cs, t);
    var witness0 :| witness0 in cs && t in witness0.topics;
    assert Contributed(cs, witness0.author, t) && Expert(cs, witness0.author, t) in o.candidates;
    var pool := Pool(Repeat(o, n), {t});
    var rows := PoolRows(pool, Ascending(PoolAuthors(pool)));
    RepeatedMax(o, n, {t}, rows);
    forall c | c in o.candidates
      ensures Candidate(Row(c.author, c.displayName, Times(c.score, n)), MaxWeight(rows)) == c {
      if TopWeight(cs, t) > 0.0 {
        ScaledShare(c.score, n);
      }
    }
    RepeatedRows(o, n, t);
    forall c ensures c in o.candidates <==> exists row :: row in rows && c == Candidate(row, MaxWeight(rows)) {
      if c in o.candidates {
        assert Row(c.author, c.displayName, Times(c.score, n)) in rows;
      }
    }
    RankingUnique(rows, o.candidates);
  }

  lemma RepeatedRows(o: TopicOwnership, n: nat, t: Topic)
    requires n > 0 && o.topic == t && o.candidates != []
    requires forall i, j :: 0 <= i < j < |o.candidates| ==> o.candidates[i].author != o.candidates[j].author
    ensures var pool := Pool(Repeat(o, n), {t});
            var rows := PoolRows(pool, Ascending(PoolAuthors(pool)));
            && DistinctAuthors(rows)
            && (forall c :: c in o.candidates ==> Row(c.author, c.displayName, Times(c.score, n)) in rows)
            && (forall row :: row in rows ==>
                  exists c :: c in o.candidates && row == Row(c.author, c.displayName, Times(c.score, n)))
  {
    var pool := Pool(Repeat(o, n), {t});
    var rows := PoolRows(pool, Ascending(PoolAuthors(pool)));
    PoolRowsMembers(pool, Row("", "", 0.0));
    forall c | c in o.candidates ensures Row(c.author, c.displayName, Times(c.score, n)) in rows {
      RepeatedPool(o, n, {t}, c);
      assert c.author in PoolAuthors(o.candidates);
      PoolRowsMembers(pool, Row(c.author, c.displayName, Times(c.score, n)));
    }
    forall row | row in rows
      ensures exists c :: c in o.candidates && row == Row(c.author, c.displayName, Times(c.score, n)) {
      PoolRowsMembers(pool, row);
      RepeatedPool(o, n, {t}, o.candidates[0]);
      var c :| c in o.candidates && c.author == row.author;
      RepeatedPool(o, n, {t}, c);
    }
  }
}
