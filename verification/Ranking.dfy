/**
 * Normalising and ranking weighted contributors.
 *
 * The skill builder and the routing hinter share these rules: divide every weight by the largest,
 * then order by score descending and author ascending.
 */
module Ranking {
  import opened Domain
  import opened Sequences
  import opened Sorting

  datatype Row = Row(author: AuthorId, displayName: string, weight: real)

  function Max(a: real, b: real): real {
    if a < b then b else a
  }

  function MaxWeight(rows: seq<Row>): (r: real)
    ensures 0.0 <= r
    ensures forall row :: row in rows ==> row.weight <= r
  {
    if rows == [] then 0.0
    else
      assert rows == Init(rows) + [Last(rows)];
      Max(MaxWeight(Init(rows)), Last(rows).weight)
  }

  function Share(weight: real, max: real): real {
    if max > 0.0 then weight / max else 0.0
  }

  function Candidate(row: Row, max: real): ExpertCandidate {
    ExpertCandidate(row.author, row.displayName, Clamp(Share(row.weight, max)))
  }

  function Candidates(rows: seq<Row>, max: real): (r: seq<ExpertCandidate>)
    ensures |r| == |rows|
    ensures forall i :: 0 <= i < |rows| ==> r[i] == Candidate(rows[i], max)
  {
    if rows == [] then [] else Candidates(Init(rows), max) + [Candidate(Last(rows), max)]
  }

  predicate RankBefore(a: ExpertCandidate, b: ExpertCandidate) {
    a.score > b.score || (a.score == b.score && Le(a.author, b.author))
  }

  function Ranked(rows: seq<Row>): seq<ExpertCandidate> {
    Sort(RankBefore, Candidates(rows, MaxWeight(rows)))
  }

  predicate DistinctAuthors(rows: seq<Row>) {
    forall i, j :: 0 <= i < j < |rows| ==> rows[i].author != rows[j].author
  }

  /** Best score first; equal scores in ascending author order; nobody twice. */
  predicate StrictlyRanked(cs: seq<ExpertCandidate>) {
    forall i, j :: 0 <= i < j < |cs| ==>
      cs[i].score > cs[j].score || (cs[i].score == cs[j].score && Lt(cs[i].author, cs[j].author))
  }

  // ---------- the loops ----------

  method RankRows(rows: seq<Row>) returns (ranked: seq<ExpertCandidate>)
    ensures ranked == Ranked(rows)
  {
    var max := 0.0;
    for i := 0 to |rows|
      invariant max == MaxWeight(rows[..i])
    {
      PrefixStep(rows, i);
      max := Max(max, rows[i].weight);
    }
    WholePrefix(rows);
    var candidates := [];
    for i := 0 to |rows|
      invariant candidates == Candidates(rows[..i], max)
    {
      PrefixStep(rows, i);
      var score := if max > 0.0 then rows[i].weight / max else 0.0;
      candidates := candidates + [ExpertCandidate(rows[i].author, rows[i].displayName, Clamp(score))];
    }
    ranked := Sort(RankBefore, candidates);
  }

  // ---------- what the ranking means ----------

  lemma RankBeforeTransitive(a: ExpertCandidate, b: ExpertCandidate, c: ExpertCandidate)
    requires RankBefore(a, b) && RankBefore(b, c)
    ensures RankBefore(a, c)
  {
    if a.score == c.score {
      LeTransitive(a.author, b.author, c.author);
    }
  }

  lemma RankBeforeIsTotalPreorder()
    ensures TotalPreorder(RankBefore)
  {
    forall a: ExpertCandidate, b: ExpertCandidate ensures RankBefore(a, b) || RankBefore(b, a) {
      LeTotal(a.author, b.author);
    }
    forall a: ExpertCandidate, b: ExpertCandidate, c: ExpertCandidate
      | RankBefore(a, b) && RankBefore(b, c) ensures RankBefore(a, c) {
      RankBeforeTransitive(a, b, c);
    }
  }

  lemma {:induction false} MaxWeightAttained(rows: seq<Row>)
    ensures MaxWeight(rows) == 0.0 || exists row :: row in rows && row.weight == MaxWeight(rows)
  {
    if rows != [] {
      MaxWeightAttained(Init(rows));
      Snoc(rows);
    }
  }

  lemma ShareWithin(w: real, max: real)
    requires 0.0 <= w <= max
    ensures 0.0 <= Share(w, max) <= 1.0
    ensures Share(w, max) * max == w
    ensures w == max && max > 0.0 ==> Share(w, max) == 1.0
  {
    var x := Share(w, max);
    if max > 0.0 {
      assert x * max == w;
      assert x < 0.0 ==> x * max < 0.0;
      assert x > 1.0 ==> (x - 1.0) * max > 0.0;
      if w == max {
        assert (x - 1.0) * max == 0.0;
      }
    }
  }

  /** Every score is its row's share of the largest weight; the clamp never acts. */
  lemma ShareInRange(rows: seq<Row>, row: Row)
    requires row in rows && row.weight >= 0.0
    ensures Candidate(row, MaxWeight(rows)).score == Share(row.weight, MaxWeight(rows))
    ensures Candidate(row, MaxWeight(rows)).score * MaxWeight(rows) == row.weight
  {
    hide MaxWeight, Candidate, Share;
    CandidateShare(row, MaxWeight(rows));
  }

  lemma CandidateShare(row: Row, max: real)
    requires 0.0 <= row.weight <= max
    ensures Candidate(row, max).score == Share(row.weight, max)
    ensures Candidate(row, max).score * max == row.weight
  {
    ShareWithin(row.weight, max);
  }

  lemma DivideMonotone(w: real, v: real, max: real)
    requires max > 0.0
    ensures w / max < v / max <==> w < v
  {
    var x, y := w / max, v / max;
    assert x * max == w && y * max == v;
    if x < y {
      assert (y - x) * max > 0.0;
    } else {
      assert (x - y) * max >= 0.0;
    }
  }

  /** Scores order candidates exactly as the raw weights order their rows. */
  lemma ScoresOrderAsWeights(rows: seq<Row>, r1: Row, r2: Row)
    requires r1 in rows && r2 in rows && r1.weight >= 0.0 && r2.weight >= 0.0
    ensures var max := MaxWeight(rows);
            Candidate(r1, max).score < Candidate(r2, max).score <==> r1.weight < r2.weight
  {
    var max := MaxWeight(rows);
    ShareInRange(rows, r1);
    ShareInRange(rows, r2);
    if max > 0.0 {
      DivideMonotone(r1.weight, r2.weight, max);
    }
  }

  lemma {:induction false} RankedMembers(rows: seq<Row>, c: ExpertCandidate)
    ensures |Ranked(rows)| == |rows|
    ensures c in Ranked(rows) <==> exists row :: row in rows && c == Candidate(row, MaxWeight(rows))
  {
    var cs := Candidates(rows, MaxWeight(rows));
    SortPermutes(RankBefore, cs);
    SortMembers(RankBefore, cs, c);
    if c in cs {
      var i :| 0 <= i < |cs| && cs[i] == c;
      assert rows[i] in rows;
    }
    if row :| row in rows && c == Candidate(row, MaxWeight(rows)) {
      var i :| 0 <= i < |rows| && rows[i] == row;
      assert cs[i] == c;
    }
  }

  lemma DistinctCandidates(rows: seq<Row>, max: real)
    requires DistinctAuthors(rows)
    ensures Distinct(Candidates(rows, max))
  {
  }

  /** The ranking is a duplicate-free permutation of the rows, strictly ordered. */
  lemma RankedIsStrict(rows: seq<Row>)
    requires DistinctAuthors(rows)
    ensures StrictlyRanked(Ranked(rows))
    ensures multiset(Ranked(rows)) == multiset(Candidates(rows, MaxWeight(rows)))
    ensures forall i, j :: 0 <= i < j < |Ranked(rows)| ==> Ranked(rows)[i].author != Ranked(rows)[j].author
  {
    var max := MaxWeight(rows);
    var cs := Candidates(rows, max);
    var ranked := Ranked(rows);
    RankBeforeIsTotalPreorder();
    SortSorts(RankBefore, cs);
    SortPermutes(RankBefore, cs);
    DistinctCandidates(rows, max);
    DistinctCounts(cs);
    CountsDistinct(ranked);
    forall i, j | 0 <= i < j < |ranked| ensures ranked[i].author != ranked[j].author {
      RankedMembers(rows, ranked[i]);
      RankedMembers(rows, ranked[j]);
      var r1 :| r1 in rows && ranked[i] == Candidate(r1, max);
      var r2 :| r2 in rows && ranked[j] == Candidate(r2, max);
      assert r1 != r2;
    }
  }

  /** The best candidate scores exactly 1 as soon as any weight is positive. */
  lemma HeadScoresOne(rows: seq<Row>)
    requires MaxWeight(rows) > 0.0 && DistinctAuthors(rows)
    requires forall row :: row in rows ==> row.weight >= 0.0
    ensures Ranked(rows) != [] && Ranked(rows)[0].score == 1.0
  {
    MaxWeightAttained(rows);
    var row :| row in rows && row.weight == MaxWeight(rows);
    var best := Candidate(row, MaxWeight(rows));
    ShareWithin(row.weight, MaxWeight(rows));
    RankedMembers(rows, best);
    RankedIsStrict(rows);
    var i :| 0 <= i < |Ranked(rows)| && Ranked(rows)[i] == best;
  }

  /** A strictly ranked list is the only ranking of its members. */
  lemma RankingUnique(rows: seq<Row>, cs: seq<ExpertCandidate>)
    requires DistinctAuthors(rows)
    requires StrictlyRanked(cs)
    requires forall c :: c in cs <==> exists row :: row in rows && c == Candidate(row, MaxWeight(rows))
    ensures Ranked(rows) == cs
  {
    var candidates := Candidates(rows, MaxWeight(rows));
    DistinctCandidates(rows, MaxWeight(rows));
    forall c ensures c in candidates <==> c in cs {
      RankedMembers(rows, c);
      SortMembers(RankBefore, candidates, c);
    }
    SameMembersSameMultiset(candidates, cs);
    RankBeforeIsTotalPreorder();
    forall a, b | a in cs && b in cs && RankBefore(a, b) && RankBefore(b, a) ensures a == b {
      LeTotal(a.author, b.author);
      LeAntisymmetric(a.author, b.author);
      var i :| 0 <= i < |cs| && cs[i] == a;
      var j :| 0 <= j < |cs| && cs[j] == b;
      assert i == j;
    }
    SortedIsFixed(RankBefore, candidates, cs);
  }
}
