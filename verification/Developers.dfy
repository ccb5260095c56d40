/** The developer snapshotter: who took part in a session, and which of its topics each one owns. */
module Developers {
  import opened Domain
  import opened Sequences
  import opened Sorting
  import opened Wrappers

  /** The first candidate by this author, if any. */
  function CandidateBy(cs: seq<ExpertCandidate>, a: AuthorId): Option<ExpertCandidate> {
    if cs == [] then None
    else if cs[0].author == a then Some(cs[0])
    else CandidateBy(cs[1..], a)
  }

  function Owned(os: seq<TopicOwnership>, a: AuthorId): seq<TopicWeight> {
    if os == [] then []
    else
      Owned(Init(os), a)
      + (match CandidateBy(Last(os).candidates, a)
         case Some(c) => [TopicWeight(Last(os).topic, c.score)]
         case None => [])
  }

  predicate TopicBefore(a: TopicWeight, b: TopicWeight) {
    a.weight > b.weight || (a.weight == b.weight && Le(a.topic, b.topic))
  }

  predicate AuthorBefore(a: DeveloperSnapshot, b: DeveloperSnapshot) {
    Le(a.author, b.author)
  }

  function Snapshot(p: Participant, os: seq<TopicOwnership>): DeveloperSnapshot {
    DeveloperSnapshot(p.author, p.displayName, Sort(TopicBefore, Owned(os, p.author)))
  }

  function Snapshots(ps: seq<Participant>, os: seq<TopicOwnership>): (r: seq<DeveloperSnapshot>)
    ensures |r| == |ps|
    ensures forall i :: 0 <= i < |ps| ==> r[i] == Snapshot(ps[i], os)
  {
    if ps == [] then [] else Snapshots(Init(ps), os) + [Snapshot(Last(ps), os)]
  }

  function BuildDevelopers(c: ConversationId, ps: seq<Participant>, os: seq<TopicOwnership>): SessionDevelopers {
    SessionDevelopers(c, Sort(AuthorBefore, Snapshots(ps, os)))
  }

  // ---------- what the snapshot means ----------

  predicate StrictlyRankedTopics(ts: seq<TopicWeight>) {
    forall i, j :: 0 <= i < j < |ts| ==>
      ts[i].weight > ts[j].weight || (ts[i].weight == ts[j].weight && Lt(ts[i].topic, ts[j].topic))
  }

  predicate DistinctTopics(os: seq<TopicOwnership>) {
    forall i, j :: 0 <= i < j < |os| ==> os[i].topic != os[j].topic
  }

  lemma {:induction false} FindMembers(cs: seq<ExpertCandidate>, a: AuthorId)
    ensures CandidateBy(cs, a).Some? ==> CandidateBy(cs, a).value in cs && CandidateBy(cs, a).value.author == a
    ensures CandidateBy(cs, a).None? ==> forall c :: c in cs ==> c.author != a
  {
    if cs != [] && cs[0].author != a {
      FindMembers(cs[1..], a);
      assert cs == [cs[0]] + cs[1..];
    }
  }

  lemma {:induction false} OwnedMembers(os: seq<TopicOwnership>, a: AuthorId, w: TopicWeight)
    ensures w in Owned(os, a) <==>
            exists o :: o in os && o.topic == w.topic && CandidateBy(o.candidates, a).Some?
                        && w.weight == CandidateBy(o.candidates, a).value.score
  {
    if os != [] {
      Snoc(os);
      OwnedMembers(Init(os), a, w);
    }
  }

  lemma {:induction false} OwnedDistinct(os: seq<TopicOwnership>, a: AuthorId)
    requires DistinctTopics(os)
    ensures forall i, j :: 0 <= i < j < |Owned(os, a)| ==> Owned(os, a)[i].topic != Owned(os, a)[j].topic
  {
    if os != [] {
      OwnedDistinct(Init(os), a);
      var before := Owned(Init(os), a);
      forall i | 0 <= i < |before| ensures before[i].topic != Last(os).topic {
        OwnedMembers(Init(os), a, before[i]);
        var o :| o in Init(os) && o.topic == before[i].topic;
        var k :| 0 <= k < |Init(os)| && Init(os)[k] == o;
        assert os[k].topic != os[|os| - 1].topic;
      }
    }
  }

  lemma TopicBeforeIsTotalPreorder()
    ensures TotalPreorder(TopicBefore)
  {
    forall a: TopicWeight, b: TopicWeight ensures TopicBefore(a, b) || TopicBefore(b, a) {
      LeTotal(a.topic, b.topic);
    }
    forall a: TopicWeight, b: TopicWeight, c: TopicWeight
      | TopicBefore(a, b) && TopicBefore(b, c) ensures TopicBefore(a, c) {
      if a.weight == c.weight {
        LeTransitive(a.topic, b.topic, c.topic);
      }
    }
  }

  lemma AuthorBeforeIsTotalPreorder()
    ensures TotalPreorder(AuthorBefore)
  {
    forall a: DeveloperSnapshot, b: DeveloperSnapshot ensures AuthorBefore(a, b) || AuthorBefore(b, a) {
      LeTotal(a.author, b.author);
    }
    forall a: DeveloperSnapshot, b: DeveloperSnapshot, c: DeveloperSnapshot
      | AuthorBefore(a, b) && AuthorBefore(b, c) ensures AuthorBefore(a, c) {
      LeTransitive(a.author, b.author, c.author);
    }
  }

  /** Sorting keeps distinct keys distinct. */
  lemma SortKeepsDistinct<T, K>(le: (T, T) -> bool, s: seq<T>, key: T -> K)
    requires forall i, j :: 0 <= i < j < |s| ==> key(s[i]) != key(s[j])
    ensures forall i, j :: 0 <= i < j < |Sort(le, s)| ==> key(Sort(le, s)[i]) != key(Sort(le, s)[j])
  {
    var r := Sort(le, s);
    SortPermutes(le, s);
    DistinctCounts(s);
    CountsDistinct(r);
    forall i, j | 0 <= i < j < |r| ensures key(r[i]) != key(r[j]) {
      SortMembers(le, s, r[i]);
      SortMembers(le, s, r[j]);
      var a :| 0 <= a < |s| && s[a] == r[i];
      var b :| 0 <= b < |s| && s[b] == r[j];
      assert a != b;
    }
  }

  /** One developer's topics: those they are a candidate on, weighted by score, strictly ranked. */
  lemma SnapshotTopics(p: Participant, os: seq<TopicOwnership>)
    requires DistinctTopics(os)
    ensures StrictlyRankedTopics(Snapshot(p, os).topics)
    ensures forall w :: w in Snapshot(p, os).topics <==>
            exists o :: o in os && o.topic == w.topic && CandidateBy(o.candidates, p.author).Some?
                        && w.weight == CandidateBy(o.candidates, p.author).value.score
  {
    var owned := Owned(os, p.author);
    OwnedDistinct(os, p.author);
    TopicBeforeIsTotalPreorder();
    SortSorts(TopicBefore, owned);
    SortKeepsDistinct(TopicBefore, owned, (w: TopicWeight) => w.topic);
    forall w ensures w in Snapshot(p, os).topics <==>
            exists o :: o in os && o.topic == w.topic && CandidateBy(o.candidates, p.author).Some?
                        && w.weight == CandidateBy(o.candidates, p.author).value.score {
      SortMembers(TopicBefore, owned, w);
      OwnedMembers(os, p.author, w);
    }
  }

  /** The developers are the participants, once each, in strictly ascending author order. */
  lemma DevelopersAreParticipants(c: ConversationId, ps: seq<Participant>, os: seq<TopicOwnership>)
    requires forall i, j :: 0 <= i < j < |ps| ==> ps[i].author != ps[j].author
    ensures var ds := BuildDevelopers(c, ps, os).developers;
            && |ds| == |ps|
            && (forall i, j :: 0 <= i < j < |ds| ==> Lt(ds[i].author, ds[j].author))
            && (forall d :: d in ds <==> exists p :: p in ps && d == Snapshot(p, os))
  {
    var all := Snapshots(ps, os);
    AuthorBeforeIsTotalPreorder();
    SortSorts(AuthorBefore, all);
    SortPermutes(AuthorBefore, all);
    SortKeepsDistinct(AuthorBefore, all, (d: DeveloperSnapshot) => d.author);
    forall d ensures d in Sort(AuthorBefore, all) <==> exists p :: p in ps && d == Snapshot(p, os) {
      SortMembers(AuthorBefore, all, d);
      if d in all {
        var i :| 0 <= i < |all| && all[i] == d;
        assert ps[i] in ps;
      }
      if p :| p in ps && d == Snapshot(p, os) {
        var i :| 0 <= i < |ps| && ps[i] == p;
        assert all[i] == d;
      }
    }
  }

  /** Strictly ranked topics are determined by their members. */
  lemma TopicsUnique(xs: seq<TopicWeight>, ys: seq<TopicWeight>)
    requires StrictlyRankedTopics(xs) && StrictlyRankedTopics(ys)
    requires forall w :: w in xs <==> w in ys
    ensures xs == ys
  {
    SameMembersSameMultiset(xs, ys);
    forall a, b | a in xs && b in xs && TopicBefore(a, b) && TopicBefore(b, a) ensures a == b {
      LeAntisymmetric(a.topic, b.topic);
    }
    SortedUnique(TopicBefore, xs, ys);
  }

  /** Developers in strictly ascending author order are determined by their members. */
  lemma DevelopersUnique(xs: seq<DeveloperSnapshot>, ys: seq<DeveloperSnapshot>)
    requires forall i, j :: 0 <= i < j < |xs| ==> Lt(xs[i].author, xs[j].author)
    requires forall i, j :: 0 <= i < j < |ys| ==> Lt(ys[i].author, ys[j].author)
    requires forall d :: d in xs <==> d in ys
    ensures xs == ys
  {
    SameMembersSameMultiset(xs, ys);
    forall a, b | a in xs && b in xs && AuthorBefore(a, b) && AuthorBefore(b, a) ensures a == b {
      LeAntisymmetric(a.author, b.author);
      var i :| 0 <= i < |xs| && xs[i] == a;
      var j :| 0 <= j < |xs| && xs[j] == b;
      assert i == j;
    }
    SortedUnique(AuthorBefore, xs, ys);
  }
}
