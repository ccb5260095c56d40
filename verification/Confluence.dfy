/**
 * Confluence of the replay machine: every schedule of every stage, with redeliveries and lost
 * attempts, ends in the stores of the plain functional pipeline.
 */
module Confluence {
  import opened Developers
  import opened Domain
  import opened Hint
  import opened Log
  import opened Pipeline
  import opened Selection
  import opened Sequences
  import opened Skill
  import opened SkillLaws
  import opened Wrappers

  // ---------- stores as keyed tables ----------

  lemma PutLookup(s: Stores, w: Write, k: Key)
    ensures Lookup(Put(s, w), k) == if k == KeyOf(w) then Some(w) else Lookup(s, k)
  {
  }

  lemma StoresEqual(s: Stores, t: Stores)
    requires forall k :: Lookup(s, k) == Lookup(t, k)
    ensures s == t
  {
    assert s.projections == t.projections by {
      forall id ensures (id in s.projections <==> id in t.projections)
                        && (id in s.projections ==> s.projections[id] == t.projections[id]) {
        assert Lookup(s, Key(0, id)) == Lookup(t, Key(0, id));
      }
    }
    assert s.scopes == t.scopes by {
      forall id ensures (id in s.scopes <==> id in t.scopes)
                        && (id in s.scopes ==> s.scopes[id] == t.scopes[id]) {
        assert Lookup(s, Key(1, id)) == Lookup(t, Key(1, id));
      }
    }
    assert s.warmups == t.warmups by {
      forall id ensures (id in s.warmups <==> id in t.warmups)
                        && (id in s.warmups ==> s.warmups[id] == t.warmups[id]) {
        assert Lookup(s, Key(2, id)) == Lookup(t, Key(2, id));
      }
    }
    assert s.skills == t.skills by {
      forall id ensures (id in s.skills <==> id in t.skills)
                        && (id in s.skills ==> s.skills[id] == t.skills[id]) {
        assert Lookup(s, Key(3, id)) == Lookup(t, Key(3, id));
      }
    }
    assert s.hints == t.hints by {
      forall id ensures (id in s.hints <==> id in t.hints)
                        && (id in s.hints ==> s.hints[id] == t.hints[id]) {
        assert Lookup(s, Key(4, id)) == Lookup(t, Key(4, id));
      }
    }
    assert s.developers == t.developers by {
      forall id ensures (id in s.developers <==> id in t.developers)
                        && (id in s.developers ==> s.developers[id] == t.developers[id]) {
        assert Lookup(s, Key(5, id)) == Lookup(t, Key(5, id));
      }
    }
  }

  /** Every write of `ws` is what `d` holds at its key. */
  ghost predicate WritesOf(d: Stores, ws: seq<Write>) {
    forall w :: w in ws ==> Lookup(d, KeyOf(w)) == Some(w)
  }

  /** Applying writes of `d`, in any order and number, sets exactly the keys written. */
  lemma {:induction false} ApplyLookup(d: Stores, s: Stores, ws: seq<Write>, k: Key)
    requires WritesOf(d, ws)
    ensures Lookup(Apply(s, ws), k) ==
            if exists w :: w in ws && KeyOf(w) == k then Lookup(d, k) else Lookup(s, k)
  {
    if ws != [] {
      Snoc(ws);
      ApplyLookup(d, s, Init(ws), k);
      PutLookup(Apply(s, Init(ws)), Last(ws), k);
    }
  }

  lemma {:induction false} ApplyConcat(s: Stores, ws: seq<Write>, vs: seq<Write>)
    ensures Apply(s, ws + vs) == Apply(Apply(s, ws), vs)
  {
    if vs == [] {
      assert ws + vs == ws;
    } else {
      assert Init(ws + vs) == ws + Init(vs) && Last(ws + vs) == Last(vs);
      ApplyConcat(s, ws, Init(vs));
    }
  }

  // ---------- a stage reads only earlier stages ----------

  /** The stores agree on every table that stage `k` reads. */
  ghost predicate SameBelow(s: Stores, t: Stores, k: nat) {
    && (k > 0 ==> s.projections == t.projections)
    && (k > 1 ==> s.scopes == t.scopes)
    && (k > 3 ==> s.skills == t.skills)
  }

  /** An attempt lost after `n` upserts has performed exactly the first `n`; a completed one all of them. */
  lemma CutIs<T>(ws: seq<T>, n: nat)
    ensures Cut(ws, None) == ws
    ensures Cut(ws, Some(n)) <= ws && |Cut(ws, Some(n))| == if n < |ws| then n else |ws|
  {
  }

  /** The hint job's upserts: one per projected message requested, in request order. */
  lemma {:induction false} HintWritesSelect(s: Stores, ids: seq<MessageId>)
    ensures Selects(ids, HintWrites(s, ids),
                    (id: MessageId) => if id in s.projections then Some(WriteHint(HintAt(s, id))) else None)
  {
    if ids != [] {
      hide HintAt;
      HintWritesSelect(s, Init(ids));
      SelectsNext(ids, HintWrites(s, Init(ids)),
                  (id: MessageId) => if id in s.projections then Some(WriteHint(HintAt(s, id))) else None);
    }
  }

  lemma WritesHaveStage(ports: Ports, s: Stores, p: Payload)
    ensures forall w :: w in Writes(ports, s, p) ==> KeyOf(w).stage == StageOf(p)
  {
    hide Index, Gather, HintOf;
    if p.HintRequest? {
      HintWritesMembers(s, p.messages);
    }
  }

  lemma {:induction false} HintWritesMembers(s: Stores, ids: seq<MessageId>)
    ensures forall w :: w in HintWrites(s, ids) <==>
            exists id :: id in ids && id in s.projections && w == WriteHint(HintAt(s, id))
  {
    if ids != [] {
      Snoc(ids);
      HintWritesMembers(s, Init(ids));
    }
  }

  lemma {:induction false} HintWritesStable(s: Stores, t: Stores, ids: seq<MessageId>)
    requires s.projections == t.projections && s.skills == t.skills
    ensures HintWrites(s, ids) == HintWrites(t, ids)
  {
    if ids != [] {
      HintWritesStable(s, t, Init(ids));
    }
  }

  lemma WritesStable(ports: Ports, s: Stores, t: Stores, p: Payload)
    requires SameBelow(s, t, StageOf(p))
    ensures Writes(ports, s, p) == Writes(ports, t, p)
  {
    if p.HintRequest? {
      HintWritesStable(s, t, p.messages);
    }
  }

  lemma PutKeepsBelow(s: Stores, w: Write)
    ensures SameBelow(s, Put(s, w), KeyOf(w).stage)
  {
  }

  lemma {:induction false} ApplyKeepsBelow(s: Stores, ws: seq<Write>, k: nat)
    requires forall w :: w in ws ==> KeyOf(w).stage == k
    ensures SameBelow(s, Apply(s, ws), k)
  {
    if ws != [] {
      Snoc(ws);
      assert KeyOf(Last(ws)).stage == k by { assert Last(ws) in ws; }
      ApplyKeepsBelow(s, Init(ws), k);
      PutKeepsBelow(Apply(s, Init(ws)), Last(ws));
    }
  }

  /** All upserts a schedule performs, read off the stores the stage started from. */
  ghost function Performed(ports: Ports, s: Stores, schedule: seq<Attempt>): seq<Write> {
    if schedule == [] then []
    else
      Performed(ports, s, Init(schedule))
      + Cut(Writes(ports, s, Last(schedule).payload), Last(schedule).budget)
  }

  ghost predicate InStage(schedule: seq<Attempt>, k: nat) {
    forall a :: a in schedule ==> StageOf(a.payload) == k
  }

  /** The barrier: no attempt of a stage ever sees another attempt of the same stage. */
  lemma {:induction false} StageIsApply(ports: Ports, s: Stores, schedule: seq<Attempt>, k: nat)
    requires InStage(schedule, k)
    ensures RunStage(ports, s, schedule) == Apply(s, Performed(ports, s, schedule))
    ensures forall w :: w in Performed(ports, s, schedule) ==> KeyOf(w).stage == k
  {
    if schedule != [] {
      Snoc(schedule);
      var a := Last(schedule);
      StageIsApply(ports, s, Init(schedule), k);
      var now := RunStage(ports, s, Init(schedule));
      ApplyKeepsBelow(s, Performed(ports, s, Init(schedule)), k);
      WritesStable(ports, s, now, a.payload);
      WritesHaveStage(ports, s, a.payload);
      ApplyConcat(s, Performed(ports, s, Init(schedule)), Cut(Writes(ports, s, a.payload), a.budget));
    }
  }

  lemma {:induction false} PerformedMembers(ports: Ports, s: Stores, schedule: seq<Attempt>, w: Write)
    ensures w in Performed(ports, s, schedule) <==>
            exists a :: a in schedule && w in Cut(Writes(ports, s, a.payload), a.budget)
  {
    if schedule != [] {
      Snoc(schedule);
      PerformedMembers(ports, s, Init(schedule), w);
    }
  }

  // ---------- one stage ----------

  /** The tables of `d` that exist once stages 0..k-1 have run. */
  ghost function UpTo(d: Stores, k: nat): Stores {
    Stores(
      if k > 0 then d.projections else map[],
      if k > 1 then d.scopes else map[],
      if k > 2 then d.warmups else map[],
      if k > 3 then d.skills else map[],
      if k > 4 then d.hints else map[],
      if k > 5 then d.developers else map[])
  }

  /** Everything stage `k` upserts is in `d`, and everything `d` holds for stage `k` is upserted. */
  ghost predicate StageCovers(ports: Ports, d: Stores, k: nat, schedule: seq<Attempt>) {
    && WritesOf(d, Performed(ports, UpTo(d, k), schedule))
    && forall key: Key :: key.stage == k && Lookup(d, key).Some? ==>
         Lookup(d, key).value in Performed(ports, UpTo(d, k), schedule)
  }

  lemma LookupKey(d: Stores, key: Key)
    ensures Lookup(d, key).Some? && Wellkeyed(d) ==> KeyOf(Lookup(d, key).value) == key
  {
  }

  /** Every record is stored under its own identity. */
  ghost predicate Wellkeyed(d: Stores) {
    && (forall id :: id in d.projections ==> d.projections[id].messageId == id)
    && (forall id :: id in d.scopes ==> d.scopes[id].conversation == id)
    && (forall id :: id in d.warmups ==> d.warmups[id].conversation == id)
    && (forall id :: id in d.skills ==> d.skills[id].topic == id)
    && (forall id :: id in d.hints ==> d.hints[id].messageId == id)
    && (forall id :: id in d.developers ==> d.developers[id].conversation == id)
  }

  lemma UpToLookup(d: Stores, k: nat, key: Key)
    ensures Lookup(UpTo(d, k), key) == if key.stage < k then Lookup(d, key) else None
  {
  }

  lemma StageReaches(ports: Ports, d: Stores, k: nat, schedule: seq<Attempt>)
    requires Wellkeyed(d) && InStage(schedule, k)
    requires StageCovers(ports, d, k, schedule)
    ensures RunStage(ports, UpTo(d, k), schedule) == UpTo(d, k + 1)
  {
    var s := UpTo(d, k);
    var ws := Performed(ports, s, schedule);
    StageIsApply(ports, s, schedule, k);
    forall key ensures Lookup(Apply(s, ws), key) == Lookup(UpTo(d, k + 1), key) {
      ApplyLookup(d, s, ws, key);
      UpToLookup(d, k, key);
      UpToLookup(d, k + 1, key);
      LookupKey(d, key);
    }
    StoresEqual(Apply(s, ws), UpTo(d, k + 1));
  }

  // ---------- a whole run ----------

  /** A schedule for each of the six stages. */
  type Run = seq<seq<Attempt>>

  ghost predicate Completes(schedule: seq<Attempt>, p: Payload) {
    Attempt(p, None) in schedule
  }

  /** Deliveries come from the stage's payloads; past stage 0 every payload completes at least once. */
  ghost predicate ValidRun(log: seq<MessageEnvelope>, run: Run) {
    && |run| == 6
    && (forall k, a :: 0 <= k < 6 && a in run[k] ==> a.payload in StagePayloads(log, k))
    && (forall k, p :: 1 <= k < 6 && p in StagePayloads(log, k) ==> Completes(run[k], p))
  }

  /** The messages some attempt got as far as upserting. */
  ghost function Projected(run: Run): set<MessageId>
    requires |run| == 6
  {
    set a | a in run[0] && a.payload.ProcessMessage? && a.budget != Some(0) :: a.payload.message.id
  }

  lemma DerivedWellkeyed(ports: Ports, log: MessageLog, projected: set<MessageId>)
    ensures Wellkeyed(Derived(ports, log, projected))
  {
  }

  lemma EveryConversationIsDerived(ports: Ports, log: MessageLog, projected: set<MessageId>)
    ensures forall c :: c in ConversationIds(log) ==> c in Derived(ports, log, projected).warmups
  {
    hide ConversationIds, Projections, Skills, Hints, SessionDevelopersOf, SessionScope, SessionWarmup;
  }

  lemma PayloadsHaveStage(log: seq<MessageEnvelope>, k: nat, p: Payload)
    requires k < 6 && p in StagePayloads(log, k)
    ensures StageOf(p) == k
  {
    hide IdsIn, Participants, Entries, Ids, ConversationIds;
  }

  lemma ScopeSound(ports: Ports, log: MessageLog, projected: set<MessageId>, c: ConversationId)
    requires c in ConversationIds(log)
    ensures var d := Derived(ports, log, projected);
            && c in d.scopes
            && Writes(ports, UpTo(d, 1), ScopeRequest(c, IdsIn(log, c))) == [WriteScope(d.scopes[c])]
  {
    hide IdsIn, Participants, Gather, SessionTopics, BuildDevelopers, Hints, Skills, LogContributions, Projections;
  }

  lemma WarmupSound(ports: Ports, log: MessageLog, projected: set<MessageId>, c: ConversationId)
    requires c in ConversationIds(log)
    ensures var d := Derived(ports, log, projected);
            && c in d.warmups
            && Writes(ports, UpTo(d, 2), WarmupRequest(c, IdsIn(log, c))) == [WriteWarmup(d.warmups[c])]
  {
    hide IdsIn, Participants, Gather, SessionTopics, BuildDevelopers, Hints, Skills, LogContributions, Projections;
  }

  lemma DevelopersSound(ports: Ports, log: MessageLog, projected: set<MessageId>, c: ConversationId)
    requires c in ConversationIds(log)
    ensures var d := Derived(ports, log, projected);
            && c in d.developers
            && Writes(ports, UpTo(d, 5), DeveloperRequest(c, Participants(log, c), IdsIn(log, c)))
               == [WriteDevelopers(d.developers[c])]
  {
    hide IdsIn, Participants, Gather, SessionTopics, BuildDevelopers, Hints, Skills, LogContributions, Projections;
  }

  lemma ConversationSound(ports: Ports, log: MessageLog, projected: set<MessageId>, k: nat, c: ConversationId)
    requires k == 1 || k == 2 || k == 5
    requires c in ConversationIds(log)
    ensures var d := Derived(ports, log, projected);
            && Lookup(d, Key(k, c)).Some?
            && Writes(ports, UpTo(d, k), ConversationPayload(log, k, c)) == [Lookup(d, Key(k, c)).value]
            && KeyOf(Lookup(d, Key(k, c)).value) == Key(k, c)
  {
    hide IdsIn, Participants, Derived, Writes;
    ScopeSound(ports, log, projected, c);
    WarmupSound(ports, log, projected, c);
    DevelopersSound(ports, log, projected, c);
    DerivedWellkeyed(ports, log, projected);
    LookupKey(Derived(ports, log, projected), Key(k, c));
  }

  lemma SkillWritesMembers(cs: seq<SkillContribution>, w: Write)
    ensures w in SkillWrites(Index(cs).ownerships) <==>
            w.WriteSkill? && w.ownership.topic in Skills(cs) && Skills(cs)[w.ownership.topic] == w.ownership
  {
    var os := Index(cs).ownerships;
    if w.WriteSkill? {
      OwnershipMembers(cs, w.ownership);
      if w.ownership in os {
        var i :| 0 <= i < |os| && os[i] == w.ownership;
        assert SkillWrites(os)[i] == w;
      }
    }
  }

  lemma SkillSound(ports: Ports, log: MessageLog, projected: set<MessageId>, w: Write)
    ensures var d := Derived(ports, log, projected);
            w in Writes(ports, UpTo(d, 3), SkillRequest(Entries(log))) <==>
            w.WriteSkill? && w.ownership.topic in d.skills && d.skills[w.ownership.topic] == w.ownership
  {
    hide Index, SkillWrites, Skills, Contributions, Projections, Entries, Hints;
    SkillWritesMembers(LogContributions(ports, log, projected), w);
  }

  lemma HintTableWrites(s: Stores, hints: map<MessageId, RoutingHint>, ids: seq<MessageId>, w: Write)
    requires hints == Hints(s.projections, s.skills)
    requires forall id :: id in s.projections ==> id in ids && s.projections[id].messageId == id
    ensures w in HintWrites(s, ids) <==>
            w.WriteHint? && w.hint.messageId in hints && hints[w.hint.messageId] == w.hint
  {
    HintWritesMembers(s, ids);
    assert forall id :: id in s.projections ==> HintAt(s, id) == hints[id] && HintAt(s, id).messageId == id;
  }

  lemma ProjectedIds(ports: Ports, log: MessageLog, projected: set<MessageId>)
    ensures forall id :: id in Projections(ports, log, projected) ==>
      id in projected && id in Ids(log) && Projections(ports, log, projected)[id].messageId == id
  {
    forall id | id in Projections(ports, log, projected) ensures id in projected && id in Ids(log) {
      var m :| m in log && m.id in projected && m.id == id;
      var i :| 0 <= i < |log| && log[i] == m;
      assert Ids(log)[i] == id;
    }
  }

  lemma HintSound(ports: Ports, log: MessageLog, projected: set<MessageId>, w: Write)
    ensures var d := Derived(ports, log, projected);
            w in Writes(ports, UpTo(d, 4), HintRequest(Ids(log))) <==>
            w.WriteHint? && w.hint.messageId in d.hints && d.hints[w.hint.messageId] == w.hint
  {
    hide Hints, Skills, LogContributions, Projections, HintWrites;
    ProjectedIds(ports, log, projected);
    var d := Derived(ports, log, projected);
    HintTableWrites(UpTo(d, 4), d.hints, Ids(log), w);
  }

  /** Past stage 0, what a payload upserts is what the pipeline holds. */
  lemma PayloadSound(ports: Ports, log: MessageLog, projected: set<MessageId>, k: nat, p: Payload, w: Write)
    requires 1 <= k < 6 && p in StagePayloads(log, k)
    requires w in Writes(ports, UpTo(Derived(ports, log, projected), k), p)
    ensures Lookup(Derived(ports, log, projected), KeyOf(w)) == Some(w)
  {
    hide Derived, Writes;
    if k == 3 {
      SkillSound(ports, log, projected, w);
    } else if k == 4 {
      HintSound(ports, log, projected, w);
    } else {
      var cs := ConversationIds(log);
      var i :| 0 <= i < |cs| && ConversationPayloads(log, k, cs)[i] == p;
      ConversationSound(ports, log, projected, k, cs[i]);
    }
  }

  lemma DerivedConversations(ports: Ports, log: MessageLog, projected: set<MessageId>, key: Key)
    requires key.stage == 1 || key.stage == 2 || key.stage == 5
    ensures Lookup(Derived(ports, log, projected), key).Some? <==> key.id in ConversationIds(log)
  {
    hide Hints, Skills, LogContributions, Projections, ConversationIds, SessionScope, SessionWarmup,
         SessionDevelopersOf;
  }

  lemma ConversationPayloadOf(log: seq<MessageEnvelope>, k: nat, c: ConversationId)
    requires k == 1 || k == 2 || k == 5
    requires c in ConversationIds(log)
    ensures ConversationPayload(log, k, c) in StagePayloads(log, k)
  {
    hide ConversationIds, ConversationPayload;
    var cs := ConversationIds(log);
    var i :| 0 <= i < |cs| && cs[i] == c;
    assert ConversationPayloads(log, k, cs)[i] == ConversationPayload(log, k, c);
  }

  /** Past stage 0, what the pipeline holds for a stage is upserted by one of its payloads. */
  lemma PayloadComplete(ports: Ports, log: MessageLog, projected: set<MessageId>, k: nat, key: Key)
    returns (p: Payload)
    requires 1 <= k < 6 && key.stage == k && Lookup(Derived(ports, log, projected), key).Some?
    ensures p in StagePayloads(log, k)
    ensures var d := Derived(ports, log, projected);
            Lookup(d, key).value in Writes(ports, UpTo(d, k), p)
  {
    hide Derived, Writes, UpTo, ConversationPayload;
    var d := Derived(ports, log, projected);
    DerivedWellkeyed(ports, log, projected);
    LookupKey(d, key);
    if k == 3 {
      p := SkillRequest(Entries(log));
      SkillSound(ports, log, projected, Lookup(d, key).value);
    } else if k == 4 {
      p := HintRequest(Ids(log));
      HintSound(ports, log, projected, Lookup(d, key).value);
    } else {
      p := ConversationPayload(log, k, key.id);
      DerivedConversations(ports, log, projected, key);
      hide Lookup, StagePayloads;
      ConversationSound(ports, log, projected, k, key.id);
      ConversationPayloadOf(log, k, key.id);
    }
  }

  lemma StageCovered(ports: Ports, log: MessageLog, run: Run, k: nat)
    requires ValidRun(log, run) && 1 <= k < 6
    ensures InStage(run[k], k)
    ensures StageCovers(ports, Derived(ports, log, Projected(run)), k, run[k])
  {
    var d := Derived(ports, log, Projected(run));
    var s := UpTo(d, k);
    forall a | a in run[k] ensures StageOf(a.payload) == k {
      PayloadsHaveStage(log, k, a.payload);
    }
    forall w | w in Performed(ports, s, run[k]) ensures Lookup(d, KeyOf(w)) == Some(w) {
      PerformedMembers(ports, s, run[k], w);
      var a :| a in run[k] && w in Cut(Writes(ports, s, a.payload), a.budget);
      PayloadSound(ports, log, Projected(run), k, a.payload, w);
    }
    forall key: Key | key.stage == k && Lookup(d, key).Some?
      ensures Lookup(d, key).value in Performed(ports, s, run[k]) {
      var p := PayloadComplete(ports, log, Projected(run), k, key);
      assert Completes(run[k], p);
      PerformedMembers(ports, s, run[k], Lookup(d, key).value);
    }
  }

  lemma ProjectionAt(ports: Ports, log: MessageLog, projected: set<MessageId>, m: MessageEnvelope)
    requires m in log && m.id in projected
    ensures m.id in Projections(ports, log, projected)
    ensures Projections(ports, log, projected)[m.id] == Project(ports, m)
  {
  }

  lemma DerivedProjections(ports: Ports, log: MessageLog, projected: set<MessageId>)
    ensures Derived(ports, log, projected).projections == Projections(ports, log, projected)
  {
  }

  lemma ProjectionStagePayloads(log: MessageLog, run: Run, a: Attempt)
    requires ValidRun(log, run) && a in run[0]
    ensures a.payload.ProcessMessage? && a.payload.message in log
  {
    assert a.payload in StagePayloads(log, 0);
  }

  /** What the projection stage upserts is what the pipeline holds. */
  lemma ProjectionSound(ports: Ports, log: MessageLog, run: Run, w: Write)
    requires ValidRun(log, run)
    requires w in Performed(ports, EMPTY_STORES, run[0])
    ensures Lookup(Derived(ports, log, Projected(run)), KeyOf(w)) == Some(w)
  {
    hide Projections, Performed, Derived;
    DerivedProjections(ports, log, Projected(run));
    PerformedMembers(ports, EMPTY_STORES, run[0], w);
    var a :| a in run[0] && w in Cut(Writes(ports, EMPTY_STORES, a.payload), a.budget);
    ProjectionStagePayloads(log, run, a);
    ProjectionAt(ports, log, Projected(run), a.payload.message);
  }

  /** Each projection the pipeline holds is upserted by the attempt that got that far. */
  lemma ProjectionComplete(ports: Ports, log: MessageLog, run: Run, key: Key)
    requires ValidRun(log, run)
    requires key.stage == 0 && Lookup(Derived(ports, log, Projected(run)), key).Some?
    ensures Lookup(Derived(ports, log, Projected(run)), key).value in Performed(ports, EMPTY_STORES, run[0])
  {
    hide Projections, Performed, Derived;
    DerivedProjections(ports, log, Projected(run));
    ProjectedIds(ports, log, Projected(run));
    var a :| a in run[0] && a.payload.ProcessMessage? && a.budget != Some(0) && a.payload.message.id == key.id;
    ProjectionStagePayloads(log, run, a);
    ProjectionAt(ports, log, Projected(run), a.payload.message);
    PerformedMembers(ports, EMPTY_STORES, run[0], Lookup(Derived(ports, log, Projected(run)), key).value);
  }

  lemma ProjectionStageCovered(ports: Ports, log: MessageLog, run: Run)
    requires ValidRun(log, run)
    ensures InStage(run[0], 0)
    ensures StageCovers(ports, Derived(ports, log, Projected(run)), 0, run[0])
  {
    hide Performed, Derived, Lookup, Projected;
    var d := Derived(ports, log, Projected(run));
    assert UpTo(d, 0) == EMPTY_STORES;
    forall a | a in run[0] ensures a.payload.ProcessMessage? {
      ProjectionStagePayloads(log, run, a);
    }
    forall w | w in Performed(ports, EMPTY_STORES, run[0]) ensures Lookup(d, KeyOf(w)) == Some(w) {
      ProjectionSound(ports, log, run, w);
    }
    forall key: Key | key.stage == 0 && Lookup(d, key).Some?
      ensures Lookup(d, key).value in Performed(ports, EMPTY_STORES, run[0]) {
      ProjectionComplete(ports, log, run, key);
    }
  }

  lemma {:induction false} StagesReach(ports: Ports, log: MessageLog, run: Run, k: nat)
    requires ValidRun(log, run) && k <= 6
    ensures RunStages(ports, EMPTY_STORES, run[..k]) == UpTo(Derived(ports, log, Projected(run)), k)
  {
    if k > 0 {
      StagesReach(ports, log, run, k - 1);
      PrefixStep(run, k - 1);
      DerivedWellkeyed(ports, log, Projected(run));
      if k == 1 {
        ProjectionStageCovered(ports, log, run);
      } else {
        StageCovered(ports, log, run, k - 1);
      }
      StageReaches(ports, Derived(ports, log, Projected(run)), k - 1, run[k - 1]);
    }
  }

  /**
   * Confluence. Any order, any redeliveries, any attempts lost part way: once every payload has
   * completed, all six stores are the functional pipeline over exactly the messages that projected.
   */
  lemma ReplayConfluence(ports: Ports, log: MessageLog, run: Run)
    requires ValidRun(log, run)
    ensures RunStages(ports, EMPTY_STORES, run) == Derived(ports, log, Projected(run))
  {
    StagesReach(ports, log, run, 6);
    WholePrefix(run);
    assert UpTo(Derived(ports, log, Projected(run)), 6) == Derived(ports, log, Projected(run));
  }

  /** Every message was projected by some attempt. */
  ghost predicate FullRun(log: seq<MessageEnvelope>, run: Run) {
    ValidRun(log, run) && forall m :: m in log ==> m.id in Projected(run)
  }

  lemma OnlyLogIdsMatter(ports: Ports, log: MessageLog, p: set<MessageId>, q: set<MessageId>)
    requires forall m :: m in log ==> (m.id in p <==> m.id in q)
    ensures Derived(ports, log, p) == Derived(ports, log, q)
  {
    assert Projections(ports, log, p) == Projections(ports, log, q);
  }

  /** Replay determinism: two replays of one log agree on all six stores. */
  lemma ReplayDeterminism(ports: Ports, log: MessageLog, run: Run)
    requires FullRun(log, run)
    ensures RunStages(ports, EMPTY_STORES, run) == Replayed(ports, log)
  {
    ReplayConfluence(ports, log, run);
    forall m | m in log ensures m.id in Set(Ids(log)) {
      var i :| 0 <= i < |log| && log[i] == m;
      assert Ids(log)[i] == m.id;
    }
    OnlyLogIdsMatter(ports, log, Projected(run), Set(Ids(log)));
  }
}
