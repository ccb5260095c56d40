/** The six jobs over the mutable stores, the stage runner and the six phases of a replay. */
module Replay {
  import opened Confluence
  import opened Developers
  import opened Domain
  import opened Grouping
  import opened Hint
  import opened Log
  import opened Pipeline
  import opened Sequences
  import opened Skill
  import opened Wrappers

  /** The broker's contract: every delivery is of an enqueued payload. */
  ghost predicate Draws(payloads: seq<Payload>, schedule: seq<Attempt>) {
    forall a :: a in schedule ==> a.payload in payloads
  }

  class ReplayStores {
    var projections: map<MessageId, Projection>
    var scopes: map<ConversationId, Scope>
    var warmups: map<ConversationId, WarmupDocument>
    var skills: map<Topic, TopicOwnership>
    var hints: map<MessageId, RoutingHint>
    var developers: map<ConversationId, SessionDevelopers>

    function View(): Stores
      reads this
    {
      Stores(projections, scopes, warmups, skills, hints, developers)
    }

    constructor ()
      ensures View() == EMPTY_STORES
    {
      projections, scopes, warmups := map[], map[], map[];
      skills, hints, developers := map[], map[], map[];
    }

    /** Insert or replace the record for its own key, in the store of its kind. */
    method Upsert(w: Write)
      modifies this
      ensures View() == Put(old(View()), w)
    {
      match w {
        case WriteProjection(p) => projections := projections[p.messageId := p];
        case WriteScope(s) => scopes := scopes[s.conversation := s];
        case WriteWarmup(d) => warmups := warmups[d.conversation := d];
        case WriteSkill(o) => skills := skills[o.topic := o];
        case WriteHint(h) => hints := hints[h.messageId := h];
        case WriteDevelopers(d) => developers := developers[d.conversation := d];
      }
    }

    /** Jobs with a single upsert: project, scope, warm-up. */
    method RunSingle(ports: Ports, p: Payload, budget: Option<nat>)
      requires p.ProcessMessage? || p.ScopeRequest? || p.WarmupRequest?
      modifies this
      ensures View() == Deliver(ports, old(View()), Attempt(p, budget))
      ensures budget == Some(0) ==> View() == old(View())
      ensures budget != Some(0) && p.ProcessMessage? ==>
                View() == old(View()).(projections := old(projections)[
                  p.message.id := ports.project(p.message.id, p.message.body).(messageId := p.message.id)])
      ensures budget != Some(0) && p.ScopeRequest? ==>
                View() == old(View()).(scopes := old(scopes)[
                  p.conversation :=
                    ports.scope(p.conversation, Gather(old(projections), p.messages)).(conversation := p.conversation)])
      ensures budget != Some(0) && p.WarmupRequest? ==>
                View() == old(View()).(warmups := old(warmups)[
                  p.conversation :=
                    ports.warmup(
                      p.conversation, Find(old(scopes), p.conversation), Gather(old(projections), p.messages)
                    ).(conversation := p.conversation)])
    {
      var w: Write;
      match p {
        case ProcessMessage(m) =>
          w := WriteProjection(Project(ports, m));
        case ScopeRequest(c, ids) =>
          w := WriteScope(ScopeOf(ports, c, Gather(projections, ids)));
        case WarmupRequest(c, ids) =>
          var scope := if c in scopes then Some(scopes[c]) else None;
          w := WriteWarmup(WarmupOf(ports, c, scope, Gather(projections, ids)));
      }
      assert Writes(ports, View(), p) == [w];
      ApplyOne(View(), w);
      if budget != Some(0) {
        Upsert(w);
      }
    }

    method RunSkill(ports: Ports, entries: seq<SkillEntry>, budget: Option<nat>)
      modifies this
      ensures View() == Deliver(ports, old(View()), Attempt(SkillRequest(entries), budget))
    {
      hide Index, Contributions, Apply, Put;
      var index := Build(Contributions(projections, entries));
      var os := index.ownerships;
      ghost var ws := SkillWrites(os);
      assert ws == Writes(ports, View(), SkillRequest(entries));
      ApplyNone(View(), ws);
      for i := 0 to |os|
        invariant budget.Some? ==> i <= budget.value
        invariant View() == Apply(old(View()), ws[..i])
      {
        if budget == Some(i) {
          return;
        }
        ApplyStep(old(View()), ws, i);
        Upsert(WriteSkill(os[i]));
      }
      WholePrefix(ws);
    }

    method RunHints(ports: Ports, ids: seq<MessageId>, budget: Option<nat>)
      modifies this
      ensures View() == Deliver(ports, old(View()), Attempt(HintRequest(ids), budget))
    {
      hide HintOf, Gather, Apply, Put, HintWrites;
      ghost var start := View();
      ghost var ws := HintWrites(start, ids);
      ApplyNone(start, ws);
      HintWritesNone(start, ids);
      var done := 0;
      for i := 0 to |ids|
        invariant done == |HintWrites(start, ids[..i])| <= |ws|
        invariant budget.Some? ==> done <= budget.value
        invariant View() == Apply(start, ws[..done])
        invariant projections == start.projections && skills == start.skills
      {
        HintWritesStep(start, ids, i);
        if ids[i] in projections {
          if budget == Some(done) {
            return;
          }
          var projection := projections[ids[i]];
          var hint := BuildHint(projection, Gather(skills, projection.topics));
          ApplyStep(start, ws, done);
          PutKeepsBelow(View(), WriteHint(hint));
          Upsert(WriteHint(hint));
          done := done + 1;
        }
      }
      WholePrefix(ids);
      WholePrefix(ws);
    }

    /** The ownerships of the session's distinct topics, each fetched once, in first-seen order. */
    method CollectOwnerships(ids: seq<MessageId>) returns (os: seq<TopicOwnership>)
      ensures os == SessionOwnerships(View(), ids)
    {
      hide FirstSeen, SessionOwnerships, Collected;
      var seen: set<Topic> := {};
      os := [];
      CollectNone(projections, skills);
      for i := 0 to |ids|
        invariant Collected(AllTopics(Gather(projections, ids[..i])), skills, seen, os)
      {
        PrefixStep(ids, i);
        if ids[i] in projections {
          var topics := projections[ids[i]].topics;
          ghost var before := AllTopics(Gather(projections, ids[..i]));
          assert before + topics[..0] == before;
          for j := 0 to |topics|
            invariant Collected(before + topics[..j], skills, seen, os)
          {
            CollectStep(before + topics[..j], topics[j], skills, seen, os);
            PrefixStep(topics, j);
            assert before + topics[..j + 1] == (before + topics[..j]) + [topics[j]];
            if topics[j] !in seen && topics[j] in skills {
              os := os + [skills[topics[j]]];
            }
            seen := seen + {topics[j]};
          }
          WholePrefix(topics);
          AllTopicsStep(projections, ids, i);
        } else {
          assert Gather(projections, ids[..i + 1]) == Gather(projections, ids[..i]);
        }
      }
      WholePrefix(ids);
      CollectDone(View(), ids, seen, os);
    }

    method RunDevelopers(
      ports: Ports, c: ConversationId, participants: seq<Participant>, ids: seq<MessageId>, budget: Option<nat>)
      modifies this
      ensures View() == Deliver(ports, old(View()), Attempt(DeveloperRequest(c, participants, ids), budget))
    {
      hide SessionOwnerships, Apply, Put;
      var os := CollectOwnerships(ids);
      var w := WriteDevelopers(BuildDevelopers(c, participants, os));
      assert Writes(ports, View(), DeveloperRequest(c, participants, ids)) == [w];
      ApplyOne(View(), w);
      if budget != Some(0) {
        Upsert(w);
      }
    }

    method Handle(ports: Ports, a: Attempt)
      modifies this
      ensures View() == Deliver(ports, old(View()), a)
    {
      match a.payload {
        case SkillRequest(entries) => RunSkill(ports, entries, a.budget);
        case HintRequest(ids) => RunHints(ports, ids, a.budget);
        case DeveloperRequest(c, ps, ids) => RunDevelopers(ports, c, ps, ids, a.budget);
        case _ => RunSingle(ports, a.payload, a.budget);
      }
    }

    /** Drain a stage: the broker delivers `schedule` out of the enqueued payloads. */
    method Drain(ports: Ports, payloads: seq<Payload>, schedule: seq<Attempt>)
      requires Draws(payloads, schedule)
      modifies this
      ensures View() == RunStage(ports, old(View()), schedule)
    {
      for i := 0 to |schedule|
        invariant View() == RunStage(ports, old(View()), schedule[..i])
      {
        PrefixStep(schedule, i);
        Handle(ports, schedule[i]);
      }
      WholePrefix(schedule);
    }
  }

  /** The fan-out per conversation, from the single-pass grouping. */
  method PerConversation(
    log: seq<MessageEnvelope>, groups: seq<Group<MessageId>>,
    participants: map<ConversationId, seq<Participant>>, stage: nat)
    returns (payloads: seq<Payload>)
    requires groups == IdGroups(log, ConversationIds(log))
    requires stage == 5 ==> participants.Keys == Set(ConversationIds(log))
                            && forall c :: c in participants ==> participants[c] == Participants(log, c)
    requires stage == 1 || stage == 2 || stage == 5
    ensures payloads == StagePayloads(log, stage)
  {
    hide IdsIn, Participants, ConversationIds, ConversationPayloads;
    payloads := [];
    ghost var cs := ConversationIds(log);
    for i := 0 to |groups|
      invariant |payloads| == i
      invariant forall k :: 0 <= k < i ==> payloads[k] == ConversationPayload(log, stage, cs[k])
    {
      var c, ids := groups[i].conversation, groups[i].members;
      assert c == cs[i] && c in Set(cs);
      payloads := payloads + [
        if stage == 1 then ScopeRequest(c, ids)
        else if stage == 2 then WarmupRequest(c, ids)
        else DeveloperRequest(c, participants[c], ids)];
    }
    assert payloads == ConversationPayloads(log, stage, cs);
  }

  /** Replay the log into fresh stores; `run` is what the brokers of the six stages deliver. */
  method RunPhases(ports: Ports, log: MessageLog, run: Run) returns (stores: ReplayStores)
    requires ValidRun(log, run)
    ensures fresh(stores)
    ensures stores.View() == Derived(ports, log, Projected(run))
  {
    hide Derived, RunStages, RunStage, StagePayloads, ValidRun;
    stores := new ReplayStores();
    var conversations := GroupByConversation(log);
    RunDraws(log, run);
    stores.Drain(ports, MessagePayloads(log), run[0]);
    var scopeRequests := PerConversation(log, conversations, map[], 1);
    stores.Drain(ports, scopeRequests, run[1]);
    var warmupRequests := PerConversation(log, conversations, map[], 2);
    stores.Drain(ports, warmupRequests, run[2]);
    stores.Drain(ports, [SkillRequest(Entries(log))], run[3]);
    stores.Drain(ports, [HintRequest(Ids(log))], run[4]);
    var participants := ParticipantsByConversation(log);
    var developerRequests := PerConversation(log, conversations, participants, 5);
    stores.Drain(ports, developerRequests, run[5]);
    SixStages(ports, run);
    ReplayConfluence(ports, log, run);
  }

  // ---------- steps ----------

  lemma ApplyOne(s: Stores, w: Write)
    ensures Apply(s, []) == s && Apply(s, [w]) == Put(s, w)
    ensures forall budget: Option<nat> :: Cut([w], budget) == if budget == Some(0) then [] else [w]
  {
    assert Init([w]) == [] && Last([w]) == w;
  }

  lemma ApplyNone(s: Stores, ws: seq<Write>)
    ensures Apply(s, ws[..0]) == s
  {
  }

  lemma ApplyStep(s: Stores, ws: seq<Write>, i: nat)
    requires i < |ws|
    ensures Apply(s, ws[..i + 1]) == Put(Apply(s, ws[..i]), ws[i])
  {
    PrefixStep(ws, i);
  }

  lemma HintWritesNone(s: Stores, ids: seq<MessageId>)
    ensures HintWrites(s, ids[..0]) == []
  {
  }

  lemma {:induction false} HintWritesPrefix(s: Stores, ids: seq<MessageId>, i: nat)
    requires i <= |ids|
    ensures HintWrites(s, ids[..i]) <= HintWrites(s, ids)
    decreases |ids| - i
  {
    if i < |ids| {
      PrefixStep(ids, i);
      HintWritesPrefix(s, ids, i + 1);
    } else {
      WholePrefix(ids);
    }
  }

  lemma HintWritesStep(s: Stores, ids: seq<MessageId>, i: nat)
    requires i < |ids|
    ensures var n, ws := |HintWrites(s, ids[..i])|, HintWrites(s, ids);
            if ids[i] in s.projections then
              |HintWrites(s, ids[..i + 1])| == n + 1 <= |ws| && ws[n] == WriteHint(HintAt(s, ids[i]))
            else
              |HintWrites(s, ids[..i + 1])| == n <= |ws|
  {
    hide HintAt;
    PrefixStep(ids, i);
    HintWritesPrefix(s, ids, i + 1);
  }

  ghost predicate Collected(
    topics: seq<Topic>, skills: map<Topic, TopicOwnership>, seen: set<Topic>, os: seq<TopicOwnership>)
  {
    && seen == Set(topics)
    && os == Gather(skills, FirstSeen(topics))
  }

  lemma CollectNone(projections: map<MessageId, Projection>, skills: map<Topic, TopicOwnership>)
    ensures Collected(AllTopics(Gather(projections, [])), skills, {}, [])
  {
  }

  lemma CollectDone(s: Stores, ids: seq<MessageId>, seen: set<Topic>, os: seq<TopicOwnership>)
    requires Collected(AllTopics(Gather(s.projections, ids)), s.skills, seen, os)
    ensures os == SessionOwnerships(s, ids)
  {
  }

  lemma CollectStep(
    topics: seq<Topic>, t: Topic, skills: map<Topic, TopicOwnership>, seen: set<Topic>, os: seq<TopicOwnership>)
    requires Collected(topics, skills, seen, os)
    ensures Collected(topics + [t], skills, seen + {t},
                      if t !in seen && t in skills then os + [skills[t]] else os)
  {
    var more := topics + [t];
    assert Init(more) == topics && Last(more) == t;
    Snoc(more);
    FirstSeenMembers(topics);
    var firsts := FirstSeen(topics);
    assert Init(firsts + [t]) == firsts && Last(firsts + [t]) == t;
  }

  lemma AllTopicsStep(projections: map<MessageId, Projection>, ids: seq<MessageId>, i: nat)
    requires i < |ids| && ids[i] in projections
    ensures AllTopics(Gather(projections, ids[..i + 1]))
         == AllTopics(Gather(projections, ids[..i])) + projections[ids[i]].topics
  {
    PrefixStep(ids, i);
    var ps := Gather(projections, ids[..i]);
    var p := projections[ids[i]];
    assert Init(ps + [p]) == ps && Last(ps + [p]) == p;
  }

  lemma RunDraws(log: MessageLog, run: Run)
    requires ValidRun(log, run)
    ensures |run| == 6
    ensures Draws(MessagePayloads(log), run[0])
    ensures Draws(StagePayloads(log, 1), run[1])
    ensures Draws(StagePayloads(log, 2), run[2])
    ensures Draws([SkillRequest(Entries(log))], run[3])
    ensures Draws([HintRequest(Ids(log))], run[4])
    ensures Draws(StagePayloads(log, 5), run[5])
  {
    hide MessagePayloads, ConversationPayloads, Entries, Ids, ConversationIds;
    assert StagePayloads(log, 0) == MessagePayloads(log);
    assert StagePayloads(log, 3) == [SkillRequest(Entries(log))];
    assert StagePayloads(log, 4) == [HintRequest(Ids(log))];
  }

  lemma SixStages(ports: Ports, run: Run)
    requires |run| == 6
    ensures RunStages(ports, EMPTY_STORES, run) ==
            RunStage(ports, RunStage(ports, RunStage(ports, RunStage(ports, RunStage(ports, RunStage(ports,
              EMPTY_STORES, run[0]), run[1]), run[2]), run[3]), run[4]), run[5])
  {
    hide RunStage, RunStages;
    NoStages(ports, run);
    StagesFrom(ports, run, 0);
    StagesFrom(ports, run, 1);
    StagesFrom(ports, run, 2);
    StagesFrom(ports, run, 3);
    StagesFrom(ports, run, 4);
    StagesFrom(ports, run, 5);
    WholePrefix(run);
  }

  lemma NoStages(ports: Ports, run: Run)
    ensures RunStages(ports, EMPTY_STORES, run[..0]) == EMPTY_STORES
  {
  }

  lemma StagesFrom(ports: Ports, run: Run, i: nat)
    requires i < |run|
    ensures RunStages(ports, EMPTY_STORES, run[..i + 1])
         == RunStage(ports, RunStages(ports, EMPTY_STORES, run[..i]), run[i])
  {
    hide RunStage;
    PrefixStep(run, i);
  }
}
