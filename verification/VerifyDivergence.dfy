/**
 * When verify can report an unchanged log as diverged: exactly when the projection cache has been opened
 * at another version since the replay that froze the answers.
 */
module VerifyDivergence {
  import opened Coherence
  import opened Confluence
  import opened DerivedOutput
  import opened Domain
  import opened FrozenReplay
  import opened Log
  import opened ModelHistories
  import opened Pipeline
  import opened SemanticCache
  import opened Sequences
  import opened Staleness
  import opened Wrappers

  // ---------- a replay whose every answer is the same ----------

  /** Each message delivered once, the model giving the same answer every time. */
  function Uniform(log: seq<MessageEnvelope>, answer: Projection): (ds: seq<Delivery>)
    ensures |ds| == |log|
    ensures forall i :: 0 <= i < |log| ==> ds[i] == Delivery(log[i], Some(answer), None)
  {
    seq(|log|, i requires 0 <= i < |log| => Delivery(log[i], Some(answer), None))
  }

  /** ... followed by five undisturbed stages. */
  function UniformRun(log: seq<MessageEnvelope>, answer: Projection): CachedRun {
    CachedRun(Uniform(log, answer), PlainRun(log)[1..])
  }

  lemma UniformDelivers(log: seq<MessageEnvelope>, answer: Projection)
    ensures DeliversAll(log, Uniform(log, answer))
  {
    var ds := Uniform(log, answer);
    forall m | m in log ensures exists d :: d in ds && d.message == m && d.budget != Some(0) {
      var i :| 0 <= i < |log| && log[i] == m;
      assert ds[i] in ds;
    }
  }

  /** Whatever is cached, every delivery is answered and projects its message. */
  lemma {:induction false} UniformAttempts(
    entries: Entries, version: string, log: seq<MessageEnvelope>, answer: Projection, i: nat)
    requires i <= |log|
    ensures AsAttempts(entries, version, Uniform(log, answer)[..i]) == Once(MessagePayloads(log))[..i]
  {
    if i > 0 {
      hide EntriesAfter, MessagePayloads, ServedFor;
      var ds := Uniform(log, answer);
      PrefixStep(ds, i - 1);
      UniformAttempts(entries, version, log, answer, i - 1);
      AlwaysAnswered(EntriesAfter(entries, version, ds[..i - 1]), version, ds[i - 1]);
    }
  }

  lemma AlwaysAnswered(entries: Entries, version: string, d: Delivery)
    requires d.model.Some?
    ensures ServedFor(entries, version, d).answer.Some?
  {
  }

  lemma UniformIsPlain(entries: Entries, version: string, log: seq<MessageEnvelope>, answer: Projection)
    ensures AsRun(entries, version, UniformRun(log, answer)) == PlainRun(log)
  {
    hide AsAttempts, PlainRun, Once, Uniform, MessagePayloads, StagePayloads;
    PlainRunStarts(log);
    UniformAttempts(entries, version, log, answer, |log|);
    WholePrefix(Uniform(log, answer));
    WholePrefix(Once(MessagePayloads(log)));
    assert [PlainRun(log)[0]] + PlainRun(log)[1..] == PlainRun(log);
  }

  lemma PlainRunStarts(log: seq<MessageEnvelope>)
    ensures |PlainRun(log)| == 6 && PlainRun(log)[0] == Once(MessagePayloads(log))
  {
    hide MessagePayloads, Once;
  }

  /** The cache holds no answer at the version. */
  ghost predicate NoAnswers(entries: Entries, version: string) {
    forall slot :: slot in entries ==> slot.version != version
  }

  /** Every answer that the cache holds at the version is this one. */
  ghost predicate AnswersWith(entries: Entries, version: string, answer: Projection) {
    forall m: MessageEnvelope :: SlotOf(version, m) in entries ==>
      entries[SlotOf(version, m)] == answer.(messageId := m.id)
  }

  lemma {:induction false} UniformAnswers(
    entries: Entries, version: string, log: seq<MessageEnvelope>, answer: Projection, i: nat)
    requires i <= |log| && AnswersWith(entries, version, answer)
    ensures AnswersWith(EntriesAfter(entries, version, Uniform(log, answer)[..i]), version, answer)
  {
    if i > 0 {
      var ds := Uniform(log, answer);
      PrefixStep(ds, i - 1);
      UniformAnswers(entries, version, log, answer, i - 1);
      var before := EntriesAfter(entries, version, ds[..i - 1]);
      var now := EntriesAfter(entries, version, ds[..i]);
      hide EntriesAfter, Text;
      forall m: MessageEnvelope | SlotOf(version, m) in now
        ensures now[SlotOf(version, m)] == answer.(messageId := m.id) {
        if SlotOf(version, m) == SlotOf(version, log[i - 1]) {
          TextDecodes(m, log[i - 1]);
        }
      }
    }
  }

  /** With no answer cached at the version, the replay derives the model's answer. */
  lemma UniformDerives(
    entries: Entries, version: string, ports: Ports, log: MessageLog, answer: Projection, c: ConversationId)
    requires Attached(entries, version) && NoAnswers(entries, version) && c in ConversationIds(log)
    ensures MessagesFor(log, c) != []
    ensures ValidCachedRun(entries, version, log, UniformRun(log, answer))
    ensures var s := CachedReplay(entries, version, ports, UniformRun(log, answer));
            var d := DerivationFrom(s, c, MessagesFor(log, c));
            && d.Some? && d.value.projections != []
            && d.value.projections[0] == answer.(messageId := MessagesFor(log, c)[0].id)
  {
    hide EntriesAfter, PlainRun, AsRun, Uniform, Derived, CachedReplay, ConversationIds, MessagesFor, Text, ValidRun,
         Frozen,
         Project, DerivationFrom, Projected, ProjectAll, Attached;
    var run := UniformRun(log, answer);
    UniformIsPlain(entries, version, log, answer);
    PlainRunIsFull(log);
    CachedReplayIsFrozen(entries, version, ports, log, run);
    var now := EntriesAfter(entries, version, run.deliveries);
    var frozen := Frozen(now, version, ports);
    FullDerivesFresh(frozen, log, PlainRun(log), c);
    SessionNonEmpty(log, c);
    var m := MessagesFor(log, c)[0];
    InLog(log, c, m);
    FirstProjection(frozen, log, c);
    FullReplayAnswers(entries, version, log, run);
    AttachedAfter(entries, version, run.deliveries);
    FrozenProjects(now, version, ports, m);
    UniformAnswers(entries, version, log, answer, |log|);
    WholePrefix(run.deliveries);
    assert AnswersWith(now, version, answer);
  }

  lemma FirstProjection(ports: Ports, log: MessageLog, c: ConversationId)
    requires c in ConversationIds(log)
    ensures MessagesFor(log, c) != [] && Fresh(ports, log, c).Some?
    ensures Fresh(ports, log, c).value.projections != []
    ensures Fresh(ports, log, c).value.projections[0] == Project(ports, MessagesFor(log, c)[0])
  {
    hide DerivedOf, ConversationIds, MessagesFor, Project, LocalPart, ScopeOf, WarmupOf;
    var ms, all := MessagesFor(log, c), Set(Ids(log));
    SessionNonEmpty(log, c);
    DerivedIsLocal(ports, log, all, c);
    LocalPartIs(ports, Fresh(ports, log, c).value, c, Having(ms, all));
    forall m | m in ms ensures m.id in all {
      InLog(log, c, m);
    }
    HavingAll(ms, all);
  }

  // ---------- exactly when verify can diverge ----------

  /** The event leaves the log alone and performs no replay at the version. */
  ghost predicate QuietStep(version: string, m: ModelWorld, e: ModelEvent) {
    && AllowedModel(m, e)
    && !e.Appends?
    && (ModelJobOf(m, e).Some? ==> ModelJobOf(m, e).value.version != version)
  }

  ghost predicate Quiet(version: string, m: ModelWorld, events: seq<ModelEvent>) {
    events != [] ==>
      && Quiet(version, m, Init(events))
      && QuietStep(version, AfterModel(m, Init(events)), Last(events))
  }

  lemma {:induction false} QuietKeepsLog(version: string, m: ModelWorld, events: seq<ModelEvent>)
    requires Quiet(version, m, events) && AllAttached(m.entries)
    ensures AfterModel(m, events).world.log == m.world.log
    ensures AllAttached(AfterModel(m, events).entries)
  {
    if events != [] {
      hide AllAttached, Populated, CachedReplay, EntriesAfter, AllowedModel, KeyFor;
      QuietKeepsLog(version, m, Init(events));
      NextStaysAttached(AfterModel(m, Init(events)), Last(events));
    }
  }

  /** Openings at the version alone keep its answers. */
  lemma {:induction false} QuietKeeps(version: string, ports: Ports, m: ModelWorld, events: seq<ModelEvent>)
    requires Quiet(version, m, events) && OpensOnly(events, version)
    ensures StaysKept(version, ports, m, events)
  {
    if events != [] {
      hide AllowedModel, AfterModel, ModelJobOf;
      Snoc(events);
      QuietKeeps(version, ports, m, Init(events));
      assert Last(events) in events;
    }
  }

  lemma NoAnswersStays(version: string, m: ModelWorld, e: ModelEvent)
    requires QuietStep(version, m, e)
    requires NoAnswers(m.entries, version) || (e.Opens? && e.version != version)
    ensures NoAnswers(NextModel(m, e).entries, version)
  {
    hide EntriesAfter, Populated, CachedReplay, KeyFor, AllowedModel;
    if ModelJobOf(m, e).Some? {
      var job := ModelJobOf(m, e).value;
      var now := EntriesAfter(m.entries, job.version, job.run.deliveries);
      forall slot | slot in now ensures slot.version != version {
        if slot.version == version {
          OtherVersionsStay(m.entries, job.version, job.run.deliveries, slot);
        }
      }
    }
  }

  /** An opening at another version forgets the answers, and nothing but a replay at the version renews them. */
  lemma {:induction false} OpeningForgets(version: string, m: ModelWorld, events: seq<ModelEvent>)
    requires Quiet(version, m, events) && !OpensOnly(events, version)
    ensures NoAnswers(AfterModel(m, events).entries, version)
  {
    hide NoAnswers, NextModel, QuietStep;
    Snoc(events);
    if !OpensOnly(Init(events), version) {
      OpeningForgets(version, m, Init(events));
    }
    NoAnswersStays(version, AfterModel(m, Init(events)), Last(events));
  }

  /** Whatever a further replay at the version is answered, as long as it delivers every message, it derives the row. */
  ghost predicate AlwaysVerifies(
    m: ModelWorld, version: string, ports: Ports, c: ConversationId, row: ConversationDerivation)
  {
    forall run: CachedRun ::
      ValidCachedRun(m.entries, version, m.world.log, run) && DeliversAll(m.world.log, run.deliveries) ==>
        DerivationFrom(CachedReplay(m.entries, version, ports, run), c, MessagesFor(m.world.log, c)) == Some(row)
  }

  const QUESTION_ANSWER := Projection("", Question, [], [], 0.0)

  const TASK_ANSWER := Projection("", Task, [], [], 0.0)

  /** With the answers forgotten, two replays derive differently, so one of them differs from the row. */
  lemma ForgottenDiverges(m: ModelWorld, version: string, ports: Ports, c: ConversationId, row: ConversationDerivation)
    requires AllAttached(m.entries) && NoAnswers(m.entries, version) && c in ConversationIds(m.world.log)
    ensures !AlwaysVerifies(m, version, ports, c, row)
  {
    hide CachedReplay, DerivationFrom, MessagesFor, ConversationIds, UniformRun, ValidCachedRun, DeliversAll, NoAnswers;
    var log := m.world.log;
    AttachedAt(m.entries, version);
    UniformDerives(m.entries, version, ports, log, QUESTION_ANSWER, c);
    UniformDerives(m.entries, version, ports, log, TASK_ANSWER, c);
    UniformRunDelivers(log, QUESTION_ANSWER);
    UniformRunDelivers(log, TASK_ANSWER);
  }

  lemma UniformRunDelivers(log: seq<MessageEnvelope>, answer: Projection)
    ensures DeliversAll(log, UniformRun(log, answer).deliveries)
  {
    UniformDelivers(log, answer);
  }

  /**
   * After a replay at a version that projected every message, and while the log is unchanged and no
   * replay runs at that version, a row still at its key is what every further replay at the version
   * derives, whatever the model answers, if and only if the projection cache was opened at no other
   * version since. So verify can report divergence exactly when it was.
   */
  lemma VerifyAgreesExactlyWhen(m: ModelWorld, job: ModelJob, later: seq<ModelEvent>, c: ConversationId)
    requires AllAttached(m.entries) && ValidCachedRun(m.entries, job.version, m.world.log, job.run)
    requires forall x :: x in m.world.log ==> x.id in Projected(AsRun(m.entries, job.version, job.run))
    requires Quiet(job.version, RunJob(m, job), later)
    requires c in ConversationIds(m.world.log)
    requires KeyFor(RowVersion(job.version), m.world.log, c) in AfterModel(RunJob(m, job), later).world.rows
    ensures var end := AfterModel(RunJob(m, job), later);
            && end.world.log == m.world.log
            && (AlwaysVerifies(
                  end, job.version, job.ports, c, end.world.rows[KeyFor(RowVersion(job.version), m.world.log, c)])
                <==> forall e :: e in later && e.Opens? ==> e.version == job.version)
  {
    hide AfterModel, RunJob, AllAttached, AsRun, Projected, KeyFor, ConversationIds, CachedReplay, DerivationFrom,
         MessagesFor,
         ValidCachedRun, DeliversAll, Quiet, StaysKept, RowVersion;
    var log, version := m.world.log, job.version;
    var end := AfterModel(RunJob(m, job), later);
    RunJobKeeps(m, job);
    QuietKeepsLog(version, RunJob(m, job), later);
    if OpensOnly(later, version) {
      QuietKeeps(version, job.ports, RunJob(m, job), later);
      forall run: CachedRun | ValidCachedRun(end.entries, version, log, run) && DeliversAll(log, run.deliveries)
        ensures DerivationFrom(CachedReplay(end.entries, version, job.ports, run), c, MessagesFor(log, c))
             == Some(end.world.rows[KeyFor(RowVersion(version), log, c)]) {
        FrozenHitsStayExact(m, job, later, ModelJob(version, job.ports, run, {}), c);
      }
    } else {
      OpeningForgets(version, RunJob(m, job), later);
      ForgottenDiverges(end, version, job.ports, c, end.world.rows[KeyFor(RowVersion(version), log, c)]);
    }
  }

  lemma RunJobKeeps(m: ModelWorld, job: ModelJob)
    requires AllAttached(m.entries)
    ensures RunJob(m, job).world.log == m.world.log && AllAttached(RunJob(m, job).entries)
  {
    hide AllAttached, Populated, CachedReplay, EntriesAfter;
    NextStaysAttached(m, ModelReplays(job));
  }

  // ---------- an example ----------

  /** Append, replay, open the cache at another version and back. */
  function ForgettingHistory(version: string, other: string, answer: Projection): seq<ModelEvent> {
    [Appends(FIRST),
     ModelReplays(ModelJob(version, AUTH_PORTS, UniformRun([FIRST], answer), {})),
     Opens(other),
     Opens(version)]
  }

  /**
   * Opening the cache at another version forgets the first version's answers while its rows stay: when
   * the model answers otherwise the second time, the row of an unchanged log differs from recomputation.
   */
  lemma VerifyCanDiverge(version: string, other: string, first: Projection, second: Projection)
    requires other != version
    requires first.(messageId := FIRST.id) != second.(messageId := FIRST.id)
    ensures ValidModelHistory(NEW_MODEL_WORLD, ForgettingHistory(version, other, first))
    ensures var end := AfterModel(NEW_MODEL_WORLD, ForgettingHistory(version, other, first));
            var key := KeyFor(RowVersion(version), [FIRST], "c-1");
            && end.world.log == [FIRST]
            && ValidCachedRun(end.entries, version, [FIRST], UniformRun([FIRST], second))
            && key in end.world.rows
            && Some(end.world.rows[key])
               != DerivationFrom(
                    CachedReplay(end.entries, version, AUTH_PORTS, UniformRun([FIRST], second)), "c-1", [FIRST])
  {
    hide UniformRun, Content, ConversationIds, MessagesFor, Appended, ValidRun, CachedReplay, DerivationFrom,
         EntriesAfter,
         RowVersion, Populated, AllAttached, ValidCachedRun;
    var events := ForgettingHistory(version, other, first);
    var job := ModelJob(version, AUTH_PORTS, UniformRun([FIRST], first), {});
    var log: MessageLog := [FIRST];
    assert Init(events) == [Appends(FIRST), ModelReplays(job), Opens(other)];
    assert Init(Init(events)) == [Appends(FIRST), ModelReplays(job)];
    assert Init(Init(Init(events))) == [Appends(FIRST)];
    assert Init([Appends(FIRST)]) == [];
    FirstLogs();
    NothingAttached();
    var start := ModelWorld(World(log, map[]), map[]);
    assert AfterModel(NEW_MODEL_WORLD, []) == NEW_MODEL_WORLD;
    assert AfterModel(NEW_MODEL_WORLD, [Appends(FIRST)]) == start;
    assert AfterModel(NEW_MODEL_WORLD, Init(Init(events))) == RunJob(start, job);
    AttachedAt(map[], version);
    UniformDerives(map[], version, AUTH_PORTS, log, first, "c-1");
    assert ValidModelHistory(NEW_MODEL_WORLD, [Appends(FIRST)]);
    assert ValidModelHistory(NEW_MODEL_WORLD, Init(Init(events)));
    assert ValidModelHistory(NEW_MODEL_WORLD, Init(events));
    var end := AfterModel(NEW_MODEL_WORLD, events);
    var replayed := RunJob(start, job);
    assert AfterModel(NEW_MODEL_WORLD, Init(events)) == NextModel(replayed, Opens(other));
    assert end == NextModel(NextModel(replayed, Opens(other)), Opens(version));
    assert end == replayed.(entries := Pruned(Pruned(replayed.entries, other), version));
    StaysAttached(events);
    AttachedAt(end.entries, version);
    UniformDerives(end.entries, version, AUTH_PORTS, log, second, "c-1");
    FirstRow(start, job);
  }

  /** The row that the first replay leaves. */
  lemma FirstRow(m: ModelWorld, job: ModelJob)
    requires m.world.log == [FIRST]
    requires DerivationFrom(CachedReplay(m.entries, job.version, job.ports, job.run), "c-1", [FIRST]).Some?
    ensures var key := KeyFor(RowVersion(job.version), [FIRST], "c-1");
            Find(RunJob(m, job).world.rows, key)
            == DerivationFrom(CachedReplay(m.entries, job.version, job.ports, job.run), "c-1", [FIRST])
  {
    hide Content, ConversationIds, MessagesFor, CachedReplay, DerivationFrom, EntriesAfter, RowVersion;
    FirstLogs();
    ConversationIdsMembers([FIRST]);
    PopulatedRow(
      m.world.rows, CachedReplay(m.entries, job.version, job.ports, job.run), [FIRST], RowVersion(job.version),
      ConversationIds([FIRST]), job.kept, KeyFor(RowVersion(job.version), [FIRST], "c-1"));
  }
}
