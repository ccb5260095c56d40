/**
 * Cache histories with a language model behind the projector: replays go through the projection cache,
 * whose entries a process prunes when it opens the cache at its own version.
 */
module ModelHistories {
  import opened Coherence
  import opened Confluence
  import opened DerivedOutput
  import opened Domain
  import opened FrozenReplay
  import Identities
  import opened Log
  import opened Pipeline
  import opened SemanticCache
  import opened Sequences
  import opened Wrappers

  // ---------- the composed machine ----------

  /** The derived rows are keyed by the strategy and the projector's version. */
  function RowVersion(version: string): string {
    Identities.DerivationVersion("projection", version)
  }

  lemma RowVersionDecodes(v: string, u: string)
    ensures RowVersion(v) == RowVersion(u) <==> v == u
  {
    Identities.DerivationVersionDecodes("projection", v, "projection", u);
  }

  datatype ModelWorld = ModelWorld(world: World, entries: Entries)

  /** One replay through the cache at the projector's version; `ports` gives scope and warm-up. */
  datatype ModelJob = ModelJob(version: string, ports: Ports, run: CachedRun, kept: set<ConversationId>)

  datatype ModelEvent =
    | Appends(message: MessageEnvelope)
    | Opens(version: string)
    | ModelReplays(job: ModelJob)
    | ModelReads(conversation: ConversationId, job: ModelJob)
    | ModelReclaims(keep: CacheKey)

  function ModelJobOf(m: ModelWorld, e: ModelEvent): Option<ModelJob> {
    match e
    case Appends(_) => None
    case Opens(_) => None
    case ModelReplays(job) => Some(job)
    case ModelReads(c, job) =>
      if KeyFor(RowVersion(job.version), m.world.log, c) in m.world.rows then None else Some(job)
    case ModelReclaims(_) => None
  }

  function RunJob(m: ModelWorld, job: ModelJob): ModelWorld {
    var s := CachedReplay(m.entries, job.version, job.ports, job.run);
    ModelWorld(
      m.world.(rows := Populated(m.world.rows, s, m.world.log, RowVersion(job.version), job.kept)),
      EntriesAfter(m.entries, job.version, job.run.deliveries))
  }

  function NextModel(m: ModelWorld, e: ModelEvent): ModelWorld {
    if ModelJobOf(m, e).Some? then RunJob(m, ModelJobOf(m, e).value)
    else
      match e
      case Appends(message) => m.(world := m.world.(log := Appended(m.world.log, message)))
      case Opens(version) => m.(entries := Pruned(m.entries, version))
      case ModelReclaims(keep) => m.(world := m.world.(rows := DerivedOutput.Prune(m.world.rows, keep)))
      case _ => m
  }

  ghost predicate AllowedModel(m: ModelWorld, e: ModelEvent) {
    ModelJobOf(m, e).Some? ==>
      var job := ModelJobOf(m, e).value;
      ValidCachedRun(m.entries, job.version, m.world.log, job.run)
  }

  function AfterModel(m: ModelWorld, events: seq<ModelEvent>): ModelWorld {
    if events == [] then m else NextModel(AfterModel(m, Init(events)), Last(events))
  }

  ghost predicate ValidModelHistory(m: ModelWorld, events: seq<ModelEvent>) {
    events != [] ==>
      && ValidModelHistory(m, Init(events))
      && AllowedModel(AfterModel(m, Init(events)), Last(events))
  }

  const NEW_MODEL_WORLD := ModelWorld(NEW_WORLD, map[])

  // ---------- it is a history of deterministic replays ----------

  /** Every entry carries the id of the message it was computed for, at every version. */
  ghost predicate AllAttached(entries: Entries) {
    forall v :: Attached(entries, v)
  }

  /** A replay at one version leaves the entries of the others alone. */
  lemma {:induction false} OtherVersionsStay(
    entries: Entries, version: string, ds: seq<Delivery>, slot: Slot<ContentHash>)
    requires slot.version != version
    ensures Find(EntriesAfter(entries, version, ds), slot) == Find(entries, slot)
  {
    if ds != [] {
      OtherVersionsStay(entries, version, Init(ds), slot);
    }
  }

  lemma NextStaysAttached(m: ModelWorld, e: ModelEvent)
    requires AllAttached(m.entries)
    ensures AllAttached(NextModel(m, e).entries)
  {
    hide EntriesAfter, CachedReplay, Populated, KeyFor;
    if ModelJobOf(m, e).Some? {
      var job := ModelJobOf(m, e).value;
      var now := EntriesAfter(m.entries, job.version, job.run.deliveries);
      forall v ensures Attached(now, v) {
        assert Attached(m.entries, v);
        if v == job.version {
          AttachedAfter(m.entries, v, job.run.deliveries);
        } else {
          forall x: MessageEnvelope | SlotOf(v, x) in now ensures now[SlotOf(v, x)].messageId == x.id {
            OtherVersionsStay(m.entries, job.version, job.run.deliveries, SlotOf(v, x));
          }
        }
      }
    } else if e.Opens? {
      forall v ensures Attached(Pruned(m.entries, e.version), v) {
        assert Attached(m.entries, v);
      }
    }
  }

  /** The projector that the cache has become once the job is done. */
  function Settled(entries: Entries, job: ModelJob): Ports {
    Frozen(EntriesAfter(entries, job.version, job.run.deliveries), job.version, job.ports)
  }

  /** A choice of deterministic ports for the jobs of a history. */
  type Choice = (Entries, ModelJob) -> Ports

  ghost function ChosenJob(choose: Choice, m: ModelWorld, job: ModelJob): Job {
    Job(RowVersion(job.version), choose(m.entries, job), AsRun(m.entries, job.version, job.run), job.kept)
  }

  /** With these ports, a deterministic replay derives what the job derives. */
  ghost predicate ChoiceFits(choose: Choice, m: ModelWorld, job: ModelJob) {
    && ValidCachedRun(m.entries, job.version, m.world.log, job.run)
    && CachedReplay(m.entries, job.version, job.ports, job.run)
       == Derived(choose(m.entries, job), m.world.log, Projected(AsRun(m.entries, job.version, job.run)))
  }

  ghost predicate ChoiceFitsAll(choose: Choice, m: ModelWorld, events: seq<ModelEvent>) {
    events != [] ==>
      && ChoiceFitsAll(choose, m, Init(events))
      && var before := AfterModel(m, Init(events));
         ModelJobOf(before, Last(events)).Some? ==> ChoiceFits(choose, before, ModelJobOf(before, Last(events)).value)
  }

  lemma RunJobIsRepopulated(choose: Choice, m: ModelWorld, job: ModelJob)
    requires ChoiceFits(choose, m, job)
    ensures RunJob(m, job).world == Repopulated(m.world, ChosenJob(choose, m, job))
    ensures ValidRun(m.world.log, ChosenJob(choose, m, job).run)
  {
    hide CachedReplay, RunStages, Populated, ValidRun, EntriesAfter, Derived, AsRun, Projected;
    ReplayConfluence(choose(m.entries, job), m.world.log, ChosenJob(choose, m, job).run);
  }

  lemma SettledFits(m: ModelWorld, job: ModelJob)
    requires AllAttached(m.entries) && ValidCachedRun(m.entries, job.version, m.world.log, job.run)
    ensures ChoiceFits(Settled, m, job)
  {
    hide CachedReplay, EntriesAfter, Derived, Frozen, AsRun, Projected, ValidRun, AllAttached;
    AttachedAt(m.entries, job.version);
    CachedReplayIsFrozen(m.entries, job.version, job.ports, m.world.log, job.run);
  }

  /** The event of a deterministic history that the event amounts to; opening the cache leaves no trace. */
  ghost function ChosenEvent(choose: Choice, m: ModelWorld, e: ModelEvent): seq<Event> {
    match e
    case Appends(message) => [Ingested(message)]
    case Opens(_) => []
    case ModelReplays(job) => [Replays(ChosenJob(choose, m, job))]
    case ModelReads(c, job) => [ReadsWarmup(c, ChosenJob(choose, m, job))]
    case ModelReclaims(keep) => [Reclaims(keep)]
  }

  /** The history of deterministic replays behind a history with a model. */
  ghost function Settle(choose: Choice, m: ModelWorld, events: seq<ModelEvent>): seq<Event> {
    if events == [] then []
    else Settle(choose, m, Init(events)) + ChosenEvent(choose, AfterModel(m, Init(events)), Last(events))
  }

  lemma NextSettles(choose: Choice, m: ModelWorld, e: ModelEvent)
    requires ModelJobOf(m, e).Some? ==> ChoiceFits(choose, m, ModelJobOf(m, e).value)
    ensures NextModel(m, e).world == if e.Opens? then m.world else Next(m.world, ChosenEvent(choose, m, e)[0])
    ensures !e.Opens? ==> Allowed(m.world, ChosenEvent(choose, m, e)[0])
  {
    hide RunJob, KeyFor, ChoiceFits, Repopulated, ValidRun, AsRun;
    if ModelJobOf(m, e).Some? {
      RunJobIsRepopulated(choose, m, ModelJobOf(m, e).value);
    }
  }

  lemma {:induction false} HistorySettles(choose: Choice, events: seq<ModelEvent>)
    requires ChoiceFitsAll(choose, NEW_MODEL_WORLD, events)
    ensures ValidHistory(NEW_WORLD, Settle(choose, NEW_MODEL_WORLD, events))
    ensures AfterModel(NEW_MODEL_WORLD, events).world == After(NEW_WORLD, Settle(choose, NEW_MODEL_WORLD, events))
  {
    if events != [] {
      hide NextModel, Allowed, Next, ChoiceFits;
      HistorySettles(choose, Init(events));
      var m, e := AfterModel(NEW_MODEL_WORLD, Init(events)), Last(events);
      var before, now := Settle(choose, NEW_MODEL_WORLD, Init(events)), Settle(choose, NEW_MODEL_WORLD, events);
      NextSettles(choose, m, e);
      if e.Opens? {
        assert now == before;
      } else {
        assert now == before + [ChosenEvent(choose, m, e)[0]];
        assert Init(now) == before && Last(now) == ChosenEvent(choose, m, e)[0];
      }
    }
  }

  lemma {:induction false} StaysAttached(events: seq<ModelEvent>)
    ensures AllAttached(AfterModel(NEW_MODEL_WORLD, events).entries)
  {
    hide AllAttached, NextModel;
    if events == [] {
      NothingAttached();
    } else {
      StaysAttached(Init(events));
      NextStaysAttached(AfterModel(NEW_MODEL_WORLD, Init(events)), Last(events));
    }
  }

  lemma NothingAttached()
    ensures AllAttached(map[])
  {
  }

  lemma {:induction false} SettledFitsAll(events: seq<ModelEvent>)
    requires ValidModelHistory(NEW_MODEL_WORLD, events)
    ensures ChoiceFitsAll(Settled, NEW_MODEL_WORLD, events)
  {
    hide AllAttached, NextModel, ChoiceFits, ValidCachedRun;
    if events != [] {
      SettledFitsAll(Init(events));
      StaysAttached(Init(events));
      var m, e := AfterModel(NEW_MODEL_WORLD, Init(events)), Last(events);
      if ModelJobOf(m, e).Some? {
        SettledFits(m, ModelJobOf(m, e).value);
      }
    }
  }

  /**
   * Every history with a model, whatever it answered and whenever it failed, is a history of
   * deterministic replays, each with the projector that the cache had become: so every row of every
   * reachable cache is what such a replay derived from the log of some earlier moment.
   */
  lemma ModelHistorySettles(events: seq<ModelEvent>)
    requires ValidModelHistory(NEW_MODEL_WORLD, events)
    ensures var settled := Settle(Settled, NEW_MODEL_WORLD, events);
            var rows := AfterModel(NEW_MODEL_WORLD, events).world.rows;
            && ValidHistory(NEW_WORLD, settled)
            && AfterModel(NEW_MODEL_WORLD, events).world == After(NEW_WORLD, settled)
            && (forall k :: k in rows ==> exists i :: DerivedAt(settled, i, k, rows[k]))
  {
    hide AfterModel, After, DerivedAt, ValidHistory, Settle;
    SettledFitsAll(events);
    HistorySettles(Settled, events);
    RowsHaveMoments(Settle(Settled, NEW_MODEL_WORLD, events));
  }

  // ---------- frozen answers ----------

  /** Opening the cache keeps a version's answers for a log exactly when it opens at that version. */
  lemma OpeningKeepsAnswersExactlyWhen(entries: Entries, version: string, newer: string, log: seq<MessageEnvelope>)
    requires Answers(entries, version, log)
    ensures Answers(Pruned(entries, newer), version, log) <==> newer == version || log == []
  {
    if log != [] {
      assert log[0] in log;
    }
  }

  /** The cache still answers every message of the log as it did. */
  ghost predicate SameAnswers(entries: Entries, now: Entries, version: string, log: seq<MessageEnvelope>) {
    forall m :: m in log ==>
      && SlotOf(version, m) in entries
      && SlotOf(version, m) in now && now[SlotOf(version, m)] == entries[SlotOf(version, m)]
  }

  /** Two projectors that agree on the log derive the same from it. */
  lemma SameProjectionsDeriveSame(ports: Ports, other: Ports, log: MessageLog, projected: set<MessageId>)
    requires ports.scope == other.scope && ports.warmup == other.warmup
    requires forall m :: m in log && m.id in projected ==> Project(ports, m) == Project(other, m)
    ensures Derived(ports, log, projected) == Derived(other, log, projected)
  {
    hide Skills, Hints, SessionDevelopersOf, Project, Projections, Contributions, SessionScope, SessionWarmup,
         ConversationIds;
    SameProjections(ports, other, log, projected);
    var ps := Projections(ports, log, projected);
    forall c
      ensures SessionScope(ports, log, ps, c) == SessionScope(other, log, ps, c)
      ensures SessionWarmup(ports, log, ps, c) == SessionWarmup(other, log, ps, c)
    {
      SameSession(ports, other, log, ps, c);
    }
  }

  lemma SameProjections(ports: Ports, other: Ports, log: MessageLog, projected: set<MessageId>)
    requires forall m :: m in log && m.id in projected ==> Project(ports, m) == Project(other, m)
    ensures Projections(ports, log, projected) == Projections(other, log, projected)
  {
    hide Project;
  }

  lemma SameSession(ports: Ports, other: Ports, log: MessageLog, ps: map<MessageId, Projection>, c: ConversationId)
    requires ports.scope == other.scope && ports.warmup == other.warmup
    ensures SessionScope(ports, log, ps, c) == SessionScope(other, log, ps, c)
    ensures SessionWarmup(ports, log, ps, c) == SessionWarmup(other, log, ps, c)
  {
    hide IdsIn, Gather;
  }

  lemma FrozenAgree(
    entries: Entries, now: Entries, version: string, ports: Ports, other: Ports, log: MessageLog,
    projected: set<MessageId>)
    requires SameAnswers(entries, now, version, log) && Attached(entries, version) && Attached(now, version)
    requires ports.scope == other.scope && ports.warmup == other.warmup
    ensures Derived(Frozen(entries, version, ports), log, projected)
         == Derived(Frozen(now, version, other), log, projected)
  {
    hide Derived, Project;
    forall m | m in log
      ensures Project(Frozen(entries, version, ports), m) == Project(Frozen(now, version, other), m) {
      FrozenProjects(entries, version, ports, m);
      FrozenProjects(now, version, other, m);
    }
    SameProjectionsDeriveSame(Frozen(entries, version, ports), Frozen(now, version, other), log, projected);
  }

  /** Since `entries`, the log and its answers are unchanged, and every hit is what those answers derive. */
  ghost predicate StillFrozen(entries: Entries, version: string, ports: Ports, log: MessageLog, m: ModelWorld) {
    && AllAttached(entries) && AllAttached(m.entries)
    && m.world.log == log
    && SameAnswers(entries, m.entries, version, log)
    && HitsExact(Frozen(entries, version, ports), m.world, RowVersion(version))
  }

  /**
   * The event leaves the log alone and opens the cache at no other version; a replay at the version
   * delivers every message, whatever the model would answer.
   */
  ghost predicate KeepsFrozen(version: string, ports: Ports, m: ModelWorld, e: ModelEvent) {
    && AllowedModel(m, e)
    && !e.Appends?
    && (e.Opens? ==> e.version == version)
    && (ModelJobOf(m, e).Some? && ModelJobOf(m, e).value.version == version ==>
          && ModelJobOf(m, e).value.ports.scope == ports.scope
          && ModelJobOf(m, e).value.ports.warmup == ports.warmup
          && DeliversAll(m.world.log, ModelJobOf(m, e).value.run.deliveries))
  }

  ghost predicate StaysKept(version: string, ports: Ports, m: ModelWorld, events: seq<ModelEvent>) {
    events != [] ==>
      && StaysKept(version, ports, m, Init(events))
      && KeepsFrozen(version, ports, AfterModel(m, Init(events)), Last(events))
  }

  lemma SameAnswersAfter(entries: Entries, version: string, log: MessageLog, m: ModelWorld, job: ModelJob)
    requires SameAnswers(entries, m.entries, version, log)
    requires job.version == version ==> forall d :: d in job.run.deliveries ==> d.message in log
    ensures SameAnswers(entries, EntriesAfter(m.entries, job.version, job.run.deliveries), version, log)
  {
    hide EntriesAfter;
    if job.version == version {
      PopulatedCacheIsStable(m.entries, version, log, job.run.deliveries);
    } else {
      forall x | x in log
        ensures Find(EntriesAfter(m.entries, job.version, job.run.deliveries), SlotOf(version, x))
             == Find(m.entries, SlotOf(version, x)) {
        OtherVersionsStay(m.entries, job.version, job.run.deliveries, SlotOf(version, x));
      }
    }
  }

  /** What a replay at the version derives from the kept answers. */
  lemma KeptAnswersDerive(
    entries: Entries, version: string, ports: Ports, log: MessageLog, m: ModelWorld, job: ModelJob, c: ConversationId)
    requires SameAnswers(entries, m.entries, version, log) && AllAttached(entries) && AllAttached(m.entries)
    requires job.version == version && job.ports.scope == ports.scope && job.ports.warmup == ports.warmup
    requires m.world.log == log && ValidCachedRun(m.entries, version, log, job.run)
    requires DeliversAll(log, job.run.deliveries)
    ensures |ChosenJob(Settled, m, job).run| == 6
    ensures DerivedOf(ChosenJob(Settled, m, job).ports, log, Projected(ChosenJob(Settled, m, job).run), c)
         == Fresh(Frozen(entries, version, ports), log, c)
  {
    assert |AsRun(m.entries, version, job.run)| == 6 && |job.run.rest| == 5;
    hide Derived, EntriesAfter, AsRun, Frozen, Projected, ValidRun, MessagesFor;
    var now := EntriesAfter(m.entries, version, job.run.deliveries);
    assert Attached(entries, version) && Attached(m.entries, version);
    SameAnswersAfter(entries, version, log, m, job);
    AttachedAfter(m.entries, version, job.run.deliveries);
    DeliveredIsProjected(m.entries, version, log, job.run);
    FullDerivesFresh(ChosenJob(Settled, m, job).ports, log, ChosenJob(Settled, m, job).run, c);
    FrozenAgree(entries, now, version, ports, job.ports, log, Set(Ids(log)));
  }

  lemma JobStaysFrozen(entries: Entries, version: string, ports: Ports, log: MessageLog, m: ModelWorld, job: ModelJob)
    requires StillFrozen(entries, version, ports, log, m)
    requires ValidCachedRun(m.entries, job.version, log, job.run)
    requires job.version == version ==>
               && job.ports.scope == ports.scope && job.ports.warmup == ports.warmup
               && DeliversAll(log, job.run.deliveries)
    ensures m.world.log == RunJob(m, job).world.log
    ensures SameAnswers(entries, RunJob(m, job).entries, version, log)
    ensures HitsExact(Frozen(entries, version, ports), RunJob(m, job).world, RowVersion(version))
  {
    hide Derived, DerivedOf, EntriesAfter, AsRun, Frozen, ValidCachedRun, MessagesFor, ConversationIds, Content,
         Repopulated,
         RunJob, RowVersion, SameAnswers, AllAttached, ValidRun, Projected, Fresh;
    SameAnswersAfter(entries, version, log, m, job);
    SettledFits(m, job);
    RunJobIsRepopulated(Settled, m, job);
    RunJobEntries(m, job);
    RepopulateKeepsLog(m.world, ChosenJob(Settled, m, job));
    RowVersionDecodes(version, job.version);
    var now := RunJob(m, job).world;
    forall c | c in ConversationIds(log) && KeyFor(RowVersion(version), log, c) in now.rows
      ensures Some(now.rows[KeyFor(RowVersion(version), log, c)]) == Fresh(Frozen(entries, version, ports), log, c) {
      RepopulatedRow(m.world, ChosenJob(Settled, m, job), KeyFor(RowVersion(version), log, c));
      if job.version == version {
        KeptAnswersDerive(entries, version, ports, log, m, job, c);
      }
    }
  }

  lemma RunJobEntries(m: ModelWorld, job: ModelJob)
    ensures RunJob(m, job).entries == EntriesAfter(m.entries, job.version, job.run.deliveries)
  {
  }

  lemma NextStaysFrozen(
    entries: Entries, version: string, ports: Ports, log: MessageLog, m: ModelWorld, e: ModelEvent)
    requires StillFrozen(entries, version, ports, log, m) && KeepsFrozen(version, ports, m, e)
    ensures StillFrozen(entries, version, ports, log, NextModel(m, e))
  {
    hide Fresh, Frozen, ValidCachedRun, MessagesFor, ConversationIds, Content, RunJob, RowVersion, AllAttached;
    NextStaysAttached(m, e);
    if ModelJobOf(m, e).Some? {
      JobStaysFrozen(entries, version, ports, log, m, ModelJobOf(m, e).value);
    }
  }

  lemma {:induction false} StaysFrozenOver(
    entries: Entries, version: string, ports: Ports, log: MessageLog, m: ModelWorld, later: seq<ModelEvent>)
    requires StillFrozen(entries, version, ports, log, m) && StaysKept(version, ports, m, later)
    ensures StillFrozen(entries, version, ports, log, AfterModel(m, later))
  {
    if later != [] {
      hide StillFrozen, KeepsFrozen, NextModel;
      StaysFrozenOver(entries, version, ports, log, m, Init(later));
      NextStaysFrozen(entries, version, ports, log, AfterModel(m, Init(later)), Last(later));
    }
  }

  lemma FullJobFreezes(m: ModelWorld, job: ModelJob)
    requires AllAttached(m.entries) && ValidCachedRun(m.entries, job.version, m.world.log, job.run)
    requires forall x :: x in m.world.log ==> x.id in Projected(AsRun(m.entries, job.version, job.run))
    ensures StillFrozen(RunJob(m, job).entries, job.version, job.ports, m.world.log, RunJob(m, job))
  {
    hide Fresh, EntriesAfter, AsRun, Frozen, ConversationIds, Repopulated, RunJob, RowVersion, AllAttached, ValidRun,
         Projected,
         HitsExact;
    FullReplayAnswers(m.entries, job.version, m.world.log, job.run);
    SettledFits(m, job);
    RunJobIsRepopulated(Settled, m, job);
    RunJobEntries(m, job);
    NextStaysAttached(m, ModelReplays(job));
    RepopulateKeepsLog(m.world, ChosenJob(Settled, m, job));
    ReplayMakesExact(m.world, ChosenJob(Settled, m, job));
  }

  /**
   * Frozen answers over histories: once a replay at a version has projected every message, and while the
   * log stays as it is and no process opens the projection cache at another version, every hit at that
   * version is exactly what a further replay at the version derives, whatever the model would answer then.
   * So verify reports it as verified.
   */
  lemma FrozenHitsStayExact(
    m: ModelWorld, job: ModelJob, later: seq<ModelEvent>, check: ModelJob, c: ConversationId)
    requires AllAttached(m.entries) && ValidCachedRun(m.entries, job.version, m.world.log, job.run)
    requires forall x :: x in m.world.log ==> x.id in Projected(AsRun(m.entries, job.version, job.run))
    requires StaysKept(job.version, job.ports, RunJob(m, job), later)
    requires var end := AfterModel(RunJob(m, job), later);
             && ValidCachedRun(end.entries, job.version, m.world.log, check.run)
             && c in ConversationIds(m.world.log)
             && KeyFor(RowVersion(job.version), m.world.log, c) in end.world.rows
    requires check.version == job.version
    requires check.ports.scope == job.ports.scope && check.ports.warmup == job.ports.warmup
    requires DeliversAll(m.world.log, check.run.deliveries)
    ensures var end := AfterModel(RunJob(m, job), later);
            && end.world.log == m.world.log
            && Some(end.world.rows[KeyFor(RowVersion(job.version), m.world.log, c)])
               == DerivationFrom(
                    CachedReplay(end.entries, job.version, check.ports, check.run), c, MessagesFor(m.world.log, c))
  {
    hide EntriesAfter, CachedReplay, AsRun, Frozen, MessagesFor, ConversationIds, Content, RunJob, RowVersion,
         AllAttached,
         ValidRun, Projected, Derived, StaysKept, AfterModel, Fresh;
    var log, version := m.world.log, job.version;
    FullJobFreezes(m, job);
    StaysFrozenOver(RunJob(m, job).entries, version, job.ports, log, RunJob(m, job), later);
    var end := AfterModel(RunJob(m, job), later);
    KeptAnswersDerive(RunJob(m, job).entries, version, job.ports, log, end, check, c);
    AttachedAt(end.entries, version);
    CachedReplayIsFrozen(end.entries, version, check.ports, log, check.run);
  }

  lemma AttachedAt(entries: Entries, version: string)
    requires AllAttached(entries)
    ensures Attached(entries, version)
  {
  }

  // ---------- hits at a version that is never pruned ----------

  /** No answer at the version is lost or changed. */
  ghost predicate Grows(entries: Entries, now: Entries, version: string) {
    forall m: MessageEnvelope :: SlotOf(version, m) in entries ==>
      SlotOf(version, m) in now && now[SlotOf(version, m)] == entries[SlotOf(version, m)]
  }

  lemma EntriesAfterGrows(entries: Entries, at: string, ds: seq<Delivery>, version: string)
    ensures Grows(entries, EntriesAfter(entries, at, ds), version)
  {
    hide EntriesAfter;
    if at == version {
      EntriesGrow(entries, at, ds, 0);
      assert ds[..0] == [];
      assert EntriesAfter(entries, at, []) == entries by { NothingDelivered(entries, at); }
    } else {
      forall m: MessageEnvelope
        ensures Find(EntriesAfter(entries, at, ds), SlotOf(version, m)) == Find(entries, SlotOf(version, m)) {
        OtherVersionsStay(entries, at, ds, SlotOf(version, m));
      }
    }
  }

  lemma NothingDelivered(entries: Entries, version: string)
    ensures EntriesAfter(entries, version, []) == entries
  {
  }

  lemma NextGrows(m: ModelWorld, e: ModelEvent, version: string)
    requires e.Opens? ==> e.version == version
    ensures Grows(m.entries, NextModel(m, e).entries, version)
  {
    hide EntriesAfter, Populated, CachedReplay, KeyFor, Text;
    if ModelJobOf(m, e).Some? {
      var job := ModelJobOf(m, e).value;
      EntriesAfterGrows(m.entries, job.version, job.run.deliveries, version);
    }
  }

  ghost predicate OpensOnly(events: seq<ModelEvent>, version: string) {
    forall e :: e in events && e.Opens? ==> e.version == version
  }

  lemma {:induction false} PrefixGrows(events: seq<ModelEvent>, i: nat, version: string)
    requires i <= |events| && OpensOnly(events, version)
    ensures Grows(
              AfterModel(NEW_MODEL_WORLD, events[..i]).entries, AfterModel(NEW_MODEL_WORLD, events).entries, version)
    decreases |events| - i
  {
    hide NextModel, Text;
    if i < |events| {
      PrefixGrows(events, i + 1, version);
      PrefixStep(events, i);
      assert events[i] in events;
      NextGrows(AfterModel(NEW_MODEL_WORLD, events[..i]), events[i], version);
    } else {
      WholePrefix(events);
    }
  }

  /** At the version, the projector that the cache is in the end. */
  function KeptChoice(final: Entries, version: string, ports: Ports): Choice {
    (entries: Entries, job: ModelJob) =>
      if job.version == version then Frozen(final, version, ports) else Settled(entries, job)
  }

  lemma KeptFits(final: Entries, version: string, ports: Ports, m: ModelWorld, job: ModelJob)
    requires AllAttached(m.entries) && AllAttached(final)
    requires ValidCachedRun(m.entries, job.version, m.world.log, job.run)
    requires job.version == version ==> job.ports == ports
    requires Grows(RunJob(m, job).entries, final, version)
    ensures ChoiceFits(KeptChoice(final, version, ports), m, job)
  {
    assert |AsRun(m.entries, job.version, job.run)| == 6;
    hide CachedReplay, EntriesAfter, Derived, Frozen, AsRun, ValidRun, AllAttached, Project, RunJob, Grows;
    SettledFits(m, job);
    RunJobEntries(m, job);
    if job.version == version {
      var now := EntriesAfter(m.entries, version, job.run.deliveries);
      AttachedAt(m.entries, version);
      AttachedAfter(m.entries, version, job.run.deliveries);
      AttachedAt(final, version);
      var projected := Projected(AsRun(m.entries, version, job.run));
      forall x | x in m.world.log && x.id in projected
        ensures Project(Frozen(now, version, ports), x) == Project(Frozen(final, version, ports), x)
      {
        ProjectedIsAnswered(m.entries, version, m.world.log, job.run, x);
        GrowsAt(now, final, version, x);
        FrozenProjects(now, version, ports, x);
        FrozenProjects(final, version, ports, x);
      }
      SamePorts(now, final, version, ports);
      SameProjectionsDeriveSame(Frozen(now, version, ports), Frozen(final, version, ports), m.world.log, projected);
    }
  }

  lemma GrowsAt(entries: Entries, now: Entries, version: string, m: MessageEnvelope)
    requires Grows(entries, now, version) && SlotOf(version, m) in entries
    ensures SlotOf(version, m) in now && now[SlotOf(version, m)] == entries[SlotOf(version, m)]
  {
  }

  lemma SamePorts(entries: Entries, now: Entries, version: string, ports: Ports)
    ensures Frozen(entries, version, ports).scope == Frozen(now, version, ports).scope
    ensures Frozen(entries, version, ports).warmup == Frozen(now, version, ports).warmup
  {
  }

  /** Every replay at the version builds scope and warm-up with these ports. */
  ghost predicate BuildsWith(events: seq<ModelEvent>, version: string, ports: Ports) {
    forall e :: e in events && (e.ModelReplays? || e.ModelReads?) && e.job.version == version ==> e.job.ports == ports
  }

  lemma {:induction false} KeptFitsAll(events: seq<ModelEvent>, i: nat, version: string, ports: Ports)
    requires i <= |events| && ValidModelHistory(NEW_MODEL_WORLD, events[..i])
    requires OpensOnly(events, version) && BuildsWith(events, version, ports)
    ensures ChoiceFitsAll(
              KeptChoice(AfterModel(NEW_MODEL_WORLD, events).entries, version, ports), NEW_MODEL_WORLD, events[..i])
  {
    if i > 0 {
      hide AllAttached, ChoiceFits, ValidCachedRun, Grows, KeptChoice, RunJob;
      PrefixStep(events, i - 1);
      KeptFitsAll(events, i - 1, version, ports);
      StaysAttached(events[..i - 1]);
      StaysAttached(events);
      PrefixGrows(events, i, version);
      var m, e := AfterModel(NEW_MODEL_WORLD, events[..i - 1]), events[i - 1];
      assert e in events;
      if ModelJobOf(m, e).Some? {
        KeptFits(AfterModel(NEW_MODEL_WORLD, events).entries, version, ports, m, ModelJobOf(m, e).value);
      }
    }
  }

  lemma {:induction false} KeptFollows(final: Entries, events: seq<ModelEvent>, version: string, ports: Ports)
    requires BuildsWith(events, version, ports)
    ensures Follows(
              Frozen(final, version, ports), RowVersion(version),
              Settle(KeptChoice(final, version, ports), NEW_MODEL_WORLD, events))
  {
    if events != [] {
      hide Frozen, AfterModel, RowVersion, AsRun;
      Snoc(events);
      KeptFollows(final, Init(events), version, ports);
      var choose := KeptChoice(final, version, ports);
      var m, e := AfterModel(NEW_MODEL_WORLD, Init(events)), Last(events);
      if e.ModelReplays? || e.ModelReads? {
        RowVersionDecodes(e.job.version, version);
      }
    }
  }

  /**
   * Coherence with a model: while the projection cache is opened at one version only, a hit at that
   * version carries exactly the projections that the cache holds now, with their scope and warm-up, for
   * its conversation's current messages but those it reports as unprojected, whatever the model answered
   * and whatever happened to other conversations since.
   */
  lemma ModelHitIsCoherent(events: seq<ModelEvent>, version: string, ports: Ports, c: ConversationId)
    requires ValidModelHistory(NEW_MODEL_WORLD, events)
    requires OpensOnly(events, version) && BuildsWith(events, version, ports)
    requires var w := AfterModel(NEW_MODEL_WORLD, events).world; KeyFor(RowVersion(version), w.log, c) in w.rows
    ensures var end := AfterModel(NEW_MODEL_WORLD, events);
            var hit := end.world.rows[KeyFor(RowVersion(version), end.world.log, c)];
            LocalPart(
              Frozen(end.entries, version, ports), hit, c, Having(MessagesFor(end.world.log, c), ProjectedIn(hit)))
  {
    hide AfterModel, After, Frozen, ValidHistory, Settle, ChoiceFitsAll, LocalPart, MessagesFor, Content, KeptChoice,
         RowVersion,
         Follows;
    var end := AfterModel(NEW_MODEL_WORLD, events);
    var choose := KeptChoice(end.entries, version, ports);
    WholePrefix(events);
    KeptFitsAll(events, |events|, version, ports);
    HistorySettles(choose, events);
    KeptFollows(end.entries, events, version, ports);
    WarmupHitIsCoherent(
      Frozen(end.entries, version, ports), Settle(choose, NEW_MODEL_WORLD, events), RowVersion(version), c);
  }
}
