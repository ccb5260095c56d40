/** The commands over the log and the derived-output cache: replay, warm-up, verify and submitted strategy runs. */
module Commands {
  import opened Coherence
  import opened Confluence
  import opened DerivedOutput
  import opened Domain
  import opened Log
  import opened Pipeline
  import opened Replay
  import opened Routing
  import opened Selection
  import opened Sequences
  import opened Sessions
  import opened Wrappers

  import Identities

  // ---------- messages without a projection ----------

  method Unprojected(ids: seq<MessageId>, projected: set<MessageId>) returns (missing: seq<MessageId>)
    ensures missing == Outside(ids, projected)
    ensures Selects(ids, missing, (id: MessageId) => if id in projected then None else Some(id))
  {
    missing := [];
    for i := 0 to |ids|
      invariant missing == Outside(ids[..i], projected)
    {
      PrefixStep(ids, i);
      if ids[i] !in projected {
        missing := missing + [ids[i]];
      }
    }
    WholePrefix(ids);
    OutsideSelects(ids, projected);
  }

  // ---------- strategies ----------

  /** The built-in strategies, and any other that derives its stores from the log. */
  datatype ReplayStrategy =
    | ProjectionStrategy(ports: Ports)
    | EmptyStrategy
    | OtherStrategy(run: MessageLog -> Stores)

  /** What a strategy derives; `run` is what the brokers deliver if it is the projection pipeline. */
  ghost function StrategyStores(strategy: ReplayStrategy, log: MessageLog, run: Run): Stores
    requires ValidRun(log, run)
  {
    match strategy
    case ProjectionStrategy(ports) => Derived(ports, log, Projected(run))
    case EmptyStrategy => EMPTY_STORES
    case OtherStrategy(other) => other(log)
  }

  method RunStrategy(strategy: ReplayStrategy, log: MessageLog, run: Run) returns (s: Stores)
    requires ValidRun(log, run)
    ensures s == StrategyStores(strategy, log, run)
  {
    match strategy {
      case ProjectionStrategy(ports) =>
        var stores := RunPhases(ports, log, run);
        s := stores.View();
      case EmptyStrategy =>
        s := EMPTY_STORES;
      case OtherStrategy(other) =>
        s := other(log);
    }
  }

  /** Builds a strategy from the resolved ports. */
  datatype Factory = Factory(build: Ports -> ReplayStrategy)

  class StrategyRegistry {
    var factories: map<string, Factory>

    /** The built-in strategies: "projection" and "empty". */
    constructor WithBuiltins()
      ensures factories.Keys == {"projection", "empty"}
      ensures forall ports :: factories["projection"].build(ports) == ProjectionStrategy(ports)
      ensures forall ports :: factories["empty"].build(ports) == EmptyStrategy
    {
      factories := map["projection" := Factory((ports: Ports) => ProjectionStrategy(ports)),
                       "empty" := Factory((ports: Ports) => EmptyStrategy)];
    }

    /** An id that was never registered is an error, not a panic. */
    method Build(id: string, ports: Ports) returns (strategy: Option<ReplayStrategy>)
      ensures strategy.None? <==> id !in factories
      ensures strategy.Some? ==> strategy.value == factories[id].build(ports)
    {
      strategy := if id in factories then Some(factories[id].build(ports)) else None;
    }
  }

  // ---------- replay ----------

  /** The producer: replay, write every conversation's derivation, report what did not project. */
  method ReplayCommand(
    store: InMemoryMessageStore, strategy: ReplayStrategy, cache: DerivedOutputCache, version: string,
    router: RuleRouter, run: Run, failing: set<ConversationId>)
    returns (contexts: seq<SessionContext>, missing: seq<MessageId>)
    requires store.Valid() && ValidRun(store.Contents(), run)
    modifies cache
    ensures var log, s := store.Contents(), StrategyStores(strategy, store.Contents(), run);
            && cache.rows == Populated(old(cache.rows), s, log, version, Kept(cache.reclaims, log, failing))
            && contexts == SessionsOf(Derivations(s, log, ConversationIds(log)), version, router)
            && missing == Outside(Ids(log), s.projections.Keys)
            && ContextsHold(contexts, version, router, s, log)
            && Selects(Ids(log), missing, (id: MessageId) => if id in s.projections.Keys then None else Some(id))
  {
    hide StrategyStores, ValidRun, Projected, Populated, Derivations, ConversationIds, ContextsHold, Selects;
    var log := store.All();
    var s := RunStrategy(strategy, log, run);
    var derivations := PopulateCache(log, s, cache, version, failing);
    contexts := SessionsOf(derivations, version, router);
    missing := Unprojected(Ids(log), s.projections.Keys);
    ReplayContextsHold(s, log, version, router);
  }

  function ContextIds(contexts: seq<SessionContext>): (cs: seq<ConversationId>)
    ensures |cs| == |contexts| && forall i :: 0 <= i < |contexts| ==> cs[i] == contexts[i].conversation
  {
    seq(|contexts|, i requires 0 <= i < |contexts| => contexts[i].conversation)
  }

  /** One context per conversation with a warm-up, in first-seen order, each carrying what the stores hold. */
  ghost predicate ContextsHold(
    contexts: seq<SessionContext>, version: string, router: RuleRouter, s: Stores, log: MessageLog)
  {
    && Selects(ConversationIds(log), ContextIds(contexts),
               (c: ConversationId) => if c in s.warmups then Some(c) else None)
    && forall x :: x in contexts ==>
         CarriesStores(x, version, router, s, x.conversation, IdsIn(log, x.conversation))
  }

  lemma ReplayContextsHold(s: Stores, log: MessageLog, version: string, router: RuleRouter)
    ensures ContextsHold(
              SessionsOf(Derivations(s, log, ConversationIds(log)), version, router), version, router, s, log)
  {
    hide ConversationIds, MessagesFor, Derivations, DerivationFrom, CarriesStores, SessionOf, DerivationHolds, Selects;
    var cs := ConversationIds(log);
    var ds := Derivations(s, log, cs);
    var contexts := SessionsOf(ds, version, router);
    DerivationsSelect(s, log, cs);
    forall c
      ensures DerivationFrom(s, c, MessagesFor(log, c)).Some? <==> c in s.warmups
      ensures c in s.warmups ==>
                DerivationHolds(DerivationFrom(s, c, MessagesFor(log, c)).value, s, c, MessagesFor(log, c))
    {
      DerivationFromHolds(s, c, MessagesFor(log, c));
    }
    forall i | 0 <= i < |ds|
      ensures DerivationHolds(ds[i], s, ds[i].conversation, MessagesFor(log, ds[i].conversation))
      ensures contexts[i].conversation == ds[i].conversation
      ensures CarriesStores(contexts[i], version, router, s, contexts[i].conversation,
                            IdsIn(log, contexts[i].conversation))
    {
      SelectsMembers(cs, ds, (c: ConversationId) => DerivationFrom(s, c, MessagesFor(log, c)), ds[i]);
      var c :| c in cs && DerivationFrom(s, c, MessagesFor(log, c)) == Some(ds[i]);
      DerivationIsFor(ds[i], s, c, MessagesFor(log, c));
      SessionCarriesRow(ds[i], version, router);
      SessionIsFor(ds[i], version, router);
      RowCarriesStores(contexts[i], ds[i], version, router, s, c, MessagesFor(log, c));
    }
    ConversationsSelect(s, log, cs, ds);
    assert ContextIds(contexts) == DerivedIds(ds);
  }

  function DerivedIds(ds: seq<ConversationDerivation>): (cs: seq<ConversationId>)
    ensures |cs| == |ds| && forall i :: 0 <= i < |ds| ==> cs[i] == ds[i].conversation
  {
    seq(|ds|, i requires 0 <= i < |ds| => ds[i].conversation)
  }

  lemma DerivationIsFor(d: ConversationDerivation, s: Stores, c: ConversationId, ms: seq<MessageEnvelope>)
    requires DerivationHolds(d, s, c, ms)
    ensures d.conversation == c
  {
  }

  lemma SessionIsFor(d: ConversationDerivation, version: string, router: RuleRouter)
    ensures SessionOf(d, version, router).conversation == d.conversation
  {
  }

  lemma {:induction false} ConversationsSelect(
    s: Stores, log: MessageLog, cs: seq<ConversationId>, ds: seq<ConversationDerivation>)
    requires ds == Derivations(s, log, cs)
    ensures Selects(cs, DerivedIds(ds), (c: ConversationId) => if c in s.warmups then Some(c) else None)
  {
    if cs != [] {
      hide DerivationFrom, MessagesFor, Selects;
      var before, c := Derivations(s, log, Init(cs)), Last(cs);
      ConversationsSelect(s, log, Init(cs), before);
      DerivationFromHolds(s, c, MessagesFor(log, c));
      SelectsNext(cs, DerivedIds(before), (c: ConversationId) => if c in s.warmups then Some(c) else None);
      assert DerivedIds(ds) == DerivedIds(before) + (if c in s.warmups then [c] else []);
    } else {
      SelectsNone((c: ConversationId) => if c in s.warmups then Some(c) else None);
    }
  }

  // ---------- warm-up ----------

  function SessionIf(d: Option<ConversationDerivation>, version: string, router: RuleRouter): Option<SessionContext> {
    match d
    case Some(found) => Some(SessionOf(found, version, router))
    case None => None
  }

  /** What a warm-up read answers, from the rows alone on a hit and from a replay on a miss. */
  ghost function WarmupAnswer(
    rows: Rows, s: Stores, log: MessageLog, version: string, router: RuleRouter, c: ConversationId)
    : (Option<SessionContext>, seq<MessageId>)
  {
    match Find(rows, KeyFor(version, log, c))
    case Some(hit) => (Some(SessionOf(hit, version, router)), Outside(IdsIn(log, c), ProjectedIn(hit)))
    case None =>
      (SessionIf(DerivationFrom(s, c, MessagesFor(log, c)), version, router),
       Outside(IdsIn(log, c), s.projections.Keys))
  }

  /**
   * A hit carries its row and reports the conversation's messages without a projection in the row; a miss
   * carries the stores, if the conversation has a warm-up, and reports those without a stored projection.
   */
  ghost predicate WarmupHolds(
    context: Option<SessionContext>, missing: seq<MessageId>, rows: Rows, s: Stores, log: MessageLog,
    version: string, router: RuleRouter, c: ConversationId)
  {
    var key := KeyFor(version, log, c);
    if key in rows then
      && context.Some? && CarriesRow(context.value, rows[key], version, router)
      && Selects(IdsIn(log, c), missing,
                 (id: MessageId) => if id in ProjectedIn(rows[key]) then None else Some(id))
    else
      && (context.Some? <==> c in s.warmups)
      && (context.Some? ==> CarriesStores(context.value, version, router, s, c, IdsIn(log, c)))
      && Selects(IdsIn(log, c), missing, (id: MessageId) => if id in s.projections.Keys then None else Some(id))
  }

  lemma WarmupAnswerHolds(
    rows: Rows, s: Stores, log: MessageLog, version: string, router: RuleRouter, c: ConversationId)
    ensures var (context, missing) := WarmupAnswer(rows, s, log, version, router, c);
            WarmupHolds(context, missing, rows, s, log, version, router, c)
  {
    hide MessagesFor, Content, DerivationFrom, SessionOf, CarriesRow, CarriesStores, DerivationHolds, Selects,
         ProjectedIn;
    var key := KeyFor(version, log, c);
    if key in rows {
      SessionCarriesRow(rows[key], version, router);
      OutsideSelects(IdsIn(log, c), ProjectedIn(rows[key]));
    } else {
      var ms := MessagesFor(log, c);
      DerivationFromHolds(s, c, ms);
      OutsideSelects(IdsIn(log, c), s.projections.Keys);
      if c in s.warmups {
        var d := DerivationFrom(s, c, ms).value;
        SessionCarriesRow(d, version, router);
        RowCarriesStores(SessionOf(d, version, router), d, version, router, s, c, ms);
      }
    }
  }

  /** The consumer: serve a hit without replaying; on a miss replay and populate every conversation. */
  method WarmupCommand(
    store: InMemoryMessageStore, c: ConversationId, strategy: ReplayStrategy, cache: DerivedOutputCache,
    version: string, router: RuleRouter, run: Run, failing: set<ConversationId>)
    returns (context: Option<SessionContext>, missing: seq<MessageId>)
    requires store.Valid() && ValidRun(store.Contents(), run)
    modifies cache
    ensures var log, s := store.Contents(), StrategyStores(strategy, store.Contents(), run);
            && (context, missing) == WarmupAnswer(old(cache.rows), s, log, version, router, c)
            && cache.rows == if KeyFor(version, log, c) in old(cache.rows) then old(cache.rows)
                             else Populated(old(cache.rows), s, log, version, Kept(cache.reclaims, log, failing))
    ensures WarmupHolds(context, missing, old(cache.rows), StrategyStores(strategy, store.Contents(), run),
                        store.Contents(), version, router, c)
  {
    WarmupAnswerHolds(
      cache.rows, StrategyStores(strategy, store.Contents(), run), store.Contents(), version, router, c);
    hide StrategyStores, ValidRun, Populated, Derivations, ConversationIds, DerivationFrom, MessagesFor, Content,
         SessionOf;
    var messages := store.GetMessagesFor(c);
    var content := ContentHashOf(messages);
    var hit := cache.Get(CacheKey(version, c, content));
    if hit.Some? {
      context := Some(SessionOf(hit.value, version, router));
      missing := Unprojected(Ids(messages), ProjectedIn(hit.value));
      return;
    }
    var log := store.All();
    var s := RunStrategy(strategy, log, run);
    var _ := PopulateCache(log, s, cache, version, failing);
    var derivation := DerivationFor(log, s, c);
    context := SessionIf(derivation, version, router);
    missing := Unprojected(Ids(messages), s.projections.Keys);
  }

  /** On the log just replayed, a hit reports the same unprojected ids as the miss path. */
  lemma HitReportsSameMissing(s: Stores, log: MessageLog, c: ConversationId)
    requires Wellkeyed(s) && DerivationFrom(s, c, MessagesFor(log, c)).Some?
    ensures Outside(IdsIn(log, c), ProjectedIn(DerivationFrom(s, c, MessagesFor(log, c)).value))
         == Outside(IdsIn(log, c), s.projections.Keys)
  {
    var ids := IdsIn(log, c);
    var d := DerivationFrom(s, c, MessagesFor(log, c)).value;
    forall id | id in ids ensures id in ProjectedIn(d) <==> id in s.projections {
      if id in s.projections {
        GatherMembers(s.projections, ids, s.projections[id]);
      }
      if p :| p in d.projections && p.messageId == id {
        GatherMembers(s.projections, ids, p);
      }
    }
    OutsideAgrees(ids, ProjectedIn(d), s.projections.Keys);
  }

  /**
   * A warm-up read right after a replay of the same log, partial or not, hits and answers exactly
   * what the miss path would, session context and unprojected ids alike.
   */
  lemma HitAnswersAsMiss(
    rows: Rows, ports: Ports, log: MessageLog, version: string, router: RuleRouter, run: Run, kept: set<ConversationId>,
    c: ConversationId)
    requires ValidRun(log, run) && c in ConversationIds(log)
    ensures var s := Derived(ports, log, Projected(run));
            WarmupAnswer(Populated(rows, s, log, version, kept), s, log, version, router, c)
            == WarmupAnswer(map[], s, log, version, router, c)
  {
    hide MessagesFor, Content, Derived, Projected, ConversationIds, SessionOf;
    var s := Derived(ports, log, Projected(run));
    ConversationIdsMembers(log);
    DerivedWellkeyed(ports, log, Projected(run));
    WarmupSound(ports, log, Projected(run), c);
    PopulatedRow(rows, s, log, version, ConversationIds(log), kept, KeyFor(version, log, c));
    HitReportsSameMissing(s, log, c);
  }

  // ---------- verify ----------

  datatype Outcome = NotCached | Verified | Diverged

  datatype VerifyRecord = VerifyRecord(conversation: ConversationId, outcome: Outcome)

  function OutcomeOf(rows: Rows, key: CacheKey, recomputed: ConversationDerivation): Outcome {
    if key !in rows then NotCached
    else if rows[key] == recomputed then Verified
    else Diverged
  }

  function Records(
    rows: Rows, log: seq<MessageEnvelope>, version: string, ds: seq<ConversationDerivation>): (r: seq<VerifyRecord>)
    ensures |r| == |ds|
    ensures forall i :: 0 <= i < |ds| ==>
      r[i] == VerifyRecord(ds[i].conversation, OutcomeOf(rows, KeyFor(version, log, ds[i].conversation), ds[i]))
  {
    if ds == [] then []
    else
      var d := Last(ds);
      Records(rows, log, version, Init(ds))
      + [VerifyRecord(d.conversation, OutcomeOf(rows, KeyFor(version, log, d.conversation), d))]
  }

  /** Recompute into a scratch cache and compare with the durable one, which is only read. */
  method VerifyCommand(
    store: InMemoryMessageStore, strategy: ReplayStrategy, durable: DerivedOutputCache, version: string, run: Run)
    returns (records: seq<VerifyRecord>)
    requires store.Valid() && ValidRun(store.Contents(), run)
    ensures durable.rows == old(durable.rows)
    ensures var log, s := store.Contents(), StrategyStores(strategy, store.Contents(), run);
            records == Records(durable.rows, log, version, Derivations(s, log, ConversationIds(log)))
  {
    hide StrategyStores, ValidRun, Populated, Derivations, ConversationIds, DerivationFrom, MessagesFor, Content;
    var log := store.All();
    var s := RunStrategy(strategy, log, run);
    var scratch := new DerivedOutputCache(false);
    var derivations := PopulateCache(log, s, scratch, version, {});
    records := [];
    for i := 0 to |derivations|
      invariant records == Records(durable.rows, log, version, derivations[..i])
      invariant durable.rows == old(durable.rows)
    {
      PrefixStep(derivations, i);
      var recomputed := derivations[i];
      var messages := store.GetMessagesFor(recomputed.conversation);
      var content := ContentHashOf(messages);
      var stored := durable.Get(CacheKey(version, recomputed.conversation, content));
      var outcome := if stored.None? then NotCached else if stored.value == recomputed then Verified else Diverged;
      records := records + [VerifyRecord(recomputed.conversation, outcome)];
    }
    WholePrefix(derivations);
  }

  lemma {:induction false} DerivationsFollow(s: Stores, log: seq<MessageEnvelope>, cs: seq<ConversationId>)
    requires forall c :: c in cs ==> c in s.warmups
    ensures var ds := Derivations(s, log, cs);
            && |ds| == |cs|
            && forall i :: 0 <= i < |cs| ==>
                 Some(ds[i]) == DerivationFrom(s, cs[i], MessagesFor(log, cs[i])) && ds[i].conversation == cs[i]
  {
    hide MessagesFor;
    if cs != [] {
      Snoc(cs);
      DerivationsFollow(s, log, Init(cs));
    }
  }

  /**
   * Verify is faithful: one record per conversation of the log, in order; "diverged" exactly when the
   * row at the current key differs from recomputation, "not cached" exactly when there is none.
   */
  lemma VerifyIsFaithful(rows: Rows, s: Stores, log: MessageLog, version: string, i: nat)
    requires forall c :: c in ConversationIds(log) ==> c in s.warmups
    requires i < |ConversationIds(log)|
    ensures var records := Records(rows, log, version, Derivations(s, log, ConversationIds(log)));
            var c := ConversationIds(log)[i];
            var key := KeyFor(version, log, c);
            && |records| == |ConversationIds(log)|
            && records[i].conversation == c
            && (records[i].outcome == Diverged <==>
                  key in rows && Some(rows[key]) != DerivationFrom(s, c, MessagesFor(log, c)))
            && (records[i].outcome == NotCached <==> key !in rows)
  {
    hide ConversationIds, MessagesFor, Derivations, Content, DerivationFrom;
    DerivationsFollow(s, log, ConversationIds(log));
  }

  /**
   * Immediately after a replay of any log every conversation verifies, as long as the projector is
   * deterministic and fails on the same messages, if on any, when verify replays the log.
   */
  lemma ReplayThenVerify(
    rows: Rows, ports: Ports, log: MessageLog, version: string, run: Run, kept: set<ConversationId>, check: Run, i: nat)
    requires ValidRun(log, run) && ValidRun(log, check) && i < |ConversationIds(log)|
    requires forall m :: m in log ==> (m.id in Projected(run) <==> m.id in Projected(check))
    ensures var now := Populated(rows, Derived(ports, log, Projected(run)), log, version, kept);
            var records := Records(now, log, version,
                                   Derivations(Derived(ports, log, Projected(check)), log, ConversationIds(log)));
            i < |records| && records[i] == VerifyRecord(ConversationIds(log)[i], Verified)
  {
    OnlyLogIdsMatter(ports, log, Projected(run), Projected(check));
    var s := Derived(ports, log, Projected(run));
    var now := Populated(rows, s, log, version, kept);
    EveryConversationIsDerived(ports, log, Projected(run));
    ConversationIdsMembers(log);
    PopulatedRow(rows, s, log, version, ConversationIds(log), kept, KeyFor(version, log, ConversationIds(log)[i]));
    hide ConversationIds, MessagesFor, Derivations, Content, Derived, Projected, ValidRun, PopulatedRows;
    VerifyIsFaithful(now, s, log, version, i);
  }

  // ---------- submitted strategy runs ----------

  /**
   * A submitted run of a strategy named by its registered id, publishing under that strategy's own
   * version; an unknown id fails the job before it touches the cache.
   */
  method StrategyRunJob(
    store: InMemoryMessageStore, ports: Ports, registry: StrategyRegistry, cache: DerivedOutputCache, id: string,
    projectorVersion: string, run: Run, failing: set<ConversationId>)
    returns (ok: bool)
    requires store.Valid() && ValidRun(store.Contents(), run)
    modifies cache
    ensures ok <==> id in registry.factories
    ensures !ok ==> cache.rows == old(cache.rows)
    ensures ok ==>
              cache.rows == Populated(old(cache.rows),
                                      StrategyStores(registry.factories[id].build(ports), store.Contents(), run),
                                      store.Contents(),
                                      Identities.DerivationVersion(id, projectorVersion),
                                      Kept(cache.reclaims, store.Contents(), failing))
  {
    hide StrategyStores, ValidRun, Populated, Derivations, ConversationIds, DerivationFrom, MessagesFor, Content;
    var strategy := registry.Build(id, ports);
    if strategy.None? {
      return false;
    }
    var log := store.All();
    var s := RunStrategy(strategy.value, log, run);
    var version := Identities.DerivationVersion(id, projectorVersion);
    var _ := PopulateCache(log, s, cache, version, failing);
    ok := true;
  }

  lemma {:induction false} EmptyPopulatesNothing(
    rows: Rows, log: seq<MessageEnvelope>, version: string, cs: seq<ConversationId>, kept: set<ConversationId>)
    ensures PopulatedRows(rows, EMPTY_STORES, log, version, cs, kept) == rows
  {
    if cs != [] {
      EmptyPopulatesNothing(rows, log, version, Init(cs), kept);
    }
  }

  // ---------- the commands as events of a history ----------

  /** A replay command is a replay event; a warm-up command is a warm-up read, hit or miss. */
  lemma CommandsAreEvents(
    log: MessageLog, rows: Rows, ports: Ports, version: string, run: Run, kept: set<ConversationId>, c: ConversationId)
    requires ValidRun(log, run)
    ensures var s := StrategyStores(ProjectionStrategy(ports), log, run);
            var w, job := World(log, rows), Job(version, ports, run, kept);
            && Next(w, Replays(job)) == World(log, Populated(rows, s, log, version, kept))
            && Next(w, ReadsWarmup(c, job))
               == World(log, if KeyFor(version, log, c) in rows then rows else Populated(rows, s, log, version, kept))
  {
    hide RunStages, Derived, Populated, ValidRun;
    ReplayConfluence(ports, log, run);
  }

  /** An ingest event appends; a reclaim event deletes exactly the conversation's other rows. */
  lemma OtherEvents(w: World, m: MessageEnvelope, keep: CacheKey, k: CacheKey)
    ensures Next(w, Ingested(m)) == World(Appended(w.log, m), w.rows)
    ensures Next(w, Reclaims(keep)).log == w.log
    ensures Find(Next(w, Reclaims(keep)).rows, k)
         == if k.conversation == keep.conversation && k != keep then None else Find(w.rows, k)
  {
    PruneKeeps(w.rows, keep, k);
  }

  /** So after a warm-up command the next read of any logged conversation that was missed is a hit. */
  lemma MissPopulates(
    w: World, job: Job, c: ConversationId, other: ConversationId)
    requires ValidRun(w.log, job.run) && other in ConversationIds(w.log)
    requires KeyFor(job.version, w.log, c) !in w.rows
    ensures KeyFor(job.version, w.log, other) in Next(w, ReadsWarmup(c, job)).rows
  {
    hide MessagesFor, Content, ConversationIds, Repopulated, ValidRun;
    RepopulatedRow(w, job, KeyFor(job.version, w.log, other));
  }
}
