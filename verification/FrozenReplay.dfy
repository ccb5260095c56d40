/**
 * Replays through the semantic cache with a projector that may answer differently every time, or fail.
 */
module FrozenReplay {
  import opened Confluence
  import opened DerivedOutput
  import opened Domain
  import opened Log
  import opened Pipeline
  import opened Replay
  import opened SemanticCache
  import opened Sequences
  import opened Wrappers

  type Entries = map<Slot<ContentHash>, Projection>

  const PROJECTION_KIND := "mirrorlane.projection.llm"

  /** The cache slot of a message: a hash of its id and body, under the projector's version. */
  function SlotOf(version: string, m: MessageEnvelope): Slot<ContentHash> {
    Slot(PROJECTION_KIND, version, Text(m))
  }

  /** One delivery of a message; `model` is what the model would answer if asked now. */
  datatype Delivery = Delivery(message: MessageEnvelope, model: Option<Projection>, budget: Option<nat>)

  /** The inner projector attaches the message's own id, never one of the model's choosing. */
  function Inner(d: Delivery): Option<Projection> {
    match d.model
    case None => None
    case Some(p) => Some(p.(messageId := d.message.id))
  }

  function ServedFor(entries: Entries, version: string, d: Delivery): Served<ContentHash, Projection> {
    Serve(entries, SlotOf(version, d.message), Inner(d))
  }

  /** The cache after a stage of deliveries. */
  function EntriesAfter(entries: Entries, version: string, ds: seq<Delivery>): Entries {
    if ds == [] then entries
    else ServedFor(EntriesAfter(entries, version, Init(ds)), version, Last(ds)).entries
  }

  /** The store after a stage of deliveries: an answered delivery upserts, a failed one does not. */
  function CachedStage(entries: Entries, version: string, s: Stores, ds: seq<Delivery>): Stores {
    if ds == [] then s
    else
      var before := CachedStage(entries, version, s, Init(ds));
      var served := ServedFor(EntriesAfter(entries, version, Init(ds)), version, Last(ds));
      if served.answer.None? || Last(ds).budget == Some(0) then before
      else Put(before, WriteProjection(served.answer.value))
  }

  /** Drain the projection stage through a caching projector: a failed projection upserts nothing. */
  method DrainCached(projector: Cached<ContentHash, Projection>, stores: ReplayStores, ds: seq<Delivery>)
    requires projector.kind == PROJECTION_KIND
    modifies projector.cache, stores
    ensures projector.cache.entries == EntriesAfter(old(projector.cache.entries), projector.version, ds)
    ensures stores.View() == CachedStage(old(projector.cache.entries), projector.version, old(stores.View()), ds)
  {
    for i := 0 to |ds|
      invariant projector.cache.entries == EntriesAfter(old(projector.cache.entries), projector.version, ds[..i])
      invariant stores.View()
             == CachedStage(old(projector.cache.entries), projector.version, old(stores.View()), ds[..i])
    {
      hide Serve, Put;
      PrefixStep(ds, i);
      var answer, called := projector.Run(Text(ds[i].message), Inner(ds[i]));
      if answer.Some? && ds[i].budget != Some(0) {
        stores.Upsert(WriteProjection(answer.value));
      }
    }
    WholePrefix(ds);
  }

  /** Every entry carries the id of the message it was computed for. */
  ghost predicate Attached(entries: Entries, version: string) {
    forall m: MessageEnvelope :: SlotOf(version, m) in entries ==> entries[SlotOf(version, m)].messageId == m.id
  }

  lemma TextDecodes(m: MessageEnvelope, n: MessageEnvelope)
    requires Text(m) == Text(n)
    ensures m.id == n.id && m.body == n.body
  {
    assert Text(m) == Fed(m.id) + Fed(m.body) && Text(n) == Fed(n.id) + Fed(n.body);
    FedDecodes(m.id, n.id, Fed(m.body), Fed(n.body));
    assert Fed(m.body) + [] == Fed(m.body) && Fed(n.body) + [] == Fed(n.body);
    FedDecodes(m.body, n.body, [], []);
  }

  /** A cached answer serves exactly the same id and body, at the same version. */
  lemma SlotsEqualExactlyWhen(v: string, m: MessageEnvelope, u: string, n: MessageEnvelope)
    ensures SlotOf(v, m) == SlotOf(u, n) <==> v == u && m.id == n.id && m.body == n.body
  {
    if SlotOf(v, m) == SlotOf(u, n) {
      TextDecodes(m, n);
    }
  }

  lemma {:induction false} AttachedAfter(entries: Entries, version: string, ds: seq<Delivery>)
    requires Attached(entries, version)
    ensures Attached(EntriesAfter(entries, version, ds), version)
  {
    if ds != [] {
      AttachedAfter(entries, version, Init(ds));
      var before, now := EntriesAfter(entries, version, Init(ds)), EntriesAfter(entries, version, ds);
      forall m: MessageEnvelope | SlotOf(version, m) in now ensures now[SlotOf(version, m)].messageId == m.id {
        if SlotOf(version, m) == SlotOf(version, Last(ds).message) {
          TextDecodes(m, Last(ds).message);
        }
      }
    }
  }

  /** Entries only ever get added; nothing frozen changes. */
  lemma {:induction false} EntriesGrow(entries: Entries, version: string, ds: seq<Delivery>, i: nat)
    requires i <= |ds|
    ensures forall slot :: slot in EntriesAfter(entries, version, ds[..i]) ==>
      slot in EntriesAfter(entries, version, ds)
      && EntriesAfter(entries, version, ds)[slot] == EntriesAfter(entries, version, ds[..i])[slot]
    decreases |ds| - i
  {
    if i < |ds| {
      EntriesGrow(entries, version, ds, i + 1);
      PrefixStep(ds, i);
    } else {
      WholePrefix(ds);
    }
  }

  // ---------- the frozen projector ----------

  const NO_PROJECTION := Projection("", Social, [], [], 0.0)

  /** The deterministic projector a cache amounts to. */
  function Frozen(entries: Entries, version: string, ports: Ports): Ports {
    ports.(project := (id: MessageId, body: string) =>
      var slot := Slot(PROJECTION_KIND, version, Fed(id) + Fed(body));
      if slot in entries then entries[slot] else NO_PROJECTION)
  }

  lemma FrozenProjects(entries: Entries, version: string, ports: Ports, m: MessageEnvelope)
    requires SlotOf(version, m) in entries && Attached(entries, version)
    ensures Project(Frozen(entries, version, ports), m) == entries[SlotOf(version, m)]
  {
  }

  /** The attempts a cached stage amounts to: an unanswered delivery upserts nothing. */
  function AsAttempts(entries: Entries, version: string, ds: seq<Delivery>): seq<Attempt> {
    if ds == [] then []
    else
      var answered := ServedFor(EntriesAfter(entries, version, Init(ds)), version, Last(ds)).answer.Some?;
      AsAttempts(entries, version, Init(ds))
      + [Attempt(ProcessMessage(Last(ds).message), if answered then Last(ds).budget else Some(0))]
  }

  lemma DeliverProject(ports: Ports, s: Stores, m: MessageEnvelope, budget: Option<nat>)
    ensures Deliver(ports, s, Attempt(ProcessMessage(m), budget)) ==
            if budget == Some(0) then s else Put(s, WriteProjection(Project(ports, m)))
  {
    var w := WriteProjection(Project(ports, m));
    assert Writes(ports, s, ProcessMessage(m)) == [w];
    assert Init([w]) == [] && Last([w]) == w;
    assert Apply(s, [w]) == Put(Apply(s, []), w);
    assert Cut([w], budget) == if budget == Some(0) then [] else [w];
  }

  /** A cached stage is a stage of the deterministic machine, whose projector is the final cache. */
  lemma {:induction false} CachedStageIsFrozen(
    entries: Entries, version: string, ports: Ports, s: Stores, ds: seq<Delivery>, i: nat)
    requires i <= |ds| && Attached(entries, version)
    ensures var end := EntriesAfter(entries, version, ds);
            CachedStage(entries, version, s, ds[..i])
            == RunStage(Frozen(end, version, ports), s, AsAttempts(entries, version, ds[..i]))
  {
    if i > 0 {
      hide Frozen, Deliver, Serve, Put;
      var end := EntriesAfter(entries, version, ds);
      var frozen := Frozen(end, version, ports);
      CachedStageIsFrozen(entries, version, ports, s, ds, i - 1);
      PrefixStep(ds, i - 1);
      var d := ds[i - 1];
      var before := EntriesAfter(entries, version, ds[..i - 1]);
      var served := ServedFor(before, version, d);
      var answered := served.answer.Some?;
      var attempt := Attempt(ProcessMessage(d.message), if answered then d.budget else Some(0));
      var earlier := AsAttempts(entries, version, ds[..i - 1]);
      assert AsAttempts(entries, version, ds[..i]) == earlier + [attempt];
      assert Init(earlier + [attempt]) == earlier && Last(earlier + [attempt]) == attempt;
      DeliverProject(frozen, RunStage(frozen, s, earlier), d.message, attempt.budget);
      if answered {
        ServedIsStored(before, version, d);
        EntriesGrow(entries, version, ds, i);
        AttachedAfter(entries, version, ds);
        FrozenProjects(end, version, ports, d.message);
      }
    }
  }

  lemma ServedIsStored(entries: Entries, version: string, d: Delivery)
    requires ServedFor(entries, version, d).answer.Some?
    ensures SlotOf(version, d.message) in ServedFor(entries, version, d).entries
    ensures ServedFor(entries, version, d).entries[SlotOf(version, d.message)]
         == ServedFor(entries, version, d).answer.value
  {
  }

  // ---------- whole replays ----------

  /** The six stages of a cached replay: deliveries of messages, then the five deterministic stages. */
  datatype CachedRun = CachedRun(deliveries: seq<Delivery>, rest: seq<seq<Attempt>>)

  ghost function AsRun(entries: Entries, version: string, r: CachedRun): Run {
    [AsAttempts(entries, version, r.deliveries)] + r.rest
  }

  function CachedReplay(entries: Entries, version: string, ports: Ports, r: CachedRun): Stores {
    RunStages(ports, CachedStage(entries, version, EMPTY_STORES, r.deliveries), r.rest)
  }

  ghost predicate ValidCachedRun(entries: Entries, version: string, log: seq<MessageEnvelope>, r: CachedRun) {
    ValidRun(log, AsRun(entries, version, r))
  }

  lemma {:induction false} StagesIgnoreProjector(ports: Ports, other: Ports, s: Stores, stages: seq<seq<Attempt>>)
    requires ports.scope == other.scope && ports.warmup == other.warmup
    requires forall k, a :: 0 <= k < |stages| && a in stages[k] ==> !a.payload.ProcessMessage?
    ensures RunStages(ports, s, stages) == RunStages(other, s, stages)
  {
    if stages != [] {
      hide RunStage;
      StagesIgnoreProjector(ports, other, s, Init(stages));
      StageIgnoresProjector(ports, other, RunStages(other, s, Init(stages)), Last(stages));
    }
  }

  lemma {:induction false} StageIgnoresProjector(ports: Ports, other: Ports, s: Stores, schedule: seq<Attempt>)
    requires ports.scope == other.scope && ports.warmup == other.warmup
    requires forall a :: a in schedule ==> !a.payload.ProcessMessage?
    ensures RunStage(ports, s, schedule) == RunStage(other, s, schedule)
  {
    if schedule != [] {
      Snoc(schedule);
      assert Last(schedule) in schedule;
      StageIgnoresProjector(ports, other, s, Init(schedule));
      WritesIgnoreProjector(ports, other, RunStage(other, s, Init(schedule)), Last(schedule).payload);
    }
  }

  lemma WritesIgnoreProjector(ports: Ports, other: Ports, s: Stores, p: Payload)
    requires ports.scope == other.scope && ports.warmup == other.warmup && !p.ProcessMessage?
    ensures Writes(ports, s, p) == Writes(other, s, p)
  {
    hide HintWrites, SkillWrites, Gather, SessionOwnerships;
  }

  lemma {:induction false} StagesSplit(ports: Ports, s: Stores, first: seq<Attempt>, rest: seq<seq<Attempt>>)
    ensures RunStages(ports, s, [first] + rest) == RunStages(ports, RunStage(ports, s, first), rest)
  {
    hide RunStage;
    if rest == [] {
      assert [first] + rest == [first] && Init([first]) == [] && Last([first]) == first;
    } else {
      assert Init([first] + rest) == [first] + Init(rest) && Last([first] + rest) == Last(rest);
      StagesSplit(ports, s, first, Init(rest));
    }
  }

  /**
   * A replay through the cache, with any model, is the functional pipeline of the projector that the
   * cache has frozen, over the messages that got an answer.
   */
  lemma CachedReplayIsFrozen(entries: Entries, version: string, ports: Ports, log: MessageLog, r: CachedRun)
    requires Attached(entries, version) && ValidCachedRun(entries, version, log, r)
    ensures var end := EntriesAfter(entries, version, r.deliveries);
            CachedReplay(entries, version, ports, r)
            == Derived(Frozen(end, version, ports), log, Projected(AsRun(entries, version, r)))
  {
    hide CachedStage, RunStages, RunStage, Derived, AsAttempts, Projected, EntriesAfter;
    var frozen := Frozen(EntriesAfter(entries, version, r.deliveries), version, ports);
    var run := AsRun(entries, version, r);
    ReplayConfluence(frozen, log, run);
    CachedStageIsFrozen(entries, version, ports, EMPTY_STORES, r.deliveries, |r.deliveries|);
    WholePrefix(r.deliveries);
    StagesSplit(frozen, EMPTY_STORES, run[0], r.rest);
    assert run == [run[0]] + r.rest;
    var start := CachedStage(entries, version, EMPTY_STORES, r.deliveries);
    forall k, a | 0 <= k < |r.rest| && a in r.rest[k] ensures !a.payload.ProcessMessage? {
      assert run[k + 1] == r.rest[k];
      PayloadsHaveStage(log, k + 1, a.payload);
    }
    StagesIgnoreProjector(ports, frozen, start, r.rest);
  }

  // ---------- a second replay ----------

  /** The cache answers every message of the log. */
  ghost predicate Answers(entries: Entries, version: string, log: seq<MessageEnvelope>) {
    forall m :: m in log ==> SlotOf(version, m) in entries
  }

  /** A populated cache is left as it is: no delivery runs the model, and none fails. */
  lemma {:induction false} PopulatedCacheIsStable(
    entries: Entries, version: string, log: seq<MessageEnvelope>, ds: seq<Delivery>)
    requires Answers(entries, version, log)
    requires forall d :: d in ds ==> d.message in log
    ensures EntriesAfter(entries, version, ds) == entries
    ensures forall d :: d in ds ==>
      !ServedFor(entries, version, d).called && ServedFor(entries, version, d).answer.Some?
  {
    if ds != [] {
      Snoc(ds);
      PopulatedCacheIsStable(entries, version, log, Init(ds));
      assert Last(ds) in ds;
    }
  }

  lemma {:induction false} AttemptsMembers(entries: Entries, version: string, ds: seq<Delivery>, a: Attempt)
    requires a in AsAttempts(entries, version, ds) && a.payload.ProcessMessage? && a.budget != Some(0)
    ensures SlotOf(version, a.payload.message) in EntriesAfter(entries, version, ds)
  {
    Snoc(AsAttempts(entries, version, ds));
    var all := AsAttempts(entries, version, ds);
    var served := ServedFor(EntriesAfter(entries, version, Init(ds)), version, Last(ds));
    if a == Last(all) && served.answer.Some? {
      ServedIsStored(EntriesAfter(entries, version, Init(ds)), version, Last(ds));
    } else {
      assert Init(all) == AsAttempts(entries, version, Init(ds));
      AttemptsMembers(entries, version, Init(ds), a);
      EntriesGrow(entries, version, ds, |ds| - 1);
    }
  }

  /** A projected message has its answer in the cache. */
  lemma ProjectedIsAnswered(entries: Entries, version: string, log: MessageLog, r: CachedRun, m: MessageEnvelope)
    requires ValidCachedRun(entries, version, log, r)
    requires m in log && m.id in Projected(AsRun(entries, version, r))
    ensures SlotOf(version, m) in EntriesAfter(entries, version, r.deliveries)
  {
    var run := AsRun(entries, version, r);
    hide AsAttempts, EntriesAfter;
    var a: Attempt :| a in run[0] && a.payload.ProcessMessage? && a.budget != Some(0) && a.payload.message.id == m.id;
    AttemptsMembers(entries, version, r.deliveries, a);
    assert a.payload in StagePayloads(log, 0);
    assert a.payload.message in log;
  }

  lemma FullReplayAnswers(entries: Entries, version: string, log: MessageLog, r: CachedRun)
    requires ValidCachedRun(entries, version, log, r)
    requires forall m :: m in log ==> m.id in Projected(AsRun(entries, version, r))
    ensures Answers(EntriesAfter(entries, version, r.deliveries), version, log)
  {
    hide AsAttempts, AsRun, EntriesAfter, Projected, ValidRun;
    forall m | m in log ensures SlotOf(version, m) in EntriesAfter(entries, version, r.deliveries) {
      ProjectedIsAnswered(entries, version, log, r, m);
    }
  }

  /** With every message answered, a delivery that is not cut short projects its message. */
  lemma {:induction false} AnsweredAttempt(
    entries: Entries, version: string, log: seq<MessageEnvelope>, ds: seq<Delivery>, d: Delivery)
    requires Answers(entries, version, log)
    requires forall x :: x in ds ==> x.message in log
    requires d in ds
    ensures Attempt(ProcessMessage(d.message), d.budget) in AsAttempts(entries, version, ds)
  {
    Snoc(ds);
    PopulatedCacheIsStable(entries, version, log, Init(ds));
    if d in Init(ds) {
      AnsweredAttempt(entries, version, log, Init(ds), d);
    }
  }

  /** Every message of the log is delivered at least once without being cut short. */
  ghost predicate DeliversAll(log: seq<MessageEnvelope>, ds: seq<Delivery>) {
    && (forall d :: d in ds ==> d.message in log)
    && (forall m :: m in log ==> exists d :: d in ds && d.message == m && d.budget != Some(0))
  }

  lemma DeliveredIsProjected(entries: Entries, version: string, log: seq<MessageEnvelope>, r: CachedRun)
    requires Answers(entries, version, log) && DeliversAll(log, r.deliveries)
    requires |r.rest| == 5
    ensures forall m :: m in log ==> m.id in Projected(AsRun(entries, version, r))
  {
    hide AsAttempts;
    var run := AsRun(entries, version, r);
    forall m | m in log ensures m.id in Projected(run) {
      var d :| d in r.deliveries && d.message == m && d.budget != Some(0);
      AnsweredAttempt(entries, version, log, r.deliveries, d);
      assert Attempt(ProcessMessage(m), d.budget) in run[0];
    }
  }

  /**
   * Frozen non-determinism: once a first replay has projected every message, a second replay over the
   * same cache that delivers every message never runs the model, leaves the cache as it is, projects
   * every message and agrees on all six stores, whatever the model would answer the second time.
   */
  lemma TwoReplaysAgree(
    entries: Entries, version: string, ports: Ports, log: MessageLog, first: CachedRun, second: CachedRun)
    requires Attached(entries, version)
    requires ValidCachedRun(entries, version, log, first)
    requires forall m :: m in log ==> m.id in Projected(AsRun(entries, version, first))
    requires ValidCachedRun(EntriesAfter(entries, version, first.deliveries), version, log, second)
    requires DeliversAll(log, second.deliveries)
    ensures |AsRun(EntriesAfter(entries, version, first.deliveries), version, second)| == 6
    ensures var between := EntriesAfter(entries, version, first.deliveries);
            && (forall m :: m in log ==> m.id in Projected(AsRun(between, version, second)))
            && EntriesAfter(between, version, second.deliveries) == between
            && (forall d :: d in second.deliveries ==> !ServedFor(between, version, d).called)
            && CachedReplay(entries, version, ports, first) == CachedReplay(between, version, ports, second)
  {
    var between := EntriesAfter(entries, version, first.deliveries);
    assert |AsRun(between, version, second)| == 6 && |second.rest| == 5;
    hide AsAttempts, AsRun, EntriesAfter, Derived, CachedReplay, Frozen, Projected;
    FullReplayAnswers(entries, version, log, first);
    AttachedAfter(entries, version, first.deliveries);
    PopulatedCacheIsStable(between, version, log, second.deliveries);
    DeliveredIsProjected(between, version, log, second);
    CachedReplayIsFrozen(entries, version, ports, log, first);
    CachedReplayIsFrozen(between, version, ports, log, second);
    OnlyLogIdsMatter(Frozen(between, version, ports), log,
                     Projected(AsRun(entries, version, first)), Projected(AsRun(between, version, second)));
  }
}
