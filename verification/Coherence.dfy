/**
 * Cache histories: appends, in-place edits, moves between conversations, replays, warm-up reads and
 * reclaims, at any mix of versions. A replay may miss messages, and each brings its own ports.
 */
module Coherence {
  import opened Confluence
  import opened DerivedOutput
  import opened Domain
  import opened Log
  import opened Pipeline
  import opened Selection
  import opened Sequences
  import opened Wrappers

  // ---------- what a replay of a log derives ----------

  function ProjectAll(ports: Ports, ms: seq<MessageEnvelope>): (r: seq<Projection>)
    ensures |r| == |ms|
    ensures forall i :: 0 <= i < |ms| ==> r[i] == Project(ports, ms[i])
  {
    if ms == [] then [] else ProjectAll(ports, Init(ms)) + [Project(ports, Last(ms))]
  }

  /** What a replay that projects these messages derives for the conversation. */
  function DerivedOf(ports: Ports, log: MessageLog, projected: set<MessageId>, c: ConversationId)
    : Option<ConversationDerivation>
  {
    DerivationFrom(Derived(ports, log, projected), c, MessagesFor(log, c))
  }

  /** What a fresh replay that projects every message derives for the conversation. */
  function Fresh(ports: Ports, log: MessageLog, c: ConversationId): Option<ConversationDerivation> {
    DerivedOf(ports, log, Set(Ids(log)), c)
  }

  /** The part of a derivation that only the ids and bodies of the projected messages determine. */
  ghost predicate LocalPart(ports: Ports, d: ConversationDerivation, c: ConversationId, ms: seq<MessageEnvelope>) {
    && d.conversation == c
    && |d.projections| == |ms|
    && (forall i :: 0 <= i < |ms| ==>
          d.projections[i] == ports.project(ms[i].id, ms[i].body).(messageId := ms[i].id))
    && d.scope == Some(ports.scope(c, d.projections).(conversation := c))
    && d.warmup == ports.warmup(c, d.scope, d.projections).(conversation := c)
  }

  lemma LocalPartIs(ports: Ports, d: ConversationDerivation, c: ConversationId, ms: seq<MessageEnvelope>)
    ensures LocalPart(ports, d, c, ms) <==>
            && d.conversation == c
            && d.projections == ProjectAll(ports, ms)
            && d.scope == Some(ScopeOf(ports, c, d.projections))
            && d.warmup == WarmupOf(ports, c, d.scope, d.projections)
  {
    forall i | 0 <= i < |ms|
      ensures ProjectAll(ports, ms)[i] == ports.project(ms[i].id, ms[i].body).(messageId := ms[i].id) {
    }
  }

  lemma InLog(log: MessageLog, c: ConversationId, m: MessageEnvelope)
    requires m in MessagesFor(log, c)
    ensures m in log && m.conversation.id == c && m.id in Set(Ids(log))
  {
    MessagesForMembers(log, c);
    var i :| 0 <= i < |log| && log[i] == m;
    assert Ids(log)[i] == m.id;
  }

  lemma {:induction false} GatherHaving(
    ports: Ports, log: MessageLog, projected: set<MessageId>, ms: seq<MessageEnvelope>)
    requires forall m :: m in ms ==> m in log
    ensures Gather(Projections(ports, log, projected), Ids(ms)) == ProjectAll(ports, Having(ms, projected))
  {
    hide Projections, Project;
    if ms != [] {
      Snoc(ms);
      var m := Last(ms);
      assert m in log && Init(Ids(ms)) == Ids(Init(ms)) && Last(Ids(ms)) == m.id;
      GatherHaving(ports, log, projected, Init(ms));
      if m.id in projected {
        ProjectionAt(ports, log, projected, m);
        var before := Having(Init(ms), projected);
        assert Init(before + [m]) == before && Last(before + [m]) == m;
      } else {
        ProjectedIds(ports, log, projected);
      }
    }
  }

  lemma SessionNonEmpty(log: MessageLog, c: ConversationId)
    ensures c in ConversationIds(log) <==> MessagesFor(log, c) != []
  {
    ConversationIdsMembers(log);
    MessagesForMembers(log, c);
    if MessagesFor(log, c) != [] {
      assert MessagesFor(log, c)[0] in log;
    }
  }

  /** Projections, scope and warm-up are determined by the conversation's projected messages. */
  lemma DerivedIsLocal(ports: Ports, log: MessageLog, projected: set<MessageId>, c: ConversationId)
    ensures DerivedOf(ports, log, projected, c).Some? <==> c in ConversationIds(log)
    ensures c in ConversationIds(log) ==>
      LocalPart(ports, DerivedOf(ports, log, projected, c).value, c, Having(MessagesFor(log, c), projected))
  {
    hide Projections, Skills, Hints, LogContributions, SessionDevelopersOf, MessagesFor, ConversationIds, Ids, Gather,
         ProjectAll, ScopeOf, WarmupOf, Having, LocalPart;
    if c in ConversationIds(log) {
      LocalPartIs(ports, DerivedOf(ports, log, projected, c).value, c, Having(MessagesFor(log, c), projected));
    }
    forall m | m in MessagesFor(log, c) ensures m in log {
      InLog(log, c, m);
    }
    GatherHaving(ports, log, projected, MessagesFor(log, c));
  }

  /** The scope and warm-up stages hand the conversation's projections, and the scope, to their ports. */
  lemma DerivedCallsPorts(ports: Ports, log: MessageLog, projected: set<MessageId>, c: ConversationId)
    requires c in ConversationIds(log)
    ensures var d := Derived(ports, log, projected);
            && c in d.scopes && c in d.warmups
            && var ps := Gather(d.projections, IdsIn(log, c));
               && Selects(MessagesFor(log, c), ps,
                          (m: MessageEnvelope) => if m.id in projected
                                                  then Some(ports.project(m.id, m.body).(messageId := m.id)) else None)
               && d.scopes[c] == ports.scope(c, ps).(conversation := c)
               && d.warmups[c] == ports.warmup(c, Some(d.scopes[c]), ps).(conversation := c)
  {
    hide Projections, Skills, Hints, LogContributions, SessionDevelopersOf, MessagesFor, ConversationIds, Gather,
         Having;
    forall m | m in MessagesFor(log, c) ensures m in log {
      InLog(log, c, m);
    }
    GatherHaving(ports, log, projected, MessagesFor(log, c));
    ProjectHavingSelects(ports, MessagesFor(log, c), projected);
  }

  lemma {:induction false} ProjectHavingSelects(ports: Ports, ms: seq<MessageEnvelope>, ids: set<MessageId>)
    ensures Selects(ms, ProjectAll(ports, Having(ms, ids)),
                    (m: MessageEnvelope) => if m.id in ids
                                            then Some(ports.project(m.id, m.body).(messageId := m.id)) else None)
  {
    if ms != [] {
      ProjectHavingSelects(ports, Init(ms), ids);
      var before, m := Having(Init(ms), ids), Last(ms);
      assert Init(before + [m]) == before && Last(before + [m]) == m && before + [] == before;
      assert ProjectAll(ports, before) + [] == ProjectAll(ports, before);
      SelectsNext(ms, ProjectAll(ports, before),
                  (m: MessageEnvelope) => if m.id in ids
                                          then Some(ports.project(m.id, m.body).(messageId := m.id)) else None);
    }
  }

  /** Lists with the same text project alike, whatever is left out. */
  lemma {:induction false} ProjectHavingText(
    ports: Ports, ms: seq<MessageEnvelope>, ns: seq<MessageEnvelope>, ids: set<MessageId>)
    requires SameText(ms, ns)
    ensures ProjectAll(ports, Having(ms, ids)) == ProjectAll(ports, Having(ns, ids))
  {
    if ms != [] {
      ProjectHavingText(ports, Init(ms), Init(ns), ids);
      var m, n := Last(ms), Last(ns);
      assert m == ms[|ms| - 1] && n == ns[|ns| - 1];
      assert Project(ports, m) == Project(ports, n);
      var a, b := Having(Init(ms), ids), Having(Init(ns), ids);
      assert Init(a + [m]) == a && Last(a + [m]) == m && Init(b + [n]) == b && Last(b + [n]) == n;
    }
  }

  // ---------- histories ----------

  /** One replay: the version it writes, its ports, what the brokers delivered, and failed reclaims. */
  datatype Job = Job(version: string, ports: Ports, run: Run, kept: set<ConversationId>)

  datatype World = World(log: MessageLog, rows: Rows)

  datatype Event =
    | Ingested(message: MessageEnvelope)
    | Replays(job: Job)
    | ReadsWarmup(conversation: ConversationId, job: Job)
    | Reclaims(keep: CacheKey)

  /** The replay an event performs; a warm-up read that hits performs none. */
  function JobOf(w: World, e: Event): Option<Job> {
    match e
    case Ingested(_) => None
    case Replays(job) => Some(job)
    case ReadsWarmup(c, job) => if KeyFor(job.version, w.log, c) in w.rows then None else Some(job)
    case Reclaims(_) => None
  }

  function Repopulated(w: World, job: Job): World {
    w.(rows := Populated(w.rows, RunStages(job.ports, EMPTY_STORES, job.run), w.log, job.version, job.kept))
  }

  function Next(w: World, e: Event): World {
    if JobOf(w, e).Some? then Repopulated(w, JobOf(w, e).value)
    else if e.Ingested? then w.(log := Appended(w.log, e.message))
    else if e.Reclaims? then w.(rows := Prune(w.rows, e.keep))
    else w
  }

  /** The brokers keep their contract; messages may stay without a projection. */
  ghost predicate Allowed(w: World, e: Event) {
    JobOf(w, e).Some? ==> ValidRun(w.log, JobOf(w, e).value.run)
  }

  function After(w: World, events: seq<Event>): World {
    if events == [] then w else Next(After(w, Init(events)), Last(events))
  }

  ghost predicate ValidHistory(w: World, events: seq<Event>) {
    events != [] ==>
      && ValidHistory(w, Init(events))
      && Allowed(After(w, Init(events)), Last(events))
  }

  const NEW_WORLD := World([], map[])

  /** Every replay at this version uses these ports. */
  ghost predicate Follows(ports: Ports, version: string, events: seq<Event>) {
    forall e :: e in events && (e.Replays? || e.ReadsWarmup?) && e.job.version == version ==> e.job.ports == ports
  }

  // ---------- where a row comes from ----------

  /** The replay at position `i` derived this row, at this key, from the log of that moment. */
  ghost predicate DerivedAt(events: seq<Event>, i: nat, k: CacheKey, d: ConversationDerivation) {
    && i < |events|
    && var w := After(NEW_WORLD, events[..i]);
       JobOf(w, events[i]).Some?
       && var job := JobOf(w, events[i]).value;
          && |job.run| == 6
          && job.version == k.version
          && k.conversation in ConversationIds(w.log)
          && k == KeyFor(k.version, w.log, k.conversation)
          && Some(d) == DerivedOf(job.ports, w.log, Projected(job.run), k.conversation)
  }

  /** A populate, seen through one key: the old row, or what this replay derives. */
  lemma RepopulatedRow(w: World, job: Job, k: CacheKey)
    requires ValidRun(w.log, job.run)
    ensures var now := Repopulated(w, job);
            k in now.rows ==>
              || (k in w.rows && now.rows[k] == w.rows[k]
                  && !(k.conversation in ConversationIds(w.log) && k == KeyFor(job.version, w.log, k.conversation)))
              || (k.conversation in ConversationIds(w.log)
                  && k == KeyFor(job.version, w.log, k.conversation)
                  && Some(now.rows[k]) == DerivedOf(job.ports, w.log, Projected(job.run), k.conversation))
    ensures k.conversation in ConversationIds(w.log) && k == KeyFor(job.version, w.log, k.conversation) ==>
              k in Repopulated(w, job).rows
  {
    hide MessagesFor, Content, ConversationIds, DerivedOf, RunStages, Repopulated, Projected;
    RepopulatedIs(w, job, k);
    if k.conversation in ConversationIds(w.log) && k == KeyFor(job.version, w.log, k.conversation) {
      DerivedSome(job.ports, w.log, Projected(job.run), k.conversation);
    }
  }

  lemma DerivedSome(ports: Ports, log: MessageLog, projected: set<MessageId>, c: ConversationId)
    ensures DerivedOf(ports, log, projected, c).Some? <==> c in ConversationIds(log)
  {
    hide MessagesFor, ConversationIds, DerivedOf, LocalPart, Having;
    DerivedIsLocal(ports, log, projected, c);
  }

  /** What the cache answers at a key after a populate. */
  lemma RepopulatedIs(w: World, job: Job, k: CacheKey)
    requires ValidRun(w.log, job.run)
    ensures Find(Repopulated(w, job).rows, k) ==
              if k.conversation !in ConversationIds(w.log) then Find(w.rows, k)
              else if k == KeyFor(job.version, w.log, k.conversation) then
                DerivedOf(job.ports, w.log, Projected(job.run), k.conversation)
              else if k.conversation in job.kept then Find(w.rows, k)
              else None
  {
    hide MessagesFor, Content, ConversationIds, Derived, DerivationFrom, RunStages, Find, PopulatedRows, Projected,
         KeyFor;
    var s := RunStages(job.ports, EMPTY_STORES, job.run);
    ReplayConfluence(job.ports, w.log, job.run);
    ConversationIdsMembers(w.log);
    DerivedSome(job.ports, w.log, Projected(job.run), k.conversation);
    PopulatedRow(w.rows, s, w.log, job.version, ConversationIds(w.log), job.kept, k);
  }

  lemma DerivedEarlier(events: seq<Event>, i: nat, k: CacheKey, d: ConversationDerivation)
    requires events != [] && DerivedAt(Init(events), i, k, d)
    ensures DerivedAt(events, i, k, d)
  {
    hide After, JobOf, KeyFor, ConversationIds, DerivedOf, Projected;
    assert Init(events)[..i] == events[..i] && Init(events)[i] == events[i];
  }

  /** Provenance: every row of every reachable cache is what some earlier replay derived from its log. */
  lemma {:induction false} RowsHaveMoments(events: seq<Event>)
    requires ValidHistory(NEW_WORLD, events)
    ensures forall k :: k in After(NEW_WORLD, events).rows ==>
              exists i :: DerivedAt(events, i, k, After(NEW_WORLD, events).rows[k])
  {
    if events != [] {
      hide DerivedAt, Repopulated, KeyFor, ValidRun;
      RowsHaveMoments(Init(events));
      var w, now := After(NEW_WORLD, Init(events)), After(NEW_WORLD, events);
      forall k | k in now.rows ensures exists i :: DerivedAt(events, i, k, now.rows[k]) {
        if k in w.rows && now.rows[k] == w.rows[k] {
          var i :| DerivedAt(Init(events), i, k, w.rows[k]);
          DerivedEarlier(events, i, k, w.rows[k]);
        } else {
          var job := JobOf(w, Last(events)).value;
          RepopulatedRow(w, job, k);
          DerivedNow(events, k, now.rows[k]);
        }
      }
    }
  }

  lemma DerivedNow(events: seq<Event>, k: CacheKey, d: ConversationDerivation)
    requires events != []
    requires var w := After(NEW_WORLD, Init(events));
             JobOf(w, Last(events)).Some?
             && var job := JobOf(w, Last(events)).value;
                && |job.run| == 6
                && k.conversation in ConversationIds(w.log)
                && k == KeyFor(job.version, w.log, k.conversation)
                && Some(d) == DerivedOf(job.ports, w.log, Projected(job.run), k.conversation)
    ensures DerivedAt(events, |events| - 1, k, d)
  {
  }

  // ---------- hits ----------

  /** The messages of the conversation that a hit reports as unprojected. */
  function Missing(log: MessageLog, c: ConversationId, hit: ConversationDerivation): seq<MessageId> {
    Outside(IdsIn(log, c), ProjectedIn(hit))
  }

  lemma {:induction false} OutsideNone(ids: seq<MessageId>, projected: set<MessageId>)
    ensures Outside(ids, projected) == [] <==> forall id :: id in ids ==> id in projected
  {
    if ids != [] {
      Snoc(ids);
      OutsideNone(Init(ids), projected);
    }
  }

  /** A derivation's projections carry exactly the ids it was projected from. */
  lemma ProjectedInHaving(ports: Ports, d: ConversationDerivation, ms: seq<MessageEnvelope>, ids: set<MessageId>)
    requires d.projections == ProjectAll(ports, Having(ms, ids))
    ensures forall m :: m in ms ==> (m.id in ProjectedIn(d) <==> m.id in ids)
  {
    var some := Having(ms, ids);
    forall m | m in ms ensures m.id in ProjectedIn(d) <==> m.id in ids {
      HavingMembers(ms, ids, m);
      if m in some {
        var i :| 0 <= i < |some| && some[i] == m;
        assert d.projections[i].messageId == m.id;
      }
      if m.id in ProjectedIn(d) {
        var i :| 0 <= i < |some| && d.projections[i].messageId == m.id;
        HavingMembers(ms, ids, some[i]);
      }
    }
  }

  /** What the conversation's own messages decide, seen again when its text is as it was. */
  lemma LocalLater(
    ports: Ports, d: ConversationDerivation, c: ConversationId, ms: seq<MessageEnvelope>, ns: seq<MessageEnvelope>,
    ids: set<MessageId>)
    requires LocalPart(ports, d, c, Having(ms, ids)) && SameText(ms, ns)
    ensures LocalPart(ports, d, c, Having(ns, ProjectedIn(d)))
    ensures Outside(Ids(ns), ProjectedIn(d)) == Outside(Ids(ms), ids)
  {
    hide ProjectedIn, ScopeOf, WarmupOf, Project, LocalPart;
    LocalPartIs(ports, d, c, Having(ms, ids));
    LocalPartIs(ports, d, c, Having(ns, ProjectedIn(d)));
    ProjectedInHaving(ports, d, ms, ids);
    HavingAgrees(ms, ids, ProjectedIn(d));
    ProjectHavingText(ports, ms, ns, ProjectedIn(d));
    assert Ids(ms) == Ids(ns);
    forall id | id in Ids(ms) ensures id in ProjectedIn(d) <==> id in ids {
      var i :| 0 <= i < |ms| && ms[i].id == id;
      assert ms[i] in ms;
    }
    OutsideAgrees(Ids(ms), ProjectedIn(d), ids);
  }

  /** A row at the current key speaks of the current text of its conversation. */
  lemma MomentKeepsText(
    events: seq<Event>, i: nat, log: MessageLog, version: string, c: ConversationId, d: ConversationDerivation)
    requires DerivedAt(events, i, KeyFor(version, log, c), d)
    ensures SameText(MessagesFor(After(NEW_WORLD, events[..i]).log, c), MessagesFor(log, c))
    ensures c in ConversationIds(After(NEW_WORLD, events[..i]).log) && c in ConversationIds(log)
  {
    hide Content, MessagesFor, ConversationIds, After;
    var was := After(NEW_WORLD, events[..i]).log;
    ContentDecides(MessagesFor(was, c), MessagesFor(log, c));
    SessionNonEmpty(was, c);
    SessionNonEmpty(log, c);
  }

  /**
   * Coherence. After any history, a warm-up hit carries exactly the projections, scope and warm-up
   * document of the conversation's current messages, but for those it reports as unprojected, whatever
   * happened to other conversations since. So it agrees with a fresh replay of the current log if and
   * only if it reports none.
   */
  lemma WarmupHitIsCoherent(ports: Ports, events: seq<Event>, version: string, c: ConversationId)
    requires ValidHistory(NEW_WORLD, events) && Follows(ports, version, events)
    requires var w := After(NEW_WORLD, events); KeyFor(version, w.log, c) in w.rows
    ensures var w := After(NEW_WORLD, events);
            var hit := w.rows[KeyFor(version, w.log, c)];
            var now := Fresh(ports, w.log, c);
            && now.Some?
            && LocalPart(ports, hit, c, Having(MessagesFor(w.log, c), ProjectedIn(hit)))
            && (Missing(w.log, c, hit) == [] <==> hit.projections == now.value.projections)
            && (Missing(w.log, c, hit) == [] ==>
                  hit == now.value.(hints := hit.hints, developers := hit.developers))
  {
    hide After, ValidHistory, MessagesFor, Content, DerivedOf, ConversationIds, LocalPart, DerivedAt, Having,
         ProjectAll, ProjectedIn;
    var w := After(NEW_WORLD, events);
    var k := KeyFor(version, w.log, c);
    var hit := w.rows[k];
    RowsHaveMoments(events);
    var i: nat :| DerivedAt(events, i, k, hit);
    MomentIsLocal(ports, events, i, w.log, version, c, hit);
    DerivedIsLocal(ports, w.log, Set(Ids(w.log)), c);
    MissingIffStale(ports, hit, Fresh(ports, w.log, c).value, w.log, c);
  }

  lemma MomentIsLocal(
    ports: Ports, events: seq<Event>, i: nat, log: MessageLog, version: string, c: ConversationId,
    d: ConversationDerivation)
    requires Follows(ports, version, events) && DerivedAt(events, i, KeyFor(version, log, c), d)
    ensures c in ConversationIds(log)
    ensures LocalPart(ports, d, c, Having(MessagesFor(log, c), ProjectedIn(d)))
    ensures var was := After(NEW_WORLD, events[..i]);
            && JobOf(was, events[i]).Some? && |JobOf(was, events[i]).value.run| == 6
            && JobOf(was, events[i]).value.ports == ports
            && Missing(log, c, d) == Outside(IdsIn(was.log, c), Projected(JobOf(was, events[i]).value.run))
  {
    hide Content, MessagesFor, ConversationIds, After, LocalPart, Having, ProjectedIn, DerivedOf;
    var was := After(NEW_WORLD, events[..i]);
    var job := JobOf(was, events[i]).value;
    assert events[i] in events;
    MomentKeepsText(events, i, log, version, c, d);
    DerivedIsLocal(job.ports, was.log, Projected(job.run), c);
    LocalLater(job.ports, d, c, MessagesFor(was.log, c), MessagesFor(log, c), Projected(job.run));
  }

  lemma MissingIffStale(
    ports: Ports, hit: ConversationDerivation, now: ConversationDerivation, log: MessageLog, c: ConversationId)
    requires LocalPart(ports, hit, c, Having(MessagesFor(log, c), ProjectedIn(hit)))
    requires LocalPart(ports, now, c, Having(MessagesFor(log, c), Set(Ids(log))))
    ensures Missing(log, c, hit) == [] <==> hit.projections == now.projections
    ensures Missing(log, c, hit) == [] ==> hit == now.(hints := hit.hints, developers := hit.developers)
  {
    hide ProjectedIn, ScopeOf, WarmupOf, Project, ProjectAll, MessagesFor, Missing, LocalPart;
    LocalPartIs(ports, hit, c, Having(MessagesFor(log, c), ProjectedIn(hit)));
    LocalPartIs(ports, now, c, Having(MessagesFor(log, c), Set(Ids(log))));
    var ms, some := MessagesFor(log, c), Having(MessagesFor(log, c), ProjectedIn(hit));
    MissingNone(log, c, hit);
    forall m | m in ms ensures m.id in Set(Ids(log)) {
      InLog(log, c, m);
    }
    HavingAll(ms, Set(Ids(log)));
    HavingAll(ms, ProjectedIn(hit));
    hide Having;
    assert |ProjectAll(ports, some)| == |some| && |ProjectAll(ports, ms)| == |ms|;
  }

  lemma MissingNone(log: MessageLog, c: ConversationId, d: ConversationDerivation)
    ensures Missing(log, c, d) == [] <==> forall m :: m in MessagesFor(log, c) ==> m.id in ProjectedIn(d)
  {
    hide ProjectedIn, MessagesFor;
    var ms := MessagesFor(log, c);
    OutsideNone(Ids(ms), ProjectedIn(d));
    forall m | m in ms ensures m.id in Ids(ms) {
      var i :| 0 <= i < |ms| && ms[i] == m;
      assert Ids(ms)[i] == m.id;
    }
    forall id | id in Ids(ms) ensures exists m :: m in ms && m.id == id {
      var i :| 0 <= i < |ms| && ms[i].id == id;
      assert ms[i] in ms;
    }
  }

  /** Every replay so far projected every message of its log. */
  ghost predicate AllFull(w: World, events: seq<Event>) {
    events != [] ==>
      && AllFull(w, Init(events))
      && var before := After(w, Init(events));
         JobOf(before, Last(events)).Some? ==> FullRun(before.log, JobOf(before, Last(events)).value.run)
  }

  lemma {:induction false} FullAt(w: World, events: seq<Event>, i: nat)
    requires AllFull(w, events) && i < |events|
    ensures var before := After(w, events[..i]);
            JobOf(before, events[i]).Some? ==> FullRun(before.log, JobOf(before, events[i]).value.run)
  {
    hide FullRun, After, JobOf;
    if i < |events| - 1 {
      FullAt(w, Init(events), i);
      assert Init(events)[..i] == events[..i] && Init(events)[i] == events[i];
    }
  }

  /** When every replay projected every message, no hit reports a message as unprojected. */
  lemma FullHistoryMissesNothing(ports: Ports, events: seq<Event>, version: string, c: ConversationId)
    requires ValidHistory(NEW_WORLD, events) && Follows(ports, version, events) && AllFull(NEW_WORLD, events)
    requires var w := After(NEW_WORLD, events); KeyFor(version, w.log, c) in w.rows
    ensures var w := After(NEW_WORLD, events);
            Missing(w.log, c, w.rows[KeyFor(version, w.log, c)]) == []
  {
    hide After, ValidHistory, AllFull, MessagesFor, Content, DerivedOf, LocalPart, DerivedAt, Missing, FullRun;
    var w := After(NEW_WORLD, events);
    var k := KeyFor(version, w.log, c);
    RowsHaveMoments(events);
    var i: nat :| DerivedAt(events, i, k, w.rows[k]);
    MomentIsLocal(ports, events, i, w.log, version, c, w.rows[k]);
    MomentInRange(events, i, k, w.rows[k]);
    FullAt(NEW_WORLD, events, i);
    var was := After(NEW_WORLD, events[..i]);
    FullSession(was.log, c, JobOf(was, events[i]).value.run);
  }

  lemma MomentInRange(events: seq<Event>, i: nat, k: CacheKey, d: ConversationDerivation)
    requires DerivedAt(events, i, k, d)
    ensures i < |events|
  {
  }

  lemma FullSession(log: MessageLog, c: ConversationId, run: Run)
    requires FullRun(log, run)
    ensures Outside(IdsIn(log, c), Projected(run)) == []
  {
    hide MessagesFor, Projected;
    var ms := MessagesFor(log, c);
    OutsideNone(Ids(ms), Projected(run));
    forall id | id in Ids(ms) ensures id in Projected(run) {
      var i :| 0 <= i < |ms| && ms[i].id == id;
      InLog(log, c, ms[i]);
    }
  }

  // ---------- an unchanged log ----------

  /** Every hit at this version on the current log is the whole fresh derivation. */
  ghost predicate HitsExact(ports: Ports, w: World, version: string) {
    forall c :: c in ConversationIds(w.log) && KeyFor(version, w.log, c) in w.rows ==>
      Some(w.rows[KeyFor(version, w.log, c)]) == Fresh(ports, w.log, c)
  }

  /** The event leaves the log alone, and a replay at the version projects everything with these ports. */
  ghost predicate Steady(ports: Ports, version: string, w: World, e: Event) {
    && Allowed(w, e)
    && !e.Ingested?
    && (JobOf(w, e).Some? && JobOf(w, e).value.version == version ==>
          JobOf(w, e).value.ports == ports && FullRun(w.log, JobOf(w, e).value.run))
  }

  ghost predicate StaysSteady(ports: Ports, version: string, w: World, events: seq<Event>) {
    events != [] ==>
      && StaysSteady(ports, version, w, Init(events))
      && Steady(ports, version, After(w, Init(events)), Last(events))
  }

  lemma FullDerivesFresh(ports: Ports, log: MessageLog, run: Run, c: ConversationId)
    requires FullRun(log, run)
    ensures DerivedOf(ports, log, Projected(run), c) == Fresh(ports, log, c)
  {
    hide Derived, ConversationIds, MessagesFor;
    ReplayDeterminism(ports, log, run);
    ReplayConfluence(ports, log, run);
  }

  lemma NextKeepsExact(ports: Ports, w: World, e: Event, version: string)
    requires HitsExact(ports, w, version) && Steady(ports, version, w, e)
    ensures HitsExact(ports, Next(w, e), version)
    ensures Next(w, e).log == w.log
  {
    hide DerivedOf, MessagesFor, Content, ConversationIds, FullRun, ValidRun, Populated, Fresh;
    var now := Next(w, e);
    forall c | c in ConversationIds(w.log) && KeyFor(version, w.log, c) in now.rows
      ensures Some(now.rows[KeyFor(version, w.log, c)]) == Fresh(ports, w.log, c) {
      if JobOf(w, e).Some? {
        var job := JobOf(w, e).value;
        RepopulatedRow(w, job, KeyFor(version, w.log, c));
        if job.version == version {
          FullDerivesFresh(ports, w.log, job.run, c);
        }
      }
    }
  }

  lemma ReplayMakesExact(w: World, job: Job)
    requires FullRun(w.log, job.run)
    ensures HitsExact(job.ports, Repopulated(w, job), job.version)
    ensures forall c :: c in ConversationIds(w.log) ==> KeyFor(job.version, w.log, c) in Repopulated(w, job).rows
  {
    hide DerivedOf, Fresh, MessagesFor, Content, ConversationIds, Populated;
    forall c | c in ConversationIds(w.log)
      ensures KeyFor(job.version, w.log, c) in Repopulated(w, job).rows
      ensures Some(Repopulated(w, job).rows[KeyFor(job.version, w.log, c)]) == Fresh(job.ports, w.log, c) {
      RepopulatedRow(w, job, KeyFor(job.version, w.log, c));
      FullDerivesFresh(job.ports, w.log, job.run, c);
    }
  }

  /**
   * While the log is unchanged since a full replay at this version, a hit agrees with a fresh replay in
   * full, hints and developers included, whatever reads, replays and reclaims came in between.
   */
  lemma {:induction false} UnchangedLogHitIsExact(w: World, job: Job, later: seq<Event>)
    requires FullRun(w.log, job.run)
    requires StaysSteady(job.ports, job.version, Repopulated(w, job), later)
    ensures var end := After(Repopulated(w, job), later);
            end.log == w.log && HitsExact(job.ports, end, job.version)
  {
    hide HitsExact, Repopulated, FullRun, Next, Steady;
    if later == [] {
      ReplayMakesExact(w, job);
      RepopulateKeepsLog(w, job);
    } else {
      UnchangedLogHitIsExact(w, job, Init(later));
      NextKeepsExact(job.ports, After(Repopulated(w, job), Init(later)), Last(later), job.version);
    }
  }

  lemma RepopulateKeepsLog(w: World, job: Job)
    ensures Repopulated(w, job).log == w.log
  {
  }
}
