/**
 * The replay pipeline as a step machine.
 *
 * Six stages run one after another. Within a stage an at-least-once broker delivers payloads in
 * any order and any number of times; each delivery is an attempt that reads the stores and upserts
 * by key, and an attempt may be lost after any number of its upserts. `Derived` is the plain
 * functional pipeline the machine has to agree with.
 */
module Pipeline {
  import opened Developers
  import opened Domain
  import opened Hint
  import opened Log
  import opened Sequences
  import opened Skill
  import opened Sorting
  import opened Wrappers

  // ---------- ports ----------

  /**
   * The three ports that stay uninterpreted. A projector sees the message id and body; each port's
   * output is stored under the identity it was called with, never one of its own choosing.
   */
  datatype Ports = Ports(
    project: (MessageId, string) -> Projection,
    scope: (ConversationId, seq<Projection>) -> Scope,
    warmup: (ConversationId, Option<Scope>, seq<Projection>) -> WarmupDocument)

  function Project(ports: Ports, m: MessageEnvelope): Projection {
    ports.project(m.id, m.body).(messageId := m.id)
  }

  function ScopeOf(ports: Ports, c: ConversationId, ps: seq<Projection>): Scope {
    ports.scope(c, ps).(conversation := c)
  }

  function WarmupOf(ports: Ports, c: ConversationId, scope: Option<Scope>, ps: seq<Projection>): WarmupDocument {
    ports.warmup(c, scope, ps).(conversation := c)
  }

  // ---------- stores ----------

  datatype Stores = Stores(
    projections: map<MessageId, Projection>,
    scopes: map<ConversationId, Scope>,
    warmups: map<ConversationId, WarmupDocument>,
    skills: map<Topic, TopicOwnership>,
    hints: map<MessageId, RoutingHint>,
    developers: map<ConversationId, SessionDevelopers>)

  const EMPTY_STORES := Stores(map[], map[], map[], map[], map[], map[])

  /** One upsert, into the store of its kind and under the record's own identity. */
  datatype Write =
    | WriteProjection(projection: Projection)
    | WriteScope(scope: Scope)
    | WriteWarmup(warmup: WarmupDocument)
    | WriteSkill(ownership: TopicOwnership)
    | WriteHint(hint: RoutingHint)
    | WriteDevelopers(developers: SessionDevelopers)

  datatype Key = Key(stage: nat, id: string)

  function KeyOf(w: Write): Key {
    match w
    case WriteProjection(p) => Key(0, p.messageId)
    case WriteScope(s) => Key(1, s.conversation)
    case WriteWarmup(d) => Key(2, d.conversation)
    case WriteSkill(o) => Key(3, o.topic)
    case WriteHint(h) => Key(4, h.messageId)
    case WriteDevelopers(d) => Key(5, d.conversation)
  }

  function Put(s: Stores, w: Write): Stores {
    match w
    case WriteProjection(p) => s.(projections := s.projections[p.messageId := p])
    case WriteScope(x) => s.(scopes := s.scopes[x.conversation := x])
    case WriteWarmup(d) => s.(warmups := s.warmups[d.conversation := d])
    case WriteSkill(o) => s.(skills := s.skills[o.topic := o])
    case WriteHint(h) => s.(hints := s.hints[h.messageId := h])
    case WriteDevelopers(d) => s.(developers := s.developers[d.conversation := d])
  }

  function Apply(s: Stores, ws: seq<Write>): Stores {
    if ws == [] then s else Put(Apply(s, Init(ws)), Last(ws))
  }

  /** What the store of kind `k.stage` holds at `k.id`. */
  function Lookup(s: Stores, k: Key): Option<Write> {
    if k.stage == 0 && k.id in s.projections then Some(WriteProjection(s.projections[k.id]))
    else if k.stage == 1 && k.id in s.scopes then Some(WriteScope(s.scopes[k.id]))
    else if k.stage == 2 && k.id in s.warmups then Some(WriteWarmup(s.warmups[k.id]))
    else if k.stage == 3 && k.id in s.skills then Some(WriteSkill(s.skills[k.id]))
    else if k.stage == 4 && k.id in s.hints then Some(WriteHint(s.hints[k.id]))
    else if k.stage == 5 && k.id in s.developers then Some(WriteDevelopers(s.developers[k.id]))
    else None
  }

  // ---------- payloads and what a job writes for them ----------

  datatype Payload =
    | ProcessMessage(message: MessageEnvelope)
    | ScopeRequest(conversation: ConversationId, messages: seq<MessageId>)
    | WarmupRequest(conversation: ConversationId, messages: seq<MessageId>)
    | SkillRequest(entries: seq<SkillEntry>)
    | HintRequest(messages: seq<MessageId>)
    | DeveloperRequest(conversation: ConversationId, participants: seq<Participant>, messages: seq<MessageId>)

  function StageOf(p: Payload): nat {
    match p
    case ProcessMessage(_) => 0
    case ScopeRequest(_, _) => 1
    case WarmupRequest(_, _) => 2
    case SkillRequest(_) => 3
    case HintRequest(_) => 4
    case DeveloperRequest(_, _, _) => 5
  }

  /** Join each entry's author to that message's stored projection. */
  function Contributions(projections: map<MessageId, Projection>, entries: seq<SkillEntry>): seq<SkillContribution> {
    if entries == [] then []
    else
      var e := Last(entries);
      Contributions(projections, Init(entries))
      + (if e.message in projections then
           var p := projections[e.message];
           [SkillContribution(e.author, e.displayName, p.topics, p.confidence)]
         else [])
  }

  function SkillWrites(os: seq<TopicOwnership>): (ws: seq<Write>)
    ensures |ws| == |os|
    ensures forall i :: 0 <= i < |os| ==> ws[i] == WriteSkill(os[i])
  {
    if os == [] then [] else SkillWrites(Init(os)) + [WriteSkill(Last(os))]
  }

  function HintAt(s: Stores, id: MessageId): RoutingHint
    requires id in s.projections
  {
    HintOf(s.projections[id], Gather(s.skills, s.projections[id].topics))
  }

  function HintWrites(s: Stores, ids: seq<MessageId>): seq<Write> {
    if ids == [] then []
    else
      HintWrites(s, Init(ids)) + (if Last(ids) in s.projections then [WriteHint(HintAt(s, Last(ids)))] else [])
  }

  function AllTopics(ps: seq<Projection>): seq<Topic> {
    if ps == [] then [] else AllTopics(Init(ps)) + Last(ps).topics
  }

  /** The session's distinct topics, in first-seen order. */
  function SessionTopics(projections: map<MessageId, Projection>, ids: seq<MessageId>): seq<Topic> {
    FirstSeen(AllTopics(Gather(projections, ids)))
  }

  function SessionOwnerships(s: Stores, ids: seq<MessageId>): seq<TopicOwnership> {
    Gather(s.skills, SessionTopics(s.projections, ids))
  }

  /** The upserts one full run of the job performs, in order. */
  function Writes(ports: Ports, s: Stores, p: Payload): seq<Write> {
    match p
    case ProcessMessage(m) => [WriteProjection(Project(ports, m))]
    case ScopeRequest(c, ids) => [WriteScope(ScopeOf(ports, c, Gather(s.projections, ids)))]
    case WarmupRequest(c, ids) => [WriteWarmup(WarmupOf(ports, c, Find(s.scopes, c), Gather(s.projections, ids)))]
    case SkillRequest(entries) => SkillWrites(Index(Contributions(s.projections, entries)).ownerships)
    case HintRequest(ids) => HintWrites(s, ids)
    case DeveloperRequest(c, ps, ids) => [WriteDevelopers(BuildDevelopers(c, ps, SessionOwnerships(s, ids)))]
  }

  // ---------- the machine ----------

  /** A delivery: completed, or lost after at most `budget` upserts. */
  datatype Attempt = Attempt(payload: Payload, budget: Option<nat>)

  function Cut<T>(ws: seq<T>, budget: Option<nat>): seq<T> {
    if budget.Some? && budget.value < |ws| then ws[..budget.value] else ws
  }

  function Deliver(ports: Ports, s: Stores, a: Attempt): Stores {
    Apply(s, Cut(Writes(ports, s, a.payload), a.budget))
  }

  function RunStage(ports: Ports, s: Stores, schedule: seq<Attempt>): Stores {
    if schedule == [] then s else Deliver(ports, RunStage(ports, s, Init(schedule)), Last(schedule))
  }

  function RunStages(ports: Ports, s: Stores, stages: seq<seq<Attempt>>): Stores {
    if stages == [] then s else RunStage(ports, RunStages(ports, s, Init(stages)), Last(stages))
  }

  // ---------- what each stage is asked to do ----------

  function MessagePayloads(log: seq<MessageEnvelope>): (r: seq<Payload>)
    ensures |r| == |log| && forall i :: 0 <= i < |log| ==> r[i] == ProcessMessage(log[i])
  {
    seq(|log|, i requires 0 <= i < |log| => ProcessMessage(log[i]))
  }

  function IdsIn(log: seq<MessageEnvelope>, c: ConversationId): seq<MessageId> {
    Ids(MessagesFor(log, c))
  }

  function Entries(log: seq<MessageEnvelope>): (r: seq<SkillEntry>)
    ensures |r| == |log|
    ensures forall i :: 0 <= i < |log| ==> r[i] == SkillEntry(log[i].author.id, log[i].author.displayName, log[i].id)
  {
    seq(|log|, i requires 0 <= i < |log| => SkillEntry(log[i].author.id, log[i].author.displayName, log[i].id))
  }

  function AuthorsOf(messages: seq<MessageEnvelope>): set<AuthorId> {
    set m | m in messages :: m.author.id
  }

  /** The author's last-seen display name. */
  function AuthorName(messages: seq<MessageEnvelope>, a: AuthorId): string {
    LastSeen(messages, (m: MessageEnvelope) => m.author.id, (m: MessageEnvelope) => m.author.displayName, a)
  }

  function ParticipantsFor(messages: seq<MessageEnvelope>, authors: seq<AuthorId>): (r: seq<Participant>)
    ensures |r| == |authors|
    ensures forall i :: 0 <= i < |authors| ==> r[i] == Participant(authors[i], AuthorName(messages, authors[i]))
  {
    if authors == [] then []
    else ParticipantsFor(messages, Init(authors)) + [Participant(Last(authors), AuthorName(messages, Last(authors)))]
  }

  /** A conversation's distinct participants, ordered by author id. */
  function Participants(log: seq<MessageEnvelope>, c: ConversationId): seq<Participant> {
    ParticipantsFor(MessagesFor(log, c), Ascending(AuthorsOf(MessagesFor(log, c))))
  }

  function ConversationPayload(log: seq<MessageEnvelope>, stage: nat, c: ConversationId): Payload {
    if stage == 1 then ScopeRequest(c, IdsIn(log, c))
    else if stage == 2 then WarmupRequest(c, IdsIn(log, c))
    else DeveloperRequest(c, Participants(log, c), IdsIn(log, c))
  }

  function ConversationPayloads(log: seq<MessageEnvelope>, stage: nat, cs: seq<ConversationId>): (r: seq<Payload>)
    ensures |r| == |cs|
    ensures forall i :: 0 <= i < |cs| ==> r[i] == ConversationPayload(log, stage, cs[i])
  {
    if cs == [] then []
    else ConversationPayloads(log, stage, Init(cs)) + [ConversationPayload(log, stage, Last(cs))]
  }

  function StagePayloads(log: seq<MessageEnvelope>, stage: nat): seq<Payload> {
    if stage == 0 then MessagePayloads(log)
    else if stage == 3 then [SkillRequest(Entries(log))]
    else if stage == 4 then [HintRequest(Ids(log))]
    else ConversationPayloads(log, stage, ConversationIds(log))
  }

  // ---------- the plain functional pipeline ----------

  /** The projections of the messages that project at all. */
  function Projections(ports: Ports, log: MessageLog, projected: set<MessageId>): map<MessageId, Projection> {
    map m | m in log && m.id in projected :: m.id := Project(ports, m)
  }

  function LogContributions(ports: Ports, log: MessageLog, projected: set<MessageId>): seq<SkillContribution> {
    Contributions(Projections(ports, log, projected), Entries(log))
  }

  function SessionScope(
    ports: Ports, log: seq<MessageEnvelope>, projections: map<MessageId, Projection>, c: ConversationId): Scope {
    ScopeOf(ports, c, Gather(projections, IdsIn(log, c)))
  }

  function SessionWarmup(
    ports: Ports, log: seq<MessageEnvelope>, projections: map<MessageId, Projection>,
    c: ConversationId): WarmupDocument {
    WarmupOf(ports, c, Some(SessionScope(ports, log, projections, c)), Gather(projections, IdsIn(log, c)))
  }

  function Skills(contributions: seq<SkillContribution>): map<Topic, TopicOwnership> {
    map t | t in Topics(contributions) :: Ownership(contributions, t)
  }

  function Hints(
    projections: map<MessageId, Projection>, skills: map<Topic, TopicOwnership>): map<MessageId, RoutingHint> {
    map id | id in projections :: HintOf(projections[id], Gather(skills, projections[id].topics))
  }

  function SessionDevelopersOf(
    log: seq<MessageEnvelope>, projections: map<MessageId, Projection>, skills: map<Topic, TopicOwnership>,
    c: ConversationId): SessionDevelopers
  {
    BuildDevelopers(c, Participants(log, c), Gather(skills, SessionTopics(projections, IdsIn(log, c))))
  }

  function Derived(ports: Ports, log: MessageLog, projected: set<MessageId>): Stores {
    var projections := Projections(ports, log, projected);
    var skills := Skills(LogContributions(ports, log, projected));
    Stores(
      projections,
      map c | c in ConversationIds(log) :: SessionScope(ports, log, projections, c),
      map c | c in ConversationIds(log) :: SessionWarmup(ports, log, projections, c),
      skills,
      Hints(projections, skills),
      map c | c in ConversationIds(log) :: SessionDevelopersOf(log, projections, skills, c))
  }

  /** The pipeline over a log whose every message projects. */
  function Replayed(ports: Ports, log: MessageLog): Stores {
    Derived(ports, log, Set(Ids(log)))
  }
}
