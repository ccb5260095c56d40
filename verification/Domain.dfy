/**
 * The records the pipeline passes around. Identifiers are strings; confidences and ranking scores
 * are reals that construction clamps into [0, 1].
 */
module Domain {
  import opened Wrappers

  type MessageId = string
  type AuthorId = string
  type ConversationId = string
  type Topic = string

  datatype Source = Discord | Slack | GitHub | Manual

  datatype Author = Author(id: AuthorId, displayName: string)

  datatype Conversation = Conversation(id: ConversationId, thread: Option<string>)

  datatype MessageEnvelope = MessageEnvelope(
    id: MessageId,
    source: Source,
    author: Author,
    conversation: Conversation,
    body: string)

  type Score = r: real | 0.0 <= r <= 1.0

  function Clamp(value: real): (r: Score)
    ensures 0.0 <= value <= 1.0 ==> r == value
    ensures value <= 0.0 ==> r == 0.0
    ensures 1.0 <= value ==> r == 1.0
  {
    if value < 0.0 then 0.0 else if value > 1.0 then 1.0 else value
  }

  datatype Intent = Question | Decision | Proposal | Task | Issue | Social

  datatype Projection = Projection(
    messageId: MessageId,
    intent: Intent,
    topics: seq<Topic>,
    entities: seq<string>,
    confidence: Score)

  datatype Scope = Scope(
    conversation: ConversationId,
    load: seq<string>,
    ignored: seq<string>,
    reason: string,
    confidence: Score)

  datatype WarmupDocument = WarmupDocument(
    conversation: ConversationId,
    focus: seq<string>,
    decisions: seq<MessageId>,
    openQuestions: seq<MessageId>,
    tasks: seq<MessageId>,
    summary: string)

  datatype TopicWeight = TopicWeight(topic: Topic, weight: real)

  datatype DeveloperProfile = DeveloperProfile(
    author: AuthorId,
    displayName: string,
    topics: seq<TopicWeight>)

  datatype ExpertCandidate = ExpertCandidate(
    author: AuthorId,
    displayName: string,
    score: Score)

  datatype TopicOwnership = TopicOwnership(topic: Topic, candidates: seq<ExpertCandidate>)

  datatype SkillIndex = SkillIndex(
    profiles: seq<DeveloperProfile>,
    ownerships: seq<TopicOwnership>)

  datatype SkillContribution = SkillContribution(
    author: AuthorId,
    displayName: string,
    topics: seq<Topic>,
    confidence: Score)

  datatype SkillEntry = SkillEntry(author: AuthorId, displayName: string, message: MessageId)

  datatype Participant = Participant(author: AuthorId, displayName: string)

  datatype DeveloperSnapshot = DeveloperSnapshot(
    author: AuthorId,
    displayName: string,
    topics: seq<TopicWeight>)

  datatype SessionDevelopers = SessionDevelopers(
    conversation: ConversationId,
    developers: seq<DeveloperSnapshot>)

  datatype RoutingHint = RoutingHint(
    messageId: MessageId,
    reviewers: seq<ExpertCandidate>,
    humanHint: Option<ExpertCandidate>)
}
