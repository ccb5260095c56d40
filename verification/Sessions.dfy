/** The session context assembled from a derivation, cached or fresh, with its read-time routing and drafts. */
module Sessions {
  import opened DerivedOutput
  import opened Domain
  import opened Log
  import opened Pipeline
  import opened Routing
  import opened Selection
  import opened Sequences
  import opened Wrappers

  // ---------- drafts ----------

  datatype DraftKind = IssueDraft | PullRequestDraft

  /** The body is kept as the inputs of its rendered text. */
  datatype GitHubDraft = GitHubDraft(
    kind: DraftKind,
    messageId: MessageId,
    title: string,
    confidence: Score,
    topics: seq<Topic>,
    entities: seq<string>)

  function IntentLabel(intent: Intent): string {
    match intent
    case Question => "question"
    case Decision => "decision"
    case Proposal => "proposal"
    case Task => "task"
    case Issue => "issue"
    case Social => "social"
  }

  function DraftFor(p: Projection): GitHubDraft {
    var kind := if p.intent == Proposal then PullRequestDraft else IssueDraft;
    var primary := if p.topics == [] then "general" else p.topics[0];
    var title := match kind
      case IssueDraft => "[" + primary + "] " + IntentLabel(p.intent)
      case PullRequestDraft => "Proposal: " + primary;
    GitHubDraft(kind, p.messageId, title, p.confidence, p.topics, p.entities)
  }

  // ---------- contexts ----------

  const SESSION_CONTEXT_SCHEMA := "mirrorlane.session_context/1"

  datatype SessionContext = SessionContext(
    schema: string,
    derivationVersion: string,
    conversation: ConversationId,
    warmup: WarmupDocument,
    scope: Option<Scope>,
    developers: Option<SessionDevelopers>,
    hints: seq<RoutingHint>,
    decisions: seq<RoutingDecision>,
    drafts: seq<GitHubDraft>)

  function DecisionsFor(r: RuleRouter, ps: seq<Projection>): (ds: seq<RoutingDecision>)
    ensures |ds| == |ps|
    ensures forall i :: 0 <= i < |ps| ==> ds[i] == DecisionFor(r, ps[i])
  {
    if ps == [] then [] else DecisionsFor(r, Init(ps)) + [DecisionFor(r, Last(ps))]
  }

  function DraftsFor(r: RuleRouter, ps: seq<Projection>): seq<GitHubDraft> {
    if ps == [] then []
    else
      DraftsFor(r, Init(ps)) + (if DecisionFor(r, Last(ps)).target == ToGitHub then [DraftFor(Last(ps))] else [])
  }

  function SessionOf(d: ConversationDerivation, version: string, r: RuleRouter): SessionContext {
    SessionContext(
      SESSION_CONTEXT_SCHEMA, version, d.conversation, d.warmup, d.scope, d.developers, d.hints,
      DecisionsFor(r, d.projections), DraftsFor(r, d.projections))
  }

  function SessionsOf(ds: seq<ConversationDerivation>, version: string, r: RuleRouter): (ss: seq<SessionContext>)
    ensures |ss| == |ds|
    ensures forall i :: 0 <= i < |ds| ==> ss[i] == SessionOf(ds[i], version, r)
  {
    if ds == [] then [] else SessionsOf(Init(ds), version, r) + [SessionOf(Last(ds), version, r)]
  }

  /** The messages whose decision targets GitHub, in order. */
  function TargetedIds(ds: seq<RoutingDecision>): seq<MessageId> {
    if ds == [] then []
    else TargetedIds(Init(ds)) + (if Last(ds).target == ToGitHub then [Last(ds).messageId] else [])
  }

  function DraftIds(ds: seq<GitHubDraft>): (ids: seq<MessageId>)
    ensures |ids| == |ds| && forall i :: 0 <= i < |ds| ==> ids[i] == ds[i].messageId
  {
    seq(|ds|, i requires 0 <= i < |ds| => ds[i].messageId)
  }

  /** A session drafts exactly the messages it decides to send to GitHub, in the order it decides them. */
  lemma {:induction false} DraftsFollowDecisions(r: RuleRouter, ps: seq<Projection>)
    ensures DraftIds(DraftsFor(r, ps)) == TargetedIds(DecisionsFor(r, ps))
  {
    if ps != [] {
      DraftsFollowDecisions(r, Init(ps));
      var ds := DecisionsFor(r, ps);
      assert Init(ds) == DecisionsFor(r, Init(ps)) && Last(ds) == DecisionFor(r, Last(ps));
    }
  }

  /** A session has one decision per message the derivation projected, under that message's id. */
  lemma SessionDecidesProjected(d: ConversationDerivation, version: string, r: RuleRouter, id: MessageId)
    ensures (exists x :: x in SessionOf(d, version, r).decisions && x.messageId == id) <==> id in ProjectedIn(d)
  {
    var ds := DecisionsFor(r, d.projections);
    if x :| x in ds && x.messageId == id {
      var i :| 0 <= i < |ds| && ds[i] == x;
      assert d.projections[i] in d.projections;
    }
    if id in ProjectedIn(d) {
      var i :| 0 <= i < |d.projections| && d.projections[i].messageId == id;
      assert ds[i].messageId == id;
    }
  }

  /** A confident proposal is drafted as a pull request by the default router, an issue as an issue. */
  lemma DefaultDrafts(p: Projection)
    requires p.confidence >= 0.6
    ensures DraftsFor(DEFAULT_ROUTER, [p]) ==
              if p.intent == Proposal || p.intent == Issue then [DraftFor(p)] else []
    ensures DraftFor(p).kind == PullRequestDraft <==> p.intent == Proposal
  {
    DefaultTargets(p);
    assert Init([p]) == [] && Last([p]) == p;
  }

  // ---------- what a context carries ----------

  /** The context carries every field of the derivation, and the router's decisions and drafts. */
  ghost predicate CarriesRow(x: SessionContext, d: ConversationDerivation, version: string, r: RuleRouter) {
    && x.schema == "mirrorlane.session_context/1" && x.derivationVersion == version
    && x.conversation == d.conversation && x.warmup == d.warmup && x.scope == d.scope
    && x.developers == d.developers && x.hints == d.hints
    && Selects(d.projections, x.decisions, (p: Projection) => Some(DecisionFor(r, p)))
    && Selects(d.projections, x.drafts,
               (p: Projection) => if DecisionFor(r, p).target == ToGitHub then Some(DraftFor(p)) else None)
  }

  /** The context carries what the stores hold for the conversation and for its messages, in log order. */
  ghost predicate CarriesStores(
    x: SessionContext, version: string, r: RuleRouter, s: Stores, c: ConversationId, ids: seq<MessageId>)
  {
    && x.schema == "mirrorlane.session_context/1" && x.derivationVersion == version
    && x.conversation == c
    && c in s.warmups && x.warmup == s.warmups[c]
    && x.scope == (if c in s.scopes then Some(s.scopes[c]) else None)
    && x.developers == (if c in s.developers then Some(s.developers[c]) else None)
    && Selects(ids, x.hints, (id: MessageId) => Find(s.hints, id))
    && Selects(ids, x.decisions,
               (id: MessageId) => if id in s.projections then Some(DecisionFor(r, s.projections[id])) else None)
    && Selects(ids, x.drafts,
               (id: MessageId) =>
                 if id in s.projections && DecisionFor(r, s.projections[id]).target == ToGitHub
                 then Some(DraftFor(s.projections[id])) else None)
  }

  lemma {:induction false} DecisionsSelect(r: RuleRouter, ps: seq<Projection>)
    ensures Selects(ps, DecisionsFor(r, ps), (p: Projection) => Some(DecisionFor(r, p)))
  {
    if ps != [] {
      DecisionsSelect(r, Init(ps));
      SelectsNext(ps, DecisionsFor(r, Init(ps)), (p: Projection) => Some(DecisionFor(r, p)));
    }
  }

  lemma {:induction false} DraftsSelect(r: RuleRouter, ps: seq<Projection>)
    ensures Selects(ps, DraftsFor(r, ps),
                    (p: Projection) => if DecisionFor(r, p).target == ToGitHub then Some(DraftFor(p)) else None)
  {
    if ps != [] {
      hide DecisionFor, DraftFor;
      DraftsSelect(r, Init(ps));
      SelectsNext(ps, DraftsFor(r, Init(ps)),
                  (p: Projection) => if DecisionFor(r, p).target == ToGitHub then Some(DraftFor(p)) else None);
    }
  }

  lemma SessionCarriesRow(d: ConversationDerivation, version: string, r: RuleRouter)
    ensures CarriesRow(SessionOf(d, version, r), d, version, r)
  {
    DecisionsSelect(r, d.projections);
    DraftsSelect(r, d.projections);
  }

  lemma RowCarriesStores(
    x: SessionContext, d: ConversationDerivation, version: string, r: RuleRouter, s: Stores, c: ConversationId,
    ms: seq<MessageEnvelope>)
    requires CarriesRow(x, d, version, r) && DerivationHolds(d, s, c, ms)
    ensures CarriesStores(x, version, r, s, c, Ids(ms))
  {
    hide DecisionFor, DraftFor, Selects;
    SelectsCompose(
      Ids(ms), d.projections, x.decisions,
      (id: MessageId) => Find(s.projections, id),
      (p: Projection) => Some(DecisionFor(r, p)),
      (id: MessageId) => if id in s.projections then Some(DecisionFor(r, s.projections[id])) else None);
    SelectsCompose(
      Ids(ms), d.projections, x.drafts,
      (id: MessageId) => Find(s.projections, id),
      (p: Projection) => if DecisionFor(r, p).target == ToGitHub then Some(DraftFor(p)) else None,
      (id: MessageId) =>
        if id in s.projections && DecisionFor(r, s.projections[id]).target == ToGitHub
        then Some(DraftFor(s.projections[id])) else None);
  }

  /** A draft's kind and title by intent, and the fields of its body. */
  lemma DraftSays(p: Projection)
    ensures var d := DraftFor(p);
            && d.messageId == p.messageId && d.confidence == p.confidence
            && d.topics == p.topics && d.entities == p.entities
            && (d.kind == PullRequestDraft <==> p.intent == Proposal)
            && d.title == var primary := if p.topics == [] then "general" else p.topics[0];
                          match p.intent
                          case Proposal => "Proposal: " + primary
                          case Question => "[" + primary + "] question"
                          case Decision => "[" + primary + "] decision"
                          case Task => "[" + primary + "] task"
                          case Issue => "[" + primary + "] issue"
                          case Social => "[" + primary + "] social"
  {
  }
}
