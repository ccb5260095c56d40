/**
 * Routing dispatch: the rule-based router, the route job with failing consumers, and the enqueue of
 * routed work under a uniqueness key. Attempts are cut anywhere between their steps and retried.
 */
module Routing {
  import opened Domain
  import opened Sequences
  import opened Wrappers

  datatype ConsumerKind = ToHuman | ToAgent | ToWorklaneJob | ToGitHub

  datatype RoutingRule = RoutingRule(intent: Intent, target: ConsumerKind)

  datatype RoutingDecision = RoutingDecision(
    messageId: MessageId,
    target: ConsumerKind,
    reason: Reason,
    escalated: bool)

  /** The inputs of the rendered reason. */
  datatype Reason =
    | BelowThreshold(confidence: real, threshold: real)
    | IntentRouted(intent: Intent, target: ConsumerKind)

  datatype EvaluationStep = EvaluationStep(ruleName: string, matched: bool, resultingTarget: Option<ConsumerKind>)

  datatype RoutingTrace = RoutingTrace(messageId: MessageId, steps: seq<EvaluationStep>)

  datatype RuleRouter = RuleRouter(rules: seq<RoutingRule>, escalationThreshold: real, defaultTarget: ConsumerKind)

  const DEFAULT_ROUTER := RuleRouter(
    [RoutingRule(Question, ToHuman), RoutingRule(Decision, ToAgent), RoutingRule(Proposal, ToGitHub),
     RoutingRule(Issue, ToGitHub), RoutingRule(Task, ToWorklaneJob), RoutingRule(Social, ToHuman)],
    0.6,
    ToHuman)

  // ---------- the router ----------

  /** The first matching rule's target, else the default. */
  function TargetIn(rules: seq<RoutingRule>, intent: Intent, default: ConsumerKind): ConsumerKind {
    if rules == [] then default
    else if rules[0].intent == intent then rules[0].target
    else TargetIn(rules[1..], intent, default)
  }

  function Escalates(r: RuleRouter, p: Projection): bool {
    p.confidence < r.escalationThreshold
  }

  function TargetFor(r: RuleRouter, p: Projection): ConsumerKind {
    if Escalates(r, p) then ToHuman else TargetIn(r.rules, p.intent, r.defaultTarget)
  }

  function DecisionFor(r: RuleRouter, p: Projection): RoutingDecision {
    RoutingDecision(
      p.messageId,
      TargetFor(r, p),
      if Escalates(r, p) then BelowThreshold(p.confidence, r.escalationThreshold)
      else IntentRouted(p.intent, TargetFor(r, p)),
      Escalates(r, p))
  }

  function TraceFor(r: RuleRouter, p: Projection): RoutingTrace {
    var threshold := EvaluationStep(
      "confidence_threshold", Escalates(r, p), if Escalates(r, p) then Some(ToHuman) else None);
    RoutingTrace(
      p.messageId,
      [threshold] + (if Escalates(r, p) then [] else [EvaluationStep("intent_routing", true, Some(TargetFor(r, p)))]))
  }

  method Route(r: RuleRouter, p: Projection) returns (decision: RoutingDecision, trace: RoutingTrace)
    ensures decision == DecisionFor(r, p) && trace == TraceFor(r, p)
  {
    var steps := [];
    var threshold := r.escalationThreshold;
    steps := steps + [EvaluationStep(
      "confidence_threshold", p.confidence < threshold, if p.confidence < threshold then Some(ToHuman) else None)];
    if p.confidence < threshold {
      return RoutingDecision(p.messageId, ToHuman, BelowThreshold(p.confidence, threshold), true),
             RoutingTrace(p.messageId, steps);
    }
    var target := TargetIn(r.rules, p.intent, r.defaultTarget);
    steps := steps + [EvaluationStep("intent_routing", true, Some(target))];
    decision := RoutingDecision(p.messageId, target, IntentRouted(p.intent, target), false);
    trace := RoutingTrace(p.messageId, steps);
  }

  /**
   * A trace always has its confidence step; its last step, and only that one, matched and names the
   * decision's target.
   */
  lemma TraceEndsInDecision(r: RuleRouter, p: Projection)
    ensures var steps := TraceFor(r, p).steps;
            && steps != []
            && Last(steps).matched
            && Last(steps).resultingTarget == Some(DecisionFor(r, p).target)
    ensures forall i :: 0 <= i < |TraceFor(r, p).steps| - 1 ==> !TraceFor(r, p).steps[i].matched
    ensures TraceFor(r, p).messageId == p.messageId
    ensures TraceFor(r, p).steps ==
              if p.confidence < r.escalationThreshold then
                [EvaluationStep("confidence_threshold", true, Some(ToHuman))]
              else
                [EvaluationStep("confidence_threshold", false, None),
                 EvaluationStep("intent_routing", true, Some(DecisionFor(r, p).target))]
  {
  }

  lemma {:induction false} FirstRuleWins(rules: seq<RoutingRule>, intent: Intent, default: ConsumerKind)
    ensures var target := TargetIn(rules, intent, default);
            || (exists i :: 0 <= i < |rules| && rules[i].intent == intent && rules[i].target == target
                            && forall j :: 0 <= j < i ==> rules[j].intent != intent)
            || (target == default && forall j :: 0 <= j < |rules| ==> rules[j].intent != intent)
  {
    if rules != [] && rules[0].intent != intent {
      FirstRuleWins(rules[1..], intent, default);
      var rest := rules[1..];
      if i :| 0 <= i < |rest| && rest[i].intent == intent && rest[i].target == TargetIn(rest, intent, default)
              && forall j :: 0 <= j < i ==> rest[j].intent != intent {
        forall j | 0 <= j < i + 1 ensures rules[j].intent != intent {
          if j > 0 { assert rules[j] == rest[j - 1]; }
        }
        assert rules[i + 1] == rest[i];
      } else {
        assert forall j :: 1 <= j < |rules| ==> rules[j] == rest[j - 1];
      }
    }
  }

  /** `target` belongs to the first rule for the intent. */
  ghost predicate FirstMatch(rules: seq<RoutingRule>, intent: Intent, target: ConsumerKind) {
    exists i :: 0 <= i < |rules| && rules[i].intent == intent && rules[i].target == target
                && forall j :: 0 <= j < i ==> rules[j].intent != intent
  }

  /**
   * Low confidence escalates to a human, whatever the rules say; otherwise the first rule for the intent
   * decides, and the default target only when there is none.
   */
  lemma RouterMeaning(r: RuleRouter, p: Projection)
    ensures var d := DecisionFor(r, p);
            && d.messageId == p.messageId
            && (d.escalated <==> p.confidence < r.escalationThreshold)
            && (d.escalated ==> d.target == ToHuman)
            && (!d.escalated ==>
                  if forall j :: 0 <= j < |r.rules| ==> r.rules[j].intent != p.intent
                  then d.target == r.defaultTarget
                  else FirstMatch(r.rules, p.intent, d.target))
            && d.reason == if d.escalated then BelowThreshold(p.confidence, r.escalationThreshold)
                           else IntentRouted(p.intent, d.target)
  {
    FirstRuleWins(r.rules, p.intent, r.defaultTarget);
  }

  /** The reference rules send confident decisions to agents, tasks to jobs, proposals and issues to GitHub. */
  lemma DefaultTargets(p: Projection)
    requires p.confidence >= 0.6
    ensures DecisionFor(DEFAULT_ROUTER, p).target ==
            match p.intent
            case Question => ToHuman
            case Decision => ToAgent
            case Proposal => ToGitHub
            case Task => ToWorklaneJob
            case Issue => ToGitHub
            case Social => ToHuman
    ensures !DecisionFor(DEFAULT_ROUTER, p).escalated
  {
    var rules := DEFAULT_ROUTER.rules;
    RouterMeaning(DEFAULT_ROUTER, p);
    assert exists i :: 0 <= i < |rules| && rules[i].intent == p.intent by {
      var i := match p.intent case Question => 0 case Decision => 1 case Proposal => 2
                              case Issue => 3 case Task => 4 case Social => 5;
      assert rules[i].intent == p.intent;
    }
  }

  // ---------- routed work ----------

  /** Below 0.6 the reference rules escalate every message to a human. */
  lemma DefaultEscalates(p: Projection)
    requires p.confidence < 0.6
    ensures DecisionFor(DEFAULT_ROUTER, p).escalated && DecisionFor(DEFAULT_ROUTER, p).target == ToHuman
  {
    RouterMeaning(DEFAULT_ROUTER, p);
  }

  const ROUTED_WORK_LANE := "mirrorlane.routed_work"

  function UniqueKey(id: MessageId): string {
    ROUTED_WORK_LANE + ":" + id
  }

  lemma UniqueKeyDecodes(a: MessageId, b: MessageId)
    ensures UniqueKey(a) == UniqueKey(b) <==> a == b
    ensures UniqueKey(a) == "mirrorlane.routed_work:" + a
  {
    var n := |ROUTED_WORK_LANE| + 1;
    assert UniqueKey(a)[n..] == a && UniqueKey(b)[n..] == b;
  }

  datatype RoutedJob = RoutedJob(key: string, messageId: MessageId, projection: Projection)

  /** The unique-enqueue contract: a key that is live is not enqueued again. */
  function EnqueueUnique(live: seq<RoutedJob>, job: RoutedJob): seq<RoutedJob> {
    if exists i :: 0 <= i < |live| && live[i].key == job.key then live else live + [job]
  }

  ghost predicate OneJobPerKey(live: seq<RoutedJob>) {
    && (forall i, j :: 0 <= i < j < |live| ==> live[i].key != live[j].key)
    && (forall i :: 0 <= i < |live| ==> live[i].key == UniqueKey(live[i].messageId))
  }

  /** The durable broker's lane of live routed-work jobs. */
  class RoutedWorkLane {
    var live: seq<RoutedJob>

    constructor ()
      ensures live == []
    {
      live := [];
    }

    /** Enqueue under the message's key; `fails` is a broker error before anything is stored. */
    method Consume(decision: RoutingDecision, projection: Projection, fails: bool) returns (ok: bool)
      modifies this
      ensures ok == !fails
      ensures live == if fails then old(live)
                      else
                        EnqueueUnique(
                          old(live), RoutedJob(UniqueKey(decision.messageId), decision.messageId, projection))
    {
      if fails {
        return false;
      }
      var job := RoutedJob(UniqueKey(decision.messageId), decision.messageId, projection);
      if !(exists i :: 0 <= i < |live| && live[i].key == job.key) {
        live := live + [job];
      }
      ok := true;
    }
  }

  // ---------- the route job as a step machine ----------

  datatype Receipt = Receipt(kind: ConsumerKind, messageId: MessageId)

  /** What the job reads and writes, and what the consumers did. */
  datatype RouteState = RouteState(
    traces: map<MessageId, RoutingTrace>,
    routes: map<MessageId, RoutingDecision>,
    receipts: set<Receipt>,
    live: seq<RoutedJob>)

  /** Per projected message: upsert the trace, upsert the decision, dispatch. */
  datatype RouteStep =
    | UpsertTrace(projection: Projection)
    | UpsertRoute(projection: Projection)
    | Dispatch(projection: Projection)

  function StepsFor(projections: map<MessageId, Projection>, ids: seq<MessageId>): seq<RouteStep> {
    if ids == [] then []
    else
      StepsFor(projections, Init(ids))
      + (if Last(ids) in projections then
           var p := projections[Last(ids)];
           [UpsertTrace(p), UpsertRoute(p), Dispatch(p)]
         else [])
  }

  /** The consumers registered for each kind: the routed-work lane, recorders elsewhere, or nobody. */
  type Registry = set<ConsumerKind>

  function Dispatched(registry: Registry, s: RouteState, d: RoutingDecision, p: Projection): RouteState {
    if d.target !in registry then s
    else if d.target == ToWorklaneJob then
      s.(live := EnqueueUnique(s.live, RoutedJob(UniqueKey(d.messageId), d.messageId, p)))
    else s.(receipts := s.receipts + {Receipt(d.target, d.messageId)})
  }

  function TakeStep(r: RuleRouter, registry: Registry, s: RouteState, step: RouteStep): RouteState {
    match step
    case UpsertTrace(p) => s.(traces := s.traces[p.messageId := TraceFor(r, p)])
    case UpsertRoute(p) => s.(routes := s.routes[p.messageId := DecisionFor(r, p)])
    case Dispatch(p) => Dispatched(registry, s, DecisionFor(r, p), p)
  }

  function TakeSteps(r: RuleRouter, registry: Registry, s: RouteState, steps: seq<RouteStep>): RouteState {
    if steps == [] then s else TakeStep(r, registry, TakeSteps(r, registry, s, Init(steps)), Last(steps))
  }

  /** An attempt gets through `steps` of its steps; a live job may finish between attempts. */
  datatype RouteEvent =
    | RouteAttempt(steps: nat)
    | JobFinished(key: string)

  function Finished(live: seq<RoutedJob>, key: string): seq<RoutedJob> {
    if live == [] then []
    else Finished(Init(live), key) + (if Last(live).key == key then [] else [Last(live)])
  }

  function NextRoute(
    r: RuleRouter, registry: Registry, projections: map<MessageId, Projection>, ids: seq<MessageId>,
    s: RouteState, e: RouteEvent): RouteState
  {
    match e
    case RouteAttempt(n) =>
      var all := StepsFor(projections, ids);
      TakeSteps(r, registry, s, if n < |all| then all[..n] else all)
    case JobFinished(key) => s.(live := Finished(s.live, key))
  }

  function RouteRun(
    r: RuleRouter, registry: Registry, projections: map<MessageId, Projection>, ids: seq<MessageId>,
    s: RouteState, events: seq<RouteEvent>): RouteState
  {
    if events == [] then s
    else
      NextRoute(r, registry, projections, ids, RouteRun(r, registry, projections, ids, s, Init(events)), Last(events))
  }

  /** An attempt that got through all its steps. */
  predicate Succeeded(projections: map<MessageId, Projection>, ids: seq<MessageId>, e: RouteEvent) {
    e.RouteAttempt? && e.steps >= |StepsFor(projections, ids)|
  }

  ghost predicate KeyedByMessage(projections: map<MessageId, Projection>) {
    forall id :: id in projections ==> projections[id].messageId == id
  }

  /** The consumer a requested projected message goes to, when one is registered. */
  ghost predicate GoesTo(
    r: RuleRouter, registry: Registry, projections: map<MessageId, Projection>, ids: seq<MessageId>,
    id: MessageId, kind: ConsumerKind)
  {
    id in ids && id in projections && kind == DecisionFor(r, projections[id]).target && kind in registry
  }

  /**
   * Every stored decision and trace is the router's, for a requested projected message; every receipt and
   * every live job is for such a message whose target is that registered consumer.
   */
  ghost predicate RoutesSound(
    r: RuleRouter, registry: Registry, projections: map<MessageId, Projection>, ids: seq<MessageId>, s: RouteState) {
    && (forall id :: id in s.routes ==>
          id in ids && id in projections && s.routes[id] == DecisionFor(r, projections[id]))
    && (forall id :: id in s.traces ==> id in ids && id in projections && s.traces[id] == TraceFor(r, projections[id]))
    && (forall x :: x in s.receipts ==>
          x.kind != ToWorklaneJob && GoesTo(r, registry, projections, ids, x.messageId, x.kind))
    && (forall job :: job in s.live ==>
          && GoesTo(r, registry, projections, ids, job.messageId, ToWorklaneJob)
          && job.projection == projections[job.messageId] && job.key == UniqueKey(job.messageId))
    && OneJobPerKey(s.live)
  }

  /** A decision is stored after its trace, and a consumer reached after the decision is stored. */
  ghost predicate StoredFirst(s: RouteState) {
    && (forall id :: id in s.routes ==> id in s.traces)
    && (forall x :: x in s.receipts ==> x.messageId in s.routes)
    && (forall job :: job in s.live ==> job.messageId in s.routes)
  }

  ghost predicate IsLive(live: seq<RoutedJob>, id: MessageId) {
    exists job :: job in live && job.key == UniqueKey(id)
  }

  /** A message's decision and trace are stored and its consumer has been reached. */
  ghost predicate Routed(r: RuleRouter, registry: Registry, s: RouteState, p: Projection) {
    && p.messageId in s.routes && p.messageId in s.traces
    && (DecisionFor(r, p).target in registry && DecisionFor(r, p).target != ToWorklaneJob ==>
          Receipt(DecisionFor(r, p).target, p.messageId) in s.receipts)
    && (DecisionFor(r, p).target in registry && DecisionFor(r, p).target == ToWorklaneJob ==>
          IsLive(s.live, p.messageId))
  }

  /** The step is about a requested, projected message. */
  ghost predicate StepOf(projections: map<MessageId, Projection>, ids: seq<MessageId>, step: RouteStep) {
    exists id :: id in ids && id in projections && step.projection == projections[id]
  }

  lemma {:induction false} StepsMembers(projections: map<MessageId, Projection>, ids: seq<MessageId>)
    ensures forall step :: step in StepsFor(projections, ids) ==> StepOf(projections, ids, step)
    ensures forall id :: id in ids && id in projections ==>
      && UpsertTrace(projections[id]) in StepsFor(projections, ids)
      && UpsertRoute(projections[id]) in StepsFor(projections, ids)
      && Dispatch(projections[id]) in StepsFor(projections, ids)
  {
    if ids != [] {
      Snoc(ids);
      StepsMembers(projections, Init(ids));
      forall step | step in StepsFor(projections, ids) ensures StepOf(projections, ids, step) {
        if step in StepsFor(projections, Init(ids)) {
          assert StepOf(projections, Init(ids), step);
        } else {
          assert Last(ids) in ids && step.projection == projections[Last(ids)];
        }
      }
    }
  }

  lemma EnqueueKeepsOne(live: seq<RoutedJob>, job: RoutedJob)
    requires OneJobPerKey(live) && job.key == UniqueKey(job.messageId)
    ensures OneJobPerKey(EnqueueUnique(live, job))
  {
  }

  lemma EnqueueAdds(live: seq<RoutedJob>, job: RoutedJob)
    ensures forall x :: x in EnqueueUnique(live, job) ==> x in live || x == job
    ensures forall x :: x in live ==> x in EnqueueUnique(live, job)
    ensures live <= EnqueueUnique(live, job) && |EnqueueUnique(live, job)| <= |live| + 1
  {
  }

  lemma {:induction false} FinishKeepsOne(live: seq<RoutedJob>, key: string)
    requires OneJobPerKey(live)
    ensures OneJobPerKey(Finished(live, key))
    ensures forall job :: job in Finished(live, key) <==> job in live && job.key != key
  {
    if live != [] {
      Snoc(live);
      FinishKeepsOne(Init(live), key);
      var rest := Finished(Init(live), key);
      forall i | 0 <= i < |rest| ensures rest[i].key != Last(live).key {
        assert rest[i] in Init(live);
        var j :| 0 <= j < |Init(live)| && Init(live)[j] == rest[i];
        assert live[j].key != live[|live| - 1].key;
      }
    }
  }

  lemma StepSound(
    r: RuleRouter, registry: Registry, projections: map<MessageId, Projection>, ids: seq<MessageId>,
    s: RouteState, step: RouteStep)
    requires KeyedByMessage(projections) && RoutesSound(r, registry, projections, ids, s)
    requires StepOf(projections, ids, step)
    ensures RoutesSound(r, registry, projections, ids, TakeStep(r, registry, s, step))
  {
    hide DecisionFor, TraceFor, OneJobPerKey, EnqueueUnique, UniqueKey;
    var p := step.projection;
    EnqueueKeepsOne(s.live, RoutedJob(UniqueKey(p.messageId), p.messageId, p));
    EnqueueAdds(s.live, RoutedJob(UniqueKey(p.messageId), p.messageId, p));
    DecisionKeepsId(r, p);
  }

  lemma {:induction false} StepsSound(
    r: RuleRouter, registry: Registry, projections: map<MessageId, Projection>, ids: seq<MessageId>,
    s: RouteState, steps: seq<RouteStep>)
    requires KeyedByMessage(projections) && RoutesSound(r, registry, projections, ids, s)
    requires forall step :: step in steps ==> StepOf(projections, ids, step)
    ensures RoutesSound(r, registry, projections, ids, TakeSteps(r, registry, s, steps))
  {
    if steps != [] {
      hide RoutesSound, TakeStep, StepOf, KeyedByMessage;
      Snoc(steps);
      StepsSound(r, registry, projections, ids, s, Init(steps));
      assert Last(steps) in steps;
      StepSound(r, registry, projections, ids, TakeSteps(r, registry, s, Init(steps)), Last(steps));
    }
  }

  lemma DecisionKeepsId(r: RuleRouter, p: Projection)
    ensures DecisionFor(r, p).messageId == p.messageId && TraceFor(r, p).messageId == p.messageId
  {
  }

  /** Each step's effect is there at the end. */
  lemma {:induction false} StepsReach(
    r: RuleRouter, registry: Registry, s: RouteState, steps: seq<RouteStep>, step: RouteStep)
    requires step in steps
    ensures var now, p := TakeSteps(r, registry, s, steps), step.projection;
            && (step.UpsertTrace? ==> p.messageId in now.traces)
            && (step.UpsertRoute? ==> p.messageId in now.routes)
            && (step.Dispatch? && DecisionFor(r, p).target in registry && DecisionFor(r, p).target != ToWorklaneJob ==>
                  Receipt(DecisionFor(r, p).target, p.messageId) in now.receipts)
            && (step.Dispatch? && DecisionFor(r, p).target in registry && DecisionFor(r, p).target == ToWorklaneJob ==>
                  IsLive(now.live, p.messageId))
  {
    hide TargetFor, TraceFor, EnqueueUnique, UniqueKey, IsLive;
    Snoc(steps);
    var before, last := TakeSteps(r, registry, s, Init(steps)), Last(steps).projection;
    EnqueueIsLive(before.live, RoutedJob(UniqueKey(last.messageId), last.messageId, last));
    if step != Last(steps) {
      StepsReach(r, registry, s, Init(steps), step);
    }
  }

  lemma EnqueueIsLive(live: seq<RoutedJob>, job: RoutedJob)
    requires job.key == UniqueKey(job.messageId)
    ensures IsLive(EnqueueUnique(live, job), job.messageId)
    ensures forall id :: IsLive(live, id) ==> IsLive(EnqueueUnique(live, job), id)
  {
    var now := EnqueueUnique(live, job);
    assert job in now || exists i :: 0 <= i < |live| && live[i] in live && live[i].key == job.key;
    assert forall x :: x in live ==> x in now;
  }

  lemma AttemptSound(
    r: RuleRouter, registry: Registry, projections: map<MessageId, Projection>, ids: seq<MessageId>,
    s: RouteState, n: nat)
    requires KeyedByMessage(projections) && RoutesSound(r, registry, projections, ids, s)
    ensures RoutesSound(r, registry, projections, ids, NextRoute(r, registry, projections, ids, s, RouteAttempt(n)))
  {
    hide RoutesSound, StepsFor, TakeSteps, KeyedByMessage;
    var all := StepsFor(projections, ids);
    StepsMembers(projections, ids);
    var taken := if n < |all| then all[..n] else all;
    assert forall step :: step in taken ==> step in all;
    StepsSound(r, registry, projections, ids, s, taken);
  }

  lemma FinishSound(
    r: RuleRouter, registry: Registry, projections: map<MessageId, Projection>, ids: seq<MessageId>,
    s: RouteState, key: string)
    requires RoutesSound(r, registry, projections, ids, s)
    ensures RoutesSound(r, registry, projections, ids, NextRoute(r, registry, projections, ids, s, JobFinished(key)))
  {
    hide OneJobPerKey, Finished, GoesTo, DecisionFor, TraceFor, UniqueKey;
    FinishKeepsOne(s.live, key);
  }

  lemma {:induction false} RouteRunSound(
    r: RuleRouter, registry: Registry, projections: map<MessageId, Projection>, ids: seq<MessageId>,
    s: RouteState, events: seq<RouteEvent>)
    requires KeyedByMessage(projections) && RoutesSound(r, registry, projections, ids, s)
    ensures RoutesSound(r, registry, projections, ids, RouteRun(r, registry, projections, ids, s, events))
  {
    if events != [] {
      hide RoutesSound, NextRoute, KeyedByMessage;
      RouteRunSound(r, registry, projections, ids, s, Init(events));
      var now := RouteRun(r, registry, projections, ids, s, Init(events));
      match Last(events) {
        case RouteAttempt(n) => AttemptSound(r, registry, projections, ids, now, n);
        case JobFinished(key) => FinishSound(r, registry, projections, ids, now, key);
      }
    }
  }

  const NOTHING_ROUTED := RouteState(map[], map[], {}, [])

  /**
   * Route retry: however many attempts were cut short, wherever, and whatever jobs finished in between,
   * a successful last attempt leaves exactly one decision and one trace per projected requested message,
   * each the router's, and reaches exactly the registered consumers of those messages: a receipt
   * recorded, or a job live.
   */
  lemma RouteRetry(
    r: RuleRouter, registry: Registry, projections: map<MessageId, Projection>, ids: seq<MessageId>,
    events: seq<RouteEvent>)
    requires KeyedByMessage(projections)
    requires events != [] && Succeeded(projections, ids, Last(events))
    ensures var s := RouteRun(r, registry, projections, ids, NOTHING_ROUTED, events);
            && (forall id :: id in s.routes <==> id in ids && id in projections)
            && (forall id :: id in s.traces <==> id in ids && id in projections)
            && (forall id :: id in ids && id in projections ==>
                  && s.routes[id] == DecisionFor(r, projections[id])
                  && s.traces[id] == TraceFor(r, projections[id])
                  && Routed(r, registry, s, projections[id]))
            && (forall kind, id :: Receipt(kind, id) in s.receipts <==>
                  kind != ToWorklaneJob && GoesTo(r, registry, projections, ids, id, kind))
            && (forall job :: job in s.live ==>
                  && GoesTo(r, registry, projections, ids, job.messageId, ToWorklaneJob)
                  && job.projection == projections[job.messageId])
  {
    hide StepsFor, OneJobPerKey, DecisionFor, TraceFor;
    var before := RouteRun(r, registry, projections, ids, NOTHING_ROUTED, Init(events));
    var s := RouteRun(r, registry, projections, ids, NOTHING_ROUTED, events);
    var all := StepsFor(projections, ids);
    assert s == TakeSteps(r, registry, before, all);
    NothingRouted(r, registry, projections, ids);
    RouteRunSound(r, registry, projections, ids, NOTHING_ROUTED, events);
    StepsMembers(projections, ids);
    forall id | id in ids && id in projections
      ensures id in s.routes && id in s.traces && Routed(r, registry, s, projections[id]) {
      var p := projections[id];
      StepsReach(r, registry, before, all, UpsertTrace(p));
      StepsReach(r, registry, before, all, UpsertRoute(p));
      StepsReach(r, registry, before, all, Dispatch(p));
    }
  }

  lemma NothingRouted(
    r: RuleRouter, registry: Registry, projections: map<MessageId, Projection>, ids: seq<MessageId>)
    ensures RoutesSound(r, registry, projections, ids, NOTHING_ROUTED)
  {
  }

  // ---------- stored before dispatched ----------

  /** Within the steps, each decision follows its trace and each dispatch its decision. */
  lemma {:induction false} StepBefore(projections: map<MessageId, Projection>, ids: seq<MessageId>, n: nat)
    requires n < |StepsFor(projections, ids)|
    ensures var all := StepsFor(projections, ids);
            && (all[n].UpsertRoute? ==> n >= 1 && all[n - 1] == UpsertTrace(all[n].projection))
            && (all[n].Dispatch? ==> n >= 1 && all[n - 1] == UpsertRoute(all[n].projection))
  {
    var before := StepsFor(projections, Init(ids));
    if n < |before| {
      StepBefore(projections, Init(ids), n);
    }
  }

  lemma StepKeepsStored(r: RuleRouter, registry: Registry, s: RouteState, step: RouteStep)
    requires StoredFirst(s)
    requires step.UpsertRoute? ==> step.projection.messageId in s.traces
    requires step.Dispatch? ==> step.projection.messageId in s.routes
    ensures StoredFirst(TakeStep(r, registry, s, step))
  {
    hide TraceFor, EnqueueUnique, UniqueKey, TargetFor;
    var p := step.projection;
    DecisionKeepsId(r, p);
    EnqueueAdds(s.live, RoutedJob(UniqueKey(p.messageId), p.messageId, p));
  }

  lemma {:induction false} StepsKeepStored(
    r: RuleRouter, registry: Registry, projections: map<MessageId, Projection>, ids: seq<MessageId>, s: RouteState,
    n: nat)
    requires StoredFirst(s) && n <= |StepsFor(projections, ids)|
    ensures StoredFirst(TakeSteps(r, registry, s, StepsFor(projections, ids)[..n]))
  {
    if n > 0 {
      hide StoredFirst, TakeStep, StepsFor;
      var all := StepsFor(projections, ids);
      PrefixStep(all, n - 1);
      StepsKeepStored(r, registry, projections, ids, s, n - 1);
      StepBefore(projections, ids, n - 1);
      if n > 1 {
        assert all[n - 2] == all[..n - 1][n - 2];
        StepsReach(r, registry, s, all[..n - 1], all[n - 2]);
      }
      StepKeepsStored(r, registry, TakeSteps(r, registry, s, all[..n - 1]), all[n - 1]);
    }
  }

  /**
   * At any time, however attempts were cut short, a decision is stored only with its trace, and a consumer
   * has been reached only for a message whose decision is stored; everything stored is the router's and
   * every consumer reached is the registered one of its message.
   */
  lemma {:induction false} DispatchedOnlyWhenStored(
    r: RuleRouter, registry: Registry, projections: map<MessageId, Projection>, ids: seq<MessageId>,
    events: seq<RouteEvent>)
    requires KeyedByMessage(projections)
    ensures var s := RouteRun(r, registry, projections, ids, NOTHING_ROUTED, events);
            StoredFirst(s) && RoutesSound(r, registry, projections, ids, s)
  {
    NothingRouted(r, registry, projections, ids);
    RouteRunSound(r, registry, projections, ids, NOTHING_ROUTED, events);
    if events != [] {
      hide RoutesSound, StepsFor, TakeSteps, OneJobPerKey;
      DispatchedOnlyWhenStored(r, registry, projections, ids, Init(events));
      var now := RouteRun(r, registry, projections, ids, NOTHING_ROUTED, Init(events));
      match Last(events) {
        case RouteAttempt(n) =>
          var all := StepsFor(projections, ids);
          WholePrefix(all);
          StepsKeepStored(r, registry, projections, ids, now, if n < |all| then n else |all|);
        case JobFinished(key) =>
          FinishedMembers(now.live, key);
      }
    }
  }

  lemma {:induction false} FinishedMembers(live: seq<RoutedJob>, key: string)
    ensures forall job :: job in Finished(live, key) <==> job in live && job.key != key
  {
    if live != [] {
      Snoc(live);
      FinishedMembers(Init(live), key);
    }
  }

  /** At any time at most one routed-work job per message is live. */
  lemma OneLiveJobPerMessage(
    r: RuleRouter, registry: Registry, projections: map<MessageId, Projection>, ids: seq<MessageId>,
    events: seq<RouteEvent>, i: nat, j: nat)
    requires KeyedByMessage(projections)
    requires i < j < |RouteRun(r, registry, projections, ids, NOTHING_ROUTED, events).live|
    ensures var live := RouteRun(r, registry, projections, ids, NOTHING_ROUTED, events).live;
            live[i].messageId != live[j].messageId
  {
    NothingRouted(r, registry, projections, ids);
    RouteRunSound(r, registry, projections, ids, NOTHING_ROUTED, events);
  }

  // ---------- the job itself ----------

  /** The message at this position is projected and its consumer registered. */
  predicate FailsAt(
    r: RuleRouter, registry: Registry, projections: map<MessageId, Projection>, ids: seq<MessageId>, at: nat)
  {
    at < |ids| && ids[at] in projections && DecisionFor(r, projections[ids[at]]).target in registry
  }

  class RouteStores {
    var traces: map<MessageId, RoutingTrace>
    var routes: map<MessageId, RoutingDecision>
    var receipts: set<Receipt>
    const lane: RoutedWorkLane

    constructor (lane: RoutedWorkLane)
      ensures traces == map[] && routes == map[] && receipts == {} && this.lane == lane
    {
      traces, routes, receipts := map[], map[], {};
      this.lane := lane;
    }

    ghost function View(): RouteState
      reads this, lane
    {
      RouteState(traces, routes, receipts, lane.live)
    }

    /**
     * Dispatch to the consumer registered for the target; an unregistered target is a successful no-op
     * and a consumer's error propagates.
     */
    method DispatchTo(
      registry: Registry, decision: RoutingDecision, projection: Projection, fails: bool) returns (ok: bool)
      modifies this, lane
      ensures ok <==> !(fails && decision.target in registry)
      ensures ok ==> View() == Dispatched(registry, old(View()), decision, projection)
      ensures !ok ==> View() == old(View())
      ensures traces == old(traces) && routes == old(routes)
      ensures receipts == if ok && decision.target in registry && decision.target != ToWorklaneJob
                          then old(receipts) + {Receipt(decision.target, decision.messageId)} else old(receipts)
      ensures lane.live == if ok && decision.target in registry && decision.target == ToWorklaneJob
                           then EnqueueUnique(old(lane.live), RoutedJob(
                             UniqueKey(decision.messageId), decision.messageId, projection))
                           else old(lane.live)
    {
      if decision.target !in registry {
        return true;
      }
      if decision.target == ToWorklaneJob {
        ok := lane.Consume(decision, projection, fails);
      } else if fails {
        ok := false;
      } else {
        receipts := receipts + {Receipt(decision.target, decision.messageId)};
        ok := true;
      }
    }

    /**
     * One attempt over the requested messages: the dispatch of message `failAt` fails, if that message is
     * projected and its consumer registered. The attempt then stops, having stored that decision.
     */
    method Run(
      r: RuleRouter, registry: Registry, projections: map<MessageId, Projection>, ids: seq<MessageId>,
      failAt: Option<nat>) returns (ok: bool, ghost taken: nat)
      modifies this, lane
      ensures taken <= |StepsFor(projections, ids)|
      ensures ok ==> taken == |StepsFor(projections, ids)|
      ensures ok <==> !(failAt.Some? && FailsAt(r, registry, projections, ids, failAt.value))
      ensures !ok ==> taken == |StepsFor(projections, ids[..failAt.value])| + 2
      ensures View() == NextRoute(r, registry, projections, ids, old(View()), RouteAttempt(taken))
    {
      hide DecisionFor, TraceFor, Dispatched, StepsFor, TakeSteps;
      ghost var all := StepsFor(projections, ids);
      NoStepsYet(r, registry, old(View()), projections, ids);
      taken := 0;
      for i := 0 to |ids|
        invariant taken == |StepsFor(projections, ids[..i])| <= |all|
        invariant failAt.Some? && failAt.value < i ==> !FailsAt(r, registry, projections, ids, failAt.value)
        invariant View() == TakeSteps(r, registry, old(View()), all[..taken])
      {
        StepsForStep(projections, ids, i);
        if ids[i] in projections {
          var projection := projections[ids[i]];
          var decision, trace := Route(r, projection);
          ThreeSteps(r, registry, old(View()), all, taken, projection);
          DecisionKeepsId(r, projection);
          traces := traces[trace.messageId := trace];
          routes := routes[decision.messageId := decision];
          var delivered := DispatchTo(registry, decision, projection, failAt == Some(i));
          if !delivered {
            taken := taken + 2;
            return false, taken;
          }
          taken := taken + 3;
        }
      }
      WholePrefix(ids);
      WholePrefix(all);
      ok := true;
    }
  }

  lemma NoStepsYet(
    r: RuleRouter, registry: Registry, s: RouteState, projections: map<MessageId, Projection>, ids: seq<MessageId>)
    ensures TakeSteps(r, registry, s, StepsFor(projections, ids)[..0]) == s
    ensures StepsFor(projections, ids[..0]) == []
  {
  }

  lemma {:induction false} StepsForPrefix(projections: map<MessageId, Projection>, ids: seq<MessageId>, i: nat)
    requires i <= |ids|
    ensures StepsFor(projections, ids[..i]) <= StepsFor(projections, ids)
    decreases |ids| - i
  {
    if i < |ids| {
      PrefixStep(ids, i);
      StepsForPrefix(projections, ids, i + 1);
    } else {
      WholePrefix(ids);
    }
  }

  lemma StepsForStep(projections: map<MessageId, Projection>, ids: seq<MessageId>, i: nat)
    requires i < |ids|
    ensures var n, all := |StepsFor(projections, ids[..i])|, StepsFor(projections, ids);
            if ids[i] in projections then
              var p := projections[ids[i]];
              && |StepsFor(projections, ids[..i + 1])| == n + 3 <= |all|
              && all[n] == UpsertTrace(p) && all[n + 1] == UpsertRoute(p) && all[n + 2] == Dispatch(p)
            else |StepsFor(projections, ids[..i + 1])| == n <= |all|
  {
    PrefixStep(ids, i);
    StepsForPrefix(projections, ids, i + 1);
  }

  lemma ThreeSteps(r: RuleRouter, registry: Registry, s: RouteState, all: seq<RouteStep>, n: nat, p: Projection)
    requires n + 3 <= |all|
    requires all[n] == UpsertTrace(p) && all[n + 1] == UpsertRoute(p) && all[n + 2] == Dispatch(p)
    ensures var now := TakeSteps(r, registry, s, all[..n]);
            var stored := now.(traces := now.traces[p.messageId := TraceFor(r, p)],
                               routes := now.routes[p.messageId := DecisionFor(r, p)]);
            && TakeSteps(r, registry, s, all[..n + 2]) == stored
            && TakeSteps(r, registry, s, all[..n + 3]) == Dispatched(registry, stored, DecisionFor(r, p), p)
  {
    hide DecisionFor, TraceFor, Dispatched;
    PrefixStep(all, n);
    PrefixStep(all, n + 1);
    PrefixStep(all, n + 2);
  }
}
