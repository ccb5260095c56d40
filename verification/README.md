# Mirrorlane: a verified model

Mirrorlane re-derives structured context from an append-only message log. A replay runs six stages of
jobs over an at-least-once broker — project, scope, warm-up, skill, hint, developers — into fresh
stores; a semantic cache freezes what a non-deterministic projector answered; a derived-output cache
serves one conversation's result without a replay, keyed by version and by a hash of the conversation.
Its claims are "no loss, no duplication, replay determinism" and "the cache agrees with a fresh replay".
This project models the code behind those claims in Dafny and proves them, or proves exactly when they
hold. `dafny verify dfyconfig.toml` checks everything.

## Main results

- **Confluence.** Whatever order, redeliveries and lost attempts the broker produces in each stage, the
  six stores end as those of a plain functional pipeline over the projected messages
  (`Confluence.ReplayConfluence`); the mutable six-phase replay is proved to be that machine
  (`Replay.RunPhases`).
- **Frozen non-determinism.** With a projector that may answer anything or fail, a replay through the
  cache is the pipeline of the projector the cache has become (`FrozenReplay.CachedReplayIsFrozen`), and
  two replays sharing a cache agree on all six stores (`FrozenReplay.TwoReplaysAgree`).
- **Coherence.** Over every history, each cached row is what some earlier replay derived from its log
  (`Coherence.RowsHaveMoments`). A hit carries the projections, scope and warm-up document of a fresh
  replay exactly when it reports nothing unprojected (`Coherence.WarmupHitIsCoherent`), and everything
  when the log is unchanged (`Coherence.UnchangedLogHitIsExact`). When its hints and its developers are
  still fresh is characterised exactly (`HintFreshness.HitHintsAreFreshExactlyWhen`,
  `DeveloperFreshness.HitDevelopersAreFreshExactlyWhen`). Replay followed by verify verifies
  (`Commands.ReplayThenVerify`). Histories with a model behind the projector reduce to these
  (`ModelHistories.ModelHistorySettles`, `ModelHistories.ModelHitIsCoherent`).
- **Meaning of the output, end to end.** Who a conversation's developers are and what they own, and who
  reviews a message with what score, stated in terms of the log alone (`EndToEnd`).
- **Skill matrix and ranking.** Exact transpose, conservation, order independence, strict ranking.
- **SQLite log.** It refines the in-memory log over any interleaving of appends, and its migration
  survives crashes anywhere (`SqliteLog`, `Migration`).
- **Routing.** Retries leave one decision and one trace per message, and one live job at a time.

## How it is modelled

- `Pipeline` describes a stage as a schedule of attempts. An attempt reads the stores and upserts by
  key; it may be cut after any number of its upserts, as when a handler fails or its lease is lost. The
  broker is assumed to deliver only enqueued payloads, and to complete each payload at least once; for
  the projection stage that is not assumed, because a projector may fail for good. Attempts of a stage
  run one after another.
- The projector, scope and warm-up ports are functions (for the projector, of id and body); in histories
  each replay brings its own. Each port's output carries the identity it was called with, as the built-in
  ports ensure. `FrozenReplay` and `ModelHistories` replace the projector by one that may answer
  differently on each call, or fail.
- The content hash and the projection cache's key are the stream of bytes fed to the hasher, so they are
  free of collisions by construction. The stream itself is proved to decode.
- Weights, scores and confidences are reals; confidences lie in [0, 1]. Where the source sums doubles,
  order independence is claimed for reals only.
- A SQLite table is a sequence or a map of rows and every statement or transaction is atomic. Rows come
  in any physical order. A payload column is the value itself.
- A best-effort reclaim that fails is an input (`failing`, `kept`), so every result that mentions a
  populate holds whether or not reclaims succeed; the bound on rows needs them to succeed.
- The strategy run and the populate that follows read the same log: no append happens in between.
- A loop over the source becomes a method with invariants, proved equal to a recursive function; the
  laws are proved of that function. A class stands for each object that is updated in place.

## Where the code is narrower than its prose

- A derived row's key hashes one conversation's ids and bodies. Hints and developers also depend on the
  authors and on the skill index over the whole log, so a hit can carry stale ones
  (`Staleness.HintsCanGoStale`, `Staleness.DevelopersCanGoStale`). The exact conditions are
  `HintFreshness.HitHintsAreFreshExactlyWhen` and `DeveloperFreshness.HitDevelopersAreFreshExactlyWhen`.
- A replay in which some messages do not project still writes its rows, and later warm-ups serve them.
  Such a hit reports those messages; `Coherence.WarmupHitIsCoherent` says what it still guarantees.
- Opening the projection cache at one version deletes the frozen answers of every other version, while
  rows derived at those versions may stay. So verify can report an unchanged log as diverged: after a full
  replay, exactly when the cache has been opened at another version since
  (`VerifyDivergence.VerifyAgreesExactlyWhen`).
- The inner step of a cached call is promised to run at most once per key. With concurrent calls it
  succeeds at most once exactly when no call with an output overlaps the first that succeeded
  (`ConcurrentCache.AtMostOnceExactlyWhen`).
- Reclaiming is said never to remove a row that a later read could hit. It does when two versions are used
  in turn on one log, or an edit is later reverted; `DerivedOutput.ReclaimChangesReadExactlyWhen` says
  exactly when a later read is changed.
- `user_version` is one counter per database file, and the command line opens several stores on one file
  (`crates/mirrorlane-cli/src/main.rs:471-472`). A store whose single step is opened after the message
  log never creates its table, and its open still succeeds; in the other order the message log fails to
  open (`Migration.TracesAfterLogHaveNoTable`, `Migration.LogAfterTracesFails`; exact conditions in
  `Migration.OneStepStoreTable` and `Migration.MessageLogTable`, for any sequence of opens in
  `Migration.OnlyFirstStoreGetsTable`). The crash-safety results are stated for
  one step list per file.
- The comment in `crates/mirrorlane-storage/src/sqlite_routing_trace_store.rs:71-72` says the trace just
  written has the highest rowid. An overwritten row keeps its old rowid; the trace is retained because
  there are never more than N rows, which needs a table kept under the cap from the start and N at least
  1 (`Traces.WrittenTraceSurvives`, `Traces.OverwriteCanBeLost`).
- Printed identities decode when some components avoid the separators, and not in general. For each the
  exact condition under which two print the same is proved (`Identities.JoinsEqualExactlyWhen` and the
  lemmas built on it), with a colliding pair.

## Model

| member | source | states |
|---|---|---|
| Confluence.ReplayConfluence | crates/mirrorlane-worker/src/replay.rs:82-195 | Over every schedule of the six stages — any order, any redeliveries, attempts lost after any number of upserts — once every payload past the first stage has completed, the six stores equal the functional pipeline over exactly the messages that some attempt projected |
| Confluence.ReplayDeterminism | crates/mirrorlane-worker/src/replay.rs:82-195 | If every message projects, the stores depend on the log alone, not on the schedule |
| Confluence.StageReaches | crates/mirrorlane-worker/src/composition.rs:26-46 | One stage, started from what the earlier stages left, ends with exactly its own table filled in, provided its deliveries cover it |
| Confluence.StageIsApply | crates/mirrorlane-worker/src/composition.rs:26-46 | The barrier: no attempt of a stage sees the effect of another attempt of that stage, so a whole schedule is the list of upserts read off the stores it started from |
| Confluence.CutIs | crates/mirrorlane-worker/src/composition.rs:26-46 | An attempt lost after n upserts has performed exactly the first n, a completed one all |
| Confluence.ApplyLookup | crates/mirrorlane-core/src/store.rs:53-62 | Upserts that agree on each key leave, in any order and number, exactly the keys written changed |
| Confluence.WritesStable | crates/mirrorlane-worker/src/lib.rs:80-417 | What a job upserts depends only on the tables of earlier stages |
| Confluence.ProjectionComplete | crates/mirrorlane-worker/src/replay.rs:92-98 | Every projection the functional pipeline holds was upserted by an attempt of the first stage |
| Confluence.ProjectionSound | crates/mirrorlane-worker/src/lib.rs:80-84 | Everything the first stage upserts is what the functional pipeline holds at that key |
| Confluence.PayloadSound | crates/mirrorlane-worker/src/lib.rs:119-417 | Everything a later-stage payload upserts is what the functional pipeline holds at that key |
| Confluence.PayloadComplete | crates/mirrorlane-worker/src/replay.rs:102-184 | Everything the functional pipeline holds for a later stage is upserted by one of that stage's payloads |
| Confluence.OnlyLogIdsMatter | crates/mirrorlane-worker/src/replay.rs:82-195 | The pipeline over projected ids ignores ids that are not in the log |
| Replay.ReplayStores.Upsert | crates/mirrorlane-core/src/store.rs:53-62 | An upsert replaces the record under its own key in its own store and touches nothing else |
| Replay.ReplayStores.RunSingle | crates/mirrorlane-worker/src/lib.rs:80-184 | Unless cut before it, the project job stores what its port says of the id and body under the message's own id, the scope job what its port says of the requested projections, and the warm-up job what its port says of the stored scope and those projections; nothing else changes |
| Replay.ReplayStores.RunSkill | crates/mirrorlane-worker/src/lib.rs:218-238 | The skill job joins authors to stored projections, skips the unprojected, and upserts one ownership per topic in index order, up to where it is cut |
| LogScores.ContributionsAre | crates/mirrorlane-worker/src/lib.rs:218-238 | The skill job makes one contribution of each entry whose message is projected, in order and repeats included, with the entry's author and name and the projection's topics and confidence |
| LogScores.ContributionsSelect | crates/mirrorlane-worker/src/replay.rs:125-148 | Over a replay the contributions are one per projected message of the log, in log order |
| Replay.ReplayStores.RunHints | crates/mirrorlane-worker/src/lib.rs:337-351 | The hint job upserts one hint per projected message in request order, up to where it is cut |
| Confluence.HintWritesSelect | crates/mirrorlane-worker/src/lib.rs:337-351 | The hint job upserts exactly one hint per requested projected message, in request order |
| Replay.ReplayStores.CollectOwnerships | crates/mirrorlane-worker/src/lib.rs:394-411 | The nested loop with its `seen` set fetches the ownership of each distinct session topic once, in first-seen order |
| Replay.ReplayStores.RunDevelopers | crates/mirrorlane-worker/src/lib.rs:394-417 | The developer job upserts the snapshot built from the participants and those ownerships |
| Replay.ReplayStores.Drain | crates/mirrorlane-worker/src/composition.rs:26-46 | Draining a stage performs its schedule of attempts, and nothing else |
| Replay.ReplayStores.Handle | crates/mirrorlane-worker/src/lib.rs:80-417 | Each payload kind goes to its own job |
| Replay.PerConversation | crates/mirrorlane-worker/src/composition.rs:55-64 | The fan-out yields one payload per conversation in first-seen order, with that conversation's ids and participants |
| Replay.RunPhases | crates/mirrorlane-worker/src/replay.rs:82-195 | The six phases over mutable stores end in the functional pipeline over the projected messages |
| Grouping.GroupByConversation | crates/mirrorlane-worker/src/replay.rs:244-264 | One pass yields, in first-seen order, each conversation with exactly its message ids in append order |
| Grouping.GroupMessages | crates/mirrorlane-worker/src/derived.rs:136-148 | One pass yields the conversations in first-seen order and, for each, the log filtered to it |
| Grouping.ParticipantsByConversation | crates/mirrorlane-worker/src/replay.rs:214-240 | Each conversation gets its distinct authors in ascending order, each with the last-seen name |
| Grouping.GroupsPartitionLog | crates/mirrorlane-worker/src/replay.rs:244-264 | The groups together hold every message of the log as often as the log does, and no other |
| Grouping.FlattenCounts | crates/mirrorlane-worker/src/replay.rs:244-264 | A message occurs in its own conversation's group and in no other |
| EndToEnd.DevelopersEndToEnd | crates/mirrorlane-worker/src/replay.rs:168-184 | A conversation's developers are exactly the authors of its messages, once each in ascending order, under their last-seen name; each holds exactly the session topics they wrote on in any conversation, weighted by their share of the largest weight that the log's messages add up to on the topic, ranked by weight then topic |
| EndToEnd.ReviewersEndToEnd | crates/mirrorlane-provider/src/hint.rs:33-85 | A projected message's reviewers are exactly the authors who wrote on one of its topics anywhere in the log, each under the name on their last projected message and scoring the sum of their topic scores, with multiplicity, over the largest such sum, all read off the log; strictly ranked without duplicates, the head scoring 1 when anybody scores; the human hint is the head; a message with a topic lists its own author |
| EndToEnd.SkillsEndToEnd | crates/mirrorlane-worker/src/lib.rs:218-238 | A topic has a stored ownership exactly when somebody wrote on it; its candidates are exactly those who did, strictly ranked, each under the name on their last projected message and scoring their share of the largest weight |
| LogScores.WeightIsLogWeight | crates/mirrorlane-provider/src/skill.rs:36-50 | The weight behind an ownership is the sum over the log of confidence times topic multiplicity of the author's projected messages |
| LogScores.ScoreIsLogScore | crates/mirrorlane-provider/src/skill.rs:78-106 | A score of the index is the author's share of the largest weight read off the log |
| LogScores.NameIsLogName | crates/mirrorlane-provider/src/skill.rs:36-50 | The index names an author as their last projected message does |
| LogScores.LogNameIsLastSeen | crates/mirrorlane-provider/src/skill.rs:36-50 | That name stands on the last projected message by the author, in any conversation |
| LogScores.TopLogWeightIsLargest | crates/mirrorlane-provider/src/skill.rs:80-84 | The largest weight bounds every author's and is one of them, or zero |
| LogScores.TopLogTotalIsLargest | crates/mirrorlane-provider/src/hint.rs:58-62 | The largest total over several topics bounds every author's and is one of them, or zero |
| EndToEnd.StrongerReviewerFirst | crates/mirrorlane-provider/src/hint.rs:3-10 | An author scoring at least as much on every topic of a message, and more on one, is a reviewer and ranks before the other |
| EndToEnd.PoolTotals | crates/mirrorlane-provider/src/hint.rs:43-56 | Over the ownerships of a topic list, an author's summed score is the sum of their normalised scores on those topics |
| EndToEnd.SingleTopicHint | crates/mirrorlane-worker/src/replay.rs:134-158 | In the pipeline, a message on one topic gets exactly that topic's stored ranking as reviewers |
| EndToEnd.ContributedIsWrote | crates/mirrorlane-worker/src/lib.rs:218-238 | The skill index credits an author with a topic if and only if they wrote a projected message on it |
| EndToEnd.AuthorNameIsLastSeen | crates/mirrorlane-worker/src/replay.rs:214-240 | A participant's name is the one on their last message of the conversation |
| EndToEnd.SessionTopicsMembers | crates/mirrorlane-worker/src/lib.rs:394-411 | The session topics are exactly the topics of the conversation's projected messages, once each |
| EndToEnd.FindExpert | crates/mirrorlane-provider/src/skill.rs:78-106 | Looking an author up in a topic's ranking finds their candidate if they contributed and nothing otherwise |
| Skill.AddTopics | crates/mirrorlane-provider/src/skill.rs:36-50 | The inner tally loop adds the confidence once per occurrence of each topic |
| Skill.TallyAuthors | crates/mirrorlane-provider/src/skill.rs:36-50 | The tally holds, per author, the last-seen name and the summed weight of every topic touched |
| Skill.PushRows | crates/mirrorlane-provider/src/skill.rs:66-74 | One author's row is pushed under exactly the topics they touch, in whatever order they are visited |
| Skill.Transpose | crates/mirrorlane-provider/src/skill.rs:66-74 | Inverting the tally lists, per topic, exactly the authors who touched it with their weights |
| Skill.Build | crates/mirrorlane-provider/src/skill.rs:33-112 | The loops build the index whose laws are the lemmas below |
| SkillLaws.GainCounts | crates/mirrorlane-provider/src/skill.rs:36-50 | A contribution adds its confidence times the multiplicity of the topic in its list |
| SkillLaws.ProfileMembers | crates/mirrorlane-provider/src/skill.rs:52-64 | A profile lists a topic with a weight if and only if the author contributed to it and that is the summed weight |
| SkillLaws.OwnershipsTransposeProfiles | crates/mirrorlane-provider/src/skill.rs:66-74 | An author is a candidate on a topic if and only if the topic is in their profile |
| SkillLaws.OwnershipRanking | crates/mirrorlane-provider/src/skill.rs:76-106 | A topic's candidates are exactly its contributors, once each, strictly ordered by score then author; the head scores 1 when any weight is positive and everybody scores 0 otherwise |
| SkillLaws.ScoresFollowWeights | crates/mirrorlane-provider/src/skill.rs:78-106 | Scores order contributors exactly as their raw weights do |
| SkillLaws.ScoreIsShare | crates/mirrorlane-provider/src/skill.rs:78-106 | A score is the weight divided by the topic's largest weight, with the clamp never acting |
| SkillLaws.WeightsAreConserved | crates/mirrorlane-provider/src/skill.rs:36-64 | All profile weights together are the confidence brought in, once per listed topic |
| SkillLaws.WeightPermutes | crates/mirrorlane-provider/src/skill.rs:36-50 | Over the reals a weight does not depend on the order of contributions |
| SkillLaws.OrderIndependence | crates/mirrorlane-provider/src/skill.rs:33-112 | Reordering contributions changes no weight, no score and no ranking position |
| SkillLaws.NameIsLastSeen | crates/mirrorlane-provider/src/skill.rs:36-50 | The display name is the one on the author's last contribution |
| SkillLaws.ProfilesInOrder | crates/mirrorlane-provider/src/skill.rs:52-64 | The index lists one profile per author in ascending order, under the last-seen name, its topics in ascending order |
| SkillLaws.OwnershipsInOrder | crates/mirrorlane-provider/src/skill.rs:76-110 | The index lists one ownership per topic, in ascending order |
| Ranking.RankRows | crates/mirrorlane-provider/src/skill.rs:78-106 | Normalising and sorting in place yields the ranking whose laws follow |
| Ranking.RankedIsStrict | crates/mirrorlane-provider/src/skill.rs:78-106 | The ranking is a duplicate-free permutation of the normalised rows in strict order |
| Ranking.ScoresOrderAsWeights | crates/mirrorlane-provider/src/skill.rs:78-106 | One row scores below another if and only if it weighs less |
| Ranking.HeadScoresOne | crates/mirrorlane-provider/src/skill.rs:78-106 | The first candidate scores exactly 1 as soon as any weight is positive |
| Ranking.RankingUnique | crates/mirrorlane-provider/src/skill.rs:98-104 | Any strictly ordered list of the same candidates is the ranking |
| Ranking.MaxWeightAttained | crates/mirrorlane-provider/src/skill.rs:80-84 | The normalising maximum is a weight of some row, or zero |
| Hint.BuildHint | crates/mirrorlane-provider/src/hint.rs:33-85 | The nested totals loop and the in-place sort produce the hint that the lemmas describe |
| Hint.ReviewersRanking | crates/mirrorlane-provider/src/hint.rs:58-79 | Reviewers are exactly the candidates' authors over the matching topics, once each, strictly ranked, each with the last name and the share of the largest sum; the head scores 1 when any sum is positive |
| Hint.TopSumIsLargest | crates/mirrorlane-provider/src/hint.rs:58-62 | The normalising maximum bounds every author's sum and is one of them, or zero |
| Hint.HintAgreesWithOwnership | crates/mirrorlane-provider/src/hint.rs:33-85 | Over one distinct topic, however often repeated, the reviewers equal that topic's candidates, scores and order included |
| Developers.SnapshotTopics | crates/mirrorlane-provider/src/developer.rs:32-73 | A developer's topics are exactly those on which they are a candidate, weighted by score, in strict rank order |
| Developers.DevelopersAreParticipants | crates/mirrorlane-provider/src/developer.rs:32-73 | The developers are the participants, once each, in strictly ascending author order |
| DerivedOutput.ContentHashOf | crates/mirrorlane-worker/src/derived.rs:62-69 | Hashing the given messages feeds the hasher each id, then each body, in order |
| DerivedOutput.ContentIs | crates/mirrorlane-worker/src/derived.rs:62-69 | The stream fed is, message after message, the id and its end, then the body and its end |
| DerivedOutput.ContentHashIn | crates/mirrorlane-worker/src/derived.rs:46-55 | Hashing one conversation straight from the whole log feeds the same stream as hashing its filtered messages |
| DerivedOutput.ContentDecides | crates/mirrorlane-worker/src/derived.rs:62-69 | Two message lists feed the hasher the same stream if and only if they agree on every id and body, position by position |
| DerivedOutput.DerivationFor | crates/mirrorlane-worker/src/derived.rs:101-122 | Re-scanning the log for one conversation derives the same as the single-pass form; none without a warm-up document |
| DerivedOutput.DerivationFromHolds | crates/mirrorlane-worker/src/derived.rs:74-97 | A derivation exists exactly with a warm-up document, and carries the stored scope, warm-up and developers and, in log order, the stored projections and hints of the conversation's messages |
| DerivedOutput.DerivationsSelect | crates/mirrorlane-worker/src/derived.rs:149-161 | The derivations returned are those of the derived conversations, in first-seen order |
| DerivedOutput.PopulateCache | crates/mirrorlane-worker/src/derived.rs:129-162 | The single pass puts each derived conversation's row at its current key, reclaims the rows it supersedes, and returns the derivations in conversation order |
| DerivedOutput.PopulatedRow | crates/mirrorlane-worker/src/derived.rs:149-161 | After populating, each key reads as follows: a derived conversation's current key has the new derivation, its other keys are gone unless kept, every other conversation's rows are untouched |
| DerivedOutput.PruneKeeps | crates/mirrorlane-storage/src/sqlite_derived_output_cache.rs:60-71 | A reclaim removes exactly the conversation's other rows |
| DerivedOutput.ReclaimChangesReadExactlyWhen | crates/mirrorlane-core/src/derivation.rs:82-98 | A reclaim changes a later read of the conversation if and only if the row read was there and belongs to another version, or the conversation's text has changed in between |
| DerivedOutput.ReclaimBoundsRows | crates/mirrorlane-storage/src/sqlite_derived_output_cache.rs:103-136 | Over any run of populate cycles at any versions a durable cache that starts empty holds at most one row per conversation |
| DerivedOutput.LastCycleIsCurrent | crates/mirrorlane-worker/src/derived.rs:149-161 | Each conversation the last cycle derived has exactly one key left, the current one, holding that cycle's derivation |
| DerivedOutput.DerivedOutputCache.ReclaimSuperseded | crates/mirrorlane-storage/src/sqlite_derived_output_cache.rs:121-136 | The durable adapter prunes, a failing delete changes nothing, the in-memory adapter never prunes |
| Coherence.WarmupHitIsCoherent | crates/mirrorlane-cli/src/commands.rs:350-388 | After any history of appends, edits, moves, replays that may miss messages, warm-ups and reclaims at any versions, a hit carries exactly the projections, scope and warm-up document of its conversation's current messages but for those it reports as unprojected, whatever other conversations did since; it agrees with a fresh replay if and only if it reports none |
| Coherence.FullHistoryMissesNothing | crates/mirrorlane-cli/src/commands.rs:361-377 | When every replay projected every message, no hit reports a message as unprojected |
| Coherence.RowsHaveMoments | crates/mirrorlane-worker/src/derived.rs:129-162 | Every row of every reachable cache is what the replay at some earlier position of the history derived from the log of that moment, at the key of that moment |
| Coherence.UnchangedLogHitIsExact | crates/mirrorlane-cli/src/commands.rs:350-388 | While the log is unchanged since a full replay at the version, and replays at it stay full, a hit equals the fresh derivation in full, hints and developers included |
| Coherence.ReplayMakesExact | crates/mirrorlane-cli/src/commands.rs:327-345 | Right after a full replay every conversation is hit, with its fresh derivation |
| Coherence.DerivedIsLocal | crates/mirrorlane-worker/src/derived.rs:74-97 | A derivation exists exactly for the log's conversations, and its projections, scope and warm-up are determined by the ids and bodies of that conversation's projected messages |
| Coherence.DerivedCallsPorts | crates/mirrorlane-worker/src/lib.rs:119-184 | In the replayed stores each conversation's scope is what the scope port says of its projected messages in log order, and its warm-up what the warm-up port says of that stored scope and those projections |
| HintFreshness.HitHintsAreFreshExactlyWhen | crates/mirrorlane-worker/src/lib.rs:337-351 | After any history, a hit's hints are those of a fresh replay of the current log if and only if it reports no message as unprojected and, for every message, the log of the moment the row was derived and the current log agree on who wrote on its topics, under which name, and with which share of the largest total |
| HintFreshness.HintsEqual | crates/mirrorlane-provider/src/hint.rs:33-85 | Two skill indexes give a projection the same hint if and only if they agree on the authors of its topics, their names and their shares |
| DeveloperFreshness.HitDevelopersAreFreshExactlyWhen | crates/mirrorlane-worker/src/lib.rs:394-417 | After any history, a hit's developers are those of a fresh replay of the current log if and only if, since the moment the row was derived, the conversation has the same authors under the same names and each has the same scores on the session topics |
| DeveloperFreshness.TopicsAgree | crates/mirrorlane-provider/src/developer.rs:32-73 | Two derived snapshots of one developer list the same topics if and only if their session scores are the same |
| Staleness.DevelopersCanGoStale | crates/mirrorlane-worker/src/derived.rs:62-69 | A concrete history: re-attributing a message is not hashed, so the row is hit with the old author |
| Staleness.HintsCanGoStale | crates/mirrorlane-worker/src/derived.rs:62-69 | A concrete history: a message in another conversation changes who reviews a message whose row is still hit |
| Staleness.PlainRunIsFull | crates/mirrorlane-worker/src/replay.rs:82-195 | Every log has a run that projects every message, so the histories above exist |
| Commands.ReplayCommand | crates/mirrorlane-cli/src/commands.rs:327-345 | Any strategy's run populates the cache from its stores; there is one context per conversation with a warm-up, in first-seen order, carrying the requested version, the stored warm-up, scope and developers, the stored hints of its messages in log order, and the router's decisions and drafts; the missing ids are exactly the logged ones without a projection, in order |
| Commands.ReplayContextsHold | crates/mirrorlane-cli/src/commands.rs:251-284 | The contexts of the derivations are those just described, read off the stores |
| Commands.WarmupCommand | crates/mirrorlane-cli/src/commands.rs:350-388 | A hit carries every field of its row, reports exactly the conversation's messages without a projection in it, and leaves the cache alone; a miss replays, populates every conversation, carries what the stores hold for the conversation and reports those without a stored projection |
| Commands.CommandsAreEvents | crates/mirrorlane-cli/src/commands.rs:327-388 | A replay command and a warm-up command change log and rows as the replay and warm-up events of a history do |
| Commands.OtherEvents | crates/mirrorlane-storage/src/sqlite_derived_output_cache.rs:60-71 | An ingest event appends to the log; a reclaim event deletes exactly the conversation's other rows |
| Commands.MissPopulates | crates/mirrorlane-cli/src/commands.rs:379-383 | After a missed warm-up every logged conversation is hit |
| Commands.VerifyCommand | crates/mirrorlane-cli/src/commands.rs:405-428 | Verify compares each fresh derivation with the durable row at its current key and never writes to the durable cache |
| Commands.Unprojected | crates/mirrorlane-cli/src/commands.rs:304-308 | Lists exactly the given ids with no stored projection, as often and in the order they are given |
| Commands.StrategyRunJob | crates/mirrorlane-worker/src/submission.rs:95-105 | A run of any registered strategy populates the cache from that strategy's stores under its own version; an unregistered id fails without touching it |
| Commands.RunStrategy | crates/mirrorlane-worker/src/registry.rs:60-75 | The built-in strategies derive the replay's stores and empty stores; any other derives its own |
| Sessions.DraftsFollowDecisions | crates/mirrorlane-cli/src/commands.rs:251-284 | A session drafts exactly the messages it decides to send to GitHub, in the order it decides them |
| Sessions.SessionDecidesProjected | crates/mirrorlane-cli/src/commands.rs:251-284 | A session decides exactly the messages its derivation projected |
| Sessions.SessionCarriesRow | crates/mirrorlane-cli/src/commands.rs:251-284 | A context carries every field of its derivation, one decision per projection and a draft per decision for GitHub, in order |
| Sessions.DraftSays | crates/mirrorlane-github/src/consumer.rs:54-97 | A draft's kind, title, message and body inputs, intent by intent |
| Sessions.DefaultDrafts | crates/mirrorlane-github/src/consumer.rs:54-97 | With the default router a confident proposal is drafted as a pull request, an issue as an issue, and nothing else is drafted |
| Commands.HitReportsSameMissing | crates/mirrorlane-cli/src/commands.rs:361-377 | On the log just replayed, a hit reports the same unprojected ids as the miss path |
| Commands.HitAnswersAsMiss | crates/mirrorlane-cli/src/commands.rs:350-388 | A warm-up right after a replay, partial or not, gives the session context and unprojected ids the miss path would |
| Commands.VerifyIsFaithful | crates/mirrorlane-cli/src/commands.rs:405-428 | One record per conversation in order: diverged if and only if the row at the current key differs from recomputation, not cached if and only if there is none |
| Commands.ReplayThenVerify | crates/mirrorlane-cli/src/commands.rs:405-428 | Immediately after a replay of any log every conversation verifies |
| Commands.EmptyPopulatesNothing | crates/mirrorlane-worker/src/derived.rs:149-161 | Populating from empty stores changes no row |
| SemanticCache.Cached.Run | crates/mirrorlane-runtime/src/cache.rs:138-147 | A hit is returned without running the step; a miss runs it and stores its output; a failure stores nothing |
| SemanticCache.LaterCallsRepeatTheAnswer | crates/mirrorlane-runtime/src/cache.rs:138-147 | Over every sequential run, once a slot has answered, every later call gets that same answer without running the step |
| SemanticCache.AtMostOneSuccess | crates/mirrorlane-runtime/src/cache.rs:91-101 | Over sequential runs the inner step succeeds at most once per kind, version and key |
| ConcurrentCache.AtMostOnceExactlyWhen | crates/mirrorlane-runtime/src/cache.rs:91-101 | Over every interleaving of checks and writes, from an empty slot, the inner step succeeds at most once if and only if no call with an output checked the slot before the first success and finished after it |
| ConcurrentCache.FurtherSuccessExactlyWhen | crates/mirrorlane-runtime/src/cache.rs:138-147 | After the first success on a slot, a further call with an output succeeds too if and only if it had checked the slot before that success |
| ConcurrentCache.CallSucceedsExactlyWhen | crates/mirrorlane-runtime/src/cache.rs:138-147 | A call with an output succeeds if and only if its slot was empty when it checked |
| ConcurrentCache.OverlapRunsTwice | crates/mirrorlane-runtime/src/cache.rs:138-147 | Two calls that check before either writes both run the step, and the later output replaces the earlier |
| SemanticCache.PruneKeepsVersion | crates/mirrorlane-cli/src/commands.rs:173-176 | Reclaiming on open changes no answer at the kept version |
| SemanticCache.SlotHoldsItsFirstAnswer | crates/mirrorlane-runtime/src/cache.rs:22-31 | From an empty cache, over every run that keeps the version, a slot holds the first successful output of its own calls; no call of another kind, version or key ever answers it |
| SemanticCache.StepRunsExactlyWhen | crates/mirrorlane-runtime/src/cache.rs:138-147 | From an empty cache, a call runs the inner step exactly when no earlier call of its slot was answered, and is told that first answer otherwise |
| FrozenReplay.SlotsEqualExactlyWhen | crates/mirrorlane-core/src/cache.rs:18-27 | Two messages share a cached answer if and only if version, id and body are the same |
| ProjectionTable.SqliteProjectionCache.Get | crates/mirrorlane-storage/src/sqlite_projection_cache.rs:75-86 | A read answers what the in-memory cache of the caller's kind would |
| ProjectionTable.SqliteProjectionCache.Put | crates/mirrorlane-storage/src/sqlite_projection_cache.rs:88-97 | A write is the in-memory write, as seen by the caller's kind |
| ProjectionTable.SqliteProjectionCache.PruneSuperseded | crates/mirrorlane-storage/src/sqlite_projection_cache.rs:57-62 | Deletes exactly the other versions' rows and returns how many |
| ProjectionTable.TableRefinesCache | crates/mirrorlane-storage/src/sqlite_projection_cache.rs:74-98 | Over every run of calls and prunes by steps of one kind the table is the in-memory cache |
| ProjectionTable.TableAnswersAsCache | crates/mirrorlane-storage/src/sqlite_projection_cache.rs:74-98 | In such a run each call gets the in-memory answer and runs the step exactly when it would |
| ProjectionTable.KindsApartAnswerAsCache | crates/mirrorlane-storage/src/sqlite_projection_cache.rs:74-98 | Over runs of several kinds, as long as no two are called with the same version and key, each call gets the in-memory answer and runs the step exactly when it would |
| ProjectionTable.KindsShareRows | crates/mirrorlane-storage/src/sqlite_projection_cache.rs:13-19 | Two kinds with one version and key share a row in the table and not in memory |
| FrozenReplay.DrainCached | crates/mirrorlane-worker/src/lib.rs:80-84 | Draining the projection stage through a caching projector: answered deliveries upsert, failed ones leave cache and store alone |
| FrozenReplay.CachedReplayIsFrozen | crates/mirrorlane-worker/src/replay.rs:93-98 | A replay through the cache with any model, failing or not, is the functional pipeline of the projector that the final cache amounts to, over the messages answered |
| FrozenReplay.PopulatedCacheIsStable | crates/mirrorlane-runtime/src/cache.rs:138-147 | With every message answered in the cache, no delivery runs the model and the cache stays as it is |
| FrozenReplay.TwoReplaysAgree | crates/mirrorlane-worker/src/replay.rs:82-195 | Once a first replay projected every message, a second one over the same cache that delivers every message uncut runs no model, projects every message and agrees on all six stores, whatever the model would say now |
| ModelHistories.ModelHistorySettles | crates/mirrorlane-cli/src/commands.rs:147-182 | Every history of appends, openings, replays, warm-ups and reclaims with a model behind the cache, whatever it answers and whenever it fails, is a history of deterministic replays, each with the projector the cache had become; every row is what one of them derived |
| ModelHistories.ModelHitIsCoherent | crates/mirrorlane-cli/src/commands.rs:140-146 | While the projection cache is opened at one version only, a hit at that version carries exactly the projections the cache holds now, with their scope and warm-up, for its conversation's current messages but those it reports as unprojected |
| ModelHistories.FrozenHitsStayExact | crates/mirrorlane-cli/src/commands.rs:140-146 | After a replay that projected every message, while the log is unchanged and the projection cache is opened at no other version, every hit at the version is what a further replay derives, whatever the model would say, also when replays at the version run in between |
| ModelHistories.OpeningKeepsAnswersExactlyWhen | crates/mirrorlane-cli/src/commands.rs:171-176 | Opening the projection cache keeps a version's answers if and only if it opens at that version, or the log is empty |
| VerifyDivergence.VerifyAgreesExactlyWhen | crates/mirrorlane-cli/src/commands.rs:405-428 | After a replay that projected every message, while the log is unchanged and no replay runs at the version, a row still at its key is what every further replay at the version derives, whatever the model answers, if and only if the projection cache was opened at no other version since |
| VerifyDivergence.UniformDerives | crates/mirrorlane-runtime/src/cache.rs:138-147 | With no answer cached at the version, a replay derives what the model says now |
| VerifyDivergence.OpeningForgets | crates/mirrorlane-cli/src/commands.rs:171-176 | After an opening at another version the cache holds no answer at the version, and none comes back until a replay at it |
| VerifyDivergence.VerifyCanDiverge | crates/mirrorlane-cli/src/commands.rs:171-176 | A concrete history: open the projection cache at another version and back, and the row of an unchanged log differs from recomputation when the model answers otherwise |
| Log.InMemoryMessageStore.Append | crates/mirrorlane-core/src/message_log.rs:84-90 | A known id is replaced where it stands, a new one goes to the end |
| Log.InMemoryMessageStore.Get | crates/mirrorlane-core/src/message_log.rs:92-94 | Finds the message with the id if and only if there is one |
| Log.InMemoryMessageStore.All | crates/mirrorlane-core/src/message_log.rs:96-99 | Reads the log in append order |
| Log.InMemoryMessageStore.GetConversationIds | crates/mirrorlane-core/src/message_log.rs:27-37 | Lists the distinct conversations in first-seen order |
| Log.InMemoryMessageStore.GetMessagesFor | crates/mirrorlane-core/src/message_log.rs:41-46 | Filters the log to one conversation in append order |
| Log.ConversationIdsMembers | crates/mirrorlane-worker/src/derived.rs:24-32 | The conversations are exactly those of some message, once each |
| Log.MessagesForSelects | crates/mirrorlane-core/src/message_log.rs:41-46 | A conversation's messages are exactly those of the log that belong to it, in its order |
| Log.AppendedAllLatest | crates/mirrorlane-core/src/message_log.rs:84-90 | After any run of appends the log holds, of each id, exactly the message appended last |
| Log.AppendedAllOrder | crates/mirrorlane-core/src/message_log.rs:84-90 | ... in the order in which the ids were first appended |
| SqliteLog.AppendRefines | crates/mirrorlane-storage/src/sqlite_message_store.rs:73-83 | One append statement is one in-memory append, keeps the numbers exactly 1..n, and a re-append keeps its row's number |
| SqliteLog.AppendsRefine | crates/mirrorlane-storage/src/sqlite_message_store.rs:73-110 | Over every interleaving of appends by any writers the numbers stay 1..n and the log reads back as the in-memory log |
| SqliteLog.OrderedNumbers | crates/mirrorlane-storage/src/sqlite_message_store.rs:73-83 | In sequence order the i-th row carries number i: no gap, no repeat |
| SqliteLog.SelectWhereRefines | crates/mirrorlane-storage/src/sqlite_message_store.rs:128-144 | The SQL filter with its ordering reads what filtering the whole in-memory log reads, whatever the physical row order |
| SqliteLog.SelectConversationsRefines | crates/mirrorlane-storage/src/sqlite_message_store.rs:112-126 | Grouping and ordering by the smallest number lists the conversations in first-seen order |
| SqliteLog.SqliteMessageStore.Append | crates/mirrorlane-storage/src/sqlite_message_store.rs:73-83 | The store's contents change as the in-memory log's do |
| SqliteLog.SqliteMessageStore.Get | crates/mirrorlane-storage/src/sqlite_message_store.rs:85-96 | Finds the message with the id if and only if there is one |
| SqliteLog.SqliteMessageStore.All | crates/mirrorlane-storage/src/sqlite_message_store.rs:98-110 | Reads the log in append order |
| SqliteLog.SqliteMessageStore.GetConversationIds | crates/mirrorlane-storage/src/sqlite_message_store.rs:112-126 | Lists the conversations of the contents in first-seen order |
| SqliteLog.SqliteMessageStore.GetMessagesFor | crates/mirrorlane-storage/src/sqlite_message_store.rs:128-144 | Reads one conversation's messages of the contents in append order |
| Migration.Connection.Migrate | crates/mirrorlane-storage/src/sqlite_common.rs:31-53 | Runs the steps above the stored version, each committing with its version bump, and stops at a failing step or a crash |
| Migration.MigrationSurvivesCrashes | crates/mirrorlane-storage/src/sqlite_common.rs:31-53 | From a fresh or legacy file, after any number of opens that died anywhere, an open that survives leaves exactly what one uninterrupted open leaves, up to the order of rows with equal legacy numbers |
| Migration.MigrationKeepsRows | crates/mirrorlane-storage/src/sqlite_message_store.rs:36-57 | No (id, payload) row is lost or added, the result is numbered 1..n, and strict legacy order is kept |
| Migration.RebuildRenumbers | crates/mirrorlane-storage/src/sqlite_message_store.rs:46-56 | The rebuild numbers any legacy rows 1..n and keeps them all |
| Migration.RebuildKeepsOrder | crates/mirrorlane-storage/src/sqlite_message_store.rs:46-56 | Two rows whose old numbers differed keep their order |
| Migration.ReopenIsStable | crates/mirrorlane-storage/src/sqlite_common.rs:31-53 | Reopening a migrated database changes nothing |
| Migration.OneStepStoreTable | crates/mirrorlane-storage/src/sqlite_common.rs:31-53 | Opening a one-step store always reports success, but leaves the table there if and only if it was there or the file's counter was zero |
| Migration.MessageLogTable | crates/mirrorlane-storage/src/sqlite_common.rs:31-53 | Opening the message log leaves its table there if and only if it was there or the counter was zero, and fails exactly at counter one without the table |
| Migration.OnlyFirstStoreGetsTable | crates/mirrorlane-cli/src/main.rs:471-486 | Over any sequence of store opens on one file, only the first gets its table, and only if the file's counter was zero; every other store has its table if and only if it was there before |
| Migration.TracesAfterLogHaveNoTable | crates/mirrorlane-cli/src/main.rs:471-472 | On one new file, opening log then traces, as the command line does, succeeds and leaves no trace table |
| Migration.LogAfterTracesFails | crates/mirrorlane-storage/src/sqlite_common.rs:31-53 | In the other order the message log fails to open |
| Routing.Route | crates/mirrorlane-provider/src/routing.rs:130-185 | The branch on confidence and the pushed steps produce the decision and trace that the lemmas describe |
| Routing.RouterMeaning | crates/mirrorlane-provider/src/routing.rs:130-185 | Confidence below the threshold escalates to a human whatever the rules say; otherwise the first rule for the intent decides, and the default target only when there is none; the reason says which |
| Routing.DefaultTargets | crates/mirrorlane-provider/src/routing.rs:82-107 | The reference rules' targets for a confident message, intent by intent |
| Routing.DefaultEscalates | crates/mirrorlane-provider/src/routing.rs:40-58 | Below 0.6 the reference router sends every message to a human |
| Routing.FirstRuleWins | crates/mirrorlane-provider/src/routing.rs:69-75 | The target is the first matching rule's, or the default when no rule matches |
| Routing.TraceEndsInDecision | crates/mirrorlane-provider/src/routing.rs:130-185 | A trace is the confidence step, matched exactly when below the threshold, and otherwise the intent step; its last step, and only that one, matched and names the decision's target |
| Routing.UniqueKeyDecodes | crates/mirrorlane-worker/src/routed_work.rs:62-64 | Two messages share an enqueue key only if they are the same message |
| Routing.RoutedWorkLane.Consume | crates/mirrorlane-worker/src/routed_work.rs:83-97 | Consuming enqueues under the message's key unless that key is live; a broker error stores nothing and is passed on |
| Routing.RouteStores.DispatchTo | crates/mirrorlane-core/src/routing.rs:155-164 | Fails exactly when the registered consumer fails, and then changes nothing; an unregistered target is a success that changes nothing; otherwise exactly the registered consumer is reached |
| Routing.RouteStores.Run | crates/mirrorlane-worker/src/lib.rs:281-296 | The route job's loop performs trace, decision and dispatch per projected message in order; it fails exactly when the failing message is projected and its consumer registered, having stored everything up to that message's decision |
| Routing.RouteRetry | crates/mirrorlane-worker/src/lib.rs:281-296 | Any number of attempts cut anywhere, with jobs finishing in between, followed by a success, leave exactly one decision and one trace per projected requested message, each the router's; the receipts are exactly those of messages whose target is a registered consumer, every message bound for the registered lane has a live job, and every live job is for such a message and carries its projection |
| Routing.DispatchedOnlyWhenStored | crates/mirrorlane-worker/src/lib.rs:281-296 | At any time, a decision is stored only with its trace, and a consumer has been reached only for a message whose decision is stored and only the registered one of its target |
| Routing.OneLiveJobPerMessage | crates/mirrorlane-worker/src/routed_work.rs:83-97 | At any time at most one routed-work job per message is live |
| Traces.SqliteRoutingTraceStore.Upsert | crates/mirrorlane-storage/src/sqlite_routing_trace_store.rs:62-83 | Insert or overwrite, then keep the rows among the cap largest rowids |
| Traces.SqliteRoutingTraceStore.Get | crates/mirrorlane-storage/src/sqlite_routing_trace_store.rs:85-98 | Answers if and only if a row has the id, with that row's trace |
| Traces.CapKeepsNewest | crates/mirrorlane-storage/src/sqlite_routing_trace_store.rs:70-82 | The delete statement keeps exactly the most recently inserted rows |
| Traces.CapHoldsOverRuns | crates/mirrorlane-storage/src/sqlite_routing_trace_store.rs:62-83 | From empty, over any run of writes, the table holds exactly the N most recently inserted ids, where overwriting does not refresh an id's age, never more than N rows, and for N at least 1 the trace just written |
| Traces.RetainedIsLastWritten | crates/mirrorlane-storage/src/sqlite_routing_trace_store.rs:62-83 | Over any run, every retained trace is the one written last under its id |
| Traces.UncappedKeepsAll | crates/mirrorlane-storage/src/sqlite_routing_trace_store.rs:62-83 | Without a cap a write replaces the trace under its id and keeps every other |
| Traces.WrittenTraceSurvives | crates/mirrorlane-storage/src/sqlite_routing_trace_store.rs:70-82 | From any table, the trace just written survives the prune if and only if fewer than N rows are newer than its place |
| Traces.WrittenTraceIsKept | crates/mirrorlane-storage/src/sqlite_routing_trace_store.rs:70-82 | With at most N rows and N at least 1 it always survives |
| Traces.OverwriteCanBeLost | crates/mirrorlane-storage/src/sqlite_routing_trace_store.rs:70-82 | With more rows than N, as after uncapped use, overwriting an old id loses the write |
| Identities.JoinsEqualExactlyWhen | crates/mirrorlane-core/src/derivation.rs:39-44 | Two joined pairs print the same if and only if they are equal or differ only in which separator is taken for the joint |
| Identities.DerivationVersionsEqualExactlyWhen | crates/mirrorlane-core/src/derivation.rs:39-44 | Exactly when two strategy and projector pairs print one derivation version |
| Identities.DerivationVersionDecodes | crates/mirrorlane-core/src/derivation.rs:39-44 | Derivation versions are equal if and only if strategy and projector version are, for strategy ids without a colon |
| Identities.DerivationVersionsCollide | crates/mirrorlane-core/src/derivation.rs:39-44 | With a colon in the strategy id two pairs print alike |
| Identities.VersionTagsEqualExactlyWhen | crates/mirrorlane-llm/src/lib.rs:59-61 | Exactly when two configurations print one version tag |
| Identities.CacheVersionsEqualExactlyWhen | crates/mirrorlane-llm/src/lib.rs:151-161 | Exactly when two configurations print one cache version |
| Identities.VersionTagDecodes | crates/mirrorlane-llm/src/lib.rs:59-61 | Version tags decode for provider tags and prompt versions without a colon; models may contain one |
| Identities.CacheVersionDecodes | crates/mirrorlane-llm/src/lib.rs:151-161 | Any change of provider, model, prompt version or prompt fingerprint changes the cache version |
| Identities.VersionTagsCollide | crates/mirrorlane-llm/src/lib.rs:59-61 | With a colon in the prompt version two configurations print alike |
| Identities.ItemMessageIdsEqualExactlyWhen | crates/mirrorlane-github/src/model.rs:64-93 | Exactly when two GitHub items print one message id |
| Identities.ItemMessageIdDecodes | crates/mirrorlane-github/src/model.rs:64-93 | A GitHub message id is shared if and only if repository, kind and item id are, for owners without a slash and names without a colon |
| Identities.ItemConversationIdsEqualExactlyWhen | crates/mirrorlane-github/src/model.rs:64-93 | Exactly when two GitHub items share a conversation |
| Identities.ItemConversationIdDecodes | crates/mirrorlane-github/src/model.rs:64-93 | For owners without a slash, a conversation id is shared if and only if repository and number are |
| Identities.ItemMessageIdsCollide | crates/mirrorlane-github/src/model.rs:64-93 | With a colon in the name two different items print one id |
| Identities.ItemMessageSays | crates/mirrorlane-github/src/model.rs:64-93 | What author, body, conversation and source each kind of item gets: a comment keeps its body, a titled issue or pull request is led by its title |
| Identities.PrintedForms | crates/mirrorlane-github/src/model.rs:64-93 | The printed message and conversation ids, part by part |
| Identities.PrintedVersions | crates/mirrorlane-llm/src/lib.rs:151-161 | The printed cache and derivation versions, part by part |
| Identities.DecimalReads | crates/mirrorlane-github/src/model.rs:75-78 | A printed number reads back, without a leading zero |
| Identities.IngestItems | crates/mirrorlane-github/src/source.rs:53-63 | Ingesting appends each mapped item in fetch order and returns the ids |
| Identities.ReingestLeavesOnePerItem | crates/mirrorlane-github/src/source.rs:53-63 | Ingesting any item list any number of times leaves exactly one message per distinct repository, kind and id if and only if no two different items of the list print one id, and fewer otherwise; with printable repositories none do |

## Left out

- SemanticCache.AtMostOneSuccess: sequential calls; `ConcurrentCache.AtMostOnceExactlyWhen` covers every interleaving.
- SkillLaws.OrderIndependence: over reals; rounding of doubles, and NaN confidences, are not modelled.
- DerivedOutput.ContentHashOf: the hash is its input stream; collisions of the real 64-bit hash are not modelled.
- Migration.MigrationSurvivesCrashes: one process at a time migrates a file.
- Commands.RunStrategy: a strategy other than the built-in ones is a function of the log.
- The broker's internals (leases, back-off, dead letters, Postgres and Redis adapters): only at-least-once delivery and unique enqueueing are modelled.
- HTTP clients, prompt text and JSON parsing of the Ollama, OpenAI and GitHub adapters: input and output.
- The SQLite engine, WAL settings, busy timeouts, vacuum and poisoned-lock recovery.
- JSON encoding of payload columns: taken as an exact round trip.
- Command-line parsing, configuration precedence, output formats, environment variables and the inspect command.
- The contents of the mock projector, the scope catalogue and the rendered warm-up summary: the ports stay uninterpreted.
- The rendered text of a routing decision's reason and of a draft's body: the model keeps their inputs.
- Commands run over the in-memory log; the SQLite log refines it, and the two are not composed into one program.
- The caching projector is composed with the in-memory cache; the table refines that cache while kinds stay apart.
- Concurrent attempts within one stage, async machinery and mutexes: interleaving is modelled between attempts, between SQL statements and between a cached call's check and its write.
- Job observers, metrics and logging.
