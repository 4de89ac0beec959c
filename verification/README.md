# Presales Hub: verified models of its protocols and algorithms

The Presales Hub moves client proposals through a review pipeline, watches how long
each stage takes, drafts proposal text with a language model behind a grounding gate,
and protects its endpoints with a login lockout, rotating refresh tokens, a rate
limiter, a circuit breaker and a retry queue. This project models those parts of
`apps/hub-api` in Dafny and proves what they keep over every run and every input.

`dafny verify dfyconfig.toml` checks everything.

## How the model is built

- Code that updates fields or tables is a class with those fields (`Hub.Store`,
  `CircuitBreaker.Breaker`, `RateLimit.LoginRateLimiter`, `Auth.AuthService`,
  `DeadLetter.DeadLetterQueue`, `SmeAssignment.Roster`). Each method is proved to do
  exactly what a step function says, and the theorems are about runs of that step
  function under arbitrary interleavings.
- A step function is not its own witness: what each operation answers and writes is also
  stated without it, field by field or as a property (`LifecycleAnswers`, `AuthAnswers`,
  and the lemmas named `...Describes`, `...Exactly` and `...Answer`).
- Loops that build results (`GroupRows`, `AddSteps`, `Summarise`, `SplitSections`,
  `ValidateGrounding`, `ExtractObject`, `DetectBottlenecks`, ...) are methods with
  invariants, proved against specification functions or directly against the property.
- A database table is a map from primary key to row; a request that fails before its
  commit, or whose insert hits a taken key, writes nothing. One logical clock is passed
  in. Floating-point numbers are reals. `sorted` and `list.sort` are a stable sort
  (`Sorting`), `dict.setdefault(k, []).append(v)` is `Groups`.
- Proposal tables are also read one proposal at a time: `Lifecycle.StepView` shows that
  the shared tables behave like independent per-proposal machines, and the history and
  review theorems are proved on those.

| file | subject |
|---|---|
| `Stages`, `Lifecycle`, `Hub`, `LifecycleAnswers` | stage graph, requests as steps on the tables, the handlers, what each answers and writes |
| `ReviewGate`, `StageHistory`, `LifecycleRuns`, `Winnability` | the review gate, the audit trail, safety over all runs, which proposals can still be won |
| `Sorting`, `Groups`, `Percentiles`, `Throughput`, `ThroughputLaws`, `ThroughputReport`, `ThroughputRefinement`, `ThroughputTies` | stage timing from the audit log |
| `Text`, `Sections`, `SectionKeys`, `SectionLookup`, `SectionRoundTrip`, `SectionReadBack`, `Grounding`, `DraftGraph` | section parser and printer, grounding gate, drafting graph |
| `CircuitBreaker`, `RateLimit`, `Auth`, `AuthAnswers`, `Lockout`, `RefreshRotation`, `DeadLetter` | protection protocols |
| `SmeAssignment`, `SmeRanker`, `Bottleneck`, `ApprovalAnomaly`, `ResponseEval`, `SlaBreach` | ranking, detection and scans |
| `Options`, `Cardinality`, `Reals` | shared helpers |

## Where the code differs from what it says, or from what one would expect

- The review gate counts records instead of asking for the three stages. It opens without
  the sign-offs exactly when it opens although a stage has two records (`GateTooEarly`, for
  instance on three records of one stage, `GateTrustsUniqueness`); `GateIsExact` shows that
  no run of these requests gets there.
- Sign-offs outlive a redraft: after `approval` a proposal may return to drafting, and it
  needs no new review (`SignOffsLast`).
- A review that is rejected or bypassed ends the proposal's chances for good, because
  there is no way to reopen it (`WinnableExactly`).
- The throughput analytics is right about a proposal in every order of arrival if and
  only if the times of its transitions strictly increase (`TruthfulExactly`). A stage
  loses a stay of no length in some order exactly when the proposal passed through it
  within one time and ended that time in another stage (`TieLosesExactly`, with a run in
  `TwoMovesAtOnce`).
- The grounding gate compares a rounded score, so it opens at 0.3495 and not at 0.35
  (`RoundedThreshold`).
- A draft that is emitted does not always read back as the same sections: it does if
  and only if no body line looks like a heading (`EmittedReadsBack`), and stripping a
  body can turn an indented heading into one (`IndentedHeadingLost`).
- A missing proposal does not stop a draft (`MissingProposalStillDrafts`): the fallback
  mode set for it is overwritten by the drafting node.
- A half-open circuit breaker whose probes all end in an `HTTPException` (or are
  cancelled) refuses every later call (`RecoverableExactly`), and every configuration
  can get there (`AbandonedProbesWedge`).
- A lockout only stops the next attempts: the counter starts again at one after it, so
  every fifth failure locks (`LockedExactly`).
- Logging out with an older token of a rotation chain leaves the newest one usable
  (`LogoutEndsChain`).
- `bottleneck.py` documents "two proposals and more than half the SLA"; the code reports
  a stage for either, or for a breach. They agree exactly when `Bottleneck.DocumentedExactly`
  says; one proposal (`OneProposalIsEnough`) or two fresh ones (`TwoProposalsAreEnough`) are
  reported against it. Under positive budgets the estimated delay is
  negative exactly when they are overrun on average (`DelayNegativeExactly`).
- `detect_sequential_self_approval` documents consecutive stages; the code flags any
  earlier decision of the same actor (`FlaggedExactly`). They agree exactly on the chains
  in which nobody decides again after somebody else did
  (`ApprovalAnomaly.DocumentedExactly`); actors a, b, a are the shortest exception
  (`ReturnIsFlagged`).

## Model

| member | source | states |
|---|---|---|
| Hub.Store.CreateOpportunity | apps/hub-api/routers/opportunities.py:170-190 | a new opportunity and its proposal start in intake; only those rows and the creation row are written |
| Hub.Store.TransitionProposal | apps/hub-api/routers/proposals.py:57-155 | the whole new state of the tables and the answer are those of the transition step: edge check, gate, lazily created review records, submitted_at, opportunity sync, audit row; a refusal writes nothing |
| Hub.Store.CheckMove | apps/hub-api/routers/proposals.py:67-87 | the answer is NotInitialized, Incomplete, InvalidTransition or Done exactly as the edge and gate specification says |
| Hub.Store.StageReviews | apps/hub-api/routers/proposals.py:91-107 | the loop adds one pending record per missing review stage and nothing for existing ones, or reports a taken key |
| Hub.Store.DecideApproval | apps/hub-api/routers/approvals.py:28-91 | the decision step: only pending or escalated records change, only by the assigned approver if both are known, and a denied attempt is logged |
| LifecycleAnswers.EdgesAre | apps/hub-api/models/proposal.py:15-30 | the edges are: one milestone forward, through legal review, back to drafting from a review or approval, and lost from three stages |
| LifecycleAnswers.TransitionAnswer | apps/hub-api/routers/proposals.py:62-87 | which of the answers NotFound, InvalidTransition, NotInitialized, Incomplete, KeyClash and Done a transition request gets, as conditions on the tables; without Done nothing is written |
| LifecycleAnswers.GateAnswers | apps/hub-api/routers/proposals.py:72-87 | the gate names exactly the review stages without a record if there are fewer than three, else exactly those with a record that is not approved, if any |
| LifecycleAnswers.MoveWrites | apps/hub-api/routers/proposals.py:109-135 | column by column what an accepted move writes to the proposal, its opportunity and the audit log, and that all else stays |
| LifecycleAnswers.ReviewsCreated | apps/hub-api/routers/proposals.py:91-107 | entering review adds exactly one pending record per review stage that had none, with the reviewer routed to and the due time of that stage, and changes no other record |
| LifecycleAnswers.ReviewsKept | apps/hub-api/routers/proposals.py:91-107 | every other transition leaves the approval records alone |
| LifecycleAnswers.DecisionAnswer | apps/hub-api/routers/approvals.py:31-61 | a decision is accepted iff its status is one of the four, the record exists and is open, and the actor is its approver or one of them is unknown; each other case has its own refusal |
| LifecycleAnswers.DecisionWrites | apps/hub-api/routers/approvals.py:43-81 | an accepted decision sets status, note and time of that record only and logs it; a wrong actor is logged; any other refusal writes nothing |
| LifecycleAnswers.OpenWrites | apps/hub-api/routers/opportunities.py:170-190 | column by column what a new opportunity writes |
| Lifecycle.StepView | apps/hub-api/routers/proposals.py:57-155 | a request changes exactly the share of the proposal it addresses, so the shared tables refine independent per-proposal machines |
| Lifecycle.LinkedStep | apps/hub-api/models/proposal.py:35-55 | every request keeps the tables linked: records belong to proposals and each opportunity to one proposal |
| Lifecycle.RunAppend | apps/hub-api/routers/proposals.py:57-155 | runs compose: handling more requests continues from the state the earlier ones left |
| ReviewGate.GateMeansSignedOff | apps/hub-api/routers/proposals.py:72-87 | with at most one record per stage, the count-and-status gate opens iff each of the three reviews has one approved record |
| ReviewGate.GateTooEarly | apps/hub-api/routers/proposals.py:72-87 | for any records, the gate opens without the three sign-offs iff it opens with two records of one review stage |
| ReviewGate.GateTrustsUniqueness | apps/hub-api/routers/proposals.py:73-81 | without uniqueness three approved records of a single stage open the gate |
| ReviewGate.ReviewsSoundStep | apps/hub-api/routers/proposals.py:91-107 | every step keeps at most one record per review stage and keeps records and stage in step |
| ReviewGate.FinalStaysFinal | apps/hub-api/routers/approvals.py:38-39 | an approved, rejected or bypassed record is never changed by any later run |
| LifecycleRuns.GateSafety | apps/hub-api/routers/proposals.py:72-107 | in every run, a proposal in finance review or later has exactly one record per parallel review, and it is approved |
| LifecycleRuns.GateIsExact | apps/hub-api/routers/proposals.py:72-87 | in every run the not-initialized answer never occurs in a review stage, and the gate opens iff all three are signed off |
| LifecycleRuns.SignOffsLast | apps/hub-api/routers/approvals.py:38-63 | once behind the gate, the three sign-offs hold after every further run, also back in drafting |
| LifecycleRuns.HistoryReplays | apps/hub-api/routers/proposals.py:109-135 | replaying the stage rows from intake gives the current stage, which is also the linked opportunity's stage |
| LifecycleRuns.WonTheLongWay | apps/hub-api/models/proposal.py:15-30 | every won proposal passed the nine milestones in order |
| LifecycleRuns.SubmissionOnce | apps/hub-api/routers/proposals.py:113-114 | submission is entered at most once, and submitted_at is the time of that entry, set iff it happened |
| LifecycleRuns.DecisionsAuthorized | apps/hub-api/routers/approvals.py:41-63 | in every run no review assigned to a known approver is decided by another known actor |
| Winnability.RefusalAbsorbs | apps/hub-api/routers/proposals.py:72-87 | from drafting or a review stage with a rejected or bypassed review, no run leaves those four stages |
| Winnability.WinnableExactly | apps/hub-api/routers/approvals.py:38-63 | after any history some run wins the proposal iff it is not lost and no parallel review was rejected or bypassed, and then one at any given time does |
| Percentiles.PercentileOrderIndependent | apps/hub-api/decision_engine/analytics/throughput.py:59-65 | permuting the values does not change the percentile |
| Percentiles.PercentileMonotone | apps/hub-api/decision_engine/analytics/throughput.py:63-65 | the percentile is monotone in its fraction, so p50 is at most p90 |
| Percentiles.PercentileBounds | apps/hub-api/decision_engine/analytics/throughput.py:59-65 | bounds on all values bound every percentile |
| Percentiles.PercentileExtremes | apps/hub-api/decision_engine/analytics/throughput.py:62-65 | fraction 0 is the minimum and fraction 1 the maximum |
| Percentiles.PercentileReflects | apps/hub-api/decision_engine/analytics/throughput.py:63-65 | mirroring the values at zero mirrors the percentile of the mirrored fraction, so the interpolation favours neither neighbour |
| Percentiles.PercentileMixes | apps/hub-api/decision_engine/analytics/throughput.py:62-65 | between two order statistics the percentile is their mixture in proportion to the distance |
| Sorting.SortStable | apps/hub-api/decision_engine/analytics/throughput.py:125-126 | sorting keeps the order of elements that tie |
| Groups.CollectPartitions | apps/hub-api/decision_engine/analytics/throughput.py:85-89 | grouping gives every key exactly its own values, in order of arrival, under distinct keys |
| Groups.CollectConserves | apps/hub-api/decision_engine/analytics/throughput.py:105 | totals over the groups equal totals over what was appended |
| Throughput.GroupRows | apps/hub-api/decision_engine/analytics/throughput.py:84-89 | the grouping loop computes the partition by proposal, skipping rows without one |
| Throughput.AddSteps | apps/hub-api/decision_engine/analytics/throughput.py:95-105 | the inner loop appends one sample per consecutive pair of the sorted rows that names a stage |
| Throughput.Summarise | apps/hub-api/decision_engine/analytics/throughput.py:107-123 | one summary per stage in order of first use |
| Throughput.ComputeThroughput | apps/hub-api/decision_engine/analytics/throughput.py:68-136 | the report is the specified one for the collected durations |
| ThroughputLaws.StepsTelescope | apps/hub-api/decision_engine/analytics/throughput.py:96-105 | one proposal's samples number its rows minus one and add up to last minus first time |
| ThroughputLaws.ThroughputConserves | apps/hub-api/decision_engine/analytics/throughput.py:84-130 | counts add up to rows minus one per proposal, count times average to the total cycle time, and the overall average is their quotient |
| ThroughputLaws.ReportLayout | apps/hub-api/decision_engine/analytics/throughput.py:107-126 | exactly one entry per measured stage, computed from that stage's samples, in descending order of average |
| ThroughputLaws.BottleneckIsSlowest | apps/hub-api/decision_engine/analytics/throughput.py:128 | the top bottleneck has the greatest average, and is absent iff nothing was measured |
| ThroughputReport.EntryDescribes | apps/hub-api/decision_engine/analytics/throughput.py:107-123 | each entry has the count, average, 50th and 90th percentile (in this order), budget, share of samples over a non-zero budget and first three proposals of its stage |
| ThroughputReport.EntriesDescend | apps/hub-api/decision_engine/analytics/throughput.py:125-126 | entries come in descending order of their averages |
| ThroughputReport.OverallDescribes | apps/hub-api/decision_engine/analytics/throughput.py:128-130 | over any rows the counts are those of all samples and the overall figure is their average, 0 without samples |
| ThroughputReport.PairCharges | apps/hub-api/decision_engine/analytics/throughput.py:96-105 | a pair of rows charges the stage entered, else the stage left, else none, with the hours in between and never less than 0 |
| ThroughputRefinement.ObservedStays | apps/hub-api/routers/proposals.py:127-135 | the stays an observer of the stage column times are the gaps between the audit rows |
| ThroughputRefinement.AnalyticsRefinesReality | apps/hub-api/decision_engine/analytics/throughput.py:84-105 | for any run and any order of the rows, each stage's samples are, as a multiset, the true dwell times of every proposal with strictly increasing times |
| ThroughputTies.TruthfulExactly | apps/hub-api/decision_engine/analytics/throughput.py:84-105 | the samples of a proposal are its real stays in every order of arrival iff the times of its transitions strictly increase |
| ThroughputTies.LogOrderExactly | apps/hub-api/decision_engine/analytics/throughput.py:95-105 | in the order of the log they are iff the times never decrease |
| ThroughputTies.TieLosesExactly | apps/hub-api/decision_engine/analytics/throughput.py:95-105 | if the log's times never decrease, some order of arrival lists fewer zero-length stays of a stage than there were iff the proposal entered the stage at a time whose last move leads elsewhere |
| ThroughputTies.TieMisattributed | apps/hub-api/decision_engine/analytics/throughput.py:95 | for such a move and the last move of its time, the order that exchanges the two lists exactly one zero-length stay of that stage too few |
| ThroughputTies.TwoMovesAtOnce | apps/hub-api/decision_engine/analytics/throughput.py:95-103 | a run of two transitions in one microsecond whose stay in qualification is not listed at all in some order |
| Text.StripTrims | apps/hub-api/copilot_engine/graphs/draft_graph.py:76-81 | stripping gives a trimmed text, empty iff the input is blank |
| Text.NormKeyCanonical | apps/hub-api/copilot_engine/graphs/draft_graph.py:88 | every heading normalises to a canonical key |
| Text.CanonicalFixed | apps/hub-api/copilot_engine/graphs/draft_graph.py:88 | the fixed points of normalisation are exactly the canonical keys |
| Text.NormKeyIdempotent | apps/hub-api/copilot_engine/graphs/draft_graph.py:88 | normalising a key twice changes nothing |
| SectionKeys.StripKeeps | apps/hub-api/copilot_engine/graphs/draft_graph.py:76-81 | stripping takes away white space at both ends and nothing else |
| SectionKeys.KeyIsWords | apps/hub-api/copilot_engine/graphs/draft_graph.py:88 | a key is the words of the lower-case heading joined by single underscores, or `section` if there are none |
| SectionKeys.KeyCaseBlind | apps/hub-api/copilot_engine/graphs/draft_graph.py:88 | the case of letters makes no difference to the key |
| Sections.SplitSections | apps/hub-api/copilot_engine/graphs/draft_graph.py:75-93 | the loop computes the specified section map |
| Sections.SplitWellFormed | apps/hub-api/copilot_engine/graphs/draft_graph.py:75-93 | any text splits into distinct canonical keys with trimmed non-empty bodies, and into nothing iff it is blank |
| SectionLookup.PartsExactly | apps/hub-api/copilot_engine/graphs/draft_graph.py:78 | the parts joined by line breaks are the text, none holds a further heading line, and all but the first start with one |
| SectionLookup.SplitHeaded | apps/hub-api/copilot_engine/graphs/draft_graph.py:83-90 | the body of a key is that of its last heading with text below it |
| SectionLookup.SplitPreamble | apps/hub-api/copilot_engine/graphs/draft_graph.py:91-92 | text before the first heading is kept as the executive summary unless a heading of that name has text |
| SectionLookup.SplitRest | apps/hub-api/copilot_engine/graphs/draft_graph.py:76-93 | other keys are absent, and a text that yields no section becomes one executive summary |
| SectionLookup.OrderOfFirstUse | apps/hub-api/copilot_engine/graphs/draft_graph.py:79-92 | sections stay in the order in which their keys first appeared |
| SectionRoundTrip.RoundTrip | apps/hub-api/copilot_engine/graphs/draft_graph.py:362 | splitting the printed form of a map gives the same entries in the same order, if no body line reads as a heading |
| SectionReadBack.RoundTripExactly | apps/hub-api/copilot_engine/graphs/draft_graph.py:75-93 | a map is read back as printed iff it has distinct canonical keys, trimmed non-empty bodies and no body line that reads as a heading |
| SectionReadBack.EmittedReadsBack | apps/hub-api/copilot_engine/graphs/draft_graph.py:362 | the content emitted for any text reads back as the same sections iff no body line of the parsed text reads as a heading |
| SectionReadBack.HeadLineSplits | apps/hub-api/copilot_engine/graphs/draft_graph.py:78 | a heading at the top of a body becomes a section of its own and the outer section is lost |
| SectionReadBack.IndentedHeadingLost | apps/hub-api/copilot_engine/graphs/draft_graph.py:81-92 | a text with an indented heading parses into one section and reads back as another |
| Grounding.ValidateGrounding | apps/hub-api/copilot_engine/grounding/validator.py:55-97 | the report is the specified one: overlap, flags of all matching patterns, warnings, rounded score |
| Grounding.ReportDescribes | apps/hub-api/copilot_engine/grounding/validator.py:60-97 | overlap is the share of the words found in the context, each warning has its condition, and the score is the tenths earned (3 for citations, 7 for overlap, less 1 per flag, at least 0) rounded |
| Grounding.FlagsDescribe | apps/hub-api/copilot_engine/grounding/validator.py:72-75 | the flags are the messages of exactly the matching patterns, in order |
| Grounding.RoundsToNearest | apps/hub-api/copilot_engine/grounding/validator.py:92 | rounding gives the nearest thousandth, the even one in the middle |
| Grounding.RoundedThreshold | apps/hub-api/copilot_engine/grounding/validator.py:92 | the rounded score reaches 0.35 iff the exact score reaches 0.3495 |
| Grounding.GroundedExactly | apps/hub-api/copilot_engine/grounding/validator.py:100-113 | the gate passes iff there is context, no fabrication flag and enough shared words, as an inequality between word counts |
| Grounding.GroundedNotBlank | apps/hub-api/copilot_engine/grounding/validator.py:62-90 | text that passes is not blank and shares a word with the context |
| DraftGraph.RunDraftGraph | apps/hub-api/copilot_engine/graphs/draft_graph.py:243-335 | every run ends, with at most one repair and two model calls; mode, sections and counters are decided by the first reply that passes the gate, else the template; the emitted map is never empty |
| DraftGraph.DraftEnds | apps/hub-api/copilot_engine/graphs/draft_graph.py:182-335 | in terms of the replies alone: which mode, sections and counters a run ends with, and when the provider exception ends it |
| DraftGraph.ContextIs | apps/hub-api/copilot_engine/graphs/draft_graph.py:147-180 | the chunks are the expanded ones, else those of the business unit, else those of any unit |
| DraftGraph.TemplateSays | apps/hub-api/copilot_engine/graphs/draft_graph.py:96-116 | what the template holds with and without chunks: keys, fixed sentences, brief, and the excerpts of the first six chunks cut at 800, 1500 and 3500 characters |
| DraftGraph.ValidateStep | apps/hub-api/copilot_engine/graphs/draft_graph.py:243-266 | the validator sees the last reply, and the routing after it goes to the node the run invariant allows |
| DraftGraph.EmittedDraftIsGrounded | apps/hub-api/copilot_engine/graphs/draft_graph.py:252-266 | emitted sections outside fallback mode are the split of the last reply, and that reply had context, no flag, a score at or above the minimum and shared words |
| DraftGraph.MissingProposalStillDrafts | apps/hub-api/copilot_engine/graphs/draft_graph.py:133-140 | with a missing proposal a run ends in template mode iff there is no provider or both replies fail the gate, and otherwise just as with the proposal found |
| CircuitBreaker.Breaker.CheckState | apps/hub-api/core/circuit_breaker.py:69-88 | new fields and answer of the locked admission step |
| CircuitBreaker.Breaker.OnSuccess | apps/hub-api/core/circuit_breaker.py:55-59 | a success closes the breaker and clears both counters |
| CircuitBreaker.Breaker.OnFailure | apps/hub-api/core/circuit_breaker.py:61-67 | a failure is counted and timed, and opens the breaker at the threshold |
| CircuitBreaker.BreakerFaithful | apps/hub-api/core/circuit_breaker.py:55-100 | under every interleaving: closed iff failures are below the threshold, failures count those since the last success, and the quota counts and bounds the admissions since the switch |
| CircuitBreaker.RefusedExactly | apps/hub-api/core/circuit_breaker.py:69-88 | over every run a call is refused iff the failures have reached the threshold and the test phase is out of probes, or no test phase is due or possible; below the threshold every call is admitted |
| CircuitBreaker.OutageProbesSpaced | apps/hub-api/core/circuit_breaker.py:69-88 | without a success in between, two switches to half-open are at least a recovery time apart |
| CircuitBreaker.RecoverableExactly | apps/hub-api/core/circuit_breaker.py:90-100 | some continuation closes the breaker iff a call is in flight, the breaker is closed, or a probe can still be admitted |
| CircuitBreaker.WedgedForever | apps/hub-api/core/circuit_breaker.py:82-88 | otherwise every run leaves it so and every call is refused |
| CircuitBreaker.AbandonedProbesWedge | apps/hub-api/core/circuit_breaker.py:96-97 | under every configuration a trip followed by as many probes ending in an HTTPException as the quota allows wedges the breaker |
| CircuitBreaker.NeverWedgedUnlessAbandoned | apps/hub-api/core/circuit_breaker.py:90-100 | if every admitted call ends in success or a counted failure, the breaker is never wedged |
| RateLimit.LoginRateLimiter.Call | apps/hub-api/middleware/rate_limit.py:29-42 | prune, then refuse or record, for this key only |
| RateLimit.WindowBound | apps/hub-api/middleware/rate_limit.py:29-42 | no window of the given length holds more accepted calls of a key than the limit |
| RateLimit.RefusedExactly | apps/hub-api/middleware/rate_limit.py:36-42 | a call is refused iff the full accepted history fills the limit in the window that ends now |
| RateLimit.KeysIndependent | apps/hub-api/middleware/rate_limit.py:27-42 | each key is answered as if the other keys' requests did not exist |
| RateLimit.RunSound | apps/hub-api/middleware/rate_limit.py:35-42 | the pruned list stands for the full history at every later time |
| Auth.AuthService.LoginUser | apps/hub-api/routers/auth.py:75-120 | the login step: lockout check, reset after expiry, failure counter, token row; nothing is written on a disabled account |
| Auth.AuthService.RefreshToken | apps/hub-api/routers/auth.py:129-167 | the rotation step with its four refusals |
| Auth.AuthService.LogoutUser | apps/hub-api/routers/auth.py:176-190 | the presented live token is revoked, anything else is left alone |
| AuthAnswers.LoginAnswer | apps/hub-api/routers/auth.py:75-105 | which answer a login gets, by lock, password, account and token hash |
| AuthAnswers.LoginWrites | apps/hub-api/routers/auth.py:86-117 | column by column what a failed and a successful login write; other attempts write nothing |
| AuthAnswers.RefreshAnswer | apps/hub-api/routers/auth.py:129-147 | a refresh succeeds iff the token is known, live and unexpired and its user active, and the new hash free; each other case has its refusal |
| AuthAnswers.RefreshWrites | apps/hub-api/routers/auth.py:149-161 | the presented token is revoked and a live one of the same user with a full lifetime is added; a refusal writes nothing |
| AuthAnswers.LogoutWrites | apps/hub-api/routers/auth.py:176-190 | logout leaves the presented token revoked and changes nothing else |
| Lockout.LockoutBound | apps/hub-api/routers/auth.py:77-102 | since the last successful login at most 5 failed verifications in any half-open 15-minute window, and the account is locked iff its counter has reached 5 |
| Lockout.LockedExactly | apps/hub-api/routers/auth.py:78-96 | after any run an attempt is turned away iff the failures since the last success are a multiple of five and the latest is less than 15 minutes old, whatever the password |
| Lockout.AnswersInRun | apps/hub-api/routers/auth.py:75-120 | over every run an attempt that is not turned away is answered by password, then account, then token |
| RefreshRotation.SingleUse | apps/hub-api/routers/auth.py:132-161 | in every run each token is refreshed successfully at most once and issued by at most one refresh |
| RefreshRotation.RevocationPermanent | apps/hub-api/routers/auth.py:150 | a revoked token stays as it is and never takes part in a refresh again |
| RefreshRotation.LoginAddsOne | apps/hub-api/routers/auth.py:107-117 | a login raises its user's live tokens by one and nobody else's |
| RefreshRotation.RefreshKeepsCount | apps/hub-api/routers/auth.py:149-161 | a refresh keeps every user's number of live tokens and hands the new one to the same user |
| RefreshRotation.LogoutDropsOne | apps/hub-api/routers/auth.py:176-186 | a logout removes at most the one live token presented |
| RefreshRotation.OlderTokensRevoked | apps/hub-api/routers/auth.py:149-161 | only the newest token of a rotation chain can be live |
| RefreshRotation.LogoutEndsChain | apps/hub-api/routers/auth.py:176-186 | a logout kills the chain of a live token iff it presents that newest token |
| RefreshRotation.DeadChainStaysDead | apps/hub-api/routers/auth.py:132-140 | no token of a dead chain refreshes in any later run |
| DeadLetter.DeadLetterQueue.PersistFailedEvent | apps/hub-api/events/dead_letter.py:46-52 | a new event is due one minute after it is stored |
| DeadLetter.DeadLetterQueue.RetryPendingEvents | apps/hub-api/events/dead_letter.py:63-104 | the batch updates exactly the selected events, and the count returned is the number newly resolved, at most 50 |
| DeadLetter.AttemptsBounded | apps/hub-api/events/dead_letter.py:72-101 | over any run an event is attempted at most five times, never after delivery, the k-th time no earlier than creation plus the first k backoffs; it is resolved iff its last attempt delivered |
| DeadLetter.DueExactly | apps/hub-api/events/dead_letter.py:72-101 | over any run a batch may pick an event iff it was stored, is undelivered, had fewer than five attempts, and 1 minute since storing or 5, 15, 60 or 240 minutes since its last attempt have passed |
| DeadLetter.BackoffSchedule | apps/hub-api/events/dead_letter.py:18-19 | the backoffs add up to 1, 6, 21, 81 and 321 minutes and the table is indexed in range |
| SmeAssignment.Roster.AssignSme | apps/hub-api/routers/proposals.py:158-239 | the assignment step on the stakeholders' workloads |
| SmeAssignment.AssignMeaning | apps/hub-api/routers/proposals.py:180-214 | a success goes to the first best-scoring stakeholder below the limit and adds one to that workload only; each refusal has its reason and changes nothing |
| SmeAssignment.AssignAnswer | apps/hub-api/routers/proposals.py:162-201 | which answer a request gets: proposal, rules or skills, and somebody in one of the three roles below the limit |
| SmeAssignment.ScoresCompare | apps/hub-api/routers/proposals.py:183-188 | one more covered skill is worth five pieces of work |
| SmeAssignment.TopIsFirstBest | apps/hub-api/routers/proposals.py:194-201 | the head of the ranking is the first of the best available, and exists iff somebody is available |
| SmeAssignment.CapacityExactly | apps/hub-api/routers/proposals.py:194-214 | over any run exactly the smaller of acceptable requests and initial free places succeed |
| SmeAssignment.NeverOverloaded | apps/hub-api/routers/proposals.py:194-214 | no run pushes a workload above 4 or lowers one |
| SmeRanker.RankSmeCandidates | apps/hub-api/decision_engine/recommendations/sme_ranker.py:94-143 | the result is a permutation of the scored candidates in descending order of composite score, ties in the order given |
| SmeRanker.RankDescribes | apps/hub-api/decision_engine/recommendations/sme_ranker.py:65-137 | every column of a ranking: share of matching tags, free quarters of capacity, success or one half, their 45/30/25 mix, matching and missing tags |
| SmeRanker.CompositeInUnit | apps/hub-api/decision_engine/recommendations/sme_ranker.py:65-76 | composite scores lie between 0 and 1 for non-negative workloads and rates between 0 and 1 |
| SmeRanker.ExtraTag | apps/hub-api/decision_engine/recommendations/sme_ranker.py:107-116 | a missing required tag strictly raises a candidate's score, an unrequired one never does and lowers it if there was a match |
| Bottleneck.DetectBottlenecks | apps/hub-api/decision_engine/predictors/bottleneck.py:73-128 | the loops and the sort compute the specified list |
| Bottleneck.ReportedExactly | apps/hub-api/decision_engine/predictors/bottleneck.py:82-123 | exactly the non-terminal stages with two proposals, an average ratio of 0.5 or a breach are reported, once each, with that stage's data |
| Bottleneck.EntryDescribes | apps/hub-api/decision_engine/predictors/bottleneck.py:65-109 | the proposals, average ratio, severity and reasons of an entry, each by its condition on the snapshots |
| Bottleneck.DelayDescribes | apps/hub-api/decision_engine/predictors/bottleneck.py:111-113 | the delay is the average budget times the share left times half plus a tenth per proposal |
| Bottleneck.UrgencyOrder | apps/hub-api/decision_engine/predictors/bottleneck.py:125-128 | entries come by severity, then by descending count, and none is of low severity |
| Bottleneck.UrgentFirst | apps/hub-api/decision_engine/predictors/bottleneck.py:125-128 | no entry of medium severity comes before one of high severity, nor a shorter queue before a longer one of the same severity |
| Bottleneck.DetectedStable | apps/hub-api/decision_engine/predictors/bottleneck.py:125-128 | entries of equal rank stay in the order of first use |
| Bottleneck.DocumentedExactly | apps/hub-api/decision_engine/predictors/bottleneck.py:6-8 | for every input and stage, the code reports it as documented (two proposals and more than half the budget) iff it is terminal, or has two proposals past half, or one that is neither at half nor breached, or none |
| Bottleneck.OneProposalIsEnough | apps/hub-api/decision_engine/predictors/bottleneck.py:6-8 | a proposal alone in its stage is reported iff the stage is open and half the budget is gone or it is past it, against the documentation |
| Bottleneck.TwoProposalsAreEnough | apps/hub-api/decision_engine/predictors/bottleneck.py:6-8 | two proposals in an open stage are reported however little of their budgets is gone, against the documentation |
| Bottleneck.DelayNegativeExactly | apps/hub-api/decision_engine/predictors/bottleneck.py:111-113 | the delay of a reported stage is negative iff its budgets are positive in total and overrun on average, or negative in total and not used up |
| Bottleneck.DelayCanBeNegative | apps/hub-api/decision_engine/predictors/bottleneck.py:111-113 | every proposal alone in an open stage and past a positive budget is reported with a negative delay |
| ApprovalAnomaly.DetectSequentialSelfApproval | apps/hub-api/decision_engine/anomaly_detection/approval_anomaly.py:99-133 | the loop computes the specified flags |
| ApprovalAnomaly.PreviousIsLatest | apps/hub-api/decision_engine/anomaly_detection/approval_anomaly.py:118-131 | the remembered stage is that of the actor's latest earlier decision |
| ApprovalAnomaly.FlaggedExactly | apps/hub-api/decision_engine/anomaly_detection/approval_anomaly.py:110-131 | a record is flagged iff it is a decision whose actor decided an earlier one |
| ApprovalAnomaly.FlaggedInOrder | apps/hub-api/decision_engine/anomaly_detection/approval_anomaly.py:116-128 | each flagged record has one flag, in order, naming the record, its actor and stage and the stage of that actor's latest earlier decision |
| ApprovalAnomaly.DocumentedExactly | apps/hub-api/decision_engine/anomaly_detection/approval_anomaly.py:99-131 | the flags are the decisions that directly follow one of the same actor, as documented, iff nobody decides again after somebody else did |
| ApprovalAnomaly.ReturnIsFlagged | apps/hub-api/decision_engine/anomaly_detection/approval_anomaly.py:118-131 | an actor who decides, is followed by another, and decides again is flagged though not consecutive |
| ApprovalAnomaly.FlagCount | apps/hub-api/decision_engine/anomaly_detection/approval_anomaly.py:107-133 | the number of flags is decisions with an actor minus distinct actors |
| ResponseEval.ExtractObject | apps/hub-api/copilot_engine/evaluators/response_eval.py:93-105 | the scan returns the shortest brace-balanced block from the first brace, and the empty string iff there is none |
| SlaBreach.PredictBreach | apps/hub-api/decision_engine/predictors/sla_breach.py:64-147 | probability and risk level follow the model, the hours left are the unused budget, and each factor is listed once exactly under its condition |
| SlaBreach.HoursIs | apps/hub-api/decision_engine/predictors/sla_breach.py:84-85 | elapsed seconds are turned into hours, 0 for a stage entered in the future |
| SlaBreach.RiskMarks | apps/hub-api/decision_engine/predictors/sla_breach.py:54-61 | the risk level counts the marks 0.2, 0.5 and 0.8 reached |
| SlaBreach.UsedShare | apps/hub-api/decision_engine/predictors/sla_breach.py:87-108 | by itself the used share of the budget gives its square |
| SlaBreach.PenaltiesAdd | apps/hub-api/decision_engine/predictors/sla_breach.py:109-113 | pending approvals add 0.12 each up to 0.3 and workload 0.05 each up to 0.2, up to certainty |
| SlaBreach.BreachMonotone | apps/hub-api/decision_engine/predictors/sla_breach.py:84-113 | the probability lies in [0,1] and it and the risk level are monotone in elapsed time, pending approvals and workload, across the breach |
| SlaBreach.CertainAtTheLimit | apps/hub-api/decision_engine/predictors/sla_breach.py:94-113 | from the end of the budget on the probability is 1 |

## Left out

- HTTP routing, permission checks, sessions, event publishing, metrics, tracing, activity-feed rows and the Temporal signal in `decide`: they do not change the modelled tables; `decide` commits before it signals.
- Temporal activities that write stages and approvals without the gate (`temporal/activities/proposal.py`), seed data and direct database edits: runs consist of the modelled requests only.
- The text of error messages, and the order and repetition of stage names in them; missing and incomplete reviews are reported as sets.
- Request texts outside the enumerations: any decision status that is not one of the four is represented by `Pending`, any unknown stage by `Unlisted`.
- Reviewer lookup and SLA tables: parameters of a transition request.
- Fenced JSON blocks in `_extract_json` and the rest of `evaluate_response`: regular-expression matching and a bounded sum.
- Regular expressions of the grounding validator, `lower()`/`strip()` of SME tags, password hashing and token hashing: parameters or identities. For the section parser `lower()` is exact only as far as the key pattern can see.
- Prompt texts, the retriever and the scrubber: the drafting graph gets their results as inputs; `run_section_draft_graph` only picks one section of the result.
- Token counts and latency in the draft state: sums of provider numbers that nothing reads.
- Floating-point rounding, including how a float reads the literal 0.3495; `timedelta` resolution.
- A failed commit after a retry batch has published: the broker would then see an event more often than `AttemptsBounded` says, because the counter is lost.
- Retry batches that overlap in time: `retry_pending_events` locks no rows, so two batches that select the same event could attempt it more often than `AttemptsBounded` says; batches are atomic steps here.
- Concurrent requests on the same user or proposal inside one database transaction: requests are atomic steps.
- Ranking explanations, report timestamps and the `to_dict` roundings: presentation.
- `detect_fast_approval`, `detect_bypass`, `detect_rejection_pattern`, health score, deal risk, quotas, feature flags: single-branch logic.
