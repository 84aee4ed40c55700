# Verified models of the governed-session runtime

This project models the parts of the AgentOps runtime in which state moves
through protocols, and proves what every run of them keeps. Everything is stated
for all inputs, all runs of requests and all interleavings; `dafny verify
dfyconfig.toml` checks it.

| file | what it models |
|---|---|
| `SessionModel.dfy` | one request on the stored task, session, workers, approval checkpoints, tool actions and session event feed, as a function from store to store |
| `SessionRuntime.dfy` | the same handlers as methods of a class that rewrites the records and appends to the feed, each proved equal to that function |
| `SessionInvariants.dfy` | invariants of every reachable store; how a terminal session can come back; checkpoints decided once |
| `SessionReplay.dfy` | replaying a feed's status events against the stored status |
| `SessionProposals.dfy` | tool proposals: when a decision is final and what later calls answer |
| `SessionActions.dfy` | the tool actions of approved proposals over any run, and when another proposal's approval replaces one |
| `ProposalIds.dfy` | sanitised proposal IDs, and which proposals share an action ID |
| `SessionWitnesses.dfy` | reachable stores in which an expected property fails, built request by request |
| `EventFeed.dfy` | reading a feed (filter in place, merge, stable sort, limit) and following it by polling |
| `LegacyStream.dfy` | following a session that names a legacy run, whose projected events share the feed's sequence numbers |
| `FollowLoop.dfy` | the VS Code panel's follow loops, generations and timers under every interleaving |
| `PanelLoads.dfy` | the same panel with its loads and submissions, which a dispose leaves suspended |
| `PolicyMatrix.dfy` | scoped authorization, selector lists and the compilation of the policy matrix |
| `RunApproval.dfy` | the older approval of runs, decided by a classifier over the run and the clock, and run lists by permission |
| `AgentProfiles.dfy` | the indexed merge of agent profile overrides |
| `ProviderStatus.dfy` | an extension provider's status over a sequence of probes |
| `SectionParser.dfy` | the lock file section parser |
| `AuditBuffer.dfy` | the bounded audit buffer and its query |
| `RefResolver.dfy` | the cached resolver of scoped references |
| `Text.dfy` | trimming, ASCII case and string order |

Functions of an input are functions here; handlers and objects that change their
fields are classes; loops are loops. Each method is proved equal to a function,
and the results are lemmas about those functions.

## What the proofs found

These are places where the code does not do what a reader would expect. Each is
stated with the exact condition under which the expected property holds; for the
protocols of a session there is also a reachable store in which it fails.

- **Proposal decisions read the first 1000 events only.** A decision looks for the
  proposal's earlier decision in the oldest page of the feed. An applied decision
  is final exactly when its own event still falls inside that page
  (`SessionProposals.DecisionIsFinalExactly`); past it, the same proposal can be
  decided again and again (`SessionWitnesses.SomeDecisionIsForgotten`). A proposal
  that a full page does not show can never be decided (`SessionProposals.UnseenForever`).
- **A worker can forge a status event.** The worker-event endpoint accepts any event
  type, so a caller can label an event `session.status.changed`. The feed then no
  longer replays to the stored status, unless the event reports the session's own
  status as both old and new (`SessionReplay.HandleKeepsSyncExactly`,
  `SessionWitnesses.SomeRunForges`). A forged `tool_proposal.decided` is harmless: its
  proposal ID is not where the reader looks (`SessionProposals.HandleKeepsSettledExactly`).
- **An APPROVE reopens a terminal session**, keeping its completion time. For sessions
  made by session creation nothing else does, so from any time on a terminal session
  can come back without a new checkpoint exactly while one of its checkpoints is
  PENDING and not past its expiry
  (`SessionInvariants.ReopensExactlyWithLiveCheckpoint`,
  `SessionWitnesses.SomeClosedSessionCanReopen`).
- **A session can stop waiting while an approval is still pending.** An applied decision
  on one checkpoint, a worker's end, an approved tool proposal or a close takes it out
  of AWAITING_APPROVAL (`SessionInvariants.LeavesApprovalExactly`); a checkpoint is
  pending afterwards exactly when one was before, other than the one decided
  (`SessionInvariants.PendingSurvivesExactly`, `SessionWitnesses.SomeSessionStopsWaiting`).
- **Approving one proposal can erase another's tool action.** The action's ID is built
  from the words of the proposal's ID, so IDs with the same words, whatever their case
  and punctuation, share it (`ProposalIds.SharedActionExactly`). An approved proposal's
  action is kept exactly while no such other proposal is approved
  (`SessionActions.ActionKeptExactly`, `SessionWitnesses.ReplacedProposalHasNoAction`).
- **A session's own worker can be unable to report.** Workers are looked up among the
  first 100, so an admitted event is answered as from an unknown worker exactly when
  no worker with its ID is among them (`SessionInvariants.WorkerNotFoundExactly`), and
  for an attached worker past them that is for good
  (`SessionInvariants.LateWorkerNeverReports`,
  `SessionWitnesses.SomeSelectedWorkerNeverReports`).
- **A close and a worker's report log different events for a blocked session**:
  `session.failed` and `session.blocked`. For every other terminal status they log the
  same (`SessionInvariants.TerminalEventsAgreeExactly`).
- **Compiling a policy rule can widen it**: a list holding only blanks selects nothing
  before and everything after, and a blank effect becomes an allow
  (`PolicyMatrix.CompilingPreservesExactly`, `PolicyMatrix.LoneRuleKeepsVerdictsExactly`).
- **A closed panel can start following.** A dispose stops the follow loops but not a load
  or submission that is still suspended, which starts them again once it is shown. So a
  closed panel can come to follow again exactly when one was suspended at the dispose
  (`PanelLoads.DisposedFollowsAgainExactly`), and it does when the load finds an open
  session (`PanelLoads.RestartsExactly`); where the editor refuses to show anything on a
  closed panel, it never does (`PanelLoads.UnshownStaysQuiet`).
- **The first allow rule can refuse** what an empty matrix grants to everyone: it grants
  exactly what it allows (`PolicyMatrix.FirstAllowMayRefuse`).
- **A profile override without a label or scope resets them** to the ID and
  `project`, although other blank fields keep the base's
  (`AgentProfiles.OverlayResetsLabelAndScope`).
- **A legacy run can hide a stored event for good.** Its two projected events have the
  sequence numbers 1 and 2, like the first two stored ones, and move the cursor on. A
  client that reads a new session from the start, at the default limit, is never sent
  the second event that is stored (`LegacyStream.DefaultReadSkipsTheNext`). No stored
  event can be skipped exactly when the stream starts at 2 or beyond
  (`LegacyStream.SkipsNothingExactly`), and no event past the second ever is
  (`LegacyStream.NothingLaterIsLost`).
- **The reference cache trusts a modification time read before the content.** It answers
  as a fresh read would exactly while a file that comes back to a modification time
  holds what it held in between (`RefResolver.ResolveIsFresh`,
  `RefResolver.UnsteadyFileMisleads`); that times are never reused for other content
  is enough only when no rewrite falls inside a call.
- **The expiry shown for a run need not bind.** The approval listing shows 900 seconds
  from the creation for a run stored without an expiry, but such a run never lapses
  (`RunApproval.NoExpiryNeverLapses`): an undecided run is refused past the shown
  expiry exactly when one is stored (`RunApproval.ShownExpiryHoldsExactly`).

## Model

| member | source | states |
|---|---|---|
| SessionRuntime.FindSessionWorker | internal/runtime/api_v1alpha2.go:1536-1560 | the search over a session's listed workers returns the first with the ID among the first 100 by creation, and none exactly when none of those has it |
| SessionRuntime.FindSessionToolProposal | internal/runtime/api_v1alpha2.go:3605-3674 | the loop over the events equals the fold that later lemmas reason about: what the feed's first page says of one proposal |
| SessionRuntime.Runtime.HandleCreateTask | internal/runtime/api_v1alpha2.go:550-604 | the handler moves the whole store as the step function says, and answers as it says |
| SessionRuntime.Runtime.HandleCreateSession | internal/runtime/api_v1alpha2.go:662-741 | the same for session creation: row, first event, task in progress and latest-session mark, and the refusal of a legacy run of another scope |
| SessionRuntime.Runtime.HandleCreateCheckpoint | internal/runtime/api_v1alpha2.go:950-1082 | the same for checkpoint creation, with the default and maximal lifetime and the terminal guard |
| SessionRuntime.Runtime.HandleApprovalDecision | internal/runtime/api_v1alpha2.go:1118-1336 | the same for a checkpoint decision: expiry, repeat, conflict, and the applied decision on checkpoint, session, task and feed |
| SessionRuntime.Runtime.HandleAttachSessionWorker | internal/runtime/api_v1alpha2.go:1338-1457 | the same for attaching a worker |
| SessionRuntime.Runtime.HandleWorkerEvent | internal/runtime/api_v1alpha2.go:1503-1684 | the same for a worker event: the caller's event, the worker's status, the session move and its terminal event |
| SessionRuntime.Runtime.HandleToolProposalDecision | internal/runtime/api_v1alpha2.go:1686-1898 | the same for a proposal decision, with the promoted action, the session's start and what execution leaves |
| SessionRuntime.Runtime.HandleCreateToolAction | internal/runtime/api_v1alpha2.go:2657-2794 | the same for a tool action |
| SessionRuntime.Runtime.HandleCloseSession | internal/runtime/api_v1alpha2.go:3098-3189 | the same for a close |
| SessionRuntime.Runtime.MoveSession | internal/runtime/managed_worker_resume.go:496-529 | a move to a live status clears the completion time, puts the task in progress, marks the latest session and logs the change |
| SessionInvariants.HandleKeepsRow | internal/runtime/api_v1alpha2.go:1044-1247 | every handler keeps a session's record sound: AWAITING_APPROVAL has an undecided checkpoint, READY names a worker of the session, a terminal status has its completion time, a checkpoint is reviewed exactly when decided |
| SessionInvariants.StepKeepsSound | internal/runtime/api_v1alpha2.go:550-3189 | any request keeps every record and the links between tasks and sessions sound |
| SessionInvariants.ReachableIsSound | internal/runtime/api_v1alpha2.go:550-3189 | soundness and the task rule hold after every run of requests |
| SessionInvariants.RunsFromEmptyAreSound | internal/runtime/api_v1alpha2.go:550-3189 | hence in every store reachable from the empty one |
| SessionInvariants.StepKeepsTasks | internal/runtime/api_v1alpha2.go:2625-2640 | a task with one session carries the status that session's status stands for, after every request, though checkpoint creation, attaching and tool actions never write the task |
| SessionInvariants.TerminalReopensExactlyOnApproval | internal/runtime/api_v1alpha2.go:1200-1247 | on a terminal session, a request makes the status non-terminal if and only if it is an applied APPROVE of a PENDING checkpoint |
| SessionInvariants.ClosedStaysClosed | internal/runtime/api_v1alpha2.go:3444-3451 | a terminal session without a PENDING checkpoint stays terminal over every run that creates no checkpoint on it |
| SessionInvariants.ClosedFromStaysClosed | internal/runtime/api_v1alpha2.go:1180-1247 | a terminal session whose PENDING checkpoints have all expired by a time stays terminal over every run of requests from that time on that creates no checkpoint on it |
| SessionInvariants.ReopensExactlyWithLiveCheckpoint | internal/runtime/api_v1alpha2.go:1180-1247 | for every time, some run of requests from that time on without a new checkpoint makes a terminal session live again if and only if a checkpoint of it is PENDING and not past its expiry at that time |
| SessionInvariants.ResolvedForever | internal/runtime/api_v1alpha2.go:1180-1227 | an approved, denied or expired checkpoint keeps its record over every run, and no decision on it is applied |
| SessionInvariants.CheckpointDecidedOnce | internal/runtime/api_v1alpha2.go:1180-1227 | over any run, at most one decision on a checkpoint is applied |
| SessionInvariants.CheckpointLivesExactly | internal/runtime/api_v1alpha2.go:986-1032 | over any run, with any refused, incomplete or disallowed attempts in it, a new checkpoint's first complete decision is applied if and only if it comes within the lifetime asked for (900 seconds by default) |
| SessionInvariants.UndecidedCheckpointStays | internal/runtime/api_v1alpha2.go:1180-1227 | a checkpoint's record changes only by an admitted attempt with a verdict that the binding allows or that comes too late |
| SessionInvariants.AppliedDecisionMoves | internal/runtime/api_v1alpha2.go:1229-1260 | an applied denial blocks session and task; an applied approval makes the session READY if it has a worker and AWAITING_WORKER if not, with its task in progress |
| SessionInvariants.LeavesApprovalExactly | internal/runtime/api_v1alpha2.go:2594-2623 | a session stops waiting for approval if and only if the request is a complete decision on a pending, unexpired checkpoint, an admitted worker status that ends the session, an admitted APPROVE of an undecided proposal, or an admitted close |
| SessionInvariants.PendingSurvivesExactly | internal/runtime/api_v1alpha2.go:1220-1247 | after it stops waiting a checkpoint is pending if and only if one was before, other than the one decided |
| SessionInvariants.WorkerNotFoundExactly | internal/runtime/api_v1alpha2.go:1536-1560 | an admitted worker event is answered WORKER_NOT_FOUND if and only if no worker with the ID is among the session's first 100 |
| SessionInvariants.LateWorkerNeverReports | internal/runtime/api_v1alpha2.go:1536-1560 | for a worker that 100 others precede, that holds after every run, and its events change nothing |
| SessionInvariants.TerminalEventsAgreeExactly | internal/runtime/api_v1alpha2.go:2642-2655 | a close and a worker event that bring a live session to the same terminal status log the same last event if and only if it is not BLOCKED |
| SessionReplay.HandleKeepsSyncExactly | internal/runtime/api_v1alpha2.go:1561-1662 | a handler keeps the replay of the feed equal to the stored status if and only if it is not a forged worker event |
| SessionReplay.StepKeepsSyncExactly | internal/runtime/api_v1alpha2.go:550-3189 | the same for the whole store and any request |
| SessionReplay.InSyncThroughoutExactly | internal/runtime/api_v1alpha2.go:550-3189 | feed and store agree after every request of a run if and only if none of them forges |
| SessionReplay.ReplayIsStateExactly | internal/runtime/api_v1alpha2.go:695-3189 | from the empty store: each feed's status events form an unbroken chain from PENDING to the stored status throughout, exactly without forgeries |
| SessionReplay.InSyncAtTheEnd | internal/runtime/api_v1alpha2.go:695-3189 | in particular in the store the run ends in |
| SessionReplay.PostedEvents | internal/runtime/api_v1alpha2.go:1561-1662 | which worker events leave the replay at the new status: all but those labelled as status changes with another old or new status than the session's |
| SessionProposals.HandleKeepsSettledExactly | internal/runtime/api_v1alpha2.go:3605-3674 | a recorded decision survives a handler exactly unless the handler generates the proposal again inside the page |
| SessionProposals.RegenerationResets | internal/runtime/api_v1alpha2.go:3618-3640 | generating a proposal again makes it undecided |
| SessionProposals.AppliedDecisionIsSeenExactly | internal/runtime/api_v1alpha2.go:1732-1879 | after an applied decision the feed shows its verdict and action ID when its event fits the page, and shows the proposal undecided when it does not |
| SessionProposals.SettledForever | internal/runtime/api_v1alpha2.go:1732-1803 | over any run without a new generation, a recorded decision stays, none is applied again, and every answer repeats it |
| SessionProposals.ForgottenForever | internal/runtime/store_v1alpha2.go:1129-1185 | a decision past the page is never seen: every later decision on a live session is applied |
| SessionProposals.UnseenForever | internal/runtime/store_v1alpha2.go:1129-1185 | a proposal that a full first page does not show is never decided over any run: every later decision on a live session is answered NOT_FOUND |
| SessionProposals.DecisionIsFinalExactly | internal/runtime/api_v1alpha2.go:1717-1803 | an applied decision is final over all later runs if and only if its event fits the feed's first 1000 |
| SessionProposals.LaterAnswersRepeatTheFirst | internal/runtime/api_v1alpha2.go:1738-1752 | deciding again changes nothing in the session, and any answer carries the first verdict and tool action ID |
| SessionProposals.DecidedAtMostOnce | internal/runtime/api_v1alpha2.go:1732-1803 | a proposal generated at most once in a feed of at most 1000 events is decided at most once over any run |
| SessionActions.ApprovedProposalMoves | internal/runtime/api_v1alpha2.go:1755-1850 | an approved proposal leaves its session RUNNING, or READY after execution, its action at the execution's status, and a single-session task in progress |
| SessionActions.RunKeepsActions | internal/runtime/api_v1alpha2.go:1755-1803 | in every run, a proposal's tool action sits under its own action ID and its approval is in the feed, and every approval in the feed has an action under its ID, recording a proposal of the same sanitised ID |
| SessionActions.AtMostOneActionPerProposal | internal/runtime/api_v1alpha2.go:1755-1803 | in every reachable store a proposal has at most one tool action |
| SessionActions.DeniedProposalGetsNoAction | internal/runtime/api_v1alpha2.go:1857-1879 | after an applied DENY inside the page, over any run, the proposal has no tool action but one it had before, unchanged |
| SessionActions.ActionRecordsLastApproval | internal/runtime/api_v1alpha2.go:1755-1803 | over any run, the action under an ID records exactly the last applied approval whose action has that ID: its proposal and what its execution left |
| SessionActions.ActionKeptExactly | internal/runtime/api_v1alpha2.go:1755-1803 | after an applied APPROVE inside the page, over any run, the action under the proposal's ID still records the proposal if and only if no later applied APPROVE in the session is of another proposal whose ID has the same words |
| SessionActions.ReplacedActionIsGone | internal/runtime/api_v1alpha2.go:1755-1803 | in every reachable store a proposal has an action if and only if the one under its ID records it |
| ProposalIds.SanitizedIsJoined | internal/runtime/m16_linking.go:669-693 | a sanitised ID is the lower-cased stretches of letters and digits of the ID, in order, joined by single dashes |
| ProposalIds.SharedActionExactly | internal/runtime/m16_linking.go:669-693 | two proposals of a session share a tool action ID if and only if their IDs have the same lower-cased words (an ID without any counting as the word `unknown`) |
| SessionWitnesses.ReplacedProposalHasNoAction | internal/runtime/api_v1alpha2.go:1755-1803 | for any two proposal IDs with the same words, a reachable store in which the first is approved and has no tool action |
| SessionWitnesses.SomeDecisionIsForgotten | internal/runtime/api_v1alpha2.go:1728-1731 | a reachable store in which a decision is applied and is not final |
| SessionWitnesses.SomeRunForges | internal/runtime/api_v1alpha2.go:1561-1600 | a run from the empty store that breaks the replay |
| SessionWitnesses.SomeSessionStopsWaiting | internal/runtime/api_v1alpha2.go:1229-1247 | a reachable store with a READY session whose other checkpoint is pending |
| SessionWitnesses.SomeClosedSessionCanReopen | internal/runtime/api_v1alpha2.go:1229-1247 | a reachable store with a completed session that can come back without a new checkpoint from a time on exactly until its checkpoint's expiry |
| SessionWitnesses.SomeSelectedWorkerNeverReports | internal/runtime/api_v1alpha2.go:1536-1560 | a reachable store whose session's selected worker is refused after every run |
| SessionProposals.FeedGrows | internal/runtime/store_v1alpha2.go:1077-1127 | a feed is append-only over every run |
| EventFeed.FilterInPlace | internal/runtime/api_v1alpha2.go:3312-3320 | filtering into the list's own memory leaves, in order, exactly the events past the cursor |
| EventFeed.MergeSessionEventLists | internal/runtime/api_v1alpha2.go:3992-4006 | the merge is the first list followed by the second without the IDs the first one has |
| EventFeed.MergeDropsExactlyNamed | internal/runtime/api_v1alpha2.go:3992-4006 | a stored event is dropped if and only if a projected one has its ID |
| EventFeed.StableSortOrders | internal/runtime/api_v1alpha2.go:3321-3326 | the sort is a permutation ordered by sequence, then time |
| EventFeed.StableSortIsStable | internal/runtime/api_v1alpha2.go:3321-3326 | events with equal sequence and time keep their order |
| EventFeed.ListSessionEventsForRead | internal/runtime/api_v1alpha2.go:3299-3330 | the read, done with the in-place filter, is the page function the lemmas below reason about |
| EventFeed.ReadIsSmallest | internal/runtime/api_v1alpha2.go:3299-3330 | a read returns in order exactly the limit smallest of the merged events past the cursor, losing none |
| EventFeed.WriteEvents | internal/runtime/api_v1alpha2.go:3390-3408 | the writer sends the batch as it is and leaves the cursor at its largest sequence |
| EventFeed.EventStream.PollOnce | internal/runtime/api_v1alpha2.go:3410-3441 | one poll reads past the cursor, merging the run's projected events if there is a run, sends the batch and advances the cursor |
| EventFeed.PollSendsNext | internal/runtime/api_v1alpha2.go:3383-3441 | with no run, or past its projected events, one poll sends exactly the next page of what the client is owed |
| EventFeed.StreamIsPrefixOfFeed | internal/runtime/api_v1alpha2.go:3383-3441 | for any interleaving of appends, polls and changes of the run, and any limit, what was sent is a prefix of the events past the starting cursor, if that is past the projected events or there is no run: no gap, repeat or reordering |
| EventFeed.QuietFeedIsSent | internal/runtime/api_v1alpha2.go:3410-3441 | on a quiet feed, under the same condition, n polls send exactly the next n pages, and enough polls send everything |
| LegacyStream.BatchPast | internal/runtime/api_v1alpha2.go:3299-3330 | whatever the run, cursor and limit, the part of a poll past the projected events is the next stretch of the feed past them |
| LegacyStream.NothingLaterIsLost | internal/runtime/api_v1alpha2.go:3299-3441 | for any interleaving, cursor, limit and run, what was sent past the projected events is a prefix of what is stored past them and past the cursor |
| LegacyStream.OnlyFirstTwoAreSkipped | internal/runtime/api_v1alpha2.go:3299-3441 | a stored event that a stream skips is one of the first two, and the stream started before 2 |
| LegacyStream.SkippedForever | internal/runtime/api_v1alpha2.go:3410-3441 | a skipped event is never sent, over any continuation |
| LegacyStream.TwoPollsSkipTheNext | internal/runtime/api_v1alpha2.go:3891-3930 | whatever the limit, two polls from before 2 of a session with a run and at most its first event stored skip the event stored next |
| LegacyStream.SkipsNothingExactly | internal/runtime/api_v1alpha2.go:3299-3441 | a stream never skips a stored event, over all feeds, runs and interleavings, if and only if it starts at the last projected sequence or beyond |
| LegacyStream.DefaultReadSkipsTheNext | internal/runtime/api_v1alpha2.go:3891-3930 | at the default limit, from the start, a new session's first read sends both projected events and the stored one, and the event stored next is never sent |
| FollowLoop.ThreadPanel.StopFollow | clients/vscode-agentops/extension.js:294-300 | a stop takes a new generation and clears the timer it holds |
| FollowLoop.ThreadPanel.StartFollow | clients/vscode-agentops/extension.js:302-328 | a start stops, then runs one loop of the new generation up to its first await |
| FollowLoop.ThreadPanel.OnStreamReply | clients/vscode-agentops/extension.js:321-345 | a loop resumed from the stream awaits the timeline after new items; otherwise it sets its timer if its generation is still current and returns if not |
| FollowLoop.ThreadPanel.OnTimelineReply | clients/vscode-agentops/extension.js:330-345 | the same for a loop resumed from the timeline |
| FollowLoop.ThreadPanel.OnTimer | clients/vscode-agentops/extension.js:310-320 | a fired timer enters the loop again, which returns when stale or finished |
| FollowLoop.StepKeepsSound | clients/vscode-agentops/extension.js:294-347 | every event keeps the protocol's invariant |
| FollowLoop.OneLoopOneTimer | clients/vscode-agentops/extension.js:294-347 | for every interleaving: at most one live loop of the current generation, at most one pending timer, and that timer is the panel's handle and the current loop's |
| FollowLoop.SchedulesExactly | clients/vscode-agentops/extension.js:335-345 | a loop sets a timer if and only if it resumes for good with the current generation |
| FollowLoop.StaleLoopsNeverSchedule | clients/vscode-agentops/extension.js:335-341 | a loop started before the last stop never sets a timer again |
| FollowLoop.StoppedStaysQuiet | clients/vscode-agentops/extension.js:193-196 | from a stop on, whatever came before and until the next start, no timer is pending and no loop is current |
| FollowLoop.FollowingEndsExactly | clients/vscode-agentops/extension.js:310-341 | when the current loop returns |
| PanelLoads.ThreadKeepsSound | clients/vscode-agentops/extension.js:193-286 | the loops' invariant holds through loads, submissions, focus changes and a dispose, in any order |
| PanelLoads.RestartsExactly | clients/vscode-agentops/extension.js:239-286 | a disposed panel that has stopped starts to follow if and only if a suspended load is shown and finds an open session |
| PanelLoads.UnshownStaysQuiet | clients/vscode-agentops/extension.js:282-286 | a disposed panel that has stopped never follows again over any continuation in which no load is shown: setting title or content failed, or the thread did not arrive |
| PanelLoads.DisposedFollowsAgainExactly | clients/vscode-agentops/extension.js:193-286 | after a dispose, whatever came before it, some continuation makes the panel follow again if and only if a load or submission was suspended at the dispose |
| PolicyMatrix.SelectorMatches | internal/runtime/auth.go:593-618 | an empty list selects everything, otherwise some trimmed nonblank selector matches exactly, by prefix or by star |
| PolicyMatrix.RuleMatchesIdentity | internal/runtime/auth.go:568-591 | subjects and clients must match, and some role of the identity when the rule names roles |
| PolicyMatrix.AuthorizeScoped | internal/runtime/auth.go:238-278 | a scoped check grants if and only if the matrix is empty or some allow and no deny applies; a disabled enforcer grants, a missing identity is refused |
| PolicyMatrix.OrderIrrelevant | internal/runtime/auth.go:251-278 | the verdict depends only on which rules there are, not on order or repetition |
| PolicyMatrix.AddingRules | internal/runtime/auth.go:251-278 | a deny added anywhere never grants what was refused, an allow added to a non-empty matrix never refuses what was granted, a rule that does not apply changes nothing |
| PolicyMatrix.FirstAllowMayRefuse | internal/runtime/auth.go:247-278 | what a single rule decides where an empty matrix granted everything |
| PolicyMatrix.UniqueTrimmed | internal/runtime/auth.go:620-633 | the first loop keeps exactly the trimmed nonblank items, each once |
| PolicyMatrix.SortInPlace | internal/runtime/auth.go:634-640 | the insertion sort leaves the same elements strictly increasing |
| PolicyMatrix.SortedUnique | internal/runtime/auth.go:620-641 | the result is strictly increasing and holds exactly the trimmed nonblank items |
| PolicyMatrix.OneIncreasingList | internal/runtime/auth.go:620-641 | a strictly increasing list is determined by its elements |
| PolicyMatrix.SortedDependsOnTexts | internal/runtime/auth.go:620-641 | hence neither order nor repetition of the items matters |
| PolicyMatrix.SortedTwice | internal/runtime/auth.go:620-641 | and sorting again changes nothing |
| PolicyMatrix.CompilePolicyMatrix | internal/runtime/auth.go:514-537 | compilation stops at the first invalid effect, and otherwise normalises every rule; a matrix of rules with written effects and no blank-only lists then decides every query as before |
| PolicyMatrix.SelectsAfterSorting | internal/runtime/auth.go:530-535 | a normalised list selects what it did before, except a blank-only one, which goes from nothing to everything |
| PolicyMatrix.CompilingPreservesExactly | internal/runtime/auth.go:514-537 | a compiled rule means what the rule did for every query if and only if its effect is written out and none of its lists is blank-only |
| PolicyMatrix.CompiledMatrixDecidesAlike | internal/runtime/auth.go:514-537 | a compiled matrix of such rules gives every query the verdict it had |
| PolicyMatrix.LoneRuleKeepsVerdictsExactly | internal/runtime/auth.go:514-537 | the matrix of one rule keeps every verdict under compilation if and only if that condition holds |
| RunApproval.EnforceRunRecordScope | internal/runtime/api.go:2526-2550 | a record is in scope when the caller's tenant and project lists, where given, name it |
| RunApproval.FilterRunSummariesByAuthorization | internal/runtime/api.go:2552-2568 | the filtered list is, in order, exactly the visible summaries, and the count is of the others |
| RunApproval.AddedDenyOnlyHides | internal/runtime/api.go:2552-2568 | under a matrix with one more deny, the list is what that matrix leaves of the old list |
| RunApproval.ClassifyApprovalStatus | internal/runtime/api.go:2242-2259 | the classifier as a function of the run and the time |
| RunApproval.RunStore.HandleApprovalDecision | internal/runtime/api.go:758-937 | one decision moves the store and answers as the step function says; other runs are untouched |
| RunApproval.AsFirstDecided | internal/runtime/api.go:829-900 | from the first call that can decide a run, the run is what that call made it, whatever comes later |
| RunApproval.AppliedOnceExactly | internal/runtime/api.go:829-900 | a call is applied if and only if it can decide the run as first stored and no earlier call could, so at most one ever is |
| RunApproval.OutcomeStandsForever | internal/runtime/api.go:2242-2259 | after that the run classifies as the outcome at every time whatever its expiry, nothing changes it, and later calls are told the outcome |
| RunApproval.LapsedIsNeverDecided | internal/runtime/api.go:836-839 | once lapsed, a run is never decided at any later time |
| RunApproval.NoExpiryNeverLapses | internal/runtime/api.go:2255-2257 | a run stored without an expiry never answers as expired, at any time and after any calls |
| RunApproval.ShownExpiryHoldsExactly | internal/runtime/api.go:2297-2309 | an undecided run is refused at every time past the expiry the listing shows if and only if an expiry is stored with it, or it has no creation time and the shown one moves with the clock |
| AgentProfiles.MergeAgentProfileOverrides | internal/runtime/agent_profiles.go:205-248 | the loop with its index equals the merge as a function of the named base profiles and the overrides, for any base list |
| AgentProfiles.MergeCorrect | internal/runtime/agent_profiles.go:205-248 | the merge has distinct normal IDs: the base's in order, then new ones at their first appearance |
| AgentProfiles.MergeFolds | internal/runtime/agent_profiles.go:205-248 | and holds per ID the fold of that ID's overrides alone |
| AgentProfiles.OverlayResetsLabelAndScope | internal/runtime/agent_profiles.go:289-337 | what one override does to each field: blank ones keep the base's, except label and scope, which are reset |
| AgentProfiles.LastNonblankWins | internal/runtime/agent_profiles.go:289-316 | over any overrides, provider, transport, model and references are the last nonblank ones written for the ID |
| AgentProfiles.ApplySelectedProfileOverrides | internal/runtime/agent_profiles.go:250-287 | the top-level fields are written to the first profile with the selected ID, or a new profile is appended |
| AgentProfiles.ParseAgentIntegrationSettings | internal/runtime/agent_profiles.go:157-203 | the profile part of the parse is the composition the next lemma describes |
| AgentProfiles.ParseIsPerIdFold | internal/runtime/agent_profiles.go:157-287 | the parsed list has distinct IDs in the stated order, and per ID the fold of its overrides, with the top-level fields on the selected profile |
| AgentProfiles.ResolveProfile | internal/runtime/agent_profiles.go:350-364 | the first profile with the target ID, or none when there is none |
| AgentProfiles.ResolveSelected | internal/runtime/agent_profiles.go:350-364 | after any parse, resolving a blank ID always finds the selected profile |
| AgentProfiles.BlankSettingsChangeNothing | internal/runtime/agent_profiles.go:157-161 | settings that set nothing give the base list back |
| ProviderStatus.SetCondition | internal/extensionprovider/reconciler.go:414-449 | the loop replaces the first condition of its type or appends, as the function says |
| ProviderStatus.PlacedTouchesOne | internal/extensionprovider/reconciler.go:414-449 | in any list, only that condition changes, and its time moves exactly when status, reason or message does |
| ProviderStatus.ExtensionProvider.UpdateStatus | internal/extensionprovider/reconciler.go:357-412 | one probe moves the status as the step function says, and is written exactly when the status differs |
| ProviderStatus.StatusIsReport | internal/extensionprovider/reconciler.go:357-449 | after any probes from an empty status: one Ready and one Probed condition, each timed by the probe that opened the current unbroken run of like outcomes; everything else is the last probe's |
| ProviderStatus.WritesExactlyNews | internal/extensionprovider/reconciler.go:404-411 | a probe is written if and only if its outcome, as far as it is kept, or its generation differs from the last one's |
| SectionParser.LeadingSpaces | cmd/provenance-lock-check/main.go:406-415 | the loop counts the spaces a line starts with |
| SectionParser.ParseSectionEntries | cmd/provenance-lock-check/main.go:300-366 | the loop's result is the entries of the section, or an error when there are none |
| SectionParser.SectionStandsAlone | cmd/provenance-lock-check/main.go:321-334 | lines before the first header and from the first closing line onward never change the result |
| SectionParser.OneEntryPerBlock | cmd/provenance-lock-check/main.go:336-360 | one entry for each list item at the first item's indent, made of that item's lines alone; items at other indents add nothing |
| SectionParser.LastValueWins | cmd/provenance-lock-check/main.go:341-359 | an entry holds each key's last value |
| SectionParser.Unwritten | cmd/provenance-lock-check/main.go:341-359 | and no key that was not written |
| SectionParser.PairReadsBack | cmd/provenance-lock-check/main.go:368-386 | a quoted pair parses back to itself |
| SectionParser.WrittenSectionReadsBack | cmd/provenance-lock-check/main.go:300-386 | a section written out parses back to its entries inside any file that does not open it earlier |
| AuditBuffer.Buffer.Append | internal/runtime/audit.go:41-55 | an append drops empty records, and keeps the newest up to the capacity after shifting in place |
| AuditBuffer.Buffer.Snapshot | internal/runtime/audit.go:57-69 | the snapshot is the buffer's contents |
| AuditBuffer.Buffer.ListRuntimeAuditEvents | internal/runtime/audit.go:71-102 | the backward scan returns the newest matching records up to the clamped limit |
| AuditBuffer.BufferIsTail | internal/runtime/audit.go:41-55 | after any appends the buffer is the last non-empty records, in order |
| AuditBuffer.AnswersAsHistoryWould | internal/runtime/audit.go:71-132 | a query over the buffer is a first part of the same query over the whole history, and all of it if and only if it filled its page or nothing dropped matches |
| RefResolver.ExpandFills | internal/runtime/agent_invoke.go:1062-1068 | every placeholder of a reference is filled once, stray braces are left alone, and values are never expanded themselves |
| RefResolver.Resolver.LoadLocked | internal/runtime/agent_invoke.go:1104-1138 | a load, with its two looks at the file, moves the cache and answers as the function says |
| RefResolver.Resolver.Resolve | internal/runtime/agent_invoke.go:1082-1102 | a resolve looks the expanded reference up first, then the raw one |
| RefResolver.CacheComesFromACall | internal/runtime/agent_invoke.go:1104-1138 | cached values were decoded from what one earlier call read, under the time that call saw |
| RefResolver.ResolveIsFresh | internal/runtime/agent_invoke.go:1082-1138 | for any interleaving of calls and rewrites of a steady file, each call answers as a fresh read at one of its two looks would, including after failed decodes |
| RefResolver.AtomicResolveIsFresh | internal/runtime/agent_invoke.go:1082-1138 | when no rewrite falls inside a call, it is enough that a modification time is never reused for other content |
| RefResolver.UnsteadyFileMisleads | internal/runtime/agent_invoke.go:1118-1137 | any other file misleads some two calls: the second answers with what the file no longer holds |

## Left out

- HTTP routing, JSON encoding and decoding, response texts, audit and metrics: requests start decoded, errors are enumerated answers.
- Scope and policy checks inside the session handlers are one boolean of the request; the checks themselves are modelled in `PolicyMatrix.dfy` and `RunApproval.dfy`.
- Store failures, and best-effort writes that fail, are not modelled; generated IDs are fresh by assumption.
- Session handlers run one at a time; two overlapping calls of the same handler are not modelled.
- Records carry the fields the protocols read; payload texts, update times, capabilities, annotations and evidence contents are left out.
- The agent-invoke endpoint (internal/runtime/m16_linking.go:107-349, internal/runtime/api.go:1288) writes tasks and sessions of its own, named `invoke-...`: it sets RUNNING without a status event and AWAITING_APPROVAL without a checkpoint. It is not part of the model, and what is said of sessions is said of those made by session creation.
- Texts of no listed kind or status are `CustomEvent` and `OtherStatus`; that decoding never yields these for a listed text is part of the decoding that is left out.
- Legacy runs are modelled in reads and streams of the feed and in the scope of session creation; the handlers' fallback to a legacy run is not.
- SessionRuntime.Runtime.HandleCreateTask: does not record the `task.created` event, which goes to no session's feed.
- SessionRuntime.Runtime.HandleCreateCheckpoint: leaves out organisation administration binding artifacts and their events.
- SessionRuntime.Runtime.HandleApprovalDecision: takes the binding's answer as one boolean and leaves out its artifacts and their events.
- SessionRuntime.Runtime.HandleToolProposalDecision: leaves out governed actions, automatic decisions and the managed worker's continuation.
- Execution of an approved proposal is an answer of the environment: nothing run, a rejected command line, or a command that ran.
- Concurrent appends: the store reads the largest sequence number and then inserts; the feed is modelled as append-only with increasing numbers.
- SessionProposals.DecidedAtMostOnce: stated for feeds of at most 1000 events, because past them the code can decide again; `SessionProposals.DecisionIsFinalExactly` gives the exact limit.
- Case folding and trimming are on ASCII letters and Latin-1 spaces; lengths count characters where the code counts bytes.
- The follow loop's rendering, its wait times, what a load fetches and errors thrown before the first await are left out; a timer fires at any moment.
- The grant token's hash, update times and the session event and checkpoint written after a run decision are left out.
- Other writers of a run between two decisions are left out.
- The built-in profile list is a parameter of the merge; that the parsed IDs are distinct is stated for base lists whose IDs are, like the built-in one. Gateway and routing fields of the settings are left out.
- A status written by someone else between two probes, a refused status write, and malformed condition entries are left out.
- Opening a lock file and splitting it into lines is left out.
- Decoding the reference values is an arbitrary function of the text; partial writes of the file are not modelled.
- The catalogue endpoints, the CLI, chat and workflow clients, process execution, provider calls, JWT and TLS handling would add only members that hold by their own text.
