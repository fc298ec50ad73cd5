# Loom, modelled and proved in Dafny

Loom runs a group of coding agents on a shared board without a person in the loop. This project models the parts of it
that decide something, states what they are meant to guarantee, and proves it with Dafny 4.11:

    dafny verify dfyconfig.toml --resource-limit 2000000 --verification-time-limit 0

There is one module per component.

| file | component |
|---|---|
| `Board.dfy` | the event log, the fold that replays it, the re-entrant lock and the guarded mutators |
| `History.dfy` | what a log says of a task, read off its events, and the proof that the fold says the same |
| `LogFile.dfy`, `LogCodec.dfy`, `Utf8.dfy` | the same log as bytes, with crashes in the middle of a write, the decoder that reads it back, and a line format with the facts assumed |
| `Schedules.dfy` | any number of processes mutating one board file, in any interleaving, with crashes in mid-write |
| `Faults.dfy` | the depth-first search for dependencies that can never be satisfied |
| `Coordinator.dfy`, `Situation.dfy` | handing out work; reading the board and deciding what is stuck |
| `FableGate.dfy`, `Orchestrator.dfy`, `Remediation.dfy` | the review gate, the coordinator tick, and whole runs of ticks and workers |
| `Reports.dfy` | what one tick writes and reports, read off the boards before and after it |
| `Run.dfy` | the run record, its iteration budget, and the night reconciler |
| `WorkDrain.dfy` | the Stop hook that keeps an agent working, and its backstop |
| `Backfill.dfy`, `Gaps.dfy` | the Matrix bridge: closing gaps in a room, and how a walk ends whatever the server answers |
| `InboxRelay.dfy`, `Delivery.dfy` | the bridge's other direction: relaying the inbox, and what became of each line, read off its requests |
| `InboxText.dfy`, `InboxLines.dfy`, `InboxCodec.dfy` | the inbox file as text, its two line splitters, what a send and an ack do to it and to its line numbers, and a line format with the facts assumed |
| `Bus.dfy`, `ReadCursor.dfy` | that file under concurrent sends and acks; what counts as unread |
| `Tickets.dfy`, `TicketMoves.dfy` | the ticket store, moved between directories by three programs; what each step moves, and a tick as a run of steps |
| `Kanban.dfy` | the markdown board that is edited line by line |
| `Order.dfy`, `Splitting.dfy` | string order and sorting; cutting a text into lines |

Where the source updates state step by step, the model has a class or a loop with the same branches, and its contract
ties the new state to a function of the old one; the theorems are about those functions. Values that come from outside
(clocks, the usage level, the night window, answers of the homeserver, pane state, the hash of a card) are parameters.

## Where the code and its own account of itself differ

In each case the model follows the code, and the lemmas named say what fails and when the promise does hold.

* `autonomy/board.py:8` says that a crash in the middle of a write loses at most one line. A crash inside a multi-byte
  character makes every later read raise, so the whole board is lost to its readers
  (`LogCodec.TornCharacterLosesEverything`): the board is readable exactly when no write was torn inside a character
  (`LogFile.ReadableExactlyWhen`). While it is readable, a line without its newline swallows the next append as well
  (`LogFile.AppendSurvivesExactlyWhen`, `LogFile.LostNewlineCostsTwo`), and the loss is at most two events per crash
  (`LogFile.LossIsBounded`).
* `autonomy/coordinator.py:188-192` treats a stuck run as one whose leftovers are wedged or blocked. A task blocked
  and then unblocked without an owner is neither, and then the triage list can be empty
  (`Situations.OrphanHidesFromTriage`); without such tasks it is not (`Situations.StuckIsTriaged`).
* `autonomy/fable_gate.py:47-57` warns that an empty roster lets everything through. For convergence it is the other
  way round: a run with a finished task is never reported done (`Orchestrator.EmptyRosterNeverDone`).
* `autonomy/run.py:93` keeps the old reason when `end` is given none, so a run that the night paused and a person then
  ended by hand comes back with the next open window (`RunLifecycle.ResurrectedExactlyWhen`).
* `autonomy/night_reconcile.py:228` announces that deferred agents are woken by the next pass. Their run is active by
  then, so the next pass wakes nobody (`RunLifecycle.ReconcileTwice`).
* `hooks/session_start.py:239` moves the cursor over every unread message although only ten were shown
  (`ReadCursor.OverflowIsReadUnseen`), never moves it for a message without a sender (`ReadCursor.HandedOverOnce`),
  and a cursor in the older format forgets its own message (`ReadCursor.LegacyForgetsExactlyWhen`).
* `bridges/matrix/bridge.py:411-415` says a history that ends before the marker is not relayed. It is relayed exactly
  when the server needs at least as many requests to exhaust its history as there are permitted pages
  (`Backfill.UndatedRelayedExactlyAtTheCap`, `Backfill.UndatedRelayedAtTheCap`).
* `bridges/matrix/bridge.py:405-408` stops the walk on any error, but `bridges/matrix/bridge.py:435` tells one by its
  text. An error without a text is taken for the end of the history, and what was recovered by then is not relayed
  (`Gaps.GapTells`).
* `bridges/matrix/bridge.py:563-579` retries as the bot under the same transaction id, which the server scopes to the
  account. A message is put up twice exactly when a request for it was taken under both identities
  (`InboxRelay.DuplicatedExactlyWhen`), as happens when a token is revoked between a post that was accepted but not
  answered and its retry (`InboxRelay.RevokedBetweenRetriesDuplicates`).
* `bus/read.py:114-119` promises that an ack never loses a delivered message. It reads the file with `splitlines`
  (`bus/read.py:128`), which also ends lines at U+0085, U+2028 and U+2029; `bus/send.py:221` lets those through. A
  message that holds one is shown and then dropped by the next ack of any other (`Bus.SeparatorIsLost`); every message
  survives exactly when its line holds none, or nothing is acked after it (`Bus.SurvivesExactlyWhen`). The session
  start (`hooks/session_start.py:121`) splits the same way and never shows such a message
  (`InboxText.SplitlinesSeesTheClean`).
* `bus/read.py:128-145` also drops malformed lines when it rewrites the inbox. The line numbers that the bridge counts
  by stay put exactly when every line is readable and holds no separator (`InboxLines.AckKeepsLineNumbers`).
* `mesh-api/mesh_api/lib/kanban_io.py:134` says the search replays exactly the reader's numbering. It also numbers
  cards above the first heading (`Kanban.SearchAgreesExactlyWhen`). Ids are not stable under moves either: a moved
  card keeps its own exactly when it passes no shown card with the same hash
  (`Kanban.MovedCardKeepsItsIdExactlyWhen`). A card moved to an empty column can open the next column instead, or
  disappear into a `%%` block (`Kanban.CardLandsExactlyWhen`).
* `mesh-api/ticket_dispatcher.py:229` matches dependencies by substring. A string is found in the names of one ticket
  only exactly when, wherever it fits into a file name, it covers all six digits of that ticket's id
  (`Tickets.MatchesOnlyItsOwnExactlyWhen`); any proper prefix of an id is satisfied by a stranger
  (`Tickets.PartOfAnIdMatchesStrangers`, `Tickets.UnpinnedDependencyMetByStranger`).
  `mesh-api/mesh_api/lib/tickets_io.py:128` never checks that a generated id is new
  (`Tickets.CreateKeepsInvExactlyWhen`), and a new ticket is queued behind all others exactly while the last number is
  below 999: 1000 sorts before it (`TicketMoves.NewTicketGoesLastExactlyWhen`).

## Model

| member | source | states |
|---|---|---|
| BoardModel.FoldValid | autonomy/board.py:128-158 | after any log, every id in the table is listed once and names its own entry: creation events are never replayed over an existing one |
| BoardModel.Board.Enter | autonomy/board.py:85-89 | the file lock is held exactly while the re-entrancy depth is positive |
| BoardModel.Board.Exit | autonomy/board.py:92-95 | leaving one level keeps the lock until depth zero |
| BoardModel.Board.Append | autonomy/board.py:97-111 | one event is added at the end, and the depth is restored |
| BoardModel.Board.Replay | autonomy/board.py:159-206 | the branch chain over event types computes the transition function, which `TaskHistory.OneEvent` and `TaskHistory.BoardReadsOffTheLog` describe without it |
| BoardModel.Board.ReadTasks | autonomy/board.py:128-207 | the event-by-event loop computes the fold, which `TaskHistory.BoardReadsOffTheLog` reads off the log |
| BoardModel.Board.Mutate | autonomy/board.py:256-348 | a guarded mutator writes exactly when its guard holds on the fold it read, under one lock hold |
| TaskHistory.OneEvent | autonomy/board.py:159-206 | one event of each kind, field by field: status, owner, scope, dependencies, attempts, reassignments, last event and history |
| TaskHistory.KnownExactlyWhenCreated | autonomy/board.py:150-158 | a task is on the board exactly when some event created it under a name |
| TaskHistory.BoardReadsOffTheLog | autonomy/board.py:128-207 | for every log and task on the board: its status is what the last event that decides it says, its owner is the last one named, its scope and dependencies are the creation's or the last change's, attempts count the progress events, reassignments the unassignments, and its history is what was recorded about it, in order |
| TaskHistory.DoneExactlyWhen | autonomy/board.py:185-206 | a task is done exactly when some pass or completion of it is not followed by an event that undoes it |
| TaskHistory.ListedByBirth | autonomy/board.py:150-158 | tasks are listed in the order in which they were first created |
| TaskHistory.MutatorsTakeEffect | autonomy/board.py:256-348 | a guarded mutator that goes ahead leaves its task as asked, and every other task as it was |
| TaskHistory.GuardsRefuseWhatChangesNothing | autonomy/board.py:256-348 | creations, reopens, abandonments and unassignments are refused exactly when the event would not have changed the status |
| LogFile.RunReads | autonomy/board.py:97-126 | reading the decoded file after any run of whole and torn writes gives exactly the events the event-level account says |
| LogFile.ReadableExactlyWhen | autonomy/board.py:113-126 | `events()` returns, rather than raises, exactly when no write so far was torn inside a character; no later append mends it |
| LogCodec.TornCharacterLosesEverything | autonomy/board.py:116-117 | with one write torn inside a two-byte character, reading raises whatever was written before and after |
| LogFile.AppendSurvivesExactlyWhen | autonomy/board.py:97-106 | an append is readable, with everything before it, exactly when the file was readable and ended with a whole line |
| LogFile.LostNewlineCostsTwo | autonomy/board.py:7-8 | a crash that lost only the newline costs the event it wrote and the next one |
| LogFile.LossIsBounded | autonomy/board.py:7-8 | over any run in which no crash comes inside a character, the board is readable and at most one further whole write is lost per torn one |
| Schedules.ActKeepsInv | autonomy/board.py:69-106 | every atomic action of any process, a crash in mid-write included, keeps mutual exclusion and the justification of what reads back |
| Schedules.EveryScheduleIsJustified | autonomy/board.py:69-126 | under every schedule, with crashes that tear writes anywhere, reading raises exactly if some write was torn inside a character, and otherwise each event read back was written by a mutator whose guard held on the events before it; callers write the four guarded kinds only through their mutators |
| Schedules.CreatedOnce | autonomy/board.py:256-269 | an id is created at most once |
| Schedules.AssignedTwiceMeansUnassigned | autonomy/board.py:274-281 | between two successful guarded assignments of one id lies an unassignment |
| Schedules.ClaimedTwiceMeansUnassigned | autonomy/board.py:286-293 | between two successful guarded claims of one id lies an unassignment |
| Schedules.ReopensNeverOutrunFinishes | autonomy/board.py:320-328 | reopens of an id, plus one while it is done, never outnumber its passes and completions |
| Schedules.ReassignmentsAreCounted | autonomy/board.py:196-200 | the folded reassignment counter equals the unassignments on record |
| DependencyFaults.FirstOffence | autonomy/board.py:378-387 | the first missing or abandoned dependency in order decides the label |
| DependencyFaults.VisitSound | autonomy/board.py:398-410 | the search keeps every cycle label a real cycle through the labelled node, and keeps earlier labels |
| DependencyFaults.VisitRanked | autonomy/board.py:398-410 | finished nodes get a finishing order: an unlabelled one depends only on nodes that finished earlier |
| DependencyFaults.FaultsRanked | autonomy/board.py:389-415 | over the whole board, unreported entries wait only for entries of lower rank |
| DependencyFaults.FaultLabelsAreTrue | autonomy/board.py:365-415 | each label names the first real offending dependency, or a real cycle of unfinished entries through the labelled one |
| DependencyFaults.EveryCycleIsReported | autonomy/board.py:389-415 | every cycle of unfinished entries passes through a reported one |
| DependencyFaults.FaultedIsNotReady | autonomy/board.py:210-232 | a reported entry never has its dependencies met, so it is never open or ready |
| DependencyFaults.UnreportedDependency | autonomy/board.py:378-387 | an unreported entry has every dependency on the board and none abandoned |
| DependencyFaults.NoFaultsMeansProgress | autonomy/board.py:365-415 | with nothing reported and something unfinished, some unfinished entry can be worked on |
| DependencyFaults.ReportIsDeterministic | autonomy/board.py:373-374 | the report does not depend on creation order |
| DependencyFaults.Scan.Meet | autonomy/board.py:402-408 | meeting a node labels the stack on a back edge, descends on a white node, and ignores a finished one |
| DependencyFaults.Scan.Dfs | autonomy/board.py:398-410 | the loop over colours, stack and faults computes the recursive search, and terminates |
| DependencyFaults.Scan.Run | autonomy/board.py:412-414 | the loop over the sorted roots computes the whole search |
| DependencyFaults.FindFaults | autonomy/board.py:365-415 | the imperative detector computes the reported faults |
| Coordinator.Eligible | autonomy/coordinator.py:73-82 | scope matches are preferred, and an avoided agent is used only when nobody else is left |
| Coordinator.Lightest | autonomy/coordinator.py:83 | the owner is the least loaded eligible agent, ties by name |
| Coordinator.ReadyArePlaceable | autonomy/coordinator.py:73-88 | without a concurrent writer every ready entry is handed out, once, and no guarded assignment is refused |
| Coordinator.AssignmentsApplied | autonomy/coordinator.py:84-90 | exactly those entries change, to assigned and the chosen owner |
| Coordinator.NothingLeftReady | autonomy/coordinator.py:52-96 | after a pass with a non-empty roster nothing is ready and unowned |
| Coordinator.LoadTableStaysExact | autonomy/coordinator.py:66-70 | the running load table equals the load recomputed from the new fold |
| Coordinator.AssignmentBalances | autonomy/coordinator.py:73-94 | when the ready work is unscoped, the load gap between agents ends at most at the larger of the initial gap and one |
| Coordinator.CountLoad | autonomy/coordinator.py:65-70 | the counting loop computes each agent's open load |
| Coordinator.Assign | autonomy/coordinator.py:52-96 | the assignment loop over the board computes the placement and appends exactly its events; `Coordinator.HandedOutByRule` says whom it chooses |
| Coordinator.HandedOutByRule | autonomy/coordinator.py:73-88 | each assignment goes to an agent with the scope of the task, if anyone has it, and not to an avoided one unless nobody else is left; and no such agent has fewer open tasks at that moment, or as many and an earlier name |
| Coordinator.HandedOutInOrder | autonomy/coordinator.py:72-94 | assignments are made in the order in which the tasks are listed |
| Coordinator.HandedOutAreReady | autonomy/board.py:225-232 | handed out are exactly the unowned tasks in the pool whose dependencies are all done |
| Coordinator.LoadCountsOpenTasks | autonomy/coordinator.py:66-70 | an agent's load is the number of tasks it owns that are assigned or in progress |
| Situations.StuckLeadsToTrouble | autonomy/coordinator.py:187-192 | in a stuck run every unfinished entry leads, by dependencies, to a blocked, faulted or orphaned one |
| Situations.StuckIsTriaged | autonomy/coordinator.py:186-206 | without orphans, a stuck run has an empty triage list exactly when the board is empty |
| Situations.TriageHolds | autonomy/coordinator.py:186 | the triage list holds exactly the blocked and the faulted entries |
| Situations.OrphanHidesFromTriage | autonomy/coordinator.py:191-192 | a block followed by an unblock leaves a stuck run with nothing to triage |
| Situations.SnapshotShows | autonomy/coordinator.py:119-156 | each list of the snapshot holds exactly the tasks it is named after |
| Situations.StalledAreTheSilent | autonomy/coordinator.py:130-140 | the stalled tasks are exactly those at work and silent for longer than allowed, by id |
| Situations.StuckExactlyWhen | autonomy/coordinator.py:173-207 | unless usage says kill, the run is called stuck exactly when something is unfinished and nothing is in review, ready, silent, or at work with a named owner |
| FableGate.ReviewedMeansSignedOff | autonomy/fable_gate.py:64-80 | the running flag says whether some Fable pass has no later reopen |
| FableGate.ReviewedByFable | autonomy/fable_gate.py:64-80 | the loop over the history decides that |
| FableGate.RouteReviewer | autonomy/fable_gate.py:83-106 | an agent is chosen exactly when the roster is not empty, always one of the roster; an idle one beats a busy one, scope breaks the tie |
| FableGate.ChosenReviewer | autonomy/fable_gate.py:83-106 | the specialist for the four game scopes and the generalist for any other is taken if on the roster, else its first agent; if that one is busy, the first idle agent of the roster, if there is one |
| RunLifecycle.Run.BumpIteration | autonomy/run.py:75-83 | the counter goes up by one and nothing else changes |
| RunLifecycle.Run.End | autonomy/run.py:85-96 | the run stops at the given time with the reason given, or the earlier one if that is empty; participants, guardrails and iterations stay |
| RunLifecycle.Run.Resume | autonomy/run.py:98-115 | the run is active again with its iteration count untouched |
| RunLifecycle.ReconcileTells | autonomy/night_reconcile.py:194-219 | a pass pauses an active run when the window is closed, and when it is open resumes exactly those the night paused at most seven days ago; it changes no other run and nobody's iterations |
| RunLifecycle.CapBitesForGood | autonomy/orchestrator.py:137-142 | after one start with cap M, exactly the first M active ticks pass the cap check over any ticks, ends and resumes, and the counter equals the active ticks |
| RunLifecycle.Reconcile | autonomy/night_reconcile.py:171-229 | the pass pauses exactly the active runs outside the window, resumes exactly the fresh night pauses inside it, and wakes at most the cap, deferring nobody before it is reached |
| RunLifecycle.ReconcileIsIdempotent | autonomy/night_reconcile.py:194-219 | at any later time, a second pass with the window unchanged finds nothing to pause or resume |
| RunLifecycle.ReconcileTwice | autonomy/night_reconcile.py:206-229 | so agents deferred by one pass are neither woken nor deferred by a later one, whatever the bus then answers |
| RunLifecycle.ResurrectedExactlyWhen | autonomy/run.py:85-96 | an end is undone by the next open window exactly when its reason is the night's, or empty after a night pause |
| RunLifecycle.FinishedStaysFinished | autonomy/night_reconcile.py:206-219 | a run ended for any other stated reason is never brought back by night passes and ticks |
| RunLifecycle.EndedByHandComesBack | autonomy/cli.py:98-99 | ending a night-paused run with no reason leaves it to be resumed |
| Orchestrator.DoneMeansGated | autonomy/orchestrator.py:109-213 | a tick reports done exactly when it may run and every entry is abandoned or done with a standing Fable pass |
| Orchestrator.WorkKeepsEnds | autonomy/orchestrator.py:163-178 | remediation and assignment never finish anything, and leave a finished board alone |
| Orchestrator.EmptyRosterNeverDone | autonomy/fable_gate.py:47-57 | with no Fable agent configured a board with a finished entry never converges |
| Orchestrator.TickSpendsBudget | autonomy/orchestrator.py:130-142 | whatever it finds on the board, a tick moves the run record as the iteration budget says |
| Orchestrator.ViolationsAreDone | autonomy/fable_gate.py:119-129 | the violations are exactly the done entries without a standing pass, each listed once |
| Orchestrator.ReopenedApart | autonomy/orchestrator.py:193-196 | reopening the violations changes exactly them, to in review |
| Orchestrator.ReopeningClearsViolations | autonomy/orchestrator.py:185-192 | afterwards no violation is left, so the next tick reopens nothing |
| Orchestrator.PauseHaltsFromTheLimit | autonomy/orchestrator.py:215-236 | over any row of ticks with unknown usage, workers writing in between, the board unfinished and the iteration cap not reached: the last halts exactly from the grace limit on, the note is written once, at the crossing, nothing is handed out, and the run record only spends its iterations |
| Orchestrator.StuckHaltsFromTheLimit | autonomy/orchestrator.py:237-255 | over any row of ticks on a stuck board below the iteration cap: the last halts exactly from its limit on, the note is written once, unknown usage is forgotten, and the run record only spends its iterations |
| Orchestrator.Remediate | autonomy/orchestrator.py:163-174 | the stall loop computes the treated log and the map of owners to avoid |
| Orchestrator.ReopenViolations | autonomy/orchestrator.py:193-211 | the reopening branch writes exactly its events and reports from the new fold |
| Orchestrator.Pause | autonomy/orchestrator.py:219-236 | unknown usage is counted, logged once at the crossing, and halts from the grace limit on |
| Orchestrator.Move | autonomy/orchestrator.py:237-267 | a stuck tick is counted, logged once at the crossing and halts from the limit on; any other resets the counter |
| Orchestrator.CoordinatorTick | autonomy/orchestrator.py:109-267 | the tick over board, run and counters computes the tick function, log and report included; the theorems of `Reports` say what that function answers |
| Reports.InactiveTick | autonomy/orchestrator.py:127-128 | a tick of an inactive run halts and changes nothing |
| Reports.CappedTick | autonomy/orchestrator.py:137-142 | over the cap a tick halts, ends the run and writes one note; nobody is handed work or woken |
| Reports.KilledTick | autonomy/orchestrator.py:149-155 | on the kill verdict a tick halts, counts its iteration and writes one note; nobody is handed work or woken |
| Reports.TickOnUnfinishedBoard | autonomy/orchestrator.py:157-267 | on an unfinished board, whatever workers did to it: the tick is never done; it pauses exactly when usage cannot be read, and else halts exactly when nothing could move for the limit of ticks; woken are exactly the owners of open tasks on the board it leaves, handed out is exactly what that board gained in assignments, and the reviews, their routing, the triage and the violations are those of that board |
| Reports.TickOnFinishedBoard | autonomy/orchestrator.py:179-213 | on a finished board nothing is treated or handed out: with every finished task signed off the tick is done and writes nothing; otherwise exactly the others are sent back to review and routed there |
| Reports.SilentTasksAreTreated | autonomy/orchestrator.py:163-174 | exactly the tasks silent for too long are taken from their owners, or blocked once that was done often enough; no other task changes |
| Reports.OnlyTheOwnerIsKeptOff | autonomy/orchestrator.py:167-172 | kept off a task is exactly the owner it was just taken from |
| Reports.RepooledTaskChangesHands | autonomy/orchestrator.py:163-178 | a task taken from a silent owner goes to somebody else whenever anybody else may take it |
| Remediation.TreatIsRecord | autonomy/orchestrator.py:167-174 | treating one stalled entry in the tick and in the interleaved run is the same step |
| Remediation.ReassignmentsStayWithinLimit | autonomy/orchestrator.py:163-174 | however workers interleave, no entry is re-pooled more often than the limit over a whole run |
| Remediation.RunUnassignsBoundedly | autonomy/orchestrator.py:163-174 | so a run writes at most limit times entries unassignments |
| Remediation.UnassignmentsAreCounted | autonomy/board.py:196-200 | the sum of the counters equals the unassignments in the log |
| Remediation.SpentTaskIsBlocked | autonomy/orchestrator.py:173-174 | one more stall after the last re-pooling blocks the entry |
| Remediation.TickJustified | autonomy/orchestrator.py:109-267 | every line a tick writes went through a mutator whose guard held |
| Remediation.RunsAreJustified | autonomy/orchestrator.py:109-267 | and so over any run of ticks and workers that write the four guarded kinds only through their mutators |
| Remediation.GateCannotSpin | autonomy/orchestrator.py:185-196 | over any such run an entry is reopened at most as often as somebody finished it |
| WorkDrain.ThirtyTurnsThenEscalate | autonomy/hooks/work_drain_stop.py:145-257 | over any row of stops on an unchanged signature, others writing in between: each stop inside the window forces a continuation and writes nothing, except that every 31st blocks all the agent's open work and escalates; a stop outside the window only leaves its note |
| WorkDrain.StopTells | autonomy/hooks/work_drain_stop.py:145-257 | one stop, whatever the board: allowed and without effect for an agent that is not armed; allowed with the count forgotten when it has no open work; outside the window only noted, the count kept; on the kill verdict its open work is blocked and noted; on an unknown verdict nothing is written; otherwise the count of turns on this signature decides |
| WorkDrain.SignatureStaysExactlyWhen | autonomy/hooks/work_drain_stop.py:224-229 | the signature of two boards is the same exactly when the agent has the same open tasks, with the same attempts and statuses |
| WorkDrain.ProgressStartsOver | autonomy/hooks/work_drain_stop.py:224-237 | so progress on any open task starts the count over |
| WorkDrain.BlockingAllLeavesNoneOpen | autonomy/hooks/work_drain_stop.py:239-246 | blocking every open entry of an agent leaves it none: nothing else became open |
| WorkDrain.EscalationFreesTheAgent | autonomy/hooks/work_drain_stop.py:239-251 | after an escalation the next stop is allowed |
| WorkDrain.KillBlocksUnknownWaits | autonomy/hooks/work_drain_stop.py:197-222 | the kill verdict leaves the agent no open entry; an unknown verdict leaves its open entries as they were |
| WorkDrain.StopHook.BlockEach | autonomy/hooks/work_drain_stop.py:240-246 | the loop blocks exactly the listed entries, in order |
| WorkDrain.StopHook.OnStop | autonomy/hooks/work_drain_stop.py:145-257 | the hook over board and marker computes the outcome function in every branch |
| Backfill.CollectPage | bridges/matrix/bridge.py:420-428 | reading one contiguous page collects exactly its events after the marker that were not yet shown |
| Backfill.RecoveredIsSuffix | bridges/matrix/bridge.py:363-463 | with contiguous pages the result is a contiguous suffix after the marker, oldest first, and all of it when the walk met the marker |
| Backfill.PollStep | bridges/matrix/bridge.py:310-336 | one poll keeps the marker and the relayed events in step with the history |
| Backfill.EverythingRelayedOnce | bridges/matrix/bridge.py:310-336 | over any polls whose gaps close, each event after the seed is relayed exactly once, in order |
| Backfill.NothingRelayedTwice | bridges/matrix/bridge.py:310-336 | and whatever happens none is relayed twice or out of order |
| Backfill.UndatedRelayedExactlyAtTheCap | bridges/matrix/bridge.py:396-456 | with the marker gone and a server that answers, the undated events are kept back exactly when the page cap exceeds the requests the server needs to exhaust its history; otherwise all that the cap reaches is relayed as too wide a gap |
| Backfill.ClosesExactlyWhenItFits | bridges/matrix/bridge.py:396-431 | with the marker in the history of an honest server, the gap closes, and all of it is relayed, exactly when the pages to the marker fit the cap; otherwise it is what the cap reaches |
| Backfill.AllCloseExactlyWhenTheyFit | bridges/matrix/bridge.py:310-336 | over any polls of honest servers all gaps close exactly when each fits the cap |
| Backfill.GapsThatFitLoseNothing | bridges/matrix/bridge.py:310-336 | and then each event after the seed is relayed exactly once, in order |
| Backfill.UndatedRelayedAtTheCap | bridges/matrix/bridge.py:438-439 | a concrete history whose undated events are relayed because it ended on the last permitted page |
| Gaps.GapTells | bridges/matrix/bridge.py:396-463 | whatever the server answers, where the walk ends decides the gap: a page with the marker closes it, an error with a text is the server stopping, the budget spent is too wide, and an error without a text, an empty page and a missing token are the history ending, unless that was the last permitted request; what was read is relayed, oldest first, in every case but that |
| Backfill.GapReports.Report | bridges/matrix/bridge.py:465-480 | a gap is escalated once per room and marker |
| Backfill.ReadPage | bridges/matrix/bridge.py:420-428 | the loop over one page computes what is new and whether the marker was met |
| Backfill.Recovery | bridges/matrix/bridge.py:363-463 | the paging loop computes the recovered events and the reason the gap stayed open |
| InboxRelay.TxnInjective | bridges/matrix/bridge.py:581-591 | for ids without a dash the transaction id determines timestamp and id |
| InboxRelay.DistinctMessagesHaveDistinctKeys | bridges/matrix/bridge.py:581-591 | lines told apart by timestamp and id, the ids free of dashes, have distinct transaction ids |
| InboxRelay.HoldMeasuresReachableTime | bridges/matrix/bridge.py:593-634 | the hold clock equals the time of the intervals that ended with a healthy sync, and one stall notice at most is sent |
| InboxRelay.GivenUpExactlyWhen | bridges/matrix/bridge.py:614-634 | a line is given up exactly when sync answers and it was reachable for the full delay |
| InboxRelay.PostKeepsOrder | bridges/matrix/bridge.py:563-579 | one post, as agent, bot or both, keeps what the server holds equal to the requests it took, each once, in inbox order |
| InboxRelay.HandleLineSettles | bridges/matrix/bridge.py:519-558 | a line the cursor leaves is delivered, unaddressable, refused or given up; otherwise the cursor stays on it |
| InboxRelay.EveryLineSettledInOrder | bridges/matrix/bridge.py:509-561 | over any run of polls on a growing inbox, whatever happens to tokens and requests, the server holds the requests it took in inbox order, each once, and no line is lost in silence |
| InboxRelay.DuplicatedExactlyWhen | bridges/matrix/bridge.py:563-579 | over any such run a line is held twice exactly when it was taken under both identities, and never more often; the whole is strictly in order exactly when that happened to no line |
| InboxRelay.RevokedBetweenRetriesDuplicates | bridges/matrix/bridge.py:574-579 | a token revoked between an accepted, unanswered post and its retry duplicates the message |
| Delivery.RefusedExactlyWhen | bridges/matrix/bridge.py:636-661 | over any run of polls, a line is skipped as refused exactly when the poll that moved the cursor past it had its last request end in a defect, or in a code below 500 other than 401, 403, 408 and 429 |
| Delivery.NothingRefusedInPassing | bridges/matrix/bridge.py:636-661 | so while every failure is one of the link, a token, throttling or the server's own, no line is refused |
| Delivery.GivenUpExactlyIn | bridges/matrix/bridge.py:541-558 | over any run, a line is given up exactly when a poll moved the cursor past it over a failure that a retry might have cleared |
| Delivery.FirstFailureStays | bridges/matrix/bridge.py:593-606 | the first such failure on a line never moves the cursor past it |
| Delivery.SkippedExactlyWhen | bridges/matrix/bridge.py:593-634 | a later one does exactly when sync answers and, counting only intervals that ended with a healthy sync, the line was tried for the full delay |
| Delivery.ReportedExactlyWhen | bridges/matrix/bridge.py:617-625 | while the cursor stays on a line, its stall has been reported exactly when some failure came with sync answering and the alert delay reached |
| Delivery.PassedExactlyOnce | bridges/matrix/bridge.py:509-561 | every line behind the cursor was passed by a poll; `Delivery.PassedInOneOnly` adds that it was only one |
| Delivery.TakenExactlyWhen | bridges/matrix/bridge.py:519-579 | the server took a posting exactly when some poll tried that line and sent it: that message, to its sender's room, under the agent or, without a token or after its refusal, the bot |
| Delivery.TakenAsExactlyWhen | bridges/matrix/bridge.py:563-579 | under which identities a line was taken, read off the requests of the polls that tried it; with `InboxRelay.DuplicatedExactlyWhen` that says exactly when a message is up twice |
| Delivery.ShorterInboxPullsBack | bridges/matrix/bridge.py:514-518 | an inbox that has become shorter pulls the cursor back to its end, and nothing is sent |
| InboxRelay.Homeserver.Put | bridges/matrix/bridge.py:155-166 | a repeated transaction id in one room and identity is the same event |
| InboxRelay.Bridge.PostWithFallback | bridges/matrix/bridge.py:563-579 | as the agent first, once as the bot on 401 or 403 |
| InboxRelay.Bridge.Expire | bridges/matrix/bridge.py:593-634 | the hold fields and notices move as the hold function says |
| InboxRelay.Bridge.PollInbox | bridges/matrix/bridge.py:509-561 | the loop over the new lines computes the poll function, offset included; the theorems of `Delivery` say what that function does with each line |
| InboxText.SplitlinesSeesTheClean | bus/read.py:128-139 | of any inbox file, `splitlines` finds exactly the messages without U+0085, U+2028 and U+2029 that readers by newline find, in their order |
| InboxText.TextRefinesInbox | bus/read.py:122-145 | on the text of the file a send adds its message, and an ack marks the named messages and drops those with a separator |
| InboxLines.AckKeepsLineNumbers | bus/read.py:122-145 | after an ack every line is where it was, with its message, exactly when every line was readable and held no separator |
| Bus.StepRefinesAtomic | bus/read.py:121-153 | every step of a locked send or ack leaves the inbox alone or is one atomic operation on it |
| Bus.NoMessageIsLost | bus/send.py:252-265 | under every interleaving, with the lock free, the file reads as the sequential result, no message without a separator is lost, moved or un-acked, and only those and the ones sent after the last ack are there |
| Bus.ReplayPreserves | bus/read.py:136-141 | any sequence of sends and acks keeps the messages without a separator and their order |
| Bus.InboxIsWhatSurvives | bus/read.py:122-145 | after any sequence of sends and acks the inbox holds, in order, exactly the messages without a separator that came before the last ack, and all that came after it |
| Bus.AckedExactlyWhen | bus/read.py:136-141 | from any point of any run on, a message without a separator keeps its place, and is acked exactly when it was or a later ack names it |
| Bus.FateOfMessage | bus/read.py:136-145 | a message with an id of its own is there after any operations exactly when it has no separator or no ack came after it, acked exactly when it came acked or an ack named it |
| Bus.SurvivesExactlyWhen | bus/read.py:122-145 | the same of every interleaving, stated of the serialized line |
| Bus.SeparatorIsLost | bus/read.py:128 | a sent body with U+2028 is read, and gone after the ack of another message |
| Bus.LateFlushLosesMessages | bus/send.py:257-262 | flushing after the unlock admits an interleaving that loses a message |
| Bus.InboxFile.Append | bus/send.py:252-263 | the locked append adds one encoded line to the text |
| Bus.InboxFile.ReadLines | bus/read.py:128-139 | the loop over the lines, however they were split, keeps exactly what parses, in order |
| Bus.InboxFile.ReadMessages | bus/read.py:65-82 | readers split at newlines |
| Bus.InboxFile.Rewrite | bus/read.py:143-145 | the truncating rewrite leaves exactly the encoded lines of the given messages |
| Bus.InboxFile.AckInbox | bus/read.py:111-153 | the ack reads by `splitlines`, leaves the text the text-level ack says, and returns how many messages it newly marked |
| ReadCursor.HandedOverOnce | hooks/session_start.py:220-239 | a message a session start found unread is unread again exactly when it names no sender |
| ReadCursor.OverflowIsReadUnseen | hooks/session_start.py:195-239 | messages beyond the first ten are marked read without having been shown |
| ReadCursor.FirstTenAreShown | hooks/session_start.py:195-224 | shown are the first ten unread messages, or all there are, each in its place in inbox order |
| ReadCursor.OnlyUnreadAreShown | hooks/session_start.py:220-224 | nothing acked is shown, nothing from before its sender's cursor, and nothing recorded at its timestamp |
| ReadCursor.CursorsAreNewest | hooks/session_start.py:152-172 | every sender read from has a cursor at the newest timestamp read, with exactly the ids read at it |
| ReadCursor.ReadStaysRead | hooks/session_start.py:152-172 | with cursors that carry ids, what was read stays read |
| ReadCursor.LegacyForgetsExactlyWhen | hooks/session_start.py:165-169 | a cursor in the older format forgets its own message exactly when the list ends at the same timestamp |
| ReadCursor.NewStaysUnread | bus/read.py:42-61 | a later message with a new id, not before its sender's cursor, is unread |
| ReadCursor.AgentState.AdvanceCursor | hooks/session_start.py:152-172 | the loop over the messages computes the advanced cursors |
| ReadCursor.AgentState.OnSessionStart | hooks/session_start.py:209-239 | the hook shows at most ten messages and advances over all unread ones |
| Tickets.WholeIdMatchesItself | mesh-api/ticket_dispatcher.py:224-233 | the substring glob of a whole id matches a ticket's file name exactly when it is that ticket's id |
| Tickets.MatchesOnlyItsOwnExactlyWhen | mesh-api/ticket_dispatcher.py:224-233 | any string is found in the names of one ticket only exactly when, wherever it fits into a name, it covers the six digits of that ticket's id |
| Tickets.PartOfAnIdMatchesStrangers | mesh-api/ticket_dispatcher.py:229 | every proper prefix of an id is found in the name of some other ticket |
| Tickets.PinnedDependencyIsDone | mesh-api/ticket_dispatcher.py:445-452 | under the invariant, a started ticket's dependency that meets that condition is a ticket in done |
| Tickets.StartedMeansDependenciesDone | mesh-api/ticket_dispatcher.py:445-452 | in particular each dependency in the generated form is the id of a ticket in done |
| Tickets.UnpinnedDependencyMetByStranger | mesh-api/ticket_dispatcher.py:229 | and one that does not meet it is satisfied, in some well-kept store, by a stranger alone |
| Tickets.ShiftKeepsInv | mesh-api/ticket_dispatcher.py:356-367 | writing the destination and unlinking the source keeps one file per ticket and never overwrites another |
| Tickets.CreateKeepsInvExactlyWhen | mesh-api/mesh_api/lib/tickets_io.py:118-162 | creating keeps the invariant exactly when no other file holds the generated id |
| Tickets.PatchKeepsInv | mesh-api/mesh_api/lib/tickets_io.py:178-225 | every patch keeps the invariant and every finished ticket |
| Tickets.ArmingFollowsDependencies | mesh-api/mesh_api/lib/tickets_io.py:187-207 | arming a ticket puts it in armed exactly when its dependencies are done, else in blocked, and moves no other |
| Tickets.DeleteKeepsInv | mesh-api/mesh_api/lib/tickets_io.py:228-247 | and so does every deletion |
| Tickets.DispatchKeepsInv | mesh-api/ticket_dispatcher.py:356-367 | dispatching into an empty running directory keeps one running ticket per agent |
| Tickets.ClosedKeepsInv | bus/ticket-complete.py:96-112 | completing keeps the invariant |
| Tickets.StepKeepsInv | mesh-api/ticket_dispatcher.py:387-493 | every step of the three programs keeps the invariant, and finished tickets stay where they are |
| Tickets.RunKeepsInv | mesh-api/ticket_dispatcher.py:387-493 | safety over every interleaving of the three programs, one file move at a time |
| Tickets.CompletionNamesItsTicket | bus/ticket-complete.py:44-65 | given a ticket id, the completion command closes that ticket and no other |
| Tickets.FailedDependencyStrands | mesh-api/ticket_dispatcher.py:445-452 | a failed or cancelled dependency strands its dependants in every run |
| Tickets.CompletionSatisfiesExactlyWhen | bus/ticket-complete.py:96-112 | completing a ticket satisfies the tickets that wait for it exactly when it did not fail |
| TicketMoves.StepDoes | mesh-api/ticket_dispatcher.py:356-521 | every step of the three programs moves exactly the file, to exactly the place and content, that a table without the model's own functions says; a step whose condition fails moves nothing |
| TicketMoves.TickIsRun | mesh-api/ticket_dispatcher.py:524-529 | a tick is a run of such steps, and hands work only to an idle pane; so what holds of every interleaving holds of ticks |
| TicketMoves.NextFollows | mesh-api/mesh_api/lib/tickets_io.py:107-115 | a new queued ticket is numbered one past the last name in order, or past their count if that has no number |
| TicketMoves.NewTicketGoesLastExactlyWhen | mesh-api/mesh_api/lib/tickets_io.py:107-115 | behind a last ticket with a three-digit number, a new one comes last in name order exactly while that number is below 999 |
| TicketMoves.PromotionMovesExactly | mesh-api/ticket_dispatcher.py:387-406 | the blocked tickets of an agent that a pass arms are exactly those with every dependency found in done |
| TicketMoves.WorkStartsExactlyWhen | mesh-api/ticket_dispatcher.py:409-457 | a pass starts a ticket of a free agent exactly when its pane is idle, its inbox quiet or a ticket stale, and some armed ticket waits for nothing |
| TicketMoves.BusyAgentIsLeftAlone | mesh-api/ticket_dispatcher.py:409-437 | otherwise its armed tickets are not touched |
| TicketMoves.ExpiryMovesExactly | mesh-api/ticket_dispatcher.py:460-493 | the running tickets that fail in a tick are exactly those started longer ago than the limit |
| Tickets.SweepAllMoves | mesh-api/ticket_dispatcher.py:393-406 | a sweep of a directory moves exactly the tickets that qualified when it began |
| Tickets.NoneReadyAllBlocked | mesh-api/ticket_dispatcher.py:439-453 | with nothing ready, an idle agent's armed tickets all become blocked |
| Tickets.FirstReadyIsDispatched | mesh-api/ticket_dispatcher.py:439-456 | otherwise the first ready ticket in name order runs, those before it are blocked, the rest wait |
| Tickets.TickKeepsInv | mesh-api/ticket_dispatcher.py:524-529 | a tick keeps the invariant and leaves no driven agent an overdue ticket |
| Tickets.Store.Glob | mesh-api/ticket_dispatcher.py:393 | in whatever order a directory is read, the sorted names are its listing |
| Tickets.Store.AllDepsDone | mesh-api/ticket_dispatcher.py:224-233 | the nested loops decide whether every dependency has a match in some agent's done directory |
| Tickets.Store.ProcessBlocked | mesh-api/ticket_dispatcher.py:387-406 | the loop computes the promoting sweep |
| Tickets.Store.IsStale | mesh-api/ticket_dispatcher.py:432-434 | some armed ticket has waited at least the quiet time |
| Tickets.Store.ProcessArmed | mesh-api/ticket_dispatcher.py:409-457 | nothing happens unless the agent has no running ticket, is idle, and its inbox is quiet or a ticket is stale |
| Tickets.Store.DispatchArmed | mesh-api/ticket_dispatcher.py:439-457 | the loop computes the dispatch pass |
| Tickets.NotifiedMarksExactly | mesh-api/ticket_dispatcher.py:506-521 | every done or failed ticket of the agent ends up marked as announced, and nothing else changes |
| Tickets.Store.ProcessDone | mesh-api/ticket_dispatcher.py:506-521 | the loops over both directories do that |
| Tickets.Store.CheckTimeouts | mesh-api/ticket_dispatcher.py:460-493 | the loops compute the expiring sweep of every driven agent |
| Tickets.Store.Tick | mesh-api/ticket_dispatcher.py:524-529 | the tick computes the agents' passes and then the timeouts |
| Tickets.Store.FindTicket | mesh-api/mesh_api/lib/tickets_io.py:75-87 | the search over agents and directories finds a match exactly when there is one |
| Tickets.Store.CreateTicket | mesh-api/mesh_api/lib/tickets_io.py:118-162 | the file lands in the directory its mode and dependencies decide, queued names prefixed past the last |
| Tickets.Store.PatchTicket | mesh-api/mesh_api/lib/tickets_io.py:178-225 | malformed, missing and started tickets are refused in that order; otherwise the file is rewritten and moved, and the invariant kept |
| Tickets.Store.DeleteTicket | mesh-api/mesh_api/lib/tickets_io.py:228-247 | a running ticket is cancelled, a finished one refused, any other removed |
| Tickets.Store.CompleteTicket | bus/ticket-complete.py:44-112 | a running ticket is closed exactly when one matches: its file is then under done, or under failed if so asked, at the agent it was for, with that status and otherwise as it was, and no other file has changed |
| Kanban.IdsDistinct | mesh-api/mesh_api/lib/kanban_io.py:80-90 | no two cards share an id, whatever the hash does |
| Kanban.LocateFinds | mesh-api/mesh_api/lib/kanban_io.py:133-145 | the search returns a line exactly when that line's replayed number is the id |
| Kanban.SearchAgreesExactlyWhen | mesh-api/mesh_api/lib/kanban_io.py:133-145 | it returns the line the reader meant exactly when no card above the first heading has the same hash |
| Kanban.BoardShows | mesh-api/mesh_api/lib/kanban_io.py:100-125 | column k holds exactly the visible cards below the k-th heading, each under its id |
| Kanban.ColumnsInOrder | mesh-api/mesh_api/lib/kanban_io.py:100-125 | within a column cards keep the order of their lines and none appears twice |
| Kanban.IdsFollowCounts | mesh-api/mesh_api/lib/kanban_io.py:80-90 | the ids on the board are, per hash, zero up to the number of cards that have it |
| Kanban.MoveKeepsIdsExactlyWhen | mesh-api/mesh_api/lib/kanban_io.py:220-227 | a move keeps the board's ids exactly when the card is shown after it just as before |
| Kanban.MovePermutes | mesh-api/mesh_api/lib/kanban_io.py:220-227 | a move loses, adds and rewrites no line |
| Kanban.MoveKeepsTheOthersInOrder | mesh-api/mesh_api/lib/kanban_io.py:220-227 | all other lines keep their order |
| Kanban.MovedCardKeepsItsIdExactlyWhen | mesh-api/mesh_api/lib/kanban_io.py:80-90 | a moved card keeps its own id exactly when it passes no shown card with the same hash |
| Kanban.DeleteRetiresTheLastId | mesh-api/mesh_api/lib/kanban_io.py:238-242 | deleting one of several equal cards retires the last of their ids |
| Kanban.TickKeepsIds | mesh-api/mesh_api/lib/kanban_io.py:230-235 | ticking a card changes no card's id, column or visibility |
| Kanban.CardLandsExactlyWhen | mesh-api/mesh_api/lib/kanban_io.py:148-166 | a card lands in its column exactly when the heading found is visible and the column has a card, ends the file, or has an ordinary line below its heading |
| Kanban.PlaceFollowsTheLastCard | mesh-api/mesh_api/lib/kanban_io.py:157-166 | in a column that has a card, the place is the line after the last card before the next heading or `%%` line |
| Kanban.FirstHeadingIsFirst | mesh-api/mesh_api/lib/kanban_io.py:150-156 | the heading found is the first line that is that heading; none is found exactly when no line is |
| Kanban.NextHeadingTakesTheCard | mesh-api/mesh_api/lib/kanban_io.py:166 | with another heading right below, the card opens the next column |
| Kanban.SettingsBelowHideTheCard | mesh-api/mesh_api/lib/kanban_io.py:166 | with a `%%` line right below, the card disappears from the board |
| Kanban.MoveDelivers | mesh-api/mesh_api/lib/kanban_io.py:220-227 | end to end: the id finds the card, the file is permuted, the ids stay, and the board shows the card in the named column |
| Kanban.BoardFile.CardId | mesh-api/mesh_api/lib/kanban_io.py:80-90 | the id is the hash and the number of earlier cards with it, and the tally moves on |
| Kanban.BoardFile.ReadBoard | mesh-api/mesh_api/lib/kanban_io.py:100-125 | the loop with its running tallies computes the board |
| Kanban.BoardFile.Find | mesh-api/mesh_api/lib/kanban_io.py:133-145 | the loop computes the search |
| Kanban.BoardFile.ColumnBounds | mesh-api/mesh_api/lib/kanban_io.py:148-166 | the two loops find the first heading of that title and the place after its last card |
| Kanban.BoardFile.MoveCard | mesh-api/mesh_api/lib/kanban_io.py:220-227 | an unknown card or column changes nothing; otherwise the card is popped and inserted |
| Kanban.BoardFile.AddCard | mesh-api/mesh_api/lib/kanban_io.py:203-217 | an unknown column changes nothing; otherwise an unticked card is inserted at the same place |
| Kanban.BoardFile.SetDone | mesh-api/mesh_api/lib/kanban_io.py:230-235 | only the tick of the found card changes |
| Kanban.BoardFile.DeleteCard | mesh-api/mesh_api/lib/kanban_io.py:238-242 | only the found card goes |

## Left out

- Titles, descriptions, branches, artifacts, block reasons, notes and notices: text that no decision reads.
- Cycle labels and stop-hook signatures are sequences of ids, not joined strings, so a separator inside an id is not modelled.
- One clock value per tick: the source reads the clock again for each event it writes.
- `kick` and `triage` are sets; the source sorts them for display.
- The set of missing and abandoned dependencies is computed by a comprehension, not by the source's loop.
- The usage guard and the night window: their verdicts are inputs. Their thresholds and time parsing would add easy members.
- The text of the reason a capped run ends with, which names the cap.
- Python's recursion limit on very deep dependency graphs.
- A crash of the bridge between a post and saving its state, and its restart; its posts within one life are modelled with failures before and after acceptance.
- The bridge's reading of half-written lines: the inbox grows by whole lines, as the source assumes.
- Events in a room that are not text from the pilot are relayed in the model like any other; the filter is left out.
- Read receipts, joins, sync backoff and the escalation channel of the bridge.
- Validation, id generation and rendering in the send command.
- Glob metacharacters inside a dependency id, which the ticket programs would interpret, and the empty dependency id, for which the glob finds the directory itself.
- Crashes between writing and unlinking a ticket file, unreadable ticket files, and working directories.
- Unlocked races inside one move of a ticket: each file move is one step.
- Whitespace and letter case of a ticked card line (`[X]`, extra blanks), which ticking normalises; the `updated:` line; backups and the store lock of the Kanban board.
- Text normalisation and length limits of a new card.
- LogFile.RunReads: assumes of the JSON encoder and parser that a line reads back as its event and that pieces of lines do not parse; `LogCodec.LawsAreConsistent` shows the assumptions can hold together.
- Schedules.EveryScheduleIsJustified: assumes that creations, reopens, abandonments and unassignments are written by their guarded mutators; `Board.log` (autonomy/board.py:355-360) and `loom log` (autonomy/cli.py:183-189) accept any kind.
- Remediation.RunsAreJustified: the same assumption about what workers write.
- InboxText.SplitlinesSeesTheClean: assumes of the inbox encoder and parser that a line reads back as its message, that separators are written as they are, and that no piece of a line cut at one is a message; `InboxCodec.LawsAreConsistent` shows the assumptions can hold together.
- Breaks of `splitlines` that are control characters, which JSON escapes; unreadable inbox lines that hold a readable message between separators.
- Bus.SurvivesExactlyWhen: is about messages whose id no other message has; `Bus.InboxIsWhatSurvives` is about all of them.
- InboxLines.AckKeepsLineNumbers: is about inboxes in which every readable line has an id, as every sent line does.
- An inbox that is not UTF-8: the inbox is text, the board log is bytes.
- InboxRelay.EveryLineSettledInOrder: assumes distinct transaction ids, which `InboxRelay.DistinctMessagesHaveDistinctKeys` derives from distinct timestamps and ids.
- Reports.TickOnUnfinishedBoard: assumes that the roster's workers have names; an agent called the empty string is never woken.
- Backfill.EverythingRelayedOnce: assumes a server whose pages are contiguous and a marker still in the history.
- Remote shells, panes, services, git worktrees, configuration, bootstrap, the dashboard, the web routes and their authentication.
