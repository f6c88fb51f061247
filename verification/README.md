# Pledgecamp off-chain services: a verified model

This project models the off-chain half of Pledgecamp and proves properties of whole runs of it. Two services talk to
each other: a blockchain service (JavaScript) that turns requests into Ethereum transactions and drives them through a
broker queue, and an oracle (Go) that keeps the record of each crowdfunding project and of the Camp Share ledger.

`dafny verify dfyconfig.toml` checks everything.

## What is modelled

**The transaction queue** (`Transactions`, `QueueSpec`, `QueueSafety`, `QueueTheorems`, `QueueLocal`, `QueueHistory`,
`QueueCrashes`, `QueueShared`, `QueueEvents`, `QueueBlocks`, `QueueRetries`, `QueueDeploys`, `QueueRuns`,
`QueueWitnesses`, `QueueReader`). A transaction is a database row plus one message. The message is being submitted,
being pushed, queued, or held by a handler. A handler is cut at every await, so `QueueSpec.Step` is one uninterrupted
block and any list of moves is an interleaving. Pushes are not awaited, hence their own place; a database update is
two moves, the write and the handler's continuation. The broker may deliver queued messages in any order, which
includes first-in first-out. The chain answers a broadcast with one receipt or one error; whether a transaction is
confirmed, what a receipt contains and what decoding its logs yields are parameters of the moves. The history
variables (posts, broadcasts, waits, readings, last writer) are read by no step. `QueueReader.TransactionQueue` is the
same code on fields updated in place; each method keeps the invariant and is proved equal to one step, and `HandleAll`
runs any sequence of them, as it does for the objects of the other services.

**The oracle's project record** (`CivilTime`, `OracleSpec`, `OracleHistory`, `Milestones`, `OracleOutcomes`,
`OracleRequests`, `Decimals`, `OracleService`, `Composition`). Callbacks may arrive in any order and any number of
times, mixed with requests and scheduler ticks. A callback is one atomic read-modify-write. The clock is a parameter
of each event and never runs backwards where that matters. A process exit or a panic is recorded as a fault; what had
been stored before it stays. The scheduler's tests are on calendar text, so the calendar, the text and the odd layout
of the final milestone test are modelled too.

**Moderation votes** (`Votes`, `VoteCodec`). A moderation vote stores a row when submitted and another when confirmed;
the threshold counts rows; a commit sends three arrays that the other service parses.

**The deployment checks** (`Validators`) and **the Camp Share ledger** (`LedgerSpec`, `LedgerHistory`,
`LedgerService`).

## Where the code differs from its intent

The model follows the code. Each point below is proved by the members it names.

- Exactly-once reporting holds without crashes. With them, a finished transaction's report is lost exactly when a
  restart finds it due and unmade (`QueueCrashes.ReportedOnceExactly`, `QueueWitnesses.ReportCanBeLost`).
- The decoded events are kept in a variable shared by all handlers. The row always gets its own events
  (`QueueHistory.StoredEventsAreOwn`), but the report and a deployed project's address get those of whichever receipt
  was assigned last (`QueueEvents.HandedOnEventsExactly`, `QueueWitnesses.PostedEventsCanBeForeign`,
  `QueueWitnesses.DeployedAddressCanBeForeign`).
- A restart between the updates of a completing deployment leaves its address unstored for good
  (`QueueDeploys.RestartFreezesComplete`, `QueueWitnesses.AddressCanBeLost`).
- A transaction prepared elsewhere carries no retry counter and, outside development, does not complete unless a restart
  finds it unfinished and so gives it one (`QueueCrashes.RawPathNeverCompletes`,
  `QueueWitnesses.RawTransactionCanComplete`).
- A delivery withheld for lack of gas is not looked at again before a restart, even when the gas is back
  (`QueueTheorems.CanMoveExactly`, `QueueTheorems.WithheldForGood`, `QueueWitnesses.WithheldDespiteGas`).
- Each restart can repeat one wait, so the bound on timers is tight only without restarts
  (`QueueHistory.RetriesEnd`, `QueueWitnesses.RestartsRepeatWaits`).
- The restart routine does not wait for its purge, which can then take a message that was just pushed
  (`QueueTheorems.LatePurgeIsSafeExactly`, `QueueTheorems.LatePurgeCanLoseAMessage`), and the queue's reader is started
  before it, so that messages already delivered are pushed a second time (`QueueTheorems.OverlapIsSafeExactly`,
  `QueueWitnesses.OverlapCanDuplicate`).
- A completed transaction without logs is posted with a text where the oracle expects a list, so an activity whose
  handler reads events stays pending (`Composition.NoLogsLeavesPending`, `Composition.ActivityCanStayPending`).
- Seven vote rows are submissions plus confirmations, so four votes are enough for a commit
  (`Votes.FourSubmissionsCommit`).
- The parsers have a branch for lists written as bracketed text, yet numbers in text are always refused, in a vote
  commit (`VoteCodec.TextIdsAlwaysRejected`) as in a deployment (`Validators.TextRefused`).
- The last-milestone test compares a text without year, minutes and half of the day (`CivilTime.StampsAgreeExactly`). It
  decides whether a project whose last milestone was skipped succeeds or stops the process
  (`Milestones.SkippedMilestoneOutcome`, `Milestones.StampDecidesTheProject`); when milestones are checked once per gap
  it never matters (`Milestones.OneCheckPerGapSucceeds`).
- The withdrawal callback reads the amount into a variable of the loop's own scope and announces zero
  (`OracleHistory.WithdrawalAnnouncesZero`); the withdrawal request built after a passed milestone is never sent
  (`OracleHistory.WithdrawalsAreOnlyAskedFor`).
- A completion notice is sent only by the info and backers callbacks, so none is sent when the deployment is confirmed
  last (`OracleHistory.DeployLastSendsNone`, `OracleHistory.DeployLastOccurs`).
- With a negative configured minimum the deployment check would accept milestones out of order
  (`Validators.OrderedExactlyWhen`).

## Model

| member | source | states |
|---|---|---|
| `QueueSafety.StepKeepsInv` | `pledgecamp-nodeserver-develop/server/utils/queueProjectReader.js:95-310` | every block of every handler, and every action of broker, database, chain and restart, keeps: each copy agrees with its row, copies are unique per transaction, unfinished rows have a copy |
| `QueueSafety.RunKeepsInv` | `pledgecamp-nodeserver-develop/server/utils/queueProjectReader.js:30-316` | the same after any list of blocks in any interleaving |
| `QueueSafety.RestartEstablishes` | `pledgecamp-nodeserver-develop/server/cli/rabbitWarmup.js:10-35` | purge and rebuild, taken together, give a consistent queue from any crash state, whatever it left in the broker, in deliveries and in pushes |
| `QueueTheorems.OneLiveCopy` | `pledgecamp-nodeserver-develop/server/utils/queueProjectReader.js:95-309` | at every point of every run an INITIAL or PENDING transaction has exactly one live copy over submissions, pushes, queue and deliveries, any other none; the copy stands for the row's status and, without restarts, its retry count |
| `QueueTheorems.MessageMatchesRowExactly` | `pledgecamp-nodeserver-develop/server/utils/queueProjectReader.js:121-128` | the message text itself has the row's status and retry count if and only if its handler is not between a row update and the block that rewrites the message |
| `QueueTheorems.StepAdvancesRows` | `pledgecamp-nodeserver-develop/server/utils/queueProjectReader.js:110-121` | one step never loses a row and moves its status only forward |
| `QueueTheorems.RunAdvancesRows` | `pledgecamp-nodeserver-develop/server/utils/queueProjectReader.js:76-313` | over any run, restarts included, statuses only move forward, and finished ones stay |
| `QueueTheorems.RestartIsSafe` | `pledgecamp-nodeserver-develop/server/cli/rabbitWarmup.js:10-35` | restart from any crash state followed by any schedule: one live copy per unfinished row, none per finished row, and complete or failed rows keep their status |
| `QueueTheorems.RebuiltFailuresAreOnlyAcknowledged` | `pledgecamp-nodeserver-develop/server/utils/queueProjectReader.js:310-313` | delivering a rebuilt failed row changes no row, broadcasts and posts nothing, and leaves no copy |
| `QueueTheorems.LiveCopiesCount` | `pledgecamp-nodeserver-develop/server/utils/queueProjectReader.js:95-309` | the invariant means exactly one live copy for a live row and none otherwise |
| `QueueTheorems.CanMoveExactly` | `pledgecamp-nodeserver-develop/server/utils/queueProjectReader.js:95-186` | a copy of a transaction has a next move short of a restart if and only if it is not withheld for lack of gas |
| `QueueTheorems.WithheldForGood` | `pledgecamp-nodeserver-develop/server/utils/queueProjectReader.js:95-186` | a withheld delivery stays as it is over any run without restarts |
| `QueueWitnesses.WithheldDespiteGas` | `pledgecamp-nodeserver-develop/server/utils/queueProjectReader.js:80-95` | a run without restarts in which the only copy of a transaction is withheld although a later reading has brought the latch back |
| `QueueTheorems.LatePurgeIsSafeExactly` | `pledgecamp-nodeserver-develop/server/utils/queueHandler.js:20-24` | the purge is not awaited: carried out late, it keeps the invariant if and only if no unfinished transaction's message is queued by then |
| `QueueTheorems.LatePurgeCanLoseAMessage` | `pledgecamp-nodeserver-develop/server/utils/queueHandler.js:20-24` | a late purge after one accepted push leaves an unfinished transaction without a copy |
| `QueueTheorems.OverlapIsSafeExactly` | `pledgecamp-nodeserver-develop/server/start.js:7-20` | a warm-up of a process whose reader already runs keeps the invariant if and only if nothing outside the queue belongs to a transaction it selects |
| `QueueWitnesses.OverlapCanDuplicate` | `pledgecamp-nodeserver-develop/server/start.js:7-20` | a reachable state in which such a warm-up gives a transaction two live copies |
| `QueueLocal.Simulates` | `pledgecamp-nodeserver-develop/server/utils/queueProjectReader.js:30-316` | every step, by whichever handler, is a step of a small automaton on the view of any one transaction |
| `QueueLocal.MirrorRestart` | `pledgecamp-nodeserver-develop/server/cli/rabbitWarmup.js:20-34` | a restart reloads exactly the selected rows in every transaction's view |
| `QueueHistory.RunKeepsHistory` | `pledgecamp-nodeserver-develop/server/utils/queueProjectReader.js:95-309` | the history facts about one transaction hold along every run |
| `QueueHistory.ReportedAtMostOnce` | `pledgecamp-nodeserver-develop/server/utils/queueProjectReader.js:144-306` | with or without restarts at most one report, only if there is a callback or the broadcast failed, only after the row is final, with the row's final status and callback, and with events exactly if the transaction completed |
| `QueueHistory.StoredEventsAreOwn` | `pledgecamp-nodeserver-develop/server/utils/queueProjectReader.js:201-219` | in every interleaving the events stored in a completed row are those of its own receipt |
| `QueueHistory.BroadcastAtMostOncePerStart` | `pledgecamp-nodeserver-develop/server/utils/queueProjectReader.js:95-98` | a transaction is sent to the chain at most once per start of the process; without restarts at most once |
| `QueueHistory.RetriesEnd` | `pledgecamp-nodeserver-develop/server/utils/queueProjectReader.js:72-73` | with any number R of restarts: a counter that starts at r within the limit C stays within it, FAILED_PENDING is unreachable, at most C-r+1+R timers are set, and the total wait is at most blockTime*((C+1)(C+2)-r(r+1))/2 plus blockTime*(C+1) for each restart |
| `QueueHistory.RetriesEndWithoutRestarts` | `pledgecamp-nodeserver-develop/server/utils/queueProjectReader.js:72-73` | without restarts: at most C-r+1 timers, and a total wait of at most blockTime*((C+1)(C+2)-r(r+1))/2 |
| `QueueWitnesses.RestartsRepeatWaits` | `pledgecamp-nodeserver-develop/server/cli/rabbitWarmup.js:20-34` | a run with restarts that sets more timers than C-r+1 |
| `QueueCrashes.ReportedOnceExactly` | `pledgecamp-nodeserver-develop/server/utils/queueProjectReader.js:144-306` | over all runs, restarts included: once the handler is done with its updates a due report has been made exactly once if and only if no restart found it due and unmade; reports that are not due are never made |
| `QueueCrashes.ReportedExactlyOnce` | `pledgecamp-nodeserver-develop/server/utils/queueProjectReader.js:144-306` | hence without restarts: exactly one report if there is a callback or the broadcast failed, none otherwise |
| `QueueCrashes.CrashCanLoseTheReport` | `pledgecamp-nodeserver-develop/server/cli/rabbitWarmup.js:20-27` | a transaction found finished, with whatever status, gets no report in addition to those it had, whatever follows the restart |
| `QueueWitnesses.ReportCanBeLost` | `pledgecamp-nodeserver-develop/server/cli/rabbitWarmup.js:20-27` | a run whose one restart finds a complete transaction unreported and leaves nothing that could report it |
| `QueueCrashes.RawPathNeverCompletes` | `pledgecamp-nodeserver-develop/server/contracts/project.js:2069-2081` | outside development a transaction stored without a retry field never completes and never times out, without restarts and as long as none finds it unfinished |
| `QueueCrashes.RestartRevivesRawTransactions` | `pledgecamp-nodeserver-develop/server/cli/rabbitWarmup.js:20-34` | a restart gives it a counter of zero, with which a confirmation is acted upon |
| `QueueWitnesses.RawTransactionCanComplete` | `pledgecamp-nodeserver-develop/server/cli/rabbitWarmup.js:20-34` | a run outside development in which it then completes |
| `QueueHistory.NeverGas` | `pledgecamp-nodeserver-develop/server/utils/queueProjectReader.js:163-174` | FAILED_GAS is never assigned |
| `QueueShared.RunKeepsShared` | `pledgecamp-nodeserver-develop/server/utils/queueProjectReader.js:201-246` | while the last assignment of the shared variable is a handler's own, the variable and the addresses it copied are that handler's own events |
| `QueueEvents.RunKeepsHolding` | `pledgecamp-nodeserver-develop/server/utils/queueProjectReader.js:101-109` | after any run the shared variable holds the events of the receipt last assigned, by whichever handler, since the last restart |
| `QueueEvents.HandedOnEventsExactly` | `pledgecamp-nodeserver-develop/server/utils/queueProjectReader.js:221-247` | in every run what a completing handler puts into the addresses and the report are those events; they are the transaction's own if and only if that receipt yields the same events as its own |
| `QueueShared.PostedEventsAreOwn` | `pledgecamp-nodeserver-develop/server/utils/queueProjectReader.js:221-247` | in particular they are its own whenever no other handler has assigned the variable in between, and then the address stored is too |
| `QueueWitnesses.PostedEventsCanBeForeign` | `pledgecamp-nodeserver-develop/server/utils/queueProjectReader.js:236-247` | a run without restarts in which a transaction stores the events of its own receipt but reports those of another transaction's |
| `QueueWitnesses.DeployedAddressCanBeForeign` | `pledgecamp-nodeserver-develop/server/utils/queueProjectReader.js:221-233` | a run without restarts in which the address of a deployed project comes from another transaction's receipt |
| `QueueShared.GasLatchIsLastVerdict` | `pledgecamp-nodeserver-develop/server/utils/queueProjectReader.js:39-54` | after any run the latch is the verdict of the last decisive reading or gas error since the start, and no broadcast is made on an own reading at or below the critical level |
| `QueueWitnesses.MessageCanLag` | `pledgecamp-nodeserver-develop/server/utils/queueProjectReader.js:121-127` | a run in which a message does not have its row's status |
| `QueueBlocks.AfterFirstReading` | `pledgecamp-nodeserver-develop/server/utils/queueProjectReader.js:37-78` | the latch comes from the two levels, and what happens to the delivery from the message's status; the wait of a pending one is the block time for each try so far and one more |
| `QueueBlocks.AfterSecondReading` | `pledgecamp-nodeserver-develop/server/utils/queueProjectReader.js:80-98` | a broadcast exactly when the second reading is above the critical level and at the warning level, or the latch was on before |
| `QueueBlocks.AfterReceipt` | `pledgecamp-nodeserver-develop/server/utils/queueProjectReader.js:98-142` | a successful receipt leads to PENDING, an unsuccessful one to FAILED_RECEIPT, logs are decoded first |
| `QueueBlocks.AfterDecoding` | `pledgecamp-nodeserver-develop/server/utils/queueProjectReader.js:102-142` | the same once the logs are decoded, whose events are then in the shared variable |
| `QueueBlocks.AfterError` | `pledgecamp-nodeserver-develop/server/utils/queueProjectReader.js:160-175` | an error leads to FAILED_INITIAL and turns the latch off exactly for a shortage of gas |
| `QueueBlocks.AfterFlag` | `pledgecamp-nodeserver-develop/server/utils/queueProjectReader.js:191-196` | for every message and answer: complete if and only if confirmed and in development or below the limit; retry with the next counter if and only if unconfirmed and below it; time out at the limit; FAILED_PENDING without a counter |
| `QueueBlocks.AfterWrite` | `pledgecamp-nodeserver-develop/server/utils/queueProjectReader.js:219-232` | an update changes one field group of its own row and nothing else |
| `QueueBlocks.AfterRestart` | `pledgecamp-nodeserver-develop/server/cli/rabbitWarmup.js:10-34` | one push for each row in one of six statuses and for no other, with the row's values and a missing counter read as zero; the latch is on |
| `QueueBlocks.StatusesAreEarned` | `pledgecamp-nodeserver-develop/server/utils/queueProjectReader.js:95-284` | in every run, restarts included: PENDING rests on a successful receipt told to a handler of that transaction, COMPLETE on that and a confirmation, FAILED_RECEIPT on an unsuccessful receipt, FAILED_INITIAL on an error |
| `QueueRetries.CounterCountsRefusals` | `pledgecamp-nodeserver-develop/server/utils/queueProjectReader.js:256-266` | in every run the counter is at most its start plus the times the chain has not confirmed the transaction below the limit; without restarts exactly that once the row shows the last of them |
| `QueueRetries.WaitsGrow` | `pledgecamp-nodeserver-develop/server/utils/queueProjectReader.js:72-73` | without restarts the k-th wait is exactly the block time times (first + k + 1), and a transaction that is through has waited once for each value of its counter |
| `QueueDeploys.DeploymentsAreStored` | `pledgecamp-nodeserver-develop/server/utils/queueProjectReader.js:221-233` | without restarts a complete deployment whose handler is through has its address in its row and its project has one |
| `QueueDeploys.RestartFreezesComplete` | `pledgecamp-nodeserver-develop/server/cli/rabbitWarmup.js:20-27` | a row that a restart finds complete never changes again, so that a missing address stays missing |
| `QueueWitnesses.AddressCanBeLost` | `pledgecamp-nodeserver-develop/server/cli/rabbitWarmup.js:20-27` | a run with one restart after which a complete deployment has no address and no message |
| `QueueReader.TransactionQueue.constructor` | `pledgecamp-nodeserver-develop/server/utils/queueProjectReader.js:12-22` | the initial state |
| `QueueReader.TransactionQueue.Insert` | `pledgecamp-nodeserver-develop/server/contracts/project.js:265-271` | insert the row; the push follows in a later block |
| `QueueReader.TransactionQueue.CheckGas` | `pledgecamp-nodeserver-develop/server/utils/queueProjectReader.js:39-54` | the latch after one reading |
| `QueueReader.TransactionQueue.AfterBalance` | `pledgecamp-nodeserver-develop/server/utils/queueProjectReader.js:37-78` | the block that parses the message and dispatches on its status is the step of the state machine |
| `QueueReader.TransactionQueue.AfterRecheck` | `pledgecamp-nodeserver-develop/server/utils/queueProjectReader.js:80-98` | broadcast or leave unacknowledged |
| `QueueReader.TransactionQueue.OnReceiptEvent` | `pledgecamp-nodeserver-develop/server/utils/queueProjectReader.js:98-121` | the receipt listener up to its first await |
| `QueueReader.TransactionQueue.OnErrorEvent` | `pledgecamp-nodeserver-develop/server/utils/queueProjectReader.js:160-175` | the error listener up to its first await |
| `QueueReader.TransactionQueue.AfterFirstDecode` | `pledgecamp-nodeserver-develop/server/utils/queueProjectReader.js:102-121` | the block after decoding the first receipt |
| `QueueReader.TransactionQueue.AfterConfirmation` | `pledgecamp-nodeserver-develop/server/utils/queueProjectReader.js:191-196` | complete, retry or fail |
| `QueueReader.TransactionQueue.AfterFinalReceipt` | `pledgecamp-nodeserver-develop/server/utils/queueProjectReader.js:196-219` | the block after the final receipt |
| `QueueReader.TransactionQueue.AfterFinalDecode` | `pledgecamp-nodeserver-develop/server/utils/queueProjectReader.js:202-219` | the block after decoding the final receipt |
| `QueueReader.TransactionQueue.ApplyUpdate` | `pledgecamp-nodeserver-develop/server/utils/queueProjectReader.js:219-232` | the database carries out an update |
| `QueueReader.TransactionQueue.PostBack` | `pledgecamp-nodeserver-develop/server/utils/queueProjectReader.js:244-255` | post to the callback or acknowledge |
| `QueueReader.TransactionQueue.AfterUpdate` | `pledgecamp-nodeserver-develop/server/utils/queueProjectReader.js:123-128` | the block after an update: push on and acknowledge, next update, or report |
| `QueueReader.TransactionQueue.AfterInsert` | `pledgecamp-nodeserver-develop/server/contracts/project.js:265-271` | the push of an inserted row |
| `QueueReader.TransactionQueue.BrokerDelivers` | `pledgecamp-nodeserver-develop/server/utils/queueHandler.js:65-77` | a delivery calls the handler |
| `QueueReader.TransactionQueue.AfterTimer` | `pledgecamp-nodeserver-develop/server/utils/queueProjectReader.js:190-191` | the timer fires |
| `QueueReader.TransactionQueue.AfterPost` | `pledgecamp-nodeserver-develop/server/utils/queueProjectReader.js:246-255` | acknowledge whatever the callback answers |
| `QueueReader.TransactionQueue.PushSelected` | `pledgecamp-nodeserver-develop/server/cli/rabbitWarmup.js:20-34` | one push for every row in a selected status, and no other |
| `QueueReader.TransactionQueue.RabbitWarmup` | `pledgecamp-nodeserver-develop/server/cli/rabbitWarmup.js:10-35` | purge and pushes are the restart step |
| `QueueReader.TransactionQueue.HandleAll` | `pledgecamp-nodeserver-develop/server/utils/queueProjectReader.js:30-316` | any sequence of blocks on the object, from its constructor on and with restarts, ends where the state machine does, with exactly one live copy for each unfinished transaction and none for others |
| `Composition.ExactlyOnceEndToEnd` | `pledgecamp-oracle-develop/handlers/handlers_projects.go:46-128` | over all runs, restarts included: a settled transaction with a callback is reported exactly once unless a restart lost its report; handling all its reports moves the oracle's activity from pending, to the transaction status minus one, if and only if none did and the transaction failed or the posted events can be read by the activity's handler |
| `Composition.ExactlyOnceWithoutRestarts` | `pledgecamp-oracle-develop/handlers/handlers_projects.go:46-128` | the same without restarts, where nothing is lost |
| `Composition.NoLogsLeavesPending` | `pledgecamp-oracle-develop/handlers/handlers_projects.go:46-128` | a completed transaction of one of the six kinds that read events, reported without logs, always leaves its activity pending and the record as it was |
| `Composition.ActivityCanStayPending` | `pledgecamp-nodeserver-develop/server/utils/queueProjectReader.js:207-247` | for each of these kinds a run without restarts in which that happens |
| `CivilTime.BeforeIsChronological` | `pledgecamp-oracle-develop/utils/utils_warmup.go:67` | calendar fields compare like seconds |
| `CivilTime.TextOrderIsChronological` | `pledgecamp-oracle-develop/utils/utils_warmup.go:67` | "YYYY-MM-DD hh:mm:ss" texts of years 0 to 9999 compare like the times |
| `CivilTime.FromUnix` | `pledgecamp-oracle-develop/utils/utils_warmup.go:61-67` | the calendar split is valid and loses nothing |
| `CivilTime.ToUnixIsInverse` | `pledgecamp-oracle-develop/utils/utils_warmup.go:61-67` | splitting and recombining are inverse |
| `CivilTime.DueTestIsComparison` | `pledgecamp-oracle-develop/utils/utils_warmup.go:67` | the due test on text is now >= next date |
| `CivilTime.YearAtMost1970` | `pledgecamp-oracle-develop/utils/utils_warmup.go:55` | the year test is the bound 31536000 on seconds |
| `CivilTime.StampsAgreeExactly` | `pledgecamp-oracle-develop/utils/utils_check_milestone.go:136` | two "2020-08-31" texts agree exactly for the same day of the month and the same twelve-hour hour and month, or one of two pairs of these whose digits run together |
| `CivilTime.StampIsLossy` | `pledgecamp-oracle-develop/utils/utils_check_milestone.go:136` | times that differ in year, month and hour with the same text |
| `CivilTime.DayNumberClosed` | `pledgecamp-oracle-develop/utils/utils_warmup.go:61-67` | the day number of every date is that of a formula without tables of months or leap years |
| `OracleSpec.NextIndex` | `pledgecamp-oracle-develop/utils/utils_check_milestone.go:109-121` | the first milestone after now, if any |
| `OracleHistory.RunKeepsStatusOk` | `pledgecamp-oracle-develop/utils/utils_cancel_project.go:79-112` | over any run the completed list only grows at its end, a completion time once set stays set, milestones stay, and Ended, MilestoneSuccess, Cancelled, ReadyToCancel and MilestonePhase are backed by completion time and list |
| `OracleHistory.HistoryFromCreation` | `pledgecamp-oracle-develop/utils/utils_project_create.go:46-64` | the same from creation on, between any two points of the history |
| `OracleHistory.EndsAreEarned` | `pledgecamp-oracle-develop/utils/utils_release_funds.go:95-102` | Ended is entered only from MilestoneSuccess by a withdrawal, Failed only from MilestoneFailed by a refund, MilestoneSuccess only by a check |
| `OracleHistory.OnlyCompletionsChangeTheRecord` | `pledgecamp-oracle-develop/handlers/handlers_projects.go:46-128` | after any callbacks, a changed record means that one of them reported completion |
| `OracleHistory.CallbackSettlesActivity` | `pledgecamp-oracle-develop/handlers/handlers_projects.go:108-128` | a pending activity leaves that state at a final callback if and only if the transaction failed or its events have the form its kind's handler reads; then its status is the transaction status minus one, otherwise nothing changes |
| `OracleHistory.WithdrawalAnnouncesZero` | `pledgecamp-oracle-develop/utils/utils_release_funds.go:69-113` | a completed withdrawal ends a successful project and announces zero, which is the withdrawn amount if and only if that is zero |
| `OracleHistory.WithdrawalsAreOnlyAskedFor` | `pledgecamp-oracle-develop/utils/utils_check_milestone.go:95-98` | over any run the withdrawal requests sent are exactly those made from outside: a passed milestone sends none |
| `OracleHistory.RefundFanOut` | `pledgecamp-oracle-develop/utils/utils_check_milestone.go:186-197` | exactly one pending refund activity and request per backer, in backer order, nothing else touched |
| `OracleHistory.OneWithdrawalForAllRefunds` | `pledgecamp-oracle-develop/utils/utils_release_funds.go:127-185` | for every order and mixture of refund callbacks, a failed milestone becomes Failed at the first refund and one fund withdrawal with its amount is announced |
| `OracleHistory.FailedMilestoneEndToEnd` | `pledgecamp-oracle-develop/utils/utils_check_milestone.go:163-197` | both together, from the failed check to any order of refund callbacks |
| `OracleHistory.ListIsCompletions` | `pledgecamp-oracle-develop/models/models_project_activity.go:158-165` | after any run the list of completed activities is what it was, followed by the kinds whose completion was reported, in order |
| `OracleHistory.NoticesAreExpected` | `pledgecamp-oracle-develop/utils/utils_set_backers.go:99-128` | over any run whatever, one completion notice for each backers callback, and each info callback with funding recorded, by whose time all three kinds are completed, and no other |
| `OracleHistory.NoticeExactly` | `pledgecamp-oracle-develop/utils/utils_set_backers.go:99-128` | from creation on, the same in terms of the completions reported in the history |
| `OracleHistory.OneNoticePerCreation` | `pledgecamp-oracle-develop/utils/utils_set_project_info.go:126-178` | from creation over any run in which each of the three is completed once, in any order and with anything in between, and the information with funding recorded: one notice if the deployment is not last, none if it is |
| `OracleHistory.DeployLastSendsNone` | `pledgecamp-oracle-develop/utils/utils_project_create.go:121-142` | from creation over any run that ends with the first completed deployment callback: no notice at all |
| `OracleHistory.InOrderSendsOne` | `pledgecamp-oracle-develop/utils/utils_set_project_info.go:140-161` | the in-order run from creation, with the activity that the info callback opens: one notice |
| `OracleHistory.DeployLastOccurs` | `pledgecamp-oracle-develop/utils/utils_project_create.go:121-142` | a run from creation with the deployment confirmed last: everything completed, no notice |
| `Milestones.NextIsLeast` | `pledgecamp-oracle-develop/utils/utils_check_milestone.go:109-121` | with sorted milestones the first later milestone is the least |
| `Milestones.ScheduleOverRuns` | `pledgecamp-oracle-develop/utils/utils_check_milestone.go:109-147` | without recovery the next date is always a milestone, never goes back, and is the least milestone after the latest passed check that had one |
| `Milestones.DuePassesUseUpMilestones` | `pledgecamp-oracle-develop/utils/utils_check_milestone.go:109-121` | each due passed check uses up one milestone |
| `Milestones.AtMostOneDuePassPerMilestone` | `pledgecamp-oracle-develop/utils/utils_check_milestone.go:124-147` | as many due passed checks as milestones mean success or the branch that gives up |
| `Milestones.OneCheckPerGapSucceeds` | `pledgecamp-oracle-develop/utils/utils_check_milestone.go:109-143` | at least one passed check in every gap between increasing milestones gives MilestoneSuccess at the first check after the last, with exactly one due check per milestone, and never gives up |
| `Milestones.FinalCheckOutcome` | `pledgecamp-oracle-develop/utils/utils_check_milestone.go:124-146` | after the last milestone a passed check completes if and only if there is one milestone or the stamps agree; otherwise it gives up with the record unchanged |
| `Milestones.SkippedMilestoneOutcome` | `pledgecamp-oracle-develop/utils/utils_check_milestone.go:124-146` | with two milestones and the only check after both, the project succeeds, the last one unchecked, if and only if they share their stamp; otherwise it gives up |
| `Milestones.StampDecidesTheProject` | `pledgecamp-oracle-develop/utils/utils_check_milestone.go:136` | dates for which each of these happens |
| `Milestones.ChecksAreDueTicks` | `pledgecamp-oracle-develop/utils/utils_warmup.go:47-75` | over any run the checks sent are one per tick that finds the project selected, in its milestone phase and due, besides those asked for from outside |
| `Milestones.NoCheckOutOfPhase` | `pledgecamp-oracle-develop/utils/utils_warmup.go:52-72` | over any run whose ticks find the project out of its milestone phase the scheduler sends no check |
| `Milestones.NoCheckBeforeTheNextMilestone` | `pledgecamp-oracle-develop/utils/utils_warmup.go:67-72` | between a passed check and the next milestone no check is issued, whatever ticks and callbacks come |
| `Milestones.PlaceholderHandOver` | `pledgecamp-oracle-develop/utils/utils_project_create.go:50` | from creation over any timed run without recovery: until a passed check moves it on, the next date is the placeholder before the first tick in the milestone phase and exactly the first milestone from that tick on, if that milestone is below 31536000000; afterwards the least milestone after the latest passed check |
| `Milestones.FirstTickSetsFirstMilestone` | `pledgecamp-oracle-develop/utils/utils_warmup.go:55-66` | the first tick in the milestone phase puts the project on schedule at the first milestone, which stays over all that follows until a passed check |
| `OracleOutcomes.CheckReads` | `pledgecamp-oracle-develop/utils/utils_check_milestone.go:72-81` | the events of a check can be read if and only if each has a second field, and the result is whether that of the last one is the flag true |
| `OracleOutcomes.CancelOutcome` | `pledgecamp-oracle-develop/utils/utils_cancel_project.go:60-142` | cancelled if and only if the second event is the flag true, otherwise back to the milestone phase; the notice that moderation has ended carries the same decision |
| `OracleOutcomes.LastDecisionDecides` | `pledgecamp-oracle-develop/utils/utils_cancel_project.go:87-112` | after any run that ends with a readable decision the status is that decision |
| `OracleOutcomes.ModeratorsOutcome` | `pledgecamp-oracle-develop/utils/utils_set_moderators.go:61-93` | recorded moderators open the moderation phase and are announced |
| `OracleOutcomes.CommitOutcome` | `pledgecamp-oracle-develop/utils/utils_commit_moderation_votes.go:83-112` | committed votes make the project ready to cancel and ask for the decision at once |
| `OracleOutcomes.DeployOutcome` | `pledgecamp-oracle-develop/utils/utils_project_create.go:97-142` | the last event text becomes the contract, the project is deployed and announced |
| `OracleOutcomes.BackersOutcome` | `pledgecamp-oracle-develop/utils/utils_set_backers.go:77-97` | recorded backers open the milestone phase |
| `OracleOutcomes.InfoOutcome` | `pledgecamp-oracle-develop/utils/utils_set_project_info.go:107-161` | recorded information leaves the status and asks for the backers |
| `OracleOutcomes.CheckOutcome` | `pledgecamp-oracle-develop/utils/utils_check_milestone.go:71-213` | passed exactly if the second field of the last event is the flag true: released while a later milestone exists; anything else fails the project and asks for one refund per backer |
| `OracleOutcomes.RecoveryOutcome` | `pledgecamp-oracle-develop/utils/utils_failed_fund_recovery.go:59-104` | recovered funds end the schedule and are announced with their amount |
| `OracleOutcomes.FailureOutcome` | `pledgecamp-oracle-develop/handlers/handlers_projects.go:108-146` | each failed status has its own activity status; the project stays |
| `OracleOutcomes.VoteOutcome` | `pledgecamp-oracle-develop/utils/utils_submit_vote.go:183-282` | a vote leaves the project, its activity succeeds, and it is announced when every event has the fields of its type |
| `OracleOutcomes.OtherOutcome` | `pledgecamp-oracle-develop/handlers/handlers_projects.go:76-106` | any other activity succeeds and is announced if its type is known |
| `OracleOutcomes.FundingIsLastRequested` | `pledgecamp-oracle-develop/utils/utils_set_project_info.go:65-72` | over any run the recorded backers and amounts are those of the last request to record them, and nothing else changes them; such a request sets the status to Deployed |
| `OracleRequests.RequestsOwnActivities` | `pledgecamp-oracle-develop/models/models_project_activity.go:143-155` | over any run requests and activities stay matched one to one and in order, each request with an activity of its own kind, except for one further activity for each vote asked for; none is lost or changes its kind |
| `OracleRequests.RequestsOwnActivitiesFromCreation` | `pledgecamp-oracle-develop/utils/utils_submit_vote.go:154-175` | so from creation on there are as many activities as requests and votes asked for |
| `OracleOutcomes.StepEnters` | `pledgecamp-oracle-develop/handlers/handlers_projects.go:46-128` | for each status the only events by which a project can enter it, in terms of the report's own fields |
| `OracleOutcomes.StatusesHaveReasons` | `pledgecamp-oracle-develop/utils/utils_cancel_project.go:79-112` | over any run a project has the status it had or one that such an event gave it: it is cancelled only by a decision that is true, and failed only by a check that does not say passed |
| `OracleOutcomes.TickOutcome` | `pledgecamp-oracle-develop/utils/utils_warmup.go:47-75` | a tick sends exactly one check if and only if the project is in its milestone phase, its date is after the start of year 1, and that date, or the first milestone for a date before 1971, has come; nothing else changes |
| `OracleOutcomes.ScheduledAfterRun` | `pledgecamp-oracle-develop/utils/utils_check_milestone.go:109-121` | from creation over any timed run without recovery: the scheduled date is the least milestone after the latest passed check, before any the first milestone |
| `OracleOutcomes.DueTickSendsCheck` | `pledgecamp-oracle-develop/utils/utils_warmup.go:67-72` | hence a tick that finds the project in its milestone phase at or after that date sends exactly one check, an earlier one none |
| `Decimals.ReadsDecimal` | `pledgecamp-oracle-develop/utils/utils_unstake_plg.go:100` | reading undoes writing for every integer, negative ones included |
| `Decimals.ReadsNumeral` | `pledgecamp-oracle-develop/utils/utils_unstake_plg.go:100` | the same for the digits of every natural number |
| `Decimals.PlaceValue` | `pledgecamp-oracle-develop/utils/utils_unstake_plg.go:100` | digits in front count ten times as much for each digit behind them |
| `Decimals.ReadsSigns` | `pledgecamp-oracle-develop/utils/utils_unstake_plg.go:100` | a plus or minus in front of digits is read as such |
| `Decimals.OtherTextReadsZero` | `pledgecamp-oracle-develop/utils/utils_unstake_plg.go:100` | text that is no number reads zero |
| `Decimals.LastPairReadsSecondOfLast` | `pledgecamp-oracle-develop/utils/utils_unstake_plg.go:93-102` | stakes, unstakes and withdrawals of interest read the decimal second field of the last event |
| `Decimals.FirstPairReadsSecondOfFirst` | `pledgecamp-oracle-develop/utils/utils_reinvest_plg.go:84-94` | a reinvestment reads that of the first event, whatever the others carry |
| `Decimals.LastPlainReadsLast` | `pledgecamp-oracle-develop/utils/utils_post_interest.go:83-91` | a posting reads the last event itself |
| `Decimals.LastAmountReadsFirstOfLast` | `pledgecamp-oracle-develop/utils/utils_release_funds.go:133-144` | a refund reads the first field of the last event |
| `Decimals.LastVoteReadsFields` | `pledgecamp-oracle-develop/utils/utils_submit_vote.go:198-222` | a milestone vote reads user and vote from the first two fields of the last event, a moderation vote the user from the second |
| `Decimals.LastFlagReadsSecondOfLast` | `pledgecamp-oracle-develop/utils/utils_check_milestone.go:76-81` | a check reads the second field of the last event; anything but the flag true is no pass |
| `Decimals.ReportBooksDecimal` | `pledgecamp-oracle-develop/utils/utils_unstake_plg.go:111-121` | after any history a report that carries a decimal amount books minus it for an unstake, it for a reinvestment, and notes it for a withdrawal and a posting, in its request's row only; the owner's balance changes by the difference and nobody else's |
| `OracleService.ReadLastFlag` | `pledgecamp-oracle-develop/utils/utils_check_milestone.go:72-81` | the flag of the last event; nothing on a malformed event |
| `OracleService.ReadLastAmount` | `pledgecamp-oracle-develop/utils/utils_release_funds.go:133-144` | the amount of the last event |
| `OracleService.ReadLastText` | `pledgecamp-oracle-develop/utils/utils_project_create.go:100-107` | the last text |
| `OracleService.CheckCompletedActivity` | `pledgecamp-oracle-develop/models/models_project_activity.go:158-165` | membership, by search |
| `OracleService.AllCompleted` | `pledgecamp-oracle-develop/utils/utils_set_backers.go:101-111` | all required activities are listed |
| `OracleService.IsPlaceholder` | `pledgecamp-oracle-develop/utils/utils_warmup.go:55` | the year test |
| `OracleService.IsDue` | `pledgecamp-oracle-develop/utils/utils_warmup.go:67` | the text test |
| `OracleService.ProjectOracle.constructor` | `pledgecamp-oracle-develop/utils/utils_project_create.go:46-64` | the initial record and its first activity |
| `OracleService.ProjectOracle.ProjectCreateCallback` | `pledgecamp-oracle-develop/utils/utils_project_create.go:91-147` | is the deployment step |
| `OracleService.ProjectOracle.SetBackersCallback` | `pledgecamp-oracle-develop/utils/utils_set_backers.go:72-133` | is the backers step |
| `OracleService.ProjectOracle.SetProjectInfoCallback` | `pledgecamp-oracle-develop/utils/utils_set_project_info.go:102-183` | is the project information step |
| `OracleService.ProjectOracle.SetProjectInfoRequest` | `pledgecamp-oracle-develop/utils/utils_set_project_info.go:18-99` | rewrites the parameters before anything is confirmed |
| `OracleService.ProjectOracle.SetModeratorsCallback` | `pledgecamp-oracle-develop/utils/utils_set_moderators.go:56-98` | is the moderators step |
| `OracleService.ProjectOracle.CommitModerationVotesCallback` | `pledgecamp-oracle-develop/utils/utils_commit_moderation_votes.go:79-115` | is the commit step |
| `OracleService.ProjectOracle.CancelProjectCallback` | `pledgecamp-oracle-develop/utils/utils_cancel_project.go:55-146` | is the cancellation step |
| `OracleService.ProjectOracle.FillNext` | `pledgecamp-oracle-develop/utils/utils_check_milestone.go:101-121` | the loop with the filled flag finds the first later milestone |
| `OracleService.ProjectOracle.MilestonePassed` | `pledgecamp-oracle-develop/utils/utils_check_milestone.go:85-160` | next milestone, completion, or the branch that gives up |
| `OracleService.ProjectOracle.DistributeRefunds` | `pledgecamp-oracle-develop/utils/utils_check_milestone.go:186-197` | the refund loop |
| `OracleService.ProjectOracle.MilestoneMissed` | `pledgecamp-oracle-develop/utils/utils_check_milestone.go:163-213` | a failed milestone |
| `OracleService.ProjectOracle.CheckMilestoneCallback` | `pledgecamp-oracle-develop/utils/utils_check_milestone.go:58-218` | is the check step |
| `OracleService.ProjectOracle.WithdrawFundsCallback` | `pledgecamp-oracle-develop/utils/utils_release_funds.go:62-124` | is the withdrawal step, with the loop whose own variable hides the amount |
| `OracleService.ProjectOracle.RequestRefundCallback` | `pledgecamp-oracle-develop/utils/utils_release_funds.go:127-190` | is the refund step |
| `OracleService.ProjectOracle.FailedFundRecoveryCallback` | `pledgecamp-oracle-develop/utils/utils_failed_fund_recovery.go:54-114` | is the recovery step, which leaves the zero date |
| `OracleService.ProjectOracle.ProjectCallbackHandler` | `pledgecamp-oracle-develop/handlers/handlers_projects.go:18-158` | dispatch and failure mapping: is the callback step |
| `OracleService.ProjectOracle.MilestoneInterval` | `pledgecamp-oracle-develop/utils/utils_warmup.go:47-75` | one project of the scheduler's loop is the tick step |
| `OracleService.ProjectOracle.HandleAll` | `pledgecamp-oracle-develop/handlers/handlers_projects.go:18-158` | any sequence of callbacks, requests and ticks on the object ends where the state machine does, with the list grown by exactly the completions reported, the status backed by it and the due notices sent |
| `OracleService.TickAll` | `pledgecamp-oracle-develop/utils/utils_warmup.go:47-75` | every project gets its own tick and no other's |
| `Votes.CountIsBoth` | `pledgecamp-oracle-develop/utils/utils_submit_vote.go:284-296` | in every run the rows counted against the threshold are submissions plus confirmations |
| `Votes.CommitsAtSevenRows` | `pledgecamp-oracle-develop/utils/utils_submit_vote.go:284-311` | an event adds a commit if and only if it is a readable confirmation of a moderation vote with which submissions and confirmations reach seven; a milestone vote never does |
| `Votes.CommitNeedsFourSubmissions` | `pledgecamp-oracle-develop/utils/utils_submit_vote.go:296-308` | with at most one confirmation per submission a commit means at least four submissions |
| `Votes.FourSubmissionsCommit` | `pledgecamp-oracle-develop/utils/utils_submit_vote.go:296-308` | four are enough, seven are not needed |
| `Votes.KeyedEntriesAreTheSubmissions` | `pledgecamp-oracle-develop/utils/utils_commit_moderation_votes.go:44-52` | in every run the keyed entries are exactly the submitted votes with a key, in order |
| `Votes.CommittedKeysAreTheSubmissions` | `pledgecamp-oracle-develop/utils/utils_commit_moderation_votes.go:39-66` | a commit sends the contributions of all the project's submissions and confirmations, in order; those with a key are exactly the submitted votes with one |
| `Votes.ArraysAreAligned` | `pledgecamp-oracle-develop/utils/utils_commit_moderation_votes.go:39-52` | entry i of the three arrays is vote, key and user of row i for a moderation vote, with a key or without, and a blank for any other row |
| `Votes.ArraysAreTheHistory` | `pledgecamp-oracle-develop/utils/utils_commit_moderation_votes.go:39-66` | in every run the arrays that would be committed are, in order, vote, key and user of each submission, the user alone of each moderation confirmation, a blank for each milestone vote |
| `Votes.SealsAreTheSubmissions` | `pledgecamp-oracle-develop/utils/utils_submit_vote.go:64-106` | in every run the hashes kept for a project are those submitted, each with its voter and vote, in order |
| `Votes.ConfirmationStores` | `pledgecamp-oracle-develop/utils/utils_submit_vote.go:224-248` | a confirmation stores the voter its last event names, a milestone vote's choice with it, and no key |
| `Votes.VoteBook.SubmitVote` | `pledgecamp-oracle-develop/utils/utils_submit_vote.go:64-113` | stores a row for a moderation vote only |
| `Votes.VoteBook.Search` | `pledgecamp-oracle-develop/models/models_votes.go:85-110` | the project's rows and the number of moderation rows |
| `Votes.VoteBook.FillArrays` | `pledgecamp-oracle-develop/utils/utils_commit_moderation_votes.go:39-52` | the index loop fills the three arrays |
| `OracleService.ProjectOracle.VoteCallback` | `pledgecamp-oracle-develop/utils/utils_submit_vote.go:178-282` | is the vote step: the activity succeeds before the events are read |
| `Votes.VoteBook.CommitModerationVotes` | `pledgecamp-oracle-develop/utils/utils_commit_moderation_votes.go:37-76` | commits at seven or more |
| `OracleService.ReadVotes` | `pledgecamp-oracle-develop/utils/utils_submit_vote.go:194-222` | user and vote of the last event, by the activity's type |
| `Votes.VoteBook.VoteCallback` | `pledgecamp-oracle-develop/utils/utils_submit_vote.go:224-313` | stores the second row and commits at the threshold |
| `Votes.VoteBook.HandleAll` | `pledgecamp-oracle-develop/utils/utils_submit_vote.go:23-319` | any sequence of submissions and confirmations on the object: moderation rows are both together, and the arrays that would be committed, the keyed entries and the hashes are those of the history |
| `VoteCodec.ArraysRoundTrip` | `pledgecamp-nodeserver-develop/server/contracts/project.js:1417-1520` | a payload sent as arrays is parsed back unchanged |
| `VoteCodec.TextIdsAlwaysRejected` | `pledgecamp-nodeserver-develop/server/contracts/project.js:1493-1510` | no text is accepted for the user ids, so a payload sent as text is always rejected |
| `VoteCodec.VoteTextRoundTripsExactly` | `pledgecamp-nodeserver-develop/server/contracts/project.js:1418-1433` | votes written as bracketed text come back if and only if there is one |
| `VoteCodec.KeyTextRoundTripsExactly` | `pledgecamp-nodeserver-develop/server/contracts/project.js:1464-1490` | keys written as bracketed text come back if and only if there are keys, none has a space, and a closing bracket occurs only at the very end |
| `VoteCodec.ArraysAcceptedExactly` | `pledgecamp-nodeserver-develop/server/contracts/project.js:1417-1520` | arrays are accepted if and only if every entry has its type, and then unchanged |
| `VoteCodec.VoteTextAcceptedExactly` | `pledgecamp-nodeserver-develop/server/contracts/project.js:1418-1433` | a text of votes is accepted if and only if every piece spells one of the two words in whatever case, and each vote is the word spelled |
| `VoteCodec.SplitJoin` | `pledgecamp-nodeserver-develop/server/contracts/project.js:1420` | splitting undoes joining of pieces without the separator |
| `VoteCodec.JoinSplit` | `pledgecamp-nodeserver-develop/server/contracts/project.js:1420` | joining undoes splitting |
| `VoteCodec.ConvertVoteText` | `pledgecamp-nodeserver-develop/server/contracts/project.js:1419-1433` | the loop over the pieces of a vote text |
| `VoteCodec.ConvertIds` | `pledgecamp-nodeserver-develop/server/contracts/project.js:1502-1511` | the loop over the ids |
| `Validators.ReadyExactly` | `pledgecamp-nodeserver-develop/server/contracts/project.js:83-190` | for every configuration, a request is accepted with exactly these milestones and percentages if and only if they were sent as arrays of numbers, none is in the past, the milestones are a run of the present time, one step of at most the maximum, then gaps within the bounds, and the percentages sum to 100; nothing is altered |
| `Validators.TextRefused` | `pledgecamp-nodeserver-develop/server/contracts/project.js:90-112` | text or a non-array is always refused for its format |
| `Validators.Nondecreasing` | `pledgecamp-nodeserver-develop/server/contracts/project.js:105-136` | accepted milestones are in order and not before the request |
| `Validators.WithinReach` | `pledgecamp-nodeserver-develop/server/contracts/project.js:128-134` | entry i is at most now+(i+1)*max |
| `Validators.CountBound` | `pledgecamp-nodeserver-develop/server/contracts/project.js:121-127` | entries after now are at most 1+(last-first)/min |
| `Validators.OrderedExactlyWhen` | `pledgecamp-nodeserver-develop/server/contracts/project.js:121-134` | accepted milestones are always in order if and only if the minimum is not negative or the maximum is below one |
| `Validators.RefusedExactly` | `pledgecamp-nodeserver-develop/server/contracts/project.js:105-136` | milestones are refused for a reason if and only if some entry fails for that reason, by its own time and the one before, and every entry before it is good |
| `Validators.PercentsRefusedExactly` | `pledgecamp-nodeserver-develop/server/contracts/project.js:140-189` | once the milestones have passed, an array of percentages is refused for its format if and only if an entry is no number, and for its sum if and only if all are numbers and it is not 100 |
| `Validators.ConvertMilestones` | `pledgecamp-nodeserver-develop/server/contracts/project.js:105-139` | the loop with the previous milestone reports the first fault of the first faulty entry |
| `Validators.ConvertPercents` | `pledgecamp-nodeserver-develop/server/contracts/project.js:161-189` | the loop with the cumulative percentage |
| `Validators.DeployChecks` | `pledgecamp-nodeserver-develop/server/contracts/project.js:83-190` | both checks, milestones first |
| `LedgerSpec.RunKeepsNumbered` | `pledgecamp-oracle-develop/utils/utils_stake_plg.go:39-58` | in every run row ids are 1..n and each activity belongs to its row |
| `LedgerHistory.RunMatches` | `pledgecamp-oracle-develop/utils/utils_unstake_plg.go:112-121` | in every run each row's movement is what the reports about its request made of it |
| `LedgerHistory.BalanceIsHistory` | `pledgecamp-oracle-develop/utils/utils_cs_state.go:17-30` | for every user and interleaving the balance is the sum over the user's requests of what the reports made of them, whatever types the reports carry |
| `LedgerHistory.BalanceIsShares` | `pledgecamp-oracle-develop/utils/utils_cs_state.go:17-30` | with reports that carry their request's type: requested stakes less completed unstakes plus completed reinvestments; more than the confirmed ledger by exactly the stakes without a success |
| `LedgerHistory.MistypedReportBreaksTheBalance` | `pledgecamp-oracle-develop/handlers/handlers_projects.go:186-201` | the types are needed: an unstake report for a stake's activity |
| `LedgerHistory.RepeatedReportChangesNothing` | `pledgecamp-oracle-develop/handlers/handlers_projects.go:161-296` | a report delivered again, whatever came in between for other activities, changes nothing |
| `LedgerHistory.OthersDoNotMatter` | `pledgecamp-oracle-develop/utils/utils_cs_state.go:17-30` | a run of other users' requests and reports leaves a user's balance |
| `LedgerHistory.FailuresMoveNothing` | `pledgecamp-oracle-develop/handlers/handlers_projects.go:240-262` | failures, withdrawals, postings and stakes' reports move no balance |
| `LedgerHistory.RunNotes` | `pledgecamp-oracle-develop/utils/utils_withdraw_interest.go:76-134` | in every run each row's amount and its activity's status are what the reports about its request made of them |
| `LedgerService.ReadLastPair` | `pledgecamp-oracle-develop/utils/utils_unstake_plg.go:93-102` | the last event's amount |
| `LedgerService.ReadFirstPair` | `pledgecamp-oracle-develop/utils/utils_reinvest_plg.go:84-95` | the first event's amount |
| `LedgerService.ReadLastPlain` | `pledgecamp-oracle-develop/utils/utils_post_interest.go:83-91` | the last plain amount |
| `LedgerService.ListedActivity` | `pledgecamp-oracle-develop/utils/utils_cs_state.go:17-34` | on numbered rows the activities listed for a user are one per row of that user, each the row's own, in order |
| `LedgerService.QueryGivesBalance` | `pledgecamp-oracle-develop/models/models_campshares.go:130-141` | summing the user's rows is the balance of the table |
| `LedgerService.CampShareBook.GetLatestCsId` | `pledgecamp-oracle-develop/models/models_campshares.go:115-127` | the highest id |
| `LedgerService.CampShareBook.Insert` | `pledgecamp-oracle-develop/utils/utils_stake_plg.go:39-64` | the next id, the row and its activity |
| `LedgerService.CampShareBook.Stake` | `pledgecamp-oracle-develop/utils/utils_stake_plg.go:18-79` | movement booked at the request |
| `LedgerService.CampShareBook.Unstake` | `pledgecamp-oracle-develop/utils/utils_unstake_plg.go:18-83` | no movement at the request |
| `LedgerService.CampShareBook.Reinvest` | `pledgecamp-oracle-develop/utils/utils_reinvest_plg.go:18-73` | no movement at the request |
| `LedgerService.CampShareBook.Withdraw` | `pledgecamp-oracle-develop/utils/utils_withdraw_interest.go:18-74` | no movement |
| `LedgerService.CampShareBook.Post` | `pledgecamp-oracle-develop/utils/utils_post_interest.go:18-72` | no movement, no user |
| `LedgerService.CampShareBook.StakeCallback` | `pledgecamp-oracle-develop/utils/utils_stake_plg.go:82-137` | only the activity changes |
| `LedgerService.CampShareBook.UnstakeCallback` | `pledgecamp-oracle-develop/utils/utils_unstake_plg.go:85-145` | amount and negative movement |
| `LedgerService.CampShareBook.ReinvestCallback` | `pledgecamp-oracle-develop/utils/utils_reinvest_plg.go:76-138` | amount and movement |
| `LedgerService.CampShareBook.WithdrawCallback` | `pledgecamp-oracle-develop/utils/utils_withdraw_interest.go:76-134` | amount only |
| `LedgerService.CampShareBook.PostCallback` | `pledgecamp-oracle-develop/utils/utils_post_interest.go:75-131` | amount only |
| `LedgerService.CampShareBook.CsCallbackHandler` | `pledgecamp-oracle-develop/handlers/handlers_projects.go:161-296` | dispatch and failure mapping |
| `LedgerService.CampShareBook.HandleAll` | `pledgecamp-oracle-develop/handlers/handlers_projects.go:161-296` | any sequence of requests and reports on the object: rows numbered without gaps and every balance what the history says |
| `LedgerService.CampShareBook.CsGetState` | `pledgecamp-oracle-develop/utils/utils_cs_state.go:10-34` | the accumulator loop gives the balance and the activities |

## Left out

- The Solidity contracts: their source is not part of this model; what the chain answers is a parameter.
- web3, ABI encoding, key derivation, gas prices, the broker's connections, knex and upper.io: reduced to moves and maps. Database updates are atomic and succeed, and rows come back in insertion order.
- A write that is still on its way to the database when the process stops: a restart happens before or after it.
- QueueTheorems.RestartIsSafe: takes the purge and the pushes of the restart routine as one step, before any delivery. In the code the purge is not awaited (`queueHandler.js:23`), and the reader starts when its module is loaded (`start.js:8`, `cli/queueTransactions.js:36`), before the warm-up, which is itself not awaited and called in development only (`start.js:17-20`, where a second reader is started too). What a late purge and an overlapping warm-up do is `QueueTheorems.LatePurgeIsSafeExactly` and `QueueTheorems.OverlapIsSafeExactly`.
- QueueSafety.RestartEstablishes: likewise.
- QueueReader.TransactionQueue.RabbitWarmup: likewise.
- The post that follows a message that does not parse: the message holds no callback, so the handler acknowledges it and ends.
- A failing database or chain query inside a handler, and an error object without message text.
- Block numbers, gas used, addresses and hashes copied from receipts into rows, and the rendering of events as text.
- Configuration given as text: the number of confirmations, the block time and the gas levels are numbers.
- Package-level variables that the Go queries fill: what they hold after a query without result depends on a library that is not part of this model. A lookup that finds nothing ends the process, and the first Camp Share id is one.
- Values of a type other than the expected one in stored parameters (a missing creator, milestones as fractions), which panic.
- Transaction hashes and modification times of activities, and the contract address sent along in notifications.
- The lookup of a project by id: each `OracleService.ProjectOracle` is one project that exists, so the refusal of a second creation is not modelled.
- OracleService.ProjectOracle.constructor: a creation without milestones panics before anything is stored; `OracleSpec.Created` gives none for it.
- OracleService.ProjectOracle.MilestoneInterval: times outside the years 0 to 9999, which the calendar text cannot write, and several time zones.
- OracleService.TickAll: likewise.
- The recovery scheduler's ninety-day test, which divides minutes by 24.
- How the vote hash is computed: a submission carries it as a value.
- Votes.VoteBook.SubmitVote: stores the row; the two activities and the request of a submission are those of `OracleSpec.OnRequest`, and the two are not joined.
- Votes.VoteBook.CommitModerationVotes: sends the arrays; the activity opened before the threshold test is not modelled.
- Votes.VoteBook.VoteCallback: stores the row and commits; the activity and the notice are those of `OracleSpec.OnVote`, and the two are not joined.
- The formatter that writes lists as text when the oracle posts a form: its library is not part of this model, `VoteCodec.Bracketed` is the form the parser expects.
- Fractions in milestones and percentages, and debug messages about unusual percentages.
- Notifications of the Camp Share operations, the unstake completion date, and numbers beyond the machine's integer range.
- The other operations of `project.js`: parameter packing with the same tail.
- Express and gin plumbing, authentication, controllers, routes, deployment scripts.
