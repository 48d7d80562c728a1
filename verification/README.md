# Verification model of an unattended coding agent's control and claim machinery

A Dafny model of the durable state behind the agent: the operator-control record, the claim
race between Workers on GitHub, publication of an attempt under lost replies and replays, the
hidden record of the shared handoff comment, cursor paging over the attempt archive, and the two
in-place reducers (cleanup sweep, snapshot size cap). `dafny verify dfyconfig.toml` checks all of it.

## How the files fit together

- `ControlModel` gives each transaction of the control store as a function from state to state;
  `ControlStore` is the class whose methods update the tables step by step and are proved to compute
  those functions. `ControlEffects` tells what each command and outcome does to a reachable record, row by
  row. `ControlInvariant`, `ControlRuns`, `ControlLog`, `ControlCounts`, `ControlGuarantees`, `ControlGap`
  and `ControlIndependence` prove what holds over whole runs of operator
  commands, lifecycle outcomes and the lifecycle's own steps: claim an attempt, count it, report it again,
  drop its checkpoint, resolve its handoff, poll. Each is a step of its own, as the control lock is
  released between them.
- `ClaimProtocol` interleaves single remote reads and writes of any number of Workers on one issue.
  `ClaimNext` is the Worker's own code against a remote that others may change between any two
  operations. `IssueRules` and `RunnableQueue` hold the queue rules and the queue.
- `PushLoop` is the compare-and-swap push loop and `PushHistory` what any sequence of such pushes makes of
  the origin and the lease; `AttemptState` is the checkpoint store. `PullRequests` and `Thread` are the
  pull requests of an attempt branch and the comments of an issue as values, `Remote` the calls on them.
  `SharedRecord` is the store of first-saved intents and the rule for replacing the shared record, and
  `Publication` the publisher on top. Every remote write may land and still report failure, every read
  may fail, others merge, close and comment between any two calls, and time passes.
  `Publisher.Replay` closes over any number of publications of one attempt.
- `Text` and `HandoffMarker` print and parse the record marker; `Cursor` and `Paging` encode, decode and
  follow page cursors; `Sweep` and `SizeCap` are the two reducers.

Classes follow the source's objects; their methods are proved against functions or relations on values,
and the main theorems are lemmas about those. A remote failure, a lost reply and a clock reading are
nondeterministic values; where a theorem is about what they lead to, the methods return them as ghosts.
What a method asked of the network, and when, is kept in ghost logs (calls on GitHub, reads, pushes and
waits at the origin, creates and merges), so that contracts can say what was done and not only what is left.

## Where the code and its documentation part

- Pools whose Workers have ids but different logins can leave an assignment that nobody removes: a loser
  that still sees another marker keeps its assignment, and the last one removes only its own login.
  Pools with ids never strand an issue exactly when all Workers share one login
  (`ClaimProtocol.NeverStrandsExactly`).
- The fresh read before an assignment is removed and the removal are two operations, so under a shared
  login a releasing Worker can strip the assignment of a Worker that won in between. The winner's marker
  stays. Winners stay assigned exactly when logins are distinct
  (`ClaimProtocol.WinnersStayAssignedExactly`).
- An attempt finalized while no countdown is pending leaves no counted row, so reporting it again after a
  later stop-after uses up one of that plan's counts (`ControlGuarantees.ReplayIsSilentIff`,
  `ControlGuarantees.UncountedReplayUsesACount`).
- Counting an attempt and dropping its checkpoint are two steps, and a command between them still sees an
  active attempt. After the drop and the poll, intake stays stopping for an attempt that is gone if and
  only if the plan pending at the drop is a `stop --after 1` (`ControlGap.GapDecides`); only a new operator
  command ends that (`ControlGap.StuckUntilCommanded`, `ControlGap.CommandsFree`). And the active attempt is
  count one of a new plan if and only if it had not been counted yet, or the plan asks for one
  (`ControlGap.ActiveIsCountOneExactly`).
- A merged or closed pull request reads as absent, so publishing an attempt again opens another one. After
  a pass that settled, the next lookup that can be read finds none exactly when the open one was merged or
  closed (`PullRequests.MissedExactly`, `PullRequests.MergedThenCreatedAgain`), and a pass that found none
  creates one exactly when it comes to a create that lands (`PullRequests.MadeExactly`). Two are never open
  at once.
- Result comments and the shared record are looked up among the last 100 comments of the issue. One that
  100 others follow is not found (`Thread.ScrolledOut`), so a replay may post a second result comment or
  shared record. Two of a kind always have 100 comments between them, and while all is in view there is
  one (`Thread.OneWhileInView`).
- A push that landed while neither its reply nor its re-read arrived leaves the lease behind the origin.
  The next push of the same revision recovers; a push of a new revision reports a moved branch although
  nobody else wrote (`PushHistory.LandedUnseen`). Without outside writers a moved error is met if and only
  if the last landed push was of another revision and the lease was never advanced after it
  (`PushHistory.MovedExactlyUnadvanced`).
- Without a recorded lease the deadline is looked at before the fetch, so a push may start after it: if and
  only if the clock reaches the deadline between that look and the end of the fetch of the same round
  (`PushLoop.LateExactly`, `PushLoop.LatePush`). It is then the last push. On the lease path none does.
- Validation does not look for a comment terminator in any text, nor for white space in the repository.
  A record is read back from its own comment exactly when neither occurs (`HandoffMarker.RoundTripExactly`).
  The configuration admits no white space in the repository (`simple_coding_agent/config.py:29`, checked at
  202-204), and then a body never reads as a record of another attempt (`HandoffMarker.ReadsBackExactly`) and
  the shared record never goes back (`SharedRecord.SharedRecordNeverGoesBack`). A terminator in a text
  before the last, or opening the last, makes a comment that no attempt ever replaces
  (`SharedRecord.BlockedExactly`); elsewhere in the last text it keeps the write from being confirmed. Attempt
  IDs, branches and revisions as the program makes them hold none, so this can only be the repository.
- Entries with equal sort keys (such as IDs that are no timestamps, which all sort as the oldest instant)
  are lost at a page boundary, and an ID longer than 256 characters yields a cursor the listing refuses.
  Paging is complete for every page size exactly without those (`Paging.PagingIsCompleteExactly`).
- The cleanup's documentation says a file that the base branch ignores is never dirty and so is kept. It
  is deleted if and only if some directory above it holds no file tracked on the base branch and an
  untracked file that the base branch does not ignore (`Sweep.IgnoredOnBaseIsSweptExactly`,
  `Sweep.IgnoredOnBaseCanBeSwept`).

## Environment assumptions

- Transactions of the control store are atomic. The callers of the completers pass handoff IDs to the
  handoff completers and recovery IDs to the recovery completers, which do not check the kind themselves;
  attempt IDs are not claimed twice. A report of a finalized attempt after its checkpoint is gone names, in
  the runs, a counted one; before that any report may be repeated.
- Every Worker of a pool has a distinct id, or none has an id and all logins are distinct. Issues are not
  deleted in the middle of a race, nobody edits labels or assignees by hand during it, and reads show
  the writes made before them.
- One Worker publishes an issue at a time, which the claim is for; only it writes result comments and the
  shared record of that issue. Attempt IDs are ordered by a total preorder, given as a rank in the reals.
- The archive does not change while its pages are followed.
- Git prints path names as they are, and an untracked file that is not ignored as its topmost directory
  without tracked files, or by its name if there is none; directory names neither begin nor end with white
  space. A checkout creates no untracked file.

## Model

| member | source | states |
|---|---|---|
| ControlStore.ControlStore.SubmitStop | simple_coding_agent/control.py:237-363 | Stop completes at once when stopped, joins or takes over the wait when stopping, and replaces unbegun plans when running; any other outcome leaves the record as it was |
| ControlStore.ControlStore.SubmitResume | simple_coding_agent/control.py:365-484 | Resume supersedes every waiting plan and returns to running, except under a recovery hold (refused) and beside a begun handoff (recorded only) |
| ControlStore.ControlStore.ReturnToRunning | simple_coding_agent/control.py:421-455 | The two partial updates together supersede exactly the accepted stop, stop-after and handoff commands |
| ControlStore.ControlStore.SubmitStopAfter | simple_coding_agent/control.py:486-591 | Stop-after replaces every other plan and starts its countdown, or is refused in the order the code refuses it |
| ControlStore.ControlStore.SubmitHandoff | simple_coding_agent/control.py:666-748 | Handoff takes over the wait of the active attempt, or is refused |
| ControlStore.ControlStore.SubmitNextIssue | simple_coding_agent/control.py:593-664 | The newest next-issue command takes the priority slot and supersedes the one that held it |
| ControlStore.ControlStore.SubmitRow | simple_coding_agent/control.py:1088-1173 | Recovery commands and the errors reset add their own row and change nothing else |
| ControlStore.ControlStore.Insert | simple_coding_agent/control.py:1999-2034 | A new row takes the highest sequence number plus one |
| ControlStore.ControlStore.MaxSequence | simple_coding_agent/control.py:2009-2013 | The highest sequence number over the table, zero when it is empty |
| ControlStore.ControlStore.SupersedePlans | simple_coding_agent/control.py:1858-1877 | Exactly the accepted commands of the given kinds become superseded, and exactly they are returned |
| ControlStore.ControlStore.MarkHandoffDelivering | simple_coding_agent/control.py:750-772 | Only the tracked, accepted handoff enters the delivering phase |
| ControlStore.ControlStore.MarkHandoffBegun | simple_coding_agent/control.py:774-797 | Only the tracked, accepted handoff is marked as begun |
| ControlStore.ControlStore.EndHandoff | simple_coding_agent/control.py:799-940 | Completing or failing the pending handoff stops intake and completes the plain stops that waited with it |
| ControlStore.ControlStore.CompleteNextIssue | simple_coding_agent/control.py:986-1034 | Claiming the priority issue clears the slot and completes its command; another number changes nothing |
| ControlStore.ControlStore.FailNextIssue | simple_coding_agent/control.py:1036-1086 | The slot is cleared and its command ends as not fulfilled |
| ControlStore.ControlStore.EndRecoveryCommand | simple_coding_agent/control.py:1175-1237 | One accepted row is settled and nothing else changes |
| ControlStore.ControlStore.CompletePendingStop | simple_coding_agent/control.py:1441-1468 | A pending plain stop stops intake and completes every accepted plain stop |
| ControlStore.ControlStore.RecordAttemptFinalized | simple_coding_agent/control.py:1470-1590 | One attempt is counted against the pending countdown at most once; without a countdown waiting plain stops complete |
| ControlStore.ControlStore.EnterStoppingForFinalClaim | simple_coding_agent/control.py:1634-1669 | Intake enters stopping exactly when one count remains while running |
| ControlEffects.StopWhileRunning | simple_coding_agent/control.py:237-363 | A new stop while running makes intake stopping with this stop accepted and pending when an attempt is active, and else stopped with it completed; it supersedes exactly the countdown or the unbegun handoff that was pending |
| ControlEffects.StopWhileStopping | simple_coding_agent/control.py:270-314 | While stopping it is accepted beside the stops that wait, and takes the wait over exactly from a countdown or a handoff the model has not begun |
| ControlEffects.StopWhileStopped | simple_coding_agent/control.py:264-269 | While stopped it completes at once |
| ControlEffects.ResumeRuns | simple_coding_agent/control.py:365-484 | A new resume without a recovery hold supersedes every waiting plan, clears pending, countdown and tracking, and intake runs; beside a begun handoff only its row is added |
| ControlEffects.HeldIsRefused | simple_coding_agent/control.py:399-419 | Under a recovery hold a new resume is refused and changes nothing |
| ControlEffects.StopAfterCounts | simple_coding_agent/control.py:486-591 | A new stop-after is refused for a count below one, when stopped or beside a begun handoff; otherwise it supersedes every waiting plan, is the pending one, counts from its number, and makes intake stopping exactly for the one count of an active attempt |
| ControlEffects.StopAfterIdentity | simple_coding_agent/control.py:486-591 | In any record: beside an active attempt without an identity it is refused, and beside none its countdown names none |
| ControlEffects.BegunHandoffStays | simple_coding_agent/control.py:303-340 | In any record: no stop moves the row of a handoff that the model has begun |
| ControlEffects.HandoffWaits | simple_coding_agent/control.py:666-748 | A new handoff is refused under a recovery hold, without an active attempt or beside a begun one; otherwise it supersedes every waiting plan and is the tracked, pending, not yet begun one |
| ControlEffects.NextIssueTakesTheSlot | simple_coding_agent/control.py:593-664 | A new next-issue command of a positive number takes the slot with that number and supersedes exactly the command that held it |
| ControlEffects.RowIsAdded | simple_coding_agent/control.py:1088-1286 | Recovery commands and the errors reset add one row and touch nothing else |
| ControlEffects.BadIdsAreRefused | simple_coding_agent/control.py:250-256 | Every command is refused, without effect, under a blank request ID or one of more than 128 characters |
| ControlEffects.HandoffProgress | simple_coding_agent/control.py:750-797 | Delivering and beginning move the phase of exactly the tracked, waiting request, and beginning marks it |
| ControlEffects.HandoffEnds | simple_coding_agent/control.py:799-940 | Ending a waiting handoff settles it as told, stops intake, clears the wait and completes exactly the waiting plain stops; ending another changes nothing |
| ControlEffects.SlotEnds | simple_coding_agent/control.py:986-1086 | Claiming the issue of the slot completes exactly its command, dropping the slot ends that as not fulfilled, and another number changes nothing |
| ControlEffects.RecoveryEnds | simple_coding_agent/control.py:1175-1237 | Ending a recovery command moves that row, if it waits, and nothing else |
| ControlEffects.FinalizedIsCounted | simple_coding_agent/control.py:1517-1576 | A finalized attempt is counted for the pending plan under its outcome; the last count completes the plan and stops intake, any other leaves one count fewer and intake running |
| ControlEffects.FinalizedWithoutCountdown | simple_coding_agent/control.py:1577-1632 | Without a countdown it completes the waiting plain stops and stops intake if one of them is pending, and else changes nothing |
| ControlEffects.CountingRunsOn | simple_coding_agent/control.py:1562-1575 | In any record: with more than one count left, counting makes intake run unless it is stopped |
| ControlEffects.ReportedAreCompleted | simple_coding_agent/control.py:1470-1590 | The commands a finalized attempt reports as completed are exactly the ones it completes |
| ControlEffects.ClaimCloses | simple_coding_agent/control.py:1634-1669 | A claim makes intake stopping exactly with one count left, and changes nothing else |
| ControlGuarantees.ReachableStates | simple_coding_agent/control.py:217-224 | After every run, the states between counting an attempt and dropping its checkpoint included: pending is empty exactly when no plan waits and else names a waiting one; stopped waits for nothing; an accepted stop-after or handoff is the pending one; a stop stands beside a handoff only once that has begun; a countdown exists exactly for a pending stop-after, within 1..requested; the slot is the one accepted next-issue command |
| ControlInvariant.StopKeeps | simple_coding_agent/control.py:258-348 | A stop keeps every relation between the tables, whatever intake it meets |
| ControlInvariant.ResumeKeeps | simple_coding_agent/control.py:399-470 | A resume keeps every relation between the tables |
| ControlInvariant.StopAfterKeeps | simple_coding_agent/control.py:520-590 | A stop-after keeps every relation between the tables |
| ControlInvariant.HandoffKeeps | simple_coding_agent/control.py:700-748 | A handoff keeps every relation between the tables |
| ControlInvariant.NextIssueKeeps | simple_coding_agent/control.py:620-664 | A next-issue command keeps the slot equal to the one accepted next-issue command |
| ControlInvariant.ResolveHandoffKeeps | simple_coding_agent/control.py:813-860 | Ending a handoff keeps every relation between the tables, given that the ID names a handoff |
| ControlRuns.CountKeeps | simple_coding_agent/control.py:1470-1590 | Counting an attempt keeps every relation between the tables while its checkpoint still exists |
| ControlRuns.ResolveTrackedKeeps | simple_coding_agent/lifecycle.py:5512-5681 | Resolving the tracked handoff after the drop keeps every relation between the tables |
| ControlRuns.PolledKeeps | simple_coding_agent/lifecycle.py:4977-4992 | So does the idle poll, which fails an orphan handoff and completes plain stops |
| ControlRuns.StepKeepsConsistent | simple_coding_agent/control.py:217-224 | Every operator, lifecycle and environment step keeps the relations between the tables |
| ControlEffects.StopStands | simple_coding_agent/control.py:237-363 | A stored stop leaves intake stopped and itself completed, or intake stopping and itself accepted |
| ControlEffects.AfterAStopNothingIsClaimed | simple_coding_agent/control.py:237-363 | From any reachable state, after a stored stop no legal run without a resume or a stop-after contains a claim |
| ControlEffects.CompletedMeansStopped | simple_coding_agent/control.py:237-363 | Over any step, a plain stop that becomes completed leaves intake stopped |
| ControlEffects.StopIsHonoured | simple_coding_agent/control.py:1577-1632 | A stop met by an active attempt completes, with intake stopped, when that attempt is finalized undisturbed |
| ControlCounts.StepKeepsInv | simple_coding_agent/control.py:1523-1590 | Every step also keeps the counted rows in agreement with the acknowledgement of the plan they name |
| ControlCounts.RunKeepsInv | simple_coding_agent/control.py:1470-1590 | Every reachable state has, for each stop-after command, exactly the counted rows its acknowledgement implies |
| ControlCounts.CountOneMore | simple_coding_agent/control.py:1523-1560 | Counting a fresh attempt adds exactly one counted row to the pending plan |
| ControlCounts.ClaimsWhileCounting | simple_coding_agent/control.py:1634-1669 | Between two moments of one countdown the claims admitted and the late counts equal the counts used, corrected by attempts in flight |
| ControlCounts.CountdownEnds | simple_coding_agent/control.py:1523-1560 | A pending countdown completes only with its last count, and is superseded only before it |
| ControlCounts.StopAfterAdmitsExactly | simple_coding_agent/control.py:486-591 | While pending at most N claims (N - 1 with an attempt still to be counted at acceptance) are admitted; at completion exactly that many, reports repeated before the drop included, with N counted rows; a superseded plan has fewer |
| ControlGuarantees.BeginningOwns | simple_coding_agent/control.py:774-797 | Beginning the tracked handoff makes it the owner of the wait |
| ControlGuarantees.OwnershipStep | simple_coding_agent/control.py:283-302 | No step but its own end or the boundary takes the wait from a begun handoff, and plain stops that wait keep waiting |
| ControlGuarantees.BegunHandoffHolds | simple_coding_agent/control.py:1924-1941 | The same over whole runs of any other operations |
| ControlGuarantees.BoundaryCompletes | simple_coding_agent/control.py:832-857 | At that end intake is stopped, nothing is pending, the handoff is settled as reported and every waiting plain stop completes |
| ControlGuarantees.FinalizeEndsTheWait | simple_coding_agent/lifecycle.py:4896-4908 | When no command comes in between, counting the active attempt from stopping, dropping its checkpoint and resolving its handoff reaches stopped, each waiting plan settled by its kind |
| ControlGap.GapDecides | simple_coding_agent/lifecycle.py:5790-5857 | Whatever is committed between counting an attempt and dropping its checkpoint: after the drop, the resolution of the handoff and a poll, intake is stopping if and only if the plan pending at the drop is a stop-after of one |
| ControlGap.DropDecides | simple_coding_agent/lifecycle.py:4977-4992 | The same from any consistent state whose attempt was counted |
| ControlGap.PollDecides | simple_coding_agent/control.py:1441-1468 | A poll without an attempt leaves intake stopping exactly for a countdown, and then changes nothing |
| ControlGap.LateStopAfterIsStuck | simple_coding_agent/lifecycle.py:1725-1745 | Every stop-after of one accepted while the counted checkpoint still exists is such a plan |
| ControlGap.RecountEndsItExactly | simple_coding_agent/lifecycle.py:6086-6124 | Reporting that attempt again before the drop, as a restart does, still ends the wait exactly when the attempt counted nothing before |
| ControlGap.StuckUntilCommanded | simple_coding_agent/control.py:1470-1590 | After the drop no report, poll or side command ends that wait |
| ControlGap.CommandsFree | simple_coding_agent/control.py:237-484 | Any new stop, permitted resume or stop-after ends it, at the latest with the next poll |
| ControlGap.ActiveIsCountOneExactly | simple_coding_agent/control.py:486-591 | The active attempt is count one, so that at most N - 1 further claims are admitted, if and only if it had not been counted at acceptance or N is one |
| ControlGap.GapPlanAdmitsAll | simple_coding_agent/control.py:553-584 | For every plan of two or more accepted in that gap a run that admits N claims |
| ControlGuarantees.ReplayIsSilentIff | simple_coding_agent/control.py:1579-1586 | Reporting an attempt again changes nothing exactly when it was counted, or when neither a countdown nor a plain stop is pending |
| ControlGuarantees.UncountedReplayUsesACount | simple_coding_agent/control.py:1579-1586 | An attempt finalized while no countdown was pending, reported again later, uses up a count of a later plan |
| ControlLog.StepExtends | simple_coding_agent/control.py:1999-2034 | A step adds at most one row, under the next sequence number, and moves acknowledgements only from accepted |
| ControlLog.LogIntegrity | simple_coding_agent/control.py:250-256 | Over every run rows keep sequence, kind and payload, and a settled acknowledgement stays |
| ControlLog.RunSequences | simple_coding_agent/control.py:2009-2013 | After every run n rows carry exactly the sequence numbers 1 to n |
| ControlLog.RetryChangesNothing | simple_coding_agent/control.py:2036-2056 | A repeated submission changes nothing at any later point and returns the row as it then stands; any other submission under that ID is refused and changes nothing |
| ControlIndependence.SideCommandsDoNotInterfere | simple_coding_agent/control.py:593-664 | Erasing all next-issue, recovery and errors-reset steps from a run changes no intake, pending, countdown, counted or handoff state, if no request ID serves both sorts |
| ControlIndependence.ErasedRunAgrees | simple_coding_agent/control.py:986-1286 | The erased run is itself legal and agrees at every point |
| ControlIndependence.CoreStepSeesCore | simple_coding_agent/control.py:1839-1877 | A core step changes the core in a way that depends on core rows alone |
| ControlIndependence.SideStepInvisible | simple_coding_agent/control.py:986-1286 | A side step changes no core state |
| ControlIndependence.ReusedIdInterferes | simple_coding_agent/control.py:250-256 | The condition on request IDs is needed: a two-step run with a reused ID ends in another intake state |
| ClaimProtocol.MutualExclusion | simple_coding_agent/github_tracker.py:784-907 | For any number of Workers and any interleaving of single reads and writes, at most one Worker is an unreleased winner, its claim is on the issue, and nobody passes the eligibility read |
| ClaimProtocol.WinnerKeepsClaim | simple_coding_agent/github_tracker.py:831-861 | A winner keeps its marker (its login without ids) through any steps of the others until it releases |
| ClaimProtocol.SharedLoginNeverStrands | simple_coding_agent/github_tracker.py:831-861 | Under a shared login, or with distinct logins and no ids, once every Worker that raced has finished no marker and no assignment is left |
| ClaimProtocol.NeverStrandsExactly | simple_coding_agent/github_tracker.py:984-1061 | Pools with Worker ids strand no issue exactly when all their Workers share one login |
| ClaimProtocol.StrandingRun | simple_coding_agent/github_tracker.py:831-861 | A concrete interleaving of two Workers with different logins that leaves an assignment nobody removes |
| ClaimProtocol.WinnersStayAssignedExactly | simple_coding_agent/github_tracker.py:984-1010 | Pools with Worker ids keep every winner assigned exactly when no two Workers share a login |
| ClaimProtocol.StrippingRun | simple_coding_agent/github_tracker.py:984-1010 | A concrete interleaving in which a releasing Worker removes the shared assignment of a new winner |
| ClaimProtocol.RaceEnds | simple_coding_agent/github_tracker.py:831-861 | Without new claims every interleaving ends within a number of operations fixed at its start |
| ClaimProtocol.UncontestedWins | simple_coding_agent/github_tracker.py:881-907 | From any state in which the issue reads as free, a Worker that moves alone wins it in three operations, or four with ids, with exactly its login and its marker on the issue |
| ClaimProtocol.VerifiesOrWithdraws | simple_coding_agent/github_tracker.py:784-861 | In any reachable race a Worker that verifies wins exactly when its re-read shows no other login and no other marker; otherwise, and when a winner releases, its own next operations take off its marker, and its login too exactly when no marker remains |
| IssueRules.NoReasonExactlyWhenClaimable | simple_coding_agent/github_tracker.py:189-251 | No ineligibility reason is found exactly when one of the three queue rules lists the issue; a continuation count is asked for only where one is read |
| IssueRules.ReasonIsTrue | simple_coding_agent/github_tracker.py:189-251 | Every reason reported is true of the issue, read off its labels, assignees, body and counts |
| IssueRules.DetectsExactly | simple_coding_agent/github_tracker.py:561-633 | Which issues the detector labels, read off the issue and the pull request |
| IssueRules.DetectedIsClaimableNow | simple_coding_agent/github_tracker.py:157-186 | An issue the conflict detector labels is claimable in the same poll and is not labelled twice |
| RunnableQueue.Tracker.ReadListing | simple_coding_agent/github_tracker.py:720-735 | The listing holds for each number exactly its last entry over all pages |
| RunnableQueue.ListedIsLatest | simple_coding_agent/github_tracker.py:720-735 | Overwriting entry by entry leaves at each number the entry after which that number is not listed again |
| RunnableQueue.Tracker.DetectConflictRequeues | simple_coding_agent/github_tracker.py:561-633 | The listing afterwards carries the conflict label exactly where a pull request calls for it, and only those issues are labelled remotely |
| RunnableQueue.Tracker.RunnableQueue | simple_coding_agent/github_tracker.py:710-753 | The queue lists every claimable issue exactly once: conflicts, continuations, ordinary, each first created first |
| RunnableQueue.QueueIsDetermined | simple_coding_agent/github_tracker.py:743-753 | That description leaves no choice: two such queues are equal |
| RunnableQueue.QueueOrder | simple_coding_agent/github_tracker.py:743-753 | Of two entries of one rule the one created first comes first, and of two created together the one with the lower number |
| RunnableQueue.ThreeGroups | simple_coding_agent/github_tracker.py:743-753 | The three sorted groups in a row are the queue |
| ClaimNext.Worker.ClaimNext | simple_coding_agent/github_tracker.py:909-953 | Afterwards this Worker's claim is on exactly the returned issue, which was read as claimable and then seen with this claim and nobody else on it, or on none; every earlier entry was read as gone, as ineligible or with another claimant on it, and no later one was touched |
| ClaimNext.Worker.ClaimOne | simple_coding_agent/github_tracker.py:881-907 | The calls are the assignment, the own marker, one re-read, and then the stale labels of a winner or the yield of a loser; won exactly when that re-read shows nobody else |
| ClaimNext.Worker.VerifyClaim | simple_coding_agent/github_tracker.py:784-829 | Won if and only if the re-read shows no other login and, with a Worker id, no other claim marker; a lost claim is given back |
| ClaimNext.Worker.YieldLosingClaim | simple_coding_agent/github_tracker.py:831-861 | The calls made: the own marker goes if a read shows it, then the assignment if a second read shows it and no marker; this claim is gone and every other as it was |
| ClaimNext.Worker.RemoveStaleLabels | simple_coding_agent/github_tracker.py:863-879 | Exactly the stale queue labels that the verified read shows are removed, and no claim is touched |
| ClaimNext.Worker.ReleaseAttempt | simple_coding_agent/github_tracker.py:984-1010 | The calls made: the queue label if it is read there, then the marker, then the assignment once no marker remains; no claim of this Worker is left on the issue |
| ClaimNext.Worker.ReleaseHandoff | simple_coding_agent/github_tracker.py:1012-1043 | The same with the ready label removed, if read, and the finished label added unless a later read shows it |
| ClaimNext.Worker.ReleaseOwnMarker | simple_coding_agent/github_tracker.py:1045-1061 | Only the own marker goes, after a fresh read; false exactly when the issue is gone |
| ClaimNext.ClaimableIsUnclaimed | simple_coding_agent/github_tracker.py:274-309 | A claimable issue carries no claim of anyone |
| PushLoop.PushWithClaimLease | simple_coding_agent/git_workspace.py:689-734 | Pushed if and only if one of its reads shows the local revision; every own write replaces exactly the recorded lease; a moved error saw the origin at neither; at most `max_retries` pushes, none started past the deadline, with the doubling waits between them and none after the last; without outside writers the outcome and the origin are the function `Attempted` of what was delivered and answered |
| PushLoop.PushOnce | simple_coding_agent/git_workspace.py:704-732 | The push is settled as pushed if and only if one of the reads after it shows the local revision, as moved if the last one can be read and shows neither that nor the lease, and otherwise asks for a retry |
| PushLoop.RetryDelay | simple_coding_agent/git_workspace.py:679-687 | The wait is skipped, with failure, if and only if it would reach the deadline |
| PushLoop.Backoff | simple_coding_agent/git_workspace.py:684-684 | The waits are 2, 4, 8, 16 and from then on 30 seconds |
| PushLoop.PushObserved | simple_coding_agent/git_workspace.py:654-677 | Without a recorded lease: pushed if and only if a read of the last round shows the local revision after its fetch; every own write replaces a revision that had been read; every push starts when its fetch ended, none starts at or past the deadline if and only if no round crossed it, and only the last one can; the same waits |
| PushLoop.LateExactly | simple_coding_agent/git_workspace.py:655-665 | Some push of this path starts at or past the deadline if and only if in some round the clock reached it between the check at its head and the end of its fetch |
| PushLoop.LatePush | simple_coding_agent/git_workspace.py:655-665 | The run: one round whose fetch takes until the deadline, and whose push lands and settles |
| PushLoop.PushAttemptBranch | simple_coding_agent/git_workspace.py:611-677 | Invalid arguments are refused before any push; otherwise the guarantees of the lease path or of the observed path hold |
| PushHistory.PassMoves | simple_coding_agent/git_workspace.py:689-734 | A whole push writes at most its own revision, and only over the lease; a moved error means the origin stood at neither value |
| PushHistory.SettlesExactly | simple_coding_agent/git_workspace.py:689-734 | With nobody else writing, a push under the recorded lease settles as pushed exactly when a read of some round shows a ref that stood at the revision or was put there, and as moved exactly when it stood at neither value and some round could read that |
| PushHistory.ObservedSettlesExactly | simple_coding_agent/git_workspace.py:654-677 | Without a recorded lease it settles as pushed exactly when a read of some round shows the revision there, and never as moved |
| PushHistory.HeadIsLastLanding | simple_coding_agent/git_workspace.py:654-734 | After any history of pushes the origin stands where the last landing one put it |
| PushHistory.MovedExactly | simple_coding_agent/publication.py:844-895 | Without outside writers, a settled push under the recorded lease is told that the branch moved if and only if an earlier push of another revision landed last and the lease does not name that revision |
| PushHistory.MovedExactlyUnadvanced | simple_coding_agent/publication.py:844-895 | With every lease read from the checkpoint: if and only if that landing was never followed by an advance of the lease |
| PushHistory.LeaseBehindUntilAdvanced | simple_coding_agent/attempt_state.py:214-230 | After a landing the lease names it exactly once some push from then on advanced the lease |
| PushHistory.LandedUnseen | simple_coding_agent/git_workspace.py:704-732 | The two-push run: the first lands while every reply is lost, the second, of a new revision, is told that the branch moved |
| PushHistory.OneRevisionNeverMoved | simple_coding_agent/publication.py:844-895 | Pushing one revision over and over never meets a moved error, if the lease fitted at the start |
| AttemptState.AttemptStateStore.NextTimestamp | simple_coding_agent/attempt_state.py:263-268 | Timestamps strictly increase whatever the clock shows, and equal the clock whenever that moved on |
| AttemptState.AttemptStateStore.Start | simple_coding_agent/attempt_state.py:98-164 | A start succeeds exactly without an active attempt, with valid arguments and working storage; otherwise nothing changes |
| AttemptState.AttemptStateStore.Transition | simple_coding_agent/attempt_state.py:166-193 | Exactly the next phase succeeds, and only phase and update time change |
| AttemptState.AttemptStateStore.RecordClaimLease | simple_coding_agent/attempt_state.py:195-212 | The first recorded lease stays; a later recording is accepted and changes nothing |
| AttemptState.AttemptStateStore.AdvanceClaimLease | simple_coding_agent/attempt_state.py:214-230 | A valid pushed revision becomes the lease; None or a malformed one is refused |
| AttemptState.RunKeepsTheAttempt | simple_coding_agent/attempt_state.py:166-230 | Over any run identity and start time are kept, each phase in between is entered once, and the lease is the revision of the last accepted own push, without one the lease at the start, else the first accepted recording's |
| AttemptState.FirstLeaseWins | simple_coding_agent/attempt_state.py:195-212 | Without an own push a recorded lease never changes |
| AttemptState.ChangesAreStampedLater | simple_coding_agent/attempt_state.py:263-268 | A checkpoint that differs from an earlier one was stamped later |
| Publication.Publisher.PushBranch | simple_coding_agent/publication.py:844-895 | A normal return saw the origin at the local revision and made it the lease; a failed one keeps the checkpoint; without outside writers origin, lease and moved error are those of one push of `PushHistory`, and with a lease that can be read and a store that works it returns normally if and only if that push settles as pushed |
| Publication.Publisher.TryPush | simple_coding_agent/git_workspace.py:611-677 | Whatever can be begun is pushed, under a known lease never past the deadline |
| Publication.Publisher.PushAndMark | simple_coding_agent/publication.py:362-374 | Nothing is pushed once the time is up; success means a verified push, the publishing phase and time left, and comes whenever nothing stood in the way |
| Publication.Publisher.MarkPublishing | simple_coding_agent/publication.py:897-909 | The publishing phase is entered only from pushing, and failure keeps the checkpoint |
| Publication.Publisher.PushFirst | simple_coding_agent/publication.py:358-374 | A branch that was marked as publishing before is not pushed again; any other is, if there is any time, when the decision asks for it |
| Publication.Publisher.EnsurePullRequest | simple_coding_agent/publication.py:911-933 | The pull requests afterwards are those of one find-then-create pass over open ones, of at most `max_retries` creates, all before the deadline and with the doubling waits between them; it fails only if a call failed, the deadline passed or no attempt was allowed |
| PullRequests.PassKeeps | simple_coding_agent/github_tracker.py:1486-1512 | Such a pass creates nothing unless its lookup found none open, goes on only while none is open, and never leaves two open |
| PullRequests.NeverTwoOpen | simple_coding_agent/publication.py:911-933 | Over any passes, with failing calls and merges or closings between any two calls, two are never open at once, and every create but the first is matched by one closed before |
| PullRequests.CreatedExactly | simple_coding_agent/publication.py:911-933 | When no call fails the pull requests created are exactly as many as the passes whose lookup found none open |
| PullRequests.MissedExactly | simple_coding_agent/github_tracker.py:1486-1512 | Whatever failed before, a pass whose lookup can be read finds none open exactly when none was open before it or one was merged or closed until it; after a pass that settled, exactly in the latter case |
| PullRequests.MadeExactly | simple_coding_agent/publication.py:911-933 | With failing calls as well, a pass creates exactly when its lookup found none open and it came to a create that landed |
| PullRequests.MergedThenCreatedAgain | simple_coding_agent/publication.py:437-441 | The input: one is created and merged, and publishing the attempt again creates a second |
| PullRequests.FollowsOnwards | simple_coding_agent/publication.py:911-933 | Passes with closings in between join into one history |
| Publication.Publisher.PublishPullRequest | simple_coding_agent/publication.py:421-441 | The pass of one publication, and a merge exactly when it succeeded and was asked for, which may close what was opened |
| Publication.Publisher.PostResult | simple_coding_agent/publication.py:1018-1041 | The result comment is added exactly when the lookup, which reads the last 100 comments, shows none; posted exactly when no call failed |
| SharedRecord.ResultSteps | simple_coding_agent/github_tracker.py:1589-1618 | So two result comments of one attempt always have 100 comments between them |
| Thread.OneWhileInView | simple_coding_agent/github_tracker.py:1589-1618 | While nothing but others' comments has left the last 100, there is at most one of a kind |
| Thread.ScrolledOut | simple_coding_agent/github_tracker.py:1589-1618 | In any thread a lookup finds a comment of a kind if and only if fewer than 100 others follow one |
| Publication.Publisher.PublishIntent | simple_coding_agent/publication.py:1188-1238 | The shared comment is created, replaced by this intent when it may give way, or left alone, as it is when it shows the intent already and when the time is up; true means the issue shows the intent, and nothing else while all is in view; without failures, in time, in view and for a clean intent it is true exactly when there was no shared comment or one that gives way |
| Publication.Publisher.WriteNew | simple_coding_agent/publication.py:1240-1268 | A shared comment is added only where none was visible, and stands alone if all is in view |
| Publication.Publisher.WriteOver | simple_coding_agent/publication.py:1270-1300 | The visible shared comment is rewritten in its place |
| Publication.Publisher.CreateSharedComment | simple_coding_agent/publication.py:1240-1268 | A create that may have landed is confirmed only by a read of exactly the intent |
| Publication.Publisher.UpdateSharedComment | simple_coding_agent/publication.py:1270-1300 | The same for an update |
| Publication.Publisher.PublishVerified | simple_coding_agent/publication.py:1138-1238 | The intent saved first names the request's note revision, the verified branch revision, this branch, issue and repository, and if this request saved it its source, its count and version 1; nothing is published unless it does; and when nothing stands in the way it is posted exactly if what is shown gives way to it |
| Publication.Publisher.PublishHandoffRecord | simple_coding_agent/publication.py:1085-1238 | True with a record requested means the issue shows exactly that intent, and comes about exactly so when nothing stands in the way; a negative count, an unknown source or a malformed note revision is refused before any push; a moved branch is passed on, everything else unconfirmed is false |
| Publication.Publisher.ReportOutcome | simple_coding_agent/publication.py:443-475 | A handoff in link mode posts its record before any comment and every other outcome its result first; the outcome is kept unless the branch moved |
| Publication.Publisher.PublishHandoffLink | simple_coding_agent/publication.py:518-605 | A comment is suppressed exactly for a requested, confirmed handoff that needs no notification, and then none is posted |
| Publication.Publisher.Report | simple_coding_agent/publication.py:419-475 | One pass over the pull request for an eligible attempt and none for another; an eligible attempt is complete exactly with its pull request; the result claims no more than the remote state shows |
| Publication.Publisher.Publish | simple_coding_agent/publication.py:339-475 | An eligible attempt, and an incomplete or handed-off one on the partial path, is pushed unless it was marked as publishing before, and is linked exactly when it is so marked afterwards; no other is linked, and only a requested handoff record pushes it. The outcome is fixed clause by clause by the decision, a moved branch, the link and the pull request. At most one push and one pass over the pull request, the latter only after the branch was verified; nothing is created, written to the shared record or, under a readable lease, pushed past the deadline; a posted comment whenever no call failed, and no effect at all when the checkpoint cannot be used |
| Publication.Publisher.Replay | simple_coding_agent/publication.py:339-475 | Any number of publications of one attempt make one history: of passes over the pull request, of pushes, of comments 100 apart, and of one first-saved intent, which some publication asked for field by field, which names what every confirming one published, and which every confirmation showed |
| Publication.ToldKeeps | simple_coding_agent/publication.py:339-475 | In such a history two pull requests are never open at once, and with one revision, a lease that fitted at the start and no outside writer no moved error is met |
| Publication.ToldOnwards | simple_coding_agent/lifecycle.py:2655-2720 | Two histories of one attempt, such as a finalization and a recovery retry, join into one |
| SharedRecord.IntentStore.SaveIfAbsent | simple_coding_agent/handoff_record.py:264-279 | The first valid intent of an attempt stays; invalid records and store failures change nothing |
| SharedRecord.FirstIntentWins | simple_coding_agent/handoff_record.py:206-215 | No run of saves changes an intent once there is one |
| SharedRecord.SharedRecordNeverGoesBack | simple_coding_agent/publication.py:1200-1238 | Over any history of publications by any attempts, seen while all is in view, and for every repository without white space: from any moment to any later one the record that reads is not of an older attempt |
| SharedRecord.NeverASecond | simple_coding_agent/publication.py:1200-1238 | And, whatever the texts, there is never a second shared comment |
| SharedRecord.UnreadableForGood | simple_coding_agent/publication.py:1200-1213 | A shared comment that does not read stands for good |
| SharedRecord.GivesWayExactly | simple_coding_agent/publication.py:1200-1238 | A written record gives way exactly when it is readable, and then to its own attempt or one that is not older; it is confirmed by a read exactly when it is clean |
| SharedRecord.BlockedExactly | simple_coding_agent/publication.py:1200-1238 | A written comment stays as it is, whatever is published later, if and only if a terminator stands in a text before the last or opens the last |
| SharedRecord.ShownIsClean | simple_coding_agent/handoff_record.py:65-101 | No record is ever shown, and so none confirmed, whose text has a terminator or white space in it |
| HandoffMarker.ParseHandoffRecord | simple_coding_agent/handoff_record.py:65-101 | The token-by-token parser computes the parse function |
| HandoffMarker.RoundTripExactly | simple_coding_agent/handoff_record.py:135-151 | A valid record is read back from its own comment body exactly when no text in it contains white space or the comment terminator |
| HandoffMarker.ParsedIsValidAndClean | simple_coding_agent/handoff_record.py:65-101 | Whatever is parsed from any body has version 1, a positive issue, a count of at least zero and a known source, and is clean enough to be printed and read again |
| HandoffMarker.RefusedExactly | simple_coding_agent/handoff_record.py:153-178 | The printer refuses a record exactly for another version, an issue or count out of range, an unknown source, a blank repository, or an attempt, branch or revision that is empty or has white space |
| HandoffMarker.PrefixBehind | simple_coding_agent/handoff_record.py:135-151 | Behind text that cannot be taken for a marker the first marker found is the one that follows |
| HandoffMarker.ReadsBackExactly | simple_coding_agent/handoff_record.py:47-151 | What the printed body of a valid record reads as, for every repository without white space: the record with its last text up to a terminator, or nothing when a terminator stands in an earlier text or opens the last |
| HandoffMarker.PayloadIsCut | simple_coding_agent/handoff_record.py:65-79 | The payload of the first marker is its text up to the first terminator, whatever follows |
| HandoffMarker.KeptSplit | simple_coding_agent/handoff_record.py:72-79 | Split at white space, that leaves the tokens before the first one with a terminator, and the start of that one |
| HandoffMarker.FieldLeft | simple_coding_agent/handoff_record.py:75-79 | A field is found exactly when no token before it has a terminator and its value does not open with one |
| HandoffMarker.FirstMarkerDecides | simple_coding_agent/handoff_record.py:65-101 | The first marker of a body decides what it is read as, with or without terminators in its texts |
| HandoffMarker.InjectedMarkerWins | simple_coding_agent/handoff_record.py:135-151 | Of the body builder alone: a repository text that spells out another marker would read as that record, and every such text has white space, which `TARGET_REPO` may not have |
| HandoffMarker.DecodeLeft | simple_coding_agent/handoff_record.py:47-101 | The tokens that are left decode to the record with its last text cut, or to nothing |
| Cursor.CursorRoundTrip | simple_coding_agent/attempt_history.py:65-93 | Decoding a cursor undoes encoding for exactly the IDs of 1 to 256 characters and refuses all others |
| Cursor.BytesRoundTrip | simple_coding_agent/attempt_history.py:68-83 | The lenient decoder undoes the URL-safe Base 64 encoder (section 5 of RFC 4648) on all byte strings |
| Cursor.TextRoundTrip | simple_coding_agent/attempt_history.py:68-83 | Strict UTF-8 decoding undoes encoding on all strings |
| Cursor.KnownEncodings | simple_coding_agent/attempt_history.py:65-68 | The encoders give the bytes and the text of known examples, section 10 of RFC 4648 among them |
| Cursor.DecodeCursor | simple_coding_agent/attempt_history.py:71-93 | A decoded ID has 1 to 256 characters |
| Paging.PagesShrink | simple_coding_agent/attempt_history.py:119-128 | Each cursor leaves strictly fewer entries, so following cursors ends whatever the keys are |
| Paging.PageIsNext | simple_coding_agent/attempt_history.py:96-133 | One request is refused exactly for a limit outside 1 to 100 or a cursor that does not decode, and else lists the first entries, 20 unless told, behind every one that is not strictly older than the cursor, with a cursor for the last exactly when more remain |
| Paging.FollowIsPages | simple_coding_agent/attempt_history.py:119-133 | Following cursors visits the pages by position |
| Paging.PagesAddUpExactly | simple_coding_agent/attempt_history.py:119-133 | For one page size the pages add up to the listing exactly when at every page boundary the next key is strictly older and the ID fits a cursor |
| Paging.PagingIsCompleteExactly | simple_coding_agent/attempt_history.py:96-133 | For every page size the pages add up to the full newest-first listing if and only if sort keys are distinct and every ID but the oldest has 1 to 256 characters |
| Sweep.MatchesIsSegmentwise | simple_coding_agent/git_workspace.py:1003-1024 | The text comparison relates two paths exactly when one's segments begin the other's |
| Sweep.UnderIsSegmentwise | simple_coding_agent/git_workspace.py:1017-1020 | A path starts with a directory and a slash exactly on a segment boundary |
| Sweep.Clone.RemoveBranchIgnoredLeftovers | simple_coding_agent/git_workspace.py:565-609 | Nothing goes unless every dirty path is covered and none escapes; then only files at or under dirty paths go, and all of them unless a removal fails |
| Sweep.SweepIsExplained | simple_coding_agent/git_workspace.py:573-585 | From a clean start the sweep always goes ahead, takes no tracked file, and leaves only files the base branch ignores |
| Sweep.UnexplainedStays | simple_coding_agent/git_workspace.py:565-609 | One dirty path that escapes, or whose segments fit no snapshot entry, keeps the sweep from everything |
| Sweep.Clone.Cleanup | simple_coding_agent/git_workspace.py:513-550 | Refused and unchanged unless the first status read shows nothing. Otherwise every file deleted was in the snapshot and ignored on the attempt branch, which is derived from that read; without a base branch nothing is deleted; and if no step failed a file left by the checkout is deleted if and only if the base branch does not ignore it, or some directory above it holds no tracked file of the base branch and an untracked one that the base branch does not ignore |
| Sweep.CleanMeansIgnored | simple_coding_agent/git_workspace.py:573-582 | A status read without entries means that every untracked file is ignored |
| Sweep.IgnoredOnBaseIsSweptExactly | simple_coding_agent/git_workspace.py:526-536 | A file is swept if and only if it is not ignored, or some directory above it holds no tracked file and an untracked one that is not ignored: a condition on the tree before the sweep |
| Sweep.PrintsOnce | simple_coding_agent/git_workspace.py:573-582 | Git prints every file once: as its topmost directory without tracked files, else by name |
| Sweep.TopmostAbove | simple_coding_agent/git_workspace.py:573-582 | Above every directory without tracked files lies the topmost one, or it is that itself |
| Sweep.IgnoredOnBaseCanBeSwept | simple_coding_agent/git_workspace.py:526-536 | A concrete tree in which such a file is deleted |
| SizeCap.Snapshot.ApplyContractSizeCap | simple_coding_agent/contract_status.py:510-544 | The three in-place loops reach the same snapshot as dropping one item at a time |
| SizeCap.TrimmedIsFirstFit | simple_coding_agent/contract_status.py:522-544 | The result is reached by the fewest drops after which the snapshot fits, every one made while over the limit; it does not fit only when nothing is left to drop |
| SizeCap.CappedKeepsOrder | simple_coding_agent/contract_status.py:510-544 | Events and commands left are suffixes, no figure goes before all events and no command before all figures, the rest is untouched; within the cap nothing changes, over it the snapshot is marked |
| SizeCap.DropOrderIsSorted | simple_coding_agent/contract_status.py:502-507 | Every figure name once, native ones first, each group by name |
| SizeCap.NativeNamesFirst | simple_coding_agent/contract_status.py:502-507 | Names that start with `native.` are dropped before all others, and of two names of one kind the one with the smaller character where they first differ, or that ends there |
| SizeCap.First | simple_coding_agent/contract_status.py:502-507 | The chosen name comes before every other in the drop order |

## Left out

- SQLite, its journal and checkpointing: the tables are maps and a transaction is one step.
- Detail texts, timestamps of control rows, deadlines of handoffs, snapshots for status output, and the logged events.
- The texts of operator arguments: `stop --after` and `next issue` take integers here, so parsing and its messages are not part of this model; neither is dispatch by command name.
- The lifecycle beyond the steps of `ControlRuns`: what an attempt does between its claim and its count, completed-attempt accounting, failure counters and the other startup recoveries are not part of this model.
- Pools that mix Workers with and without ids.
- ClaimProtocol.RaceEnds: counts operations only; the settle delay between marking and re-reading is not modelled, since reads are current.
- ClaimNext.Worker.ClaimNext: a deleted issue is handled where the code re-reads, but existing issues are not deleted between two operations, which the claim accounting relies on; failing GitHub calls end the poll and are not modelled.
- Continuation counting from comments: the count is a function of the issue.
- PushLoop.PushObserved: gives no deadline bound for pushes, because the code checks the deadline only before the fetch.
- The JSON form of checkpoints and intents, and its tolerance for older files; a file is replaced whole or not at all.
- Publication.Publisher.Publish: result texts, the event log, the wording of failures and the checks before a merge are left out, the merge being any closing of open pull requests; a publisher without an attempt store is too.
- Publication of conflict attempts, which repeats the push and the result comment without a pull request.
- SharedRecord.SharedRecordNeverGoesBack: speaks of the bodies of all shared comments, so it is about histories in which none has left the last 100 comments.
- Comments by accounts that are not trusted, which the lookup of the shared record passes over.
- HandoffMarker.ParseHandoffRecord: integers are read as ASCII digits with an optional sign and single inner underscores; other Unicode digits, which `int` accepts, are not.
- Paging.PagingIsCompleteExactly: collecting and summarising the archive is left out; a listing is any newest-first sequence of IDs.
- IDs with lone surrogates, which Python can hold but not encode.
- Sweep.Clone.RemoveBranchIgnoredLeftovers: symbolic links and special files are not told apart; a removal may fail and then may have taken any part of its target.
- Quoted path names in git's output, which the sweep would not match, and nested repositories.
- SizeCap.Snapshot.ApplyContractSizeCap: the JSON size is any function of the snapshot, so nothing depends on how much one drop saves.
- Transports, sockets, command lines, the completion ladder, configuration and provenance: plumbing or one-step facts.
