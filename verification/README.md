# A verified model of vgen's protocols

vgen submits video generation jobs to a Gateway, moves encrypted workspace keys between devices, answers
Gateway commands from a broker daemon, installs workflows on Workers, and publishes its own releases. This
project models the parts of it whose correctness depends on every interleaving, every crash point or every
input, and proves what holds there.

| files | what they model |
|---|---|
| `QueueModel`, `QueueRuns`, `QueueOrder`, `QueueCancel`, `QueueFinal`, `QueueCap`, `QueueStates`, `LocalQueue` | the Toonflow queue: one table, processes that open it, ticks suspended at each await, overlapping cancels, crashes |
| `Wheelhouse`, `WheelhouseReview`, `PackageNames`, `RequirementsLock` | the dependency closure of the Windows Worker wheelhouse, and the lock printed from it and parsed back |
| `BrokerModel`, `BrokerSteps`, `BrokerRuns`, `BrokerDelivery`, `Broker` | the broker daemon: polling, rekeying, acknowledging, commands that expire and are queued again, the durable cursor and retry generation |
| `KeyGrants`, `KeyRotation`, `KeyDelivery`, `KeyStore`, `Authorities`, `AuthorityRaces` | workspace key rotation against a compare-and-swap Gateway, the local key cache and the trust-on-first-use pins, by one process and by several |
| `Releases`, `ReleaseRuns`, `ReleaseSteps`, `ReleaseRoot` | publishers of immutable releases and upgrade clients over one release root |
| `InstallCompensation` | the revocations a failed workflow install requests |
| `Newlines`, `WheelCanonical`, `WheelResults`, `BuiltWheel` | canonicalisation of wheels built from source |
| `VideoFrames`, `ManagedBlock`, `ShellConfig`, `WorkflowCodes`, `WorkflowLookups`, `CatalogCache` | the 24 fps check, the managed block of a shell configuration and the file it is stored in, short workflow codes and their cache |
| `Ordering`, `Common` | code-point order, sorting, optional values and subset sizes, which several of them use |

State machines are written as a step function over events and a run over a list of events, so that a theorem
about `Run` is about every run. Where the source changes things in place there is also a class or a method with
loops, proved equal to the step or specification function. SHA-256, HPKE, key identifiers, PEP 508 markers and
version specifiers, JSON and CSV encodings, clocks, random ids, ffprobe output and every network reply are
parameters or arbitrary values.

## Where the code differs from what one would expect

Each of these is a lemma with the input that shows it, and where the property holds under a condition, that
condition as an if and only if.

- A cancel that lands while the job's own tick waits for a reply is overwritten by the tick
  (`QueueCancel.CancelDuringTickIsLost`); a finished row becomes unfinished again exactly in that case
  (`QueueCancel.RevivedExactlyWhen`). The only other way a finished row changes is a remote cancel that returns late,
  which marks even a fetched video cancelled (`QueueFinal.SuccessIsOverwritten`,
  `QueueFinal.FinishedStateChangesExactlyWhen`). When a finished state is final is `QueueFinal.FinalExactlyWhen`.
- A job inserted with a stamp behind a row that is active, or that a suspended tick can still revive, breaks the order
  of the queue; every other insertion keeps it (`QueueOrder.InsertionSafeExactlyWhen`), and into a queue that is not
  closing it can put two jobs at work at once (`QueueOrder.LateInsertionDoubles`,
  `QueueCancel.ClockSetBackBreaksOrder`).
- The cap of 100 unfinished jobs is passed by a retry, which does not count, and by a preflight that answers ready for
  a job cancelled meanwhile; by nothing else (`QueueCap.CapPassedExactlyWhen`, `QueueCap.RetryPassesCap`,
  `QueueCap.RevivalPassesCap`).
- A retry keeps the old digest, so that the request it stored is refused when added again, and unless the clock went
  back it leaves the finished row first, so that cancelling by video finds that one
  (`QueueCancel.RetriedRequestIsRefused`, `QueueCancel.RetriedVideoCannotBeCancelledExactlyWhen`).
- The broker's cursor passes over commands that expired (`BrokerDelivery.CursorPassesExpired`). A command queued again
  while the daemon still has it ahead, with something else waiting, lets the cursor name it while an earlier command
  waits (`BrokerDelivery.CursorPassesWaiting`), and a clock set back queues a command before one the cursor names
  already (`BrokerDelivery.CursorPassesLate`). Which steps do so is exact (`BrokerDelivery.CursorSafeExactlyWhen`,
  `BrokerDelivery.EnqueueHarmfulExactlyWhen`, `BrokerDelivery.RequeueHarmfulExactlyWhen`).
- A Service that leaves out the recipient binding can never open a grant (`KeyGrants.WhoOpensAGrant`).
- Setup that finds no envelope it can open makes a key of its own for the current version and stores it; at a version
  that a rotation made, that key is not the activated one (`KeyRotation.SetupStoresAnotherKey`,
  `KeyRotation.NextKeepsInvExactlyWhen`).
- `pin_owner` fails when the user is pinned to another key, but succeeds when called again, and then the owner pin and
  the user pin are on different keys (`Authorities.RepeatedPinOwnerDisagrees`, `Authorities.OwnerAgreementExactlyWhen`).
- Two processes that pin one user at the same time both succeed, and the second key replaces the first: a pin is
  written once only where no read overlaps another process's write (`AuthorityRaces.RacingPinsReplace`,
  `AuthorityRaces.WriteOnceExactlyWhen`).
- An interrupt of a workflow install (an exception that is not an `Exception`), or of its rollback before the last
  revocation, leaves jobs standing (`InstallCompensation.InterruptLeavesJob`,
  `InstallCompensation.FailureRevokesExactlyWhen`).
- A release whose macOS bundle exceeds 2 GiB is published and then refused by every upgrade client. The publisher
  limits what a bundle expands to, not the bundle itself, so this takes one that is stored uncompressed and passes
  the limit by the archive's own headers (`ReleaseRuns.OversizedReleaseIsRefused`, `ReleaseRuns.PointedReleaseStaysVerifiable`).
- A wheel that just fits the size limit can have a canonical form that does not, because RECORD is rebuilt; the
  canonical form is then refused by a second canonicalisation (`WheelResults.FullArchiveIsNotFixed`).
- A clip accepted as constant 24 fps need not have 123 to 125 frames: with the millisecond time base of Matroska,
  frames 41 ms apart are accepted and a window holds 127 (`VideoFrames.MillisecondsMiscount`). Which time bases
  miscount is decided by one whole number of time units (`VideoFrames.FrameCountBoundedExactlyWhen`).
- A workflow whose name is longer than 128 characters is displayed by a code that expansion refuses
  (`WorkflowCodes.LongNameMisleads`), and the list of installed workflows can show a code that expansion calls
  ambiguous (`WorkflowCodes.SharedNameMisleads`).
- A refreshed catalog can give a learned code to another workflow, although that is to be refused: when the new
  workflow has the code as its name (`CatalogCaches.NameTakesCode`), or when a catalog in between left the code out
  (`CatalogCaches.ForgottenCodeIsReassigned`). Exactly these two do (`CatalogCaches.LearnedForGoodExactlyWhen`).
- A completion block with an end marker inside, as from a path that contains one, is not replaced cleanly by the next
  update (`ManagedBlock.InnerEndMarkerIsLeftBehind`).
- Installing completion into a configuration with carriage returns rewrites its lines outside the block
  (`ShellConfigs.CarriageReturnIsLost`, `ShellConfigs.OutsideKeptExactlyWhen`), and installing one block and then the
  other is not always installing the other (`ShellConfigs.RewritingThereAndBack`,
  `ShellConfigs.SecondStoredUpdateWinsExactlyWhen`).

## Model

| member | source | states |
|---|---|---|
| `QueueModel.HeadExists` | integrations/toonflow/vgenLocal.ts:210-211 | the first unfinished row in creation order exists unless every row is finished |
| `QueueModel.HeadUnique` | integrations/toonflow/vgenLocal.ts:210-211 | there is only one such row, whatever the order of equal stamps in the table |
| `QueueRuns.RunKeepsInv` | integrations/toonflow/vgenLocal.ts:103-269 | in every run of starts, opens, adds, ticks, retries, cancels, closes and crashes, the table, the submit log and every suspended tick agree |
| `QueueRuns.IssueSubmitOk` | integrations/toonflow/vgenLocal.ts:234-236 | the step that issues a submit never does so for a row already submitted, and keeps the invariant |
| `QueueRuns.SubmitAtMostOnce` | integrations/toonflow/vgenLocal.ts:115-126 | in every run no job id occurs twice in the log of issued submit commands |
| `QueueRuns.OneOwner` | integrations/toonflow/vgenLocal.ts:103-122 | at no point of any run do two processes have the queue open |
| `QueueRuns.CompletedTickIsClean` | integrations/toonflow/vgenLocal.ts:205-269 | whenever no tick is suspended, no row is in checking or submitting |
| `QueueRuns.RemoteStatesHaveTasks` | integrations/toonflow/vgenLocal.ts:212-267 | every submitted, running, downloading or succeeded row has a task id, and a suspended poll has one too |
| `QueueOrder.RunInLine` | integrations/toonflow/vgenLocal.ts:205-211 | from any world in line, every run whose insertions are on time stays in line: a row that is active or can be revived is the only active one and has only finished rows before it |
| `QueueOrder.RunInLineExactlyWhen` | integrations/toonflow/vgenLocal.ts:143-211 | the line is kept at every point of a run if and only if every insertion in it is on time |
| `QueueOrder.InsertInLineExactlyWhen` | integrations/toonflow/vgenLocal.ts:146-179 | a queued row keeps the line if and only if no row that is active, or that the suspended tick can still revive, has a later stamp |
| `QueueOrder.InsertionSafeExactlyWhen` | integrations/toonflow/vgenLocal.ts:143-179 | an insertion leaves the order safe in every later run with on-time insertions if and only if it is on time itself |
| `QueueOrder.LateInsertionDoubles` | integrations/toonflow/vgenLocal.ts:205-211 | after any late insertion into a queue that is not closing, some replies and a tick put two jobs at work at once |
| `QueueOrder.NextTickDoubles` | integrations/toonflow/vgenLocal.ts:205-216 | once an active row has an unfinished one before it, the next tick of an idle queue makes a second row active |
| `QueueOrder.OneActiveJob` | integrations/toonflow/vgenLocal.ts:205-268 | in every run with on-time insertions at most one job is active and every job created before it is finished, whatever is cancelled mid-tick |
| `QueueCancel.RevivedExactlyWhen` | integrations/toonflow/vgenRecovery.ts:68-76 | a step makes a finished row unfinished exactly when the row's own tick was suspended and its reply writes an unfinished state |
| `QueueFinal.FinishedStateChangesExactlyWhen` | integrations/toonflow/vgenRecovery.ts:68-76 | a finished state changes if and only if a remote cancel begun before returns with success on a row not cancelled, or the row's own suspended tick gets a reply that writes; the first makes it cancelled, the second only ever follows a cancel |
| `QueueCancel.FinishedForever` | integrations/toonflow/vgenLocal.ts:205-269 | a row that finished while no tick worked on it stays finished in every continuation of the run |
| `QueueFinal.FinalExactlyWhen` | integrations/toonflow/vgenRecovery.ts:68-76 | a finished row keeps its state in every continuation if and only if no tick has it suspended, and it is cancelled already or no process can still end a cancel of it |
| `QueueFinal.SuccessIsOverwritten` | integrations/toonflow/vgenRecovery.ts:68-76 | a reachable run in which a video is fetched and succeeded, and a remote cancel that returns after it marks it cancelled |
| `QueueStates.StateWrittenExactlyWhen` | integrations/toonflow/vgenLocal.ts:205-269 | in every reachable state, a row comes to hold each state (checking, submitting, submitted, running, succeeded, failed, needs attention, cancelled, queued) if and only if the step is the one reply or call listed for that state, named by event, await and reply |
| `QueueStates.EveryStateHasItsReason` | integrations/toonflow/vgenLocal.ts:103-269 | in every run, every row is queued since the step that appended it, or some step gave it the state it holds for the listed reason and it held it ever since |
| `QueueStates.ColumnsKept` | integrations/toonflow/vgenLocal.ts:162-269 | a task id is stored exactly by the reply that created the task, and no step changes anything else of a row but its state |
| `QueueStates.AppendedExactlyWhen` | integrations/toonflow/vgenLocal.ts:162-179 | the table grows exactly by an add or a retry that appends one row at its end, never by more, and never shrinks |
| `QueueStates.StandsExactlyWhen` | integrations/toonflow/vgenLocal.ts:205-269 | the tick of a process comes to wait at each of its awaits if and only if the reply or tick listed for that await arrives |
| `QueueStates.SubmitIssuedExactlyWhen` | integrations/toonflow/vgenLocal.ts:222-236 | a submit is issued if and only if a ready preflight is answered to an open queue that is not closing |
| `QueueStates.SubmitsAreChecked` | integrations/toonflow/vgenLocal.ts:205-236 | in every run, each submit follows, within one tick, a ready preflight and before it an unchanged workflow digest, unless the request has none |
| `QueueStates.UnfinishedIs` | integrations/toonflow/vgenLocal.ts:162-179 | the count that add compares with the cap is the number of rows not in a finished state |
| `QueueCancel.CancelDuringTickIsLost` | integrations/toonflow/vgenRecovery.ts:68-76 | a concrete run in which a cancelled job is submitted all the same |
| `QueueCancel.ClockSetBackBreaksOrder` | integrations/toonflow/vgenLocal.ts:143-143 | a concrete run with a clock set back in which two jobs are active at once |
| `QueueCap.AddKeepsCap` | integrations/toonflow/vgenLocal.ts:162-179 | add never takes the queue past 100 unfinished jobs, and inserts exactly when it answers so |
| `QueueCap.RetryIgnoresCap` | integrations/toonflow/vgenLocal.ts:146-156 | a retry that inserts adds an unfinished job however many there are |
| `QueueCap.CapPassedExactlyWhen` | integrations/toonflow/vgenLocal.ts:146-179 | a step takes at most 100 unfinished jobs past 100 if and only if there were 100 and it is a retry that inserts or a reply that revives a cancelled row |
| `QueueCap.RunWithinCapExactlyWhen` | integrations/toonflow/vgenLocal.ts:146-269 | a run stays within 100 unfinished jobs at every point if and only if it takes no such step while full |
| `QueueCap.RevivalPassesCap` | integrations/toonflow/vgenLocal.ts:222-236 | a reachable run with 100 unfinished jobs, in which the preflight of a cancelled job makes 101 |
| `QueueCap.RetryPassesCap` | integrations/toonflow/vgenLocal.ts:146-156 | a reachable run with 100 unfinished jobs, in which a retry makes 101 |
| `QueueCancel.RetriedRequestIsRefused` | integrations/toonflow/vgenLocal.ts:146-156 | in every reachable table, adding the request a retry stored is refused as different content |
| `QueueCancel.RetriedVideoCannotBeCancelledExactlyWhen` | integrations/toonflow/vgenRecovery.ts:68-85 | after a retry by video the finished row is still the video's first, so that a cancel by video finds it and changes nothing, if and only if the clock is not behind its stamp |
| `LocalQueues.LocalQueue.ValidPromises` | integrations/toonflow/vgenLocal.ts:103-269 | whatever a valid object went through, it submitted no job twice, an idle one has no row in checking or submitting, and remote rows have task ids |
| `LocalQueues.OtherKeeps` | integrations/toonflow/vgenLocal.ts:113-121 | while one process has the queue open, no step of any other process changes the table, the owner or the suspended tick |
| `LocalQueues.LocalQueue.OthersRan` | integrations/toonflow/vgenLocal.ts:113-121 | whatever other processes do between two calls, the object is still valid for the longer run, with the same rows and submits |
| `LocalQueues.LocalQueue.Open` | integrations/toonflow/vgenLocal.ts:103-129 | an opened object is what a run of all processes left, recovered, with no job submitted twice and no row in checking or submitting; a refused opening is a step that changes nothing |
| `LocalQueues.LocalQueue.FindHead` | integrations/toonflow/vgenLocal.ts:210-211 | the search loop returns the first unfinished row by creation stamp, or -1 |
| `LocalQueues.LocalQueue.Tick` | integrations/toonflow/vgenLocal.ts:205-216 | the in-place tick up to its first await is one step of the run and keeps what every run keeps; only an idle queue that is not closing moves, and only its head row: a remote one is polled, a queued one is failed when its inputs cannot be written, and is otherwise checking and waits for its workflow or, without a digest, its preflight |
| `LocalQueues.LocalQueue.WorkflowReplied` | integrations/toonflow/vgenLocal.ts:215-222 | resuming with the workflow reply is one step of the run: the same digest leads on to the preflight and changes no row, and any other reply fails the job waited for and ends the tick |
| `LocalQueues.LocalQueue.PreflightReplied` | integrations/toonflow/vgenLocal.ts:222-236 | resuming with the preflight reply is one step of the run: a ready one to a queue not closing makes the job submitting and issues its one submit, a ready one to a closing queue puts it back to queued, and any other fails it |
| `LocalQueues.LocalQueue.SubmitReplied` | integrations/toonflow/vgenLocal.ts:236-240 | resuming with the submit reply is one step of the run that ends the tick: a created task makes the job submitted with that task id, and an error leaves it in needs attention, or failed if it was cancelled meanwhile; no other row changes |
| `LocalQueues.LocalQueue.ShowReplied` | integrations/toonflow/vgenLocal.ts:241-262 | resuming with the poll is one step of the run: the job waited for becomes failed, cancelled, downloading or running exactly as the task did, an error changes nothing, and only a succeeded task leads on to its download |
| `LocalQueues.LocalQueue.GetReplied` | integrations/toonflow/vgenLocal.ts:253-268 | resuming with the download is one step of the run that ends the tick: one video makes the job succeeded, other outputs fail it, and an error changes nothing |
| `LocalQueues.LocalQueue.Add` | integrations/toonflow/vgenLocal.ts:162-179 | add is one step of the run, and answers with the known row, other content, a full queue, a taken key or an insertion as the rows say; an insertion appends one queued row and nothing else changes |
| `LocalQueues.LocalQueue.FindVideo` | integrations/toonflow/vgenRecovery.ts:68-72 | the search loop returns the video's first row by creation stamp, or -1 |
| `LocalQueues.LocalQueue.RetryVideo` | integrations/toonflow/vgenRecovery.ts:78-85 | a retry by video retries the video's first row as one step of the run: it appends a queued copy without a task, and fails exactly when there is no such finished row to retry |
| `LocalQueues.LocalQueue.CancelVideo` | integrations/toonflow/vgenRecovery.ts:68-76 | a cancel by video begins the cancel of the video's first row as one step of the run, waits exactly for a row with a task, and refuses a finished one |
| `LocalQueues.LocalQueue.CancelReplied` | integrations/toonflow/vgenRecovery.ts:73-75 | after the remote call answered, the row is cancelled whatever it held, as one step of the run that keeps what every run keeps |
| `LocalQueues.LocalQueue.Release` | integrations/toonflow/vgenLocal.ts:139-142 | releasing a closed idle queue leaves a run in which nobody owns the table and this process has no queue open |
| `PackageNames.CanonicalIdempotent` | src/vgen/cli/worker_bundle.py:326-332 | canonicalising a distribution name twice is canonicalising it once |
| `PackageNames.CanonicalIsValid` | src/vgen/cli/worker_bundle.py:326-332 | the canonical form of a valid name is a valid name that is already canonical |
| `PackageNames.CanonicalOfWord` | src/vgen/cli/worker_bundle.py:326-332 | letters and digits stay where they are, in lower case, whatever follows |
| `PackageNames.CanonicalOfRun` | src/vgen/cli/worker_bundle.py:326-332 | a run of hyphens, underscores and dots, however long and mixed, becomes one hyphen |
| `Wheelhouse.SaturatedIsReachable` | src/vgen/cli/worker_bundle.py:349-400 | a fixed point of the closure loop that grew only along requirements is exactly the set of reachable (distribution, extra) pairs |
| `Wheelhouse.ReachableIsLeast` | src/vgen/cli/worker_bundle.py:349-400 | that set is contained in every set that holds vgen with worker-comfyui and is closed under active requirements |
| `Wheelhouse.AnyHolds` | src/vgen/cli/worker_bundle.py:366-376 | `any` over the contexts, in any order and stopping early, holds only if a context holds and is denied only if none does |
| `Wheelhouse.Absorb` | src/vgen/cli/worker_bundle.py:364-398 | one requirement is refused only for a fault or an undefined marker, and otherwise enlarges the closure along an edge |
| `Wheelhouse.VisitDistribution` | src/vgen/cli/worker_bundle.py:360-398 | the loop over one distribution's requirements keeps the closure sound and makes it saturated for that distribution |
| `Wheelhouse.Pass` | src/vgen/cli/worker_bundle.py:358-398 | one turn over the reached distributions keeps the closure sound, and changes nothing only when it is saturated |
| `Wheelhouse.Close` | src/vgen/cli/worker_bundle.py:349-400 | the loop ends, with exactly the reachable pairs and no fault, or with a fault or an undefined marker to blame |
| `Wheelhouse.UnionOfClosures` | src/vgen/cli/worker_bundle.py:349-402 | over all Python patches, the union holds exactly the distributions reachable under some patch, and no patch has a fault |
| `Wheelhouse.CheckClosures` | src/vgen/cli/worker_bundle.py:349-406 | acceptance means no fault under any patch and no orphan wheel; refusal names an orphan, a fault or an undefined marker |
| `WheelhouseReview.Validate` | src/vgen/cli/worker_bundle.py:326-406 | an accepted wheelhouse has distinct names, pip and vgen, and for every Python patch only well-formed headers along active requirements from vgen, each met by a wheel of an admitted version, with no wheel left over; a refused one lacks this, or a marker cannot be evaluated |
| `WheelhouseReview.ReviewedIsAcceptable` | src/vgen/cli/worker_bundle.py:326-406 | that promise, said of positions and header fields of the given wheels, is what the closure loops decide, in both directions |
| `WheelhouseReview.NeededIsReachable` | src/vgen/cli/worker_bundle.py:349-400 | a wheel is needed along a route of headers if and only if its pair is reachable in the closure graph |
| `WheelhouseReview.HeadersOfVgen` | src/vgen/cli/worker_bundle.py:360-398 | in an accepted wheelhouse every header of vgen is well formed, and its requirement met whenever it counts for vgen |
| `WheelhouseReview.HeadersAlongUnmarked` | src/vgen/cli/worker_bundle.py:360-398 | the same for every header of a wheel that requirements without markers lead to, over routes of any length |
| `WheelhouseReview.UnmetIsRefused` | src/vgen/cli/worker_bundle.py:377-398 | a wheelhouse is refused whenever vgen requires, without a marker, a wheel that is missing or of a version not admitted |
| `WheelhouseReview.BareIsReviewed` | src/vgen/cli/worker_bundle.py:326-406 | pip and a vgen that requires nothing are accepted |
| `RequirementsLock.PrintLock` | src/vgen/cli/worker_bundle.py:408-415 | the printed lock is the header and one line for every wheel in name order |
| `RequirementsLock.ParseLock` | tools/build_public_release.py:457-486 | the parsing loop computes the dictionary of the lines, or refuses a malformed, duplicate or wrongly-extra line |
| `RequirementsLock.LineParsesExactlyWhen` | tools/build_public_release.py:457-486 | a line is accepted for a distribution if and only if it is a spelling of its name, the Worker extra for vgen and none for others, a version and a digest |
| `RequirementsLock.AddsExactlyWhen` | tools/build_public_release.py:457-486 | an accepted line adds its pin exactly when the distribution has none yet; comments and empty lines add nothing |
| `RequirementsLock.SplitsLine` | tools/build_public_release.py:457-486 | a line ends at the first break, and a carriage return with its line feed is one break |
| `RequirementsLock.StripsBlanks` | tools/build_public_release.py:457-486 | blanks on either side of a line do not matter |
| `RequirementsLock.AcceptedNamesAreCanonical` | src/vgen/cli/worker_bundle.py:402-406 | every wheel of an accepted wheelhouse has a canonical name, because a requirement or vgen itself names it |
| `RequirementsLock.LockParses` | tools/build_public_release.py:457-486 | a lock printed from wheels with canonical names parses to exactly their versions and digests |
| `RequirementsLock.LockRoundTrip` | src/vgen/cli/worker_bundle.py:326-415 | for every accepted wheelhouse, parsing the printed lock returns exactly the map from distribution to version and digest |
| `BrokerRuns.StateKeysDiffer` | src/vgen/broker/rekey.py:104-121 | the journal keys of two commands differ, and none is the cursor's |
| `BrokerDelivery.RunBase` | src/vgen/broker/daemon.py:65-121 | every run, with crashes, expiries and requeues at every point, keeps one row per id, items of different commands, acknowledgements exactly the completed places, and a cursor on a completed one |
| `BrokerDelivery.RunDelivers` | src/vgen/broker/daemon.py:65-121 | every run without harmful steps keeps whatever the daemon can still come to preceded, by stamp, only by what it comes to before, and nothing waiting up to the cursor |
| `BrokerDelivery.CursorBehindAcknowledgements` | src/vgen/broker/daemon.py:81-121 | in every such run the durable cursor names an acknowledged command, and every command handed out up to it was acknowledged or had expired |
| `BrokerDelivery.AcknowledgedInOrder` | src/vgen/broker/daemon.py:81-121 | in every such run that queues nothing before an acknowledged command, acknowledgements follow the order of the stamps, each place at most once, and none passes over one that waits |
| `BrokerDelivery.StepAcksExactlyWhen` | src/vgen/gateway/repository.py:2858-2863 | while the cursor is safe, a step keeps the acknowledgements in order if and only if it does not queue a command before an acknowledged one |
| `BrokerDelivery.CursorSafeExactlyWhen` | src/vgen/gateway/repository.py:1324-1341 | a step leaves the cursor's guarantee safe in every later run without harmful steps if and only if it is not harmful itself |
| `BrokerDelivery.HarmfulPassesOver` | src/vgen/gateway/repository.py:1324-1341 | after any harmful step the daemon's own steps alone lead to a cursor with a waiting command before it |
| `BrokerDelivery.EnqueueHarmfulExactlyWhen` | src/vgen/gateway/repository.py:2858-2863 | queueing a new command is harmful if and only if its stamp is behind that of the command the cursor names or is about to name, or of one the daemon can come to |
| `BrokerDelivery.OnTimeEnqueueIsHarmless` | src/vgen/gateway/repository.py:2858-2863 | a new command with no stamp ahead of its own is never harmful |
| `BrokerDelivery.RequeueHarmfulExactlyWhen` | src/vgen/gateway/repository.py:1324-1341 | queueing an expired command again, with no stamp ahead, is harmful if and only if the daemon still has it ahead and something else waits that it does not come to before |
| `BrokerDelivery.CursorPassesExpired` | src/vgen/broker/daemon.py:81-121 | for any two ids, a run whose cursor names the second while the first expired unacknowledged |
| `BrokerDelivery.CursorPassesWaiting` | src/vgen/gateway/repository.py:1324-1341 | for any two ids, a run with a requeue whose cursor names a command while one before it waits |
| `BrokerDelivery.CursorPassesLate` | src/vgen/gateway/repository.py:2858-2863 | for any two ids, a run with a clock set back whose cursor names a command while one with an earlier stamp waits |
| `BrokerDelivery.PendingsAre` | src/vgen/gateway/repository.py:2858-2863 | what a poll hands out is exactly the waiting commands, in the order of their stamps |
| `BrokerDelivery.RestartResumes` | src/vgen/broker/daemon.py:65-121 | killed anywhere, the daemon's next poll hands out exactly the commands that wait, the interrupted one included, by their stamps, and loses nothing of the journal |
| `BrokerSteps.StageComesExactlyWhen` | src/vgen/broker/daemon.py:99-121 | a command in its turn comes to each stage if and only if the reply or write listed for that stage arrives, with the generation of the journal and the attempt the Gateway first made |
| `BrokerSteps.TurnEndsExactlyWhen` | src/vgen/broker/daemon.py:81-121 | the daemon lets go of its page if and only if it is killed, the handler fails, a request is refused or its answer lost, the reservation was lost, or the last command is done |
| `BrokerSteps.JournalWrittenExactlyWhen` | src/vgen/broker/rekey.py:200-217 | a step writes at most one row of the journal: the next generation after a lost reservation, the completion after a rekey, the cursor after an acknowledgement |
| `BrokerSteps.RequestsAreLogged` | src/vgen/broker/rekey.py:104-200 | each retry and rekey is made under the journal's generation and the reserved attempt, once per step, and a completion counts exactly when the Gateway made it |
| `BrokerSteps.PageTakenExactlyWhen` | src/vgen/broker/daemon.py:65-98 | an idle daemon takes a page if and only if it polls for at least one command and one waits, and begins with its first |
| `BrokerRuns.GenerationNeverDecreases` | src/vgen/broker/rekey.py:104-210 | no step decreases the stored generation of any command |
| `BrokerRuns.GenerationGrows` | src/vgen/broker/rekey.py:104-210 | over any continuation of any run the stored generation of a command never decreases |
| `BrokerRuns.FreshKeyNeedsExpiry` | src/vgen/broker/rekey.py:157-210 | in every run a retry key above the first is used only after the reservation under the key before it was reported expired |
| `BrokerRuns.RetryKeysBounded` | src/vgen/broker/rekey.py:157-210 | in every run the number of distinct retry keys of a command is at most one plus the expired-reservation replies that command got |
| `BrokerRuns.ResumedRunReusesKeys` | src/vgen/broker/rekey.py:104-121 | in every run all rekey requests of one command and generation name the same attempt, so a resumed handler reuses its rekey key |
| `Broker.Gateway.Poll` | src/vgen/gateway/repository.py:2841-2864 | the poll returns the pending commands by their stamps, as many as there are up to the limit |
| `Broker.Gateway.Retry` | src/vgen/broker/rekey.py:122-156 | a retry under a key already used returns the reservation it made before, and otherwise stores the offered one |
| `Broker.Gateway.Complete` | src/vgen/gateway/repository.py:2866-2960 | completion is by id: success is seen exactly when the command's row is pending and the reply is good, and only that row changes |
| `Broker.BrokerDaemon.Reserve` | src/vgen/broker/rekey.py:104-156 | the retry request uses the generation of the journal and leaves the daemon where the model's step does |
| `Broker.BrokerDaemon.AdvanceGeneration` | src/vgen/broker/rekey.py:200-210 | a lost reservation stores the next generation for this command and nothing else |
| `Broker.BrokerDaemon.RecordCompletion` | src/vgen/broker/rekey.py:210-217 | a rekeyed task stores completion under the same generation and nothing else |
| `Broker.BrokerDaemon.RekeyTask` | src/vgen/broker/rekey.py:104-217 | the handler succeeds exactly when retry, verification and rekey do, along a run of the model; the command's journal row is completed, or has the next generation, or is as before, exactly by the replies |
| `Broker.BrokerDaemon.PostComplete` | src/vgen/broker/daemon.py:99-121 | the acknowledgement step agrees with the model even when its reply is lost |
| `Broker.BrokerDaemon.MoveCursor` | src/vgen/broker/daemon.py:110-121 | the cursor entry becomes this command's id and nothing else changes |
| `Broker.BrokerDaemon.Execute` | src/vgen/broker/daemon.py:99-121 | it succeeds exactly when the handler succeeds and the acknowledgement of a row that waits is answered; the row is completed and acknowledged exactly when the Gateway recorded it, the cursor names the command on success and stays otherwise, and the generation goes up by one exactly on a lost reservation |
| `Broker.BrokerDaemon.RunOnce` | src/vgen/broker/daemon.py:65-98 | of the polled commands the longest prefix whose replies are all good is executed; its rows are completed, and besides them only the next when the Gateway recorded it and the answer was lost; the cursor is on the last executed one |
| `Broker.BrokerDaemon.ExecuteAll` | src/vgen/broker/daemon.py:81-98 | the loop over the polled commands has that outcome, stopping at the first that fails |
| `Broker.CompletionsAre` | src/vgen/broker/daemon.py:81-98 | exactly the executed commands become completed, and nothing else of the table differs |
| `KeyGrants.OrderedUnique` | src/vgen/cli/workspace_envelopes.py:400-440 | recipients with distinct pairs have one ordering, so both sides compute the same digest input |
| `KeyGrants.SortRecipients` | src/vgen/cli/workspace_envelopes.py:400-440 | the sorted recipients are in order and a permutation of the given ones |
| `KeyGrants.BuildGrants` | src/vgen/cli/workspace_envelopes.py:400-485 | a snapshot is refused exactly when it is unusable, and otherwise gets one grant per recipient in canonical order |
| `KeyGrants.GrantsMatchRecipients` | src/vgen/cli/workspace_envelopes.py:400-485 | the grants of a rotation are in bijection with the distinct recipients of its snapshot, all for the new version and key |
| `KeyGrants.WhoOpensAGrant` | src/vgen/cli/workspace_envelopes.py:648-658 | a grant opens if and only if the secret is the recipient's and the associated data is the grant's own, with its binding, and then to its key |
| `KeyRotation.RunKeepsInv` | src/vgen/cli/workspace_envelopes.py:375-582 | in every interleaving of rotations, grants, syncs and lost replies that initialises no rotated version anew, stores, envelopes and rotations agree with what was activated |
| `KeyRotation.NextKeepsInvExactlyWhen` | src/vgen/cli/workspace_envelopes.py:335-352 | a step keeps that agreement if and only if it does not initialise a rotated version with another key |
| `KeyRotation.RunKeepsInvExactlyWhen` | src/vgen/cli/workspace_envelopes.py:335-582 | the agreement holds at every point of a run if and only if no step of it does |
| `KeyRotation.SetupStoresAnotherKey` | src/vgen/cli/workspace_envelopes.py:335-352 | for any two keys, a run in which a rotation activates one for version 2 and setup on another device stores the other for it |
| `KeyRotation.StoredKeysAreActivated` | src/vgen/cli/workspace_envelopes.py:486-505 | in every such run every locally stored key of a rotated version is the key that was activated for it |
| `KeyRotation.ActivatedForever` | src/vgen/gateway/repository.py:2313-2495 | over any continuation whatever the key activated for a version stays the same |
| `KeyRotation.EnvelopesOpenToActivated` | src/vgen/cli/workspace_envelopes.py:508-582 | in every such run any live envelope of a rotated version that opens gives the activated key |
| `KeyRotation.OneWinnerPerVersion` | src/vgen/gateway/repository.py:2313-2495 | in every run, whatever is interleaved or lost, the Gateway takes at most one rotation to each version |
| `KeyDelivery.BuiltExactlyWhen` | src/vgen/cli/workspace_envelopes.py:375-486 | a rotation is built if and only if the recipients allow it and the version is the expected one; it is of the current recipients and to the next version |
| `KeyDelivery.TakenExactlyWhen` | src/vgen/gateway/repository.py:2313-2495 | in every run the Gateway moves to the next version, and activates the rotation's key, if and only if a posted rotation was built for the version and recipients it still has |
| `KeyDelivery.ConfirmedExactlyWhen` | src/vgen/cli/workspace_envelopes.py:375-505 | in every run a rotation becomes confirmed if and only if its answer arrives and the Gateway took it now or before, and is forgotten only when given up |
| `KeyDelivery.StoreExactlyWhen` | src/vgen/cli/workspace_envelopes.py:335-582 | the key a device holds for a version changes exactly by its own setup, save or sync, and then to the key of that step |
| `KeyDelivery.SavedKeyIsActivated` | src/vgen/cli/workspace_envelopes.py:486-505 | in every run that initialises no rotated version anew, saving a confirmed rotation leaves the activated key of its version in that device's store |
| `KeyDelivery.RecipientsCanSync` | src/vgen/cli/workspace_envelopes.py:508-582 | in every run, once a rotation is taken, every recipient of its snapshot opens its envelope, and any device that syncs with it comes to hold the activated key |
| `KeyDelivery.TakenIsSealed` | src/vgen/cli/workspace_envelopes.py:375-486 | a taken rotation leaves an envelope for every recipient of its snapshot, sealed for that one |
| `KeyDelivery.GrantIsSealed` | src/vgen/cli/workspace_envelopes.py:260-332 | a grant leaves an envelope for its recipient with the key the device holds for the current version |
| `KeyDelivery.OldEnvelopesStay` | src/vgen/gateway/repository.py:2313-2495 | no step changes an envelope of a version before the current one |
| `KeyDelivery.TakenIsConfirmed` | src/vgen/cli/workspace_envelopes.py:486-505 | a taken rotation whose answer arrives is confirmed |
| `KeyDelivery.BothHoldTheKey` | src/vgen/cli/workspace_envelopes.py:375-582 | for any recipient, devices and key, a run in which one device rotates and saves, another syncs, and both hold the new key |
| `KeyStore.AccountInjective` | src/vgen/cli/workspace_keys.py:24-28 | two (workspace, version) pairs never share a keyring account, whatever characters the id has |
| `KeyStore.WorkspaceKeyStore.Save` | src/vgen/cli/workspace_keys.py:35-42 | saving succeeds exactly for a 32-byte key, a non-empty id and a positive version, and changes the keys of that pair only |
| `KeyStore.WorkspaceKeyStore.Load` | src/vgen/cli/workspace_keys.py:44-53 | loading returns the cached key of that pair, or nothing when there is none or it is not 32 bytes |
| `KeyStore.WorkspaceKeyStore.Delete` | src/vgen/cli/workspace_keys.py:55-59 | deleting removes the key of that pair only, and never fails |
| `Authorities.WriteOnce` | src/vgen/cli/workspace_authorities.py:77-112 | over any sequence of calls and deaths that do not overlap, a stored pin is never replaced or removed |
| `AuthorityRaces.UninterruptedPin` | src/vgen/cli/workspace_authorities.py:77-112 | a pin whose read and write follow each other is the call as a whole |
| `AuthorityRaces.UninterruptedPinOwner` | src/vgen/cli/workspace_authorities.py:153-199 | a pin_owner whose steps follow each other, or that dies after its first write, is the call as a whole |
| `AuthorityRaces.NextCleanExactlyWhen` | src/vgen/cli/workspace_authorities.py:95-112 | with any number of processes in their calls, a step replaces nothing, and leaves no write that could, if and only if it is not a read that overlaps another process's write of something else |
| `AuthorityRaces.SerialRunsWriteOnce` | src/vgen/cli/workspace_authorities.py:77-199 | in every run of any number of processes without overlapping reads, no stored pin is replaced or removed between any two points |
| `AuthorityRaces.WriteOnceExactlyWhen` | src/vgen/cli/workspace_authorities.py:77-199 | pins are written once in every later run without overlapping reads if and only if no write on its way replaces an entry or another write |
| `AuthorityRaces.RacingPinsReplace` | src/vgen/cli/workspace_authorities.py:95-112 | for any two claims of one user on different keys, a run in which both processes write and the second pin replaces the first |
| `Authorities.LoadIsExact` | src/vgen/cli/workspace_authorities.py:59-75 | whatever the keyring holds, a loaded pin is for exactly the requested pair and its key has its key id |
| `Authorities.LoadsExactlyWhen` | src/vgen/cli/workspace_authorities.py:59-75 | load answers an error for an empty id or a damaged entry, nothing for no entry, and otherwise the stored pin |
| `Authorities.PinsExactlyWhen` | src/vgen/cli/workspace_authorities.py:77-112 | pin succeeds if and only if the key is good and conflicts with nothing stored; it answers the stored pin, or the claim's own when there was none, and changes nothing else |
| `Authorities.PinsOwnerExactlyWhen` | src/vgen/cli/workspace_authorities.py:153-199 | pin_owner of an owned Workspace only compares user and key; of one without an owner it writes the owner once the key is good, and succeeds exactly when the user's own pin does |
| `Authorities.PinsComeFromCalls` | src/vgen/cli/workspace_authorities.py:77-112 | over any sequence of calls and deaths every entry of the keyring was there before or is the claim of one of the calls |
| `Authorities.SharedAccountsAreRefused` | src/vgen/cli/workspace_authorities.py:53-75 | when two pairs share an account through ':', after the first is pinned the second can be neither loaded nor pinned |
| `Authorities.AccountsCollide` | src/vgen/cli/workspace_authorities.py:53-57 | two different pairs that share an account |
| `Authorities.OwnerAgreementExactlyWhen` | src/vgen/cli/workspace_authorities.py:153-199 | after a successful pin_owner both pins are on its key exactly when it was the first or the user already was pinned to it |
| `Authorities.OwnerAgreementLasts` | src/vgen/cli/workspace_authorities.py:153-199 | after a successful first pin_owner no sequence of calls separates the two pins |
| `Authorities.RepeatedPinOwnerDisagrees` | src/vgen/cli/workspace_authorities.py:153-199 | for every user pinned to another key, pin_owner fails once and then succeeds with the pins apart |
| `Authorities.WorkspaceAuthorityStore.LoadPin` | src/vgen/cli/workspace_authorities.py:59-75 | after any calls, a loaded pin is of exactly this pair and was there at first or claimed by one of the calls |
| `Authorities.WorkspaceAuthorityStore.LoadOwnerPin` | src/vgen/cli/workspace_authorities.py:134-151 | after any calls, a loaded owner pin is of this Workspace and was there at first or claimed by one of the calls |
| `Authorities.WorkspaceAuthorityStore.SetPin` | src/vgen/cli/workspace_authorities.py:77-112 | pin succeeds exactly with a good key that conflicts with nothing stored, replaces nothing, and the pin it answers is what load answers from then on; a failed pin changes nothing |
| `Authorities.WorkspaceAuthorityStore.SetOwnerPin` | src/vgen/cli/workspace_authorities.py:153-199 | pin_owner replaces nothing stored, and its answer is what load_owner answers from then on; without an owner it writes the claim once the key is good and succeeds exactly when no user pin conflicts, with both pins then on one key; with one it changes nothing and succeeds exactly for the same user and key |
| `Releases.SameTreeIsEqual` | tools/build_public_release.py:593-605 | comparing names, sizes and digests with a build's expectation is comparing the files themselves |
| `ReleaseRuns.RunKeepsInv` | tools/build_public_release.py:1479-1542 | every interleaving of publishers and clients, stopped anywhere, keeps trees complete and pointers, bootstraps and clients on published builds |
| `ReleaseRuns.TreesAreImmutable` | tools/build_public_release.py:1479-1513 | in every run a published version tree never changes and never disappears |
| `ReleaseRuns.PointersNameCompleteTrees` | tools/build_public_release.py:1479-1542 | at every point the stable channel and both bootstraps name a directory whose manifest has the recorded digest and whose files are exactly the manifest's, by size and digest |
| `ReleaseRuns.CandidateIsGenuine` | src/vgen/cli/upgrade.py:157-239 | whatever bytes are returned for the manifest, a candidate carries the metadata of the build the stable channel names |
| `ReleaseRuns.AcceptedIsPublished` | src/vgen/cli/upgrade.py:157-271 | whatever the network answers, an accepted artifact is the macOS bundle of the version directory the stable channel named |
| `ReleaseRuns.HonestFetchVerifies` | src/vgen/cli/upgrade.py:157-271 | the files of a published tree pass all client checks exactly when they are within the client's size limits |
| `ReleaseRuns.PointedReleaseStaysVerifiable` | tools/build_public_release.py:1473-1513 | after any further run the files at a pointer read earlier pass all client checks, exactly when they were within the limits when it was read |
| `ReleaseRuns.OversizedReleaseIsRefused` | src/vgen/cli/upgrade.py:224-232 | every build whose bundle file is beyond 2 GiB can be published, and a client that then reads the channel and the true manifest refuses it |
| `ReleaseSteps.MovesExactlyWhen` | tools/build_public_release.py:1479-1542 | a publisher comes to each stage if and only if the check, copy, rename or write listed for it has the listed result, keeps its build, and is gone exactly when killed |
| `ReleaseSteps.TreeAppearsExactlyWhen` | tools/build_public_release.py:1479-1513 | a version directory appears if and only if a publisher of that version renames its staging directory first, and is that directory |
| `ReleaseSteps.NamesWrittenExactlyWhen` | tools/build_public_release.py:1515-1542 | the bootstraps and the channel change exactly by their own writes, each after the one before it, to the version and manifest digest of the publisher's build |
| `ReleaseSteps.BeginsExactlyWhen` | tools/build_public_release.py:1451-1479 | a build is taken up if and only if neither bundle is empty |
| `ReleaseSteps.NewVersionIsPublished` | tools/build_public_release.py:1473-1542 | from any state, a build of a new version ends with its own directory in place, all others unchanged, and the channel and both bootstraps on it |
| `ReleaseSteps.KnownVersionIsCompared` | tools/build_public_release.py:1479-1542 | publishing a known version again with the same content only names it once more, and with other content stops and writes nothing |
| `ReleaseSteps.CandidateExactlyWhen` | src/vgen/cli/upgrade.py:157-239 | whatever the channel names and the network returns, there is a candidate if and only if the bytes are within the limit, have the pointer's digest and decode to a manifest of its version with exactly one macOS artifact of the right name and size |
| `ReleaseSteps.UpgradeExactlyWhen` | src/vgen/cli/upgrade.py:157-271 | in every run, an upgrade accepts if and only if the manifest and the bundle it got are the files of the version directory the channel names, within the client's limits |
| `ReleaseRoots.SameVersionTree` | tools/build_public_release.py:593-605 | the comparison loop decides equality of names, sizes and digests |
| `ReleaseRoots.ReleaseRoot.Publish` | tools/build_public_release.py:1473-1542 | publishing succeeds exactly when an existing tree is identical or the copies match the metadata; success leaves the tree and all three pointers, failure changes nothing |
| `ReleaseRoots.Download` | src/vgen/cli/upgrade.py:242-271 | the block loop never writes more than the declared size, keeps the file exactly when it is the whole body with the declared size and digest, and reports a network failure exactly when the length header fits and the body breaks off within the declared size |
| `InstallCompensation.OwnershipIsExplicit` | src/vgen/cli/main.py:2109-2127 | a job is owned exactly when its reply says created and owned; unowned exactly when both fields are absent or say deduplicated; anything else is refused |
| `InstallCompensation.DistinctOnce` | src/vgen/cli/main.py:2907-2907 | deduplicating the source ids keeps every id exactly once |
| `InstallCompensation.RevokedExactlyOnce` | src/vgen/cli/main.py:2774-2932 | wherever an install fails with a compensated error, each job this intent created is revoked exactly once and no other job is |
| `InstallCompensation.NothingElseIsRevoked` | src/vgen/cli/main.py:2899-2932 | however an install ends, no job is revoked twice and none that it was not told it created |
| `InstallCompensation.FailureRevokesExactlyWhen` | src/vgen/cli/main.py:2661-2932 | a failed install revokes each job this intent created exactly once if and only if it created none, or was neither interrupted nor an incomplete closure of a package being activated and no revocation before the last was interrupted |
| `InstallCompensation.SucceedsExactlyWhen` | src/vgen/cli/main.py:2661-2896 | an install goes through if and only if each reply it needs is good, said of the script's fields; whether or not, the answered jobs are the capability's when it was asked for and the model's when models are missing and the capability is active |
| `InstallCompensation.FailsWithTheFirst` | src/vgen/cli/main.py:2661-2896 | it fails with the first error raised, in the order in which things are asked |
| `InstallCompensation.RaisesExactlyWhen` | src/vgen/cli/main.py:2899-2932 | a failed install raises that error, or the interrupt exactly when a revocation it requests is interrupted |
| `InstallCompensation.InterruptedExactlyWhen` | src/vgen/cli/main.py:2899-2932 | the revocation loop is interrupted if and only if one of its requests is |
| `InstallCompensation.DistinctInOrder` | src/vgen/cli/main.py:2907-2907 | deduplicated sources stay in the order in which they first occur |
| `InstallCompensation.InterruptLeavesJob` | src/vgen/cli/main.py:2830-2896 | for every job id, an interrupted upload that leaves the created job standing, and an ordinary failure that revokes it |
| `InstallCompensation.Installer.CreateJob` | src/vgen/cli/main.py:2081-2127 | the answered job is recorded, and is a rollback source exactly when owned, before anything is awaited |
| `InstallCompensation.Installer.InstallModels` | src/vgen/cli/main.py:2282-2334 | the model install asks for a job exactly when models are missing and records it exactly when the reply has one; it goes through exactly when none is missing, or the job is created and, if waited for, finishes |
| `InstallCompensation.Installer.InstallCapability` | src/vgen/cli/main.py:2774-2843 | the capability install goes through exactly when archive, create and finish are good and the upload and commit of its ticket are, or the job is active without one; its job is recorded exactly when the create request answers one |
| `InstallCompensation.Installer.Attempt` | src/vgen/cli/main.py:2710-2880 | the body of either try block has the effect of its replies, in order until one raises |
| `InstallCompensation.Installer.Rollback` | src/vgen/cli/main.py:2899-2932 | the loop requests each distinct source, passing over failures and stopping only when interrupted |
| `InstallCompensation.Installer.Install` | src/vgen/cli/main.py:2680-2896 | the install succeeds exactly when every reply it needs is good; the recorded jobs are exactly the capability's and the model's that were answered, and the revocations are those of a failure; success revokes nothing |
| `VideoFrames.SpanWithin` | src/vgen/cli/video_inputs.py:139-150 | however single intervals vary within their bounds, the whole span is within their number times the bounds |
| `VideoFrames.FrameCountBounded` | src/vgen/cli/video_inputs.py:120-155 | an accepted window with a time base of at most 1/6000 second holds 123 to 125 timestamps |
| `VideoFrames.MiscountHasClip` | src/vgen/cli/video_inputs.py:120-155 | every accepted step of whole time units that miscounts has an accepted clip on the grid with a count outside 123 to 125 |
| `VideoFrames.FrameCountBoundedExactlyWhen` | src/vgen/cli/video_inputs.py:120-155 | for clips whose timestamps are whole time units, all accepted windows hold 123 to 125 timestamps if and only if no number of time units is an accepted step of which 125 fit the window or 121 reach across it |
| `VideoFrames.MillisecondsMiscount` | src/vgen/cli/video_inputs.py:120-155 | with a millisecond time base, frames 41 ms apart are accepted and the window holds 127 |
| `VideoFrames.FiveThousandthsCount` | src/vgen/cli/video_inputs.py:141-150 | with a time base of 1/5000 second no accepted step miscounts |
| `VideoFrames.InspectedExactlyWhen` | src/vgen/cli/video_inputs.py:100-155 | inspection refuses a clip exactly for its rate or duration, a window that does not fit, fewer than two timestamps or one out of order, in that order; otherwise it says whether the gaps vary and whether the window runs at 24 frames a second, by bounds on the gaps and the ends |
| `VideoFrames.SelectedOne` | src/vgen/cli/video_inputs.py:135-140 | a frame counts exactly when it has a timestamp at or after the window's begin and before its end |
| `VideoFrames.SelectedInParts` | src/vgen/cli/video_inputs.py:135-140 | frames are selected one by one and in order |
| `ManagedBlock.MarkersAreDistinctive` | src/vgen/cli/completion.py:24-25 | both markers are single lines that begin with one character they have nowhere else |
| `ManagedBlock.NoStraddle` | src/vgen/cli/completion.py:326-344 | a marker that starts before a block never reaches into it |
| `ManagedBlock.UpdateReplaces` | src/vgen/cli/completion.py:326-344 | on the decoded text, an update fails exactly on an incomplete block, and otherwise puts the block between parts that do not depend on it, losing nothing outside |
| `ManagedBlock.SecondUpdateWinsExactlyWhen` | src/vgen/cli/completion.py:326-344 | an updated text can be updated again, and on the decoded text two updates equal the second alone if and only if the first block has the end marker only at its end |
| `ManagedBlock.UpdateIsIdempotent` | src/vgen/cli/completion.py:341-344 | writing such a block again changes nothing |
| `ManagedBlock.InnerEndMarkerIsLeftBehind` | src/vgen/cli/completion.py:326-344 | every block with an end marker anywhere inside is left behind in part by the next update |
| `ManagedBlock.AppendedOnItsOwnLine` | src/vgen/cli/completion.py:326-344 | where there was no block the new one starts on a line of its own, after all the text there was, with a line end added only if one was missing |
| `ShellConfigs.DecodesToItselfExactlyWhen` | src/vgen/cli/completion.py:330-330 | reading in text mode changes exactly the files with a carriage return |
| `ShellConfigs.OutsideKeptExactlyWhen` | src/vgen/cli/completion.py:330-344 | an update that writes keeps the stored text outside the block if and only if that has no carriage return; one that does not write keeps the file |
| `ShellConfigs.SecondStoredUpdateWinsExactlyWhen` | src/vgen/cli/completion.py:326-344 | on the stored file two updates equal the second alone if and only if the first block, as read back, ends at its first end marker, and what either way leaves unwritten has the same bytes |
| `ShellConfigs.CarriageReturnIsLost` | src/vgen/cli/completion.py:330-344 | a file of one CR LF line, whose carriage return the first installation loses |
| `ShellConfigs.RewritingThereAndBack` | src/vgen/cli/completion.py:326-344 | for any two blocks, a file with CR LF that the second block alone leaves as it is, and both in turn do not |
| `ShellConfigs.ShellConfig.UpdateManagedBlock` | src/vgen/cli/completion.py:326-344 | a missing file becomes the block and a line end, a regular file its stored update, and an irregular file or incomplete block is left alone |
| `WorkflowCodes.DisplayCode` | src/vgen/cli/workflow_catalog.py:51-58 | the search loop returns the first unambiguous of the sorted catalog codes and the name, or the full id |
| `WorkflowCodes.DisplayIsInjective` | src/vgen/cli/workflow_catalog.py:51-58 | over one id set and catalog, two ids with the same displayed code are the same id |
| `WorkflowCodes.DisplayedExpandsExactlyWhen` | src/vgen/cli/main.py:3449-3471 | a displayed code, with or without a version, expands to the id it was displayed for if and only if it is a full id or at most 128 characters, and a refreshed catalog is never asked |
| `WorkflowCodes.LongNameMisleads` | src/vgen/cli/main.py:3783-3794 | every id with a longer name, installed alone, is displayed by a code that expansion refuses |
| `WorkflowCodes.InstalledListExpandsExactlyWhen` | src/vgen/cli/main.py:3600-3606 | a code from the list of installed workflows expands to its id if and only if it is a full id, or short enough and no other known id ends in it |
| `WorkflowCodes.SharedNameMisleads` | src/vgen/cli/main.py:3600-3606 | every installed id that shares its name with a known one is listed by a code that is ambiguous |
| `WorkflowLookups.DisplaysExactlyWhen` | src/vgen/cli/workflow_catalog.py:51-58 | a workflow is displayed by the least of its catalog codes that stand for it alone, failing those by its name if that does, and failing that by its id |
| `WorkflowLookups.ExpandsExactlyWhen` | src/vgen/cli/main.py:3449-3471 | an ill-formed reference is refused, a full id stands for itself, and a code, with or without a version, expands to the workflow it alone stands for, is ambiguous for two and unknown for none |
| `WorkflowLookups.RefreshesExactlyWhen` | src/vgen/cli/main.py:3449-3471 | a refreshed catalog is asked if and only if a well-formed code stands for nothing in the cached one |
| `WorkflowLookups.CandidatesAre` | src/vgen/cli/workflow_catalog.py:36-40 | a code stands for a workflow exactly by being the last part of a known id or by a catalog row |
| `WorkflowLookups.IdIs` | src/vgen/market/models.py:12-31 | the id check accepts exactly the texts of two well-formed, portable parts around one slash |
| `CatalogCaches.NoneReassignedExactlyWhen` | src/vgen/cli/workflow_catalog.py:94-103 | an accepted refresh reassigns no code if and only if every new name that is no new code was free or stood for the very workflows that have it |
| `CatalogCaches.LearnedForGoodExactlyWhen` | src/vgen/cli/workflow_catalog.py:90-120 | over any sequence of accepted refreshes, every code once learned stands for the same workflows ever after if and only if each refresh keeps those names and forgets no code or name |
| `CatalogCaches.NameTakesCode` | src/vgen/cli/workflow_catalog.py:94-103 | for any such rows, an accepted refresh after which a learned code resolves to another workflow whose name it is |
| `CatalogCaches.ForgottenCodeIsReassigned` | src/vgen/cli/workflow_catalog.py:94-103 | for any two workflows with one code, two accepted refreshes after which the code resolves to the other |
| `CatalogCaches.CheckCodes` | src/vgen/cli/workflow_catalog.py:98-103 | the loop over the new rows accepts exactly when each of their codes stood for nothing or for the same workflows |
| `CatalogCaches.CatalogCache.Write` | src/vgen/cli/workflow_catalog.py:90-120 | a refused refresh changes nothing, and an accepted one replaces the cache and, if it keeps the unchecked names, reassigns no code |
| `Newlines.NormaliseIdempotent` | tools/windows_worker_wheelhouse.py:484-487 | normalising METADATA twice is normalising it once, and never makes it longer |
| `Newlines.InsertedCrsVanish` | tools/windows_worker_wheelhouse.py:484-487 | any number of CRs put before LFs of plain text is normalised away |
| `Newlines.CollapsesRun` | tools/windows_worker_wheelhouse.py:484-487 | a run of carriage returns before a line feed goes, and the line feed stays |
| `Newlines.ReplacesRun` | tools/windows_worker_wheelhouse.py:484-487 | every carriage return of a run that ends otherwise becomes a line feed |
| `Newlines.KeepsOthers` | tools/windows_worker_wheelhouse.py:484-487 | a byte that is no carriage return stays |
| `WheelCanonical.OrderDoesNotMatter` | tools/windows_worker_wheelhouse.py:441-519 | archives with the same entries in any order have the same canonical form, or are both refused |
| `WheelResults.RecordListsEveryOtherEntryOnce` | tools/windows_worker_wheelhouse.py:494-506 | RECORD of a canonical form has one row with digest and size for every other entry, in order, and one for itself; other entries are unchanged |
| `WheelResults.CanonicalisedExactlyWhen` | tools/windows_worker_wheelhouse.py:421-493 | an archive has a canonical form if and only if it has 1 to 4096 entries of safe names that differ in more than case, 64 MiB in all, and its one METADATA with the RECORD beside it |
| `WheelResults.CanonicalFormIsSorted` | tools/windows_worker_wheelhouse.py:507-519 | the entries of a canonical form are in the order of their names, no two with the same |
| `WheelResults.CanonicalFormIsFixedExactlyWhen` | tools/windows_worker_wheelhouse.py:433-519 | the canonical form is its own canonical form if the archive's size, less the old METADATA and RECORD, plus the normalised METADATA and the rebuilt RECORD, is within the limit, and is refused otherwise |
| `WheelResults.FullArchiveIsNotFixed` | tools/windows_worker_wheelhouse.py:460-463 | every archive of METADATA and an empty RECORD that fills the limit has a canonical form beyond it |
| `WheelResults.CarriageReturnsDoNotMatter` | tools/windows_worker_wheelhouse.py:484-493 | CRs inserted before LFs of an LF-only METADATA change the canonical form only by exceeding the size limit |
| `BuiltWheels.ReadEntries` | tools/windows_worker_wheelhouse.py:441-465 | the reading loop returns the entries exactly when names are safe, distinct up to case, and count and size within the limits |
| `BuiltWheels.WriteRecord` | tools/windows_worker_wheelhouse.py:494-506 | the rows written are those of every other entry in order, and RECORD's own |
| `BuiltWheels.BuiltWheel.Canonicalize` | tools/windows_worker_wheelhouse.py:421-524 | the file becomes its canonical form exactly when there is one, and is otherwise left alone |
| `Ordering.SortedUnique` | tools/windows_worker_wheelhouse.py:496-499 | any increasing sequence of a set's names is its sorted sequence |
| `Ordering.SortNames` | src/vgen/cli/workflow_catalog.py:52-52 | the computed sequence is the sorted sequence of the names |

## Left out

- WheelhouseReview.Validate: acceptance is stated as an if and only if only when no marker evaluation is undefined, because `any` over a set of contexts stops early and its verdict then depends on the iteration order.
- Wheelhouse.AnyHolds: the order in which Python iterates the context set is arbitrary here, so an undefined marker may or may not be met.
- RequirementsLock.ParseLock: of PEP 508 only the form `name==version` or `name[extra]==version` is parsed, which is what the printer emits; other requirement syntax is refused here.
- KeyRotation.StoredKeysAreActivated: says nothing of version 1, which each device may initialise for itself before the first rotation.
- BrokerDelivery.CursorBehindAcknowledgements: an expired command counts as done, and of two commands with equal stamps the one queued first comes first.
- Broker.Gateway.Complete: a command past its time counts as expired at once, while the Gateway completes it until its next sweep marks it.
- Broker.BrokerDaemon.RunOnce: the Gateway's table changes only by the daemon during one call; whatever is queued or expires in between is a step of the state machine.
- Broker.Gateway.Retry: the Gateway's idempotency cache is keyed by command and generation only, not also by session and body digest.
- InstallCompensation.Installer.Install: node pack jobs, which have their own install and no rollback, are part of the step that decides whether the workflow is already active.
- ReleaseRoots.ReleaseRoot.Publish: ZIP validation of the bundles, symbolic links, file modes, fsync and bootstrap texts are not modelled; a bootstrap is the version and digest it pins.
- VideoFrames.FrameCountBoundedExactlyWhen: the printing of timestamps with six decimals, and of the window's ends with nine, is not modelled; `VideoFrames.FrameCountBounded` holds for any timestamps.
- CatalogCaches.CatalogCache.Write: JSON, the size of the file and symbolic links are one answer, whether the cache can be read and the new one fits.
- ShellConfigs.ShellConfig.UpdateManagedBlock: the temporary file, its mode and symbolic links are not modelled, and lines are written with LF, as on the systems that have these shells.
- LocalQueues.LocalQueue.Add: normalisation of the request and the error, progress and result columns are not modelled.
- Release metadata whose size and digest were taken from different states of a bundle: no tree can match it, so such a publication only fails.
- Command-line parsing, prompts, help and list formatting, and the guided setup and join flows.
- The Gateway client, sessions, signatures and key derivation; HPKE is symbolic.
- Artifact transfer adapters, ZIP and wheel-tag parsing, and crcmod's source patch.
- The Gateway's scheduling, leases, rates and workflow registry, which would only add members unrelated to these protocols.
