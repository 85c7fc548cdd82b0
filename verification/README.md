# A verified model of WRDP's stateful protocols

WRDP is a single-port, multi-user RDP server. This project models the parts of it whose
correctness spans several functions or whole runs, and proves what they keep. The files follow the
program's own components.

| component | files |
|---|---|
| resize transaction (`ResizeCoordinator`) | `ResizeCoordinator.dfy`, `ResizeRuns.dfy` |
| display loop around it: issue, realize, commit, gate, publish | `DisplayPipeline.dfy`, `DisplayRuns.dfy`, `DisplayConvergence.dfy` |
| session manager: ensure, status, stop, bind, unbind, disconnect, reconcile, idle cleanup | `SesmanModel.dfy`, `ProcessLife.dfy`, `Launch.dfy`, `SessionSpec.dfy`, `IdlePolicy.dfy`, `SessionManager.dfy` |
| connection admission, cancellation and the accept loop | `Admission.dfy`, `AcceptLoop.dfy`, `ClientPresence.dfy` |
| bounded input queue, its worker, and the failure report | `InputQueue.dfy`, `InputReport.dfy` |
| frame rate, frame copies and padding | `FrameRate.dfy`, `Frames.dfy` |
| session configuration text | `IniText.dfy`, `IniLists.dfy`, `IniFile.dfy` |

Code that updates fields or loops is modelled by classes and methods with loops, each proved against
a value-level specification or an invariant; the theorems are then about that specification,
for all inputs, schedules and runs. Clocks are passed in as readings. Concurrency is
interleaving: the display loop lists, for every place where it awaits or releases a lock, what
the other tasks do there; the input report takes one atomic access per step; the session manager
observes a timeline of worlds (clock, boot id, process table, sockets, failing I/O) that is free
to change between any two of its observations.

## Where the code is not what one would expect

Each of these is proved, with the exact condition under which the expected property holds.

- A request for the size still applied, made while another size is being committed, is forgotten.
  The coordinator is a last-write register exactly when the newest request was not of that kind
  (`LastWriteRegister`; `OverlookedIsReachable` gives the calls).
- If B is requested while the command for A runs, and A again after that command has returned,
  A stays in flight without a deadline, and no turn ever leaves that state unless a different
  size is requested (`StuckIsReachable`, `LoopGetsStuck`, `StuckForever`, `OtherRequestUnsticks`).
  From every other state that any run reaches the loop converges, if requests stop, commands and
  slots are granted and each confirmed size is shown before its deadline, after any number of turns
  (`Converges`, `ConvergesAfterAnyRun`, `OneCommand`).
- A request for the applied size, pending or not, is dropped without restoring the compositor's
  mode. At every loop head of every run the compositor shows the applied size exactly if no
  command was issued since that size was applied, or the newest one failed and left it in place
  (`ModeExactly`). `ModeLeftBehind` and `ModeLeftBehindByRequest` give two ways to rest with another
  mode, and `ModeAtRest` what an undisturbed turn that comes to rest needs.
- If the update channel is replaced between the cloning of its sender and the size write of a
  commit, the new reader is not told the size it is then sent bitmaps of
  (`CommitAlignedExactly` states the exact window, `UnsafeSwapIsReachable` a run of one turn).
- Once a failing call and an attaching call have both returned, exactly one `InputFailed` has been
  sent if and only if no thread stands between its exchange and its send; a third thread can stand
  there (`ReportedExactlyOnce`, `ThirdThreadCanHoldTheEvent`). With two threads it is always sent.
- Flipping or rotating twice is compaction exactly when the frame had stride padding, or had
  neither trailing bytes nor damage regions (`TwiceIsCompact`, `TightFrameKeepsDamage`): a frame
  that is already tight is returned as it is by `compact_frame`. With a packed picture of 4 GiB or
  more `compact_frame` panics, and source offsets beyond that wrap around (`CompactFrame`).
- The list printer quotes items with commas, but the list parser splits inside quotes; a quoted
  scalar or item with a double quote in it is not read back; an unquoted item with one can turn a
  later `#` into a comment; nothing with a line break is read back; and names, commands and paths,
  printed without quotes, must be free of white space at their ends, of quotes around them and of
  a comment mark after white space (`ListRoundTrip`, `ScalarRoundTrip`, `RawRoundTrip`, and for
  whole files `FileRoundTrip`, each with its exact condition).
- A kill is sent without an earlier termination exactly for a target that was seen dead when the
  terminations were sent and is there again after the wait (`TermBeforeKill`; for a group that was
  never empty the termination always comes first, `TermBeforeKillOfGroup`; `KilledUnterminated`
  gives a timeline of the exception).
- When a registry write and the cleanup after it both fail in one `ensure`, the registry covers the
  live leaders if and only if the newest leader is dead (`EnsureSession`); `OrphanCanLive` gives a
  timeline in which it lives.

## Model

| member | source | states |
|---|---|---|
| `Resize.ResizeCoordinator.constructor` | src/rdp/server/display_handler.rs:143-152 | nothing pending, in flight or being committed; the given size is applied |
| `Resize.ResizeCoordinator.Request` | src/rdp/server/display_handler.rs:154-170 | the whole new state: the newest request replaces the pending one, or withdraws it when it asks for what is active or, with nothing in flight, applied |
| `Resize.ResizeCoordinator.TakeReady` | src/rdp/server/display_handler.rs:172-198 | the whole new state and the geometry to issue: none during a commit, behind the guard or without a newer request; a newer request supersedes the one in flight |
| `Resize.ResizeCoordinator.MarkCommandSucceeded` | src/rdp/server/display_handler.rs:200-208 | a deadline is set exactly for an unsuperseded request in flight |
| `Resize.ResizeCoordinator.MarkFailed` | src/rdp/server/display_handler.rs:210-224 | the request in flight is put back, behind the retry delay, unless a newer one waits |
| `Resize.ResizeCoordinator.ExpireRealization` | src/rdp/server/display_handler.rs:226-237 | fails the request in flight exactly when its deadline has passed |
| `Resize.ResizeCoordinator.BeginCommit` | src/rdp/server/display_handler.rs:239-271 | freezes exactly the geometry that is in flight, confirmed, within its deadline and not superseded |
| `Resize.ResizeCoordinator.MarkCommitFailed` | src/rdp/server/display_handler.rs:273-284 | the geometry being committed is put back, behind the retry delay, unless a newer one waits |
| `Resize.ResizeCoordinator.MarkApplied` | src/rdp/server/display_handler.rs:286-294 | the geometry being committed becomes the applied one and the reactivation guard starts |
| `ResizeRuns.RunConsistent` | src/rdp/server/display_handler.rs:110-294 | after every sequence of calls: never both in flight and committing, a deadline only with something in flight, pending differs from both, and neither equals what is applied |
| `ResizeRuns.OnlyRequestsMoveTheTarget` | src/rdp/server/display_handler.rs:172-294 | no call but a request changes "pending, else committing, else in flight, else applied" |
| `ResizeRuns.RequestWritesTheTarget` | src/rdp/server/display_handler.rs:154-170 | a request sets the target if and only if it is not for the applied size during a commit |
| `ResizeRuns.LastWriteRegister` | src/rdp/server/display_handler.rs:154-294 | over every run the target is the last requested geometry if and only if the newest request was not overlooked in that way |
| `ResizeRuns.OverlookedIsReachable` | src/rdp/server/display_handler.rs:154-271 | five calls after which the last request is overlooked and the target is another geometry |
| `ResizeRuns.ActiveAfterGuard` | src/rdp/server/display_handler.rs:172-196 | whenever something is in flight or being committed, the guard has passed |
| `ResizeRuns.GuardMonotone` | src/rdp/server/display_handler.rs:210-294 | `retry_not_before` never moves backwards over a run with a nondecreasing clock |
| `ResizeRuns.ChangesAreSpaced` | src/rdp/server/display_handler.rs:273-294 | two changes of the applied geometry are at least two seconds apart |
| `ResizeRuns.ReactivationRate` | src/rdp/server/display_handler.rs:273-294 | a window of length L sees at most L / 2 s + 1 applied changes |
| `ResizeRuns.ActiveOrigin` | src/rdp/server/display_handler.rs:172-271 | which earlier calls issued, confirmed and froze the active transaction, with nothing else issued since, and that its deadline is two seconds after the confirmation |
| `ResizeRuns.AppliedOnlyWhenRealized` | src/rdp/server/display_handler.rs:172-294 | an applied geometry was issued, confirmed, and frozen within its deadline with nothing pending, and nothing else was issued in between |
| `ResizeRuns.RetryIsDelayed` | src/rdp/server/display_handler.rs:210-284 | over every clocked run: after a failed command, an expired deadline or a failed publication that puts a geometry back, it waits again and nothing at all is issued for 250 ms |
| `ResizeRuns.RetryComes` | src/rdp/server/display_handler.rs:172-198 | and no longer: taken 250 ms later, it is issued |
| `ResizeRuns.NextComes` | src/rdp/server/display_handler.rs:172-198 | a request that waited while another size was applied is issued when it is taken two seconds after that |
| `ResizeRuns.AppliedIsGuarded` | src/rdp/server/display_handler.rs:286-294 | after a change of the applied size nothing is issued for two seconds |
| `ResizeRuns.ExpiresExactly` | src/rdp/server/display_handler.rs:226-237 | a request in flight is given up if and only if two seconds have passed since the call that confirmed its command; it then waits again, and otherwise nothing changes |
| `DisplayPipeline.Pipeline.Others` | src/rdp/server/display_handler.rs:3117-3246 | what client layout requests and channel reactivations do at one place of the loop |
| `DisplayPipeline.Pipeline.IssueResize` | src/rdp/server/display_handler.rs:1573-1634 | the display after expiring, taking and issuing, with requests arriving during the command |
| `DisplayPipeline.Pipeline.RunCommand` | src/rdp/server/display_handler.rs:1590-1634 | the compositor mode and the coordinator after a mode command that succeeded or failed, with requests arriving meanwhile |
| `DisplayPipeline.Pipeline.PublishResize` | src/rdp/server/display_handler.rs:1732-1811 | the display after reserving a slot, writing the size, sending the Resize and telling the coordinator, or after aborting |
| `DisplayPipeline.Pipeline.CommitRealized` | src/rdp/server/display_handler.rs:1702-1811 | a captured frame commits exactly the geometry it realizes |
| `DisplayPipeline.Pipeline.DrawFrame` | src/rdp/server/display_handler.rs:2012-3005 | only a frame of the desktop size is drawn; each bitmap is queued or dropped, a reset Resize goes to the channel it was taken from |
| `DisplayPipeline.Pipeline.RunLoop` | src/rdp/server/display_handler.rs:1528-3005 | any number of turns compute the value-level loop that the theorems are about |
| `DisplayRuns.LoopIsCoordinatorRun` | src/rdp/server/display_handler.rs:1573-1811 | every run of the loop is a clocked run of the coordinator, so all of `ResizeRuns` holds of it |
| `DisplayRuns.SizeIsApplied` | src/rdp/server/display_handler.rs:1528-1811 | at every loop head the desktop size, the applied geometry and the newest Resize queued agree, and no commit is half done |
| `DisplayRuns.TurnSettles` | src/rdp/server/display_handler.rs:1702-1811 | a turn changes the applied geometry only to that of the frame it captured, with a reserved slot |
| `DisplayRuns.CommitAlignedExactly` | src/rdp/server/display_handler.rs:1732-1811 | after a commit the current reader knows the desktop size if and only if the channel was not replaced inside the unsafe window |
| `DisplayRuns.BitmapsMatchAnnouncedSize` | src/rdp/server/display_handler.rs:757-768 | over every run that keeps to the safe window, each bitmap queued has the geometry of its generation's latest preceding Resize, or of its opening size |
| `DisplayRuns.DrawQueues` | src/rdp/server/display_handler.rs:2012-3005 | a frame of another size queues nothing; one of the desktop size queues first the Resize of a core reset, on the channel of before it, then one bitmap on the current channel for every rectangle with room |
| `DisplayRuns.TriesExactly` | src/rdp/server/display_handler.rs:1685-1732 | a captured frame makes the loop try a commit if and only if a confirmed request is in flight with nothing newer waiting, in time, and of the size of the frame, where no extent counts as one pixel |
| `DisplayConvergence.QuietTurn` | src/rdp/server/display_handler.rs:1573-1811 | what an undisturbed turn does to the coordinator and the compositor mode |
| `DisplayConvergence.Converges` | src/rdp/server/display_handler.rs:1573-1811 | from every loop head but the stuck one: if requests stop, commands succeed, slots are granted and each confirmed size is shown before its deadline, however many turns later, a run with a turn past the guard and a retry delay past its beginning ends at rest with the target applied |
| `DisplayConvergence.OneCommand` | src/rdp/server/display_handler.rs:1573-1634 | such a run issues at most one mode command |
| `DisplayConvergence.ConvergesAfterAnyRun` | src/rdp/server/display_handler.rs:1573-1811 | the same from every state that any disturbed run of the loop reaches; what is applied in the end is the last requested size if and only if that request was not overlooked |
| `DisplayConvergence.StuckForever` | src/rdp/server/display_handler.rs:154-206 | from the stuck state no run of turns applies the target as long as nothing else is requested |
| `DisplayConvergence.OtherRequestUnsticks` | src/rdp/server/display_handler.rs:154-170 | a request for any other geometry leaves it |
| `DisplayConvergence.StuckIsReachable` | src/rdp/server/display_handler.rs:154-208 | the five calls that lead there |
| `DisplayConvergence.LoopGetsStuck` | src/rdp/server/display_handler.rs:1573-1634 | the one turn that leads there |
| `DisplayConvergence.ModeIsConfirmed` | src/rdp/server/display_handler.rs:1573-1811 | at every loop head of every run, whatever disturbs it, a confirmed command is the compositor's mode |
| `DisplayConvergence.ModeExactly` | src/rdp/server/display_handler.rs:186-196 | at every loop head of every run, disturbed or not, the compositor shows the applied size if and only if it has not strayed: no command was issued since that size was applied, or the newest one failed and left it in place |
| `DisplayConvergence.TurnMode` | src/rdp/server/display_handler.rs:1573-1811 | one turn, however disturbed: the mode is what its command left, if it issued one, and a newly applied size is the mode |
| `DisplayConvergence.ModeAtRest` | src/rdp/server/display_handler.rs:186-196 | when an undisturbed turn brings any run to rest, the compositor shows the applied size if and only if, before it, another size was still to be applied or the mode had not been changed |
| `DisplayConvergence.ModeLeftBehind` | src/rdp/server/display_handler.rs:186-196 | two turns after which the loop rests and the compositor shows another size, through a pending request |
| `DisplayConvergence.ModeLeftBehindByRequest` | src/rdp/server/display_handler.rs:161-164 | two turns that do so without one |
| `DisplayConvergence.UnsafeSwapMisleads` | src/rdp/server/display_handler.rs:1732-1811 | outside the safe window a bitmap reaches a reader that was never told its size |
| `DisplayConvergence.UnsafeSwapIsReachable` | src/rdp/server/display_handler.rs:1732-1811 | one turn from the initial state after which that has happened |
| `Admission.SelectOnce` | src/rdp/server/production.rs:222-253 | one biased select on the loop's local variables takes the first branch that is ready, in source order |
| `Admission.RunWithConnectionTimeouts` | src/rdp/server/production.rs:178-256 | the select loop on its local variables computes the run that the theorems are about; what is due in it fires, and nothing else does (`SessionTimeoutFires` to `DueWithinThree`) |
| `Admission.RunSound` | src/rdp/server/production.rs:126-256 | in every schedule the loop's knowledge agrees with the admission flags, and a deferred cancellation exists only inside admission |
| `Admission.NeverCutInsideAdmission` | src/rdp/server/production.rs:178-256 | when the connection is given up or returned, the binder has run completely or not at all; a pre-authentication timeout means not at all |
| `Admission.FirstDeferredIsReported` | src/rdp/server/production.rs:191-254 | the first deferred cancellation is the one reported, unless the connection completes |
| `Admission.CompletionWins` | src/rdp/server/production.rs:198-228 | over every schedule the connection's own result is returned if and only if some pass that the loop came to found it ready, whatever cancellation was due |
| `Admission.DeferredIsDelivered` | src/rdp/server/production.rs:194-209 | the pass after the binder finishes ends a connection with a deferred cancellation |
| `Admission.TimeoutsAreDue` | src/rdp/server/production.rs:155-176 | a timeout is reported or deferred only after its own deadline |
| `Admission.SessionTimeoutFires` | src/rdp/server/production.rs:155-254 | over every schedule with an admitted client: a pass reached with nothing deferred, that finds the connection neither ready nor just starting nor reported invalid, at `entered + session` or later, ends it with a session timeout, or defers that inside the binder |
| `Admission.EarlyTimeoutFires` | src/rdp/server/production.rs:155-176 | before admission the same holds for the earlier of that instant and `entered` + 30 s, each with its own phase, the session time winning a tie |
| `Admission.InvalidFires` | src/rdp/server/production.rs:230-237 | if any pass so far reported the session invalid, such a pass gives the connection up as invalid, before any timeout |
| `Admission.NothingDueKeepsRunning` | src/rdp/server/production.rs:178-256 | with neither due, such a pass leaves the connection running and nothing deferred |
| `Admission.ReportsRemembered` | src/rdp/server/production.rs:211-237 | over every schedule an invalidation is held until it is acted on, and a connection is given up as invalid only after one |
| `Admission.DueWithinThree` | src/rdp/server/production.rs:211-254 | notifications, stale or not, put off what is due by at most two passes |
| `Admission.PollExactly` | src/rdp/server/production.rs:178-210 | a polled connection is ready only outside its binder; admission begins once and ends with the last binder step |
| `AcceptLoop.BinderStaysLocal` | src/rdp/server/production.rs:853-1018 | partway through the binder only this user's session can be marked as having a client; the user's slot is filled only while it is, and the connection's slot only with it |
| `AcceptLoop.CompletedBinder` | src/rdp/server/production.rs:853-1018 | what each way the binder can end leaves in the slots, the latch, the sessions, the registries and the call log: in particular a session that was started for a client that was not bound is gone, unless shutting its resources down failed, and one that existed before is kept |
| `AcceptLoop.ProductionServer.Release` | src/rdp/server/production.rs:549-571 | the common cleanup: exit exactly on a latched or new shutdown failure, else the slots are emptied and the bound user's session is unmarked once |
| `AcceptLoop.ProductionServer.Serve` | src/rdp/server/production.rs:471-572 | one accepted connection, however it ends: the exact verdict, and back at accept empty slots, no marked session, exactly the sessions that ought to exist and exactly the recorded calls |
| `AcceptLoop.ProductionServer.Run` | src/rdp/server/production.rs:471-572 | over every run: it goes on exactly while connections return to accept, and the first that does not gives the verdict; the log is that of the finished connections in order, each bind followed by exactly its unbind before the next accept; at most one session is ever marked, and none at accept |
| `ClientPresence.BinderAgrees` | src/rdp/server/production.rs:853-1018 | at every step of every binder the sessions that the loop counts as having a client are those whose registry shows one, and it shows one |
| `ClientPresence.OneClient` | src/rdp/server/production.rs:853-1018 | so no registry but this user's shows a client meanwhile |
| `ClientPresence.StayLeavesNobody` | src/rdp/server/production.rs:642-745 | however a connection ends that returns to accept, no registry shows a client afterwards |
| `ClientPresence.StayExactly` | src/rdp/server/production.rs:683-745 | what a connection that returned to accept leaves: a refused one or one that never reached the binder changes nothing; a served one leaves its session idle since the release; any other leaves a session that existed before idle since a moment of the visit, with a deadline one idle timeout later, and none that it started; nobody else's registry is touched |
| `ClientPresence.NobodyAtAccept` | src/rdp/server/production.rs:471-572 | over every run, whenever the loop is back at accept, no user's registry shows a client |
| `InputQueue.InputChannel.BeginEnqueue` | src/rdp/server/input_handler.rs:602-606 | an event is ignored once the connection has failed, else held |
| `InputQueue.InputChannel.FinishEnqueue` | src/rdp/server/input_handler.rs:608-631 | whatever the worker did in between, the held event is accepted, dropped or fails the connection, exactly as the queue and the event demand |
| `InputQueue.InputChannel.Interleave` | src/rdp/server/input_handler.rs:506-631 | any interleaving of callbacks, worker steps and shutdown computes the run that the theorems are about |
| `InputQueue.InputChannel.ReceiveNext` | src/rdp/server/input_handler.rs:511-517 | the worker takes the oldest event, or stops on the terminal flag |
| `InputQueue.InputChannel.Handle` | src/rdp/server/input_handler.rs:518-573 | both counters after one injection, and when it fails the connection |
| `InputQueue.InputChannel.Worker` | src/rdp/server/input_handler.rs:506-579 | the loop over any outcomes computes the value-level worker |
| `InputRuns.RunInOrder` | src/rdp/server/input_handler.rs:506-631 | in every interleaving the accepted events are those injected, in hand and queued, in order, within capacity |
| `InputRuns.NothingEssentialIsLost` | src/rdp/server/input_handler.rs:292-331 | until shutdown or the terminal flag no key release, synchronize or button release is missing, and each accepted event is delivered exactly once in submission order |
| `InputRuns.LossIsNeverSilent` | src/rdp/server/input_handler.rs:292-331 | at any time, what was injected is a prefix of what was accepted, and a key release, synchronize or button release is missing only if the connection was failed |
| `InputRuns.DroppableExactly` | src/rdp/server/input_handler.rs:292-306 | under pressure everything may be dropped but key releases, synchronizes and button releases |
| `InputRuns.SendExactly` | src/rdp/server/input_handler.rs:608-631 | in every interleaving: a held event is accepted if and only if the worker runs and fewer than 4096 events wait; in a full queue it is dropped if it may be, without failing the connection, and otherwise fails it; a stopped worker fails it for any event |
| `InputRuns.SubmitExactly` | src/rdp/server/input_handler.rs:602-606 | a submitted event is ignored if and only if the connection has been failed |
| `InputRuns.NothingAfterTerminal` | src/rdp/server/input_handler.rs:511-517 | an event received after the connection was failed is not injected, and the worker stops |
| `InputRuns.ShutdownStops` | src/rdp/server/input_handler.rs:576-578 | a shutdown stops a worker that waits, and not one at work |
| `InputRuns.StoppedForGood` | src/rdp/server/input_handler.rs:506-579 | whatever happens after the worker stopped, nothing more is injected or accepted |
| `InputRuns.RunCounts` | src/rdp/server/input_handler.rs:541-575 | the counters are the failures of each kind since the last success, below the threshold while the worker runs |
| `InputRuns.TerminalAtThreshold` | src/rdp/server/input_handler.rs:333-335 | an injection fails the connection if and only if it is the 32nd failure of its kind with no success between |
| `InputRuns.SixtyThreeFailuresStop` | src/rdp/server/input_handler.rs:541-575 | any 63 failures in a row stop the worker |
| `InputRuns.SixtyTwoCanPass` | src/rdp/server/input_handler.rs:541-575 | for up to 62 there is a run in which that many injections fail in a row and the worker goes on |
| `InputReport.RunSound` | src/rdp/server/input_handler.rs:342-365 | in every interleaving of any number of threads the single claim is delivered or held by exactly one thread, and is made before a failing and an attaching call have both returned |
| `InputReport.NothingReportedForNothing` | src/rdp/server/input_handler.rs:342-365 | in every interleaving a failure is reported only with the flag and the reporter in place, each put there by a call of its kind |
| `InputReport.ReportedExactlyOnce` | src/rdp/server/input_handler.rs:342-365 | at most one event is sent; after a failing and an attaching call have returned it has been sent if and only if nobody holds it |
| `InputReport.ReportedOnceByTwo` | src/rdp/server/input_handler.rs:626-654 | with one failing and one attaching thread exactly one event has then been sent |
| `InputReport.ThirdThreadCanHoldTheEvent` | src/rdp/server/input_handler.rs:563-569 | a schedule with three threads after which it has not been sent yet |
| `FrameRate.FrameRateRegulator.constructor` | src/rdp/server/display_handler.rs:632-641 | one token to start with |
| `FrameRate.FrameRateRegulator.ShouldSendFrame` | src/rdp/server/display_handler.rs:643-664 | the new bucket and the decision |
| `FrameRate.BudgetInRange` | src/rdp/server/display_handler.rs:643-664 | the budget stays within [0, 2], and at most 1 after a call |
| `FrameRate.RateBound` | src/rdp/server/display_handler.rs:616-664 | between any two calls at most 2 + fps * (tj - ti) frames are admitted, whatever the bucket held |
| `FrameRate.NothingSpills` | src/rdp/server/display_handler.rs:643-664 | for a source at least as fast as the target the bucket accounts for every frame exactly |
| `FrameRate.RateReached` | src/rdp/server/display_handler.rs:616-664 | such a source is let through at the target rate, less one frame |
| `FrameRate.FramesToTheDot` | src/rdp/server/display_handler.rs:632-664 | exactly the target rate: after every call a fresh regulator has admitted 1 + floor(fps * (tj - t0)) frames of such a source |
| `Frames.GatedFits` | src/rdp/server/display_handler.rs:785-798 | a frame whose size the policy accepts, with less than 4 GiB of data, is compacted with 32-bit offsets |
| `Frames.CopyFrameWithTransform` | src/rdp/server/display_handler.rs:868-922 | the result is tight and holds each source pixel at its flipped or rotated place; a frame without pixels or with too little data is returned as it is |
| `Frames.TransformedPixel` | src/rdp/server/display_handler.rs:868-922 | byte for byte: pixel (x, y) of a flipped frame is source pixel (x, h - 1 - y), of one turned (w - 1 - x, h - 1 - y), each at its packed offset; the result is tight and without damage |
| `Frames.NotTransformed` | src/rdp/server/display_handler.rs:868-885 | a frame without pixels, or whose data ends before its last row does, is returned as it is |
| `Frames.CompactFrame` | src/rdp/server/display_handler.rs:995-1031 | the exact result with the source's 32-bit offsets: the frame itself if it is tight or too short, a panic if the packed picture has 4 GiB or more, else its rows, from offsets that wrap around |
| `Frames.CompactsToGrid` | src/rdp/server/display_handler.rs:995-1031 | where every offset fits, that is the frame without its stride padding, every pixel in its place and nothing else changed |
| `Frames.CompactedPixel` | src/rdp/server/display_handler.rs:995-1031 | each pixel of a compacted frame is the source pixel at its stride offset |
| `Frames.TwiceIsCompact` | src/rdp/server/display_handler.rs:868-1031 | flip twice and rotate twice give the packed picture, and equal the compacted frame if and only if the stated condition holds |
| `Frames.TightFrameKeepsDamage` | src/rdp/server/display_handler.rs:999-1001 | a tight frame with a damage region, for which they differ |
| `Frames.PaddingFits` | src/rdp/server/display_handler.rs:924-963 | for every accepted geometry and aligned sizes at most 15 larger, no offset overflows 32 bits |
| `Frames.PadFrameToAligned` | src/rdp/server/display_handler.rs:924-963 | the padded picture is the clamp-to-edge one |
| `Frames.PaddedPixel` | src/rdp/server/display_handler.rs:924-963 | pixel (x, y) of it lies at its packed offset and is source pixel (min(x, w - 1), min(y, h - 1)) |
| `IniText.StripIniComment` | src/sesman/state.rs:612-628 | the scanning loop cuts at the first comment mark outside quotes that begins the line or follows white space |
| `IniText.StripExactly` | src/sesman/state.rs:612-628 | what is kept of any line ends right before its first `#` or `;` that is outside quotes and at the beginning or after white space, and no such mark is kept |
| `IniText.ScalarLine` | src/sesman/state.rs:683-694 | on a line of its own a printed scalar is read back if and only if, when it gets quotes, it has no double quote and, when it does not, it does not look quoted |
| `IniText.PaddedLine` | src/sesman/state.rs:404-420 | white space around the key, the value and the line does not matter |
| `IniText.PrintedBareExactly` | src/sesman/state.rs:683-694 | a scalar is printed as it is if and only if it is not empty and has neither white space, a comma, `#` nor `;` in it |
| `IniLists.ParseIniList` | src/sesman/state.rs:650-662 | the collecting loop reads the list that the theorems are about |
| `IniLists.BracketsOptional` | src/sesman/state.rs:650-662 | a list is read the same with and without its brackets |
| `IniLists.ListOnLine` | src/sesman/state.rs:672-681 | on a line of its own any list is read back if and only if no item has a comma, each would survive alone, and no comment mark in it is taken for a comment |
| `IniLists.QuoteFreeLists` | src/sesman/state.rs:672-681 | the last two hold of every list free of quote marks |
| `IniFile.ScalarRoundTrip` | src/sesman/state.rs:404-420 | whatever follows in the file, a printed scalar comes back as its first entry if and only if it also has no line break |
| `IniFile.ListRoundTrip` | src/sesman/state.rs:404-420 | whatever follows in the file, any list comes back if and only if it also has no line break |
| `IniFile.QuoteFreeListRoundTrip` | src/sesman/state.rs:650-681 | a list free of quote marks, with empty strings, blanks and comment marks allowed, comes back if and only if no item has a comma or a line break |
| `IniFile.RawRoundTrip` | src/sesman/state.rs:538-552 | whatever follows in the file, a value printed without quotes comes back if and only if it has no line break, no comment mark after white space outside quotes, no white space at its ends and no quotes around it |
| `IniFile.FileRoundTrip` | src/sesman/state.rs:538-610 | a whole file of headings, scalars, plain values, lists and blank lines is read back line for line and nothing else if and only if every item meets its condition |
| `SesmanModel.ServedExactly` | src/sesman/mod.rs:506-528 | a session can be served if and only if its registry belongs to this configuration, knows no foreign component, every required component is recorded with its command, authenticated and ready, and no recorded optional one is dead or at least one component is alive |
| `SesmanModel.ServedMeans` | src/sesman/mod.rs:179-213 | what is then known of every required component: a record of its name and command, a live process that is no zombie and agrees with every identity field on record, or was started within 5 s, and an accepting socket if it is to have one |
| `SesmanModel.LegacyNeverSignalled` | src/sesman/process.rs:79-102 | a record that misses an identity field is never signalled, and one without a command never matches |
| `ProcessLife.AuthenticExactly` | src/sesman/process.rs:79-134 | the record made of a spawned leader authenticates it for signalling if and only if that instance is alive, across exits, PID reuse and reboots |
| `ProcessLife.SinglePidSignal` | src/sesman/process.rs:225-238 | however long after the last check it is sent, a single-PID signal reaches the recorded instance, unless that pid was freed or passed on in between |
| `ProcessLife.LineageKept` | src/sesman/process.rs:225-227 | a process group that is not emptied between two instants stays the same group |
| `ProcessLife.GroupSignal` | src/sesman/process.rs:225-238 | every process a group signal reaches belongs to the group of the leader authenticated earlier in the call, if that group was not emptied and its id reissued in between |
| `Launch.SettleIdentity` | src/desktop/compositor/launch.rs:137-179 | succeeds at exactly the first poll at which the living child is seen under the user's id and its start time has been read then or before, and returns that child's whole identity |
| `SessionSpec.SuccessionIsExclusive` | src/sesman/mod.rs:82-151 | if no leader is started beside a living one of its name, each component has at most one live leader ever after |
| `SessionSpec.LeaderGone` | src/sesman/mod.rs:418-498 | a recorded leader is dead once its target has been seen stopped |
| `SessionSpec.BatchCovered` | src/sesman/mod.rs:117-145 | after a startup the registry covers every live leader, or, if the newest could not be written, does so if and only if that one is dead |
| `SessionSpec.StartupUndone` | src/sesman/mod.rs:132-145 | a failed startup that was cleaned up leaves no live leader of this or any earlier call |
| `SessionSpec.BatchCutSafe` | src/sesman/mod.rs:117-130 | wherever startup is cut, the registry lists what was started, except possibly the newest, as a prefix of the configured order |
| `SessionSpec.SignalsReach` | src/sesman/mod.rs:418-482 | over any sequence of justified signals, each is for a record with all its identity fields and reaches the recorded instance or the authenticated leader's group |
| `SessionSpec.TermBeforeKill` | src/sesman/mod.rs:450-482 | in every stop each kill was checked after the wait for the terminations was over, which lasted until all targets were seen dead or for all its polls; and an earlier termination was sent for the same record before that wait, unless its target was seen dead then |
| `SessionSpec.TermBeforeKillOfGroup` | src/sesman/mod.rs:450-482 | for a group that was never empty until then the termination always comes first |
| `SessionSpec.SignalsOnlyOwn` | src/sesman/mod.rs:418-434 | a stop signals anything only for a registry of this version, session, user, runtime directory, boot, uid and gid |
| `SessionSpec.RetiredIsEmpty` | src/sesman/mod.rs:435-448 | a retired group was seen with no process left in it, not even a zombie |
| `SessionSpec.ReadyKept` | src/sesman/mod.rs:631-675 | components that have become ready stay on record as such while others are added |
| `IdlePolicy.PresenceSettled` | src/sesman/mod.rs:257-355 | every change of presence keeps: clients mean no idle period on record, a deadline is the last disconnect plus the timeout, and nobody was bound after that disconnect |
| `IdlePolicy.ObservedSettled` | src/sesman/mod.rs:257-408 | so does the passing of time |
| `IdlePolicy.OverdueIsIdle` | src/sesman/mod.rs:361-408 | an overdue session had no bound client for the whole idle timeout |
| `IdlePolicy.OverdueExactly` | src/sesman/mod.rs:361-408 | overdue if and only if nobody is connected and the recorded deadline, or without one the last disconnect plus an idle timeout in use, has passed |
| `IdlePolicy.LeavesCount` | src/sesman/mod.rs:292-307 | any number of disconnects: one client fewer each, and with the last, and any after it, the idle period begins anew |
| `IdlePolicy.ConnectsCount` | src/sesman/mod.rs:530-547 | any number of connects: one client more each, up to 2^32 - 1, and no idle period on record |
| `IdlePolicy.RestartsKeepThePeriod` | src/sesman/mod.rs:325-352 | a restart leaves nobody connected and does not move an idle period on record; a second restart changes nothing |
| `SessionManager.Leave` | src/sesman/mod.rs:292-307 | one client fewer, never below none; the last one starts the idle period |
| `SessionManager.Reconciliation` | src/sesman/mod.rs:325-352 | nobody counts as connected, an idle period not on record starts now, and `changed` is exactly whether that altered anything |
| `SessionManager.Manager.constructor` | src/sesman/mod.rs:72-75 | an empty registry satisfies all invariants |
| `SessionManager.Manager.ScanComponents` | src/sesman/mod.rs:179-213 | the dead names and the number alive, each component looked at in its own instant |
| `SessionManager.Manager.FindUnknown` | src/sesman/mod.rs:215-226 | the recorded components that the configuration does not know, in recorded order |
| `SessionManager.Manager.ReadStatus` | src/sesman/mod.rs:154-242 | the status of the registry from the instant it was read, or a failed read; nothing changes |
| `SessionManager.Manager.WriteState` | src/sesman/mod.rs:740-770 | the registry is replaced or kept |
| `SessionManager.Manager.WritePresence` | src/sesman/mod.rs:257-307 | new client bookkeeping keeps the leader and idle invariants |
| `SessionManager.Manager.Authorize` | src/sesman/mod.rs:418-434 | a target may be signalled if and only if the state belongs to this configuration, its leader is authenticated with every field present, and a group is its own leader's |
| `SessionManager.Manager.SignalOne` | src/sesman/mod.rs:450-460 | an authorized target is sent the signal or was seen dead; it fails if and only if the signal could not be sent and the target was alive right after |
| `SessionManager.Manager.SignalPass` | src/sesman/mod.rs:450-482 | one pass from the last component to the first: every authorized target is sent this one kind of signal, each checked in this pass and justified, or was seen dead; it fails if and only if a signal could not be sent to a target alive right after |
| `SessionManager.Manager.AllStopped` | src/sesman/mod.rs:442-448 | each authorized target was seen dead, or one was seen alive |
| `SessionManager.Manager.WaitStopped` | src/sesman/mod.rs:463-466 | the wait ends with every target seen dead, or after as many looks as time allows, at each of which a target was seen alive |
| `SessionManager.Manager.TerminateAndWait` | src/sesman/mod.rs:450-466 | the terminations, from the last component to the first, and then the wait |
| `SessionManager.Manager.TerminateThenKill` | src/sesman/mod.rs:450-489 | the terminations, from the last component to the first; the wait; then the kills in the same order, each for a target that was sent a termination or was seen dead before the wait; and unless a signal could not be sent to a living target, every authorized target is sent both, or was seen dead in the pass that passed it over |
| `SessionManager.Manager.StopTargets` | src/sesman/mod.rs:418-498 | in that order, and only for what the registry authorizes; succeeds only with every authorized target seen dead, every listed leader dead and no signal failed; fails only with an authorized target alive |
| `SessionManager.Manager.StopState` | src/sesman/mod.rs:418-504 | the same, and on success the runtime paths and then the registry are removed, and on failure the registry is kept |
| `SessionManager.KilledUnterminated` | src/sesman/mod.rs:450-482 | a timeline in which a group is seen dead when the terminations are sent, is there again when the kills are, and is killed |
| `SessionManager.Manager.StopLocked` | src/sesman/mod.rs:410-416 | on success neither a registry nor a live leader is left, and all targets were retired; invariants kept either way |
| `SessionManager.Manager.StopSession` | src/sesman/mod.rs:244-249 | a report means that the registry is gone and its targets were retired; no report means a fault or a surviving target |
| `SessionManager.Manager.BindSingleClient` | src/sesman/mod.rs:257-272 | one client is recorded, and any idle period cleared, only for a session that can be served; otherwise nothing changes; no report means a fault or that it could not be served |
| `SessionManager.Manager.UnbindSingleClient` | src/sesman/mod.rs:276-289 | no client, and the idle period starts at an instant of this call |
| `SessionManager.Manager.DisconnectClient` | src/sesman/mod.rs:292-307 | one client fewer; the last one starts the idle period |
| `SessionManager.Manager.CleanupIdleLocked` | src/sesman/mod.rs:361-385 | unless the registry cannot be read, a stop is attempted if and only if the session is overdue without clients, and then retires every target or meets a fault or a survivor; otherwise nothing is touched |
| `SessionManager.Manager.CleanupIdle` | src/sesman/mod.rs:311-314 | the same under the lock |
| `SessionManager.Manager.ReconcileAfterDaemonRestart` | src/sesman/mod.rs:325-355 | a report without a session means there was none or it was overdue as reconciled; with one, it has no clients, a disconnect time and, if idle recovery is on, a deadline that has not passed |
| `SessionManager.Manager.ForgetClients` | src/sesman/mod.rs:325-352 | its first part: the registry is reconciled at an instant of this call, or nothing changed and there was a fault |
| `SessionManager.Manager.SpawnComponent` | src/sesman/mod.rs:611-629 | a recorded leader is the process that was spawned, seen alive under the user's id, in a fully hardened record; nothing is recorded only if no process came or it never settled while it lived and its polls lasted |
| `SessionManager.Manager.WaitUntilReady` | src/sesman/mod.rs:631-675 | it fails if and only if the component is required and was not ready at the last look; then, and for an optional one, it was never seen ready and had exited or run out of polls |
| `SessionManager.Manager.StartComponents` | src/sesman/mod.rs:120-130 | the startup loop: what was started, what is on record, which step failed and why, and that every cut on the way was safe |
| `SessionManager.Manager.CleanUpStartup` | src/sesman/mod.rs:132-145 | a failed startup is undone from the state in memory, with what remains covered; it is not undone only after a fault or with a target of this startup still alive |
| `SessionManager.Manager.Examine` | src/sesman/mod.rs:86-114 | a session that can be served is kept unless a restart is forced; any other is retired before a new one may start |
| `SessionManager.Manager.EnsureSession` | src/sesman/mod.rs:82-151 | what each outcome means: reuse only of a session that can be served, a new one only if that one could not or a restart was forced, and then only after everything on record was retired, with required components seen ready; refusal only after failed I/O or, for a session not to be kept, a surviving target; a startup fails only at a failed write, a failed spawn or a required component that stayed unready, and is not cleaned up only after a fault or with a survivor; the leaders stay covered, or, if a failed write meets a failed cleanup, are covered if and only if the newest leader is dead |
| `SessionManager.OrphanCanLive` | src/sesman/mod.rs:117-145 | a timeline in which the two meet and the newest leader lives on without a registry |
| `SessionManager.Manager.Run` | src/sesman/mod.rs:82-416 | over every run of calls, with the windows of its `ensure` calls in order and explained: every leader was started in one of them, after everything on record had been retired in it; if none saw a reboot and none orphaned a leader, each component has at most one live leader and there is none without a registry; every signal reaches its recorded instance or group, and from an empty registry all are group signals; all cuts are safe; no session stopped for idleness had a bound client within the idle timeout |
| `SessionManager.Manager.WhileConnected` | src/sesman/mod.rs:311-385 | while a client is bound, any number of cleanup timers change nothing and signal nothing |
| `SessionManager.Manager.ServeConnection` | src/sesman/mod.rs:257-385 | bind, serve and unbind: the session could be served, is never stopped or signalled meanwhile, and afterwards its idle period has begun unless the unbind met a fault |

## Left out

- EGFX, encoder choice, hardware fallback, audio, clipboard, TLS, PAM, PipeWire and Wayland: foreign code or input/output.
- `graphics_tx` and the queue behind it: only the update channel is modelled.
- Directory preparation, path cleanup and file locking are single steps that succeed or fail.
- A look at a process is one snapshot of one instant: `process_matches` and a settle poll read several `/proc` files, and boot id and `/proc` count as readable except while an identity settles.
- Pid 1, for which `kill(-1)` is a broadcast, is assumed never to be recorded, and `kill` with signal 0 is assumed permitted.
- `terminate_and_reap` is assumed to leave an unsettled child dead, so such a child never counts as a leader.
- Wait loops are counted in polls; how long a poll takes is not modelled.
- A crash of the manager inside a call is covered by the cut marks of startup only; `Run` assumes that calls end. A sender does not outlive its boot.
- Client metadata, requested sizes, `updated_at` and log paths in the registry are not modelled.
- Idle timeouts of 2^63 milliseconds and more, clock regressions and mutex poisoning are assumed away; moments of a bound client are those between calls.
- `ProductionServer.Run` assumes that the registry calls it counts succeed, and one admission per connection.
- `InputReport` assumes sequentially consistent atomics.
- The frame rate is computed over reals: rounding of f32 is not modelled.
- A checked build of `compact_frame` panics where its 32-bit offsets wrap around; the unchecked arithmetic of the release profile is modelled.
- PadFrameToAligned: requires the data to hold the whole source picture; with less the source panics on a slice.
- Interpreting a configuration file after it has been read as lines: key and section case, numbers, unknown keys and the order of components.
- The resolution list of the geometry policy is a set of sizes already parsed.
