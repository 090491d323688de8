# Thinker-Qt core, modelled in Dafny

Thinker-Qt runs "thinkers" on worker threads. A thinker is a snapshottable object that computes in the background. A manager thread can pause it, resume it, cancel or abort it, and wait for it to finish. Readers take copy-on-write snapshots of the thinker's data. Watchers hear of progress through a throttled signal.

The heart of the library is a pair of state machines: `ThinkerRunner` and its older twin `ThinkerThread`. A worker thread and the manager thread drive each of them, and every step happens under one mutex. This project models those machines and the objects around them:

- the `hopefully` assertion helpers;
- snapshottable data;
- the signal throttler;
- the thinker base class;
- the `ThinkerPresent` handle and its watcher;
- the manager's bookkeeping of thinkers and their threads.

It proves what the code promises about them. The modules, one per file:

| file | module | models |
|---|---|---|
| common.dfy | `Common` | small value types shared by the rest |
| hoist.dfy | `Hoist` | `hopefully`, `tracked<T>` and its checks; a failed check is the `Fatal` outcome of `Checked<T>` |
| runner.dfy | `ThinkerRunner` | the runner's eight states, worker steps, coordinator requests and waits, queries, and the transition system |
| thread.dfy | `ThinkerThread` | the thread twin; its steps are proved to be the runner's under a renaming of the states |
| snapshottable.dfy | `Snapshottable` | the write lock flag, snapshot pointers, and runs of lock, write, unlock and snapshot |
| throttler.dfy | `SignalThrottler` | `emitThrottled`, `onTimeout` and `postpone`, and the documented promise over every run |
| thinker.dfy | `ThinkerBase` | the thinker's thread checks, its lock, its queries through the runner, and its `done` wrappers |
| present.dfy | `ThinkerPresent` | the handle: equality, `cancel`, `waitForFinished`, and the holder's deleter |
| watcher.dfy | `PresentWatcher` | watcher registration in each thinker's watcher set |
| manager.dfy | `ThinkerManager` | attaching thinkers to threads, pausing and resuming all of them, and the finish, abort and teardown paths |

## How the model reads the code

A critical section under `signalMutex` is one atomic step on the state. A `QWaitCondition::wait` inside a coordinator call is modelled by a `WaitPlan`:

- `Proceed` means the call goes on at once.
- `Block(accept)` means it blocks until the worker moves the state, and then checks that the new state is in `accept`.

A `hopefully` check on the state at the start of a coordinator call is an assertion about its caller. In the runner and thread modules it becomes the call's precondition: a `requires`, or a `...Pre` predicate for the larger checks. The modules that make those calls (`ThinkerPresent`, `ThinkerManager`) test the same predicate with `Hopefully`, so there a failed check is `Fatal`.

In the transition systems, a request that would wait in `Initializing`, or that would fail a `hopefully` check, is not enabled. In the API-level modules, a failed check is `Fatal`, and a blocking precondition becomes a `requires`.

Threads, thinkers and watchers are plain identifiers, so pointer identity is identifier equality. The manager's lookup of the runner for a thinker is a parameter (`Option<State>`). So are `maybeAddToRunnerMap` (the `added` flag) and, in the API-level modules, the current thread. The worker-side thread checks of the runner and thread modules hold by construction, and each is listed under "## Left out".

The throttler's `unsigned int` and `int` values are the subset types `Unsigned` and `Int32`. The substitute's `cast_hopefully` checks nothing, so the casts between them are total and wrap modulo 2^32, as on a two's-complement target.

Several behaviours of the code are not what the tables and comments say. The model states each difference as a lemma:

- `markFinished` accepts `Pausing`, so a runner can move from `Pausing` to `Finished` (src/thinkerrunner.cpp:82-97).
- A runner whose registration fails moves from `Initializing` straight to `Canceled` (src/thinkerrunner.cpp:180-181).
- Neither move is in the table next to the `State` enum (src/thinkerrunner.h:60-69). `ThinkerRunner.UndocumentedMovesHappen` shows both.
- `requestCancelButAlreadyCanceledIsOkay` on a `Canceling` runner falls into the branch that expects `Thinking` (src/thinkerrunner.cpp:349-365). The intended transition check rejects it, so the transition system does not enable it. The substitute check as written lets it through and breaks the event loop again (`ThinkerRunner.WrittenChecksLetBadRequestsThrough`).
- The runner calls `start()` directly (src/thinkerrunner.cpp:207), not through `startMaybeEmitDone`. Nothing else emits `done`, so `markFinished` never runs on its own. A normal return then reaches the loop step in `Thinking`, and the written step parks the runner in `Paused` (see Findings).
- A cancel or abort that lands between `markFinished` and the loop step leaves the runner `Canceled` or the thread `Aborted`. The written step then parks it in `Paused` as well (see Findings).
- `firstRun` is never cleared (src/thinkerrunner.cpp:194-210). Every pass of the loop calls `start()` again, so `exec()` never runs and the queued `resumeThinking` is never delivered (see Findings).

The worker steps and the transition systems use the intended checks. The written ones are separate members named `...AsWritten`.

Some documented behaviour differs from the code too:

- A default `ThinkerPresent` is documented as canceled. The code's `isCanceled` answers false for every handle (src/thinkerpresent.cpp:77-99), and `ThinkerPresent.Ask` follows the code.
- The watcher constructor that takes a handle does not add the watcher to the thinker's set (src/thinkerpresentwatcher.cpp:32-40). Destroying such a watcher is therefore fatal unless something else registers it.

`ThinkerManager` uses the thinker states `Aborted` and `DoneThinking` (src/thinkermanager.cpp:164, 180, 220-222). Those are not the names of the `ThinkerBase::State` enum, so the manager's thinker state is its own `ObjectState` type.

## Model

| member | source | states |
|---|---|---|
| Hoist.Hopefully | include/thinkerqt/hoistsubstitute.h:70-77 | the check passes exactly when the condition holds, and then returns true |
| Hoist.Assign | include/thinkerqt/hoistsubstitute.h:93-96 | the tracked value becomes the new value, whatever it was |
| Hoist.Ensure | include/thinkerqt/hoistsubstitute.h:97-101 | afterwards the value is the new one, and an equal value is left untouched |
| Hoist.EnsureIdempotent | include/thinkerqt/hoistsubstitute.h:97-101 | ensuring the same value twice is the same as once |
| Hoist.HopefullyAlter | include/thinkerqt/hoistsubstitute.h:102-107 | passes exactly when the new value differs from the current one, and stores it |
| Hoist.HopefullyTransition | include/thinkerqt/hoistsubstitute.h:108-113 | as written, passes exactly when old differs from new, and stores new |
| Hoist.TransitionIgnoresCurrent | include/thinkerqt/hoistsubstitute.h:108-113 | the written check gives the same outcome for any two current values |
| Hoist.TransitionAcceptsStaleValue | include/thinkerqt/hoistsubstitute.h:108-113 | a value of 2 passes the "0 to 1" transition and becomes 1 |
| Hoist.IntendedTransition | include/thinkerqt/hoistsubstitute.h:108-113 | the check the callers rely on: passes exactly when current equals old and old differs from new |
| Hoist.IntendedRefinesWritten | include/thinkerqt/hoistsubstitute.h:108-113 | where the intended check passes, the written one passes with the same result; a wrong current value is accepted only by the written one |
| Hoist.HopefullyEqualTo | include/thinkerqt/hoistsubstitute.h:116-119 | passes exactly when the value equals the good value |
| Hoist.HopefullyNotEqualTo | include/thinkerqt/hoistsubstitute.h:128-131 | passes exactly when the value differs from the bad value |
| Hoist.HopefullyInSet | include/thinkerqt/hoistsubstitute.h:120-127 | passes exactly when the value is one of the good values |
| Hoist.HopefullyNotInSet | include/thinkerqt/hoistsubstitute.h:132-139 | passes exactly when the value is none of the bad values |
| Hoist.InSetComplementsNotInSet | include/thinkerqt/hoistsubstitute.h:120-139 | for the same set, exactly one of the in-set and not-in-set checks passes |
| ThinkerRunner.RegisterStep | src/thinkerrunner.cpp:180-189 | a refused registration exits the run loop settled (canceled); an accepted one starts thinking and goes on |
| ThinkerRunner.MarkFinished | src/thinkerrunner.cpp:82-97 | a pending cancel wins and nothing changes; otherwise the runner becomes finished and the loop is told to quit |
| ThinkerRunner.LoopStep | src/thinkerrunner.cpp:222-246 | with the intended check, on a finished, canceling, canceled or pausing runner: the loop exits exactly unless the runner was pausing; it exits settled, finished exactly when it was finished; a pausing runner parks in Paused |
| ThinkerRunner.LoopStepAsWritten | src/thinkerrunner.cpp:226-246 | as written, on every state: agrees with the intended step wherever that applies, except on a canceled runner; every other state, canceled and thinking included, parks in Paused |
| ThinkerRunner.StartReturnedAsWritten | src/thinkerrunner.cpp:204-246 | as written the result of `start()` is dropped: a finished state is never reached, and the worker leaves only a canceling runner |
| ThinkerRunner.StartReturned | include/thinkerqt/thinkerbase.h:139-145 | with `start()` routed through `startMaybeEmitDone`: a completed start finishes the runner unless it is canceling; an uncompleted one is fatal exactly when nothing was requested |
| ThinkerRunner.NormalReturnParksAsWritten | src/thinkerrunner.cpp:204-246 | as written, a normal return with nothing requested moves Thinking to Paused, a move the table forbids, and a finish wait rejects the result |
| ThinkerRunner.NormalReturnFinishes | include/thinkerqt/thinkerbase.h:139-145 | through the wrapper, the same return finishes the runner, which the finish wait accepts and `finished` reports as not canceled |
| ThinkerRunner.CancelAfterFinishParksAsWritten | src/thinkerrunner.cpp:349-351 | as written, a runner canceled after `markFinished` moves from the terminal Canceled to Paused at the loop step |
| ThinkerRunner.CancelAfterFinishExits | src/thinkerrunner.cpp:222-236 | with the intended step, mark-finished, cancel, loop step is a run that ends Canceled, with `finished` reporting the cancel |
| ThinkerRunner.EveryPassCallsStartAsWritten | src/thinkerrunner.cpp:194-210 | as written, every pass of the loop calls `start()` and none runs the event loop |
| ThinkerRunner.LaterPassesRunEventLoop | src/thinkerrunner.cpp:194-210 | with the flag cleared after the first pass, every later pass runs the event loop |
| ThinkerRunner.AbleToContinueAsWritten | src/thinkerrunner.cpp:196-214 | with exceptions compiled in, the flag is false however the thinker returned |
| ThinkerRunner.AbleToContinue | src/thinkerrunner.cpp:196-214 | the flag as its comment means it: false exactly when a StopException was caught with exceptions on |
| ThinkerRunner.AfterWake | src/thinkerrunner.cpp:249-260 | the woken worker exits exactly when canceled, and otherwise thinks again |
| ThinkerRunner.FinishedSignal | src/thinkerrunner.cpp:279-285 | the `canceled` argument of `finished` is true exactly when the runner did not finish |
| ThinkerRunner.DestructorCheck | src/thinkerrunner.cpp:518-525 | the destructor passes exactly off the manager's thread on a canceled or finished runner |
| ThinkerRunner.ResumeFatalAsWritten | src/thinkerrunner.cpp:196-258 | with the flag as written and exceptions on, no resumed worker can continue |
| ThinkerRunner.ResumeEnabledUnlessStopped | src/thinkerrunner.cpp:249-260 | with the intended flag, a resumed worker continues exactly when it did not leave through a StopException |
| ThinkerRunner.RequestPauseCore | src/thinkerrunner.cpp:294-316 | breaks the event loop exactly for a thinking runner, which starts pausing; any other accepted state is unchanged |
| ThinkerRunner.RequestCancelCore | src/thinkerrunner.cpp:338-367 | breaks the event loop exactly for a thinking runner, which starts canceling; every other accepted state ends canceled |
| ThinkerRunner.RequestResumeCore | src/thinkerrunner.cpp:381-398 | emits `resumeThinking` exactly for a paused runner, which starts resuming; finished or canceled runners are unchanged |
| ThinkerRunner.WaitForPauseCore | src/thinkerrunner.cpp:318-336 | returns at once exactly in Finished, Paused or Canceled; a pausing runner must end Paused or Finished; a canceling one must end Canceled |
| ThinkerRunner.PauseWaitEnablesResume | src/thinkerrunner.cpp:381-398 | every state the pause wait lets through is accepted by the resume critical section with the same flag |
| ThinkerRunner.WaitForCancel | src/thinkerrunner.cpp:369-379 | returns at once exactly when canceled, and otherwise must end canceled |
| ThinkerRunner.WaitForResume | src/thinkerrunner.cpp:400-413 | returns at once unless resuming; then it accepts only Resuming, Thinking or Finished |
| ThinkerRunner.RequestFinishAndWaitForFinish | src/thinkerrunner.cpp:415-430 | returns at once exactly when finished; a thinking runner must end finished |
| ThinkerRunner.WaitsAcceptOnlySuccessors | src/thinkerrunner.h:60-69 | every state a coordinator wait accepts is one move away from the waited-on state |
| ThinkerRunner.IsFinishedAsWritten | src/thinkerrunner.cpp:432-457 | fatal exactly while canceling; otherwise the answer is "finished" |
| ThinkerRunner.IsFinishedFailsWhileCanceling | src/thinkerrunner.cpp:432-457 | `isFinished` on a canceling runner is fatal, where the intended answer is false |
| ThinkerRunner.QueriesPartition | src/thinkerrunner.cpp:432-481 | finished, canceled and paused pick disjoint groups of states, and only the running states are reported by none |
| ThinkerRunner.WasPauseRequested | src/thinkerrunner.cpp:483-508 | true at once for a pending pause or cancel; with no time false for a thinking runner; with a time, true exactly when a request woke it |
| ThinkerRunner.PollForStopException | src/thinkerrunner.cpp:510-516 | raises exactly when `wasPauseRequested` answers true |
| ThinkerRunner.OkayWrappersTolerateCanceled | src/thinkerrunner.h:99-127 | on a canceled runner exactly the "...IsOkay" wrappers are accepted; on other settled or paused states both kinds agree |
| ThinkerRunner.RequestPauseAsWritten | src/thinkerrunner.cpp:294-316 | with the substitute transition check, any state the guards do not catch becomes Pausing |
| ThinkerRunner.RequestCancelAsWritten | src/thinkerrunner.cpp:338-367 | with the substitute check, any state the guards do not catch becomes Canceling and the loop is broken |
| ThinkerRunner.WrittenChecksLetBadRequestsThrough | src/thinkerrunner.cpp:294-367 | as written, a paused runner asked to pause goes back to Pausing, and a canceling runner gets a second break |
| ThinkerRunner.StepFollowsTable | src/thinkerrunner.h:60-69 | every step stays put, follows the documented table, or is one of the two undocumented moves |
| ThinkerRunner.Witness | src/thinkerrunner.h:60-69 | every documented or undocumented move is made by some enabled action |
| ThinkerRunner.UndocumentedMovesHappen | src/thinkerrunner.cpp:82-97 | Pausing to Finished and Initializing to Canceled both happen, and neither is in the table |
| ThinkerRunner.CanceledIsTerminal | src/thinkerrunner.h:66 | no enabled action leaves Canceled |
| ThinkerRunner.FinishedOnlyBecomesCanceled | src/thinkerrunner.h:68 | from Finished the only move is to Canceled |
| ThinkerRunner.NarrowStates | src/thinkerrunner.h:61-67 | what each single-successor state can really move to |
| ThinkerRunner.DescendantsIsClosure | src/thinkerrunner.h:60-69 | the reachable-state sets are reflexive and closed under every move |
| ThinkerRunner.StepStaysWithinDescendants | src/thinkerrunner.h:60-69 | a step never reaches a state outside the start state's reachable set |
| ThinkerRunner.TraceStaysWithinDescendants | src/thinkerrunner.h:60-69 | no run leaves the start state's reachable set |
| ThinkerRunner.TerminalStatesAbsorb | src/thinkerrunner.h:60-69 | along any run, canceled stays canceled, finished becomes at most canceled, and a started runner never initializes again |
| ThinkerRunner.ExitsAreSettled | src/thinkerrunner.cpp:276-285 | whenever the run loop exits the runner is settled, the destructor check passes, and `finished` reports the cancel correctly |
| ThinkerThread.StartStep | src/thinkerthread.cpp:155-158 | starting moves Initializing to a documented successor |
| ThinkerThread.MarkFinished | src/thinkerthread.cpp:85-101 | a pending abort wins; otherwise the thread becomes finished and the loop quits |
| ThinkerThread.LoopStep | src/thinkerthread.cpp:191-212 | with the intended check, on a finished, aborting, aborted or pausing thread: exits exactly unless pausing, settled, finished exactly when it was; a pausing thread parks in Paused |
| ThinkerThread.LoopStepAsWritten | src/thinkerthread.cpp:195-212 | as written, on every state: agrees with the intended step except on an aborted thread; every other state parks in Paused |
| ThinkerThread.AbortAfterFinishParksAsWritten | src/thinkerthread.cpp:300-302 | as written, a thread aborted after `markFinished` moves from the terminal Aborted to Paused at the loop step |
| ThinkerThread.AbortAfterFinishExits | src/thinkerthread.cpp:191-205 | with the intended step, mark-finished, okay abort, loop step is a run that ends Aborted, which the abort wait accepts at once |
| ThinkerThread.AfterWake | src/thinkerthread.cpp:218-229 | exits exactly when aborted, and otherwise thinks again |
| ThinkerThread.ContinueFatalAsWritten | src/thinkerthread.cpp:166-225 | with the flag as written and exceptions on, no continued thread can go on |
| ThinkerThread.DestructorCheck | src/thinkerthread.cpp:475-482 | passes exactly on the manager's thread for an aborted or finished thread |
| ThinkerThread.RequestPauseCore | src/thinkerthread.cpp:240-264 | breaks the loop exactly for a thinking thread, which starts pausing; other accepted states are unchanged |
| ThinkerThread.RequestAbortCore | src/thinkerthread.cpp:288-319 | breaks the loop exactly for a thinking thread, which starts aborting; every other accepted state ends aborted |
| ThinkerThread.RequestResumeCore | src/thinkerthread.cpp:334-353 | emits `continueThinking` exactly for a paused thread, which starts continuing |
| ThinkerThread.WaitForPauseCore | src/thinkerthread.cpp:266-286 | returns at once in Finished, Paused or Aborted; otherwise it accepts only the states the pausing or aborting thread moves to |
| ThinkerThread.PauseWaitEnablesResume | src/thinkerthread.cpp:334-353 | every state the pause wait lets through is accepted by the resume critical section |
| ThinkerThread.WaitForAbort | src/thinkerthread.cpp:321-332 | returns at once exactly when aborted, and otherwise must end aborted |
| ThinkerThread.WaitForResume | src/thinkerthread.cpp:355-369 | returns at once unless continuing; then it accepts Continuing, Thinking or Finished |
| ThinkerThread.RequestFinishAndWaitForFinish | src/thinkerthread.cpp:371-387 | returns at once exactly when finished; a thinking thread must end finished |
| ThinkerThread.IsCompleteAsWritten | src/thinkerthread.cpp:389-414 | fatal exactly while aborting; otherwise the answer is "finished" |
| ThinkerThread.IsCompleteFailsWhileAborting | src/thinkerthread.cpp:389-414 | `isComplete` on an aborting thread is fatal, where the intended answer is false |
| ThinkerThread.QueriesNarrowerThanRunner | src/thinkerthread.cpp:389-438 | `isComplete` agrees with the runner's `isFinished`; `isAborted` and `isPaused` imply the runner's answers, and differ from them exactly on Aborting and on Pausing |
| ThinkerThread.IsPauseRequested | src/thinkerthread.cpp:440-465 | true at once for a pending pause or abort; with no time false while thinking; with a time, true exactly when a request woke it |
| ThinkerThread.PollForStopException | src/thinkerthread.cpp:467-473 | raises exactly when `isPauseRequested` answers true |
| ThinkerThread.OkayWrappersTolerateAborted | src/thinkerthread.h:124-152 | on an aborted thread exactly the "...IsOkay" wrappers are accepted |
| ThinkerThread.RenameInjective | src/thinkerthread.h:58-67 | the renaming to runner states is one-to-one |
| ThinkerThread.Correspondence | src/thinkerthread.cpp:140-414 | each thread action is enabled exactly when its runner action is, does the same move, and the tables agree |
| ThinkerThread.TracesCorrespond | src/thinkerthread.cpp:140-414 | every run of the thread is a run of the runner, ending in the renamed state |
| ThinkerThread.AbortedAbsorbs | src/thinkerthread.h:64 | once aborted, every run stays aborted |
| Snapshottable.NewBase | src/snapshottable.cpp:26-30 | a new object is not locked for write |
| Snapshottable.LockForWrite | src/snapshottable.cpp:32-36 | with the intended check: passes exactly when unlocked, and locks |
| Snapshottable.Unlock | src/snapshottable.cpp:38-42 | with the intended check: passes exactly when locked, and unlocks |
| Snapshottable.LockForWriteAsWritten | src/snapshottable.cpp:32-36 | as written the lock always succeeds and leaves the flag set |
| Snapshottable.DoubleLockPassesWrittenCheck | src/snapshottable.cpp:32-36 | locking an already locked object passes the written check and fails the intended one |
| Snapshottable.UnlockAsWritten | src/snapshottable.cpp:38-42 | as written the unlock always succeeds and leaves the flag clear; on a locked object it agrees with the intended unlock |
| Snapshottable.DoubleUnlockPassesWrittenCheck | src/snapshottable.cpp:38-42 | unlocking an object that is not locked passes the written check and fails the intended one |
| Snapshottable.LockThenUnlockRestores | src/snapshottable.cpp:32-42 | lock then unlock, or unlock then lock, gives back the flag it started from |
| Snapshottable.DefaultPointer | include/thinkerqt/snapshottable.h:182-185 | a default snapshot pointer is null |
| Snapshottable.Clear | include/thinkerqt/snapshottable.h:222-225 | clearing gives the null pointer |
| Snapshottable.Data | include/thinkerqt/snapshottable.h:211-215 | `data()` succeeds exactly on a non-null pointer and gives what it points at |
| Snapshottable.CopyPointer | include/thinkerqt/snapshottable.h:187-190 | a copy gives the same data as the original |
| Snapshottable.AssignPointer | include/thinkerqt/snapshottable.h:192-198 | self-assignment changes nothing, and afterwards the data is the other pointer's |
| Snapshottable.NewStore | include/thinkerqt/snapshottable.h:252-285 | a new object is unlocked and holds the initial data |
| Snapshottable.CreateSnapshot | include/thinkerqt/snapshottable.h:292-298 | a snapshot's data is the object's data at the time it was taken |
| Snapshottable.Write | include/thinkerqt/snapshottable.h:322-326 | a write passes exactly when the object is locked for write, and replaces the data |
| Snapshottable.StepKeepsGood | include/thinkerqt/snapshottable.h:292-326 | every operation keeps every snapshot on a committed value and never changes earlier snapshots |
| Snapshottable.SnapshotsSeeCommittedData | include/thinkerqt/snapshottable.h:292-326 | along any run, no snapshot ever sees a half-written value, and earlier snapshots stay unchanged |
| Snapshottable.WriteCycleLeavesOldSnapshot | include/thinkerqt/snapshottable.h:292-326 | a snapshot taken before a lock-write-unlock cycle keeps the old value, and one taken after sees the new value |
| SignalThrottler.ToInt | include/thinkerqt/hoistsubstitute.h:155-159 | the unchecked cast to `int`: negative exactly above INT_MAX, and unchanged below it |
| SignalThrottler.ToUnsigned | src/signalthrottler.cpp:47-50 | the conversion of the stored `int` back to `unsigned`: unchanged when not negative |
| SignalThrottler.CastsRoundTrip | src/signalthrottler.cpp:24-50 | storing an unsigned in the `int` and reading it back gives the same unsigned, and the other way round |
| SignalThrottler.NewThrottler | src/signalthrottler.cpp:24-30 | accepts every unsigned default, with nothing emitted or scheduled; a call without a time gets the default back; it is stored negative exactly above INT_MAX |
| SignalThrottler.SetMillisecondsDefault | src/signalthrottler.cpp:32-38 | accepts every unsigned; a call without a time then uses it; it is stored negative exactly above INT_MAX; nothing else changes |
| SignalThrottler.EmitThrottled | src/signalthrottler.cpp:52-82 | emits now exactly when never emitted or due within the overhead; otherwise the emit is scheduled no later than the due time and never later than an earlier one |
| SignalThrottler.DefaultCallUsesSetDefault | src/signalthrottler.cpp:32-50 | after setting the default to any unsigned ms, a call without a time acts as a call with ms |
| SignalThrottler.OnTimeout | src/signalthrottler.cpp:40-45 | a firing emits now and leaves nothing scheduled |
| SignalThrottler.Postpone | src/signalthrottler.cpp:84-92 | reports exactly whether an emit was pending, and leaves none |
| SignalThrottler.SecondPostponeFindsNothing | src/signalthrottler.cpp:84-92 | a second postpone finds nothing pending and changes nothing |
| SignalThrottler.ShortThrottleOverridesLong | include/thinkerqt/signalthrottler.h:39-44 | a long then a short throttle, in either order, leaves one emit at the earlier due time |
| SignalThrottler.StepKeepsInv | include/thinkerqt/signalthrottler.h:34-37 | every event keeps each promised emit covered by a scheduled one |
| SignalThrottler.PromiseKept | include/thinkerqt/signalthrottler.h:34-37 | along any run, a signal is scheduled no later than the time every caller was promised one |
| ThinkerBase.Ordinal | include/thinkerqt/thinkerbase.h:64-68 | each state has a number below 3 |
| ThinkerBase.FromOrdinal | include/thinkerqt/thinkerbase.h:64-68 | only 0, 1 and 2 name a state |
| ThinkerBase.OrdinalsRoundTrip | include/thinkerqt/thinkerbase.h:64-68 | number and state convert back and forth without loss |
| ThinkerBase.NewThinker | src/thinker.cpp:30-44 | construction succeeds exactly on the manager's thread, owned by the runner, with affinity to that thread and unlocked |
| ThinkerBase.HopefullyCurrentThreadIsThink | include/thinkerqt/thinkerbase.h:99-106 | passes exactly on the thinker's own thread |
| ThinkerBase.LockForWrite | src/thinker.cpp:59-64 | passes exactly on the thinker's thread when unlocked, and locks |
| ThinkerBase.Unlock | src/thinker.cpp:66-73 | passes exactly on the thinker's thread when locked; the manager is told before the lock is released |
| ThinkerBase.LockUnlockCycle | src/thinker.cpp:59-73 | on its own thread a lock-unlock cycle gives back the same thinker; off it both are fatal |
| ThinkerBase.WasPauseRequested | src/thinker.cpp:76-83 | needs the thinker's thread and a registered runner, and returns the runner's answer |
| ThinkerBase.PollForStopException | src/thinker.cpp:85-93 | fails exactly when `wasPauseRequested` fails, and otherwise raises exactly when it answers true |
| ThinkerBase.DefaultThreadHook | src/thinker.cpp:51-57 | the default `afterThreadAttach` and `beforeThreadDetach` hooks change nothing |
| ThinkerBase.DestructorCheck | src/thinker.cpp:105-109 | passes exactly on the manager's thread with no runner registered |
| ThinkerBase.StartMaybeEmitDone | include/thinkerqt/thinkerbase.h:139-145 | returns what `start` returned, and emits `done` exactly when it was true |
| ThinkerBase.ResumeMaybeEmitDone | include/thinkerqt/thinkerbase.h:147-153 | fails with `resume`, and otherwise emits `done` exactly when `resume` was true |
| ThinkerBase.StartThroughWrapperFinishes | include/thinkerqt/thinkerbase.h:139-145 | through the wrapper `done` is emitted exactly when `start()` completed, and the corrected runner step then finishes; as written it parks |
| ThinkerBase.OnResumeThinking | src/thinker.cpp:96-103 | passes exactly on the thinker's thread with a runner registered and a `resume()` that does not fail; it returns what `resume()` returned and never emits `done` |
| ThinkerBase.ResumeSlotSkipsDone | src/thinker.cpp:96-103 | where the slot succeeds, the wrapper would agree on the result and differ on `done` exactly when `resume()` completed |
| ThinkerBase.DefaultResume | include/thinkerqt/thinkerbase.h:157-166 | the default `resume` is always fatal |
| ThinkerBase.DefaultResumeNeverCompletes | include/thinkerqt/thinkerbase.h:147-166 | a thinker with the default `resume` can never be resumed through the wrapper |
| ThinkerPresent.DefaultPresent | src/thinkerpresent.cpp:30-33 | a default handle holds nothing |
| ThinkerPresent.PresentFor | src/thinkerpresent.cpp:40-43 | the manager's handle holds the given holder |
| ThinkerPresent.CopyPresent | src/thinkerpresent.cpp:35-38 | a copy is equal to the original |
| ThinkerPresent.Equal | src/thinkerpresent.cpp:50-53 | handles are equal exactly when they share a holder |
| ThinkerPresent.NotEqual | src/thinkerpresent.cpp:45-48 | handles differ exactly when their holders differ |
| ThinkerPresent.EqualityIsHolderIdentity | src/thinkerpresent.cpp:45-53 | `!=` is the complement of `==`, `==` is an equivalence, and two default handles are equal |
| ThinkerPresent.Assign | src/thinkerpresent.cpp:55-60 | self-assignment changes nothing, and afterwards the handle equals the other |
| ThinkerPresent.GetThinkerBase | src/thinkerpresent.cpp:62-75 | succeeds exactly for a non-null holder on the manager's thread, giving its thinker |
| ThinkerPresent.Ask | src/thinkerpresent.cpp:77-99 | every query of the handle answers false |
| ThinkerPresent.Cancel | src/thinkerpresent.cpp:101-130 | a no-op on an empty handle; otherwise the detach hook runs first, then the runner gets an okay cancel, or with no runner the thinker becomes canceled |
| ThinkerPresent.CancelLeadsToCanceled | src/thinkerpresent.cpp:101-130 | after a cancel the thinker or its runner is canceled or canceling; a second cancel is fatal under the intended check only while the runner is still canceling, and as written it breaks the event loop again |
| ThinkerPresent.WaitForFinished | src/thinkerpresent.cpp:152-168 | succeeds exactly for a held thinker on the manager's thread whose runner is absent, canceling, canceled, thinking or finished |
| ThinkerPresent.WaitForFinishedEndsSettled | src/thinkerpresent.cpp:152-168 | when the wait returns, the runner is canceled or finished |
| ThinkerPresent.DoDeleteLater | include/thinkerqt/thinkerpresent.h:81-87 | deletes inline exactly on the thinker's own thread, and otherwise posts to that thread |
| ThinkerPresent.ConvertHolder | include/thinkerqt/thinkerpresent.h:59-62 | the converted holder shares the same thinker |
| ThinkerPresent.GetThinker | include/thinkerqt/thinkerpresent.h:73-76 | gives the thinker the holder points at |
| ThinkerPresent.HolderThinkerBase | include/thinkerqt/thinkerpresent.h:64-71 | gives the same object as `getThinker` |
| ThinkerPresent.DropPresent | include/thinkerqt/thinkerpresent.h:45-50 | dropping a handle leaves the thinker as it was, and runs the deleter exactly when the last one goes |
| ThinkerPresent.DroppingAllDoesNotCancel | src/thinkerpresent.cpp:178-183 | dropping the handles one by one: every drop before the last leaves the holder referenced and deletes nothing; the last leaves no reference and deletes once; no drop changes the thinker or its runner |
| PresentWatcher.NewWatcher | src/thinkerpresentwatcher.cpp:25-30 | an empty handle, 200 ms, no throttler, and registered wherever it is listed nowhere |
| PresentWatcher.NewWatcherFor | src/thinkerpresentwatcher.cpp:32-40 | needs the handle's thinker on the manager's thread, gets a fresh 200 ms throttler, and keeps the handle |
| PresentWatcher.SetPresentBase | src/thinkerpresentwatcher.cpp:42-64 | an equal handle changes nothing; an empty one drops the throttler; a new one, on the manager's thread, needs the watcher absent from the new set, gives it a new throttler with its time whatever that is, and adds it to that set only |
| PresentWatcher.RemoveFromThinkerWatchers | src/thinkerpresentwatcher.cpp:79-89 | a no-op on an empty handle; otherwise the watcher must be in its thinker's set, is removed from it only, and is left with an empty handle |
| PresentWatcher.Destroy | src/thinkerpresentwatcher.cpp:91-94 | destruction succeeds and changes the sets exactly as the removal does |
| PresentWatcher.SetThrottleTime | src/thinkerpresentwatcher.cpp:71-77 | any unsigned time is stored and never fails; it becomes the throttler's default when there is one, with nothing scheduled changed |
| PresentWatcher.SetThrottleTimeLastWins | src/thinkerpresentwatcher.cpp:71-77 | for every pair of times: afterwards the throttler's default equals the watcher's time, and of two calls only the last counts |
| PresentWatcher.SetPresentBaseDetaching | src/thinkerpresentwatcher.cpp:42-64 | an equal handle changes nothing; otherwise the watcher ends on the new handle |
| PresentWatcher.DetachingKeepsRegistration | src/thinkerpresentwatcher.cpp:42-89 | with the corrected version a registered watcher, with any throttle time, stays registered in exactly one set, whatever handle it gets on the manager's thread |
| PresentWatcher.RegisteredWatcherDestroysCleanly | src/thinkerpresentwatcher.cpp:79-94 | a registered watcher can be destroyed, and then no set names it |
| PresentWatcher.RetargetLeavesStaleEntry | src/thinkerpresentwatcher.cpp:42-64 | as written, retargeting leaves the watcher in both sets, destroying it leaves a stale entry, and moving it back is fatal |
| ThinkerManager.HopefullyThreadIsManager | include/thinkerqt/thinkermanager.h:116-119 | passes exactly on the manager's thread |
| ThinkerManager.MaybeCastToThinkerThread | src/thinkermanager.cpp:136-141 | gives the thread exactly when it is a thinker thread |
| ThinkerManager.HopefullyThreadIsThinker | include/thinkerqt/thinkermanager.h:124-127 | passes exactly for a thinker thread |
| ThinkerManager.MaybeGetThreadForThinker | src/thinkermanager.cpp:143-150 | gives the mapped thread, and that thread knows the thinker |
| ThinkerManager.GetThinkerForThread | src/thinkermanager.cpp:152-158 | a non-null thread gives back the thinker it runs |
| ThinkerManager.LookupsAgree | src/thinkermanager.cpp:136-158 | thread-for-thinker and thinker-for-thread are inverse |
| ThinkerManager.MakeRunner | include/thinkerqt/thinkermanager.h:159-180 | succeeds exactly on the manager's thread for a never-attached thinker that lives there; the thinker is attached, mapped to a new Initializing thread and moved to it, and other mappings are unchanged |
| ThinkerManager.AttachOnce | include/thinkerqt/thinkermanager.h:159-180 | a second attach of the same thinker is fatal |
| ThinkerManager.Ascending | src/thinkermanager.cpp:101-110 | the map's keys in iteration order: each key exactly once, strictly ascending |
| ThinkerManager.Pass | src/thinkermanager.cpp:106-110 | a pass succeeds exactly when every thread accepts the call, and makes it on each in order |
| ThinkerManager.ThreadsCoverAll | src/thinkermanager.cpp:101-110 | a pass in key order checks exactly the mapped threads |
| ThinkerManager.PassesInSequence | src/thinkermanager.cpp:106-119 | every call of the first pass comes before every call of the second |
| ThinkerManager.EnsureThinkersPaused | src/thinkermanager.cpp:97-120 | succeeds exactly on the manager's thread when every thread accepts an okay pause; all requests in key order, then all waits |
| ThinkerManager.PauseWaitsSucceed | src/thinkermanager.cpp:112-119 | after the requests, every wait is accepted and ends with the thread paused, finished or aborted |
| ThinkerManager.EnsureThinkersResumed | src/thinkermanager.cpp:122-134 | succeeds exactly on the manager's thread when every thread accepts an okay resume; one request each, in key order |
| ThinkerManager.PausedThreadsAcceptResume | src/thinkermanager.cpp:97-134 | threads left by the pause pass all accept the resume pass |
| ThinkerManager.RequestAndWaitForAbortOkay | src/thinkermanager.cpp:160-174 | succeeds exactly when there is no thread, or the call is on the manager's thread and the thread accepts an okay abort; the thinker and its thread end aborted and nothing else changes |
| ThinkerManager.EnsureThinkerFinished | src/thinkermanager.cpp:176-205 | succeeds exactly on the manager's thread for a thinker not aborted whose thread is done, absent, or not aborted and ready to be resumed; then resume, resume wait and finish wait |
| ThinkerManager.FinishCallsChain | src/thinkermanager.cpp:186-193 | each call of the finish sequence is accepted in every state the previous one can leave |
| ThinkerManager.OnThreadFinished | src/thinkermanager.cpp:212-227 | succeeds exactly on the manager's thread for a settled thinker thread; the thinker becomes aborted or done, and the thread is scheduled for deletion |
| ThinkerManager.FinishedThreadIsHandled | src/thinkermanager.cpp:212-227 | a thread whose run loop has exited is always handled without a fatal check |
| ThinkerManager.RunnerBaseDestroyed | src/thinkermanager.cpp:50-74 | the detach hook runs; then exactly when a thread is mapped it gets an okay abort request, which must come from the manager's thread; the attached mark stays |
| ThinkerManager.DetachThenAbortSettles | src/thinkermanager.cpp:50-74 | dropping the runner of a thinking thread leaves it aborting |
| ThinkerManager.ManagerDestroyed | src/thinkermanager.cpp:229-244 | succeeds exactly on the manager's thread when every thread is aborting or aborted, and waits on each in key order |
| ThinkerManager.DestroyedLeavesAllAborted | src/thinkermanager.cpp:229-244 | each of those waits ends with the thread aborted |
| ThinkerManager.AbortedThinkersPassDestruction | src/thinkermanager.cpp:160-174 | a thinker with a thread that went through abort-and-wait did so on the manager's thread, and leaves a thread the manager's destructor accepts |

## Left out

- Concurrency mechanics: mutexes, wait conditions, `wakeOne`, queued signal delivery and the event loop. Each critical section is one step, and a wait is the state it wakes up to.
- Timed waits: `wasPauseRequested(time)` and `isPauseRequested(time)` take how the timed wait ended as a parameter. The clock behind it is not modelled.
- The `QSemaphore` handshake that moves a thinker onto the runner's pool thread and back (src/thinkerrunner.cpp:154-159, 170-178, 270-274). It is thread-affinity bookkeeping with no state change.
- `ThinkerRunnerKeepalive` (src/thinkerrunner.cpp:532-548): a reference-counting helper outside the state machine.
- `QTime` wrap-around at midnight in the throttler. Times are unbounded milliseconds.
- The `unlockThinker`, `maybeAddToRunnerMap`, `removeFromRunnerMap` and `globalInstance` parts of the manager. They are parameters: the manager is told of each unlock, a registration's outcome is the `added` flag, and the runner lookup is an `Option`.
- The `onStartThinking` and `onContinueThinking` slots that the thread's `startThinking` and `continueThinking` signals reach. They belong to `ThinkerObject` in include/thinkerqt/thinker.h, an older interface that is not part of this model.
- `ThinkerPresent` `pause`, `resume`, `setPaused` and `togglePaused` (src/thinkerpresent.cpp:132-150). Their bodies are empty placeholders.
- `createSnapshotBase` on the present and on snapshottable objects (src/thinkerpresent.cpp:170-176). It only forwards to `createSnapshot`, which is modelled.
- `throttleNotificationFrequency` (src/thinkermanager.cpp:207-210). It sets the default of a throttler field the thinker model does not keep.
- Thread priorities, auto-delete checks, and `QObject` parenting of throttlers.
- The write lock around each thinker's watcher set. Each change to a set is one step.
- The mandelbrot example, `include/thinkerqt/thinker.h`, `include/thinkerqt/thinkerpresentwatcher.h` and `include/thinkerqt/thinkerrunner.h`. These are context, and the last is a newer revision of the runner interface that is not part of this model.
- ThinkerRunner.MarkFinished: the `hopefullyCurrentThreadIsRun` check (src/thinkerrunner.cpp:84) is not a separate outcome. Only the worker takes this step (`WorkerMarksFinished`), so the check holds by construction.
- ThinkerRunner.WasPauseRequested: the `hopefullyCurrentThreadIsRun` check (src/thinkerrunner.cpp:485) is not a separate outcome here. `ThinkerBase.WasPauseRequested`, its only caller, checks that the call is on the thinker's thread first.
- ThinkerThread.MarkFinished: the checks that it runs on the thread and that the thread is running (src/thinkerthread.cpp:87-88) are not separate outcomes. Only the worker takes this step, from inside its run loop, so both hold by construction.
- ThinkerThread.RequestResumeCore: the `hopefully(isRunning())` check (src/thinkerthread.cpp:348) is not a separate outcome. That branch is reached only from `Paused`, where the worker is blocked inside its run loop, so the thread is running.
- ThinkerThread.IsPauseRequested: the check that it runs on the thread itself (src/thinkerthread.cpp:442) is not modelled. Only the thinker running on the worker asks, so the check holds by construction.
- ThinkerThread.DestructorCheck: the destructor's `wait()` and `!isRunning()` checks (src/thinkerthread.cpp:478-479) are not separate outcomes. The check is taken on the state after the run loop exits; an untimed `wait()` then returns true and the thread is no longer running.
- SignalThrottler.EmitThrottled: the check that it runs on the throttler's own thread (src/signalthrottler.cpp:55) is not modelled. The model has one caller per throttler, so the check holds by construction; thread affinity of the timer is not part of this model.
- SignalThrottler.EmitThrottled: `ms` is unbounded. The source passes an `unsigned int` to `QTime::addMSecs(int)` (src/signalthrottler.cpp:52-64), so a time above `INT_MAX` becomes negative there; the model does not promise that behaviour.
- ThinkerRunner.StartReturned: the corrected path takes `markFinished` and the loop step back to back. A request that slips in between them is covered by the transition system instead.
- ThinkerManager.EnsureThinkerFinished: the finish sequence is returned as calls. The worker's moves between those calls are stated separately by `FinishCallsChain` rather than run to completion.
- ThinkerManager.EnsureThinkersPaused: the result of the second pass is stated by `PauseWaitsSucceed` on the states the first pass leaves, not threaded through the method.

## Findings

| source | as written | input that shows it | evidently intended | confidence | as-written member | corrected member |
|---|---|---|---|---|---|---|
| src/thinkerrunner.cpp:197-256 | `possiblyAbleToContinue` starts false and is only ever set to false, so with exceptions compiled in `hopefully(possiblyAbleToContinue)` fails on every resume; src/thinkerthread.cpp:166-225 has the same code | exceptions on, a thinker that returned normally from a pause, then `requestResume` | the flag is true unless a `StopException` was caught | not executed | ThinkerRunner.ResumeFatalAsWritten | ThinkerRunner.ResumeEnabledUnlessStopped |
| src/thinkerrunner.cpp:432-457 | the `switch` in `isFinished` has no `RunnerCanceling` case and reaches `hopefullyNotReached`; `isComplete` at src/thinkerthread.cpp:389-414 lacks `Aborting` the same way | `isFinished()` on a runner between `requestCancel` and its loop exit | a canceling runner is not finished: answer false | not executed | ThinkerRunner.IsFinishedFailsWhileCanceling | ThinkerRunner.QueriesPartition |
| include/thinkerqt/hoistsubstitute.h:108-113 | `hopefullyTransition(old, new)` checks only `old != new` and never compares the tracked value with `old` | a value of 2 with the transition 0 to 1; a second `lockForWrite` on a locked object; `requestPause` on a paused runner | the tracked value must equal `old` | not executed | Hoist.TransitionAcceptsStaleValue | Hoist.IntendedRefinesWritten |
| src/thinkerrunner.cpp:204-246 | the runner calls `start()` directly and drops its result; `done` is never emitted, so `markFinished` never runs. A normal return reaches the loop step in `Thinking`, and the never-failing `hopefullyTransition(RunnerPausing, RunnerPaused)` parks the worker in `Paused` | a thinker whose `start()` returns true with nothing requested; `requestFinishAndWaitForFinish` then wakes to `Paused` | call `start()` through `startMaybeEmitDone`, so a completed thinker is marked finished and the loop exits | not executed | ThinkerRunner.NormalReturnParksAsWritten | ThinkerRunner.NormalReturnFinishes |
| src/thinkerthread.cpp:191-212 | the loop step handles `Finished` and `Aborting` only; an abort between `markFinished` and the step (src/thinkerthread.cpp:300-302, as `~ThinkerRunnerBase` makes it) leaves `Aborted`, which the written step moves to `Paused`, parking the worker. The runner has the same window with a cancel (src/thinkerrunner.cpp:349-351) | `markFinished`, then `requestAbortButAlreadyAbortedIsOkay`, then the loop step | a thread aborted or runner canceled after finishing leaves the loop settled, as the comment before the step says | not executed | ThinkerThread.AbortAfterFinishParksAsWritten | ThinkerThread.AbortAfterFinishExits |
| src/thinkerrunner.cpp:194-210 | `firstRun` is set before the loop and never cleared, so every pass calls `start()`; `exec()` is unreachable and the queued `resumeThinking` (src/thinkerrunner.cpp:128, 395) is never delivered to `onResumeThinking` | pause a runner, then resume it: the next pass calls `start()` from the top | clear `firstRun` after the first call | not executed | ThinkerRunner.EveryPassCallsStartAsWritten | ThinkerRunner.LaterPassesRunEventLoop |
| src/thinkerpresentwatcher.cpp:42-64 | `setPresentBase` adds the watcher to the new thinker's set but never removes it from the old one | a watcher registered on thinker a, moved to b, then destroyed or moved back to a | leave the old set first, as `removeFromThinkerWatchers` does | not executed | PresentWatcher.RetargetLeavesStaleEntry | PresentWatcher.DetachingKeepsRegistration |
