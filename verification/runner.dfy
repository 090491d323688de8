/** The state machine of `ThinkerRunner` (src/thinkerrunner.cpp and
    src/thinkerrunner.h).

    Every operation of the runner is one critical section under its
    `signalMutex`, so each is modelled as one atomic step on the runner's
    state. The coordinating (manager) thread drives the requests; the worker
    thread drives registration, `markFinished`, the step after `start()`
    returns, and the step after it wakes up in `Paused`. The loop in `run`
    is written to call `start()` on its first pass and `exec()` after, but
    its `firstRun` flag is never cleared, so every pass calls `start()`
    (see `Routines`). Nothing in this revision emits the thinker's `done`
    signal, so `markFinished` runs only if a thinker emits it itself.

    A `QWaitCondition::wait` inside a request is a point where the call
    blocks until the other thread moves the state; the model takes the state
    the call wakes up to as the state the step starts from. So a request is
    not enabled in `Initializing` (it waits there), and a `hopefully` check
    that fails is a step that is not enabled either. The checks made by
    `tracked::hopefullyTransition(old, new)` are read as "the current state
    is `old`", which is what every call site relies on; the substitute
    helper that only compares `old` with `new` is modelled in the `Hoist`
    module, and `RequestPauseAsWritten` / `RequestCancelAsWritten` show what
    the runner would do with it. */
module ThinkerRunner {
  import opened Common
  import opened Hoist

  datatype State =
    | Initializing
    | Thinking
    | Pausing
    | Paused
    | Canceling
    | Canceled
    | Resuming
    | Finished

  /** The successor table written next to the `State` enum. */
  function DocumentedSuccessors(s: State): set<State> {
    match s
    case Initializing => {Thinking}
    case Thinking => {Pausing, Canceling, Finished}
    case Pausing => {Paused}
    case Paused => {Canceled, Resuming}
    case Canceling => {Canceled}
    case Canceled => {}
    case Resuming => {Thinking}
    case Finished => {Canceled}
  }

  /** The two moves the code makes that the table does not list:
      `markFinished` accepts `Pausing`, and a runner whose registration
      fails goes straight from `Initializing` to `Canceled`. */
  predicate Undocumented(s: State, t: State) {
    || (s == Pausing && t == Finished)
    || (s == Initializing && t == Canceled)
  }

  // ---------------------------------------------------------------------
  // Worker side
  // ---------------------------------------------------------------------

  /** A runner may be destroyed, and `run` may emit `finished`, only in one
      of these two states. */
  predicate Settled(s: State) {
    s == Canceled || s == Finished
  }

  /** The start of `run`: if the manager refuses to add the runner to its
      map, the runner is canceled without ever thinking; otherwise it starts
      thinking. */
  function RegisterStep(s: State, added: bool): (r: WorkerStep<State>)
    requires s == Initializing
    ensures r.cont == Exit <==> !added
    ensures r.cont != Park
    ensures added ==> r.next == Thinking
    ensures r.cont == Exit ==> Settled(r.next)
  {
    if added then WorkerStep(Thinking, Continue) else WorkerStep(Canceled, Exit)
  }

  predicate MarkFinishedPre(s: State) {
    s == Canceling || s == Thinking || s == Pausing
  }

  /** `markFinished`, run when the thinker emits `done`: a pending cancel
      wins and nothing changes; otherwise the runner must be thinking (or
      pausing) and becomes finished, and the event loop is told to quit. */
  function MarkFinished(s: State): (r: Marked<State>)
    requires MarkFinishedPre(s)
    ensures s == Canceling ==> r.next == s && !r.quit
    ensures s != Canceling ==> r.next == Finished && r.quit
  {
    if s == Canceling then Marked(s, false) else Marked(Finished, true)
  }

  /** The states in which the intended loop step gets past its checks. A
      runner canceled after it finished (a cancel can slip in between
      `markFinished` and this step) is one of them: the comment before the
      step says a cancel may overwrite a finish. */
  predicate LoopStepPre(s: State) {
    s == Finished || s == Canceling || s == Canceled || s == Pausing
  }

  /** The critical section after `start()` returns, as intended: a finished
      or canceled runner leaves the loop, a canceling one becomes canceled
      and leaves, and a pausing one becomes paused and waits. */
  function LoopStep(s: State): (r: WorkerStep<State>)
    requires LoopStepPre(s)
    ensures r.cont == Exit <==> s != Pausing
    ensures r.cont == Exit ==> Settled(r.next) && (r.next == Finished <==> s == Finished)
    ensures r.cont == Park ==> r.next == Paused
    ensures r.cont != Continue
  {
    match s
    case Finished => WorkerStep(Finished, Exit)
    case Canceling => WorkerStep(Canceled, Exit)
    case Canceled => WorkerStep(Canceled, Exit)
    case Pausing => WorkerStep(Paused, Park)
  }

  /** The same critical section as written. Its last branch uses the
      substitute `hopefullyTransition(RunnerPausing, RunnerPaused)`, which
      never fails, so every state other than `Finished` and `Canceling`
      ends `Paused` with the worker parked: where the intended step
      applies (other than on a canceled runner) both agree, and everywhere
      else the written step parks. */
  function LoopStepAsWritten(s: State): (r: WorkerStep<State>)
    ensures LoopStepPre(s) && s != Canceled ==> r == LoopStep(s)
    ensures !LoopStepPre(s) || s == Canceled ==> r == WorkerStep(Paused, Park)
  {
    if s == Finished then WorkerStep(Finished, Exit)
    else if s == Canceling then WorkerStep(Canceled, Exit)
    else
      var t := HopefullyTransition(Tracked(s), Pausing, Paused);
      WorkerStep(t.value.value, Park)
  }

  /** The states the runner can be in while `start()` runs on the worker:
      only the worker itself moves a runner out of them. */
  predicate StartReturnedPre(s: State) {
    s == Thinking || s == Pausing || s == Canceling
  }

  /** What the worker does when `start()` returns as written: the result
      is dropped and `done` is not emitted, so the loop step runs on the
      state as it is. */
  function StartReturnedAsWritten(s: State, completed: bool): (r: WorkerStep<State>)
    requires StartReturnedPre(s)
    ensures r.next != Finished
    ensures r.cont == Exit <==> s == Canceling
    ensures r.cont == Park <==> r.next == Paused
  {
    LoopStepAsWritten(s)
  }

  /** `start()` called through `startMaybeEmitDone`, as the wrapper exists
      for: a thinker that completed emits `done`, so `markFinished` runs
      before the loop step; one that did not complete must have returned
      because a pause or cancel was requested, and otherwise the intended
      check of the loop step is fatal. This takes the two critical sections
      back to back; the transition system also lets a request slip in
      between them. */
  function StartReturned(s: State, completed: bool): (r: Checked<WorkerStep<State>>)
    requires StartReturnedPre(s)
    ensures r.Fatal? <==> !completed && s == Thinking
    ensures completed && s != Canceling ==> r == Ok(WorkerStep(Finished, Exit))
    ensures s == Canceling ==> r == Ok(WorkerStep(Canceled, Exit))
    ensures r.Ok? ==> r.value.cont != Continue && (r.value.cont == Park <==> r.value.next == Paused)
  {
    if completed then
      Ok(LoopStep(MarkFinished(s).next))
    else if LoopStepPre(s) then Ok(LoopStep(s))
    else Fatal
  }

  /** As written, a thinker whose `start()` returns normally, with nothing
      requested, leaves the runner `Paused` and the worker parked: a move
      the table does not allow, whatever `start()` returned. A coordinator
      blocked in `requestFinishAndWaitForFinish` then wakes to a state its
      check rejects. */
  lemma NormalReturnParksAsWritten(completed: bool)
    ensures StartReturnedAsWritten(Thinking, completed) == WorkerStep(Paused, Park)
    ensures Paused !in DocumentedSuccessors(Thinking)
    ensures !LoopStepPre(Thinking)
    ensures RequestFinishAndWaitForFinish(Thinking).Block?
    ensures Paused !in RequestFinishAndWaitForFinish(Thinking).accept
  {
  }

  /** Through `startMaybeEmitDone`, the same normal return finishes the
      runner and leaves the loop, which is the state the finish wait
      accepts and for which `finished` reports no cancel. */
  lemma NormalReturnFinishes()
    ensures StartReturned(Thinking, true) == Ok(WorkerStep(Finished, Exit))
    ensures Finished in RequestFinishAndWaitForFinish(Thinking).accept
    ensures !FinishedSignal(Finished)
  {
  }

  /** As written, a runner canceled between `markFinished` and the loop
      step is moved from `Canceled` back to `Paused`, and its worker parks
      instead of leaving. */
  lemma CancelAfterFinishParksAsWritten()
    ensures MarkFinished(Thinking).next == Finished
    ensures RequestCancelCore(Finished, false).next == Canceled
    ensures LoopStepAsWritten(Canceled) == WorkerStep(Paused, Park)
    ensures DocumentedSuccessors(Canceled) == {}
  {
  }

  /** With the intended step, the same run leaves the loop canceled, and
      `finished` reports the cancel. */
  lemma CancelAfterFinishExits()
    ensures Executes(Thinking, [WorkerMarksFinished, CoordinatorCancels(false), WorkerLoops])
    ensures Final(Thinking, [WorkerMarksFinished, CoordinatorCancels(false), WorkerLoops]) == Canceled
    ensures LoopStep(Canceled) == WorkerStep(Canceled, Exit) && FinishedSignal(Canceled)
  {
  }

  /** What a pass of the loop in `run` runs: `start()` while `firstRun` is
      set, the event loop (which delivers the queued `resumeThinking` to
      the thinker's `onResumeThinking`) once it is cleared. */
  datatype Routine = CallStart | RunEventLoop

  /** The routines of `passes` passes of the loop, starting with the flag
      `firstRun`; `clears` says whether a pass clears the flag. */
  function Routines(passes: nat, firstRun: bool, clears: bool): (r: seq<Routine>)
    ensures |r| == passes
    ensures passes > 0 ==> r[0] == (if firstRun then CallStart else RunEventLoop)
    decreases passes
  {
    if passes == 0 then []
    else [if firstRun then CallStart else RunEventLoop] + Routines(passes - 1, firstRun && !clears, clears)
  }

  /** As written nothing clears `firstRun`, so every pass, including each
      one after a resume, calls `start()` from the top, and the event loop
      never runs. */
  lemma {:induction false} EveryPassCallsStartAsWritten(passes: nat)
    ensures forall i :: 0 <= i < passes ==> Routines(passes, true, false)[i] == CallStart
    decreases passes
  {
    if passes > 0 {
      EveryPassCallsStartAsWritten(passes - 1);
      assert Routines(passes, true, false) == [CallStart] + Routines(passes - 1, true, false);
    }
  }

  /** With the flag cleared after the first pass, `start()` runs once and
      every later pass runs the event loop. */
  lemma {:induction false} LaterPassesRunEventLoop(passes: nat, firstRun: bool)
    ensures forall i :: 0 <= i < passes && (i > 0 || !firstRun) ==> Routines(passes, firstRun, true)[i] == RunEventLoop
    decreases passes
  {
    if passes > 0 {
      LaterPassesRunEventLoop(passes - 1, false);
      assert Routines(passes, firstRun, true) == [if firstRun then CallStart else RunEventLoop] + Routines(passes - 1, false, true);
    }
  }

  /** The flag `possiblyAbleToContinue` as run() keeps it: initialised to
      false and only ever set to false again, so with exceptions compiled in
      it is false however the thinker returned. Without exceptions the
      check that reads it is compiled out. */
  function AbleToContinueAsWritten(exceptionsEnabled: bool, stopCaught: bool): (able: bool)
    ensures exceptionsEnabled ==> !able
  {
    !exceptionsEnabled
  }

  /** The flag as its comment means it: a thinker that left through a
      `StopException` cannot be resumed; one that returned normally can. */
  function AbleToContinue(exceptionsEnabled: bool, stopCaught: bool): (able: bool)
    ensures able <==> !(exceptionsEnabled && stopCaught)
  {
    !exceptionsEnabled || !stopCaught
  }

  predicate AfterWakePre(s: State, able: bool) {
    s == Canceled || (s == Resuming && able)
  }

  /** The worker woke up in the loop: a cancel of the paused runner makes it
      leave; otherwise the coordinator resumed it and it thinks again. */
  function AfterWake(s: State, able: bool): (r: WorkerStep<State>)
    requires AfterWakePre(s, able)
    ensures r.cont == Exit <==> s == Canceled
    ensures r.cont != Park
    ensures r.cont == Exit ==> r.next == Canceled
    ensures r.cont == Continue ==> r.next == Thinking
  {
    if s == Canceled then WorkerStep(Canceled, Exit) else WorkerStep(Thinking, Continue)
  }

  /** The `canceled` argument of the `finished` signal emitted at the end
      of `run`. */
  function FinishedSignal(s: State): (canceled: bool)
    requires Settled(s)
    ensures canceled <==> s != Finished
  {
    s == Canceled
  }

  /** The destructor's checks: the thread pool deletes the runner, so it
      must not run on the manager's thread, and the runner must be
      settled. */
  function DestructorCheck(s: State, onManagerThread: bool): (r: Checked<bool>)
    ensures r.Ok? <==> !onManagerThread && Settled(s)
  {
    var _ :- Hopefully(!onManagerThread);
    HopefullyInSet(Tracked(s), {Canceled, Finished})
  }

  lemma ResumeFatalAsWritten(stopCaught: bool)
    ensures !AfterWakePre(Resuming, AbleToContinueAsWritten(true, stopCaught))
    ensures AfterWakePre(Resuming, AbleToContinue(true, false))
  {
  }

  /** With the intended flag, a resumed worker goes on thinking exactly when
      it never left through a `StopException` (or exceptions are off). */
  lemma ResumeEnabledUnlessStopped(exceptionsEnabled: bool, stopCaught: bool)
    ensures AfterWakePre(Resuming, AbleToContinue(exceptionsEnabled, stopCaught)) <==> !(exceptionsEnabled && stopCaught)
    ensures AfterWakePre(Canceled, AbleToContinue(exceptionsEnabled, stopCaught))
  {
  }

  // ---------------------------------------------------------------------
  // Coordinator side
  // ---------------------------------------------------------------------

  predicate RequestPausePre(s: State, canceledOkay: bool) {
    || s == Thinking
    || s == Finished
    || (canceledOkay && (s == Canceling || s == Canceled))
  }

  /** `requestPauseCore`: a finished runner, and with the flag a canceling
      or canceled one, is left alone; a thinking runner starts pausing and
      its event loop is told to break. */
  function RequestPauseCore(s: State, canceledOkay: bool): (r: Request<State>)
    requires RequestPausePre(s, canceledOkay)
    ensures r.emitted == BreakEventLoop <==> s == Thinking
    ensures r.emitted != ResumeThinking
    ensures s == Thinking ==> r.next == Pausing
    ensures s != Thinking ==> r.next == s
  {
    if s == Finished then Request(s, Silent)
    else if canceledOkay && (s == Canceling || s == Canceled) then Request(s, Silent)
    else Request(Pausing, BreakEventLoop)
  }

  predicate RequestCancelPre(s: State, canceledOkay: bool) {
    || s == Thinking
    || s == Finished
    || s == Paused
    || (canceledOkay && s == Canceled)
  }

  /** `requestCancelCore`: a finished or paused runner is canceled at once
      (the paused worker is woken and leaves); with the flag a canceled one
      is left alone; a thinking runner starts canceling and its event loop
      is told to break. A runner already `Canceling` falls, even with the
      flag, into the branch that expects `Thinking`: the intended check
      rejects it, so it is not enabled here, while the substitute check
      lets it through (`RequestCancelAsWritten`). */
  function RequestCancelCore(s: State, canceledOkay: bool): (r: Request<State>)
    requires RequestCancelPre(s, canceledOkay)
    ensures r.emitted == BreakEventLoop <==> s == Thinking
    ensures r.emitted != ResumeThinking
    ensures s == Thinking ==> r.next == Canceling
    ensures s != Thinking ==> r.next == Canceled
  {
    if s == Finished then Request(Canceled, Silent)
    else if s == Paused then Request(Canceled, Silent)
    else if canceledOkay && s == Canceled then Request(s, Silent)
    else Request(Canceling, BreakEventLoop)
  }

  predicate RequestResumePre(s: State, canceledOkay: bool) {
    s == Paused || s == Finished || (canceledOkay && s == Canceled)
  }

  /** The critical section of `requestResumeCore`, entered after
      `waitForPauseCore` returned: a finished runner, and with the flag a
      canceled one, is left alone; a paused runner is resumed and
      `resumeThinking` is emitted. */
  function RequestResumeCore(s: State, canceledOkay: bool): (r: Request<State>)
    requires RequestResumePre(s, canceledOkay)
    ensures r.emitted == ResumeThinking <==> s == Paused
    ensures r.emitted != BreakEventLoop
    ensures s == Paused ==> r.next == Resuming
    ensures s != Paused ==> r.next == s
  {
    if s == Finished then Request(s, Silent)
    else if canceledOkay && s == Canceled then Request(s, Silent)
    else Request(Resuming, ResumeThinking)
  }

  predicate WaitForPausePre(s: State, canceledOkay: bool) {
    || s == Finished
    || s == Paused
    || s == Pausing
    || (canceledOkay && (s == Canceled || s == Canceling))
  }

  /** `waitForPauseCore`: returns at once in a settled or paused state;
      otherwise it waits for the worker and checks where it ended up. */
  function WaitForPauseCore(s: State, canceledOkay: bool): (r: WaitPlan<State>)
    requires WaitForPausePre(s, canceledOkay)
    ensures r.Proceed? <==> (s == Finished || s == Paused || s == Canceled)
    ensures r.Block? && s == Pausing ==> r.accept == {Paused, Finished}
    ensures r.Block? && s != Pausing ==> r.accept == {Canceled}
  {
    if s == Finished || s == Paused then Proceed
    else if canceledOkay && s == Canceled then Proceed
    else if canceledOkay && s == Canceling then Block({Canceled})
    else Block({Paused, Finished})
  }

  /** `requestResumeCore` is the pause wait followed by the resume critical
      section; wherever the wait lets the caller go on, the critical section
      is enabled with the same flag. */
  lemma PauseWaitEnablesResume(s: State, canceledOkay: bool)
    requires WaitForPausePre(s, canceledOkay)
    ensures WaitForPauseCore(s, canceledOkay).Proceed? ==> RequestResumePre(s, canceledOkay)
    ensures WaitForPauseCore(s, canceledOkay).Block? ==>
              forall t :: t in WaitForPauseCore(s, canceledOkay).accept ==> RequestResumePre(t, canceledOkay)
  {
  }

  /** `waitForCancel`: waits while canceling; either way the runner must end
      up canceled. */
  function WaitForCancel(s: State): (r: WaitPlan<State>)
    requires s == Canceling || s == Canceled
    ensures r.Proceed? <==> s == Canceled
    ensures r.Block? ==> r.accept == {Canceled}
  {
    if s == Canceling then Block({Canceled}) else Proceed
  }

  /** `waitForResume`. */
  function WaitForResume(s: State): (r: WaitPlan<State>)
    requires s == Thinking || s == Finished || s == Resuming
    ensures r.Proceed? <==> s != Resuming
    ensures r.Block? ==> r.accept == {Resuming, Thinking, Finished}
  {
    if s == Thinking || s == Finished then Proceed else Block({Resuming, Thinking, Finished})
  }

  /** `requestFinishAndWaitForFinish`: a thinking runner is waited for until
      it has finished. */
  function RequestFinishAndWaitForFinish(s: State): (r: WaitPlan<State>)
    requires s == Thinking || s == Finished
    ensures r.Proceed? <==> s == Finished
    ensures r.Block? ==> r.accept == {Finished}
  {
    if s == Finished then Proceed else Block({Finished})
  }

  /** Every state a coordinator wait accepts is one the worker can move the
      waited-on state to in a single step. */
  lemma WaitsAcceptOnlySuccessors(s: State, canceledOkay: bool)
    ensures WaitForPausePre(s, canceledOkay) && WaitForPauseCore(s, canceledOkay).Block? ==>
              forall t :: t in WaitForPauseCore(s, canceledOkay).accept ==>
                t in DocumentedSuccessors(s) || Undocumented(s, t)
    ensures (s == Canceling || s == Canceled) && WaitForCancel(s).Block? ==>
              forall t :: t in WaitForCancel(s).accept ==> t in DocumentedSuccessors(s)
    ensures (s == Thinking || s == Finished) && RequestFinishAndWaitForFinish(s).Block? ==>
              forall t :: t in RequestFinishAndWaitForFinish(s).accept ==> t in DocumentedSuccessors(s)
  {
  }

  // ---------------------------------------------------------------------
  // Queries
  // ---------------------------------------------------------------------

  /** `isFinished` as its cases evidently mean it. */
  function IsFinished(s: State): bool {
    s == Finished
  }

  /** `isFinished` as written: its `switch` has no case for `Canceling`, so
      that state reaches `default: hopefullyNotReached`. */
  function IsFinishedAsWritten(s: State): (r: Checked<bool>)
    ensures r.Fatal? <==> s == Canceling
    ensures r.Ok? ==> r.value == IsFinished(s)
  {
    match s
    case Canceling => Fatal
    case _ => Ok(s == Finished)
  }

  lemma IsFinishedFailsWhileCanceling()
    ensures IsFinishedAsWritten(Canceling).Fatal?
    ensures !IsFinished(Canceling)
  {
  }

  function IsCanceled(s: State): bool {
    s == Canceled || s == Canceling
  }

  function IsPaused(s: State): bool {
    s == Paused || s == Pausing
  }

  /** The three queries pick out disjoint groups of states, and the only
      states none of them reports are the running ones. */
  lemma QueriesPartition(s: State)
    ensures IsFinished(s) <==> s == Finished
    ensures IsCanceled(s) <==> s in {Canceling, Canceled}
    ensures IsPaused(s) <==> s in {Pausing, Paused}
    ensures !(IsFinished(s) && IsCanceled(s))
    ensures !(IsFinished(s) && IsPaused(s))
    ensures !(IsCanceled(s) && IsPaused(s))
    ensures !IsFinished(s) && !IsCanceled(s) && !IsPaused(s) <==> s in {Initializing, Thinking, Resuming}
  {
  }

  predicate WasPauseRequestedPre(s: State, time: nat, waited: TimedWait<State>) {
    || s == Pausing
    || s == Canceling
    || (s == Thinking && (time == 0 || waited.TimedOut? || waited.observed in {Pausing, Canceling}))
  }

  /** `wasPauseRequested(time)`: true at once when a pause or cancel is
      pending; otherwise the runner must be thinking, and with a time of 0
      the answer is false; with a positive time the worker waits, and the
      answer is whether it was woken by a request. */
  function WasPauseRequested(s: State, time: nat, waited: TimedWait<State>): (r: bool)
    requires WasPauseRequestedPre(s, time, waited)
    ensures s == Pausing || s == Canceling ==> r
    ensures time == 0 ==> (r <==> s != Thinking)
    ensures r <==> s != Thinking || (time > 0 && waited.Woken?)
  {
    if s == Pausing || s == Canceling then true
    else if time == 0 then false
    else waited.Woken?
  }

  /** `pollForStopException`: raises exactly when `wasPauseRequested` would
      have answered true. */
  function PollForStopException(s: State, time: nat, waited: TimedWait<State>): (r: Poll)
    requires WasPauseRequestedPre(s, time, waited)
    ensures r == Raised <==> WasPauseRequested(s, time, waited)
  {
    if WasPauseRequested(s, time, waited) then Raised else Returned
  }

  // ---------------------------------------------------------------------
  // The public wrappers that fix the flag
  // ---------------------------------------------------------------------

  datatype Entry =
    | RequestPause
    | WaitForPause
    | RequestPauseButCanceledIsOkay
    | WaitForPauseButCanceledIsOkay
    | RequestCancel
    | RequestCancelButAlreadyCanceledIsOkay
    | RequestResume
    | RequestResumeButCanceledIsOkay

  /** The flag each wrapper in src/thinkerrunner.h passes to its core. */
  function CanceledIsOkay(e: Entry): bool {
    e in {RequestPauseButCanceledIsOkay, WaitForPauseButCanceledIsOkay,
          RequestCancelButAlreadyCanceledIsOkay, RequestResumeButCanceledIsOkay}
  }

  /** Whether calling the wrapper in state `s` gets past its checks. */
  predicate EntryAccepts(s: State, e: Entry) {
    match e
    case RequestPause | RequestPauseButCanceledIsOkay => RequestPausePre(s, CanceledIsOkay(e))
    case WaitForPause | WaitForPauseButCanceledIsOkay => WaitForPausePre(s, CanceledIsOkay(e))
    case RequestCancel | RequestCancelButAlreadyCanceledIsOkay => RequestCancelPre(s, CanceledIsOkay(e))
    case RequestResume | RequestResumeButCanceledIsOkay => RequestResumePre(s, CanceledIsOkay(e))
  }

  /** What the flag buys: on a canceled runner the "...IsOkay" wrappers are
      accepted and the plain ones are not; on a thinking, paused or finished
      runner both kinds behave the same. */
  lemma OkayWrappersTolerateCanceled(e: Entry)
    ensures EntryAccepts(Canceled, e) <==> CanceledIsOkay(e)
    ensures forall s :: s in {Thinking, Paused, Finished, Pausing} ==>
              EntryAccepts(s, e) == EntryAccepts(s, Plain(e))
  {
  }

  /** The plain wrapper of the same core. */
  function Plain(e: Entry): (p: Entry)
    ensures !CanceledIsOkay(p)
  {
    match e
    case RequestPause | RequestPauseButCanceledIsOkay => RequestPause
    case WaitForPause | WaitForPauseButCanceledIsOkay => WaitForPause
    case RequestCancel | RequestCancelButAlreadyCanceledIsOkay => RequestCancel
    case RequestResume | RequestResumeButCanceledIsOkay => RequestResume
  }

  // ---------------------------------------------------------------------
  // The substitute transition check at the request call sites
  // ---------------------------------------------------------------------

  /** `requestPauseCore` with the substitute `hopefullyTransition`, which
      never fails at this call site: any state not caught by the first two
      branches becomes `Pausing`. */
  function RequestPauseAsWritten(s: State, canceledOkay: bool): (r: Request<State>)
    requires s != Initializing
    ensures RequestPausePre(s, canceledOkay) ==> r == RequestPauseCore(s, canceledOkay)
    ensures !RequestPausePre(s, canceledOkay) ==> r == Request(Pausing, BreakEventLoop)
  {
    if s == Finished then Request(s, Silent)
    else if canceledOkay && (s == Canceling || s == Canceled) then Request(s, Silent)
    else
      var t := HopefullyTransition(Tracked(s), Thinking, Pausing);
      Request(t.value.value, BreakEventLoop)
  }

  /** `requestCancelCore` with the substitute check. */
  function RequestCancelAsWritten(s: State, canceledOkay: bool): (r: Request<State>)
    requires s != Initializing
    ensures RequestCancelPre(s, canceledOkay) ==> r == RequestCancelCore(s, canceledOkay)
    ensures !RequestCancelPre(s, canceledOkay) ==> r == Request(Canceling, BreakEventLoop)
  {
    if s == Finished || s == Paused then Request(Canceled, Silent)
    else if canceledOkay && s == Canceled then Request(s, Silent)
    else
      var t := HopefullyTransition(Tracked(s), Thinking, Canceling);
      Request(t.value.value, BreakEventLoop)
  }

  /** What the substitute check lets through: a paused runner asked to pause
      moves back to `Pausing` (a move the table forbids), and a second
      already-canceled-is-okay cancel of a canceling runner breaks its event
      loop again, where the intended check stops both. */
  lemma WrittenChecksLetBadRequestsThrough()
    ensures RequestPauseAsWritten(Paused, false).next == Pausing
    ensures Pausing !in DocumentedSuccessors(Paused)
    ensures !RequestPausePre(Paused, false)
    ensures RequestCancelAsWritten(Canceling, true) == Request(Canceling, BreakEventLoop)
    ensures !RequestCancelPre(Canceling, true)
  {
  }

  // ---------------------------------------------------------------------
  // The transition system
  // ---------------------------------------------------------------------

  datatype Action =
    | WorkerRegisters(added: bool)
    | WorkerMarksFinished
    | WorkerLoops
    | WorkerStartReturns(completed: bool)
    | WorkerWakes(able: bool)
    | CoordinatorPauses(pauseOkay: bool)
    | CoordinatorCancels(cancelOkay: bool)
    | CoordinatorResumes(resumeOkay: bool)

  predicate Enabled(s: State, a: Action) {
    match a
    case WorkerRegisters(_) => s == Initializing
    case WorkerMarksFinished => MarkFinishedPre(s)
    case WorkerLoops => LoopStepPre(s)
    case WorkerStartReturns(completed) => StartReturnedPre(s) && StartReturned(s, completed).Ok?
    case WorkerWakes(able) => AfterWakePre(s, able)
    case CoordinatorPauses(okay) => RequestPausePre(s, okay)
    case CoordinatorCancels(okay) => RequestCancelPre(s, okay)
    case CoordinatorResumes(okay) => RequestResumePre(s, okay)
  }

  function Apply(s: State, a: Action): State
    requires Enabled(s, a)
  {
    match a
    case WorkerRegisters(added) => RegisterStep(s, added).next
    case WorkerMarksFinished => MarkFinished(s).next
    case WorkerLoops => LoopStep(s).next
    case WorkerStartReturns(completed) => StartReturned(s, completed).value.next
    case WorkerWakes(able) => AfterWake(s, able).next
    case CoordinatorPauses(okay) => RequestPauseCore(s, okay).next
    case CoordinatorCancels(okay) => RequestCancelCore(s, okay).next
    case CoordinatorResumes(okay) => RequestResumeCore(s, okay).next
  }

  /** Every move the code makes is in the documented table or is one of the
      two undocumented moves. */
  lemma StepFollowsTable(s: State, a: Action)
    requires Enabled(s, a)
    ensures Apply(s, a) == s || Apply(s, a) in DocumentedSuccessors(s) || Undocumented(s, Apply(s, a))
  {
  }

  /** An action that makes the move from `s` to `t`, for every documented or
      undocumented move. */
  function Witness(s: State, t: State): (a: Action)
    requires t in DocumentedSuccessors(s) || Undocumented(s, t)
    ensures Enabled(s, a) && Apply(s, a) == t
  {
    match (s, t)
    case (Initializing, Thinking) => WorkerRegisters(true)
    case (Initializing, Canceled) => WorkerRegisters(false)
    case (Thinking, Pausing) => CoordinatorPauses(false)
    case (Thinking, Canceling) => CoordinatorCancels(false)
    case (Thinking, Finished) => WorkerMarksFinished
    case (Pausing, Paused) => WorkerLoops
    case (Pausing, Finished) => WorkerMarksFinished
    case (Paused, Canceled) => CoordinatorCancels(false)
    case (Paused, Resuming) => CoordinatorResumes(false)
    case (Canceling, Canceled) => WorkerLoops
    case (Resuming, Thinking) => WorkerWakes(true)
    case (Finished, Canceled) => CoordinatorCancels(false)
  }

  /** The two undocumented moves do happen. */
  lemma UndocumentedMovesHappen()
    ensures Enabled(Pausing, WorkerMarksFinished) && Apply(Pausing, WorkerMarksFinished) == Finished
    ensures Enabled(Initializing, WorkerRegisters(false)) && Apply(Initializing, WorkerRegisters(false)) == Canceled
    ensures Finished !in DocumentedSuccessors(Pausing) && Canceled !in DocumentedSuccessors(Initializing)
  {
  }

  lemma CanceledIsTerminal(a: Action)
    requires Enabled(Canceled, a)
    ensures Apply(Canceled, a) == Canceled
  {
  }

  lemma FinishedOnlyBecomesCanceled(a: Action)
    requires Enabled(Finished, a)
    ensures Apply(Finished, a) in {Finished, Canceled}
  {
  }

  /** The states with a single documented successor, and what the code
      really allows from them. */
  lemma NarrowStates(s: State, a: Action)
    requires Enabled(s, a) && Apply(s, a) != s
    ensures s == Initializing ==> Apply(s, a) in {Thinking, Canceled}
    ensures s == Pausing ==> Apply(s, a) in {Paused, Finished}
    ensures s == Resuming ==> Apply(s, a) == Thinking
    ensures s == Paused ==> Apply(s, a) in {Canceled, Resuming}
  {
  }

  /** Every state reachable from `s` through documented and undocumented
      moves (a reflexive, transitive closure). */
  function Descendants(s: State): set<State> {
    match s
    case Initializing => {Initializing, Thinking, Pausing, Paused, Canceling, Canceled, Resuming, Finished}
    case Canceling => {Canceling, Canceled}
    case Canceled => {Canceled}
    case Finished => {Finished, Canceled}
    case _ => {Thinking, Pausing, Paused, Canceling, Canceled, Resuming, Finished}
  }

  /** `Descendants` is the closure: it holds `s`, and it is closed under
      every documented and undocumented move. */
  lemma DescendantsIsClosure(s: State, t: State, u: State)
    ensures s in Descendants(s)
    ensures t in Descendants(s) && (u in DocumentedSuccessors(t) || Undocumented(t, u)) ==> u in Descendants(s)
  {
  }

  lemma StepStaysWithinDescendants(s: State, a: Action)
    requires Enabled(s, a)
    ensures Apply(s, a) in Descendants(s)
    ensures Descendants(Apply(s, a)) <= Descendants(s)
  {
  }

  /** A sequence of actions each enabled in the state the previous one left. */
  predicate Executes(s: State, actions: seq<Action>)
    decreases |actions|
  {
    |actions| == 0 || (Enabled(s, actions[0]) && Executes(Apply(s, actions[0]), actions[1..]))
  }

  function Final(s: State, actions: seq<Action>): State
    requires Executes(s, actions)
    decreases |actions|
  {
    if |actions| == 0 then s else Final(Apply(s, actions[0]), actions[1..])
  }

  lemma {:induction false} TraceStaysWithinDescendants(s: State, actions: seq<Action>)
    requires Executes(s, actions)
    ensures Final(s, actions) in Descendants(s)
    decreases |actions|
  {
    if |actions| > 0 {
      var t := Apply(s, actions[0]);
      StepStaysWithinDescendants(s, actions[0]);
      TraceStaysWithinDescendants(t, actions[1..]);
    }
  }

  /** Once canceled, always canceled; once finished, only finished or
      canceled; once started, never initializing again. */
  lemma {:induction false} TerminalStatesAbsorb(s: State, actions: seq<Action>)
    requires Executes(s, actions)
    ensures s == Canceled ==> Final(s, actions) == Canceled
    ensures s == Finished ==> Final(s, actions) in {Finished, Canceled}
    ensures s != Initializing ==> Final(s, actions) != Initializing
  {
    TraceStaysWithinDescendants(s, actions);
  }

  /** A worker step that leaves the run loop leaves the runner settled, so
      the `finished` signal can be emitted and the destructor's check
      passes; its `canceled` argument is true exactly when the runner ended
      canceled. */
  lemma ExitsAreSettled(s: State, a: Action)
    requires Enabled(s, a)
    requires (a.WorkerRegisters? && RegisterStep(s, a.added).cont == Exit)
          || (a.WorkerLoops? && LoopStep(s).cont == Exit)
          || (a.WorkerStartReturns? && StartReturned(s, a.completed).value.cont == Exit)
          || (a.WorkerWakes? && AfterWake(s, a.able).cont == Exit)
    ensures Settled(Apply(s, a))
    ensures DestructorCheck(Apply(s, a), false).Ok?
    ensures FinishedSignal(Apply(s, a)) <==> Apply(s, a) == Canceled
  {
  }
}
