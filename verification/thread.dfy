/** The state machine of `ThinkerThread` (src/thinkerthread.cpp and
    src/thinkerthread.h), the `QThread`-derived twin of `ThinkerRunner` that
    the manager uses. Its states are the runner's under older names
    (`Aborting`, `Aborted`, `Continuing` for `Canceling`, `Canceled`,
    `Resuming`), its worker starts thinking without a registration step, and
    its `isAborted` and `isPaused` queries answer for one state each.

    The modelling conventions are those of the `ThinkerRunner` module: one
    atomic step per critical section, blocking waits and failed checks as
    steps that are not enabled. `Correspondence` and `TracesCorrespond`
    relate the two machines. */
module ThinkerThread {
  import opened Common
  import opened Hoist
  import Runner = ThinkerRunner

  datatype State =
    | Initializing
    | Thinking
    | Pausing
    | Paused
    | Aborting
    | Aborted
    | Continuing
    | Finished

  /** The successor table written next to the `State` enum. */
  function DocumentedSuccessors(s: State): set<State> {
    match s
    case Initializing => {Thinking}
    case Thinking => {Pausing, Aborting, Finished}
    case Pausing => {Paused}
    case Paused => {Aborted, Continuing}
    case Aborting => {Aborted}
    case Aborted => {}
    case Continuing => {Thinking}
    case Finished => {Aborted}
  }

  // ---------------------------------------------------------------------
  // Worker side
  // ---------------------------------------------------------------------

  /** The start of `run`: the worker leaves `Initializing` for `Thinking`. */
  function StartStep(s: State): (next: State)
    requires s == Initializing
    ensures next in DocumentedSuccessors(s)
  {
    Thinking
  }

  predicate MarkFinishedPre(s: State) {
    s == Aborting || s == Thinking || s == Pausing
  }

  /** The helper's `markFinished`: a pending abort wins; otherwise the
      thread becomes finished and its event loop is told to quit. */
  function MarkFinished(s: State): (r: Marked<State>)
    requires MarkFinishedPre(s)
    ensures s == Aborting ==> r.next == s && !r.quit
    ensures s != Aborting ==> r.next == Finished && r.quit
  {
    if s == Aborting then Marked(s, false) else Marked(Finished, true)
  }

  /** The states in which the intended loop step gets past its checks. A
      thread aborted after it finished (the manager's abort can come
      between `markFinished` and this step) is one of them: the comment
      before the step says an abort may overwrite a finish. */
  predicate LoopStepPre(s: State) {
    s == Finished || s == Aborting || s == Aborted || s == Pausing
  }

  /** The critical section after `exec()` returns, as intended. */
  function LoopStep(s: State): (r: WorkerStep<State>)
    requires LoopStepPre(s)
    ensures r.cont == Exit <==> s != Pausing
    ensures r.cont == Exit ==> Settled(r.next) && (r.next == Finished <==> s == Finished)
    ensures r.cont == Park ==> r.next == Paused
    ensures r.cont != Continue
  {
    match s
    case Finished => WorkerStep(Finished, Exit)
    case Aborting => WorkerStep(Aborted, Exit)
    case Aborted => WorkerStep(Aborted, Exit)
    case Pausing => WorkerStep(Paused, Park)
  }

  /** The same critical section as written: the substitute
      `hopefullyTransition(Pausing, Paused)` never fails, so every state
      other than `Finished` and `Aborting` ends `Paused` with the worker
      parked, an aborted thread included. */
  function LoopStepAsWritten(s: State): (r: WorkerStep<State>)
    ensures LoopStepPre(s) && s != Aborted ==> r == LoopStep(s)
    ensures !LoopStepPre(s) || s == Aborted ==> r == WorkerStep(Paused, Park)
  {
    if s == Finished then WorkerStep(Finished, Exit)
    else if s == Aborting then WorkerStep(Aborted, Exit)
    else
      var t := HopefullyTransition(Tracked(s), Pausing, Paused);
      WorkerStep(t.value.value, Park)
  }

  predicate AfterWakePre(s: State, able: bool) {
    s == Aborted || (s == Continuing && able)
  }

  /** The worker woke up in `Paused`: an abort makes it leave; otherwise it
      was told to continue. `able` is the `possiblyAbleToContinue` flag,
      which has the same defect here as in the runner (see
      `Runner.AbleToContinueAsWritten`). */
  function AfterWake(s: State, able: bool): (r: WorkerStep<State>)
    requires AfterWakePre(s, able)
    ensures r.cont == Exit <==> s == Aborted
    ensures r.cont != Park
    ensures r.cont == Exit ==> r.next == Aborted
    ensures r.cont == Continue ==> r.next == Thinking
  {
    if s == Aborted then WorkerStep(Aborted, Exit) else WorkerStep(Thinking, Continue)
  }

  lemma ContinueFatalAsWritten(stopCaught: bool)
    ensures !AfterWakePre(Continuing, Runner.AbleToContinueAsWritten(true, stopCaught))
    ensures AfterWakePre(Continuing, Runner.AbleToContinue(true, false))
  {
  }

  predicate Settled(s: State) {
    s == Aborted || s == Finished
  }

  /** The destructor's checks: it runs on the manager's thread, and the
      thread it waited for must be settled. */
  function DestructorCheck(s: State, onManagerThread: bool): (r: Checked<bool>)
    ensures r.Ok? <==> onManagerThread && Settled(s)
  {
    var _ :- Hopefully(onManagerThread);
    HopefullyInSet(Tracked(s), {Aborted, Finished})
  }

  // ---------------------------------------------------------------------
  // Coordinator side
  // ---------------------------------------------------------------------

  predicate RequestPausePre(s: State, abortedOkay: bool) {
    || s == Thinking
    || s == Finished
    || (abortedOkay && (s == Aborting || s == Aborted))
  }

  /** `requestPauseCore`. */
  function RequestPauseCore(s: State, abortedOkay: bool): (r: Request<State>)
    requires RequestPausePre(s, abortedOkay)
    ensures r.emitted == BreakEventLoop <==> s == Thinking
    ensures r.emitted != ResumeThinking
    ensures s == Thinking ==> r.next == Pausing
    ensures s != Thinking ==> r.next == s
  {
    if s == Finished then Request(s, Silent)
    else if abortedOkay && (s == Aborting || s == Aborted) then Request(s, Silent)
    else Request(Pausing, BreakEventLoop)
  }

  predicate RequestAbortPre(s: State, abortedOkay: bool) {
    || s == Thinking
    || s == Finished
    || s == Paused
    || (abortedOkay && s == Aborted)
  }

  /** `requestAbortCore`. */
  function RequestAbortCore(s: State, abortedOkay: bool): (r: Request<State>)
    requires RequestAbortPre(s, abortedOkay)
    ensures r.emitted == BreakEventLoop <==> s == Thinking
    ensures r.emitted != ResumeThinking
    ensures s == Thinking ==> r.next == Aborting
    ensures s != Thinking ==> r.next == Aborted
  {
    if s == Finished || s == Paused then Request(Aborted, Silent)
    else if abortedOkay && s == Aborted then Request(s, Silent)
    else Request(Aborting, BreakEventLoop)
  }

  predicate RequestResumePre(s: State, abortedOkay: bool) {
    s == Paused || s == Finished || (abortedOkay && s == Aborted)
  }

  /** The critical section of `requestResumeCore`, after its pause wait;
      the signal emitted is `continueThinking`. */
  function RequestResumeCore(s: State, abortedOkay: bool): (r: Request<State>)
    requires RequestResumePre(s, abortedOkay)
    ensures r.emitted == ResumeThinking <==> s == Paused
    ensures r.emitted != BreakEventLoop
    ensures s == Paused ==> r.next == Continuing
    ensures s != Paused ==> r.next == s
  {
    if s == Finished then Request(s, Silent)
    else if abortedOkay && s == Aborted then Request(s, Silent)
    else Request(Continuing, ResumeThinking)
  }

  predicate WaitForPausePre(s: State, abortedOkay: bool) {
    || s == Finished
    || s == Paused
    || s == Pausing
    || (abortedOkay && (s == Aborted || s == Aborting))
  }

  /** `waitForPauseCore`. */
  function WaitForPauseCore(s: State, abortedOkay: bool): (r: WaitPlan<State>)
    requires WaitForPausePre(s, abortedOkay)
    ensures r.Proceed? <==> (s == Finished || s == Paused || s == Aborted)
    ensures r.Block? && s == Pausing ==> r.accept == {Paused, Finished}
    ensures r.Block? && s != Pausing ==> r.accept == {Aborted}
  {
    if s == Finished || s == Paused then Proceed
    else if abortedOkay && s == Aborted then Proceed
    else if abortedOkay && s == Aborting then Block({Aborted})
    else Block({Paused, Finished})
  }

  lemma PauseWaitEnablesResume(s: State, abortedOkay: bool)
    requires WaitForPausePre(s, abortedOkay)
    ensures WaitForPauseCore(s, abortedOkay).Proceed? ==> RequestResumePre(s, abortedOkay)
    ensures WaitForPauseCore(s, abortedOkay).Block? ==>
              forall t :: t in WaitForPauseCore(s, abortedOkay).accept ==> RequestResumePre(t, abortedOkay)
  {
  }

  /** `waitForAbort`. */
  function WaitForAbort(s: State): (r: WaitPlan<State>)
    requires s == Aborting || s == Aborted
    ensures r.Proceed? <==> s == Aborted
    ensures r.Block? ==> r.accept == {Aborted}
  {
    if s == Aborting then Block({Aborted}) else Proceed
  }

  /** `waitForResume`. */
  function WaitForResume(s: State): (r: WaitPlan<State>)
    requires s == Thinking || s == Finished || s == Continuing
    ensures r.Proceed? <==> s != Continuing
    ensures r.Block? ==> r.accept == {Continuing, Thinking, Finished}
  {
    if s == Thinking || s == Finished then Proceed else Block({Continuing, Thinking, Finished})
  }

  /** `requestFinishAndWaitForFinish`. */
  function RequestFinishAndWaitForFinish(s: State): (r: WaitPlan<State>)
    requires s == Thinking || s == Finished
    ensures r.Proceed? <==> s == Finished
    ensures r.Block? ==> r.accept == {Finished}
  {
    if s == Finished then Proceed else Block({Finished})
  }

  // ---------------------------------------------------------------------
  // Queries
  // ---------------------------------------------------------------------

  /** `isComplete` as its cases evidently mean it. */
  function IsComplete(s: State): bool {
    s == Finished
  }

  /** `isComplete` as written: `Aborting` has no case and reaches
      `default: hopefullyNotReached`. */
  function IsCompleteAsWritten(s: State): (r: Checked<bool>)
    ensures r.Fatal? <==> s == Aborting
    ensures r.Ok? ==> r.value == IsComplete(s)
  {
    match s
    case Aborting => Fatal
    case _ => Ok(s == Finished)
  }

  lemma IsCompleteFailsWhileAborting()
    ensures IsCompleteAsWritten(Aborting).Fatal?
    ensures !IsComplete(Aborting)
  {
  }

  function IsAborted(s: State): bool {
    s == Aborted
  }

  function IsPaused(s: State): bool {
    s == Paused
  }

  /** The thread's queries are narrower than the runner's: they report only
      the settled state of an abort or a pause, not one in progress. */
  lemma QueriesNarrowerThanRunner(s: State)
    ensures IsComplete(s) <==> Runner.IsFinished(Rename(s))
    ensures IsAborted(s) ==> Runner.IsCanceled(Rename(s))
    ensures IsPaused(s) ==> Runner.IsPaused(Rename(s))
    ensures Runner.IsCanceled(Rename(s)) && !IsAborted(s) <==> s == Aborting
    ensures Runner.IsPaused(Rename(s)) && !IsPaused(s) <==> s == Pausing
  {
  }

  predicate IsPauseRequestedPre(s: State, time: nat, waited: TimedWait<State>) {
    || s == Pausing
    || s == Aborting
    || (s == Thinking && (time == 0 || waited.TimedOut? || waited.observed in {Pausing, Aborting}))
  }

  /** `isPauseRequested(time)`. */
  function IsPauseRequested(s: State, time: nat, waited: TimedWait<State>): (r: bool)
    requires IsPauseRequestedPre(s, time, waited)
    ensures s == Pausing || s == Aborting ==> r
    ensures time == 0 ==> (r <==> s != Thinking)
    ensures r <==> s != Thinking || (time > 0 && waited.Woken?)
  {
    if s == Pausing || s == Aborting then true
    else if time == 0 then false
    else waited.Woken?
  }

  /** `pollForStopException`. */
  function PollForStopException(s: State, time: nat, waited: TimedWait<State>): (r: Poll)
    requires IsPauseRequestedPre(s, time, waited)
    ensures r == Raised <==> IsPauseRequested(s, time, waited)
  {
    if IsPauseRequested(s, time, waited) then Raised else Returned
  }

  // ---------------------------------------------------------------------
  // The public wrappers that fix the flag
  // ---------------------------------------------------------------------

  datatype Entry =
    | RequestPause
    | WaitForPause
    | RequestPauseButAbortedIsOkay
    | WaitForPauseButAbortedIsOkay
    | RequestAbort
    | RequestAbortButAlreadyAbortedIsOkay
    | RequestResume
    | RequestResumeButAbortedIsOkay

  function AbortedIsOkay(e: Entry): bool {
    e in {RequestPauseButAbortedIsOkay, WaitForPauseButAbortedIsOkay,
          RequestAbortButAlreadyAbortedIsOkay, RequestResumeButAbortedIsOkay}
  }

  predicate EntryAccepts(s: State, e: Entry) {
    match e
    case RequestPause | RequestPauseButAbortedIsOkay => RequestPausePre(s, AbortedIsOkay(e))
    case WaitForPause | WaitForPauseButAbortedIsOkay => WaitForPausePre(s, AbortedIsOkay(e))
    case RequestAbort | RequestAbortButAlreadyAbortedIsOkay => RequestAbortPre(s, AbortedIsOkay(e))
    case RequestResume | RequestResumeButAbortedIsOkay => RequestResumePre(s, AbortedIsOkay(e))
  }

  /** On an aborted thread the "...IsOkay" wrappers are accepted and the
      plain ones are not. */
  lemma OkayWrappersTolerateAborted(e: Entry)
    ensures EntryAccepts(Aborted, e) <==> AbortedIsOkay(e)
  {
  }

  // ---------------------------------------------------------------------
  // The transition system, and its relation to the runner's
  // ---------------------------------------------------------------------

  datatype Action =
    | WorkerStarts
    | WorkerMarksFinished
    | WorkerLoops
    | WorkerWakes(able: bool)
    | CoordinatorPauses(pauseOkay: bool)
    | CoordinatorAborts(abortOkay: bool)
    | CoordinatorResumes(resumeOkay: bool)

  predicate Enabled(s: State, a: Action) {
    match a
    case WorkerStarts => s == Initializing
    case WorkerMarksFinished => MarkFinishedPre(s)
    case WorkerLoops => LoopStepPre(s)
    case WorkerWakes(able) => AfterWakePre(s, able)
    case CoordinatorPauses(okay) => RequestPausePre(s, okay)
    case CoordinatorAborts(okay) => RequestAbortPre(s, okay)
    case CoordinatorResumes(okay) => RequestResumePre(s, okay)
  }

  function Apply(s: State, a: Action): State
    requires Enabled(s, a)
  {
    match a
    case WorkerStarts => StartStep(s)
    case WorkerMarksFinished => MarkFinished(s).next
    case WorkerLoops => LoopStep(s).next
    case WorkerWakes(able) => AfterWake(s, able).next
    case CoordinatorPauses(okay) => RequestPauseCore(s, okay).next
    case CoordinatorAborts(okay) => RequestAbortCore(s, okay).next
    case CoordinatorResumes(okay) => RequestResumeCore(s, okay).next
  }

  /** The runner's name for each thread state. */
  function Rename(s: State): (r: Runner.State)
    ensures r != Runner.Initializing ==> s != Initializing
  {
    match s
    case Initializing => Runner.Initializing
    case Thinking => Runner.Thinking
    case Pausing => Runner.Pausing
    case Paused => Runner.Paused
    case Aborting => Runner.Canceling
    case Aborted => Runner.Canceled
    case Continuing => Runner.Resuming
    case Finished => Runner.Finished
  }

  lemma RenameInjective(s: State, t: State)
    ensures Rename(s) == Rename(t) ==> s == t
  {
  }

  /** The runner action that does what a thread action does; starting is a
      registration that succeeded. */
  function RunnerAction(a: Action): Runner.Action {
    match a
    case WorkerStarts => Runner.WorkerRegisters(true)
    case WorkerMarksFinished => Runner.WorkerMarksFinished
    case WorkerLoops => Runner.WorkerLoops
    case WorkerWakes(able) => Runner.WorkerWakes(able)
    case CoordinatorPauses(okay) => Runner.CoordinatorPauses(okay)
    case CoordinatorAborts(okay) => Runner.CoordinatorCancels(okay)
    case CoordinatorResumes(okay) => Runner.CoordinatorResumes(okay)
  }

  /** Each thread step is the runner's step under the renaming, and the
      renamed table is the runner's table. */
  lemma Correspondence(s: State, a: Action)
    ensures Enabled(s, a) <==> Runner.Enabled(Rename(s), RunnerAction(a))
    ensures Enabled(s, a) ==> Rename(Apply(s, a)) == Runner.Apply(Rename(s), RunnerAction(a))
    ensures forall t :: t in DocumentedSuccessors(s) <==> Rename(t) in Runner.DocumentedSuccessors(Rename(s))
  {
  }

  predicate Executes(s: State, actions: seq<Action>)
    decreases |actions|
  {
    |actions| == 0 || (Enabled(s, actions[0]) && Executes(Apply(s, actions[0]), actions[1..]))
  }

  function Final(s: State, actions: seq<Action>): State
    requires Executes(s, actions)
    decreases |actions|
  {
    if |actions| == 0 then s else Final(Apply(s, actions[0]), actions[1..])
  }

  function RunnerActions(actions: seq<Action>): (r: seq<Runner.Action>)
    ensures |r| == |actions|
    ensures forall i :: 0 <= i < |actions| ==> r[i] == RunnerAction(actions[i])
  {
    seq(|actions|, i requires 0 <= i < |actions| => RunnerAction(actions[i]))
  }

  /** Every run of the thread is a run of the runner under the renaming. */
  lemma {:induction false} TracesCorrespond(s: State, actions: seq<Action>)
    requires Executes(s, actions)
    ensures Runner.Executes(Rename(s), RunnerActions(actions))
    ensures Rename(Final(s, actions)) == Runner.Final(Rename(s), RunnerActions(actions))
    decreases |actions|
  {
    if |actions| > 0 {
      Correspondence(s, actions[0]);
      var rest := RunnerActions(actions[1..]);
      assert RunnerActions(actions)[1..] == rest;
      TracesCorrespond(Apply(s, actions[0]), actions[1..]);
    }
  }

  /** Once aborted, always aborted. */
  lemma AbortedAbsorbs(actions: seq<Action>)
    requires Executes(Aborted, actions)
    ensures Final(Aborted, actions) == Aborted
  {
    TracesCorrespond(Aborted, actions);
    Runner.TerminalStatesAbsorb(Runner.Canceled, RunnerActions(actions));
    RenameInjective(Final(Aborted, actions), Aborted);
  }

  /** As written, a thread the manager aborts between `markFinished` and
      the loop step (the runner's destructor does, through
      `requestAbortButAlreadyAbortedIsOkay`) is moved from `Aborted` back
      to `Paused`, and its worker parks instead of leaving: a move out of
      a state the table makes terminal. */
  lemma AbortAfterFinishParksAsWritten()
    ensures MarkFinished(Thinking).next == Finished
    ensures RequestAbortCore(Finished, true).next == Aborted
    ensures LoopStepAsWritten(Aborted) == WorkerStep(Paused, Park)
    ensures DocumentedSuccessors(Aborted) == {}
  {
  }

  /** With the intended step, the same run leaves the loop aborted, where
      the manager's abort wait accepts it. */
  lemma AbortAfterFinishExits()
    ensures Executes(Thinking, [WorkerMarksFinished, CoordinatorAborts(true), WorkerLoops])
    ensures Final(Thinking, [WorkerMarksFinished, CoordinatorAborts(true), WorkerLoops]) == Aborted
    ensures LoopStep(Aborted) == WorkerStep(Aborted, Exit) && WaitForAbort(Aborted).Proceed?
  {
  }
}
