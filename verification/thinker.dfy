/** `ThinkerBase` (src/thinker.cpp and include/thinkerqt/thinkerbase.h):
    the object a thinker's author derives from. It is snapshottable, it
    belongs to one thread at a time, and it reaches its runner through the
    manager.

    Threads are plain identifiers, and the manager's lookup of the runner
    for a thinker is a parameter: an absent runner is `None`, a present one
    is given by its state. */
module ThinkerBase {
  import opened Common
  import opened Hoist
  import Runner = ThinkerRunner
  import Snap = Snapshottable

  type ThreadId = nat

  /** `ThinkerBase::State`. */
  datatype State = OwnedByRunner | Finished | Canceled

  /** The numbers the enum class gives its states. */
  function Ordinal(s: State): (n: nat)
    ensures n < 3
  {
    match s
    case OwnedByRunner => 0
    case Finished => 1
    case Canceled => 2
  }

  function FromOrdinal(n: nat): (r: Option<State>)
    ensures r.Some? <==> n < 3
  {
    if n == 0 then Some(OwnedByRunner)
    else if n == 1 then Some(Finished)
    else if n == 2 then Some(Canceled)
    else None
  }

  /** Exactly three states, numbered 0, 1 and 2, one number each. */
  lemma OrdinalsRoundTrip(s: State, n: nat)
    ensures FromOrdinal(Ordinal(s)) == Some(s)
    ensures FromOrdinal(n).Some? ==> Ordinal(FromOrdinal(n).value) == n
  {
  }

  /** The thinker's own state, the thread it has affinity to, and the
      `lockedForWrite` flag it inherits from `SnapshottableBase`. */
  datatype Thinker = Thinker(state: State, thread: ThreadId, lock: Snap.Base)

  /** The constructors, run on `current`: they must run on the manager's
      thread, and the new object is owned by its runner, has affinity to
      the thread that made it, and is not locked. */
  function NewThinker(managerThread: ThreadId, current: ThreadId): (r: Checked<Thinker>)
    ensures r.Ok? <==> current == managerThread
    ensures r.Ok? ==> r.value.state == OwnedByRunner && r.value.thread == managerThread
    ensures r.Ok? ==> !r.value.lock.lockedForWrite
  {
    var _ :- Hopefully(current == managerThread);
    Ok(Thinker(OwnedByRunner, current, Snap.NewBase()))
  }

  /** `hopefullyCurrentThreadIsThink`. */
  function HopefullyCurrentThreadIsThink(t: Thinker, current: ThreadId): (r: Checked<bool>)
    ensures r.Ok? <==> t.thread == current
  {
    Hopefully(t.thread == current)
  }

  /** `lockForWrite`: the affinity check, then the base lock. */
  function LockForWrite(t: Thinker, current: ThreadId): (r: Checked<Thinker>)
    ensures r.Ok? <==> t.thread == current && Snap.LockForWrite(t.lock).Ok?
    ensures r.Ok? ==> r.value == t.(lock := Snap.LockForWrite(t.lock).value)
  {
    var _ :- HopefullyCurrentThreadIsThink(t, current);
    var b :- Snap.LockForWrite(t.lock);
    Ok(t.(lock := b))
  }

  /** What `unlock` does besides changing the flag, in order. */
  datatype Effect = ManagerNotified | LockReleased

  datatype Unlocked = Unlocked(thinker: Thinker, effects: seq<Effect>)

  /** `unlock`: the affinity check, then the manager is told (so watchers
      can hear of progress), then the base lock is released. */
  function Unlock(t: Thinker, current: ThreadId): (r: Checked<Unlocked>)
    ensures r.Ok? <==> t.thread == current && Snap.Unlock(t.lock).Ok?
    ensures r.Ok? ==> r.value.thinker == t.(lock := Snap.Unlock(t.lock).value)
    ensures r.Ok? ==> r.value.effects == [ManagerNotified, LockReleased]
  {
    var _ :- HopefullyCurrentThreadIsThink(t, current);
    var notified := [ManagerNotified];
    var b :- Snap.Unlock(t.lock);
    Ok(Unlocked(t.(lock := b), notified + [LockReleased]))
  }

  /** On the thinker's own thread, a lock followed by an unlock gives back
      the thinker it started from, and the manager hears of the unlock
      before the lock is released. Off that thread both are fatal. */
  lemma LockUnlockCycle(t: Thinker, current: ThreadId)
    requires !t.lock.lockedForWrite
    ensures t.thread == current ==> LockForWrite(t, current).Ok?
    ensures t.thread == current ==> Unlock(LockForWrite(t, current).value, current) == Ok(Unlocked(t, [ManagerNotified, LockReleased]))
    ensures t.thread != current ==> LockForWrite(t, current).Fatal? && Unlock(t, current).Fatal?
    ensures Unlock(t, t.thread).Fatal?
  {
    Snap.LockThenUnlockRestores(t.lock);
  }

  /** `wasPauseRequested(time)`: the affinity check, then the runner must be
      registered, and its answer is returned unchanged. */
  function WasPauseRequested(t: Thinker, current: ThreadId, runner: Option<Runner.State>, time: nat, waited: TimedWait<Runner.State>): (r: Checked<bool>)
    ensures r.Ok? <==> t.thread == current && runner.Some? && Runner.WasPauseRequestedPre(runner.value, time, waited)
    ensures r.Ok? ==> r.value == Runner.WasPauseRequested(runner.value, time, waited)
  {
    var _ :- HopefullyCurrentThreadIsThink(t, current);
    var _ :- Hopefully(runner.Some?);
    var _ :- Hopefully(Runner.WasPauseRequestedPre(runner.value, time, waited));
    Ok(Runner.WasPauseRequested(runner.value, time, waited))
  }

  /** `pollForStopException(time)`: the same checks, then the runner's
      poll, raising exactly when it raises. */
  function PollForStopException(t: Thinker, current: ThreadId, runner: Option<Runner.State>, time: nat, waited: TimedWait<Runner.State>): (r: Checked<Poll>)
    ensures r.Ok? <==> WasPauseRequested(t, current, runner, time, waited).Ok?
    ensures r.Ok? ==> (r.value == Raised <==> WasPauseRequested(t, current, runner, time, waited).value)
  {
    var _ :- HopefullyCurrentThreadIsThink(t, current);
    var _ :- Hopefully(runner.Some?);
    var _ :- Hopefully(Runner.WasPauseRequestedPre(runner.value, time, waited));
    Ok(Runner.PollForStopException(runner.value, time, waited))
  }

  /** The default `afterThreadAttach` and `beforeThreadDetach` hooks, which
      have the same empty body: they leave the thinker as it was. */
  function DefaultThreadHook(t: Thinker): (r: Thinker)
    ensures r == t
  {
    t
  }

  /** The destructor: it must run on the manager's thread, and no runner
      may still be registered for the thinker. */
  function DestructorCheck(managerThread: ThreadId, current: ThreadId, runner: Option<Runner.State>): (r: Checked<bool>)
    ensures r.Ok? <==> current == managerThread && runner.None?
  {
    var _ :- Hopefully(current == managerThread);
    Hopefully(runner.None?)
  }

  /** What a `...MaybeEmitDone` wrapper returns, and whether it emitted
      `done`. In this revision neither wrapper is called: the runner calls
      `start()` itself and `onResumeThinking` calls `resume()` itself, so
      `done` is never emitted. */
  datatype Completion = Completion(result: bool, doneEmitted: bool)

  /** `startMaybeEmitDone`, given what `start()` returned. */
  function StartMaybeEmitDone(started: bool): (c: Completion)
    ensures c.result == started
    ensures c.doneEmitted <==> c.result
  {
    if started then Completion(true, true) else Completion(false, false)
  }

  /** Routing the runner's `start()` through `startMaybeEmitDone`, which
      is what the wrapper exists for: `done` is emitted exactly when
      `start()` completed, and the runner's corrected step then finishes a
      thinking runner, where the step as written parks it. */
  lemma StartThroughWrapperFinishes(started: bool)
    ensures StartMaybeEmitDone(started).doneEmitted == started
    ensures Runner.StartReturned(Runner.Thinking, StartMaybeEmitDone(started).doneEmitted).Ok? <==> started
    ensures started ==> Runner.StartReturned(Runner.Thinking, StartMaybeEmitDone(started).doneEmitted).value.next == Runner.Finished
    ensures Runner.StartReturnedAsWritten(Runner.Thinking, started).next == Runner.Paused
  {
  }

  /** `resumeMaybeEmitDone`, given what `resume()` did; a `resume` that
      fails its own check fails the wrapper. */
  function ResumeMaybeEmitDone(resumed: Checked<bool>): (r: Checked<Completion>)
    ensures r.Ok? <==> resumed.Ok?
    ensures r.Ok? ==> r.value.result == resumed.value && (r.value.doneEmitted <==> resumed.value)
  {
    var ok :- resumed;
    Ok(if ok then Completion(true, true) else Completion(false, false))
  }

  /** The default `resume` reports that the thinker cannot be resumed: its
      `hopefullyNotReached` is fatal before it could return false. */
  function DefaultResume(): (r: Checked<bool>)
    ensures r.Fatal?
  {
    if Hopefully(false).Ok? then Ok(false) else Fatal
  }

  /** A thinker that keeps the default `resume` can never be resumed
      through the wrapper. */
  lemma DefaultResumeNeverCompletes()
    ensures ResumeMaybeEmitDone(DefaultResume()).Fatal?
  {
  }

  /** `onResumeThinking`, the slot the runner's `resumeThinking` signal is
      connected to: the affinity check, then the runner must be registered,
      and then the thinker's `resume()` is called directly, not through
      `resumeMaybeEmitDone`, so `done` is never emitted. `resumed` is what
      `resume()` did. */
  function OnResumeThinking(t: Thinker, current: ThreadId, runner: Option<Runner.State>, resumed: Checked<bool>): (r: Checked<Completion>)
    ensures r.Ok? <==> t.thread == current && runner.Some? && resumed.Ok?
    ensures r.Ok? ==> r.value.result == resumed.value && !r.value.doneEmitted
  {
    var _ :- HopefullyCurrentThreadIsThink(t, current);
    var _ :- Hopefully(runner.Some?);
    var done :- resumed;
    Ok(Completion(done, false))
  }

  /** Where the slot succeeds and `resume()` completes, the wrapper would
      have emitted `done` and the slot does not; otherwise both agree. */
  lemma ResumeSlotSkipsDone(t: Thinker, current: ThreadId, runner: Option<Runner.State>, resumed: Checked<bool>)
    requires OnResumeThinking(t, current, runner, resumed).Ok?
    ensures ResumeMaybeEmitDone(resumed).Ok?
    ensures ResumeMaybeEmitDone(resumed).value.result == OnResumeThinking(t, current, runner, resumed).value.result
    ensures (ResumeMaybeEmitDone(resumed).value.doneEmitted != OnResumeThinking(t, current, runner, resumed).value.doneEmitted) <==> resumed.value
  {
  }
}
