/** Small value types shared by the models of the Thinker-Qt core. */
module Common {

  /** A value that may be absent: a null pointer, a null `QTime`, an
      empty shared pointer. */
  datatype Option<+T> = None | Some(value: T)

  /** What a coordinating call does at the point where the source calls
      `QWaitCondition::wait`: either it goes on at once, or it blocks until
      the other thread changes the state, and then checks that the state it
      wakes up to is one of `accept`. */
  datatype WaitPlan<S> = Proceed | Block(accept: set<S>)

  /** How a timed `QWaitCondition::wait(&mutex, time)` ended: the timeout
      ran out, or another thread signalled and left the state `observed`. */
  datatype TimedWait<S> = TimedOut | Woken(observed: S)

  /** The outcome of `pollForStopException`: it returns normally, or it
      throws the runner's `StopException`. */
  datatype Poll = Returned | Raised

  /** What the worker's run loop does after a step: leave the loop, wait in
      `Paused` for the coordinator, or go on running the thinker. */
  datatype Continuation = Exit | Park | Continue

  /** The state a worker-side critical section leaves, and what the run
      loop does next. */
  datatype WorkerStep<S> = WorkerStep(next: S, cont: Continuation)

  /** The state `markFinished` leaves, and whether it asked the event loop
      to quit. */
  datatype Marked<S> = Marked(next: S, quit: bool)

  /** The signal a coordinator request emits while it holds the mutex:
      none, `breakEventLoop`, or the resume signal (`resumeThinking` on a
      runner, `continueThinking` on a thread). */
  datatype Signal = Silent | BreakEventLoop | ResumeThinking

  datatype Request<S> = Request(next: S, emitted: Signal)
}
