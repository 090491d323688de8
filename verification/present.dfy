/** `ThinkerPresentBase` and `ThinkerHolder` (src/thinkerpresent.cpp and
    include/thinkerqt/thinkerpresent.h): the reference-counted handle the
    manager gives out for a running thinker.

    A holder is a shared pointer, so it is modelled by the identity of the
    thinker it points at; a null holder is `None`. What the handle acts on
    is a `Target`: the thinker, and the state of its runner if the manager
    has one registered for it. */
module ThinkerPresent {
  import opened Common
  import opened Hoist
  import Runner = ThinkerRunner
  import TB = ThinkerBase

  type ThinkerId = nat

  /** `ThinkerHolder<T>`: a shared pointer to the thinker `thinker`. */
  datatype Holder = Holder(thinker: ThinkerId)

  datatype Present = Present(holder: Option<Holder>)

  /** The default constructor holds no thinker. */
  function DefaultPresent(): (p: Present)
    ensures p.holder.None?
  {
    Present(None)
  }

  /** The constructor the manager uses. */
  function PresentFor(h: Holder): (p: Present)
    ensures p.holder == Some(h)
  {
    Present(Some(h))
  }

  /** The copy constructor shares the other handle's holder. */
  function CopyPresent(other: Present): (p: Present)
    ensures Equal(p, other)
  {
    Present(other.holder)
  }

  /** `operator==`: two handles are equal when they hold the same pointer. */
  function Equal(a: Present, b: Present): (r: bool)
    ensures r <==> a.holder == b.holder
  {
    a.holder == b.holder
  }

  /** `operator!=`, defined by its own comparison of the holders. */
  function NotEqual(a: Present, b: Present): (r: bool)
    ensures r <==> a.holder != b.holder
  {
    a.holder != b.holder
  }

  /** The two operators are exact complements, and equality is an
      equivalence that identifies handles by the thinker they hold. */
  lemma EqualityIsHolderIdentity(a: Present, b: Present, c: Present)
    ensures NotEqual(a, b) <==> !Equal(a, b)
    ensures Equal(a, a)
    ensures Equal(a, b) ==> Equal(b, a)
    ensures Equal(a, b) && Equal(b, c) ==> Equal(a, c)
    ensures Equal(a, b) <==> a == b
    ensures Equal(DefaultPresent(), DefaultPresent())
  {
  }

  /** `operator=`: a self-assignment is skipped; otherwise the holder is
      copied. `sameObject` says the two are the very same handle. */
  function Assign(target: Present, other: Present, sameObject: bool): (r: Present)
    requires sameObject ==> target == other
    ensures sameObject ==> r == target
    ensures Equal(r, other)
  {
    if sameObject then target else Present(other.holder)
  }

  /** `getThinkerBase`: it checks that it runs on the manager's thread, which
      it finds through the holder, so a null holder is fatal too. */
  function GetThinkerBase(p: Present, managerThread: TB.ThreadId, current: TB.ThreadId): (r: Checked<ThinkerId>)
    ensures r.Ok? <==> p.holder.Some? && current == managerThread
    ensures r.Ok? ==> r.value == p.holder.value.thinker
  {
    var _ :- Hopefully(p.holder.Some?);
    var _ :- Hopefully(current == managerThread);
    Ok(p.holder.value.thinker)
  }

  /** The queries that the handle does not implement yet. */
  datatype Query = IsCanceled | IsFinished | IsPaused | IsRunning

  /** Every query answers false, whatever the handle holds; in particular a
      default handle does not report itself canceled. */
  function Ask(p: Present, q: Query): (r: bool)
    ensures !r
  {
    false
  }

  /** The thinker a handle acts on, and its runner's state if one is
      registered. */
  datatype Target = Target(thinker: TB.Thinker, runner: Option<Runner.State>)

  /** What `cancel` does besides changing state, in order. */
  datatype CancelEffect = BeforePresentDetach | CancelRequested(emitted: Signal)

  datatype CancelOutcome = CancelOutcome(target: Target, effects: seq<CancelEffect>)

  /** `cancel`: a no-op on an empty handle. Otherwise, on the manager's
      thread, the thinker's `beforePresentDetach` hook runs, and then its
      runner, if any, is asked to cancel with an already-canceled runner
      tolerated; with no runner, the thinker's own state becomes
      `Canceled`, whatever it was. A runner still initializing makes the
      request wait; the model takes the state it wakes up to. */
  function Cancel(p: Present, t: Target, managerThread: TB.ThreadId, current: TB.ThreadId): (r: Checked<CancelOutcome>)
    requires t.runner != Some(Runner.Initializing)
    ensures p.holder.None? ==> r == Ok(CancelOutcome(t, []))
    ensures p.holder.Some? ==>
              (r.Ok? <==> current == managerThread && (t.runner.None? || Runner.RequestCancelPre(t.runner.value, true)))
    ensures p.holder.Some? && r.Ok? ==> |r.value.effects| > 0 && r.value.effects[0] == BeforePresentDetach
    ensures p.holder.Some? && r.Ok? && t.runner.None? ==>
              r.value.target == Target(t.thinker.(state := TB.Canceled), None) && r.value.effects == [BeforePresentDetach]
    ensures p.holder.Some? && r.Ok? && t.runner.Some? ==>
              r.value.target.thinker == t.thinker
              && r.value.target.runner == Some(Runner.RequestCancelCore(t.runner.value, true).next)
              && |r.value.effects| == 2
  {
    if p.holder.None? then Ok(CancelOutcome(t, []))
    else
      var _ :- GetThinkerBase(p, managerThread, current);
      var detached := [BeforePresentDetach];
      match t.runner
      case None => Ok(CancelOutcome(Target(t.thinker.(state := TB.Canceled), None), detached))
      case Some(s) =>
        var _ :- Hopefully(Runner.RequestCancelPre(s, true));
        var req := Runner.RequestCancelCore(s, true);
        Ok(CancelOutcome(Target(t.thinker, Some(req.next)), detached + [CancelRequested(req.emitted)]))
  }

  /** After a successful cancel of a non-empty handle, the thinker is on its
      way to being canceled: its runner is canceled or canceling, or with no
      runner its own state is canceled. A second cancel is then harmless
      once the runner has settled. While the runner is still canceling, the
      intended transition check of its already-canceled-is-okay request
      rejects `Canceling`, so the second cancel is fatal here; the
      substitute check as written lets it through and breaks the event
      loop a second time. */
  lemma CancelLeadsToCanceled(p: Present, t: Target, managerThread: TB.ThreadId)
    requires p.holder.Some? && t.runner != Some(Runner.Initializing)
    requires Cancel(p, t, managerThread, managerThread).Ok?
    ensures var t' := Cancel(p, t, managerThread, managerThread).value.target;
            if t.runner.None? then t'.thinker.state == TB.Canceled
            else Runner.IsCanceled(t'.runner.value)
    ensures t.runner == Some(Runner.Thinking) ==>
              Cancel(p, Cancel(p, t, managerThread, managerThread).value.target, managerThread, managerThread).Fatal?
    ensures t.runner == Some(Runner.Thinking) ==>
              Runner.RequestCancelAsWritten(Cancel(p, t, managerThread, managerThread).value.target.runner.value, true).emitted == BreakEventLoop
    ensures t.runner.Some? && t.runner != Some(Runner.Thinking) ==>
              Cancel(p, Cancel(p, t, managerThread, managerThread).value.target, managerThread, managerThread).Ok?
  {
  }

  /** `waitForFinished`: the paused check (which the stubbed `isPaused`
      always passes), then `getThinkerBase`; with no runner there is nothing
      to wait for; a canceled or canceling runner is waited for until it is
      canceled; any other runner is asked to finish and waited for, which
      requires it to be thinking or finished. */
  function WaitForFinished(p: Present, t: Target, managerThread: TB.ThreadId, current: TB.ThreadId): (r: Checked<WaitPlan<Runner.State>>)
    ensures r.Ok? <==> (p.holder.Some? && current == managerThread
                        && (t.runner.None? || t.runner.value in {Runner.Canceling, Runner.Canceled, Runner.Thinking, Runner.Finished}))
    ensures r.Ok? && t.runner.None? ==> r.value.Proceed?
  {
    if Hopefully(!Ask(p, IsPaused)).Fatal? then Fatal
    else
      var _ :- GetThinkerBase(p, managerThread, current);
      match t.runner
      case None => Ok(Proceed)
      case Some(s) =>
        if Runner.IsCanceled(s) then Ok(Runner.WaitForCancel(s))
        else
          var _ :- Hopefully(s == Runner.Thinking || s == Runner.Finished);
          Ok(Runner.RequestFinishAndWaitForFinish(s))
  }

  /** When `waitForFinished` returns, the runner has settled: it returns at
      once only on a settled runner, and a wait accepts only settled
      states. */
  lemma WaitForFinishedEndsSettled(p: Present, t: Target, managerThread: TB.ThreadId)
    requires WaitForFinished(p, t, managerThread, managerThread).Ok? && t.runner.Some?
    ensures WaitForFinished(p, t, managerThread, managerThread).value.Proceed? ==> Runner.Settled(t.runner.value)
    ensures WaitForFinished(p, t, managerThread, managerThread).value.Block? ==>
              forall s :: s in WaitForFinished(p, t, managerThread, managerThread).value.accept ==> Runner.Settled(s)
  {
  }

  // ---------------------------------------------------------------------
  // The holder's deleter
  // ---------------------------------------------------------------------

  /** What `doDeleteLater` does with the thinker when the last reference
      goes. */
  datatype Deletion = DeleteNow | DeleteLater(owner: TB.ThreadId)

  /** A thinker is deleted inline on its own thread; from any other thread
      the deletion is posted to the thread that owns it. */
  function DoDeleteLater(thinkerThread: TB.ThreadId, current: TB.ThreadId): (r: Deletion)
    ensures r == DeleteNow <==> thinkerThread == current
    ensures r.DeleteLater? ==> r.owner == thinkerThread
  {
    if thinkerThread == current then DeleteNow else DeleteLater(thinkerThread)
  }

  /** The converting copy constructor: the new holder shares the same
      thinker. */
  function ConvertHolder(h: Holder): (r: Holder)
    ensures GetThinker(r) == GetThinker(h)
  {
    Holder(h.thinker)
  }

  /** `getThinker` and `getThinkerBase` on a holder both give the object it
      points at. */
  function GetThinker(h: Holder): (r: ThinkerId)
    ensures r == h.thinker
  {
    h.thinker
  }

  function HolderThinkerBase(h: Holder): (r: ThinkerId)
    ensures r == GetThinker(h)
  {
    h.thinker
  }

  datatype Dropped = Dropped(references: nat, target: Target, deletion: Option<Deletion>)

  /** Dropping one of `references` handles to a thinker: when the last one
      goes, the deleter runs; the thinker and its runner are left exactly as
      they were, so dropping the last handle does not cancel. */
  function DropPresent(references: nat, t: Target, current: TB.ThreadId): (r: Dropped)
    requires references > 0
    ensures r.references == references - 1
    ensures r.target == t
    ensures r.deletion.Some? <==> r.references == 0
    ensures r.deletion.Some? ==> r.deletion.value == DoDeleteLater(t.thinker.thread, current)
  {
    Dropped(references - 1, t, if references == 1 then Some(DoDeleteLater(t.thinker.thread, current)) else None)
  }

  /** Dropping every one of `references` handles to a thinker, one at a
      time: every drop before the last leaves the holder alive, untouched
      and not deleted; the last leaves no reference and deletes exactly
      once; and no drop changes the thinker or its runner, so none of them
      cancels. */
  lemma {:induction false} DroppingAllDoesNotCancel(references: nat, t: Target, current: TB.ThreadId)
    requires references > 0
    ensures |DropAll(references, t, current)| == references
    ensures forall i :: 0 <= i < references ==> DropAll(references, t, current)[i].target == t
    ensures forall i :: 0 <= i < references - 1 ==>
              DropAll(references, t, current)[i].references > 0 && DropAll(references, t, current)[i].deletion.None?
    ensures DropAll(references, t, current)[references - 1] == Dropped(0, t, Some(DoDeleteLater(t.thinker.thread, current)))
    decreases references
  {
    var trace := DropAll(references, t, current);
    if references > 1 {
      DroppingAllDoesNotCancel(references - 1, t, current);
      var rest := DropAll(references - 1, t, current);
      assert trace == [DropPresent(references, t, current)] + rest;
      forall i | 0 <= i < references
        ensures trace[i].target == t
        ensures i < references - 1 ==> trace[i].references > 0 && trace[i].deletion.None?
      {
        if i > 0 {
          assert trace[i] == rest[i - 1];
        }
      }
    }
  }

  /** What each drop gives, in order, when the `references` handles to a
      thinker are dropped one after another. */
  function DropAll(references: nat, t: Target, current: TB.ThreadId): (trace: seq<Dropped>)
    requires references > 0
    ensures |trace| > 0 && trace[0] == DropPresent(references, t, current)
    decreases references
  {
    var r := DropPresent(references, t, current);
    if r.references == 0 then [r] else [r] + DropAll(r.references, r.target, current)
  }
}
