/** `ThinkerManager` and `ThinkerRunnerBase` bookkeeping
    (src/thinkermanager.cpp and include/thinkerqt/thinkermanager.h).

    The manager lives on one thread (`home`). It keeps a map from each
    thinker to the `ThinkerThread` running it; each thread knows its thinker
    and is in one state of the `ThinkerThread` machine. The thinker-side
    state this file sets is the older `ThinkerObject` state, which it names
    `Aborted` and `DoneThinking`.

    A request to a thread that is still `Initializing` waits until the
    thread starts; the operations here require that no thread they touch is
    still starting. `deleteLater` is recorded as a thread joining the
    `doomed` set. */
module ThinkerManager {
  import opened Common
  import opened Hoist
  import TT = ThinkerThread

  type ThinkerId = nat
  type ThreadId = nat

  /** The thinker state the manager keeps. */
  datatype ObjectState = Thinking | DoneThinking | Aborted

  datatype ThinkerRec = ThinkerRec(state: ObjectState, attached: bool, thread: ThreadId)

  datatype ThreadRec = ThreadRec(thinker: ThinkerId, state: TT.State)

  datatype Manager = Manager(
    home: ThreadId,
    thinkers: map<ThinkerId, ThinkerRec>,
    threadFor: map<ThinkerId, ThreadId>,
    threads: map<ThreadId, ThreadRec>,
    doomed: set<ThreadId>)

  /** Every mapped thinker has a thread that knows it and was attached;
      every thread belongs to a known thinker. */
  ghost predicate Valid(m: Manager) {
    && (forall k :: k in m.threadFor ==>
          && k in m.thinkers
          && m.thinkers[k].attached
          && m.threadFor[k] in m.threads
          && m.threads[m.threadFor[k]].thinker == k)
    && (forall t :: t in m.threads ==> m.threads[t].thinker in m.thinkers)
  }

  /** The state of the thread mapped for `k`. */
  function StateOf(m: Manager, k: ThinkerId): TT.State
    requires Valid(m) && k in m.threadFor
  {
    m.threads[m.threadFor[k]].state
  }

  /** None of the mapped threads is still starting. */
  ghost predicate NoneStarting(m: Manager) {
    forall k :: k in m.threadFor && m.threadFor[k] in m.threads ==> m.threads[m.threadFor[k]].state != TT.Initializing
  }

  /** `hopefullyThreadIsManager`. */
  function HopefullyThreadIsManager(m: Manager, thread: ThreadId): (r: Checked<bool>)
    ensures r.Ok? <==> thread == m.home
  {
    Hopefully(thread == m.home)
  }

  /** `maybeCastToThinkerThread`: the thread itself if it is a thinker
      thread, otherwise null. */
  function MaybeCastToThinkerThread(m: Manager, thread: ThreadId): (r: Option<ThreadId>)
    ensures r.Some? <==> thread in m.threads
    ensures r.Some? ==> r.value == thread
  {
    if thread in m.threads then Some(thread) else None
  }

  /** `hopefullyThreadIsThinker`. */
  function HopefullyThreadIsThinker(m: Manager, thread: ThreadId): (r: Checked<bool>)
    ensures r.Ok? <==> thread in m.threads
  {
    Hopefully(MaybeCastToThinkerThread(m, thread).Some?)
  }

  /** `maybeGetThreadForThinker`. */
  function MaybeGetThreadForThinker(m: Manager, k: ThinkerId): (r: Option<ThreadId>)
    ensures r.None? <==> k !in m.threadFor
    ensures r.Some? ==> r.value == m.threadFor[k]
    ensures Valid(m) && r.Some? ==> r.value in m.threads && m.threads[r.value].thinker == k
  {
    if k in m.threadFor then Some(m.threadFor[k]) else None
  }

  /** `getThinkerForThread`: the pointer must not be null, and the thread
      gives back the thinker it runs. */
  function GetThinkerForThread(m: Manager, thread: Option<ThreadId>): (r: Checked<ThinkerId>)
    requires thread.Some? ==> thread.value in m.threads
    ensures r.Ok? <==> thread.Some?
    ensures r.Ok? ==> r.value == m.threads[thread.value].thinker
  {
    var _ :- Hopefully(thread.Some?);
    Ok(m.threads[thread.value].thinker)
  }

  /** Lookups by thinker and by thread are inverse: the thread found for a
      thinker is a thinker thread, and it leads back to that thinker. */
  lemma LookupsAgree(m: Manager, k: ThinkerId)
    requires Valid(m) && k in m.threadFor
    ensures MaybeCastToThinkerThread(m, MaybeGetThreadForThinker(m, k).value) == MaybeGetThreadForThinker(m, k)
    ensures GetThinkerForThread(m, MaybeGetThreadForThinker(m, k)) == Ok(k)
  {
  }

  // ---------------------------------------------------------------------
  // Attaching thinkers to runners
  // ---------------------------------------------------------------------

  /** `makeRunner` and `makeRunnerBase`, which differ only in the type of
      runner they return: on the manager's thread, a non-null thinker that
      was never attached is marked attached, and a new thread is made for
      it. The thread's constructor maps itself to the thinker and moves the
      thinker, which must still live on the manager's thread, onto itself. */
  function MakeRunner(m: Manager, current: ThreadId, thinker: Option<ThinkerId>, newThread: ThreadId): (r: Checked<Manager>)
    requires Valid(m)
    requires thinker.Some? ==> thinker.value in m.thinkers
    requires newThread !in m.threads
    ensures r.Ok? <==> current == m.home && thinker.Some?
                       && !m.thinkers[thinker.value].attached && m.thinkers[thinker.value].thread == m.home
    ensures r.Ok? ==> Valid(r.value)
    ensures r.Ok? ==> var k := thinker.value;
              && k in r.value.thinkers
              && r.value.thinkers[k].attached
              && r.value.thinkers[k].state == m.thinkers[k].state
              && MaybeGetThreadForThinker(r.value, k) == Some(newThread)
              && r.value.threads[newThread] == ThreadRec(k, TT.Initializing)
              && HopefullyThreadIsThinker(r.value, r.value.thinkers[k].thread).Ok?
    ensures r.Ok? ==> forall k :: k in m.threadFor ==> MaybeGetThreadForThinker(r.value, k) == MaybeGetThreadForThinker(m, k)
  {
    var _ :- HopefullyThreadIsManager(m, current);
    var _ :- Hopefully(thinker.Some?);
    var k := thinker.value;
    var _ :- Hopefully(!m.thinkers[k].attached);
    var _ :- Hopefully(m.thinkers[k].thread == m.home);
    Ok(m.(thinkers := m.thinkers[k := m.thinkers[k].(attached := true, thread := newThread)],
          threadFor := m.threadFor[k := newThread],
          threads := m.threads[newThread := ThreadRec(k, TT.Initializing)]))
  }

  /** A thinker can be attached once: a second attach fails, whatever
      thread it is given. */
  lemma AttachOnce(m: Manager, k: ThinkerId, first: ThreadId, second: ThreadId)
    requires Valid(m) && k in m.thinkers && first !in m.threads
    requires MakeRunner(m, m.home, Some(k), first).Ok?
    requires second !in MakeRunner(m, m.home, Some(k), first).value.threads
    ensures MakeRunner(MakeRunner(m, m.home, Some(k), first).value, m.home, Some(k), second).Fatal?
  {
  }

  // ---------------------------------------------------------------------
  // Iteration order
  // ---------------------------------------------------------------------

  /** The least element of a non-empty set of naturals. */
  lemma {:induction false} LeastElement(s: set<nat>) returns (x: nat)
    requires s != {}
    ensures x in s && forall y :: y in s ==> x <= y
    decreases |s|
  {
    var a :| a in s;
    var rest := s - {a};
    if rest == {} {
      x := a;
      forall y | y in s
        ensures x <= y
      {
        assert y in rest <==> y != a;
      }
    } else {
      var z := LeastElement(rest);
      x := if a < z then a else z;
      forall y | y in s
        ensures x <= y
      {
        if y != a {
          assert y in rest;
        }
      }
    }
  }

  lemma MinExists(s: set<nat>)
    requires s != {}
    ensures exists x :: x in s && forall y :: y in s ==> x <= y
  {
    var x := LeastElement(s);
    assert x in s && forall y :: y in s ==> x <= y;
  }

  function Min(s: set<nat>): (x: nat)
    requires s != {}
    ensures x in s && forall y :: y in s ==> x <= y
  {
    MinExists(s);
    var x :| x in s && forall y :: y in s ==> x <= y;
    x
  }

  /** The keys of a `QMap`, in the order its iterator visits them:
      ascending. */
  function Ascending(keys: set<nat>): (r: seq<nat>)
    ensures |r| == |keys|
    ensures forall i :: 0 <= i < |r| ==> r[i] in keys
    ensures forall k :: k in keys ==> k in r
    ensures forall i, j :: 0 <= i < j < |r| ==> r[i] < r[j]
    decreases |keys|
  {
    if keys == {} then []
    else
      var x := Min(keys);
      var rest := Ascending(keys - {x});
      PrependMin(x, rest, keys);
      [x] + rest
  }

  /** Putting the least key in front of the remaining keys, in order, gives
      all the keys in order. */
  lemma PrependMin(x: nat, rest: seq<nat>, keys: set<nat>)
    requires x in keys && forall y :: y in keys ==> x <= y
    requires |rest| == |keys - {x}|
    requires forall i :: 0 <= i < |rest| ==> rest[i] in keys - {x}
    requires forall k :: k in keys - {x} ==> k in rest
    requires forall i, j :: 0 <= i < j < |rest| ==> rest[i] < rest[j]
    ensures |[x] + rest| == |keys|
    ensures forall i :: 0 <= i < |[x] + rest| ==> ([x] + rest)[i] in keys
    ensures forall k :: k in keys ==> k in [x] + rest
    ensures forall i, j :: 0 <= i < j < |[x] + rest| ==> ([x] + rest)[i] < ([x] + rest)[j]
  {
    var r := [x] + rest;
    assert |keys - {x}| == |keys| - 1;
    forall i | 0 <= i < |r|
      ensures r[i] in keys
    {
      if i > 0 {
        assert r[i] == rest[i - 1];
      }
    }
    forall k | k in keys
      ensures k in r
    {
      if k != x {
        assert k in keys - {x};
      }
    }
    forall i, j | 0 <= i < j < |r|
      ensures r[i] < r[j]
    {
      assert r[j] == rest[j - 1];
      if i > 0 {
        assert r[i] == rest[i - 1];
      } else {
        assert rest[j - 1] in keys - {x};
      }
    }
  }

  function Order(m: Manager): (r: seq<ThinkerId>)
    ensures forall i :: 0 <= i < |r| ==> r[i] in m.threadFor
    ensures forall k :: k in m.threadFor ==> k in r
  {
    Ascending(m.threadFor.Keys)
  }

  /** The thread mapped for `k` would get past the checks of `entry`. */
  ghost predicate Accepts(m: Manager, k: ThinkerId, entry: TT.Entry)
    requires Valid(m) && k in m.threadFor
  {
    TT.EntryAccepts(StateOf(m, k), entry)
  }

  /** Every mapped thread would get past the checks of `entry`. */
  ghost predicate AllAccept(m: Manager, entry: TT.Entry)
    requires Valid(m)
  {
    forall k :: k in m.threadFor ==> Accepts(m, k, entry)
  }

  /** A call the manager makes on a thread or a thinker. */
  datatype Call =
    | OnThread(entry: TT.Entry, thread: ThreadId)
    | ResumeWait(resumed: ThreadId)
    | FinishWait(finishing: ThreadId)
    | AbortWait(aborting: ThreadId)
    | BeforeRunnerDetach(thinker: ThinkerId)

  predicate IsCall(c: Call, entry: TT.Entry) {
    c.OnThread? && c.entry == entry
  }

  /** Every call of `first` comes before every call of `second`. */
  ghost predicate Precedes(calls: seq<Call>, first: TT.Entry, second: TT.Entry) {
    forall i, j :: (0 <= i < |calls| && 0 <= j < |calls| && IsCall(calls[i], first) && IsCall(calls[j], second)) ==> i < j
  }

  // ---------------------------------------------------------------------
  // Pausing and resuming every thinker
  // ---------------------------------------------------------------------

  /** The mapped threads, in the key order of their thinkers. */
  function Threads(m: Manager): (ts: seq<ThreadId>)
    requires Valid(m)
    ensures |ts| == |Order(m)|
    ensures forall i :: 0 <= i < |ts| ==> ts[i] == m.threadFor[Order(m)[i]] && ts[i] in m.threads
  {
    var ts := Lookup(Order(m), m.threadFor);
    assert forall i :: 0 <= i < |ts| ==> ts[i] in m.threads by {
      forall i | 0 <= i < |ts|
        ensures ts[i] in m.threads
      {
        assert Order(m)[i] in m.threadFor;
      }
    }
    ts
  }

  /** The image of each of `keys` under `f`, in order. */
  function Lookup(keys: seq<ThinkerId>, f: map<ThinkerId, ThreadId>): (r: seq<ThreadId>)
    requires forall i :: 0 <= i < |keys| ==> keys[i] in f
    ensures |r| == |keys| && forall i :: 0 <= i < |keys| ==> r[i] == f[keys[i]]
  {
    seq(|keys|, i requires 0 <= i < |keys| => f[keys[i]])
  }

  /** The call `entry` made on each of `ts`, in order. */
  function Calls(ts: seq<ThreadId>, entry: TT.Entry): (r: seq<Call>)
    ensures |r| == |ts| && forall i :: 0 <= i < |ts| ==> r[i] == OnThread(entry, ts[i])
  {
    seq(|ts|, i requires 0 <= i < |ts| => OnThread(entry, ts[i]))
  }

  /** One pass over the threads `ts`: each must accept `entry`, and gets it.
      The pass stops at the first thread that does not. */
  method Pass(m: Manager, ts: seq<ThreadId>, entry: TT.Entry) returns (r: Checked<seq<Call>>)
    requires forall i :: 0 <= i < |ts| ==> ts[i] in m.threads
    ensures r.Ok? <==> forall i :: 0 <= i < |ts| ==> TT.EntryAccepts(m.threads[ts[i]].state, entry)
    ensures r.Ok? ==> r.value == Calls(ts, entry)
  {
    var calls: seq<Call> := [];
    var i := 0;
    while i < |ts|
      invariant 0 <= i <= |ts| && calls == Calls(ts[..i], entry)
      invariant forall j :: 0 <= j < i ==> TT.EntryAccepts(m.threads[ts[j]].state, entry)
    {
      if !TT.EntryAccepts(m.threads[ts[i]].state, entry) {
        return Fatal;
      }
      calls := calls + [OnThread(entry, ts[i])];
      i := i + 1;
    }
    assert ts[..i] == ts;
    r := Ok(calls);
  }

  /** A pass over `Threads` checks exactly every mapped thread. */
  lemma ThreadsCoverAll(m: Manager, entry: TT.Entry)
    requires Valid(m)
    ensures (forall i :: 0 <= i < |Threads(m)| ==> TT.EntryAccepts(m.threads[Threads(m)[i]].state, entry)) <==> AllAccept(m, entry)
  {
    var order := Order(m);
    var ts := Threads(m);
    if forall i :: 0 <= i < |ts| ==> TT.EntryAccepts(m.threads[ts[i]].state, entry) {
      forall k | k in m.threadFor
        ensures Accepts(m, k, entry)
      {
        var j :| 0 <= j < |order| && order[j] == k;
        assert TT.EntryAccepts(m.threads[ts[j]].state, entry);
      }
    }
    if AllAccept(m, entry) {
      forall i | 0 <= i < |ts|
        ensures TT.EntryAccepts(m.threads[ts[i]].state, entry)
      {
        assert Accepts(m, order[i], entry);
      }
    }
  }

  /** Calls of one pass followed by calls of another: every call of the
      first comes before every call of the second. */
  lemma PassesInSequence(ts: seq<ThreadId>, first: TT.Entry, second: TT.Entry)
    requires first != second
    ensures Precedes(Calls(ts, first) + Calls(ts, second), first, second)
  {
    var calls := Calls(ts, first) + Calls(ts, second);
    assert forall k :: 0 <= k < |ts| ==> calls[k] == OnThread(first, ts[k]);
    assert forall k :: |ts| <= k < |calls| ==> calls[k] == OnThread(second, ts[k - |ts|]);
  }

  /** `ensureThinkersPaused`: a first pass asks every mapped thread to pause
      (an aborted or aborting one is tolerated), and only then a second
      pass waits for each of them. Both passes go in key order. */
  method EnsureThinkersPaused(m: Manager, current: ThreadId) returns (r: Checked<seq<Call>>)
    requires Valid(m) && NoneStarting(m)
    ensures r.Ok? <==> current == m.home && AllAccept(m, TT.RequestPauseButAbortedIsOkay)
    ensures r.Ok? ==> r.value == Calls(Threads(m), TT.RequestPauseButAbortedIsOkay) + Calls(Threads(m), TT.WaitForPauseButAbortedIsOkay)
    ensures r.Ok? ==> Precedes(r.value, TT.RequestPauseButAbortedIsOkay, TT.WaitForPauseButAbortedIsOkay)
  {
    if current != m.home {
      return Fatal;
    }
    var ts := Threads(m);
    ThreadsCoverAll(m, TT.RequestPauseButAbortedIsOkay);
    var requests := Pass(m, ts, TT.RequestPauseButAbortedIsOkay);
    if requests.Fatal? {
      return Fatal;
    }
    PassesInSequence(ts, TT.RequestPauseButAbortedIsOkay, TT.WaitForPauseButAbortedIsOkay);
    r := Ok(requests.value + Calls(ts, TT.WaitForPauseButAbortedIsOkay));
  }

  /** The thread states once the first pass of `ensureThinkersPaused` has
      asked every mapped thread to pause. */
  function AfterPauseRequests(m: Manager): (r: map<ThreadId, TT.State>)
    requires Valid(m) && AllAccept(m, TT.RequestPauseButAbortedIsOkay)
    ensures r.Keys == m.threads.Keys
  {
    map t | t in m.threads ::
      var k := m.threads[t].thinker;
      if k in m.threadFor && m.threadFor[k] == t
      then TT.RequestPauseCore(m.threads[t].state, true).next
      else m.threads[t].state
  }

  /** The second pass never fails once the first has passed, and once it
      returns every mapped thread has got its code off the stack: it is
      paused, finished or aborted. */
  lemma PauseWaitsSucceed(m: Manager, k: ThinkerId)
    requires Valid(m) && AllAccept(m, TT.RequestPauseButAbortedIsOkay) && k in m.threadFor
    ensures TT.WaitForPausePre(AfterPauseRequests(m)[m.threadFor[k]], true)
    ensures var s := AfterPauseRequests(m)[m.threadFor[k]];
            var plan := TT.WaitForPauseCore(s, true);
            (plan.Proceed? ==> s in {TT.Paused, TT.Finished, TT.Aborted})
            && (plan.Block? ==> plan.accept <= {TT.Paused, TT.Finished, TT.Aborted})
  {
    assert Accepts(m, k, TT.RequestPauseButAbortedIsOkay);
  }

  /** `ensureThinkersResumed`: every mapped thread gets an aborted-okay
      resume request, in key order, and nothing else happens. */
  method EnsureThinkersResumed(m: Manager, current: ThreadId) returns (r: Checked<seq<Call>>)
    requires Valid(m) && NoneStarting(m)
    ensures r.Ok? <==> current == m.home && AllAccept(m, TT.RequestResumeButAbortedIsOkay)
    ensures r.Ok? ==> r.value == Calls(Threads(m), TT.RequestResumeButAbortedIsOkay)
  {
    if current != m.home {
      return Fatal;
    }
    ThreadsCoverAll(m, TT.RequestResumeButAbortedIsOkay);
    r := Pass(m, Threads(m), TT.RequestResumeButAbortedIsOkay);
  }

  /** Threads left paused, finished or aborted by `ensureThinkersPaused`
      all accept the resume of `ensureThinkersResumed`. */
  lemma PausedThreadsAcceptResume(s: TT.State)
    requires s in {TT.Paused, TT.Finished, TT.Aborted}
    ensures TT.EntryAccepts(s, TT.RequestResumeButAbortedIsOkay)
    ensures TT.RequestResumePre(s, true)
  {
  }

  // ---------------------------------------------------------------------
  // One thinker
  // ---------------------------------------------------------------------

  /** `requestAndWaitForAbortButAlreadyAbortedIsOkay`: with no thread, the
      thinker is simply marked aborted, on whatever thread `current` is;
      otherwise its thread, from the manager's thread only, is asked to
      abort (an aborted one is tolerated) and waited for until it is
      aborted, and then the thinker is marked aborted. */
  function RequestAndWaitForAbortOkay(m: Manager, k: ThinkerId, current: ThreadId): (r: Checked<Manager>)
    requires Valid(m) && k in m.thinkers && NoneStarting(m)
    ensures r.Ok? <==> k !in m.threadFor || (current == m.home && TT.RequestAbortPre(StateOf(m, k), true))
    ensures r.Ok? ==> Valid(r.value)
    ensures r.Ok? ==> r.value.threadFor == m.threadFor && r.value.threads.Keys == m.threads.Keys
    ensures r.Ok? ==> r.value.thinkers.Keys == m.thinkers.Keys
    ensures r.Ok? ==> r.value.thinkers[k].state == Aborted
    ensures r.Ok? && k in m.threadFor ==> StateOf(r.value, k) == TT.Aborted
    ensures r.Ok? ==> forall j :: j in m.thinkers && j != k ==> r.value.thinkers[j] == m.thinkers[j]
  {
    var marked := m.thinkers[k := m.thinkers[k].(state := Aborted)];
    match MaybeGetThreadForThinker(m, k)
    case None => Ok(m.(thinkers := marked))
    case Some(t) =>
      var _ :- HopefullyThreadIsManager(m, current);
      var s := m.threads[t].state;
      var _ :- Hopefully(TT.RequestAbortPre(s, true));
      var requested := TT.RequestAbortCore(s, true).next;
      var plan := TT.WaitForAbort(requested);
      var settled := if plan.Proceed? then requested else TT.Aborted;
      Ok(m.(thinkers := marked, threads := m.threads[t := m.threads[t].(state := settled)]))
  }

  /** The thread operations `ensureThinkerFinished` goes through once the
      thinker is not done and has a thread. */
  function FinishCalls(t: ThreadId): (calls: seq<Call>)
    ensures |calls| == 3 && calls[0].OnThread? && calls[0].entry == TT.RequestResume
  {
    [OnThread(TT.RequestResume, t), ResumeWait(t), FinishWait(t)]
  }

  /** `ensureThinkerFinished`: on the manager's thread, a thinker that is not
      done and has a thread must not have an aborted thread; the thread is
      asked for `isComplete`, resumed (plain, so its pause wait must accept
      it), waited for until it resumes, and waited for until it finishes.
      Either way the thinker must not be aborted. */
  function EnsureThinkerFinished(m: Manager, k: ThinkerId, current: ThreadId): (r: Checked<seq<Call>>)
    requires Valid(m) && k in m.thinkers
    ensures r.Ok? ==> current == m.home && m.thinkers[k].state != Aborted
    ensures r.Ok? && m.thinkers[k].state != DoneThinking && k in m.threadFor ==>
              !TT.IsAborted(StateOf(m, k)) && r.value == FinishCalls(m.threadFor[k])
    ensures r.Ok? <==> current == m.home && m.thinkers[k].state != Aborted
                       && (m.thinkers[k].state == DoneThinking || k !in m.threadFor
                           || (!TT.IsAborted(StateOf(m, k)) && TT.WaitForPausePre(StateOf(m, k), false)))
    ensures r.Ok? && (m.thinkers[k].state == DoneThinking || k !in m.threadFor) ==> r.value == []
  {
    var _ :- HopefullyThreadIsManager(m, current);
    var calls :-
      if m.thinkers[k].state != DoneThinking && k in m.threadFor then
        var t := m.threadFor[k];
        var s := m.threads[t].state;
        var _ :- Hopefully(!TT.IsAborted(s));
        var _ :- TT.IsCompleteAsWritten(s);
        var _ :- Hopefully(TT.WaitForPausePre(s, false));
        Ok(FinishCalls(t))
      else Ok([]);
    var _ :- Hopefully(m.thinkers[k].state != Aborted);
    Ok(calls)
  }

  /** The calls of `ensureThinkerFinished` chain: whatever state the pause
      wait inside the resume leaves, the resume is accepted; the state it
      leaves is one `waitForResume` accepts; and once that wait ends with
      the thread thinking or finished, the finish wait is accepted and can
      only end finished. */
  lemma FinishCallsChain(s: TT.State, p: TT.State, w: TT.State)
    requires !TT.IsAborted(s) && TT.WaitForPausePre(s, false)
    requires TT.WaitForPauseCore(s, false).Proceed? ==> p == s
    requires TT.WaitForPauseCore(s, false).Block? ==> p in TT.WaitForPauseCore(s, false).accept
    ensures TT.RequestResumePre(p, false)
    ensures var q := TT.RequestResumeCore(p, false).next;
            q in {TT.Continuing, TT.Finished}
            && (TT.WaitForResume(q).Block? && w in TT.WaitForResume(q).accept && w != TT.Continuing ==>
                  TT.RequestFinishAndWaitForFinish(w).Proceed? || TT.RequestFinishAndWaitForFinish(w).accept == {TT.Finished})
  {
  }

  /** `onThreadFinished`: on the manager's thread, for a sender that is a
      thinker thread, an aborted thread marks its thinker aborted; otherwise
      a complete one marks it done; any other state is unreachable. The
      thread is then scheduled for deletion. */
  function OnThreadFinished(m: Manager, t: ThreadId, current: ThreadId): (r: Checked<Manager>)
    requires Valid(m)
    ensures r.Ok? <==> current == m.home && t in m.threads && TT.Settled(m.threads[t].state)
    ensures r.Ok? ==> Valid(r.value)
    ensures r.Ok? ==> var k := m.threads[t].thinker;
              && k in r.value.thinkers
              && r.value.thinkers[k].state == (if TT.IsAborted(m.threads[t].state) then Aborted else DoneThinking)
              && r.value.doomed == m.doomed + {t}
              && r.value.threads == m.threads && r.value.threadFor == m.threadFor
  {
    var _ :- HopefullyThreadIsManager(m, current);
    var _ :- Hopefully(t in m.threads);
    var rec := m.threads[t];
    var next :-
      if TT.IsAborted(rec.state) then Ok(Aborted)
      else
        var complete :- TT.IsCompleteAsWritten(rec.state);
        if complete then Ok(DoneThinking) else Fatal;
    Ok(m.(thinkers := m.thinkers[rec.thinker := m.thinkers[rec.thinker].(state := next)], doomed := m.doomed + {t}))
  }

  /** A thread whose run loop has ended is settled, so the manager's
      handler for its `finished` signal always succeeds on it. */
  lemma FinishedThreadIsHandled(m: Manager, t: ThreadId, a: TT.Action)
    requires Valid(m) && t in m.threads && TT.Enabled(m.threads[t].state, a)
    requires (a.WorkerLoops? && TT.LoopStep(m.threads[t].state).cont == Exit)
          || (a.WorkerWakes? && TT.AfterWake(m.threads[t].state, a.able).cont == Exit)
    ensures var m' := m.(threads := m.threads[t := m.threads[t].(state := TT.Apply(m.threads[t].state, a))]);
            OnThreadFinished(m', t, m.home).Ok?
  {
    var m' := m.(threads := m.threads[t := m.threads[t].(state := TT.Apply(m.threads[t].state, a))]);
    assert Valid(m');
  }

  datatype Detached = Detached(manager: Manager, calls: seq<Call>)

  /** `~ThinkerRunnerBase`: the thinker's `beforeRunnerDetach` hook runs;
      then, only if a thread is mapped for it, that thread is asked to abort
      with an aborted thread tolerated; that request must come from the
      manager's thread. The thinker stays marked attached. */
  function RunnerBaseDestroyed(m: Manager, k: ThinkerId, current: ThreadId): (r: Checked<Detached>)
    requires Valid(m) && k in m.thinkers && NoneStarting(m)
    ensures r.Ok? <==> k !in m.threadFor || (current == m.home && TT.RequestAbortPre(StateOf(m, k), true))
    ensures r.Ok? && k !in m.threadFor ==> r.value == Detached(m, [BeforeRunnerDetach(k)])
    ensures r.Ok? ==> Valid(r.value.manager)
    ensures r.Ok? && k in m.threadFor ==>
              && r.value.calls == [BeforeRunnerDetach(k), OnThread(TT.RequestAbortButAlreadyAbortedIsOkay, m.threadFor[k])]
              && r.value.manager.thinkers == m.thinkers && r.value.manager.threadFor == m.threadFor
              && StateOf(r.value.manager, k) == TT.RequestAbortCore(StateOf(m, k), true).next
  {
    var hooked := [BeforeRunnerDetach(k)];
    match MaybeGetThreadForThinker(m, k)
    case None => Ok(Detached(m, hooked))
    case Some(t) =>
      var _ :- HopefullyThreadIsManager(m, current);
      var s := m.threads[t].state;
      var _ :- Hopefully(TT.RequestAbortPre(s, true));
      var next := TT.RequestAbortCore(s, true).next;
      Ok(Detached(m.(threads := m.threads[t := m.threads[t].(state := next)]),
                  hooked + [OnThread(TT.RequestAbortButAlreadyAbortedIsOkay, t)]))
  }

  /** Dropping the runner of a thinker whose thread is thinking starts an
      abort, and a manager-side abort and wait that follows it succeeds and
      leaves both aborted. */
  lemma DetachThenAbortSettles(m: Manager, k: ThinkerId)
    requires Valid(m) && k in m.thinkers && NoneStarting(m) && k in m.threadFor
    requires StateOf(m, k) == TT.Thinking
    ensures RunnerBaseDestroyed(m, k, m.home).Ok?
    ensures StateOf(RunnerBaseDestroyed(m, k, m.home).value.manager, k) == TT.Aborting
  {
  }

  /** `~ThinkerManager`: on the manager's thread, every mapped thread is
      waited for until it is aborted, in key order; each must already be
      aborting or aborted. */
  function ManagerDestroyed(m: Manager, current: ThreadId): (r: Checked<seq<Call>>)
    requires Valid(m)
    ensures r.Ok? <==> current == m.home && forall k :: k in m.threadFor ==> StateOf(m, k) in {TT.Aborting, TT.Aborted}
    ensures r.Ok? ==> r.value == AbortWaits(Threads(m))
  {
    var _ :- HopefullyThreadIsManager(m, current);
    var _ :- Hopefully(forall k | k in m.threadFor :: StateOf(m, k) in {TT.Aborting, TT.Aborted});
    Ok(AbortWaits(Threads(m)))
  }

  /** A wait for the abort of each of `ts`, in order. */
  function AbortWaits(ts: seq<ThreadId>): (r: seq<Call>)
    ensures |r| == |ts| && forall i :: 0 <= i < |ts| ==> r[i] == AbortWait(ts[i])
  {
    seq(|ts|, i requires 0 <= i < |ts| => AbortWait(ts[i]))
  }

  /** Once the manager's destructor has waited on them, all threads are
      aborted; and a thinker that went through the manager's abort-and-wait
      leaves its thread in a state the destructor accepts. */
  lemma DestroyedLeavesAllAborted(m: Manager, k: ThinkerId)
    requires Valid(m) && ManagerDestroyed(m, m.home).Ok? && k in m.threadFor
    ensures TT.WaitForAbort(StateOf(m, k)).Proceed? ==> StateOf(m, k) == TT.Aborted
    ensures TT.WaitForAbort(StateOf(m, k)).Block? ==> TT.WaitForAbort(StateOf(m, k)).accept == {TT.Aborted}
  {
    assert StateOf(m, k) in {TT.Aborting, TT.Aborted};
  }

  lemma AbortedThinkersPassDestruction(m: Manager, k: ThinkerId, current: ThreadId)
    requires Valid(m) && k in m.thinkers && NoneStarting(m) && k in m.threadFor
    requires RequestAndWaitForAbortOkay(m, k, current).Ok?
    ensures current == m.home
    ensures StateOf(RequestAndWaitForAbortOkay(m, k, current).value, k) in {TT.Aborting, TT.Aborted}
  {
  }
}
