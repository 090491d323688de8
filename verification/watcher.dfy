/** `ThinkerPresentWatcherBase` (src/thinkerpresentwatcher.cpp): an object
    that follows one thinker through a `ThinkerPresent` handle, with a
    throttler for its `written()` notifications. Each thinker keeps the set
    of watchers following it; the model keeps those sets in a `Registry`
    keyed by thinker. The write lock around each set is not modelled: each
    change to a set is one step. */
module PresentWatcher {
  import opened Common
  import opened Hoist
  import P = ThinkerPresent
  import TB = ThinkerBase
  import ST = SignalThrottler

  type WatcherId = nat

  /** The throttle time a watcher starts with. */
  const DefaultMilliseconds: ST.Unsigned := 200

  /** `milliseconds` is the watcher's `unsigned int` throttle time. */
  datatype Watcher = Watcher(id: WatcherId, present: P.Present, ms: ST.Unsigned, throttler: Option<ST.Throttler>)

  /** Each thinker's `watchers` set. */
  type Registry = map<P.ThinkerId, set<WatcherId>>

  function WatchersOf(reg: Registry, k: P.ThinkerId): set<WatcherId> {
    if k in reg then reg[k] else {}
  }

  /** The watcher is in the set of the thinker its handle holds, and in no
      other set. */
  ghost predicate Registered(w: Watcher, reg: Registry) {
    forall k :: w.id in WatchersOf(reg, k) <==> (w.present.holder.Some? && k == w.present.holder.value.thinker)
  }

  /** The watcher is in no thinker's set. */
  ghost predicate Unlisted(id: WatcherId, reg: Registry) {
    forall k :: id !in WatchersOf(reg, k)
  }

  /** The default constructor: an empty handle, 200 ms, no throttler. */
  function NewWatcher(id: WatcherId): (w: Watcher)
    ensures w.present.holder.None? && w.ms == DefaultMilliseconds && w.throttler.None?
    ensures forall reg :: Unlisted(id, reg) ==> Registered(w, reg)
  {
    Watcher(id, P.DefaultPresent(), DefaultMilliseconds, None)
  }

  /** The constructor from a handle: it reaches the thinker through the
      handle to parent a new throttler to it, but it does not add the
      watcher to the thinker's set. */
  function NewWatcherFor(id: WatcherId, p: P.Present, managerThread: TB.ThreadId, current: TB.ThreadId): (r: Checked<Watcher>)
    ensures r.Ok? <==> P.GetThinkerBase(p, managerThread, current).Ok?
    ensures r.Ok? ==> r.value.present == p && r.value.ms == DefaultMilliseconds
    ensures r.Ok? ==> r.value.throttler == Some(ST.Throttler(None, None, DefaultMilliseconds))
  {
    var _ :- P.GetThinkerBase(p, managerThread, current);
    Ok(Watcher(id, p, DefaultMilliseconds, Some(ST.NewThrottler(DefaultMilliseconds))))
  }

  datatype Placed = Placed(watcher: Watcher, registry: Registry)

  /** `setPresentBase` as written. An equal handle changes nothing. The
      handle is replaced; an empty one drops the throttler; a non-empty one
      gets a new throttler, and the watcher, which must not be in the new
      thinker's set yet, is added to it. The set of the thinker it watched
      before is left alone. */
  function SetPresentBase(w: Watcher, p: P.Present, reg: Registry, managerThread: TB.ThreadId, current: TB.ThreadId): (r: Checked<Placed>)
    ensures P.Equal(w.present, p) ==> r == Ok(Placed(w, reg))
    ensures !P.Equal(w.present, p) && p.holder.None? ==>
              r == Ok(Placed(w.(present := p, throttler := None), reg))
    ensures !P.Equal(w.present, p) && p.holder.Some? ==>
              (r.Ok? <==> current == managerThread && w.id !in WatchersOf(reg, p.holder.value.thinker))
    ensures !P.Equal(w.present, p) && p.holder.Some? && r.Ok? ==>
              && r.value.watcher == w.(present := p, throttler := Some(ST.NewThrottler(w.ms)))
              && WatchersOf(r.value.registry, p.holder.value.thinker) == WatchersOf(reg, p.holder.value.thinker) + {w.id}
              && (forall k :: k != p.holder.value.thinker ==> WatchersOf(r.value.registry, k) == WatchersOf(reg, k))
  {
    if P.Equal(w.present, p) then Ok(Placed(w, reg))
    else if p.holder.None? then Ok(Placed(w.(present := p, throttler := None), reg))
    else
      var th := ST.NewThrottler(w.ms);
      var k :- P.GetThinkerBase(p, managerThread, current);
      var _ :- Hopefully(w.id !in WatchersOf(reg, k));
      Ok(Placed(w.(present := p, throttler := Some(th)), reg[k := WatchersOf(reg, k) + {w.id}]))
  }

  /** `removeFromThinkerWatchers`: a no-op on an empty handle; otherwise the
      watcher must be in its thinker's set, is removed from it, and is left
      with an empty handle. The throttler is kept. */
  function RemoveFromThinkerWatchers(w: Watcher, reg: Registry, managerThread: TB.ThreadId, current: TB.ThreadId): (r: Checked<Placed>)
    ensures w.present.holder.None? ==> r == Ok(Placed(w, reg))
    ensures w.present.holder.Some? ==>
              (r.Ok? <==> current == managerThread && w.id in WatchersOf(reg, w.present.holder.value.thinker))
    ensures w.present.holder.Some? && r.Ok? ==>
              && r.value.watcher == w.(present := P.DefaultPresent())
              && WatchersOf(r.value.registry, w.present.holder.value.thinker) == WatchersOf(reg, w.present.holder.value.thinker) - {w.id}
              && (forall k :: k != w.present.holder.value.thinker ==> WatchersOf(r.value.registry, k) == WatchersOf(reg, k))
  {
    if w.present.holder.None? then Ok(Placed(w, reg))
    else
      var k :- P.GetThinkerBase(w.present, managerThread, current);
      var _ :- Hopefully(w.id in WatchersOf(reg, k));
      Ok(Placed(w.(present := P.DefaultPresent()), reg[k := WatchersOf(reg, k) - {w.id}]))
  }

  /** The destructor removes the watcher from its thinker's set. */
  function Destroy(w: Watcher, reg: Registry, managerThread: TB.ThreadId, current: TB.ThreadId): (r: Checked<Registry>)
    ensures r.Ok? <==> RemoveFromThinkerWatchers(w, reg, managerThread, current).Ok?
    ensures r.Ok? ==> r.value == RemoveFromThinkerWatchers(w, reg, managerThread, current).value.registry
  {
    var placed :- RemoveFromThinkerWatchers(w, reg, managerThread, current);
    Ok(placed.registry)
  }

  /** `setThrottleTime`: the time is always stored, and passed on as the
      new default only when there is a throttler. */
  function SetThrottleTime(w: Watcher, ms: ST.Unsigned): (r: Watcher)
    ensures w.throttler.None? ==> r == w.(ms := ms)
    ensures r.ms == ms && r.id == w.id && r.present == w.present
    ensures r.throttler.Some? <==> w.throttler.Some?
    ensures r.throttler.Some? ==>
              && ST.DefaultMs(r.throttler.value) == ms
              && r.throttler.value.lastEmit == w.throttler.value.lastEmit
              && r.throttler.value.nextEmit == w.throttler.value.nextEmit
  {
    match w.throttler
    case None => w.(ms := ms)
    case Some(th) => w.(ms := ms, throttler := Some(ST.SetMillisecondsDefault(th, ms)))
  }

  /** The watcher's stored time is the default of its throttler, when it
      has one. */
  predicate ThrottleSynced(w: Watcher) {
    w.throttler.Some? ==> ST.DefaultMs(w.throttler.value) == w.ms
  }

  /** After `setThrottleTime` the throttler's default is the watcher's
      time, and of two calls in a row only the last one counts. */
  lemma SetThrottleTimeLastWins(w: Watcher, a: ST.Unsigned, b: ST.Unsigned)
    ensures ThrottleSynced(SetThrottleTime(w, a))
    ensures SetThrottleTime(SetThrottleTime(w, a), b) == SetThrottleTime(w, b)
  {
  }

  /** `setPresentBase` with the missing step put back: the watcher leaves
      the set of the thinker it watched before it joins the new one. */
  function SetPresentBaseDetaching(w: Watcher, p: P.Present, reg: Registry, managerThread: TB.ThreadId, current: TB.ThreadId): (r: Checked<Placed>)
    ensures P.Equal(w.present, p) ==> r == Ok(Placed(w, reg))
    ensures r.Ok? ==> r.value.watcher.present == p && r.value.watcher.id == w.id
  {
    if P.Equal(w.present, p) then Ok(Placed(w, reg))
    else
      var left :- RemoveFromThinkerWatchers(w, reg, managerThread, current);
      SetPresentBase(left.watcher, p, left.registry, managerThread, current)
  }

  /** With the detaching version, a registered watcher stays registered
      whatever handle it is given on the manager's thread. */
  lemma DetachingKeepsRegistration(w: Watcher, p: P.Present, reg: Registry, managerThread: TB.ThreadId)
    requires Registered(w, reg)
    ensures SetPresentBaseDetaching(w, p, reg, managerThread, managerThread).Ok?
    ensures Registered(SetPresentBaseDetaching(w, p, reg, managerThread, managerThread).value.watcher,
                       SetPresentBaseDetaching(w, p, reg, managerThread, managerThread).value.registry)
  {
    var r := SetPresentBaseDetaching(w, p, reg, managerThread, managerThread);
    if !P.Equal(w.present, p) {
      var left := RemoveFromThinkerWatchers(w, reg, managerThread, managerThread);
      assert left.Ok?;
      var l := left.value;
      assert Unlisted(w.id, l.registry) by {
        forall k
          ensures w.id !in WatchersOf(l.registry, k)
        {
          if w.present.holder.Some? && k != w.present.holder.value.thinker {
            assert WatchersOf(l.registry, k) == WatchersOf(reg, k);
          }
        }
      }
      var placed := SetPresentBase(l.watcher, p, l.registry, managerThread, managerThread);
      assert placed.Ok?;
      forall k
        ensures w.id in WatchersOf(r.value.registry, k) <==> (p.holder.Some? && k == p.holder.value.thinker)
      {
        if p.holder.Some? && k != p.holder.value.thinker {
          assert WatchersOf(r.value.registry, k) == WatchersOf(l.registry, k);
        }
      }
    }
  }

  /** A registered watcher can always be destroyed, and afterwards no set
      names it. */
  lemma RegisteredWatcherDestroysCleanly(w: Watcher, reg: Registry, managerThread: TB.ThreadId)
    requires Registered(w, reg)
    ensures Destroy(w, reg, managerThread, managerThread).Ok?
    ensures Unlisted(w.id, Destroy(w, reg, managerThread, managerThread).value)
  {
    var r := Destroy(w, reg, managerThread, managerThread).value;
    forall k
      ensures w.id !in WatchersOf(r, k)
    {
      if w.present.holder.Some? && k != w.present.holder.value.thinker {
        assert WatchersOf(r, k) == WatchersOf(reg, k);
      }
    }
  }

  /** As written, moving a registered watcher from thinker `a` to thinker
      `b` leaves it in both sets; destroying it then leaves `a`'s set
      naming a watcher that no longer exists; and moving it back to `a` is
      fatal, because it is still in `a`'s set. */
  lemma RetargetLeavesStaleEntry(w: Watcher, a: P.Holder, b: P.Holder, reg: Registry, managerThread: TB.ThreadId)
    requires w.present == P.PresentFor(a) && a.thinker != b.thinker
    requires Registered(w, reg)
    ensures SetPresentBase(w, P.PresentFor(b), reg, managerThread, managerThread).Ok?
    ensures var moved := SetPresentBase(w, P.PresentFor(b), reg, managerThread, managerThread).value;
            && w.id in WatchersOf(moved.registry, a.thinker)
            && w.id in WatchersOf(moved.registry, b.thinker)
            && !Registered(moved.watcher, moved.registry)
            && Destroy(moved.watcher, moved.registry, managerThread, managerThread).Ok?
            && w.id in WatchersOf(Destroy(moved.watcher, moved.registry, managerThread, managerThread).value, a.thinker)
            && SetPresentBase(moved.watcher, P.PresentFor(a), moved.registry, managerThread, managerThread).Fatal?
  {
    assert w.id in WatchersOf(reg, a.thinker);
    assert w.id !in WatchersOf(reg, b.thinker);
  }
}
