/** `SignalThrottler` (src/signalthrottler.cpp and
    include/thinkerqt/signalthrottler.h): a single-shot timer that
    remembers when it last emitted `throttled()` and when it is next due to.

    Times are whole milliseconds on one clock that never wraps; a null
    `QTime` is `None`. The `QTimer` is running exactly when `nextEmit` is
    set, so the timer is not modelled separately: its firing is the
    `OnTimeout` step, taken when the clock reaches `nextEmit`. */
module SignalThrottler {
  import opened Common
  import opened Hoist

  /** Below this many milliseconds of wait, `emitThrottled` emits at once
      instead of starting the timer. */
  const Overhead: int := 5

  /** The largest `int`. */
  const IntMax: int := 0x7FFF_FFFF

  /** The values of an `unsigned int`. */
  type Unsigned = x: int | 0 <= x < 0x1_0000_0000

  /** The values of an `int`. */
  type Int32 = x: int | -0x8000_0000 <= x <= 0x7FFF_FFFF

  /** `cast_hopefully<int>` of an unsigned. The substitute's cast is a
      plain `static_cast` and checks nothing: on a two's-complement target
      a value above `INT_MAX` comes out negative. */
  function ToInt(u: Unsigned): (i: Int32)
    ensures i >= 0 <==> u <= IntMax
    ensures i >= 0 ==> i == u
  {
    if u <= IntMax then u else u - 0x1_0000_0000
  }

  /** The implicit conversion of an `int` back to `unsigned int`, modulo
      2^32. */
  function ToUnsigned(i: Int32): (u: Unsigned)
    ensures i >= 0 ==> u == i
  {
    if i >= 0 then i else i + 0x1_0000_0000
  }

  /** The two conversions are inverse: an unsigned stored in an `int` comes
      back unchanged, however large it was. */
  lemma CastsRoundTrip(u: Unsigned, i: Int32)
    ensures ToUnsigned(ToInt(u)) == u
    ensures ToInt(ToUnsigned(i)) == i
  {
  }

  /** `lastEmit` is `None` if the throttler never emitted; `nextEmit` is
      `None` if no emit is scheduled. `msDefault` is the `int` the default
      is stored in. */
  datatype Throttler = Throttler(lastEmit: Option<int>, nextEmit: Option<int>, msDefault: Int32)

  /** The time `emitThrottled()` passes on: the stored default, converted
      back to `unsigned int`. */
  function DefaultMs(th: Throttler): Unsigned {
    ToUnsigned(th.msDefault)
  }

  /** The constructor: nothing emitted or scheduled yet. Every default is
      accepted; one above `INT_MAX` is stored as a negative `int`, and a
      call without a time still gets the default back unchanged. */
  function NewThrottler(ms: Unsigned): (th: Throttler)
    ensures th.lastEmit.None? && th.nextEmit.None?
    ensures DefaultMs(th) == ms
    ensures th.msDefault < 0 <==> ms > IntMax
  {
    Throttler(None, None, ToInt(ms))
  }

  /** `setMillisecondsDefault` replaces the default and nothing else; like
      the constructor it accepts every unsigned. */
  function SetMillisecondsDefault(th: Throttler, ms: Unsigned): (r: Throttler)
    ensures DefaultMs(r) == ms
    ensures r.msDefault < 0 <==> ms > IntMax
    ensures r.lastEmit == th.lastEmit && r.nextEmit == th.nextEmit
  {
    th.(msDefault := ToInt(ms))
  }

  datatype Emitted = Emitted(th: Throttler, emitted: bool)

  /** `emitThrottled(ms)` called at time `now`. The emit is due at `ms`
      after the last one (at once if there was none). If that is less than
      the overhead away, any scheduled emit is cancelled and the signal is
      emitted now; otherwise the emit is scheduled for then, unless one is
      already scheduled no later. */
  function EmitThrottled(th: Throttler, now: int, ms: nat): (r: Emitted)
    ensures th.lastEmit.None? ==> r.emitted
    ensures r.emitted ==> r.th.lastEmit == Some(now) && r.th.nextEmit.None?
    ensures r.emitted <==> th.lastEmit.None? || th.lastEmit.value + ms - now < Overhead
    ensures !r.emitted ==> r.th.lastEmit == th.lastEmit && r.th.nextEmit.Some?
    ensures !r.emitted ==> r.th.nextEmit.value <= th.lastEmit.value + ms
    ensures !r.emitted && r.th.nextEmit != th.nextEmit ==>
              r.th.nextEmit == Some(th.lastEmit.value + ms) && r.th.nextEmit.value >= now + Overhead
    ensures !r.emitted && th.nextEmit.Some? ==> r.th.nextEmit.value <= th.nextEmit.value
    ensures (th.lastEmit.None? || th.lastEmit.value <= now) ==>
              r.emitted || r.th.nextEmit.value <= now + ms
    ensures r.th.msDefault == th.msDefault
  {
    var worst := if th.lastEmit.None? then now else th.lastEmit.value + ms;
    var delta := worst - now;
    if delta < Overhead then
      Emitted(th.(lastEmit := Some(now), nextEmit := None), true)
    else if th.nextEmit.None? || th.nextEmit.value > worst then
      Emitted(th.(nextEmit := Some(worst)), false)
    else
      Emitted(th, false)
  }

  /** `emitThrottled()` uses the current default. */
  function EmitThrottledDefault(th: Throttler, now: int): Emitted {
    EmitThrottled(th, now, DefaultMs(th))
  }

  /** Once the default is set to `ms`, whatever unsigned it is, a call
      without a time behaves as a call with `ms` made before the change,
      and the change is kept. */
  lemma DefaultCallUsesSetDefault(th: Throttler, now: int, ms: Unsigned)
    ensures EmitThrottledDefault(SetMillisecondsDefault(th, ms), now).th
            == EmitThrottled(th, now, ms).th.(msDefault := SetMillisecondsDefault(th, ms).msDefault)
    ensures EmitThrottledDefault(SetMillisecondsDefault(th, ms), now).emitted == EmitThrottled(th, now, ms).emitted
  {
  }

  /** `onTimeout`, when the timer fires at `now`: the signal is emitted, and
      nothing is scheduled any more. */
  function OnTimeout(th: Throttler, now: int): (r: Throttler)
    requires th.nextEmit.Some?
    ensures r.lastEmit == Some(now) && r.nextEmit.None?
    ensures r.msDefault == th.msDefault
  {
    th.(lastEmit := Some(now), nextEmit := None)
  }

  datatype Postponed = Postponed(th: Throttler, wasPending: bool)

  /** `postpone` cancels any scheduled emit and says whether there was
      one. */
  function Postpone(th: Throttler): (r: Postponed)
    ensures r.wasPending <==> th.nextEmit.Some?
    ensures r.th.nextEmit.None?
    ensures r.th.lastEmit == th.lastEmit && r.th.msDefault == th.msDefault
  {
    Postponed(th.(nextEmit := None), th.nextEmit.Some?)
  }

  lemma SecondPostponeFindsNothing(th: Throttler)
    ensures !Postpone(Postpone(th).th).wasPending
    ensures Postpone(Postpone(th).th).th == Postpone(th).th
  {
  }

  /** A long throttle followed by a short one (or the other way round)
      leaves one scheduled emit, at the earlier of the two due times. */
  lemma ShortThrottleOverridesLong(th: Throttler, now: int, long: nat, short: nat)
    requires th.lastEmit.Some? && th.nextEmit.None?
    requires short <= long && th.lastEmit.value + short >= now + Overhead
    ensures var a := EmitThrottled(th, now, long);
            var b := EmitThrottled(a.th, now, short);
            !a.emitted && !b.emitted && b.th.nextEmit == Some(th.lastEmit.value + short)
    ensures var a := EmitThrottled(th, now, short);
            var b := EmitThrottled(a.th, now, long);
            !a.emitted && !b.emitted && b.th.nextEmit == Some(th.lastEmit.value + short)
  {
  }

  // ---------------------------------------------------------------------
  // The documented promise, over runs of the throttler
  // ---------------------------------------------------------------------

  /** Things that happen to a throttler. `Advance` moves the clock; the
      timer is delivered on time, so the clock cannot pass a scheduled emit
      before `Fire` handles it. */
  datatype Event =
    | Call(ms: nat)
    | CallDefault
    | Advance(to: int)
    | Fire
    | PostponeEvent
    | SetDefault(newDefault: Unsigned)

  /** A throttler, the clock, and the earliest time by which a signal has
      been promised to a caller and not yet emitted. */
  datatype World = World(th: Throttler, clock: int, deadline: Option<int>)

  function Earliest(a: Option<int>, b: int): (r: int)
    ensures r <= b && (a.Some? ==> r <= a.value)
    ensures r == b || (a.Some? && r == a.value)
  {
    if a.Some? && a.value < b then a.value else b
  }

  predicate Enabled(w: World, e: Event) {
    match e
    case Call(_) => true
    case CallDefault => true
    case Advance(to) => w.clock <= to && (w.th.nextEmit.None? || to <= w.th.nextEmit.value)
    case Fire => w.th.nextEmit == Some(w.clock)
    case PostponeEvent => true
    case SetDefault(_) => true
  }

  /** A call either emits, which settles every promise, or adds the promise
      of a signal by `clock + ms`. A postpone withdraws the promises. */
  function Step(w: World, e: Event): World
    requires Enabled(w, e)
  {
    match e
    case Call(ms) =>
      var r := EmitThrottled(w.th, w.clock, ms);
      World(r.th, w.clock, if r.emitted then None else Some(Earliest(w.deadline, w.clock + ms)))
    case CallDefault =>
      var r := EmitThrottledDefault(w.th, w.clock);
      World(r.th, w.clock, if r.emitted then None else Some(Earliest(w.deadline, w.clock + DefaultMs(w.th))))
    case Advance(to) => w.(clock := to)
    case Fire => World(OnTimeout(w.th, w.clock), w.clock, None)
    case PostponeEvent => World(Postpone(w.th).th, w.clock, None)
    case SetDefault(ms) => w.(th := SetMillisecondsDefault(w.th, ms))
  }

  /** The last emit is in the past, a scheduled emit is not, and a pending
      promise is covered by the scheduled emit. */
  predicate Inv(w: World) {
    && (w.th.lastEmit.Some? ==> w.th.lastEmit.value <= w.clock)
    && (w.th.nextEmit.Some? ==> w.th.lastEmit.Some? && w.clock <= w.th.nextEmit.value)
    && (w.deadline.Some? ==> w.th.nextEmit.Some? && w.th.nextEmit.value <= w.deadline.value)
  }

  function Begin(th: Throttler, clock: int): (w: World)
    requires th.lastEmit.None? && th.nextEmit.None?
    ensures Inv(w)
  {
    World(th, clock, None)
  }

  lemma StepKeepsInv(w: World, e: Event)
    requires Inv(w) && Enabled(w, e)
    ensures Inv(Step(w, e))
  {
  }

  predicate Runs(w: World, events: seq<Event>)
    decreases |events|
  {
    |events| == 0 || (Enabled(w, events[0]) && Runs(Step(w, events[0]), events[1..]))
  }

  function After(w: World, events: seq<Event>): World
    requires Runs(w, events)
    decreases |events|
  {
    if |events| == 0 then w else After(Step(w, events[0]), events[1..])
  }

  /** The documented promise: at least one signal is emitted between a call
      and the elapsed time it gives. In every run, the clock never passes a
      promised time while that promise is unmet, and a scheduled emit that
      meets it is always in place. */
  lemma {:induction false} PromiseKept(w: World, events: seq<Event>)
    requires Inv(w) && Runs(w, events)
    ensures Inv(After(w, events))
    ensures After(w, events).deadline.Some? ==>
              After(w, events).clock <= After(w, events).th.nextEmit.value <= After(w, events).deadline.value
    decreases |events|
  {
    if |events| > 0 {
      StepKeepsInv(w, events[0]);
      PromiseKept(Step(w, events[0]), events[1..]);
    }
  }
}
