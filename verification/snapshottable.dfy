/** Copy-on-write snapshots (src/snapshottable.cpp and
    include/thinkerqt/snapshottable.h).

    `SnapshottableBase` keeps a `lockedForWrite` flag next to a
    reader/writer lock. `Snapshottable<T>` holds its data behind a
    `QSharedDataPointer`, so a snapshot shares the data until the next
    write detaches it: in value terms, a snapshot is the value the data had
    when the snapshot was taken. The model keeps the data as a plain value
    and the snapshot pointer as an optional value. */
module Snapshottable {
  import opened Common
  import opened Hoist

  /** The `lockedForWrite` flag of `SnapshottableBase`. */
  datatype Base = Base(lockedForWrite: bool)

  /** A new object is not locked for write. */
  function NewBase(): (b: Base)
    ensures !b.lockedForWrite
  {
    Base(false)
  }

  /** `lockForWrite` with the check read as intended: the flag must be
      false, and becomes true. */
  function LockForWrite(b: Base): (r: Checked<Base>)
    ensures r.Ok? <==> !b.lockedForWrite
    ensures r.Ok? ==> r.value.lockedForWrite
  {
    var t :- IntendedTransition(Tracked(b.lockedForWrite), false, true);
    Ok(Base(t.value))
  }

  /** `unlock` with the check read as intended: the flag must be true, and
      becomes false. */
  function Unlock(b: Base): (r: Checked<Base>)
    ensures r.Ok? <==> b.lockedForWrite
    ensures r.Ok? ==> !r.value.lockedForWrite
  {
    var t :- IntendedTransition(Tracked(b.lockedForWrite), true, false);
    Ok(Base(t.value))
  }

  /** `lockForWrite` with the substitute `hopefullyTransition`, which only
      compares `false` with `true` and so never fails. */
  function LockForWriteAsWritten(b: Base): (r: Checked<Base>)
    ensures r == Ok(Base(true))
    ensures !b.lockedForWrite ==> r == LockForWrite(b)
  {
    var t := HopefullyTransition(Tracked(b.lockedForWrite), false, true);
    Ok(Base(t.value.value))
  }

  /** A second `lockForWrite` gets past the substitute check, where the
      intended check stops it. */
  lemma DoubleLockPassesWrittenCheck()
    ensures LockForWriteAsWritten(Base(true)).Ok?
    ensures LockForWrite(Base(true)).Fatal?
  {
  }

  /** `unlock` with the substitute `hopefullyTransition`, which only
      compares `true` with `false` and so never fails either. */
  function UnlockAsWritten(b: Base): (r: Checked<Base>)
    ensures r == Ok(Base(false))
    ensures b.lockedForWrite ==> r == Unlock(b)
  {
    var t := HopefullyTransition(Tracked(b.lockedForWrite), true, false);
    Ok(Base(t.value.value))
  }

  /** An `unlock` of an object that is not locked gets past the substitute
      check, where the intended check stops it. */
  lemma DoubleUnlockPassesWrittenCheck()
    ensures UnlockAsWritten(Base(false)).Ok?
    ensures Unlock(Base(false)).Fatal?
    ensures UnlockAsWritten(UnlockAsWritten(Base(true)).value) == Ok(Base(false))
  {
  }

  /** A lock followed by an unlock restores the flag, and an unlock
      followed by a lock restores it the other way round. */
  lemma LockThenUnlockRestores(b: Base)
    ensures !b.lockedForWrite ==> LockForWrite(b).Ok? && Unlock(LockForWrite(b).value) == Ok(b)
    ensures b.lockedForWrite ==> Unlock(b).Ok? && LockForWrite(Unlock(b).value) == Ok(b)
  {
  }

  // ---------------------------------------------------------------------
  // Snapshot pointers
  // ---------------------------------------------------------------------

  /** `Snapshottable<T>::SnapshotPointer`: a shared pointer to immutable
      data, or null. */
  datatype SnapshotPointer<T> = SnapshotPointer(d: Option<T>)

  /** The default constructor makes a null pointer. */
  function DefaultPointer<T>(): (p: SnapshotPointer<T>)
    ensures p.d.None?
  {
    SnapshotPointer(None)
  }

  /** `clear` makes the pointer null, whatever it held. */
  function Clear<T>(p: SnapshotPointer<T>): (r: SnapshotPointer<T>)
    ensures r.d.None?
    ensures r == DefaultPointer()
  {
    SnapshotPointer(None)
  }

  /** `data()` checks that the pointer is not null and returns what it
      points at. */
  function Data<T>(p: SnapshotPointer<T>): (r: Checked<T>)
    ensures r.Ok? <==> p.d.Some?
    ensures r.Ok? ==> p.d == Some(r.value)
  {
    if p.d.Some? then Ok(p.d.value) else Fatal
  }

  /** The copy constructor shares the other pointer's data. */
  function CopyPointer<T>(other: SnapshotPointer<T>): (r: SnapshotPointer<T>)
    ensures Data(r) == Data(other)
  {
    SnapshotPointer(other.d)
  }

  /** `operator=`: a self-assignment is skipped; any other assignment
      shares the other pointer's data. `sameObject` says whether `other` is
      the very object being assigned to, which makes the two equal. */
  function AssignPointer<T>(target: SnapshotPointer<T>, other: SnapshotPointer<T>, sameObject: bool): (r: SnapshotPointer<T>)
    requires sameObject ==> target == other
    ensures sameObject ==> r == target
    ensures Data(r) == Data(other)
  {
    if sameObject then target else SnapshotPointer(other.d)
  }

  // ---------------------------------------------------------------------
  // Snapshottable objects
  // ---------------------------------------------------------------------

  datatype Store<T> = Store(base: Base, d: T)

  /** The constructors: unlocked, holding the initial data. */
  function NewStore<T>(initial: T): (st: Store<T>)
    ensures !st.base.lockedForWrite && st.d == initial
  {
    Store(NewBase(), initial)
  }

  /** `createSnapshot` takes the read lock, so it waits while a writer
      holds the object; the model takes the snapshot once the object is
      unlocked. */
  function CreateSnapshot<T>(st: Store<T>): (p: SnapshotPointer<T>)
    requires !st.base.lockedForWrite
    ensures Data(p) == Ok(st.d)
  {
    SnapshotPointer(Some(st.d))
  }

  /** A write through `writable`, which checks that the object is locked
      for write; the write replaces the data. */
  function Write<T>(st: Store<T>, v: T): (r: Checked<Store<T>>)
    ensures r.Ok? <==> st.base.lockedForWrite
    ensures r.Ok? ==> r.value.d == v && r.value.base == st.base
  {
    var _ :- HopefullyEqualTo(Tracked(st.base.lockedForWrite), true);
    Ok(Store(st.base, v))
  }

  /** What a thread does with a snapshottable object. */
  datatype Op<T> = LockOp | UnlockOp | WriteOp(v: T) | SnapOp

  /** The object, every snapshot taken so far, and the values it held each
      time it was unlocked (starting with its initial value). */
  datatype World<T> = World(store: Store<T>, snaps: seq<SnapshotPointer<T>>, committed: seq<T>)

  function Start<T>(initial: T): (w: World<T>)
    ensures Good(w)
  {
    World(NewStore(initial), [], [initial])
  }

  /** A step gets past its checks; a snapshot waits for an unlocked object. */
  predicate Enabled<T>(w: World<T>, op: Op<T>) {
    match op
    case LockOp => LockForWrite(w.store.base).Ok?
    case UnlockOp => Unlock(w.store.base).Ok?
    case WriteOp(v) => Write(w.store, v).Ok?
    case SnapOp => !w.store.base.lockedForWrite
  }

  function Step<T>(w: World<T>, op: Op<T>): World<T>
    requires Enabled(w, op)
  {
    match op
    case LockOp => w.(store := w.store.(base := LockForWrite(w.store.base).value))
    case UnlockOp =>
      var st := w.store.(base := Unlock(w.store.base).value);
      w.(store := st, committed := w.committed + [st.d])
    case WriteOp(v) => w.(store := Write(w.store, v).value)
    case SnapOp => w.(snaps := w.snaps + [CreateSnapshot(w.store)])
  }

  predicate Runs<T>(w: World<T>, ops: seq<Op<T>>)
    decreases |ops|
  {
    |ops| == 0 || (Enabled(w, ops[0]) && Runs(Step(w, ops[0]), ops[1..]))
  }

  function After<T>(w: World<T>, ops: seq<Op<T>>): World<T>
    requires Runs(w, ops)
    decreases |ops|
  {
    if |ops| == 0 then w else After(Step(w, ops[0]), ops[1..])
  }

  /** Every snapshot holds data, and that data is a committed value; while
      the object is unlocked, its data is the last committed value. */
  ghost predicate Good<T>(w: World<T>) {
    && |w.committed| > 0
    && (!w.store.base.lockedForWrite ==> w.store.d == w.committed[|w.committed| - 1])
    && (forall i :: 0 <= i < |w.snaps| ==> w.snaps[i].d.Some? && w.snaps[i].d.value in w.committed)
  }

  lemma StepKeepsGood<T>(w: World<T>, op: Op<T>)
    requires Good(w) && Enabled(w, op)
    ensures Good(Step(w, op))
    ensures w.snaps <= Step(w, op).snaps
    ensures w.committed <= Step(w, op).committed
  {
    var w' := Step(w, op);
    forall i | 0 <= i < |w'.snaps|
      ensures w'.snaps[i].d.Some? && w'.snaps[i].d.value in w'.committed
    {
      if i < |w.snaps| {
        assert w'.snaps[i] == w.snaps[i];
      }
    }
  }

  /** A snapshot never sees a half-written state: every snapshot ever taken
      holds a value the object had when it was unlocked. Snapshots taken
      earlier are never changed by later writes: they stay a prefix. */
  lemma {:induction false} SnapshotsSeeCommittedData<T>(w: World<T>, ops: seq<Op<T>>)
    requires Good(w) && Runs(w, ops)
    ensures Good(After(w, ops))
    ensures w.snaps <= After(w, ops).snaps
    decreases |ops|
  {
    if |ops| > 0 {
      StepKeepsGood(w, ops[0]);
      SnapshotsSeeCommittedData(Step(w, ops[0]), ops[1..]);
    }
  }

  /** A snapshot taken before a write cycle still holds the old value after
      it, and one taken after holds the new value. */
  lemma WriteCycleLeavesOldSnapshot<T>(initial: T, v: T)
    ensures Runs(Start(initial), [SnapOp, LockOp, WriteOp(v), UnlockOp, SnapOp])
    ensures After(Start(initial), [SnapOp, LockOp, WriteOp(v), UnlockOp, SnapOp]).snaps
              == [SnapshotPointer(Some(initial)), SnapshotPointer(Some(v))]
  {
    var w0 := Start(initial);
    var w1 := Step(w0, SnapOp);
    var w2 := Step(w1, LockOp);
    var w3 := Step(w2, WriteOp(v));
    var w4 := Step(w3, UnlockOp);
    var w5 := Step(w4, SnapOp);
    var ops := [SnapOp, LockOp, WriteOp(v), UnlockOp, SnapOp];
    assert Runs(w5, ops[5..]) && After(w5, ops[5..]) == w5;
    assert Runs(w4, ops[4..]) && After(w4, ops[4..]) == w5;
    assert Runs(w3, ops[3..]) && After(w3, ops[3..]) == w5;
    assert Runs(w2, ops[2..]) && After(w2, ops[2..]) == w5;
    assert Runs(w1, ops[1..]) && After(w1, ops[1..]) == w5;
    assert ops[0..] == ops;
  }
}
