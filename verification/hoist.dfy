/** The assertion helpers of hoistsubstitute.h: `hopefully` and the
    `tracked<T>` wrapper. A failed check calls `qFatal`, which ends the
    process; the model writes that as the `Fatal` outcome. */
module Hoist {

  /** The outcome of code that may fail a fatal assertion. */
  datatype Checked<+T> = Ok(value: T) | Fatal {

    predicate IsFailure() {
      Fatal?
    }

    function PropagateFailure<U>(): Checked<U>
      requires Fatal?
    {
      Fatal
    }

    function Extract(): T
      requires Ok?
    {
      value
    }
  }

  /** `hopefully(condition)`: hands back a true condition, ends the process
      on a false one. */
  function Hopefully(condition: bool): (r: Checked<bool>)
    ensures r.Ok? <==> condition
    ensures r.Ok? ==> r.value
  {
    if condition then Ok(true) else Fatal
  }

  /** `tracked<T>`: a value together with the debugging checks on it. */
  datatype Tracked<T> = Tracked(value: T)

  /** `assign`: stores the new value whatever the old one was. */
  function Assign<T>(t: Tracked<T>, newValue: T): (r: Tracked<T>)
    ensures r.value == newValue
  {
    Tracked(newValue)
  }

  /** `ensure`: assigns only when the value differs; afterwards the value is
      `newValue`, and an equal value is left alone. */
  function Ensure<T(==)>(t: Tracked<T>, newValue: T): (r: Tracked<T>)
    ensures r.value == newValue
    ensures t.value == newValue ==> r == t
  {
    if t.value != newValue then Assign(t, newValue) else t
  }

  lemma EnsureIdempotent<T>(t: Tracked<T>, v: T)
    ensures Ensure(Ensure(t, v), v) == Ensure(t, v)
  {
  }

  /** `hopefullyAlter`: the new value must differ from the current one; the
      call always stores it, and when it returns at all it returns true. */
  function HopefullyAlter<T(==)>(t: Tracked<T>, newValue: T): (r: Checked<Tracked<T>>)
    ensures r.Ok? <==> newValue != t.value
    ensures r.Ok? ==> r.value.value == newValue
  {
    var _ :- Hopefully(newValue != t.value);
    Ok(Assign(t, newValue))
  }

  /** `hopefullyTransition(oldValue, newValue)` as the substitute header
      writes it: it only checks `oldValue != newValue` and never looks at
      the value it is tracking. */
  function HopefullyTransition<T(==)>(t: Tracked<T>, oldValue: T, newValue: T): (r: Checked<Tracked<T>>)
    ensures r.Ok? <==> oldValue != newValue
    ensures r.Ok? ==> r.value.value == newValue
  {
    var _ :- Hopefully(newValue != oldValue);
    Ok(Assign(t, newValue))
  }

  /** The outcome of the written transition check does not depend on the
      current value at all. */
  lemma TransitionIgnoresCurrent<T>(t1: Tracked<T>, t2: Tracked<T>, oldValue: T, newValue: T)
    ensures HopefullyTransition(t1, oldValue, newValue) == HopefullyTransition(t2, oldValue, newValue)
  {
  }

  /** A concrete witness: tracking 2, the transition "from 0 to 1" is
      accepted and stores 1, although the value was never 0. */
  lemma TransitionAcceptsStaleValue()
    ensures HopefullyTransition(Tracked(2), 0, 1) == Ok(Tracked(1))
  {
  }

  /** The transition check the callers rely on: the tracked value must be
      `oldValue`, and `newValue` must differ from it. */
  function IntendedTransition<T(==)>(t: Tracked<T>, oldValue: T, newValue: T): (r: Checked<Tracked<T>>)
    ensures r.Ok? <==> t.value == oldValue && oldValue != newValue
    ensures r.Ok? ==> r.value.value == newValue
  {
    var _ :- Hopefully(t.value == oldValue);
    HopefullyTransition(t, oldValue, newValue)
  }

  /** Wherever the intended check passes, the written one passes too and
      stores the same value; the two differ only where the written one lets
      a wrong current value through. */
  lemma IntendedRefinesWritten<T>(t: Tracked<T>, oldValue: T, newValue: T)
    ensures IntendedTransition(t, oldValue, newValue).Ok? ==>
              HopefullyTransition(t, oldValue, newValue) == IntendedTransition(t, oldValue, newValue)
    ensures t.value != oldValue && oldValue != newValue ==>
              IntendedTransition(t, oldValue, newValue).Fatal? && HopefullyTransition(t, oldValue, newValue).Ok?
  {
  }

  /** `hopefullyEqualTo`: a pure test of the tracked value. */
  function HopefullyEqualTo<T(==)>(t: Tracked<T>, good: T): (r: Checked<bool>)
    ensures r.Ok? <==> t.value == good
  {
    Hopefully(t.value == good)
  }

  /** `hopefullyNotEqualTo`. */
  function HopefullyNotEqualTo<T(==)>(t: Tracked<T>, bad: T): (r: Checked<bool>)
    ensures r.Ok? <==> t.value != bad
  {
    Hopefully(t.value != bad)
  }

  /** `hopefullyInSet` (the two- and three-value overloads). */
  function HopefullyInSet<T(==)>(t: Tracked<T>, goods: set<T>): (r: Checked<bool>)
    ensures r.Ok? <==> t.value in goods
  {
    Hopefully(t.value in goods)
  }

  /** `hopefullyNotInSet` (the two- and three-value overloads). */
  function HopefullyNotInSet<T(==)>(t: Tracked<T>, bads: set<T>): (r: Checked<bool>)
    ensures r.Ok? <==> t.value !in bads
  {
    Hopefully(t.value !in bads)
  }

  /** Being in a set and being outside it are exact opposites, so exactly
      one of the two checks passes. */
  lemma InSetComplementsNotInSet<T>(t: Tracked<T>, s: set<T>)
    ensures HopefullyInSet(t, s).Ok? != HopefullyNotInSet(t, s).Ok?
  {
  }
}
