/**
 * The `useDebounce` hook as a one-slot timer machine. The hook keeps the
 * settled value in state; whenever the watched value changes, the effect's
 * cleanup clears the pending timer and a new timer is armed that carries the
 * new value. When a timer elapses it copies its value into the settled value.
 * Time itself is not modelled: a timer elapsing is an event naming its handle.
 */
module Debouncer {
  import opened Wrappers

  /** A scheduled `setTimeout` callback: its handle and the value it will settle. */
  datatype Timer<T> = Timer(handle: nat, value: T)

  /**
   * `value` is the watched value as of the last render, `settled` the hook's
   * state, `pending` the one timer not yet cleared or fired, and `nextHandle`
   * the handle the next `setTimeout` returns (handles are never reused).
   */
  datatype Debounce<T> = Debounce(value: T, settled: T, pending: Option<Timer<T>>, nextHandle: nat)

  /** The settled value is the watched value unless a timer carrying the watched value is pending. */
  ghost predicate Valid<T>(d: Debounce<T>) {
    && (d.pending.Some? ==> d.pending.value.value == d.value && d.pending.value.handle < d.nextHandle)
    && (d.pending.None? ==> d.settled == d.value)
  }

  /** Mount: the state starts at the initial value and the first effect run arms timer 0. */
  function Start<T>(initial: T): (d: Debounce<T>)
    ensures Valid(d) && d.settled == initial && d.pending == Some(Timer(0, initial))
  {
    Debounce(initial, initial, Some(Timer(0, initial)), 1)
  }

  /**
   * A render with watched value `v`. The effect depends on the value, so it
   * re-runs only when `v` differs: the old timer is cleared and a new one armed.
   */
  function Change<T(==)>(d: Debounce<T>, v: T): (r: Debounce<T>)
    ensures Valid(d) ==> Valid(r)
    ensures r.value == v && r.settled == d.settled
  {
    if v == d.value then d
    else Debounce(v, d.settled, Some(Timer(d.nextHandle, v)), d.nextHandle + 1)
  }

  /** Timer `h` elapses: only the pending timer runs its callback; a cleared one does nothing. */
  function Elapse<T>(d: Debounce<T>, h: nat): (r: Debounce<T>)
    ensures Valid(d) ==> Valid(r)
    ensures r.value == d.value && r.nextHandle == d.nextHandle
  {
    if d.pending.Some? && d.pending.value.handle == h then
      d.(settled := d.pending.value.value, pending := None)
    else d
  }

  /** A burst of renders with the watched values `vs`, in order. */
  function Changes<T(==)>(d: Debounce<T>, vs: seq<T>): Debounce<T>
    decreases |vs|
  {
    if vs == [] then d else Changes(Change(d, vs[0]), vs[1..])
  }

  /** A new value arms a fresh timer that carries it, replacing any pending one. */
  lemma ChangeArmsFreshTimer<T>(d: Debounce<T>, v: T)
    requires v != d.value
    ensures Change(d, v).pending == Some(Timer(d.nextHandle, v))
    ensures Change(d, v).nextHandle == d.nextHandle + 1
  {
  }

  /**
   * After a change only the newly armed timer can fire: every handle issued
   * before it, the cleared one included, elapses without effect.
   */
  lemma ClearedTimerNeverFires<T>(d: Debounce<T>, v: T, h: nat)
    requires v != d.value && h < d.nextHandle
    ensures Elapse(Change(d, v), h) == Change(d, v)
  {
  }

  /** A timer fires at most once. */
  lemma TimerFiresOnce<T>(d: Debounce<T>, h: nat)
    ensures Elapse(Elapse(d, h), h) == Elapse(d, h)
  {
  }

  /** When the pending timer fires, the settled value becomes the current watched value. */
  lemma ElapseSettlesWatchedValue<T>(d: Debounce<T>)
    requires Valid(d) && d.pending.Some?
    ensures Elapse(d, d.pending.value.handle).settled == d.value
    ensures Elapse(d, d.pending.value.handle).pending.None?
  {
  }

  /** Typing a burst never settles anything by itself, and leaves the last value watched. */
  lemma {:induction false} ChangesKeepSettled<T>(d: Debounce<T>, vs: seq<T>)
    requires Valid(d)
    ensures Valid(Changes(d, vs))
    ensures Changes(d, vs).settled == d.settled
    ensures vs != [] ==> Changes(d, vs).value == vs[|vs| - 1]
    decreases |vs|
  {
    if vs != [] {
      ChangesKeepSettled(Change(d, vs[0]), vs[1..]);
      if |vs| > 1 {
        assert vs[1..][|vs[1..]| - 1] == vs[|vs| - 1];
      }
    }
  }

  /**
   * After a burst, whichever timer elapses, the settled value is either
   * unchanged or the last value of the burst: no intermediate value of the
   * burst can ever become settled.
   */
  lemma BurstSettlesOnlyLast<T>(d: Debounce<T>, vs: seq<T>, h: nat)
    requires Valid(d) && vs != []
    ensures var r := Elapse(Changes(d, vs), h);
            r.settled == d.settled || r.settled == vs[|vs| - 1]
  {
    ChangesKeepSettled(d, vs);
  }
}
