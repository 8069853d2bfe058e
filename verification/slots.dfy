/**
 * The slot combinators of react/Slot.java. A slot is a side-effecting
 * listener; here its behaviour on a value is what it does, as a list of
 * effects, and the exception it ends with, if any.
 */
module Slots {
  import opened Common

  /** What one call of a slot did: the effects it made, and the exception that ended it. */
  datatype Outcome<E> = Outcome(effects: seq<E>, thrown: Option<Exn>)

  type Slot<!T, E> = T -> Outcome<E>

  /** `NOOP`: does nothing. */
  function Noop<T(!new), E>(): (r: Slot<T, E>)
    ensures forall v :: r(v) == Outcome([], None)
  {
    v => Outcome([], None)
  }

  /** `compose(f)`: the slot that passes `f(value)` on to `slot`. */
  function Compose<S, T, E>(slot: Slot<T, E>, f: S -> T): (r: Slot<S, E>) {
    v => slot(f(v))
  }

  /** `filtered(pred)`: the slot that passes on only the values `pred` accepts. */
  function Filtered<T, E>(slot: Slot<T, E>, pred: T -> bool): (r: Slot<T, E>) {
    v => if pred(v) then slot(v) else Outcome([], None)
  }

  /**
   * `andThen(after)`: the slot that runs `slot`, then `after`, on the same
   * value. An exception from `slot` propagates, and `after` is not run.
   */
  function AndThen<T, E>(slot: Slot<T, E>, after: Slot<T, E>): (r: Slot<T, E>) {
    v => var a := slot(v);
      if a.thrown.Some? then a
      else var b := after(v); Outcome(a.effects + b.effects, b.thrown)
  }

  /** `onChange(new, old)`: a slot used as a value listener sees only the new value. */
  function OnChange<T, E>(slot: Slot<T, E>, newValue: T, oldValue: T): (r: Outcome<E>) {
    slot(newValue)
  }

  /** What a slot does on a change depends on the new value alone. */
  lemma OnChangeIgnoresOld<T, E>(slot: Slot<T, E>, newValue: T, old1: T, old2: T)
    ensures OnChange(slot, newValue, old1) == OnChange(slot, newValue, old2) == slot(newValue)
  {
  }

  /** A filtered slot runs exactly on the accepted values, and does nothing on the others. */
  lemma FilteredMeaning<T(!new), E>(slot: Slot<T, E>, pred: T -> bool, v: T)
    ensures pred(v) ==> Filtered(slot, pred)(v) == slot(v)
    ensures !pred(v) ==> Filtered(slot, pred)(v) == Noop<T, E>()(v)
  {
  }

  /** Composing twice composes the functions, outer function first. */
  lemma ComposeComposes<R, S, T, E>(slot: Slot<T, E>, f: S -> T, g: R -> S, v: R)
    ensures Compose(Compose(slot, f), g)(v) == Compose(slot, x => f(g(x)))(v)
  {
  }

  /**
   * `andThen` runs both slots in order: the effects are the first slot's
   * followed by the second's, unless the first throws, in which case the
   * second does nothing.
   */
  lemma AndThenMeaning<T, E>(a: Slot<T, E>, b: Slot<T, E>, v: T)
    ensures a(v).thrown.None? ==> AndThen(a, b)(v) == Outcome(a(v).effects + b(v).effects, b(v).thrown)
    ensures a(v).thrown.Some? ==> AndThen(a, b)(v) == a(v)
  {
  }

  /** `andThen` is associative, and `NOOP` is its unit on both sides. */
  lemma AndThenLaws<T(!new), E>(a: Slot<T, E>, b: Slot<T, E>, c: Slot<T, E>, v: T)
    ensures AndThen(AndThen(a, b), c)(v) == AndThen(a, AndThen(b, c))(v)
    ensures AndThen(Noop(), a)(v) == a(v)
    ensures AndThen(a, Noop())(v).effects == a(v).effects
  {
    var x := a(v);
    if x.thrown.None? {
      var y := b(v);
      if y.thrown.None? {
        assert x.effects + y.effects + c(v).effects == x.effects + (y.effects + c(v).effects);
      }
    }
    assert x.effects + [] == x.effects;
  }

  /** Filtering twice accepts a value exactly when both predicates do. */
  lemma FilteredTwice<T, E>(slot: Slot<T, E>, p: T -> bool, q: T -> bool, v: T)
    ensures Filtered(Filtered(slot, p), q)(v) == Filtered(slot, x => q(x) && p(x))(v)
  {
  }
}
