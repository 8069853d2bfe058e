/**
 * react/Values.java: values derived from other reactive sources. Each
 * derived value keeps its own reactor of `Change`s; what a trigger reads
 * from its sources (`a.get()`, the aggregated values' `get()`, the emitted
 * value) is passed in. How a derived value connects to its sources while it
 * has listeners is the mapped-value lifecycle of mapped.dfy.
 */
module Values {
  import opened Common
  import opened Cons
  import opened Engine
  import opened Reactors
  import opened ObjectsUtil
  import opened ValueHolders
  import EngineFacts
  import SignalScenarios

  // ---------------------------------------------------------------------
  // `computeAnd` and `computeOr`.
  // ---------------------------------------------------------------------

  /** Whether every value is true. */
  function AllTrue(vs: seq<bool>): bool {
    if vs == [] then true else vs[0] && AllTrue(vs[1..])
  }

  /** Whether some value is true. */
  function AnyTrue(vs: seq<bool>): bool {
    if vs == [] then false else vs[0] || AnyTrue(vs[1..])
  }

  /** `AllTrue` and `AnyTrue` mean what their names say (so the empty input gives true and false). */
  lemma {:induction false} AllAnyMeaning(vs: seq<bool>)
    ensures AllTrue(vs) <==> forall i :: 0 <= i < |vs| ==> vs[i]
    ensures AnyTrue(vs) <==> exists i :: 0 <= i < |vs| && vs[i]
  {
    if vs != [] {
      AllAnyMeaning(vs[1..]);
      assert forall i :: 1 <= i < |vs| ==> vs[1..][i - 1] == vs[i];
    }
  }

  /** De Morgan: some value is true exactly when not all their negations are. */
  lemma {:induction false} AnyIsNotAllNot(vs: seq<bool>)
    ensures AnyTrue(vs) == !AllTrue(seq(|vs|, i requires 0 <= i < |vs| => !vs[i]))
  {
    if vs != [] {
      AnyIsNotAllNot(vs[1..]);
      var neg := seq(|vs|, i requires 0 <= i < |vs| => !vs[i]);
      assert neg[1..] == seq(|vs[1..]|, i requires 0 <= i < |vs[1..]| => !vs[1..][i]);
    }
  }

  /** `computeAnd(values)`: false at the first false value, true when there is none. */
  method ComputeAnd(vs: seq<bool>) returns (r: bool)
    ensures r == AllTrue(vs)
    ensures r <==> forall i :: 0 <= i < |vs| ==> vs[i]
  {
    AllAnyMeaning(vs);
    var i := 0;
    while i < |vs|
      invariant 0 <= i <= |vs|
      invariant forall j :: 0 <= j < i ==> vs[j]
    {
      if !vs[i] {
        return false;
      }
      i := i + 1;
    }
    return true;
  }

  /** `computeOr(values)`: true at the first true value, false when there is none. */
  method ComputeOr(vs: seq<bool>) returns (r: bool)
    ensures r == AnyTrue(vs)
    ensures r <==> exists i :: 0 <= i < |vs| && vs[i]
  {
    AllAnyMeaning(vs);
    var i := 0;
    while i < |vs|
      invariant 0 <= i <= |vs|
      invariant forall j :: 0 <= j < i ==> !vs[j]
    {
      if vs[i] {
        return true;
      }
      i := i + 1;
    }
    return false;
  }

  // ---------------------------------------------------------------------
  // `aggValue`: `and` and `or`.
  // ---------------------------------------------------------------------

  /** The two aggregations `and` and `or` pass to `aggValue`. */
  datatype AggOp = And | Or

  function Aggregate(op: AggOp, vs: seq<bool>): (r: bool)
    ensures op == And ==> (r <==> forall i :: 0 <= i < |vs| ==> vs[i])
    ensures op == Or ==> (r <==> exists i :: 0 <= i < |vs| && vs[i])
  {
    AllAnyMeaning(vs);
    match op
    case And => AllTrue(vs)
    case Or => AnyTrue(vs)
  }

  /** The value `aggValue(values, op)` builds. */
  class AggValue {
    const rx: Reactor<Change<bool>>
    const op: AggOp
    /** `_current`: the aggregate as of the last trigger (or creation). */
    var current: bool

    ghost predicate Valid()
      reads this, rx, rx.chain
    {
      rx.Valid()
    }

    /** Created over the sources' values `vs`: `_current` is their aggregate. */
    constructor (op: AggOp, vs: seq<bool>)
      ensures Valid() && this.op == op && current == Aggregate(op, vs)
      ensures rx.Model() == Empty() && fresh(rx) && fresh(rx.chain)
    {
      rx := new Reactor();
      this.op := op;
      current := Aggregate(op, vs);
    }

    /** `get()`: recomputed from the sources, not read from `_current`. */
    function Get(vs: seq<bool>): (r: bool)
      reads this
      ensures r == Aggregate(op, vs)
    {
      Aggregate(op, vs)
    }

    /**
     * `_trigger`, run when any source changes (its sources now hold `vs`):
     * recompute, and notify `(recomputed, previous)` whether or not the
     * aggregate changed; what a listener threw propagates.
     */
    method Trigger(vs: seq<bool>, script: (nat, Change<bool>) -> seq<Action<Change<bool>>>, fuel: nat)
      returns (thrown: Option<Exn>)
      requires Valid()
      modifies this, rx, rx.chain
      ensures Valid()
      ensures current == Aggregate(op, vs)
      ensures rx.Model() == Notify(script, old(rx.Model()), Change(Some(current), Some(old(current))), fuel)
      ensures thrown == Thrown(old(rx.Model()), rx.Model())
    {
      var ov := current;
      if op == And {
        current := ComputeAnd(vs);
      } else {
        current := ComputeOr(vs);
      }
      EngineFacts.NotifyValid(script, rx.Model(), Change(Some(current), Some(ov)), fuel);
      thrown := rx.Notify(script, Change(Some(current), Some(ov)), fuel);
    }
  }

  /**
   * An aggregate notifies on every source change, even one that leaves the
   * aggregate as it was: with quiet listeners each open connection gets
   * `(recomputed, previous)`, in chain order.
   */
  lemma AggregateAlwaysNotifies(op: AggOp, prev: bool, vs: seq<bool>, st: State<Change<bool>>,
                                script: (nat, Change<bool>) -> seq<Action<Change<bool>>>, fuel: nat)
    requires EngineFacts.Valid(st) && !st.dispatching
    requires SignalScenarios.Quiet(script, Change(Some(Aggregate(op, vs)), Some(prev)))
    ensures var n := Notify(script, st, Change(Some(Aggregate(op, vs)), Some(prev)), fuel);
      n.log == st.log + SignalScenarios.Deliveries(st.chain, st.cells, Change(Some(Aggregate(op, vs)), Some(prev)))
  {
    SignalScenarios.QuietNotify(script, st, Change(Some(Aggregate(op, vs)), Some(prev)), fuel);
  }

  // ---------------------------------------------------------------------
  // `toggler`.
  // ---------------------------------------------------------------------

  /** The state of a toggler started at `initial` after `n` emissions. */
  function Toggled(initial: bool, n: nat): bool {
    if n == 0 then initial else !Toggled(initial, n - 1)
  }

  /** A toggler is back where it started after an even number of emissions, and flipped after an odd one. */
  lemma {:induction false} ToggledParity(initial: bool, n: nat)
    ensures Toggled(initial, n) == (if n % 2 == 0 then initial else !initial)
  {
    if n > 0 {
      ToggledParity(initial, n - 1);
    }
  }

  /** The value `toggler(signal, initial)` builds. */
  class Toggler {
    const rx: Reactor<Change<bool>>
    /** `_current`. */
    var current: bool
    /** How many times the signal has fired since creation. */
    ghost var fired: nat
    ghost const initial: bool

    ghost predicate Valid()
      reads this, rx, rx.chain
    {
      rx.Valid() && current == Toggled(initial, fired)
    }

    constructor (initial: bool)
      ensures Valid() && current == initial && fired == 0 && this.initial == initial
      ensures rx.Model() == Empty() && fresh(rx) && fresh(rx.chain)
    {
      rx := new Reactor();
      current := initial;
      this.initial := initial;
      fired := 0;
    }

    /** `get()`. */
    function Get(): (r: bool)
      reads this
      ensures r == current
    {
      current
    }

    /** The listener on the signal: flip, then notify `(!old, old)`. */
    method OnEmit(script: (nat, Change<bool>) -> seq<Action<Change<bool>>>, fuel: nat) returns (thrown: Option<Exn>)
      requires Valid()
      modifies this, rx, rx.chain
      ensures Valid() && fired == old(fired) + 1
      ensures current == !old(current)
      ensures rx.Model() == Notify(script, old(rx.Model()), Change(Some(current), Some(old(current))), fuel)
      ensures thrown == Thrown(old(rx.Model()), rx.Model())
    {
      var o := current;
      current := !o;
      fired := fired + 1;
      EngineFacts.NotifyValid(script, rx.Model(), Change(Some(!o), Some(o)), fuel);
      thrown := rx.Notify(script, Change(Some(!o), Some(o)), fuel);
    }
  }

  // ---------------------------------------------------------------------
  // `asValue`.
  // ---------------------------------------------------------------------

  /** The value `asValue(signal, initial)` builds: a stored value the signal updates. */
  class AsValue<T(==)> {
    const rx: Reactor<Change<T>>
    /** The `equals` of the held class, which `areEqual` uses. */
    const eq: (T, Option<T>) -> bool
    /** `_value`. */
    var value: Option<T>

    ghost predicate Valid()
      reads this, rx, rx.chain
    {
      rx.Valid()
    }

    /** Holds `initial` until the signal fires. */
    constructor (initial: Option<T>, eq: (T, Option<T>) -> bool)
      ensures Valid() && value == initial && this.eq == eq
      ensures rx.Model() == Empty() && fresh(rx) && fresh(rx.chain)
    {
      rx := new Reactor();
      value := initial;
      this.eq := eq;
    }

    /**
     * The listener on the signal, `updateAndNotifyIf(v)`: adopt `v`, and
     * notify `(v, previous)` only when the two differ.
     */
    method OnEmit(v: Option<T>, script: (nat, Change<T>) -> seq<Action<Change<T>>>, fuel: nat)
      returns (r: Result<Option<T>>)
      requires Valid()
      modifies this, rx, rx.chain
      ensures Valid()
      ensures (value, rx.Model(), r) == Updated(true, old(value), old(rx.Model()), v, false, eq, script, fuel)
    {
      var ov := value;
      value := v;
      EngineFacts.NotifyValid(script, rx.Model(), Change(v, ov), fuel);
      if !Equals(v, ov, eq) {
        var thrown := rx.Notify(script, Change(v, ov), fuel);
        if thrown.Some? {
          return Throws(thrown.value);
        }
      }
      return Ok(ov);
    }
  }

  /**
   * An `asValue` holds the last value emitted and stays silent on a repeat:
   * emitting what it already holds (by the held class's `equals`) leaves
   * its listeners unnotified.
   */
  lemma AsValueSilentOnRepeat<T>(cur: Option<T>, st: State<Change<T>>, v: Option<T>, eq: (T, Option<T>) -> bool,
                                  script: (nat, Change<T>) -> seq<Action<Change<T>>>, fuel: nat)
    requires EngineFacts.Valid(st) && Equals(v, cur, eq)
    ensures var (nv, n, res) := Updated(true, cur, st, v, false, eq, script, fuel);
      nv == v && n == st && res == Ok(cur)
  {
    UpdatedStores(true, cur, st, v, false, eq, script, fuel);
  }

  // ---------------------------------------------------------------------
  // `join` and its tuples.
  // ---------------------------------------------------------------------

  /** `Values.T2`. */
  datatype T2<A, B> = T2(a: Option<A>, b: Option<B>)

  /** `Values.T3`. */
  datatype T3<A, B, C> = T3(a: Option<A>, b: Option<B>, c: Option<C>)

  /** `T2.equals(other)`: `None` stands for null or an object that is not a T2; otherwise componentwise. */
  function T2Equals<A(==), B(==)>(x: T2<A, B>, other: Option<T2<A, B>>): (r: bool)
    ensures other.None? ==> !r
    ensures other.Some? ==> (r <==> x.a == other.value.a && x.b == other.value.b)
  {
    match other
    case None => false
    case Some(y) => x.a == y.a && x.b == y.b
  }

  /** `T3.equals(other)`: the same, over three components. */
  function T3Equals<A(==), B(==), C(==)>(x: T3<A, B, C>, other: Option<T3<A, B, C>>): (r: bool)
    ensures other.None? ==> !r
    ensures other.Some? ==> (r <==> x.a == other.value.a && x.b == other.value.b && x.c == other.value.c)
  {
    match other
    case None => false
    case Some(y) => x.a == y.a && x.b == y.b && x.c == y.c
  }

  /** Tuple equality is the equality of the tuples: reflexive, symmetric, transitive. */
  lemma TupleEqualsIsEquality<A, B, C>(x: T2<A, B>, y: T2<A, B>, u: T3<A, B, C>, w: T3<A, B, C>)
    ensures T2Equals(x, Some(y)) <==> x == y
    ensures T2Equals(x, Some(x)) && (T2Equals(x, Some(y)) <==> T2Equals(y, Some(x)))
    ensures T3Equals(u, Some(w)) <==> u == w
    ensures T3Equals(u, Some(u)) && (T3Equals(u, Some(w)) <==> T3Equals(w, Some(u)))
  {
  }

  /** The value `join(a, b)` builds. */
  class Join2<A, B> {
    const rx: Reactor<Change<T2<A, B>>>
    /** `_current`. */
    var current: T2<A, B>

    ghost predicate Valid()
      reads this, rx, rx.chain
    {
      rx.Valid()
    }

    /** Created over the sources' current values. */
    constructor (a: Option<A>, b: Option<B>)
      ensures Valid() && current == T2(a, b)
      ensures rx.Model() == Empty() && fresh(rx) && fresh(rx.chain)
    {
      rx := new Reactor();
      current := T2(a, b);
    }

    /**
     * `_trigger`, run when either source emits (they now hold `a` and `b`):
     * the tuple is rebuilt from both sources and `(new, old)` is notified,
     * whatever the emitted value was.
     */
    method Trigger(a: Option<A>, b: Option<B>, script: (nat, Change<T2<A, B>>) -> seq<Action<Change<T2<A, B>>>>, fuel: nat)
      returns (thrown: Option<Exn>)
      requires Valid()
      modifies this, rx, rx.chain
      ensures Valid() && current == T2(a, b)
      ensures rx.Model() == Notify(script, old(rx.Model()), Change(Some(T2(a, b)), Some(old(current))), fuel)
      ensures thrown == Thrown(old(rx.Model()), rx.Model())
    {
      var ov := current;
      current := T2(a, b);
      EngineFacts.NotifyValid(script, rx.Model(), Change(Some(current), Some(ov)), fuel);
      thrown := rx.Notify(script, Change(Some(current), Some(ov)), fuel);
    }
  }

  /** The value `join(a, b, c)` builds. */
  class Join3<A, B, C> {
    const rx: Reactor<Change<T3<A, B, C>>>
    /** `_current`. */
    var current: T3<A, B, C>

    ghost predicate Valid()
      reads this, rx, rx.chain
    {
      rx.Valid()
    }

    constructor (a: Option<A>, b: Option<B>, c: Option<C>)
      ensures Valid() && current == T3(a, b, c)
      ensures rx.Model() == Empty() && fresh(rx) && fresh(rx.chain)
    {
      rx := new Reactor();
      current := T3(a, b, c);
    }

    /** `_trigger`: the triple is rebuilt from all three sources and `(new, old)` is notified. */
    method Trigger(a: Option<A>, b: Option<B>, c: Option<C>,
                   script: (nat, Change<T3<A, B, C>>) -> seq<Action<Change<T3<A, B, C>>>>, fuel: nat)
      returns (thrown: Option<Exn>)
      requires Valid()
      modifies this, rx, rx.chain
      ensures Valid() && current == T3(a, b, c)
      ensures rx.Model() == Notify(script, old(rx.Model()), Change(Some(T3(a, b, c)), Some(old(current))), fuel)
      ensures thrown == Thrown(old(rx.Model()), rx.Model())
    {
      var ov := current;
      current := T3(a, b, c);
      EngineFacts.NotifyValid(script, rx.Model(), Change(Some(current), Some(ov)), fuel);
      thrown := rx.Notify(script, Change(Some(current), Some(ov)), fuel);
    }
  }
}
