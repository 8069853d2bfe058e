/**
 * Observable values: react/AbstractValue.java, react/Value.java and
 * react/IntValue.java. A value is a reactor whose payload is a change, a
 * new value with the value it replaced, plus the stored value.
 *
 * Held values are Java references (`Option`, `None` for null) compared by
 * the null-safe `equals` of objects_util.dfy with the held class's own
 * `equals`, `eq`.
 */
module ValueHolders {
  import opened Common
  import opened Cons
  import opened Engine
  import opened ObjectsUtil
  import opened Reactors
  import EngineFacts
  import SignalScenarios

  /** The payload of a value's notifications: `onChange(value, oldValue)`. */
  datatype Change<T> = Change(value: Option<T>, oldValue: Option<T>)

  /**
   * `updateAndNotify(v, force)` on a value whose stored value is `cur` and
   * whose reactor is `st`: the new stored value, the new reactor, and what
   * the call returns or throws. `stores` says whether the class stores
   * values (overrides `updateLocal`, as `Value` does); the default
   * `updateLocal` throws UnsupportedOperationException before anything
   * changes.
   */
  function Updated<T(==)>(stores: bool, cur: Option<T>, st: State<Change<T>>, v: Option<T>, force: bool,
                          eq: (T, Option<T>) -> bool, script: (nat, Change<T>) -> seq<Action<Change<T>>>, fuel: nat)
    : (r: (Option<T>, State<Change<T>>, Result<Option<T>>))
  {
    if !stores then (cur, st, Throws(Unsupported("null")))
    else if force || !Equals(v, cur, eq) then
      var n := Notify(script, st, Change(v, cur), fuel);
      (v, n, match Thrown(st, n) case None => Ok(cur) case Some(e) => Throws(e))
    else (v, st, Ok(cur))
  }

  /**
   * `updateAndNotify` stores the new value whatever happens next and
   * returns the one it replaced; it notifies exactly when forced or when
   * the two differ, and then rethrows the first exception a listener threw.
   * Without `updateLocal` it throws UnsupportedOperationException and
   * changes nothing: a read-only view cannot be updated.
   */
  lemma UpdatedStores<T>(stores: bool, cur: Option<T>, st: State<Change<T>>, v: Option<T>, force: bool,
                             eq: (T, Option<T>) -> bool, script: (nat, Change<T>) -> seq<Action<Change<T>>>, fuel: nat)
    requires EngineFacts.Valid(st)
    ensures var (nv, n, res) := Updated(stores, cur, st, v, force, eq, script, fuel);
      && (!stores ==> nv == cur && n == st && res == Throws(Unsupported("null")))
      && (stores ==> nv == v)
      && (stores && (force || !Equals(v, cur, eq)) ==> n == Notify(script, st, Change(v, cur), fuel))
      && (stores && !force && Equals(v, cur, eq) ==> n == st && res == Ok(cur))
      && (stores && res.Throws? ==> |st.errors| < |n.errors| && res.exn == n.errors[|st.errors|])
      && (stores && res.Ok? ==> res.value == cur)
      && EngineFacts.Valid(n)
  {
    if stores && (force || !Equals(v, cur, eq)) {
      EngineFacts.NotifyValid(script, st, Change(v, cur), fuel);
    }
  }

  /**
   * Listeners receive `(new, old)`: at rest, with listeners that do nothing,
   * an update delivers `Change(v, cur)` to every open connection in chain
   * order when forced or when the values differ, and delivers nothing
   * otherwise.
   */
  lemma UpdatedDelivers<T>(cur: Option<T>, st: State<Change<T>>, v: Option<T>, force: bool,
                               eq: (T, Option<T>) -> bool, script: (nat, Change<T>) -> seq<Action<Change<T>>>, fuel: nat)
    requires EngineFacts.Valid(st) && !st.dispatching && SignalScenarios.Quiet(script, Change(v, cur))
    ensures var (nv, n, res) := Updated(true, cur, st, v, force, eq, script, fuel);
      && n.log == st.log + (if force || !Equals(v, cur, eq) then SignalScenarios.Deliveries(st.chain, st.cells, Change(v, cur)) else [])
      && res == Ok(cur)
  {
    if force || !Equals(v, cur, eq) {
      SignalScenarios.QuietNotify(script, st, Change(v, cur), fuel);
    }
  }

  /** `Value`: a value that stores what it is given. */
  class Value<T(==)> {
    /** The reactor that holds the listeners. */
    const rx: Reactor<Change<T>>
    /** The `equals` of the held class. */
    const eq: (T, Option<T>) -> bool
    /** `_value`. */
    var value: Option<T>

    ghost predicate Valid()
      reads this, rx, rx.chain
    {
      rx.Valid()
    }

    /** `new Value(v)`: stores `v` and notifies nobody. */
    constructor (v: Option<T>, eq: (T, Option<T>) -> bool)
      ensures Valid() && value == v && this.eq == eq && rx.Model() == Empty()
      ensures fresh(rx) && fresh(rx.chain)
    {
      rx := new Reactor();
      this.eq := eq;
      value := v;
    }

    /** `get()`. */
    function Get(): Option<T>
      reads this
    {
      value
    }

    /** `updateAndNotify(v, force)` with `Value`'s `updateLocal`. */
    method UpdateAndNotify(v: Option<T>, force: bool, script: (nat, Change<T>) -> seq<Action<Change<T>>>, fuel: nat)
      returns (r: Result<Option<T>>)
      requires Valid()
      modifies this, rx, rx.chain
      ensures Valid()
      ensures (value, rx.Model(), r) == Updated(true, old(value), old(rx.Model()), v, force, eq, script, fuel)
    {
      var ov := value;
      value := v;
      if force || !Equals(v, ov, eq) {
        var thrown := rx.Notify(script, Change(v, ov), fuel);
        if thrown.Some? {
          return Throws(thrown.value);
        }
      }
      return Ok(ov);
    }

    /** `update(v)`: notifies only when the value changes; returns the previous value. */
    method Update(v: Option<T>, script: (nat, Change<T>) -> seq<Action<Change<T>>>, fuel: nat)
      returns (r: Result<Option<T>>)
      requires Valid()
      modifies this, rx, rx.chain
      ensures Valid()
      ensures (value, rx.Model(), r) == Updated(true, old(value), old(rx.Model()), v, false, eq, script, fuel)
    {
      r := UpdateAndNotify(v, false, script, fuel);
    }

    /** `updateForce(v)`: always notifies; returns the previous value. */
    method UpdateForce(v: Option<T>, script: (nat, Change<T>) -> seq<Action<Change<T>>>, fuel: nat)
      returns (r: Result<Option<T>>)
      requires Valid()
      modifies this, rx, rx.chain
      ensures Valid()
      ensures (value, rx.Model(), r) == Updated(true, old(value), old(rx.Model()), v, true, eq, script, fuel)
    {
      r := UpdateAndNotify(v, true, script, fuel);
    }
  }

  /**
   * `connectNotify(listener)` on a reactor `st` holding `cur`: connect
   * first, then call the listener directly with `(cur, null)`; if that call
   * throws, close the new connection and rethrow.
   */
  function ConnectNotify<T>(st: State<Change<T>>, cur: Option<T>, listener: Option<nat>,
                            script: (nat, Change<T>) -> seq<Action<Change<T>>>, fuel: nat)
    : (r: (State<Change<T>>, Result<CellId>))
  {
    var (st1, res) := AddConnection(st, listener);
    if res.Throws? then (st1, res)
    else
      var c := res.value;
      var first := Change(cur, None);
      var st2 := st1.(log := st1.log + [Delivery(c, listener.value, first)]);
      var (st3, e) := Direct(script, st2, script(listener.value, first), fuel);
      if e.Some? then (Close(st3, c), Throws(e.value)) else (st3, Ok(c))
  }

  /**
   * The new listener hears `(current, null)` first, at once. If it throws,
   * its connection is closed (it hears nothing more) and the exception
   * reaches the caller; otherwise the caller gets the open connection.
   */
  lemma ConnectNotifyEffect<T>(st: State<Change<T>>, cur: Option<T>, slot: nat,
                               script: (nat, Change<T>) -> seq<Action<Change<T>>>, fuel: nat)
    requires EngineFacts.Valid(st) && !st.dispatching
    ensures var (r, res) := ConnectNotify(st, cur, Some(slot), script, fuel);
      var c := st.nextId;
      && |st.log| < |r.log| && r.log[|st.log|] == Delivery(c, slot, Change(cur, None))
      && (res.Ok? ==> res.value == c)
      && (res.Throws? ==> c in r.cells && !r.cells[c].owned && ListenerOf(r.cells, c) == Noop)
      && EngineFacts.Valid(r)
  {
    var (st1, res1) := AddConnection(st, Some(slot));
    var first := Change(cur, None);
    EngineFacts.ApplyValid(st, Connect(slot));
    var st2 := st1.(log := st1.log + [Delivery(st.nextId, slot, first)]);
    var (st3, e) := Direct(script, st2, script(slot, first), fuel);
    EngineFacts.DirectValid(script, st2, script(slot, first), fuel);
    EngineFacts.DirectEvolves(script, st2, script(slot, first), fuel);
    if e.Some? {
      EngineFacts.CloseValid(st3, st.nextId);
    }
  }

  /**
   * `equals(other)`: false for null and for an object of another class;
   * otherwise the held values are compared with `areEqual`.
   */
  function ValueEquals<T(==)>(cls: string, v: Option<T>, other: Option<(string, Option<T>)>, eq: (T, Option<T>) -> bool): (r: bool)
    ensures other.None? ==> !r
    ensures other.Some? && other.value.0 != cls ==> !r
    ensures other.Some? && other.value.0 == cls ==> (r <==> Equals(v, other.value.1, eq))
  {
    match other
    case None => false
    case Some((ocls, ov)) => ocls == cls && Equals(v, ov, eq)
  }

  /** For a held class whose `equals` keeps its contract, value equality is symmetric and transitive. */
  lemma ValueEqualsSymmetric<T(!new)>(cls: string, a: Option<T>, b: Option<T>, c: Option<T>, eq: (T, Option<T>) -> bool)
    requires EqualsContract(eq)
    ensures ValueEquals(cls, a, Some((cls, a)), eq)
    ensures ValueEquals(cls, a, Some((cls, b)), eq) ==> ValueEquals(cls, b, Some((cls, a)), eq)
    ensures ValueEquals(cls, a, Some((cls, b)), eq) && ValueEquals(cls, b, Some((cls, c)), eq) ==> ValueEquals(cls, a, Some((cls, c)), eq)
  {
    EqualsIsEquivalence(eq, a, b, c);
  }

  /**
   * `when(cond)`: the value the returned future completes with, given the
   * later values in order: the current value if it satisfies `cond` now,
   * otherwise the first later one that does (none yet: still pending).
   */
  function When<T>(cur: Option<T>, cond: Option<T> -> bool, later: seq<Option<T>>): (r: Option<Option<T>>)
    ensures cond(cur) ==> r == Some(cur)
    ensures r.Some? ==> cond(r.value)
    ensures r.Some? && !cond(cur) ==> exists i :: 0 <= i < |later| && later[i] == r.value && forall j :: 0 <= j < i ==> !cond(later[j])
    ensures r.None? ==> !cond(cur) && forall i :: 0 <= i < |later| ==> !cond(later[i])
  {
    if cond(cur) then Some(cur) else FirstWhere(later, cond)
  }

  /** The first element satisfying `cond`, as `filter(cond).next()` completes with it. */
  function FirstWhere<T>(s: seq<Option<T>>, cond: Option<T> -> bool): (r: Option<Option<T>>)
    ensures r.Some? ==> exists i :: 0 <= i < |s| && s[i] == r.value && cond(s[i]) && forall j :: 0 <= j < i ==> !cond(s[j])
    ensures r.None? ==> forall i :: 0 <= i < |s| ==> !cond(s[i])
  {
    if s == [] then None
    else if cond(s[0]) then Some(s[0])
    else
      var r := FirstWhere(s[1..], cond);
      if r.Some? then
        ghost var i :| 0 <= i < |s[1..]| && s[1..][i] == r.value && cond(s[1..][i]) && forall j :: 0 <= j < i ==> !cond(s[1..][j]);
        assert s[i + 1] == r.value && forall j :: 0 <= j < i + 1 ==> !cond(s[j]) by {
          forall j | 0 <= j < i + 1 ensures !cond(s[j]) {
            if j > 0 { assert s[j] == s[1..][j - 1]; }
          }
        }
        r
      else r
  }

  /**
   * `map(f)` of a value: its `get()` is `f` of the source's, and each
   * source change `(v, ov)` is forwarded as `(f(v), f(ov))`, even when the
   * two mapped values are equal.
   */
  function MapChange<T, M>(f: Option<T> -> Option<M>, c: Change<T>): (r: Change<M>)
    ensures r.value == f(c.value) && r.oldValue == f(c.oldValue)
  {
    Change(f(c.value), f(c.oldValue))
  }
}
