/**
 * react/RSet.java: a set that notifies `onAdd`/`onRemove` to its listeners.
 * The backing set is a Dafny set; where the source walks it (`clear`,
 * `connectNotify`) the walk visits every element once, in an order the
 * model leaves open, as HashSet iteration order is.
 */
module RSets {
  import opened Common
  import opened Collections

  datatype SetEvent<E> = Added(elem: E) | Removed(elem: E)

  const NullElem := "Must supply non-null 'elem'."

  /**
   * The elements `addAll(coll)` finds new, in the order it adds them: an
   * element counts once, and only if it was not already present.
   */
  ghost function NewOnes<E>(impl: set<E>, coll: seq<E>): seq<E>
    decreases |coll|
  {
    if coll == [] then []
    else if coll[0] in impl then NewOnes(impl, coll[1..])
    else [coll[0]] + NewOnes(impl + {coll[0]}, coll[1..])
  }

  ghost function Adds<E>(xs: seq<E>): (r: seq<SetEvent<E>>)
    ensures |r| == |xs| && forall i :: 0 <= i < |xs| ==> r[i] == Added(xs[i])
  {
    seq(|xs|, i requires 0 <= i < |xs| => Added(xs[i]))
  }

  ghost function Removes<E>(xs: seq<E>): (r: seq<SetEvent<E>>)
    ensures |r| == |xs| && forall i :: 0 <= i < |xs| ==> r[i] == Removed(xs[i])
  {
    seq(|xs|, i requires 0 <= i < |xs| => Removed(xs[i]))
  }

  /**
   * The new elements are exactly those of `coll` that were absent, each
   * once; so there are none exactly when every element was present.
   */
  lemma {:induction false} NewOnesMeaning<E>(impl: set<E>, coll: seq<E>)
    ensures forall x :: x in NewOnes(impl, coll) <==> x in coll && x !in impl
    ensures forall i, j :: 0 <= i < j < |NewOnes(impl, coll)| ==> NewOnes(impl, coll)[i] != NewOnes(impl, coll)[j]
    ensures NewOnes(impl, coll) == [] <==> forall x :: x in coll ==> x in impl
    decreases |coll|
  {
    if coll != [] {
      NewOnesMeaning(impl, coll[1..]);
      NewOnesMeaning(impl + {coll[0]}, coll[1..]);
      assert forall x :: x in coll <==> x == coll[0] || x in coll[1..];
    }
  }

  /** Adding `x` after `coll` finds what `coll` found, then `x` if it is still new. */
  lemma {:induction false} NewOnesSnoc<E>(impl: set<E>, coll: seq<E>, x: E)
    ensures NewOnes(impl, coll + [x]) ==
      NewOnes(impl, coll) + (if x in impl || x in coll then [] else [x])
    decreases |coll|
  {
    if coll == [] {
      assert NewOnes(impl, [x]) == (if x in impl then [] else [x]) by {
        assert [x][1..] == [];
      }
    } else {
      assert (coll + [x])[1..] == coll[1..] + [x];
      assert x in coll <==> x == coll[0] || x in coll[1..];
      if coll[0] in impl {
        NewOnesSnoc(impl, coll[1..], x);
      } else {
        NewOnesSnoc(impl + {coll[0]}, coll[1..], x);
      }
    }
  }

  /**
   * The elements `removeAll(coll)` finds present, in the order it removes
   * them: an element counts once, and only if it was present.
   */
  ghost function PresentOnes<E>(impl: set<E>, coll: seq<E>): seq<E>
    decreases |coll|
  {
    if coll == [] then []
    else if coll[0] !in impl then PresentOnes(impl, coll[1..])
    else [coll[0]] + PresentOnes(impl - {coll[0]}, coll[1..])
  }

  /**
   * The elements removed are exactly those of `coll` that were present,
   * each once; so there are none exactly when no element was present.
   */
  lemma {:induction false} PresentOnesMeaning<E>(impl: set<E>, coll: seq<E>)
    ensures forall x :: x in PresentOnes(impl, coll) <==> x in coll && x in impl
    ensures forall i, j :: 0 <= i < j < |PresentOnes(impl, coll)| ==> PresentOnes(impl, coll)[i] != PresentOnes(impl, coll)[j]
    ensures PresentOnes(impl, coll) == [] <==> forall x :: x in coll ==> x !in impl
    decreases |coll|
  {
    if coll != [] {
      PresentOnesMeaning(impl, coll[1..]);
      PresentOnesMeaning(impl - {coll[0]}, coll[1..]);
      assert forall x :: x in coll <==> x == coll[0] || x in coll[1..];
    }
  }

  /** Removing `x` after `coll` finds what `coll` found, then `x` if it is still present. */
  lemma {:induction false} PresentOnesSnoc<E>(impl: set<E>, coll: seq<E>, x: E)
    ensures PresentOnes(impl, coll + [x]) ==
      PresentOnes(impl, coll) + (if x in impl && x !in coll then [x] else [])
    decreases |coll|
  {
    if coll == [] {
      assert PresentOnes(impl, [x]) == (if x in impl then [x] else []) by {
        assert [x][1..] == [];
      }
    } else {
      assert (coll + [x])[1..] == coll[1..] + [x];
      assert x in coll <==> x == coll[0] || x in coll[1..];
      if coll[0] !in impl {
        PresentOnesSnoc(impl, coll[1..], x);
      } else {
        PresentOnesSnoc(impl - {coll[0]}, coll[1..], x);
      }
    }
  }

  /** When `coll` holds distinct elements, all present, `removeAll` finds every one of them, in order. */
  lemma {:induction false} PresentOnesDistinct<E>(impl: set<E>, coll: seq<E>)
    requires forall i :: 0 <= i < |coll| ==> coll[i] in impl
    requires forall i, j :: 0 <= i < j < |coll| ==> coll[i] != coll[j]
    ensures PresentOnes(impl, coll) == coll
    decreases |coll|
  {
    if coll != [] {
      assert coll[0] in impl;
      forall i | 0 <= i < |coll[1..]|
        ensures coll[1..][i] in impl - {coll[0]}
      {
        assert coll[1..][i] == coll[i + 1] != coll[0];
      }
      PresentOnesDistinct(impl - {coll[0]}, coll[1..]);
    }
  }

  /**
   * What a `containsView(elem)` reports for an event: `(true, false)` for
   * an add of `elem`, `(false, true)` for a removal of it, nothing for any
   * other element.
   */
  function ContainsChange<E(==)>(elem: E, ev: SetEvent<E>): (r: Option<(bool, bool)>)
    ensures r.Some? <==> ev.elem == elem
  {
    if ev.elem != elem then None
    else if ev.Added? then Some((true, false))
    else Some((false, true))
  }

  class RSet<E(==)> {
    const rx: Emitter<SetEvent<E>>
    /** `_impl`. */
    var impl: set<E>

    /** The size view, once it exists, holds the set's size. */
    ghost predicate Valid()
      reads this, rx
    {
      rx.sizeView.Some? ==> rx.sizeView.value == |impl|
    }

    /** `RSet(impl)`: wraps the set; nothing is notified. */
    constructor (impl: set<E>, reaction: SetEvent<E> -> Option<Exn>)
      ensures Valid() && this.impl == impl && rx.reaction == reaction && rx.events == [] && fresh(rx)
    {
      this.impl := impl;
      rx := new Emitter(reaction);
    }

    function Size(): (r: int)
      reads this
      ensures r == |impl|
    {
      |impl|
    }

    function Contains(e: E): (r: bool)
      reads this
      ensures r <==> e in impl
    {
      e in impl
    }

    /** `add(elem)`: a new element is added and notified, true; a present one, false and silence. */
    method Add(e: E) returns (r: Result<bool>)
      requires Valid()
      modifies this, rx
      ensures Valid() && impl == old(impl) + {e} && rx.connections == old(rx.connections)
      ensures e in old(impl) ==> r == Ok(false) && rx.events == old(rx.events) && rx.sizeChanges == old(rx.sizeChanges)
      ensures e !in old(impl) ==> rx.events == old(rx.events) + [Added(e)] && r == Returning(rx.reaction(Added(e)), true)
    {
      if e in impl {
        return Ok(false);
      }
      impl := impl + {e};
      var thrown := rx.Notify(Added(e), |impl|);
      r := Returning(thrown, true);
    }

    /** `remove(elem)`: only a present element is removed and notified. */
    method Remove(e: E) returns (r: Result<bool>)
      requires Valid()
      modifies this, rx
      ensures Valid() && impl == old(impl) - {e} && rx.connections == old(rx.connections)
      ensures e !in old(impl) ==> r == Ok(false) && rx.events == old(rx.events) && rx.sizeChanges == old(rx.sizeChanges)
      ensures e in old(impl) ==> rx.events == old(rx.events) + [Removed(e)] && r == Returning(rx.reaction(Removed(e)), true)
    {
      if e !in impl {
        return Ok(false);
      }
      impl := impl - {e};
      var thrown := rx.Notify(Removed(e), |impl|);
      r := Returning(thrown, true);
    }

    /** `addForce(elem)`: always notifies; returns whether the set changed. */
    method AddForce(e: E) returns (r: Result<bool>)
      requires Valid()
      modifies this, rx
      ensures Valid() && impl == old(impl) + {e} && rx.connections == old(rx.connections)
      ensures rx.events == old(rx.events) + [Added(e)] && r == Returning(rx.reaction(Added(e)), e !in old(impl))
    {
      var added := e !in impl;
      impl := impl + {e};
      var thrown := rx.Notify(Added(e), |impl|);
      r := Returning(thrown, added);
    }

    /** `removeForce(elem)`: always notifies; returns whether the set changed. */
    method RemoveForce(e: E) returns (r: Result<bool>)
      requires Valid()
      modifies this, rx
      ensures Valid() && impl == old(impl) - {e} && rx.connections == old(rx.connections)
      ensures rx.events == old(rx.events) + [Removed(e)] && r == Returning(rx.reaction(Removed(e)), e in old(impl))
    {
      var removed := e in impl;
      impl := impl - {e};
      var thrown := rx.Notify(Removed(e), |impl|);
      r := Returning(thrown, removed);
    }

    /**
     * `addAll(coll)`: `add` of each element in turn. Without an exception,
     * it notifies exactly the new elements, in order, and returns whether
     * there was one; an exception stops it after the element that caused it.
     */
    method AddAll(coll: seq<E>) returns (r: Result<bool>)
      requires Valid()
      modifies this, rx
      ensures Valid() && rx.connections == old(rx.connections)
      ensures old(impl) <= impl && |old(rx.events)| <= |rx.events|
      ensures r.Ok? ==>
        && impl == old(impl) + set x | x in coll
        && rx.events == old(rx.events) + Adds(NewOnes(old(impl), coll))
        && (r.value <==> NewOnes(old(impl), coll) != [])
      ensures r.Throws? ==> rx.events != old(rx.events) && rx.reaction(rx.events[|rx.events| - 1]) == Some(r.exn)
    {
      var modified := false;
      var i := 0;
      while i < |coll|
        invariant 0 <= i <= |coll|
        invariant Valid() && rx.connections == old(rx.connections)
        invariant impl == old(impl) + set x | x in coll[..i]
        invariant rx.events == old(rx.events) + Adds(NewOnes(old(impl), coll[..i]))
        invariant modified <==> NewOnes(old(impl), coll[..i]) != []
      {
        NewOnesSnoc(old(impl), coll[..i], coll[i]);
        assert coll[..i + 1] == coll[..i] + [coll[i]];
        assert coll[i] in impl <==> coll[i] in old(impl) || coll[i] in coll[..i];
        var added := Add(coll[i]);
        if added.Throws? {
          return Throws(added.exn);
        }
        modified := modified || added.value;
        i := i + 1;
      }
      assert coll[..i] == coll;
      r := Ok(modified);
    }

    /**
     * `removeAll(coll)`: `remove` of each element of `coll` in turn; `n`
     * counts the elements taken. Without an exception, it removes and
     * notifies exactly the elements that were present, in order, and
     * returns whether there was one; an exception stops it after the
     * removal that caused it.
     */
    method RemoveAll(coll: seq<E>) returns (r: Result<bool>, ghost n: nat)
      requires Valid()
      modifies this, rx
      ensures Valid() && rx.connections == old(rx.connections) && n <= |coll|
      ensures impl == old(impl) - set x | x in coll[..n]
      ensures rx.events == old(rx.events) + Removes(PresentOnes(old(impl), coll[..n]))
      ensures r.Ok? ==> n == |coll| && (r.value <==> PresentOnes(old(impl), coll) != [])
      ensures r.Throws? ==> n > 0 && rx.events != old(rx.events) && rx.reaction(rx.events[|rx.events| - 1]) == Some(r.exn)
    {
      var modified := false;
      var i := 0;
      n := 0;
      while i < |coll|
        invariant 0 <= i <= |coll| && n == i
        invariant Valid() && rx.connections == old(rx.connections)
        invariant impl == old(impl) - set x | x in coll[..i]
        invariant rx.events == old(rx.events) + Removes(PresentOnes(old(impl), coll[..i]))
        invariant modified <==> PresentOnes(old(impl), coll[..i]) != []
      {
        PresentOnesSnoc(old(impl), coll[..i], coll[i]);
        assert coll[..i + 1] == coll[..i] + [coll[i]];
        assert coll[i] in impl <==> coll[i] in old(impl) && coll[i] !in coll[..i];
        var removed := Remove(coll[i]);
        i, n := i + 1, n + 1;
        if removed.Throws? {
          return Throws(removed.exn), n;
        }
        modified := modified || removed.value;
      }
      assert coll[..i] == coll;
      r := Ok(modified);
    }

    /**
     * `retainAll(coll)`: walks the set, in an order left open (`walk`, the
     * elements `coll` lacks), and removes each through the iterator,
     * notifying it; the elements `coll` holds are passed over without
     * effect. `n` counts the removals. Without an exception the set ends
     * as its meet with `coll` and the result says whether anything was
     * removed; an exception stops it after the removal that caused it.
     */
    method RetainAll(coll: set<E>) returns (r: Result<bool>, ghost walk: seq<E>, ghost n: nat)
      requires Valid()
      modifies this, rx
      ensures Valid() && rx.connections == old(rx.connections) && n <= |walk|
      ensures forall x :: x in walk <==> x in old(impl) && x !in coll
      ensures forall i, j :: 0 <= i < j < |walk| ==> walk[i] != walk[j]
      ensures impl == old(impl) - set x | x in walk[..n]
      ensures rx.events == old(rx.events) + Removes(walk[..n])
      ensures r.Ok? ==> n == |walk| && impl == old(impl) * coll && (r.value <==> walk != [])
      ensures r.Throws? ==> n > 0 && rx.reaction(Removed(walk[n - 1])) == Some(r.exn)
    {
      var order := Enumerate(impl - coll);
      walk := order;
      forall k | 0 <= k <= |walk|
        ensures PresentOnes(impl, walk[..k]) == walk[..k]
      {
        forall i | 0 <= i < k
          ensures walk[..k][i] in impl
        {
          assert walk[..k][i] == walk[i] && walk[i] in walk;
        }
        PresentOnesDistinct(impl, walk[..k]);
      }
      assert walk[..|walk|] == walk;
      r, n := RemoveAll(order);
      if r.Ok? {
        assert impl == old(impl) * coll;
      }
    }

    /**
     * `clear()`: empties the set first, then notifies a removal for each
     * former element (`removed`, in the order they are notified), each
     * once. Without an exception every former element is notified; an
     * exception stops it after the removal that caused it.
     */
    method Clear() returns (r: Result<()>, ghost removed: seq<E>)
      requires Valid()
      modifies this, rx
      ensures Valid() && impl == {} && rx.connections == old(rx.connections)
      ensures rx.events == old(rx.events) + Removes(removed)
      ensures forall i :: 0 <= i < |removed| ==> removed[i] in old(impl)
      ensures forall i, j :: 0 <= i < j < |removed| ==> removed[i] != removed[j]
      ensures forall i :: 0 <= i < |removed| - 1 ==> rx.reaction(Removed(removed[i])).None?
      ensures r.Ok? ==> forall x :: x in old(impl) ==> x in removed
      ensures r.Throws? ==> removed != [] && rx.reaction(Removed(removed[|removed| - 1])) == Some(r.exn)
    {
      var rest := impl;
      var thrown: Option<Exn> := None;
      impl := {};
      removed := [];
      while rest != {} && thrown.None?
        invariant Walked(old(impl), rest, removed)
        invariant impl == {} && rx.connections == old(rx.connections)
        invariant rx.events == old(rx.events) + Removes(removed)
        invariant removed == [] ==> rx.sizeView == old(rx.sizeView) && rest == old(impl)
        invariant removed != [] ==> Valid()
        invariant forall i :: 0 <= i < |removed| - 1 ==> rx.reaction(Removed(removed[i])).None?
        invariant thrown.None? ==> forall i :: 0 <= i < |removed| ==> rx.reaction(Removed(removed[i])).None?
        invariant thrown.Some? ==> removed != [] && rx.reaction(Removed(removed[|removed| - 1])) == thrown
        decreases |rest|
      {
        var x :| x in rest;
        WalkStep(old(impl), rest, removed, x);
        rest := rest - {x};
        thrown := rx.Notify(Removed(x), 0);
        removed := removed + [x];
      }
      r := if thrown.Some? then Throws(thrown.value) else Ok(());
    }

    /**
     * `connectNotify(listener)`: `onAdd` of every element, each once, sent
     * to the new listener alone, then `connect`. If the listener throws
     * during the replay, the exception propagates and it is not connected.
     */
    method ConnectNotify(onAdd: E -> Option<Exn>) returns (replayed: seq<E>, r: Result<()>)
      requires Valid()
      modifies rx
      ensures Valid()
      ensures rx.events == old(rx.events) && rx.sizeView == old(rx.sizeView) && rx.sizeChanges == old(rx.sizeChanges)
      ensures forall i :: 0 <= i < |replayed| ==> replayed[i] in impl
      ensures forall i, j :: 0 <= i < j < |replayed| ==> replayed[i] != replayed[j]
      ensures forall i :: 0 <= i < |replayed| - 1 ==> onAdd(replayed[i]).None?
      ensures r.Ok? ==> (forall x :: x in impl ==> x in replayed) && rx.connections == old(rx.connections) + 1
      ensures r.Throws? ==> replayed != [] && onAdd(replayed[|replayed| - 1]) == Some(r.exn) && rx.connections == old(rx.connections)
    {
      var rest := impl;
      replayed := [];
      while rest != {}
        invariant rest <= impl
        invariant forall i :: 0 <= i < |replayed| ==> replayed[i] in impl - rest
        invariant forall x :: x in impl - rest ==> x in replayed
        invariant forall i, j :: 0 <= i < j < |replayed| ==> replayed[i] != replayed[j]
        invariant forall i :: 0 <= i < |replayed| ==> onAdd(replayed[i]).None?
        decreases |rest|
      {
        var x :| x in rest;
        rest := rest - {x};
        replayed := replayed + [x];
        var thrown := onAdd(x);
        if thrown.Some? {
          return replayed, Throws(thrown.value);
        }
      }
      rx.Connect();
      r := Ok(());
    }

    /**
     * `containsView(elem)`: a null element is refused with
     * NullPointerException; otherwise the view starts out holding whether
     * the set contains it.
     */
    function ContainsView(elem: Option<E>): (r: Result<bool>)
      reads this
      ensures elem.None? ==> r == Throws(NullPointer(NullElem))
      ensures elem.Some? ==> r == Ok(elem.value in impl)
    {
      match elem
      case None => Throws(NullPointer(NullElem))
      case Some(e) => Ok(e in impl)
    }
  }

  /**
   * A contains-view stays accurate under `add` and `remove`: the event of
   * a real change of `elem`'s membership reports `(now, before)`. Only a
   * forced event on an element whose membership did not change misreports.
   */
  lemma ContainsChangeAccurate<E>(impl: set<E>, elem: E, ev: SetEvent<E>)
    requires ev.elem == elem
    requires ev.Added? ==> elem !in impl
    requires ev.Removed? ==> elem in impl
    ensures var after := if ev.Added? then impl + {elem} else impl - {elem};
      ContainsChange(elem, ev) == Some((elem in after, elem in impl))
  {
  }
}
