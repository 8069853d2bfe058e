/**
 * react/RList.java: a list that notifies `onAdd`, `onSet` and `onRemove`,
 * each with the index it happened at. The backing list is a Dafny
 * sequence; an index out of range makes the backing list throw before
 * anything changes or is notified.
 */
module RLists {
  import opened Common
  import opened Collections
  import MultiFailure

  datatype ListEvent<E> =
    | ListAdded(index: int, elem: E)
    | ListSet(index: int, elem: E, oldElem: E)
    | ListRemoved(index: int, elem: E)

  /** The exception the backing list throws for an index out of range (ArrayList's wording). */
  function OutOfRange(index: int, size: int): Exn {
    IndexOutOfBounds("Index: " + MultiFailure.IntToString(index) + ", Size: " + MultiFailure.IntToString(size))
  }

  /** `indexOf(x)`: the first index holding `x`, or -1 when there is none. */
  function IndexOf<E(==)>(s: seq<E>, x: E): (r: int)
    ensures -1 <= r < |s|
    ensures r == -1 <==> x !in s
    ensures r >= 0 ==> s[r] == x && x !in s[..r]
  {
    if s == [] then -1
    else if s[0] == x then 0
    else
      var j := IndexOf(s[1..], x);
      assert s == [s[0]] + s[1..];
      if j < 0 then -1
      else
        assert s[..j + 1] == [s[0]] + s[1..][..j];
        j + 1
  }

  /**
   * What a listener that keeps a copy of the list does with an event:
   * insert, replace or delete at the notified index. An event whose index
   * is out of range (the -1 of `removeForce` on an absent element) leaves
   * the copy alone.
   */
  function ApplyEvent<E>(s: seq<E>, ev: ListEvent<E>): seq<E> {
    match ev
    case ListAdded(i, e) => if 0 <= i <= |s| then s[..i] + [e] + s[i..] else s
    case ListSet(i, e, _) => if 0 <= i < |s| then s[i := e] else s
    case ListRemoved(i, _) => if 0 <= i < |s| then s[..i] + s[i + 1..] else s
  }

  /** The copy after a run of events, oldest first. */
  function Replay<E>(s: seq<E>, evs: seq<ListEvent<E>>): seq<E>
    decreases |evs|
  {
    if evs == [] then s else ApplyEvent(Replay(s, evs[..|evs| - 1]), evs[|evs| - 1])
  }

  /** One more event is applied to the copy so far. */
  lemma ReplaySnoc<E>(s: seq<E>, evs: seq<ListEvent<E>>, ev: ListEvent<E>)
    ensures Replay(s, evs + [ev]) == ApplyEvent(Replay(s, evs), ev)
  {
    assert (evs + [ev])[..|evs|] == evs;
  }

  /** The events of inserting `xs` one by one at `index, index + 1, ...`. */
  function Inserts<E>(index: int, xs: seq<E>): (r: seq<ListEvent<E>>)
    ensures |r| == |xs| && forall k :: 0 <= k < |xs| ==> r[k] == ListAdded(index + k, xs[k])
  {
    seq(|xs|, k requires 0 <= k < |xs| => ListAdded(index + k, xs[k]))
  }

  /** The events of removing `xs` one by one from the head. */
  function HeadRemovals<E>(xs: seq<E>): (r: seq<ListEvent<E>>)
    ensures |r| == |xs| && forall k :: 0 <= k < |xs| ==> r[k] == ListRemoved(0, xs[k])
  {
    seq(|xs|, k requires 0 <= k < |xs| => ListRemoved(0, xs[k]))
  }

  /**
   * The events `addAll(index, xs)` sends rebuild its result: a copy that
   * follows them ends up with `xs` spliced in at `index`.
   */
  lemma {:induction false} ReplayInserts<E>(s: seq<E>, index: int, xs: seq<E>)
    requires 0 <= index <= |s|
    ensures Replay(s, Inserts(index, xs)) == s[..index] + xs + s[index..]
    decreases |xs|
  {
    if xs != [] {
      var ys := xs[..|xs| - 1];
      var last := xs[|xs| - 1];
      assert Inserts(index, xs) == Inserts(index, ys) + [ListAdded(index + |ys|, last)];
      ReplaySnoc(s, Inserts(index, ys), ListAdded(index + |ys|, last));
      ReplayInserts(s, index, ys);
      var t := s[..index] + ys + s[index..];
      assert t[..index + |ys|] == s[..index] + ys;
      assert t[index + |ys|..] == s[index..];
      assert xs == ys + [last];
    }
  }

  /**
   * The events `clear` sends rebuild its result: after the removals of the
   * first `n` elements at index 0, a copy holds the rest.
   */
  lemma {:induction false} ReplayHeadRemovals<E>(s: seq<E>, n: nat)
    requires n <= |s|
    ensures Replay(s, HeadRemovals(s[..n])) == s[n..]
  {
    if n > 0 {
      assert HeadRemovals(s[..n]) == HeadRemovals(s[..n - 1]) + [ListRemoved(0, s[n - 1])];
      ReplaySnoc(s, HeadRemovals(s[..n - 1]), ListRemoved(0, s[n - 1]));
      ReplayHeadRemovals(s, n - 1);
      assert s[n - 1..][1..] == s[n..];
    }
  }

  /** Inserting the next element at the next index extends both the splice and the events by it. */
  lemma InsertStep<E>(s: seq<E>, index: int, elems: seq<E>, ii: nat)
    requires 0 <= index <= |s| && ii < |elems|
    ensures var t := s[..index] + elems[..ii] + s[index..];
      && 0 <= index + ii <= |t|
      && t[..index + ii] + [elems[ii]] + t[index + ii..] == s[..index] + elems[..ii + 1] + s[index..]
    ensures Inserts(index, elems[..ii + 1]) == Inserts(index, elems[..ii]) + [ListAdded(index + ii, elems[ii])]
  {
    var t := s[..index] + elems[..ii] + s[index..];
    assert t[..index + ii] == s[..index] + elems[..ii];
    assert t[index + ii..] == s[index..];
    assert elems[..ii + 1] == elems[..ii] + [elems[ii]];
  }

  class RList<E(==)> {
    const rx: Emitter<ListEvent<E>>
    /** `_impl`. */
    var impl: seq<E>

    ghost predicate Valid()
      reads this, rx
    {
      rx.sizeView.Some? ==> rx.sizeView.value == |impl|
    }

    /** `RList(impl)`: wraps the list; nothing is notified. */
    constructor (impl: seq<E>, reaction: ListEvent<E> -> Option<Exn>)
      ensures Valid() && this.impl == impl && rx.reaction == reaction && rx.events == [] && fresh(rx)
    {
      this.impl := impl;
      rx := new Emitter(reaction);
    }

    /** `get(index)`: the element, or the backing list's exception for an index out of range. */
    function Get(index: int): (r: Result<E>)
      reads this
      ensures 0 <= index < |impl| ==> r == Ok(impl[index])
      ensures !(0 <= index < |impl|) ==> r == Throws(OutOfRange(index, |impl|))
    {
      if 0 <= index < |impl| then Ok(impl[index]) else Throws(OutOfRange(index, |impl|))
    }

    /**
     * `add(index, e)`: inserts `e` at `index` and notifies
     * `onAdd(index, e)`; an index outside `0..size()` throws and changes
     * nothing.
     */
    method AddAt(index: int, e: E) returns (r: Result<()>)
      requires Valid()
      modifies this, rx
      ensures Valid() && rx.connections == old(rx.connections)
      ensures !(0 <= index <= |old(impl)|) ==>
        r == Throws(OutOfRange(index, |old(impl)|)) && impl == old(impl) && rx.events == old(rx.events) && rx.sizeView == old(rx.sizeView)
      ensures 0 <= index <= |old(impl)| ==>
        && impl == old(impl)[..index] + [e] + old(impl)[index..]
        && rx.events == old(rx.events) + [ListAdded(index, e)]
        && impl == ApplyEvent(old(impl), ListAdded(index, e))
        && r == Returning(rx.reaction(ListAdded(index, e)), ())
    {
      if !(0 <= index <= |impl|) {
        return Throws(OutOfRange(index, |impl|));
      }
      impl := impl[..index] + [e] + impl[index..];
      var thrown := rx.Notify(ListAdded(index, e), |impl|);
      r := Returning(thrown, ());
    }

    /** `add(e)`: inserts at the end, notifies `onAdd(size, e)` and returns true. */
    method Add(e: E) returns (r: Result<bool>)
      requires Valid()
      modifies this, rx
      ensures Valid() && rx.connections == old(rx.connections)
      ensures impl == old(impl) + [e]
      ensures rx.events == old(rx.events) + [ListAdded(|old(impl)|, e)]
      ensures r == Returning(rx.reaction(ListAdded(|old(impl)|, e)), true)
    {
      var res := AddAt(|impl|, e);
      assert old(impl)[..|old(impl)|] == old(impl);
      r := if res.Throws? then Throws(res.exn) else Ok(true);
    }

    /**
     * `addAll(index, elems)`: adds the elements one at a time at `index,
     * index + 1, ...`, one event each, so that a listener's exception
     * leaves no element added without its event. `n` counts the elements
     * added; an exception stops the walk after the add that caused it.
     */
    method AddAll(index: int, elems: seq<E>) returns (r: Result<bool>, ghost n: nat)
      requires Valid()
      modifies this, rx
      ensures Valid() && rx.connections == old(rx.connections) && n <= |elems|
      ensures rx.events == old(rx.events) + Inserts(index, elems[..n])
      ensures 0 <= index <= |old(impl)| ==>
        impl == old(impl)[..index] + elems[..n] + old(impl)[index..] && impl == Replay(old(impl), Inserts(index, elems[..n]))
      ensures !(0 <= index <= |old(impl)|) ==> impl == old(impl) && n == 0
      ensures !(0 <= index <= |old(impl)|) && elems != [] ==> r == Throws(OutOfRange(index, |old(impl)|))
      ensures forall k :: 0 <= k < n - 1 ==> rx.reaction(ListAdded(index + k, elems[k])).None?
      ensures r.Ok? ==> r.value && n == |elems| && forall k :: 0 <= k < n ==> rx.reaction(ListAdded(index + k, elems[k])).None?
      ensures r.Throws? && 0 <= index <= |old(impl)| ==> n > 0 && rx.reaction(ListAdded(index + n - 1, elems[n - 1])) == Some(r.exn)
    {
      n := 0;
      if !(0 <= index <= |impl|) {
        assert elems[..0] == [];
        if elems == [] {
          return Ok(true), 0;
        }
        var res := AddAt(index, elems[0]);
        return Throws(res.exn), 0;
      }
      r, n := InsertEach(index, elems);
      ReplayInserts(old(impl), index, elems[..n]);
    }

    /** The walk of `addAll` for an index in range: `add(index + k, elems[k])` until one throws. */
    method InsertEach(index: int, elems: seq<E>) returns (r: Result<bool>, ghost n: nat)
      requires Valid() && 0 <= index <= |impl|
      modifies this, rx
      ensures Valid() && rx.connections == old(rx.connections) && n <= |elems|
      ensures rx.events == old(rx.events) + Inserts(index, elems[..n])
      ensures impl == old(impl)[..index] + elems[..n] + old(impl)[index..]
      ensures forall k :: 0 <= k < n - 1 ==> rx.reaction(ListAdded(index + k, elems[k])).None?
      ensures r.Ok? ==> r.value && n == |elems| && forall k :: 0 <= k < n ==> rx.reaction(ListAdded(index + k, elems[k])).None?
      ensures r.Throws? ==> n > 0 && rx.reaction(ListAdded(index + n - 1, elems[n - 1])) == Some(r.exn)
    {
      var i := 0;
      r := Ok(true);
      while i < |elems| && r.Ok?
        invariant i <= |elems|
        invariant Valid() && rx.connections == old(rx.connections)
        invariant rx.events == old(rx.events) + Inserts(index, elems[..i])
        invariant impl == old(impl)[..index] + elems[..i] + old(impl)[index..]
        invariant forall k :: 0 <= k < i - 1 ==> rx.reaction(ListAdded(index + k, elems[k])).None?
        invariant r.Ok? ==> r.value && forall k :: 0 <= k < i ==> rx.reaction(ListAdded(index + k, elems[k])).None?
        invariant r.Throws? ==> i > 0 && rx.reaction(ListAdded(index + i - 1, elems[i - 1])) == Some(r.exn)
      {
        InsertStep(old(impl), index, elems, i);
        var res := AddAt(index + i, elems[i]);
        i := i + 1;
        if res.Throws? {
          r := Throws(res.exn);
        }
      }
      if r.Ok? {
        assert elems[..i] == elems;
      }
      n := i;
    }

    /**
     * `remove(Object)`: an absent element gives false and no event;
     * otherwise its first occurrence is removed and `onRemove(index, e)`
     * notified.
     */
    method RemoveElem(x: E) returns (r: Result<bool>)
      requires Valid()
      modifies this, rx
      ensures Valid() && rx.connections == old(rx.connections)
      ensures x !in old(impl) ==> r == Ok(false) && impl == old(impl) && rx.events == old(rx.events) && rx.sizeView == old(rx.sizeView)
      ensures x in old(impl) ==>
        var i := IndexOf(old(impl), x);
        && impl == old(impl)[..i] + old(impl)[i + 1..]
        && multiset(impl) + multiset{x} == multiset(old(impl))
        && rx.events == old(rx.events) + [ListRemoved(i, x)]
        && impl == ApplyEvent(old(impl), ListRemoved(i, x))
        && r == Returning(rx.reaction(ListRemoved(i, x)), true)
    {
      var index := IndexOf(impl, x);
      if index < 0 {
        return Ok(false);
      }
      assert impl == impl[..index] + [x] + impl[index + 1..];
      impl := impl[..index] + impl[index + 1..];
      var thrown := rx.Notify(ListRemoved(index, x), |impl|);
      r := Returning(thrown, true);
    }

    /** `remove(index)`: removes and returns the element at `index`, notifying `onRemove(index, e)`. */
    method RemoveAt(index: int) returns (r: Result<E>)
      requires Valid()
      modifies this, rx
      ensures Valid() && rx.connections == old(rx.connections)
      ensures !(0 <= index < |old(impl)|) ==>
        r == Throws(OutOfRange(index, |old(impl)|)) && impl == old(impl) && rx.events == old(rx.events) && rx.sizeView == old(rx.sizeView)
      ensures 0 <= index < |old(impl)| ==>
        var ev := ListRemoved(index, old(impl)[index]);
        && impl == old(impl)[..index] + old(impl)[index + 1..]
        && rx.events == old(rx.events) + [ev]
        && impl == ApplyEvent(old(impl), ev)
        && r == Returning(rx.reaction(ev), old(impl)[index])
    {
      if !(0 <= index < |impl|) {
        return Throws(OutOfRange(index, |impl|));
      }
      var removed := impl[index];
      impl := impl[..index] + impl[index + 1..];
      var thrown := rx.Notify(ListRemoved(index, removed), |impl|);
      r := Returning(thrown, removed);
    }

    /**
     * `removeForce(e)`: removes the first occurrence if there is one and
     * notifies `onRemove(index, e)` in any case, with index -1 when `e` was
     * absent; returns whether it was present.
     */
    method RemoveForce(x: E) returns (r: Result<bool>)
      requires Valid()
      modifies this, rx
      ensures Valid() && rx.connections == old(rx.connections)
      ensures var i := IndexOf(old(impl), x);
        && impl == (if i >= 0 then old(impl)[..i] + old(impl)[i + 1..] else old(impl))
        && rx.events == old(rx.events) + [ListRemoved(i, x)]
        && impl == ApplyEvent(old(impl), ListRemoved(i, x))
        && r == Returning(rx.reaction(ListRemoved(i, x)), x in old(impl))
    {
      var index := IndexOf(impl, x);
      if index >= 0 {
        impl := impl[..index] + impl[index + 1..];
      }
      var thrown := rx.Notify(ListRemoved(index, x), |impl|);
      r := Returning(thrown, index >= 0);
    }

    /** `set(index, e)`: replaces the element, notifies `onSet(index, e, old)` and returns the old one. */
    method Set(index: int, e: E) returns (r: Result<E>)
      requires Valid()
      modifies this, rx
      ensures Valid() && rx.connections == old(rx.connections)
      ensures !(0 <= index < |old(impl)|) ==>
        r == Throws(OutOfRange(index, |old(impl)|)) && impl == old(impl) && rx.events == old(rx.events) && rx.sizeView == old(rx.sizeView)
      ensures 0 <= index < |old(impl)| ==>
        var ev := ListSet(index, e, old(impl)[index]);
        && impl == old(impl)[index := e]
        && rx.events == old(rx.events) + [ev]
        && impl == ApplyEvent(old(impl), ev)
        && r == Returning(rx.reaction(ev), old(impl)[index])
    {
      if !(0 <= index < |impl|) {
        return Throws(OutOfRange(index, |impl|));
      }
      var removed := impl[index];
      impl := impl[index := e];
      var thrown := rx.Notify(ListSet(index, e, removed), |impl|);
      r := Returning(thrown, removed);
    }

    /**
     * `clear()`: removes index 0 until the list is empty, so each element
     * is notified at index 0, front to back. `n` counts the removals; an
     * exception stops it after the removal that caused it.
     */
    method Clear() returns (r: Result<()>, ghost n: nat)
      requires Valid()
      modifies this, rx
      ensures Valid() && rx.connections == old(rx.connections) && n <= |old(impl)|
      ensures impl == old(impl)[n..]
      ensures rx.events == old(rx.events) + HeadRemovals(old(impl)[..n])
      ensures impl == Replay(old(impl), HeadRemovals(old(impl)[..n]))
      ensures forall k :: 0 <= k < n - 1 ==> rx.reaction(ListRemoved(0, old(impl)[k])).None?
      ensures r.Ok? ==> n == |old(impl)| && impl == []
      ensures r.Throws? ==> n > 0 && rx.reaction(ListRemoved(0, old(impl)[n - 1])) == Some(r.exn)
    {
      n := 0;
      while |impl| > 0
        invariant n <= |old(impl)| && impl == old(impl)[n..]
        invariant Valid() && rx.connections == old(rx.connections)
        invariant rx.events == old(rx.events) + HeadRemovals(old(impl)[..n])
        invariant forall k :: 0 <= k < n ==> rx.reaction(ListRemoved(0, old(impl)[k])).None?
        decreases |impl|
      {
        assert old(impl)[..n + 1] == old(impl)[..n] + [old(impl)[n]];
        assert HeadRemovals(old(impl)[..n + 1]) == HeadRemovals(old(impl)[..n]) + [ListRemoved(0, old(impl)[n])];
        var res := RemoveAt(0);
        n := n + 1;
        assert old(impl)[n - 1..][1..] == old(impl)[n..];
        if res.Throws? {
          ReplayHeadRemovals(old(impl), n);
          return Throws(res.exn), n;
        }
      }
      ReplayHeadRemovals(old(impl), n);
      r := Ok(());
    }

    /**
     * `connectNotify(listener)`: `onAdd(i, get(i))` for `i = 0, 1, ...` in
     * order, sent to the new listener alone, then `connect`. An exception
     * during the replay (at index `n`) propagates and the listener is not
     * connected.
     */
    method ConnectNotify(onAdd: (int, E) -> Option<Exn>) returns (r: Result<()>, ghost n: nat)
      requires Valid()
      modifies rx
      ensures Valid()
      ensures rx.events == old(rx.events) && rx.sizeView == old(rx.sizeView) && rx.sizeChanges == old(rx.sizeChanges)
      ensures forall k :: 0 <= k < n && k < |impl| ==> onAdd(k, impl[k]).None?
      ensures r.Ok? ==> n == |impl| && rx.connections == old(rx.connections) + 1
      ensures r.Throws? ==> n < |impl| && onAdd(n, impl[n]) == Some(r.exn) && rx.connections == old(rx.connections)
    {
      var ll := |impl|;
      var ii := 0;
      while ii < ll
        invariant 0 <= ii <= ll == |impl|
        invariant forall k :: 0 <= k < ii ==> onAdd(k, impl[k]).None?
      {
        var thrown := onAdd(ii, impl[ii]);
        if thrown.Some? {
          return Throws(thrown.value), ii;
        }
        ii := ii + 1;
      }
      rx.Connect();
      r, n := Ok(()), ll;
    }
  }
}
