/**
 * react/RCollection.java: the reactor half shared by the reactive
 * collections. A collection notifies its listeners of each change as an
 * event; here an event is appended to a log, and what the listeners do
 * with it is a fixed `reaction`: the exception the notify pass ends with,
 * if any. After every notification, even one that throws, the lazily
 * created size view is brought up to the collection's size.
 */
module Collections {
  import opened Common

  /** What a mutator returns: `v`, unless the notification ended with an exception. */
  function Returning<T>(thrown: Option<Exn>, v: T): (r: Result<T>)
    ensures thrown.None? <==> r == Ok(v)
    ensures thrown.Some? ==> r == Throws(thrown.value)
  {
    match thrown
    case None => Ok(v)
    case Some(e) => Throws(e)
  }

  /**
   * How `updateSize` moves the size view: a view that exists takes the
   * size, and reports `(size, previous)` when they differ (`Value.update`
   * notifies only on a change); no view, no change.
   */
  function SizeStep(view: Option<int>, changes: seq<(int, int)>, size: int): (r: (Option<int>, seq<(int, int)>))
    ensures view.None? ==> r == (view, changes)
    ensures view.Some? ==> r.0 == Some(size)
    ensures view.Some? && view.value == size ==> r.1 == changes
    ensures view.Some? && view.value != size ==> r.1 == changes + [(size, view.value)]
  {
    match view
    case None => (view, changes)
    case Some(s) => (Some(size), if s == size then changes else changes + [(size, s)])
  }

  /**
   * A walk over the elements of `all` (in an order left open, as a Java
   * hash collection iterates) that has `rest` still to visit and has taken
   * `done`, in order: each visited element once, and only those.
   */
  ghost predicate Walked<E>(all: set<E>, rest: set<E>, done: seq<E>) {
    && rest <= all
    && (forall i :: 0 <= i < |done| ==> done[i] in all - rest)
    && (forall y :: y in all - rest ==> y in done)
    && (forall i, j :: 0 <= i < j < |done| ==> done[i] != done[j])
  }

  /** Taking one more element of what is left extends the walk. */
  lemma WalkStep<E>(all: set<E>, rest: set<E>, done: seq<E>, x: E)
    requires Walked(all, rest, done) && x in rest
    ensures Walked(all, rest - {x}, done + [x])
  {
    var d := done + [x];
    forall y | y in all - (rest - {x})
      ensures y in d
    {
      if y != x {
        assert y in done;
        var i :| 0 <= i < |done| && done[i] == y;
        assert d[i] == y;
      } else {
        assert d[|done|] == x;
      }
    }
  }

  /** The elements of `s`, each once, in an order left open (as a HashSet iterates). */
  method Enumerate<E>(s: set<E>) returns (order: seq<E>)
    ensures forall x :: x in order <==> x in s
    ensures forall i, j :: 0 <= i < j < |order| ==> order[i] != order[j]
  {
    var rest := s;
    order := [];
    while rest != {}
      invariant Walked(s, rest, order)
      decreases |rest|
    {
      var x :| x in rest;
      WalkStep(s, rest, order, x);
      rest := rest - {x};
      order := order + [x];
    }
  }

  /** The reactor of a collection whose events have type `Ev`. */
  class Emitter<Ev> {
    /** What the listeners do with an event: the exception their notify pass ends with. */
    const reaction: Ev -> Option<Exn>
    /** Every event notified so far, oldest first. */
    var events: seq<Ev>
    /** `_sizeView`'s current value; `None` until `sizeView()` is first called. */
    var sizeView: Option<int>
    /** The changes the size view has notified, as `(new, old)`. */
    var sizeChanges: seq<(int, int)>
    /** How many listeners have been connected. */
    var connections: nat

    constructor (reaction: Ev -> Option<Exn>)
      ensures this.reaction == reaction && events == [] && sizeView.None? && sizeChanges == [] && connections == 0
    {
      this.reaction := reaction;
      events := [];
      sizeView := None;
      sizeChanges := [];
      connections := 0;
    }

    /** `connect(listener)`: one more listener; nothing is notified. */
    method Connect()
      modifies this
      ensures connections == old(connections) + 1
      ensures events == old(events) && sizeView == old(sizeView) && sizeChanges == old(sizeChanges)
    {
      connections := connections + 1;
    }

    /**
     * `sizeView()`: created on first use holding the current size, and the
     * same view, untouched, on every later call.
     */
    method SizeView(size: int) returns (v: int)
      modifies this
      ensures old(sizeView).None? ==> sizeView == Some(size) && v == size
      ensures old(sizeView).Some? ==> sizeView == old(sizeView) && v == sizeView.value
      ensures events == old(events) && sizeChanges == old(sizeChanges) && connections == old(connections)
    {
      if sizeView.None? {
        sizeView := Some(size);
      }
      v := sizeView.value;
    }

    /** `isEmptyView()`: the size view, mapped to whether it is 0. */
    method IsEmptyView(size: int) returns (empty: bool)
      modifies this
      requires sizeView.Some? ==> sizeView.value == size
      ensures empty <==> size == 0
      ensures sizeView == Some(size) && events == old(events) && sizeChanges == old(sizeChanges) && connections == old(connections)
    {
      var s := SizeView(size);
      empty := s == 0;
    }

    /** `isNonEmptyView()`: the size view, mapped to whether it is above 0. */
    method IsNonEmptyView(size: int) returns (nonEmpty: bool)
      modifies this
      requires sizeView.Some? ==> sizeView.value == size
      ensures nonEmpty <==> size > 0
      ensures sizeView == Some(size) && events == old(events) && sizeChanges == old(sizeChanges) && connections == old(connections)
    {
      var s := SizeView(size);
      nonEmpty := s > 0;
    }

    /** `updateSize()`: a no-op while no size view exists. */
    method UpdateSize(size: int)
      modifies this
      ensures (sizeView, sizeChanges) == SizeStep(old(sizeView), old(sizeChanges), size)
      ensures events == old(events) && connections == old(connections)
    {
      if sizeView.Some? {
        if sizeView.value != size {
          sizeChanges := sizeChanges + [(size, sizeView.value)];
        }
        sizeView := Some(size);
      }
    }

    /**
     * The `notify` override: the listeners get the event, then, in a
     * `finally`, the size view is updated, whatever they threw.
     */
    method Notify(ev: Ev, size: int) returns (thrown: Option<Exn>)
      modifies this
      ensures events == old(events) + [ev] && thrown == reaction(ev) && connections == old(connections)
      ensures (sizeView, sizeChanges) == SizeStep(old(sizeView), old(sizeChanges), size)
    {
      events := events + [ev];
      thrown := reaction(ev);
      UpdateSize(size);
    }
  }
}
