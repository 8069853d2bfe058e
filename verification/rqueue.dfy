/**
 * react/RQueue.java: a queue that notifies `onOffer` and `onPoll`. Only
 * the head can be removed. The backing queue is a sequence, head first, of
 * nullable elements (the default LinkedList accepts null), with an
 * optional capacity for a bounded backing queue.
 */
module RQueues {
  import opened Common
  import opened Collections

  datatype QueueEvent<E> = Offered(elem: Option<E>) | Polled(elem: Option<E>)

  /** `Queue.add` on a full bounded queue (AbstractQueue's wording). */
  const QueueFull := "Queue full"

  /** What a listener that keeps a copy of the queue does with an event. */
  function ApplyEvent<E>(q: seq<Option<E>>, ev: QueueEvent<E>): seq<Option<E>> {
    match ev
    case Offered(x) => q + [x]
    case Polled(_) => if q == [] then q else q[1..]
  }

  function Replay<E>(q: seq<Option<E>>, evs: seq<QueueEvent<E>>): seq<Option<E>>
    decreases |evs|
  {
    if evs == [] then q else ApplyEvent(Replay(q, evs[..|evs| - 1]), evs[|evs| - 1])
  }

  lemma ReplaySnoc<E>(q: seq<Option<E>>, evs: seq<QueueEvent<E>>, ev: QueueEvent<E>)
    ensures Replay(q, evs + [ev]) == ApplyEvent(Replay(q, evs), ev)
  {
    assert (evs + [ev])[..|evs|] == evs;
  }

  function Offers<E>(xs: seq<Option<E>>): (r: seq<QueueEvent<E>>)
    ensures |r| == |xs| && forall k :: 0 <= k < |xs| ==> r[k] == Offered(xs[k])
  {
    seq(|xs|, k requires 0 <= k < |xs| => Offered(xs[k]))
  }

  function Polls<E>(xs: seq<Option<E>>): (r: seq<QueueEvent<E>>)
    ensures |r| == |xs| && forall k :: 0 <= k < |xs| ==> r[k] == Polled(xs[k])
  {
    seq(|xs|, k requires 0 <= k < |xs| => Polled(xs[k]))
  }

  /** The offers of `xs`, replayed, append `xs` in order. */
  lemma {:induction false} ReplayOffers<E>(q: seq<Option<E>>, xs: seq<Option<E>>)
    ensures Replay(q, Offers(xs)) == q + xs
    decreases |xs|
  {
    if xs != [] {
      var ys := xs[..|xs| - 1];
      assert Offers(xs) == Offers(ys) + [Offered(xs[|xs| - 1])];
      ReplaySnoc(q, Offers(ys), Offered(xs[|xs| - 1]));
      ReplayOffers(q, ys);
      assert xs == ys + [xs[|xs| - 1]];
    }
  }

  /** Polling the first `n` elements, replayed, leaves the rest: the head goes first. */
  lemma {:induction false} ReplayPolls<E>(q: seq<Option<E>>, n: nat)
    requires n <= |q|
    ensures Replay(q, Polls(q[..n])) == q[n..]
  {
    if n > 0 {
      assert Polls(q[..n]) == Polls(q[..n - 1]) + [Polled(q[n - 1])];
      ReplaySnoc(q, Polls(q[..n - 1]), Polled(q[n - 1]));
      ReplayPolls(q, n - 1);
      assert q[n - 1..][1..] == q[n..];
    }
  }

  /**
   * First in, first out: after offering `xs` to a queue holding `q`,
   * polling as many elements as it holds yields `q` and then `xs`, in
   * order, and leaves it empty.
   */
  lemma FirstInFirstOut<E>(q: seq<Option<E>>, xs: seq<Option<E>>)
    ensures var full := Replay(q, Offers(xs));
      Replay(full, Polls(q + xs)) == [] && full == q + xs
  {
    ReplayOffers(q, xs);
    ReplayPolls(q + xs, |q + xs|);
    assert (q + xs)[..|q + xs|] == q + xs;
  }

  class RQueue<E(==)> {
    const rx: Emitter<QueueEvent<E>>
    /** The backing queue's bound; `None` for an unbounded one such as LinkedList. */
    const capacity: Option<nat>
    /** `_impl`, head first. */
    var impl: seq<Option<E>>

    /** The backing queue holds no more than it can. */
    ghost predicate Valid()
      reads this
    {
      capacity.Some? ==> |impl| <= capacity.value
    }

    /**
     * A size view that exists shows the size. Every notification restores
     * this; only `poll` of a null head, which notifies nothing, breaks it.
     */
    ghost predicate SizeCurrent()
      reads this, rx
    {
      rx.sizeView.Some? ==> rx.sizeView.value == |impl|
    }

    predicate Full()
      reads this
    {
      capacity.Some? && |impl| >= capacity.value
    }

    /** `RQueue(impl)`: wraps the queue; nothing is notified. */
    constructor (impl: seq<Option<E>>, capacity: Option<nat>, reaction: QueueEvent<E> -> Option<Exn>)
      requires capacity.Some? ==> |impl| <= capacity.value
      ensures Valid() && SizeCurrent() && this.impl == impl && this.capacity == capacity && rx.reaction == reaction && rx.events == [] && fresh(rx)
    {
      this.impl := impl;
      this.capacity := capacity;
      rx := new Emitter(reaction);
    }

    /**
     * `offer(e)`: when the backing queue accepts `e`, appends it, notifies
     * `onOffer(e)` and returns true; a full queue gives false and no event.
     */
    method Offer(e: Option<E>) returns (r: Result<bool>)
      requires Valid()
      modifies this, rx
      ensures Valid() && rx.connections == old(rx.connections) && (old(SizeCurrent()) ==> SizeCurrent())
      ensures old(Full()) ==> r == Ok(false) && impl == old(impl) && rx.events == old(rx.events) && rx.sizeView == old(rx.sizeView)
      ensures !old(Full()) ==>
        && impl == old(impl) + [e] && impl == ApplyEvent(old(impl), Offered(e))
        && rx.events == old(rx.events) + [Offered(e)]
        && r == Returning(rx.reaction(Offered(e)), true)
    {
      if Full() {
        return Ok(false);
      }
      impl := impl + [e];
      var thrown := rx.Notify(Offered(e), |impl|);
      r := Returning(thrown, true);
    }

    /** `add(e)`: like `offer`, but a full queue throws IllegalStateException instead. */
    method Add(e: Option<E>) returns (r: Result<bool>)
      requires Valid()
      modifies this, rx
      ensures Valid() && rx.connections == old(rx.connections) && (old(SizeCurrent()) ==> SizeCurrent())
      ensures old(Full()) ==> r == Throws(IllegalState(QueueFull)) && impl == old(impl) && rx.events == old(rx.events) && rx.sizeView == old(rx.sizeView)
      ensures !old(Full()) ==>
        && impl == old(impl) + [e] && impl == ApplyEvent(old(impl), Offered(e))
        && rx.events == old(rx.events) + [Offered(e)]
        && r == Returning(rx.reaction(Offered(e)), true)
    {
      if Full() {
        return Throws(IllegalState(QueueFull));
      }
      impl := impl + [e];
      var thrown := rx.Notify(Offered(e), |impl|);
      r := Returning(thrown, true);
    }

    /**
     * `addAll(elems)`: `add` of each element in turn, so every element
     * added has its event; the first exception (a full queue, or a
     * listener's) stops the walk. `n` counts the elements added.
     */
    method AddAll(elems: seq<Option<E>>) returns (r: Result<bool>, ghost n: nat)
      requires Valid()
      modifies this, rx
      ensures Valid() && rx.connections == old(rx.connections) && (old(SizeCurrent()) ==> SizeCurrent()) && n <= |elems|
      ensures impl == old(impl) + elems[..n] && impl == Replay(old(impl), Offers(elems[..n]))
      ensures rx.events == old(rx.events) + Offers(elems[..n])
      ensures forall k :: 0 <= k < n - 1 ==> rx.reaction(Offered(elems[k])).None?
      ensures r.Ok? ==> r.value && n == |elems| && forall k :: 0 <= k < n ==> rx.reaction(Offered(elems[k])).None?
      ensures r.Throws? && r.exn != IllegalState(QueueFull) ==> n > 0 && rx.reaction(Offered(elems[n - 1])) == Some(r.exn)
      ensures capacity.None? && r.Throws? ==> n > 0 && rx.reaction(Offered(elems[n - 1])) == Some(r.exn)
    {
      var i := 0;
      r := Ok(true);
      while i < |elems| && r.Ok?
        invariant i <= |elems|
        invariant Valid() && rx.connections == old(rx.connections) && (old(SizeCurrent()) ==> SizeCurrent())
        invariant impl == old(impl) + elems[..i]
        invariant rx.events == old(rx.events) + Offers(elems[..i])
        invariant forall k :: 0 <= k < i - 1 ==> rx.reaction(Offered(elems[k])).None?
        invariant r.Ok? ==> r.value && forall k :: 0 <= k < i ==> rx.reaction(Offered(elems[k])).None?
        invariant r.Throws? && r.exn != IllegalState(QueueFull) ==> i > 0 && rx.reaction(Offered(elems[i - 1])) == Some(r.exn)
        invariant capacity.None? && r.Throws? ==> i > 0 && rx.reaction(Offered(elems[i - 1])) == Some(r.exn)
        decreases |elems| - i, if r.Ok? then 1 else 0
      {
        TakeOneMore(elems, i);
        assert Offers(elems[..i + 1]) == Offers(elems[..i]) + [Offered(elems[i])];
        var full := Full();
        var res := Add(elems[i]);
        if full {
          r := res;
        } else {
          i := i + 1;
          if res.Throws? {
            r := Throws(res.exn);
          }
        }
      }
      if r.Ok? {
        assert elems[..i] == elems;
      }
      ReplayOffers(old(impl), elems[..i]);
      n := i;
    }

    /**
     * `poll()`: an empty queue gives null and no event. Otherwise the head
     * is removed and returned, and `onPoll(head)` is notified unless the
     * head is null: then it goes without an event, and so without a size
     * update, and a size view that exists is left one too high.
     */
    method Poll() returns (r: Result<Option<E>>)
      requires Valid()
      modifies this, rx
      ensures Valid() && rx.connections == old(rx.connections)
      ensures old(impl) == [] || old(impl)[0].Some? ==> (old(SizeCurrent()) ==> SizeCurrent())
      ensures old(impl) != [] && old(impl)[0].None? && old(SizeCurrent()) && rx.sizeView.Some? ==> rx.sizeView.value == |impl| + 1
      ensures old(impl) == [] ==> r == Ok(None) && impl == [] && rx.events == old(rx.events) && rx.sizeView == old(rx.sizeView)
      ensures old(impl) != [] ==> impl == old(impl)[1..]
      ensures old(impl) != [] && old(impl)[0].None? ==> r == Ok(None) && rx.events == old(rx.events) && rx.sizeView == old(rx.sizeView)
      ensures old(impl) != [] && old(impl)[0].Some? ==>
        && impl == ApplyEvent(old(impl), Polled(old(impl)[0]))
        && rx.events == old(rx.events) + [Polled(old(impl)[0])]
        && r == Returning(rx.reaction(Polled(old(impl)[0])), old(impl)[0])
    {
      if impl == [] {
        return Ok(None);
      }
      var elem := impl[0];
      impl := impl[1..];
      if elem.Some? {
        var thrown := rx.Notify(Polled(elem), |impl|);
        return Returning(thrown, elem);
      }
      r := Ok(None);
    }

    /**
     * `remove()`: like `poll`, but an empty queue throws
     * NoSuchElementException, and the removed head is notified even when
     * it is null.
     */
    method Remove() returns (r: Result<Option<E>>)
      requires Valid()
      modifies this, rx
      ensures Valid() && rx.connections == old(rx.connections) && (old(SizeCurrent()) ==> SizeCurrent())
      ensures old(impl) == [] ==> r == Throws(NoSuchElement("null")) && impl == [] && rx.events == old(rx.events) && rx.sizeView == old(rx.sizeView)
      ensures old(impl) != [] ==>
        && impl == old(impl)[1..] && impl == ApplyEvent(old(impl), Polled(old(impl)[0]))
        && rx.events == old(rx.events) + [Polled(old(impl)[0])]
        && r == Returning(rx.reaction(Polled(old(impl)[0])), old(impl)[0])
    {
      if impl == [] {
        return Throws(NoSuchElement("null"));
      }
      var elem := impl[0];
      impl := impl[1..];
      var thrown := rx.Notify(Polled(elem), |impl|);
      r := Returning(thrown, elem);
    }

    /**
     * `clear()`: `remove()` until empty, so every element is notified, head
     * first. `n` counts the removals; an exception stops it after the
     * removal that caused it.
     */
    method Clear() returns (r: Result<()>, ghost n: nat)
      requires Valid()
      modifies this, rx
      ensures Valid() && rx.connections == old(rx.connections) && (old(SizeCurrent()) ==> SizeCurrent()) && n <= |old(impl)|
      ensures impl == old(impl)[n..] && impl == Replay(old(impl), Polls(old(impl)[..n]))
      ensures rx.events == old(rx.events) + Polls(old(impl)[..n])
      ensures forall k :: 0 <= k < n - 1 ==> rx.reaction(Polled(old(impl)[k])).None?
      ensures r.Ok? ==> n == |old(impl)| && impl == []
      ensures r.Throws? ==> n > 0 && rx.reaction(Polled(old(impl)[n - 1])) == Some(r.exn)
    {
      n := 0;
      while impl != []
        invariant n <= |old(impl)| && impl == old(impl)[n..]
        invariant Valid() && rx.connections == old(rx.connections) && (old(SizeCurrent()) ==> SizeCurrent())
        invariant rx.events == old(rx.events) + Polls(old(impl)[..n])
        invariant forall k :: 0 <= k < n ==> rx.reaction(Polled(old(impl)[k])).None?
        decreases |impl|
      {
        assert old(impl)[..n + 1] == old(impl)[..n] + [old(impl)[n]];
        assert Polls(old(impl)[..n + 1]) == Polls(old(impl)[..n]) + [Polled(old(impl)[n])];
        var res := Remove();
        n := n + 1;
        assert old(impl)[n - 1..][1..] == old(impl)[n..];
        if res.Throws? {
          ReplayPolls(old(impl), n);
          return Throws(res.exn), n;
        }
      }
      ReplayPolls(old(impl), n);
      r := Ok(());
    }

    /**
     * `connectNotify(listener)`: `onOffer` of every element, head first,
     * sent to the new listener alone, then `connect`; an exception during
     * the replay (at element `n`) propagates and it is not connected.
     */
    method ConnectNotify(onOffer: Option<E> -> Option<Exn>) returns (r: Result<()>, ghost n: nat)
      requires Valid()
      modifies rx
      ensures Valid()
      ensures rx.events == old(rx.events) && rx.sizeView == old(rx.sizeView) && rx.sizeChanges == old(rx.sizeChanges)
      ensures forall k :: 0 <= k < n && k < |impl| ==> onOffer(impl[k]).None?
      ensures r.Ok? ==> n == |impl| && rx.connections == old(rx.connections) + 1
      ensures r.Throws? ==> n < |impl| && onOffer(impl[n]) == Some(r.exn) && rx.connections == old(rx.connections)
    {
      var ii := 0;
      while ii < |impl|
        invariant 0 <= ii <= |impl|
        invariant forall k :: 0 <= k < ii ==> onOffer(impl[k]).None?
      {
        var thrown := onOffer(impl[ii]);
        if thrown.Some? {
          return Throws(thrown.value), ii;
        }
        ii := ii + 1;
      }
      rx.Connect();
      r, n := Ok(()), ii;
    }

    /**
     * Arbitrary removal is refused: `remove(Object)`, `removeAll`,
     * `retainAll` and the iterator's `remove` throw
     * UnsupportedOperationException and change nothing.
     */
    method ArbitraryRemoval() returns (r: Result<bool>)
      ensures r == Throws(Unsupported("null"))
    {
      r := Throws(Unsupported("null"));
    }
  }
}
