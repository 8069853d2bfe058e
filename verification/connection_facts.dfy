/**
 * What each connection operation of react/Reactor.java and react/Cons.java
 * does to a reactor, outside a pass (at once) and during one (deferred).
 */
module ConnectionFacts {
  import opened Common
  import opened Cons
  import opened Engine
  import opened EngineFacts

  /** Changing a cell that is not in the chain does not change the chain's priorities. */
  lemma PrioFrame(s: seq<CellId>, cells: Cells, c: CellId, x: Cell)
    requires c !in s
    ensures forall y :: y in s ==> Prio(cells[c := x], y) == Prio(cells, y)
    ensures NonIncreasing(s, cells) ==> NonIncreasing(s, cells[c := x])
    ensures FirstBelow(s, cells[c := x], x.priority) == FirstBelow(s, cells, x.priority)
  {
    var k := FirstBelow(s, cells, x.priority);
    FirstBelowUnique(s, cells[c := x], x.priority, k);
  }

  /**
   * `addConnection` outside a pass: a null listener is refused with
   * NullPointerException and nothing changes; otherwise a fresh open cell
   * of priority 0 is linked after every cell of priority at least 0 and
   * before the first one below, and a sorted chain stays sorted.
   */
  lemma AddConnectionAtRest<P>(st: State<P>, listener: Option<nat>)
    requires Valid(st) && !st.dispatching
    ensures listener.None? ==> AddConnection(st, listener) == (st, Throws(NullPointer(NullListener)))
    ensures listener.Some? ==>
      var (r, res) := AddConnection(st, listener);
      var c := st.nextId;
      var k := FirstBelow(st.chain, st.cells, 0);
      && res == Ok(c) && c !in st.cells && c !in st.chain
      && r.cells == st.cells[c := Cell(Slot(listener.value), 0, false, true)]
      && r.chain == st.chain[..k] + [c] + st.chain[k..]
      && (NonIncreasing(st.chain, st.cells) ==> NonIncreasing(r.chain, r.cells))
      && Valid(r) && !r.dispatching
  {
    if listener.Some? {
      var c := st.nextId;
      var x := Cell(Slot(listener.value), 0, false, true);
      var (r, res) := AddConnection(st, listener);
      assert c !in st.chain;
      PrioFrame(st.chain, st.cells, c, x);
      InsertedAt(st.chain, r.cells, c);
      if NonIncreasing(st.chain, st.cells) {
        InsertedKeepsOrder(st.chain, r.cells, c);
      }
      ApplyValid(st, Connect(listener.value));
    }
  }

  /**
   * `addConnection` during a pass: the cell is created open at once, but
   * the chain the pass walks is untouched and the insertion waits at the
   * end of the queue.
   */
  lemma AddConnectionDuringPass<P>(st: State<P>, slot: nat)
    requires Valid(st) && st.dispatching
    ensures var (r, res) := AddConnection(st, Some(slot));
      && res == Ok(st.nextId) && st.nextId !in st.chain
      && r.chain == st.chain && r.pending == st.pending + [InsertRun(st.nextId)]
      && ListenerOf(r.cells, st.nextId) == Slot(slot) && r.cells[st.nextId].owned
      && Valid(r)
  {
    assert st.nextId !in st.chain;
    ApplyValid(st, Connect(slot));
  }

  /**
   * `close`: the listener is swapped for the placeholder and the cell is
   * marked closed at once; outside a pass it is unlinked at once, during
   * one the unlinking is queued. No other cell changes, and closing a
   * closed cell does nothing.
   */
  lemma CloseEffect<P>(st: State<P>, c: CellId)
    requires Valid(st) && c in st.cells
    ensures var r := Close(st, c);
      && ListenerOf(r.cells, c) == Noop && c in r.cells && !r.cells[c].owned
      && (forall x :: x in st.cells && x != c ==> x in r.cells && r.cells[x] == st.cells[x])
      && Close(r, c) == r
      && (!st.cells[c].owned ==> r == st)
      && (st.cells[c].owned && !st.dispatching ==> r.chain == Removed(st.chain, c) && c !in r.chain)
      && (st.cells[c].owned && st.dispatching ==> r.chain == st.chain && r.pending == st.pending + [RemoveRun(c)])
      && Valid(r)
  {
    CloseValid(st, c);
    RemovedMembers(st.chain, c);
    if st.cells[c].owned {
      assert Close(st, c).cells == st.cells[c := st.cells[c].(listener := Noop, owned := false)];
    }
  }

  /** `once`: only the one-shot flag of the cell changes. */
  lemma OnceEffect<P>(st: State<P>, c: CellId)
    requires c in st.cells
    ensures var r := Once(st, c);
      && r.cells == st.cells[c := st.cells[c].(oneShot := true)]
      && r.chain == st.chain && r.pending == st.pending && r.dispatching == st.dispatching
      && r.log == st.log && r.errors == st.errors && r.nextId == st.nextId
      && Once(r, c) == r
  {
  }

  /** `atPrio` on a closed connection throws IllegalStateException and changes nothing. */
  lemma AtPrioClosed<P>(st: State<P>, c: CellId, p: int)
    requires c !in st.cells || !st.cells[c].owned
    ensures AtPrio(st, c, p) == (st, Some(IllegalState(PrioOfClosed)))
  {
  }

  /**
   * `atPrio` on an open connection outside a pass: the cell is unlinked and
   * linked again under its new priority, so the chain holds the same cells
   * plus this one, and a sorted chain stays sorted.
   */
  lemma AtPrioAtRest<P>(st: State<P>, c: CellId, p: int)
    requires Valid(st) && !st.dispatching && c in st.cells && st.cells[c].owned
    ensures var (r, e) := AtPrio(st, c, p);
      && e.None?
      && r.cells == st.cells[c := st.cells[c].(priority := p)]
      && r.chain == Inserted(Removed(st.chain, c), r.cells, c)
      && (forall x :: x in r.chain <==> x in st.chain || x == c)
      && (NonIncreasing(st.chain, st.cells) ==> NonIncreasing(r.chain, r.cells))
      && Valid(r)
  {
    var (r, e) := AtPrio(st, c, p);
    var rest := Removed(st.chain, c);
    RemovedMembers(st.chain, c);
    InsertedContents(rest, r.cells, c);
    if NonIncreasing(st.chain, st.cells) {
      AtPrioKeepsOrder(st, c, p);
    }
    AtPrioValid(st, c, p);
  }

  /** `atPrio` outside a pass keeps a sorted chain sorted under the new priority. */
  lemma AtPrioKeepsOrder<P>(st: State<P>, c: CellId, p: int)
    requires !st.dispatching && c in st.cells && st.cells[c].owned
    requires Distinct(st.chain) && NonIncreasing(st.chain, st.cells)
    ensures NonIncreasing(AtPrio(st, c, p).0.chain, AtPrio(st, c, p).0.cells)
  {
    var r := AtPrio(st, c, p).0;
    var rest := Removed(st.chain, c);
    assert r.cells == st.cells[c := st.cells[c].(priority := p)];
    assert r.chain == Inserted(rest, r.cells, c);
    RemovedKeepsOrder(st.chain, st.cells, c);
    RemovedMembers(st.chain, c);
    PrioFrame(rest, st.cells, c, st.cells[c].(priority := p));
    InsertedKeepsOrder(rest, r.cells, c);
  }

  /**
   * `removeConnection(l)` outside a pass: exactly the cells of listener `l`
   * leave the chain, the others keep their order. The removed cells are
   * not closed: they keep their listener and stay open.
   */
  lemma RemoveConnectionAtRest<P>(st: State<P>, l: Listener)
    requires Valid(st) && !st.dispatching
    ensures var r := RemoveConnection(st, l);
      && (forall x :: x in r.chain <==> x in st.chain && ListenerOf(st.cells, x) != l)
      && r.cells == st.cells
      && (NonIncreasing(st.chain, st.cells) ==> NonIncreasing(r.chain, r.cells))
  {
    RemovedAllMembers(st.chain, st.cells, l);
    RemovedAllKeepsOrder(st.chain, st.cells, l);
  }

  /**
   * `clearConnections`: while dispatching it throws IllegalStateException
   * and changes nothing; otherwise the chain is emptied, the reactor has no
   * connections any more, and the cells are left open.
   */
  lemma ClearConnectionsEffect<P>(st: State<P>)
    requires Valid(st)
    ensures st.dispatching ==> ClearConnections(st) == (st, Some(IllegalState(ClearWhileDispatching)))
    ensures !st.dispatching ==>
      var (r, e) := ClearConnections(st);
      e.None? && r.chain == [] && !HasConnections(r) && r.cells == st.cells && Valid(r)
  {
  }

  /**
   * `hasConnections` is true throughout a pass, even over an empty chain,
   * and at rest exactly when some cell is linked.
   */
  lemma HasConnectionsMeaning<P>(st: State<P>)
    ensures st.dispatching ==> HasConnections(st)
    ensures !st.dispatching ==> (HasConnections(st) <==> exists c :: c in st.chain)
  {
    if !st.dispatching && st.chain != [] {
      assert st.chain[0] in st.chain;
    }
  }
}
