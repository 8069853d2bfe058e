/**
 * Connection bookkeeping: react/ConnectionGroup.java and the connections
 * of react/Connection.java that are not cells (`NOOP`, `join`). The
 * connections they hold are cells of one reactor, at rest or mid-pass, and
 * `disconnect` of such a connection is `Cons.close`.
 */
module Connections {
  import opened Common
  import opened Cons
  import opened Engine
  import opened Reactors
  import EngineFacts
  import ConnectionFacts

  /** The adjustments a connection offers besides `disconnect`. */
  datatype Adjustment = Once | AtPrio(priority: int) | HoldWeakly

  /**
   * On a connection that is not a cell (`NOOP`, or one made by `join`),
   * `once`, `atPrio` and `holdWeakly` throw UnsupportedOperationException.
   */
  function WrapperAdjust(a: Adjustment): (r: Result<()>)
    ensures r.Throws? && r.exn.Unsupported?
  {
    Throws(Unsupported("null"))
  }

  /** `NOOP.disconnect()`: does nothing, however often it is called. */
  method NoopDisconnect<P>(rx: Reactor<P>)
    ensures rx.Model() == old(rx.Model())
  {
  }

  /** An open cell of the reactor: `close` on it has an effect. */
  ghost predicate IsOpen<P>(st: State<P>, c: CellId) {
    c in st.cells && st.cells[c].owned
  }

  /**
   * The reactor after closing `c`: an open cell is closed and its listener
   * swapped for the placeholder; at rest it is unlinked at once and the
   * other cells keep their order, during a pass the snapshot is kept and
   * its unlinking queued. The log, the errors, the id counter and the
   * exhausted flag do not change.
   */
  ghost predicate Closed<P>(before: State<P>, after: State<P>, c: CellId) {
    && (c in before.cells ==> c in after.cells && !after.cells[c].owned && ListenerOf(after.cells, c) == Noop)
    && (forall x :: x in before.cells && x != c ==> x in after.cells && after.cells[x] == before.cells[x])
    && (forall x :: x in after.cells ==> x in before.cells)
    && after.dispatching == before.dispatching
    && after.log == before.log && after.errors == before.errors
    && after.nextId == before.nextId && after.exhausted == before.exhausted
    && (!before.dispatching ==>
          && after.chain == (if IsOpen(before, c) then Removed(before.chain, c) else before.chain)
          && after.pending == before.pending)
    && (!before.dispatching ==> forall x :: x in after.chain <==> x in before.chain && !(x == c && IsOpen(before, c)))
    && (before.dispatching ==>
          && after.chain == before.chain
          && after.pending == before.pending + (if IsOpen(before, c) then [RemoveRun(c)] else []))
    && (!IsOpen(before, c) ==> after == before)
  }

  lemma CloseMeaning<P>(st: State<P>, c: CellId)
    requires EngineFacts.Valid(st)
    ensures Closed(st, Close(st, c), c) && EngineFacts.Valid(Close(st, c))
  {
    EngineFacts.CloseValid(st, c);
    if IsOpen(st, c) {
      ConnectionFacts.CloseEffect(st, c);
      RemovedMembers(st.chain, c);
    }
  }

  /** The members of `done` that were open in `start`: the ones closing them affects. */
  ghost function OpenOf<P>(start: State<P>, done: set<CellId>): set<CellId> {
    set x | x in done && IsOpen(start, x)
  }

  /** The chain `s` without the cells of `gone`, the others in their order. */
  ghost function Without(s: seq<CellId>, gone: set<CellId>): seq<CellId> {
    if s == [] then []
    else (if s[0] in gone then [] else [s[0]]) + Without(s[1..], gone)
  }

  /** Dropping nothing keeps the chain. */
  lemma {:induction false} WithoutNone(s: seq<CellId>)
    ensures Without(s, {}) == s
  {
    if s != [] {
      WithoutNone(s[1..]);
    }
  }

  /** A cell that is not in the chain makes no difference to what is dropped. */
  lemma {:induction false} WithoutAbsent(s: seq<CellId>, gone: set<CellId>, c: CellId)
    requires c !in s
    ensures Without(s, gone + {c}) == Without(s, gone)
  {
    if s != [] {
      WithoutAbsent(s[1..], gone, c);
    }
  }

  /** On a chain without repeats, unlinking one more cell drops it as well. */
  lemma {:induction false} WithoutRemoved(s: seq<CellId>, gone: set<CellId>, c: CellId)
    requires Distinct(s) && c !in gone
    ensures Removed(Without(s, gone), c) == Without(s, gone + {c})
  {
    if s != [] {
      var h, tl := s[0], s[1..];
      var t := Without(tl, gone);
      assert Without(s, gone) == (if h in gone then [] else [h]) + t;
      assert Without(s, gone + {c}) == (if h in gone + {c} then [] else [h]) + Without(tl, gone + {c});
      assert Distinct(tl) by {
        forall i, j | 0 <= i < j < |tl| ensures tl[i] != tl[j] {
          assert tl[i] == s[i + 1] && tl[j] == s[j + 1];
        }
      }
      if h == c {
        assert c !in tl by {
          forall j | 0 <= j < |tl| ensures tl[j] != c {
            assert tl[j] == s[j + 1];
          }
        }
        WithoutAbsent(tl, gone, c);
        assert ([c] + t)[1..] == t;
      } else {
        WithoutRemoved(tl, gone, c);
        if h !in gone {
          assert ([h] + t)[0] == h && ([h] + t)[1..] == t;
          assert Removed([h] + t, c) == [h] + Removed(t, c);
          assert h !in gone + {c};
        } else {
          assert Without(s, gone) == t && Without(s, gone + {c}) == Without(tl, gone + {c});
        }
      }
    }
  }

  /**
   * During a pass, the runs queued since `start` are removals of open
   * members of `done`, every open member of `done` has one, and there are
   * exactly as many as open members: one each.
   */
  ghost predicate UnlinksQueued<P>(start: State<P>, now: State<P>, done: set<CellId>) {
    && start.pending <= now.pending
    && |now.pending| == |start.pending| + |OpenOf(start, done)|
    && (forall k :: |start.pending| <= k < |now.pending| ==>
          now.pending[k].RemoveRun? && now.pending[k].cell in done && IsOpen(start, now.pending[k].cell))
    && (forall x :: x in done && IsOpen(start, x) ==> RemoveRun(x) in now.pending[|start.pending|..])
  }

  /**
   * The reactor after closing every cell of `done`: those that were open
   * are closed; at rest they are unlinked and the rest of the chain keeps
   * its order, during a pass the snapshot is kept and their unlinking
   * queued; every other cell is as it was, and so are the log, the errors,
   * the id counter and the exhausted flag.
   */
  ghost predicate ClosedAll<P>(start: State<P>, now: State<P>, done: set<CellId>) {
    && (forall c :: c in done && c in start.cells ==> c in now.cells && !now.cells[c].owned && ListenerOf(now.cells, c) == Noop)
    && (forall x :: x in start.cells && x !in done ==> x in now.cells && now.cells[x] == start.cells[x])
    && (forall x :: x in now.cells ==> x in start.cells)
    && now.dispatching == start.dispatching
    && now.log == start.log && now.errors == start.errors
    && now.nextId == start.nextId && now.exhausted == start.exhausted
    && (!start.dispatching ==> now.chain == Without(start.chain, OpenOf(start, done)) && now.pending == start.pending)
    && (!start.dispatching ==> forall x :: x in now.chain <==> x in start.chain && !(x in done && IsOpen(start, x)))
    && (start.dispatching ==> now.chain == start.chain && UnlinksQueued(start, now, done))
  }

  /** Closing nothing leaves the reactor as it was. */
  lemma ClosedNone<P>(st: State<P>)
    ensures ClosedAll(st, st, {})
  {
    assert OpenOf(st, {}) == {};
    WithoutNone(st.chain);
  }

  /**
   * Closing `c` after the cells of `done` affects it exactly when it is
   * still open, and then it is one more open member of `done + {c}`.
   */
  lemma OpenOfStep<P>(start: State<P>, mid: State<P>, done: set<CellId>, c: CellId)
    requires forall x :: x in start.cells && x !in done ==> x in mid.cells && mid.cells[x] == start.cells[x]
    requires forall x :: x in done && x in start.cells ==> x in mid.cells && !mid.cells[x].owned
    requires forall x :: x in mid.cells ==> x in start.cells
    ensures IsOpen(mid, c) ==>
      && c !in OpenOf(start, done)
      && OpenOf(start, done + {c}) == OpenOf(start, done) + {c}
      && |OpenOf(start, done + {c})| == |OpenOf(start, done)| + 1
    ensures !IsOpen(mid, c) ==> OpenOf(start, done + {c}) == OpenOf(start, done)
    ensures IsOpen(mid, c) <==> c !in done && IsOpen(start, c)
  {
    assert IsOpen(mid, c) ==> c !in done && IsOpen(start, c);
    if IsOpen(mid, c) {
      assert OpenOf(start, done + {c}) == OpenOf(start, done) + {c};
    } else {
      assert IsOpen(start, c) ==> c in done;
      assert OpenOf(start, done + {c}) == OpenOf(start, done);
    }
  }

  /** During a pass, closing one more cell queues its removal, if it is open, after the earlier ones. */
  lemma UnlinksQueuedStep<P>(start: State<P>, mid: State<P>, after: State<P>, done: set<CellId>, c: CellId)
    requires UnlinksQueued(start, mid, done)
    requires after.pending == mid.pending + (if IsOpen(mid, c) then [RemoveRun(c)] else [])
    requires IsOpen(mid, c) <==> c !in done && IsOpen(start, c)
    requires |OpenOf(start, done + {c})| == |OpenOf(start, done)| + (if IsOpen(mid, c) then 1 else 0)
    ensures UnlinksQueued(start, after, done + {c})
  {
    var n := |start.pending|;
    var add := if IsOpen(mid, c) then [RemoveRun(c)] else [];
    assert after.pending[n..] == mid.pending[n..] + add;
  }

  /** Closing one more cell extends the closed set by that cell. */
  lemma ClosedAllStep<P>(start: State<P>, mid: State<P>, after: State<P>, done: set<CellId>, c: CellId)
    requires Distinct(start.chain)
    requires ClosedAll(start, mid, done) && Closed(mid, after, c)
    ensures ClosedAll(start, after, done + {c})
  {
    OpenOfStep(start, mid, done, c);
    if start.dispatching {
      UnlinksQueuedStep(start, mid, after, done, c);
    } else if IsOpen(mid, c) {
      WithoutRemoved(start.chain, OpenOf(start, done), c);
    }
  }

  /** `c.disconnect()` for one member of a group or a join. */
  method CloseMember<P>(rx: Reactor<P>, c: CellId, ghost start: State<P>, ghost done: set<CellId>)
    requires rx.Valid() && Distinct(start.chain) && ClosedAll(start, rx.Model(), done)
    modifies rx, rx.chain
    ensures rx.Valid() && ClosedAll(start, rx.Model(), done + {c})
  {
    ghost var mid := rx.Model();
    CloseMeaning(mid, c);
    rx.Close(c);
    ClosedAllStep(start, mid, rx.Model(), done, c);
  }

  /** The loop of `ConnectionGroup.disconnect()`: closes every member, in the set's own order. */
  method CloseAll<P>(rx: Reactor<P>, members: set<CellId>)
    requires rx.Valid()
    modifies rx, rx.chain
    ensures rx.Valid()
    ensures ClosedAll(old(rx.Model()), rx.Model(), members)
  {
    var rest := members;
    ghost var start := rx.Model();
    ghost var done: set<CellId> := {};
    ClosedNone(start);
    while rest != {}
      invariant rest + done == members && rest !! done
      invariant rx.Valid()
      invariant ClosedAll(start, rx.Model(), done)
      decreases |rest|
    {
      var c :| c in rest;
      CloseMember(rx, c, start, done);
      done := done + {c};
      rest := rest - {c};
    }
    assert done == members;
  }

  /** `ConnectionGroup`: a set of connections that can be disconnected all at once. */
  class ConnectionGroup<P> {
    const rx: Reactor<P>
    /** `_connections`. */
    var connections: set<CellId>

    constructor (rx: Reactor<P>)
      ensures this.rx == rx && connections == {}
    {
      this.rx := rx;
      connections := {};
    }

    /** `add(c)`: returns `c`; adding a member again changes nothing. */
    method Add(c: CellId) returns (r: CellId)
      modifies this
      ensures r == c && connections == old(connections) + {c}
    {
      connections := connections + {c};
      r := c;
    }

    /** `remove(c)`: forgets `c` and leaves it connected. */
    method Remove(c: CellId)
      modifies this
      ensures connections == old(connections) - {c}
    {
      connections := connections - {c};
    }

    /**
     * `disconnect()`: closes every member, in the set's own order, then
     * empties the group. Afterwards every member is closed (and unlinked,
     * or its unlinking queued during a pass), and every other cell is as
     * it was.
     */
    method Disconnect()
      requires rx.Valid()
      modifies this, rx, rx.chain
      ensures rx.Valid() && connections == {}
      ensures ClosedAll(old(rx.Model()), rx.Model(), old(connections))
    {
      CloseAll(rx, connections);
      connections := {};
    }
  }

  /**
   * The connection `join(cons...)` returns: its `disconnect` walks the
   * array, disconnecting each non-null component once and nulling its slot.
   */
  class JoinedConnection<P> {
    const rx: Reactor<P>
    const cons: array<Option<CellId>>

    constructor (rx: Reactor<P>, cons: array<Option<CellId>>)
      ensures this.rx == rx && this.cons == cons
    {
      this.rx := rx;
      this.cons := cons;
    }

    /**
     * `disconnect()`: every component that was not null is closed (and
     * unlinked, or its unlinking queued during a pass), every slot is null
     * afterwards, and no other cell changes; a second call therefore does
     * nothing.
     */
    method Disconnect()
      requires rx.Valid()
      modifies cons, rx, rx.chain
      ensures rx.Valid()
      ensures forall i :: 0 <= i < cons.Length ==> cons[i].None?
      ensures ClosedAll(old(rx.Model()), rx.Model(), Components(old(cons[..])))
      ensures Components(old(cons[..])) == {} ==> rx.Model() == old(rx.Model())
    {
      ghost var start := rx.Model();
      ghost var orig := cons[..];
      ghost var done: set<CellId> := {};
      ClosedNone(start);
      var ii := 0;
      while ii < cons.Length
        invariant 0 <= ii <= cons.Length
        invariant rx.Valid()
        invariant forall i :: 0 <= i < ii ==> cons[i].None?
        invariant forall i :: ii <= i < cons.Length ==> cons[i] == orig[i]
        invariant done == Components(orig[..ii])
        invariant ClosedAll(start, rx.Model(), done)
        invariant done == {} ==> rx.Model() == start
      {
        ComponentsSnoc(orig, ii);
        DisconnectSlot(ii, start, done);
        if orig[ii].Some? {
          done := done + {orig[ii].value};
        }
        ii := ii + 1;
      }
      assert orig[..ii] == orig;
    }

    /** One step of `disconnect()`: the component in slot `ii`, if any, is closed and the slot nulled. */
    method DisconnectSlot(ii: nat, ghost start: State<P>, ghost done: set<CellId>)
      requires ii < cons.Length
      requires rx.Valid() && Distinct(start.chain) && ClosedAll(start, rx.Model(), done)
      modifies cons, rx, rx.chain
      ensures rx.Valid() && cons[ii].None?
      ensures forall i :: 0 <= i < cons.Length && i != ii ==> cons[i] == old(cons[i])
      ensures old(cons[ii]).Some? ==> ClosedAll(start, rx.Model(), done + {old(cons[ii]).value})
      ensures old(cons[ii]).None? ==> rx.Model() == old(rx.Model())
    {
      if cons[ii].Some? {
        var c := cons[ii].value;
        CloseMember(rx, c, start, done);
        cons[ii] := None;
      }
    }
  }

  /** The non-null components of a `join`. */
  ghost function Components(s: seq<Option<CellId>>): set<CellId> {
    if s == [] then {}
    else Components(s[..|s| - 1]) + (match s[|s| - 1] case Some(c) => {c} case None => {})
  }

  /** One more slot adds its component, if it has one. */
  lemma ComponentsSnoc(s: seq<Option<CellId>>, i: nat)
    requires i < |s|
    ensures Components(s[..i + 1]) == Components(s[..i]) + (match s[i] case Some(c) => {c} case None => {})
  {
    assert s[..i + 1][..i] == s[..i];
  }

  /** A component is exactly the value of a non-null slot. */
  lemma {:induction false} ComponentsMembers(s: seq<Option<CellId>>, c: CellId)
    ensures c in Components(s) <==> Some(c) in s
  {
    if s != [] {
      ComponentsMembers(s[..|s| - 1], c);
      assert s == s[..|s| - 1] + [s[|s| - 1]];
    }
  }
}
