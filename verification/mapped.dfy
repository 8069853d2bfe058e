/**
 * react/MappedSignal.java and react/MappedValue.java: a derived reactor that
 * holds one connection to its source while it has listeners of its own.
 * The first listener added makes it connect (through a relay listener on
 * the source); when the last one goes, it closes that connection.
 *
 * The derived reactor is at rest in every operation here: the hooks
 * `connectionAdded`/`connectionRemoved` are called by its own
 * `addCons`/`disconnect`/`removeConnection` when they take effect, which
 * is at once outside a pass or in the drain after one. The source may be
 * in the middle of a pass (a listener of the derived signal, fired by the
 * source, can close the last listener): its connection operations then
 * act on the cell at once and queue the linking or unlinking.
 */
module Mapped {
  import opened Common
  import opened Cons
  import opened Engine
  import opened Reactors
  import EngineFacts
  import ConnectionFacts
  import Connections
  import SignalScenarios

  /**
   * The two reactors are distinct, the derived one is at rest, and a held
   * source connection is an open cell of the source.
   */
  ghost predicate Wired<S, T>(own: Reactor<T>, src: Reactor<S>, conn: Option<CellId>)
    reads own, own.chain, src, src.chain
  {
    && own as object != src as object && own.chain != src.chain
    && own.Valid() && src.Valid() && !own.dispatching
    && (conn.Some? ==> Connections.IsOpen(src.Model(), conn.value))
  }

  /** The source connection is held exactly while the derived reactor has listeners. */
  ghost predicate Attached<T>(own: Reactor<T>, conn: Option<CellId>)
    reads own, own.chain
  {
    conn.Some? <==> own.chain.members != []
  }

  /**
   * Connecting the relay to the source: a fresh open cell, linked into the
   * source's chain at rest; during a source pass the snapshot is kept and
   * the linking queued, so the pass under way does not reach the relay.
   */
  method ConnectSource<S>(src: Reactor<S>, relay: nat) returns (c: CellId)
    requires src.Valid()
    modifies src, src.chain
    ensures src.Valid() && src.dispatching == old(src.dispatching)
    ensures (src.Model(), Ok(c)) == Engine.AddConnection(old(src.Model()), Some(relay))
    ensures Connections.IsOpen(src.Model(), c) && c !in old(src.cells)
    ensures !old(src.dispatching) ==> forall x :: x in src.chain.members <==> x in old(src.chain.members) || x == c
    ensures old(src.dispatching) ==> src.chain.members == old(src.chain.members) && src.pending == old(src.pending) + [InsertRun(c)]
    ensures forall x :: x in old(src.cells) ==> x in src.cells && src.cells[x] == old(src.cells)[x]
  {
    ghost var st := src.Model();
    if st.dispatching {
      ConnectionFacts.AddConnectionDuringPass(st, relay);
    } else {
      ConnectionFacts.AddConnectionAtRest(st, Some(relay));
    }
    var r := src.AddConnection(Some(relay));
    c := r.value;
    if !st.dispatching {
      assert st.chain[..FirstBelow(st.chain, st.cells, 0)] + [c] + st.chain[FirstBelow(st.chain, st.cells, 0)..] == src.chain.members;
    }
  }

  /**
   * Closing the held source connection: it is closed and its listener
   * swapped for the placeholder; at rest it is unlinked, during a source
   * pass its unlinking is queued; nothing else changes.
   */
  method CloseSource<S>(src: Reactor<S>, c: CellId)
    requires src.Valid()
    modifies src, src.chain
    ensures src.Valid() && src.Model() == Engine.Close(old(src.Model()), c)
    ensures Connections.Closed(old(src.Model()), src.Model(), c)
  {
    Connections.CloseMeaning(src.Model(), c);
    src.Close(c);
  }

  /** `MappedSignal`: a signal derived from `src`, connected to it while it has listeners. */
  class MappedSignal<S, T> {
    /** The derived signal's own reactor. */
    const own: Reactor<T>
    /** The underlying signal. */
    const src: Reactor<S>
    /** The listener `connect()` attaches to the source. */
    const relay: nat
    /** What the relay passes on for a source value: `None` when it emits nothing. */
    const forward: S -> Option<T>
    /** `_conn`. */
    var conn: Option<CellId>

    ghost predicate Valid()
      reads this, own, own.chain, src, src.chain
    {
      Wired(own, src, conn) && Attached(own, conn)
    }

    /** A derived signal starts with no listeners and no source connection. */
    constructor (src: Reactor<S>, relay: nat, forward: S -> Option<T>)
      requires src.Valid()
      ensures Valid() && this.src == src && this.relay == relay && this.forward == forward && conn.None?
      ensures own.Model() == Empty() && fresh(own) && fresh(own.chain)
    {
      this.src := src;
      this.relay := relay;
      this.forward := forward;
      own := new Reactor();
      conn := None;
    }

    /**
     * The relay listener's `onEmit(value)`: `notifyEmit` of what `forward`
     * makes of the value, or nothing when it makes nothing of it.
     */
    method OnSourceEmit(v: S, script: (nat, T) -> seq<Action<T>>, fuel: nat) returns (thrown: Option<Exn>)
      requires own.Valid()
      modifies own, own.chain
      ensures own.Valid()
      ensures forward(v).None? ==> own.Model() == old(own.Model()) && thrown.None?
      ensures forward(v).Some? ==>
        own.Model() == Engine.Notify(script, old(own.Model()), forward(v).value, fuel)
        && thrown == Thrown(old(own.Model()), own.Model())
    {
      match forward(v)
      case Some(m) =>
        thrown := own.Notify(script, m, fuel);
      case None =>
        thrown := None;
    }

    /** `connectionAdded()`: connect to the source, unless a connection is already held. */
    method ConnectionAdded()
      requires Wired(own, src, conn) && own.chain.members != []
      modifies this, src, src.chain
      ensures Valid()
      ensures old(conn).Some? ==> conn == old(conn) && src.Model() == old(src.Model())
      ensures old(conn).None? ==> (src.Model(), Ok(conn.value)) == Engine.AddConnection(old(src.Model()), Some(relay))
    {
      if conn.None? {
        var c := ConnectSource(src, relay);
        conn := Some(c);
      }
    }

    /**
     * `connectionRemoved()`: when no listener remains and a connection is
     * held, close it and forget it; otherwise nothing.
     */
    method ConnectionRemoved()
      requires Wired(own, src, conn) && (conn.None? ==> own.chain.members == [])
      modifies this, src, src.chain
      ensures Valid()
      ensures old(conn).Some? && own.chain.members == [] ==> conn.None? && src.Model() == Engine.Close(old(src.Model()), old(conn).value)
      ensures !(old(conn).Some? && own.chain.members == []) ==> conn == old(conn) && src.Model() == old(src.Model())
    {
      if !own.HasConnections() && conn.Some? {
        CloseSource(src, conn.value);
        conn := None;
      }
    }

    /**
     * `connect(listener)`: add the listener, then run `connectionAdded`; a
     * null listener is refused before anything changes.
     */
    method Connect(listener: Option<nat>) returns (res: Result<CellId>)
      requires Valid()
      modifies this, own, own.chain, src, src.chain
      ensures Valid()
      ensures (own.Model(), res) == Engine.AddConnection(old(own.Model()), listener)
      ensures res.Throws? ==> conn == old(conn) && src.Model() == old(src.Model())
      ensures res.Ok? && old(conn).None? ==> (src.Model(), Ok(conn.value)) == Engine.AddConnection(old(src.Model()), Some(relay))
      ensures res.Ok? && old(conn).Some? ==> conn == old(conn) && src.Model() == old(src.Model())
    {
      ConnectionFacts.AddConnectionAtRest(own.Model(), listener);
      res := own.AddConnection(listener);
      if res.Ok? {
        assert res.value in own.chain.members;
        ConnectionAdded();
      }
    }

    /**
     * `Cons.close()` on one of the derived signal's listeners: an open cell
     * is closed and unlinked, then `connectionRemoved` runs; closing the
     * last listener closes the source connection.
     */
    method CloseListener(c: CellId)
      requires Valid()
      modifies this, own, own.chain, src, src.chain
      ensures Valid()
      ensures own.Model() == Engine.Close(old(own.Model()), c)
      ensures own.chain.members == [] && old(conn).Some? ==> conn.None? && src.Model() == Engine.Close(old(src.Model()), old(conn).value)
      ensures own.chain.members != [] ==> conn == old(conn) && src.Model() == old(src.Model())
    {
      var open := c in own.cells && own.cells[c].owned;
      Connections.CloseMeaning(own.Model(), c);
      own.Close(c);
      if open {
        ConnectionRemoved();
      }
    }

    /**
     * `disconnect(listener)` (`removeConnection`): drop every cell of the
     * listener, then run `connectionRemoved`.
     */
    method RemoveListener(l: Listener)
      requires Valid()
      modifies this, own, own.chain, src, src.chain
      ensures Valid()
      ensures own.Model() == Engine.RemoveConnection(old(own.Model()), l)
      ensures own.chain.members == [] && old(conn).Some? ==> conn.None? && src.Model() == Engine.Close(old(src.Model()), old(conn).value)
      ensures own.chain.members != [] ==> conn == old(conn) && src.Model() == old(src.Model())
    {
      ConnectionFacts.RemoveConnectionAtRest(own.Model(), l);
      own.RemoveConnection(l);
      ConnectionRemoved();
    }
  }

  /** `MappedValue`: a value derived from `src`, connected to it while it has listeners. */
  class MappedValue<S, T> {
    const own: Reactor<T>
    const src: Reactor<S>
    const relay: nat
    var conn: Option<CellId>

    ghost predicate Valid()
      reads this, own, own.chain, src, src.chain
    {
      Wired(own, src, conn) && Attached(own, conn)
    }

    constructor (src: Reactor<S>, relay: nat)
      requires src.Valid()
      ensures Valid() && this.src == src && this.relay == relay && conn.None?
      ensures own.Model() == Empty() && fresh(own) && fresh(own.chain)
    {
      this.src := src;
      this.relay := relay;
      own := new Reactor();
      conn := None;
    }

    /** `disconnect()`: close a held connection and clear it; without one, nothing. */
    method Disconnect()
      requires Wired(own, src, conn)
      modifies this, src, src.chain
      ensures Wired(own, src, conn) && conn.None?
      ensures old(conn).Some? ==> src.Model() == Engine.Close(old(src.Model()), old(conn).value)
      ensures old(conn).Some? ==> !src.cells[old(conn).value].owned && ListenerOf(src.cells, old(conn).value) == Noop
      ensures old(conn).Some? && !old(src.dispatching) ==> old(conn).value !in src.chain.members
      ensures old(conn).Some? && old(src.dispatching) ==> src.pending == old(src.pending) + [RemoveRun(old(conn).value)]
      ensures old(conn).None? ==> src.Model() == old(src.Model())
    {
      if conn.Some? {
        CloseSource(src, conn.value);
        conn := None;
      }
    }

    /**
     * `reconnect()`: `disconnect()`, then a fresh connection; exactly one
     * source connection is held afterwards, the new one.
     */
    method Reconnect()
      requires Wired(own, src, conn)
      modifies this, src, src.chain
      ensures Wired(own, src, conn) && conn.Some?
      ensures own.chain.members != [] ==> Valid()
      ensures var closed := if old(conn).Some? then Engine.Close(old(src.Model()), old(conn).value) else old(src.Model());
        (src.Model(), Ok(conn.value)) == Engine.AddConnection(closed, Some(relay))
      ensures old(conn).Some? ==> !src.cells[old(conn).value].owned
      ensures old(conn).Some? && !old(src.dispatching) ==> old(conn).value !in src.chain.members
    {
      ghost var held := conn;
      ghost var resting := !src.dispatching;
      Disconnect();
      assert held.Some? ==> held.value in src.cells && !src.cells[held.value].owned;
      assert held.Some? && resting ==> held.value !in src.chain.members;
      var c := ConnectSource(src, relay);
      conn := Some(c);
    }

    /** `connectionAdded()`: connect to the source, unless a connection is already held. */
    method ConnectionAdded()
      requires Wired(own, src, conn) && own.chain.members != []
      modifies this, src, src.chain
      ensures Valid()
      ensures old(conn).Some? ==> conn == old(conn) && src.Model() == old(src.Model())
      ensures old(conn).None? ==> (src.Model(), Ok(conn.value)) == Engine.AddConnection(old(src.Model()), Some(relay))
    {
      if conn.None? {
        var c := ConnectSource(src, relay);
        conn := Some(c);
      }
    }

    /** `connectionRemoved()`: with no listener left, `disconnect()`. */
    method ConnectionRemoved()
      requires Wired(own, src, conn) && (conn.None? ==> own.chain.members == [])
      modifies this, src, src.chain
      ensures Valid()
      ensures old(conn).Some? && own.chain.members == [] ==> conn.None? && src.Model() == Engine.Close(old(src.Model()), old(conn).value)
      ensures !(old(conn).Some? && own.chain.members == []) ==> conn == old(conn) && src.Model() == old(src.Model())
    {
      if !own.HasConnections() {
        Disconnect();
      }
    }

    /** `connect(listener)`: add the listener, then run `connectionAdded`. */
    method Connect(listener: Option<nat>) returns (res: Result<CellId>)
      requires Valid()
      modifies this, own, own.chain, src, src.chain
      ensures Valid()
      ensures (own.Model(), res) == Engine.AddConnection(old(own.Model()), listener)
      ensures res.Throws? ==> conn == old(conn) && src.Model() == old(src.Model())
      ensures res.Ok? && old(conn).None? ==> (src.Model(), Ok(conn.value)) == Engine.AddConnection(old(src.Model()), Some(relay))
      ensures res.Ok? && old(conn).Some? ==> conn == old(conn) && src.Model() == old(src.Model())
    {
      ConnectionFacts.AddConnectionAtRest(own.Model(), listener);
      res := own.AddConnection(listener);
      if res.Ok? {
        assert res.value in own.chain.members;
        ConnectionAdded();
      }
    }

    /** `Cons.close()` on one of the derived value's listeners, then `connectionRemoved`. */
    method CloseListener(c: CellId)
      requires Valid()
      modifies this, own, own.chain, src, src.chain
      ensures Valid()
      ensures own.Model() == Engine.Close(old(own.Model()), c)
      ensures own.chain.members == [] && old(conn).Some? ==> conn.None? && src.Model() == Engine.Close(old(src.Model()), old(conn).value)
      ensures own.chain.members != [] ==> conn == old(conn) && src.Model() == old(src.Model())
    {
      var open := c in own.cells && own.cells[c].owned;
      Connections.CloseMeaning(own.Model(), c);
      own.Close(c);
      if open {
        ConnectionRemoved();
      }
    }
  }

  // ---------------------------------------------------------------------
  // The relays of react/AbstractSignal.java's `map`, `filter` and `collect`
  // ---------------------------------------------------------------------

  /** `map(func)`: every source value is passed on, transformed. */
  function MapRelay<S, T>(func: S -> T): S -> Option<T> {
    v => Some(func(v))
  }

  /** `filter(pred)`: a source value is passed on as it is, when `pred` accepts it. */
  function FilterRelay<T>(pred: T -> bool): T -> Option<T> {
    v => if pred(v) then Some(v) else None
  }

  /** `collect(collector)`: the collected value is passed on when it is not null. */
  function CollectRelay<S, T>(collector: S -> Option<T>): S -> Option<T> {
    v => match collector(v) case Some(m) => Some(m) case None => None
  }

  /**
   * What each derived signal emits for a source value: `map` always emits
   * `func(v)`; `filter` emits `v` exactly when `pred(v)`; `collect` emits
   * exactly the non-null collected values.
   */
  lemma RelayMeaning<S, T>(func: S -> T, pred: S -> bool, collector: S -> Option<T>, v: S)
    ensures MapRelay(func)(v) == Some(func(v))
    ensures FilterRelay(pred)(v).Some? <==> pred(v)
    ensures FilterRelay(pred)(v).Some? ==> FilterRelay(pred)(v).value == v
    ensures CollectRelay(collector)(v) == collector(v)
  {
  }

  /**
   * With listeners that do nothing, a derived signal at rest delivers what
   * the relay passes on to each of its listeners, in chain order, and
   * delivers nothing when the relay passes nothing on.
   */
  lemma RelayDelivers<S, T>(forward: S -> Option<T>, v: S, st: State<T>, script: (nat, T) -> seq<Action<T>>, fuel: nat)
    requires EngineFacts.Valid(st) && !st.dispatching
    requires forward(v).Some? ==> SignalScenarios.Quiet(script, forward(v).value)
    ensures forward(v).Some? ==>
      var r := Notify(script, st, forward(v).value, fuel);
      r.log == st.log + SignalScenarios.Deliveries(st.chain, st.cells, forward(v).value) && Thrown(st, r).None?
  {
    if forward(v).Some? {
      SignalScenarios.QuietNotify(script, st, forward(v).value, fuel);
    }
  }

  /**
   * When the relay is the source's only connection, closing the relay
   * leaves the source with no connections at all.
   */
  lemma LastListenerReleasesSource<S>(st: State<S>, c: CellId)
    requires EngineFacts.Valid(st) && !st.dispatching && st.chain == [c] && Connections.IsOpen(st, c)
    ensures !HasConnections(Close(st, c))
  {
    ConnectionFacts.CloseEffect(st, c);
    RemovedMembers(st.chain, c);
    ConnectionFacts.HasConnectionsMeaning(Close(st, c));
  }
}
