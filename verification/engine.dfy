/**
 * The dispatch engine of react/Reactor.java and the connection operations of
 * react/Cons.java, as functions on an explicit reactor state.
 *
 * Listener code is not Java here: a listener is identified by a slot number
 * and a `script` says, for a slot and a payload, what the listener does when
 * invoked (connect, close, change priority, emit again, throw...). The engine
 * interprets these actions exactly as the reactor's methods would.
 *
 * The state holds the chain as a sequence (the linked version is in
 * cons.dfy), the cells' other fields, whether a dispatch pass is running,
 * the FIFO queue of deferred runs, a log of deliveries and a log of the
 * exceptions caught during passes.
 */
module Engine {
  import opened Common
  import opened Cons

  /** One step of a listener's behaviour. */
  datatype Action<P> =
    | Connect(slot: nat)                    // addConnection(slot); the new cell gets the next free id
    | CloseCell(cell: CellId)               // Connection.close()
    | SetOnce(cell: CellId)                 // Connection.once()
    | ChangePrio(cell: CellId, priority: int) // Connection.atPrio(priority)
    | RemoveSlot(slot: nat)                 // removeConnection(slot)
    | Emit(payload: P)                      // notify(payload) on the same reactor
    | Fail(failure: Exn)                    // the listener throws

  /** A deferred operation in `_pendingRuns`. */
  datatype Run<P> =
    | InsertRun(cell: CellId)
    | RemoveRun(cell: CellId)
    | RemoveAllRun(listener: Listener)
    | NotifyRun(payload: P)

  /** A listener invocation: the cell, its listener and what it was given. */
  datatype Delivery<P> = Delivery(cell: CellId, slot: nat, payload: P)

  /**
   * A reactor. `chain` is `_listeners` outside a pass and the snapshot the
   * pass walks during one (the source keeps it in a local and puts a
   * sentinel in `_listeners`; `dispatching` says which). `exhausted` records
   * that a queued notification was dropped for lack of fuel.
   */
  datatype State<P> = State(
    chain: seq<CellId>,
    cells: Cells,
    dispatching: bool,
    pending: seq<Run<P>>,
    nextId: nat,
    log: seq<Delivery<P>>,
    errors: seq<Exn>,
    exhausted: bool)

  /** The messages of the exceptions the reactor and its cells throw. */
  const NullListener := "Null listener"
  const PrioOfClosed := "Cannot change priority of disconnected connection."
  const ClearWhileDispatching := "Cannot clear connections while dispatching."

  /** A reactor with no connections. */
  function Empty<P>(): State<P> {
    State([], map[], false, [], 0, [], [], false)
  }

  /**
   * How the cells may change over any run of the engine: no cell disappears,
   * a listener can only be swapped for the placeholder, and the one-shot and
   * closed flags are never reset.
   */
  ghost predicate CellsEvolve(a: Cells, b: Cells) {
    forall c :: c in a ==>
      && c in b
      && (b[c].listener == a[c].listener || b[c].listener == Noop)
      && (a[c].oneShot ==> b[c].oneShot)
      && (!a[c].owned ==> !b[c].owned)
  }

  /** Every cell id in use is below `nextId`, so the next id is fresh. */
  ghost predicate IdsBelow<P>(st: State<P>) {
    forall c :: c in st.cells ==> c < st.nextId
  }

  /**
   * What every connection operation keeps: the pass flag, the logs and the
   * fuel flag are untouched, ids stay fresh, cells only evolve, and during a
   * pass the snapshot stays put while deferred work is only appended.
   */
  ghost predicate Keeps<P>(a: State<P>, b: State<P>) {
    && b.dispatching == a.dispatching && b.log == a.log && b.errors == a.errors && b.exhausted == a.exhausted
    && a.nextId <= b.nextId
    && (IdsBelow(a) ==> IdsBelow(b) && CellsEvolve(a.cells, b.cells))
    && (a.dispatching ==> b.chain == a.chain && a.pending <= b.pending)
  }

  // ---------------------------------------------------------------------
  // Connection operations
  // ---------------------------------------------------------------------

  /** `addCons(c)`: link the cell now, or queue the insertion while dispatching. */
  function AddCons<P>(st: State<P>, c: CellId): State<P> {
    if st.dispatching then st.(pending := st.pending + [InsertRun(c)])
    else st.(chain := Inserted(st.chain, st.cells, c))
  }

  /** `disconnect(c)`: unlink the cell now, or queue the removal while dispatching. */
  function Disconnect<P>(st: State<P>, c: CellId): State<P> {
    if st.dispatching then st.(pending := st.pending + [RemoveRun(c)])
    else st.(chain := Removed(st.chain, c))
  }

  /** `removeConnection(l)`: drop every cell of listener `l`, now or after the pass. */
  function RemoveConnection<P>(st: State<P>, l: Listener): (r: State<P>)
    ensures Keeps(st, r)
  {
    if st.dispatching then st.(pending := st.pending + [RemoveAllRun(l)])
    else st.(chain := RemovedAll(st.chain, st.cells, l))
  }

  /**
   * `addConnection(listener)`: a null listener is rejected; otherwise a new
   * open cell with priority 0 is created and added.
   */
  function AddConnection<P>(st: State<P>, listener: Option<nat>): (r: (State<P>, Result<CellId>))
    ensures Keeps(st, r.0)
  {
    match listener
    case None => (st, Throws(NullPointer(NullListener)))
    case Some(slot) =>
      var c := st.nextId;
      var st1 := st.(cells := st.cells[c := Cell(Slot(slot), 0, false, true)], nextId := c + 1);
      (AddCons(st1, c), Ok(c))
  }

  /**
   * `Cons.close()`: on an open cell, swap the listener for the placeholder,
   * disconnect, and mark the cell closed; on a closed cell, nothing.
   */
  function Close<P>(st: State<P>, c: CellId): (r: State<P>)
    ensures Keeps(st, r)
    ensures c in st.cells ==> c in r.cells && !r.cells[c].owned && r.cells[c].oneShot == st.cells[c].oneShot
  {
    if c in st.cells && st.cells[c].owned then
      var st1 := st.(cells := st.cells[c := st.cells[c].(listener := Noop, owned := false)]);
      Disconnect(st1, c)
    else st
  }

  /** `Cons.once()`: set the one-shot flag. */
  function Once<P>(st: State<P>, c: CellId): (r: State<P>)
    ensures Keeps(st, r)
  {
    if c in st.cells then st.(cells := st.cells[c := st.cells[c].(oneShot := true)]) else st
  }

  /**
   * `Cons.atPrio(p)`: a closed cell is refused with IllegalStateException;
   * an open one is disconnected, given the new priority and added again.
   * (The source also clears the cell's link at once; that step is dropped,
   * see the findings in README.md.)
   */
  function AtPrio<P>(st: State<P>, c: CellId, p: int): (r: (State<P>, Option<Exn>))
    ensures Keeps(st, r.0)
  {
    if c in st.cells && st.cells[c].owned then
      var st1 := Disconnect(st, c);
      var st2 := st1.(cells := st1.cells[c := st1.cells[c].(priority := p)]);
      (AddCons(st2, c), None)
    else (st, Some(IllegalState(PrioOfClosed)))
  }

  /** `clearConnections()`: refused while dispatching, otherwise the chain is emptied. */
  function ClearConnections<P>(st: State<P>): (State<P>, Option<Exn>) {
    if st.dispatching then (st, Some(IllegalState(ClearWhileDispatching))) else (st.(chain := []), None)
  }

  /** `hasConnections()`: `_listeners != null`, which includes the sentinel of a running pass. */
  function HasConnections<P>(st: State<P>): bool {
    st.dispatching || st.chain != []
  }

  // ---------------------------------------------------------------------
  // Running listener code
  // ---------------------------------------------------------------------

  /**
   * One action of a listener invoked during a pass. `Emit` is a `notify`
   * while dispatching, so it is queued. A failing `atPrio` and `Fail` throw.
   */
  function Apply<P>(st: State<P>, a: Action<P>): (r: (State<P>, Option<Exn>))
    ensures r.0.dispatching == st.dispatching && r.0.log == st.log && r.0.errors == st.errors
    ensures r.0.exhausted == st.exhausted && st.nextId <= r.0.nextId
    ensures IdsBelow(st) ==> IdsBelow(r.0) && CellsEvolve(st.cells, r.0.cells)
    ensures st.dispatching ==> r.0.chain == st.chain && st.pending <= r.0.pending
  {
    match a
    case Connect(slot) => (AddConnection(st, Some(slot)).0, None)
    case CloseCell(c) => (Close(st, c), None)
    case SetOnce(c) => (Once(st, c), None)
    case ChangePrio(c, p) => AtPrio(st, c, p)
    case RemoveSlot(slot) => (RemoveConnection(st, Slot(slot)), None)
    case Emit(p) => (st.(pending := st.pending + [NotifyRun(p)]), None)
    case Fail(e) => (st, Some(e))
  }

  /** A listener's actions, in order, up to the first one that throws. */
  function RunScript<P>(st: State<P>, acts: seq<Action<P>>): (r: (State<P>, Option<Exn>))
    ensures r.0.dispatching == st.dispatching && r.0.log == st.log && r.0.errors == st.errors
    ensures r.0.exhausted == st.exhausted && st.nextId <= r.0.nextId
    ensures IdsBelow(st) ==> IdsBelow(r.0) && CellsEvolve(st.cells, r.0.cells)
    ensures st.dispatching ==> r.0.chain == st.chain && st.pending <= r.0.pending
    decreases |acts|
  {
    if acts == [] then (st, None)
    else
      var (st1, e) := Apply(st, acts[0]);
      if e.Some? then (st1, e) else RunScript(st1, acts[1..])
  }

  /**
   * The listener call in the body of the dispatch loop: invoke the cell's
   * current listener (the placeholder does nothing) and record an exception
   * it throws.
   */
  function Invoke<P>(script: (nat, P) -> seq<Action<P>>, st: State<P>, c: CellId, p: P): (r: State<P>)
    ensures r.dispatching == st.dispatching && r.exhausted == st.exhausted && st.nextId <= r.nextId
    ensures r.log == st.log + (if ListenerOf(st.cells, c).Slot? then [Delivery(c, ListenerOf(st.cells, c).id, p)] else [])
    ensures st.errors <= r.errors
    ensures IdsBelow(st) ==> IdsBelow(r) && CellsEvolve(st.cells, r.cells)
    ensures st.dispatching ==> r.chain == st.chain && st.pending <= r.pending
  {
    var l := ListenerOf(st.cells, c);
    if l.Noop? then st
    else
      var st1 := st.(log := st.log + [Delivery(c, l.id, p)]);
      var (st2, e) := RunScript(st1, script(l.id, p));
      if e.Some? then st2.(errors := st2.errors + [e.value]) else st2
  }

  /** The body of the dispatch loop for one cell: invoke it, then close it if it is one-shot. */
  function Visit<P>(script: (nat, P) -> seq<Action<P>>, st: State<P>, c: CellId, p: P): (r: State<P>)
    ensures r.dispatching == st.dispatching && r.exhausted == st.exhausted && st.nextId <= r.nextId
    ensures r.log == st.log + (if ListenerOf(st.cells, c).Slot? then [Delivery(c, ListenerOf(st.cells, c).id, p)] else [])
    ensures st.errors <= r.errors
    ensures IdsBelow(st) ==> IdsBelow(r) && CellsEvolve(st.cells, r.cells)
    ensures c in r.cells && r.cells[c].oneShot ==> !r.cells[c].owned
    ensures st.dispatching ==> r.chain == st.chain && st.pending <= r.pending
  {
    var st1 := Invoke(script, st, c, p);
    if c in st1.cells && st1.cells[c].oneShot then Close(st1, c) else st1
  }

  /** The dispatch loop over the snapshot `snap`. */
  function Pass<P>(script: (nat, P) -> seq<Action<P>>, st: State<P>, snap: seq<CellId>, p: P): (r: State<P>)
    ensures r.dispatching == st.dispatching && r.exhausted == st.exhausted && st.nextId <= r.nextId
    ensures st.log <= r.log && st.errors <= r.errors
    ensures IdsBelow(st) ==> IdsBelow(r) && CellsEvolve(st.cells, r.cells)
    ensures st.dispatching ==> r.chain == st.chain && st.pending <= r.pending
    decreases |snap|
  {
    if snap == [] then st else Pass(script, Visit(script, st, snap[0], p), snap[1..], p)
  }

  /** A pass over one cell is the visit of that cell. */
  lemma PassOne<P>(script: (nat, P) -> seq<Action<P>>, st: State<P>, a: CellId, p: P)
    ensures Pass(script, st, [a], p) == Visit(script, st, a, p)
  {
    assert [a][1..] == [];
  }

  /** A pass over two cells visits the first, then the second. */
  lemma PassPair<P>(script: (nat, P) -> seq<Action<P>>, st: State<P>, a: CellId, b: CellId, p: P)
    ensures Pass(script, st, [a, b], p) == Visit(script, Visit(script, st, a, p), b, p)
  {
    assert [a, b][1..] == [b];
    PassOne(script, Visit(script, st, a, p), b, p);
  }

  /** A pass over the current chain, with the sentinel set during it and cleared after. */
  function FullPass<P>(script: (nat, P) -> seq<Action<P>>, st: State<P>, p: P): (r: State<P>)
    ensures !r.dispatching && r.chain == st.chain && st.pending <= r.pending && r.exhausted == st.exhausted
    ensures st.nextId <= r.nextId && st.log <= r.log && st.errors <= r.errors
    ensures IdsBelow(st) ==> IdsBelow(r) && CellsEvolve(st.cells, r.cells)
  {
    Pass(script, st.(dispatching := true), st.chain, p).(dispatching := false)
  }

  /**
   * The `finally` block of `notify`: run the deferred operations in FIFO
   * order. A queued notification runs a full pass of its own, whose own
   * deferred operations join the end of the same queue; the source does
   * this through a nested `notify` call that drains the shared queue, which
   * delivers in the same order and catches the exceptions in the same
   * order. Each queued notification costs one unit of `fuel`; when none is
   * left the notification is dropped and `exhausted` is set.
   */
  function Drain<P>(script: (nat, P) -> seq<Action<P>>, st: State<P>, fuel: nat): (r: State<P>)
    ensures r.pending == [] && (!st.dispatching ==> !r.dispatching) && st.nextId <= r.nextId
    ensures st.log <= r.log && st.errors <= r.errors
    ensures IdsBelow(st) ==> IdsBelow(r) && CellsEvolve(st.cells, r.cells)
    decreases fuel, |st.pending|
  {
    if st.pending == [] then st
    else
      var (s, f) := DrainStep(script, st, fuel);
      Drain(script, s, f)
  }

  /** Take the first deferred run off the queue and perform it. */
  function DrainStep<P>(script: (nat, P) -> seq<Action<P>>, st: State<P>, fuel: nat): (r: (State<P>, nat))
    requires st.pending != []
    ensures r.1 < fuel || (r.1 == fuel && |r.0.pending| < |st.pending|)
    ensures (!st.dispatching ==> !r.0.dispatching) && st.nextId <= r.0.nextId
    ensures st.log <= r.0.log && st.errors <= r.0.errors
    ensures IdsBelow(st) ==> IdsBelow(r.0) && CellsEvolve(st.cells, r.0.cells)
  {
    var s := st.(pending := st.pending[1..]);
    match st.pending[0]
    case InsertRun(c) => (s.(chain := Inserted(s.chain, s.cells, c)), fuel)
    case RemoveRun(c) => (s.(chain := Removed(s.chain, c)), fuel)
    case RemoveAllRun(l) => (s.(chain := RemovedAll(s.chain, s.cells, l)), fuel)
    case NotifyRun(p) =>
      if fuel == 0 then (s.(exhausted := true), 0)
      else (FullPass(script, s, p), fuel - 1)
  }

  /**
   * `notify(p)`: while dispatching it is queued; otherwise one pass over
   * the chain, then the deferred operations.
   */
  function Notify<P>(script: (nat, P) -> seq<Action<P>>, st: State<P>, p: P, fuel: nat): State<P> {
    if st.dispatching then st.(pending := st.pending + [NotifyRun(p)])
    else Drain(script, FullPass(script, st, p), fuel)
  }

  /** The exception a call rethrows: the first one caught since `before`. */
  function Thrown<P>(before: State<P>, after: State<P>): Option<Exn> {
    if |before.errors| < |after.errors| then Some(after.errors[|before.errors|]) else None
  }

  /**
   * Listener code run directly, outside the reactor's own dispatch (as
   * `connectNotify` does): `Emit` is a full `notify`, whose rethrown
   * exception stops the listener.
   */
  function Direct<P>(script: (nat, P) -> seq<Action<P>>, st: State<P>, acts: seq<Action<P>>, fuel: nat): (State<P>, Option<Exn>)
    decreases |acts|
  {
    if acts == [] then (st, None)
    else
      var (st1, e) :=
        match acts[0]
        case Emit(p) => var n := Notify(script, st, p, fuel); (n, Thrown(st, n))
        case _ => Apply(st, acts[0]);
      if e.Some? then (st1, e) else Direct(script, st1, acts[1..], fuel)
  }
}
